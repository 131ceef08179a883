/** Whether a delivery refused as seen follows a success: it does unless its key's last completed wake was
    stopped. */
module DispatchStopped {
  import opened Common
  import opened Models
  import opened Lru
  import opened Pipeline
  import opened PipelineRuns
  import opened DispatchOnce
  import Breaker
  import BreakerRefusals
  import Dedup
  import Retries = Retry

  /** Every reading in the log was taken by now, and a lookup comes after every mark already made. */
  ghost predicate Timely(x: World) {
    && (forall a :: a in x.waking ==> x.waking[a].1 <= x.clock)
    && (forall i :: 0 <= i < |x.log| && x.log[i].verdict.Completed() ==>
          x.log[i].seenAt <= x.log[i].markedAt <= x.clock)
    && (forall i, j :: 0 <= i < j < |x.log| && x.log[i].verdict.Completed() && x.log[j].verdict == DedupedDelivery
          ==> x.log[i].markedAt <= x.log[j].seenAt)
  }

  lemma StepTimely(cfg: Config, x: World, step: Step, y: World)
    requires Timely(x) && Enabled(x, step) && y == Next(cfg, x, step) && y.inOrder
    ensures Timely(y)
  {
    match step
    case Arrive(agent, event, g) => ArriveEffect(cfg, x, agent, event, g, y);
    case End(agent, w) => EndEffect(cfg, x, agent, w, y);
  }

  lemma {:induction false} RunTimely(cfg: Config, x: World, steps: seq<Step>, y: World)
    requires Runs(cfg, x, steps, y) && y.inOrder && Timely(x)
    ensures Timely(y)
    decreases |steps|
  {
    if steps != [] {
      OrderIsInherited(cfg, Next(cfg, x, steps[0]), steps[1..], y);
      StepTimely(cfg, x, steps[0], Next(cfg, x, steps[0]));
      RunTimely(cfg, Next(cfg, x, steps[0]), steps[1..], y);
    }
  }

  /** Position `i` is the last to have completed a wake for the key before position `j`. */
  ghost predicate LastBefore(log: seq<Done>, i: int, j: int, key: string) {
    && 0 <= i < j <= |log| && Completes(log, i, key)
    && (forall k :: i < k < j ==> !Completes(log, k, key))
  }

  /** An ok for the key is less than a TTL old at the lookup at position `j`. */
  ghost predicate FollowsOk(ttl: real, log: seq<Done>, j: int, key: string)
    requires 0 <= j < |log|
  {
    exists k :: 0 <= k < j && Completes(log, k, key) && log[k].verdict.Ok? && log[j].seenAt - log[k].markedAt < ttl
  }

  lemma {:induction false} LastExists(log: seq<Done>, j: int, key: string, k: int) returns (i: int)
    requires 0 <= k < j <= |log| && Completes(log, k, key)
    ensures k <= i && LastBefore(log, i, j, key)
    decreases j - k
  {
    if exists m :: k < m < j && Completes(log, m, key) {
      var m :| k < m < j && Completes(log, m, key);
      i := LastExists(log, j, key, m);
    } else {
      i := k;
    }
  }

  /** Where each dedup key is one agent's, as it is when a recipient resolves to one agent, a delivery refused
      as seen follows an ok less than a TTL old exactly when the last wake to complete for its key was not
      stopped. */
  lemma DedupFollowsOkIff(cfg: Config, clock: real, steps: seq<Step>, y: World, j: int) returns (i: int)
    requires cfg.ttl > 0.0 && Runs(cfg, Start(clock), steps, y) && y.inOrder
    requires 0 <= j < |y.log| && y.log[j].verdict == DedupedDelivery
    requires forall k :: Completes(y.log, k, y.log[j].event.DedupKey()) ==> y.log[k].agent == y.log[j].agent
    ensures LastBefore(y.log, i, j, y.log[j].event.DedupKey())
    ensures FollowsOk(cfg.ttl, y.log, j, y.log[j].event.DedupKey()) <==> !y.log[i].verdict.StoppedWake?
  {
    var key := y.log[j].event.DedupKey();
    RunTimely(cfg, Start(clock), steps, y);
    var cause := EveryDedupIsCaused(cfg, clock, steps, y, j);
    i := LastExists(y.log, j, key, cause);
    MarksInOrder(cfg, clock, steps, y, cause, i);
    assert Completes(y.log, i, key) && y.log[j].seenAt - y.log[i].markedAt < cfg.ttl;
    if FollowsOk(cfg.ttl, y.log, j, key) {
      var k :| 0 <= k < j && Completes(y.log, k, key) && y.log[k].verdict.Ok? &&
          y.log[j].seenAt - y.log[k].markedAt < cfg.ttl;
      if k < i {
        AtMostOneCompletedPerTtl(cfg, clock, steps, y, k, i);
      }
    }
  }

  lemma MarksInOrder(cfg: Config, clock: real, steps: seq<Step>, y: World, i: int, j: int)
    requires cfg.ttl > 0.0 && Runs(cfg, Start(clock), steps, y) && y.inOrder
    requires 0 <= i <= j < |y.log| && y.log[i].verdict.Completed() && y.log[j].verdict.Completed()
    ensures y.log[i].markedAt <= y.log[j].markedAt
  {
    assert MarksUpTo(y.log, y.clock) by {
      RunKeeps(cfg, Start(clock), steps, y);
    }
  }

  // ---------------------------------------------------------------- a dedup after a stop

  /** A delivery whose wake is stopped, and the same delivery again inside the TTL: it is refused as seen, and
      nothing has succeeded. */
  lemma DedupAfterAStop(cfg: Config, agent: string, event: Event, again: real) returns (steps: seq<Step>, y: World)
    requires cfg.breaker.Ok() && cfg.wakeAttempts >= 1 && 0.0 <= again < cfg.ttl
    ensures Runs(cfg, Start(0.0), steps, y) && y.inOrder
    ensures |y.log| == 2 && y.log[0].verdict == StoppedWake && y.log[1].verdict == DedupedDelivery
    ensures y.log[1].event == y.log[0].event == event && y.log[1].seenAt - y.log[0].markedAt < cfg.ttl
  {
    var g := GateInput(0.0, Proceed, Proceed, 0.0, "t");
    var w := WakeInput((_: nat) => Retries.Attempt(0.0, Retries.Stopped("TERM")), 0.0, "t");
    var x0 := Start(0.0);
    BreakerRefusals.FreshBreakerAdmits(cfg.breaker, Breaker.Call(0.0, agent, Some(event.StreamKey())));
    var x1 := Next(cfg, x0, Arrive(agent, event, g));
    var x2 := Next(cfg, x1, End(agent, w));
    assert x2.log[0].verdict == StoppedWake;
    y := Next(cfg, x2, Arrive(agent, event, g.(seenAt := again)));
    steps := [Arrive(agent, event, g), End(agent, w), Arrive(agent, event, g.(seenAt := again))];
    ThreeSteps(cfg, x0, steps[0], steps[1], steps[2]);
  }
}
