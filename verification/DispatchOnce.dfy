/** At most one completed wake per delivery per TTL, and no delivery deduped without one. */
module DispatchOnce {
  import opened Common
  import opened Models
  import Dedup
  import opened Pipeline
  import opened PipelineRuns

  /** The marks a log made, in order. */
  function Marks(log: seq<Done>): seq<(string, real)> {
    if log == [] then []
    else
      var d, before := log[|log| - 1], Marks(log[..|log| - 1]);
      if d.verdict.Completed() then before + [(d.event.DedupKey(), d.markedAt)] else before
  }

  lemma MarksSnoc(log: seq<Done>, d: Done)
    ensures Marks(log + [d])
            == if d.verdict.Completed() then Marks(log) + [(d.event.DedupKey(), d.markedAt)] else Marks(log)
  {
    assert (log + [d])[..|log|] == log;
  }

  ghost predicate MarksUpTo(log: seq<Done>, t: real) {
    && (forall j, k :: 0 <= j < k < |log| && log[j].verdict.Completed() && log[k].verdict.Completed() ==>
          log[j].markedAt <= log[k].markedAt)
    && (forall i :: 0 <= i < |log| && log[i].verdict.Completed() ==> log[i].markedAt <= t)
  }

  /** Position `i` completed a wake for this dedup key. */
  ghost predicate Completes(log: seq<Done>, i: int, key: string) {
    0 <= i < |log| && log[i].verdict.Completed() && log[i].event.DedupKey() == key
  }

  lemma {:induction false} MarkOfLog(log: seq<Done>, i: int, key: string, t: real)
    requires Completes(log, i, key) && MarksUpTo(log, t)
    ensures Dedup.Latest(Marks(log), key).Some? && log[i].markedAt <= Dedup.Latest(Marks(log), key).value
  {
    var n := |log| - 1;
    MarksSnoc(log[..n], log[n]);
    assert log == log[..n] + [log[n]];
    OfSnoc(Marks(log[..n]), (log[n].event.DedupKey(), log[n].markedAt), key);
    if i < n {
      MarkOfLog(log[..n], i, key, t);
    }
  }

  /** The latest mark of a key is some completed wake's. */
  lemma {:induction false} MarkFromLog(log: seq<Done>, key: string)
    requires Dedup.Latest(Marks(log), key).Some?
    ensures exists i :: Completes(log, i, key) && log[i].markedAt == Dedup.Latest(Marks(log), key).value
  {
    var n := |log| - 1;
    MarksSnoc(log[..n], log[n]);
    assert log == log[..n] + [log[n]];
    OfSnoc(Marks(log[..n]), (log[n].event.DedupKey(), log[n].markedAt), key);
    if log[n].verdict.Completed() && log[n].event.DedupKey() == key {
      assert Completes(log, n, key);
    } else {
      MarkFromLog(log[..n], key);
      var i :| Completes(log[..n], i, key) && log[..n][i].markedAt == Dedup.Latest(Marks(log), key).value;
      assert Completes(log, i, key);
    }
  }

  // ---------------------------------------------------------------- the invariant

  /** A delivery looked up at `seenAt` is a TTL past every earlier completed wake of its agent for its key. */
  ghost predicate Fresh(ttl: real, log: seq<Done>, agent: string, event: Event, seenAt: real) {
    forall i :: Completes(log, i, event.DedupKey()) && log[i].agent == agent ==> seenAt - log[i].markedAt >= ttl
  }

  ghost predicate Apart(ttl: real, log: seq<Done>) {
    forall j :: 0 <= j < |log| && log[j].verdict.Completed() ==>
        Fresh(ttl, log[..j], log[j].agent, log[j].event, log[j].seenAt)
  }

  /** Some earlier completed wake for the same key is less than a TTL old. */
  ghost predicate Caused(ttl: real, log: seq<Done>, d: Done) {
    exists i :: Completes(log, i, d.event.DedupKey()) && d.seenAt - log[i].markedAt < ttl
  }

  /** What the dedup gate answered is what the log so far says. */
  ghost predicate Answered(ttl: real, log: seq<Done>, d: Done) {
    && (d.verdict == DedupedDelivery ==> Caused(ttl, log, d))
    && (d.verdict.Coalesced? ==> !Caused(ttl, log, d))
  }

  ghost predicate AllAnswered(ttl: real, log: seq<Done>) {
    forall j :: 0 <= j < |log| ==> Answered(ttl, log[..j], log[j])
  }

  ghost predicate Deduping(ttl: real, x: World) {
    && Dedup.Faithful(ttl, x.st.deduper, Marks(x.log), x.clock)
    && MarksUpTo(x.log, x.clock)
    && Apart(ttl, x.log)
    && AllAnswered(ttl, x.log)
    && (forall a :: a in x.waking ==> Fresh(ttl, x.log, a, x.waking[a].0, x.waking[a].1))
  }

  // ---------------------------------------------------------------- each step keeps it

  /** Nothing about earlier positions changes when the log grows. */
  lemma GrownLog(ttl: real, log: seq<Done>, d: Done)
    requires Apart(ttl, log) && AllAnswered(ttl, log) && Answered(ttl, log, d)
    requires d.verdict.Completed() ==> Fresh(ttl, log, d.agent, d.event, d.seenAt)
    ensures Apart(ttl, log + [d]) && AllAnswered(ttl, log + [d])
  {
    forall j | 0 <= j <= |log| ensures (log + [d])[..j] == log[..j] {
    }
    assert log[..|log|] == log;
    forall j | 0 <= j <= |log| ensures Answered(ttl, (log + [d])[..j], (log + [d])[j]) {
      assert j < |log| ==> Answered(ttl, log[..j], log[j]);
    }
  }

  lemma StopsKeeps(ttl: real, x: World, y: World, d: Done)
    requires ttl > 0.0 && Deduping(ttl, x) && Stops(x, y, d) && y.inOrder
    requires y.st.deduper == Dedup.Seen(ttl, x.st.deduper, d.event.DedupKey(), d.seenAt).0
    requires d.verdict == DedupedDelivery <==> Dedup.Seen(ttl, x.st.deduper, d.event.DedupKey(), d.seenAt).1
    ensures Deduping(ttl, y)
  {
    var key := d.event.DedupKey();
    Dedup.SeenAnswers(ttl, x.st.deduper, Marks(x.log), key, d.seenAt, x.clock);
    MarksSnoc(x.log, d);
    if d.verdict == DedupedDelivery {
      MarkFromLog(x.log, key);
    } else {
      UnseenIsUncaused(ttl, x, d);
    }
    GrownLog(ttl, x.log, d);
    forall a | a in y.waking ensures Fresh(ttl, y.log, a, y.waking[a].0, y.waking[a].1) {
      assert Fresh(ttl, x.log, a, x.waking[a].0, x.waking[a].1);
      FreshGrows(ttl, x.log, d, a, x.waking[a].0, x.waking[a].1);
    }
  }

  /** A key that was not found had no wake completed for it inside the TTL. */
  lemma UnseenIsUncaused(ttl: real, x: World, d: Done)
    requires ttl > 0.0 && Deduping(ttl, x) && x.clock <= d.seenAt
    requires !Dedup.Seen(ttl, x.st.deduper, d.event.DedupKey(), d.seenAt).1
    ensures !Caused(ttl, x.log, d)
  {
    var key := d.event.DedupKey();
    Dedup.SeenAnswers(ttl, x.st.deduper, Marks(x.log), key, d.seenAt, x.clock);
    forall i | Completes(x.log, i, key) ensures d.seenAt - x.log[i].markedAt >= ttl {
      MarkOfLog(x.log, i, key, x.clock);
    }
  }

  lemma FreshGrows(ttl: real, log: seq<Done>, d: Done, agent: string, event: Event, seenAt: real)
    requires Fresh(ttl, log, agent, event, seenAt) && (!d.verdict.Completed() || d.agent != agent)
    ensures Fresh(ttl, log + [d], agent, event, seenAt)
  {
    forall i | Completes(log + [d], i, event.DedupKey()) && (log + [d])[i].agent == agent
      ensures seenAt - (log + [d])[i].markedAt >= ttl {
      assert Completes(log, i, event.DedupKey());
    }
  }

  lemma PassesKeeps(ttl: real, x: World, y: World, agent: string, event: Event, seenAt: real)
    requires ttl > 0.0 && Deduping(ttl, x) && Passes(x, y, agent, event, seenAt) && y.inOrder
    requires y.st.deduper == Dedup.Seen(ttl, x.st.deduper, event.DedupKey(), seenAt).0
    requires !Dedup.Seen(ttl, x.st.deduper, event.DedupKey(), seenAt).1
    ensures Deduping(ttl, y)
  {
    var key := event.DedupKey();
    Dedup.SeenAnswers(ttl, x.st.deduper, Marks(x.log), key, seenAt, x.clock);
    forall i | Completes(x.log, i, key) ensures seenAt - x.log[i].markedAt >= ttl {
      MarkOfLog(x.log, i, key, x.clock);
    }
    assert Fresh(ttl, x.log, agent, event, seenAt);
  }

  lemma EndsKeeps(ttl: real, x: World, y: World, d: Done)
    requires ttl > 0.0 && Deduping(ttl, x) && Ends(x, y, d) && y.inOrder
    requires d.verdict != DedupedDelivery && !d.verdict.Coalesced?
    requires y.st.deduper
             == if d.verdict.Completed() then Dedup.Mark(ttl, x.st.deduper, d.event.DedupKey(), d.markedAt)
                else x.st.deduper
    ensures Deduping(ttl, y)
  {
    MarksSnoc(x.log, d);
    if d.verdict.Completed() {
      Dedup.MarkAnswers(ttl, x.st.deduper, Marks(x.log), d.event.DedupKey(), d.markedAt, x.clock);
    }
    assert Fresh(ttl, x.log, d.agent, d.event, d.seenAt);
    GrownLog(ttl, x.log, d);
    forall a | a in y.waking ensures Fresh(ttl, y.log, a, y.waking[a].0, y.waking[a].1) {
      assert Fresh(ttl, x.log, a, x.waking[a].0, x.waking[a].1);
      FreshGrows(ttl, x.log, d, a, x.waking[a].0, x.waking[a].1);
    }
  }

  lemma StepKeeps(cfg: Config, x: World, step: Step, y: World)
    requires cfg.ttl > 0.0 && Deduping(cfg.ttl, x) && Enabled(x, step) && y == Next(cfg, x, step) && y.inOrder
    ensures Deduping(cfg.ttl, y)
  {
    match step
    case Arrive(agent, event, g) =>
      ArriveEffect(cfg, x, agent, event, g, y);
      if agent in y.waking {
        PassesKeeps(cfg.ttl, x, y, agent, event, g.seenAt);
      } else {
        StopsKeeps(cfg.ttl, x, y, LastDone(y));
      }
    case End(agent, w) =>
      EndEffect(cfg, x, agent, w, y);
      EndsKeeps(cfg.ttl, x, y, LastDone(y));
  }

  // ---------------------------------------------------------------- over whole runs

  /** Once the readings have gone back they stay out of order. */
  lemma {:induction false} OrderIsInherited(cfg: Config, x: World, steps: seq<Step>, y: World)
    requires Runs(cfg, x, steps, y) && y.inOrder
    ensures x.inOrder
    decreases |steps|
  {
    if steps != [] {
      OrderIsInherited(cfg, Next(cfg, x, steps[0]), steps[1..], y);
    }
  }

  lemma {:induction false} RunKeeps(cfg: Config, x: World, steps: seq<Step>, y: World)
    requires cfg.ttl > 0.0 && Runs(cfg, x, steps, y) && y.inOrder && Deduping(cfg.ttl, x)
    ensures Deduping(cfg.ttl, y)
    decreases |steps|
  {
    if steps != [] {
      var m := Next(cfg, x, steps[0]);
      OrderIsInherited(cfg, m, steps[1..], y);
      StepKeeps(cfg, x, steps[0], m);
      RunKeeps(cfg, m, steps[1..], y);
    }
  }

  /** Two wakes of one agent for one dedup key both complete only if the second was looked up at least a
      TTL after the first was marked. */
  lemma AtMostOneCompletedPerTtl(cfg: Config, clock: real, steps: seq<Step>, y: World, i: int, j: int)
    requires cfg.ttl > 0.0 && Runs(cfg, Start(clock), steps, y) && y.inOrder
    requires 0 <= i < j < |y.log| && y.log[i].verdict.Completed() && y.log[j].verdict.Completed()
    requires y.log[i].agent == y.log[j].agent && y.log[i].event.DedupKey() == y.log[j].event.DedupKey()
    ensures y.log[j].seenAt - y.log[i].markedAt >= cfg.ttl
  {
    RunKeeps(cfg, Start(clock), steps, y);
    assert Fresh(cfg.ttl, y.log[..j], y.log[j].agent, y.log[j].event, y.log[j].seenAt);
    assert Completes(y.log[..j], i, y.log[j].event.DedupKey());
  }

  /** Every delivery refused as already seen follows a completed wake for its key, an ok or a stop, less
      than a TTL old. */
  lemma EveryDedupIsCaused(cfg: Config, clock: real, steps: seq<Step>, y: World, j: int) returns (i: int)
    requires cfg.ttl > 0.0 && Runs(cfg, Start(clock), steps, y) && y.inOrder
    requires 0 <= j < |y.log| && y.log[j].verdict == DedupedDelivery
    ensures 0 <= i < j && y.log[i].verdict.Completed() && y.log[i].event.DedupKey() == y.log[j].event.DedupKey()
    ensures y.log[j].seenAt - y.log[i].markedAt < cfg.ttl
  {
    RunKeeps(cfg, Start(clock), steps, y);
    assert Answered(cfg.ttl, y.log[..j], y.log[j]);
    i :| Completes(y.log[..j], i, y.log[j].event.DedupKey()) && y.log[j].seenAt - y.log[..j][i].markedAt < cfg.ttl;
  }
  /** A delivery that was coalesced, so not refused as seen, follows no completed wake for its own key less than
      a TTL old, ok or stopped. */
  lemma NoCoalesceIsADedup(cfg: Config, clock: real, steps: seq<Step>, y: World, j: int, i: int)
    requires cfg.ttl > 0.0 && Runs(cfg, Start(clock), steps, y) && y.inOrder
    requires 0 <= j < |y.log| && y.log[j].verdict.Coalesced?
    requires i < j && Completes(y.log, i, y.log[j].event.DedupKey())
    ensures y.log[j].seenAt - y.log[i].markedAt >= cfg.ttl
  {
    RunKeeps(cfg, Start(clock), steps, y);
    assert Answered(cfg.ttl, y.log[..j], y.log[j]);
    assert Completes(y.log[..j], i, y.log[j].event.DedupKey());
  }
}
