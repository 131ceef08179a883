/** Which wake a coalesced delivery is recorded under, and whether that wake was a success. */
module DispatchCoalesced {
  import opened Common
  import opened Models
  import opened Coalesce
  import opened Pipeline
  import opened PipelineRuns
  import opened DispatchCoverage
  import DispatchBurst
  import DispatchOnce
  import Dedup
  import Breaker
  import BreakerRefusals
  import Evidence
  import Retries = Retry

  function StreamOf(d: Done): StreamId { (d.agent, d.event.StreamKey()) }

  /** The wake at position `i` is the one the delivery at position `j` was coalesced into. */
  ghost predicate Into(log: seq<Done>, i: int, j: int, capacity: nat) {
    && 0 <= i < j < |log| && log[j].verdict == Coalesced(EntryOf(log[i]).c)
    && exists p :: LatestFrom(log[..j], p, i, capacity, StreamOf(log[j]))
  }

  /** A coalesced delivery is recorded under the delivery and the start of one completed wake: of those of its
      agent on its stream since the stream was last brought in, the last to finish of those that started last. */
  lemma CoalesceNamesLatest(cfg: Config, clock: real, steps: seq<Step>, y: World, j: int) returns (i: int)
    requires 1 <= cfg.capacity && Runs(cfg, Start(clock), steps, y)
    requires 0 <= j < |y.log| && y.log[j].verdict.Coalesced?
    ensures Into(y.log, i, j, cfg.capacity)
    ensures CoveredBy(y.log[..j], i, y.log[j].agent, y.log[j].event, cfg.capacity)
    ensures forall k :: Into(y.log, k, j, cfg.capacity) ==> k == i
  {
    DispatchBurst.RunKeeps(cfg, Start(clock), steps, y);
    var before, id := y.log[..j], StreamOf(y.log[j]);
    assert DispatchBurst.Collapsed(before, y.log[j], cfg.capacity);
    var p;
    p, i := HeldIsLatest(before, cfg.capacity, id);
    forall k | Into(y.log, k, j, cfg.capacity) ensures k == i {
      var q :| LatestFrom(before, q, k, cfg.capacity, id);
      LatestIsUnique(before, p, i, q, k, cfg.capacity, id);
    }
  }

  /** It is recorded under a success exactly when that wake was not stopped. */
  lemma CoalescedIntoOkIff(cfg: Config, clock: real, steps: seq<Step>, y: World, j: int) returns (i: int)
    requires 1 <= cfg.capacity && Runs(cfg, Start(clock), steps, y)
    requires 0 <= j < |y.log| && y.log[j].verdict.Coalesced?
    ensures Into(y.log, i, j, cfg.capacity)
    ensures (exists k :: Into(y.log, k, j, cfg.capacity) && y.log[k].verdict.Ok?) <==> !y.log[i].verdict.StoppedWake?
  {
    i := CoalesceNamesLatest(cfg, clock, steps, y, j);
  }

  /** No completed wake of the stream started before one that finished earlier. */
  ghost predicate StartsOrdered(log: seq<Done>, id: StreamId) {
    forall k, l :: k < l && Records(log, k, id) && Records(log, l, id) ==> log[k].startedAt <= log[l].startedAt
  }

  /** Position `i` is the stream's last completed wake. */
  ghost predicate LastRecorded(log: seq<Done>, i: int, id: StreamId) {
    Records(log, i, id) && forall k :: Records(log, k, id) ==> k <= i
  }

  /** When the stream's starts never went back, that is exactly when the stream's last completed wake before the
      delivery was not stopped. */
  lemma CoalescedIntoOkIffLastIs(cfg: Config, clock: real, steps: seq<Step>, y: World, j: int, last: int)
    requires 1 <= cfg.capacity && Runs(cfg, Start(clock), steps, y)
    requires 0 <= j < |y.log| && y.log[j].verdict.Coalesced?
    requires StartsOrdered(y.log[..j], StreamOf(y.log[j])) && LastRecorded(y.log[..j], last, StreamOf(y.log[j]))
    ensures Into(y.log, last, j, cfg.capacity)
    ensures (exists k :: Into(y.log, k, j, cfg.capacity) && y.log[k].verdict.Ok?) <==> !y.log[last].verdict.StoppedWake?
  {
    var i := CoalescedIntoOkIff(cfg, clock, steps, y, j);
    var p :| LatestFrom(y.log[..j], p, i, cfg.capacity, StreamOf(y.log[j]));
    assert Records(y.log[..j], i, StreamOf(y.log[j])) && i <= last;
  }

  // ---------------------------------------------------------------- two coalesces without a recent ok

  const GATES := GateInput(0.0, Proceed, Proceed, 0.0, "t")

  function OneAttempt(ending: Retries.Ending, started: real): WakeInput {
    WakeInput((_: nat) => Retries.Attempt(started, ending), 0.0, "t")
  }

  /** One stamped delivery from the start, let through and completed: it is covered from then on. */
  lemma FirstWake(cfg: Config, agent: string, event: Event, ending: Retries.Ending, started: real) returns (x: World)
    requires cfg.breaker.Ok() && cfg.wakeAttempts >= 1 && 1 <= cfg.capacity && event.occurredAt.Some?
    requires ending.Stopped? || ending.Succeeded?
    ensures var x1 := Next(cfg, Start(0.0), Arrive(agent, event, GATES));
            agent in x1.waking && x == Next(cfg, x1, End(agent, OneAttempt(ending, started)))
    ensures x.clock == 0.0 && x.inOrder && x.waking == map[]
    ensures x.log == [Done(agent, event, if ending.Stopped? then StoppedWake else Ok, 0.0, 0.0, started)]
    ensures x.st.deduper.seen == if cfg.ttl > 0.0 then map[event.DedupKey() := 0.0] else map[]
    ensures var id := (agent, event.StreamKey());
            id in x.st.coverage.items && x.st.coverage.items[id] == Coverage(event.deliveryId, started)
    ensures Evidence.Wake(x.st.doc, agent).deduped == 0
    ensures Evidence.Wake(x.st.doc, agent).ok == if ending.Stopped? then 0 else 1
  {
    BreakerRefusals.FreshBreakerAdmits(cfg.breaker, Breaker.Call(0.0, agent, Some(event.StreamKey())));
    var x1 := Next(cfg, Start(0.0), Arrive(agent, event, GATES));
    x := Next(cfg, x1, End(agent, OneAttempt(ending, started)));
    StoreKept([], cfg.capacity, (agent, event.StreamKey()));
    RecordedItems(StoreOf([], cfg.capacity).d, (agent, event.StreamKey()), Coverage(event.deliveryId, started),
                  cfg.capacity);
  }
  /** A later delivery that happened before that wake started, and is not refused as seen, is coalesced into it. */
  lemma ThenCoalesced(cfg: Config, agent: string, event: Event, x: World, y: World, seenAt: real)
    requires agent !in x.waking && y == Next(cfg, x, Arrive(agent, event, GATES.(seenAt := seenAt)))
    requires !Dedup.Seen(cfg.ttl, x.st.deduper, event.DedupKey(), seenAt).1
    requires Covering(x.st.coverage, agent, event).Some?
    ensures var into := Covering(x.st.coverage, agent, event).value;
            y.log == x.log + [Done(agent, event, Coalesced(into), seenAt, 0.0, 0.0)]
    ensures y.inOrder == (x.inOrder && x.clock <= seenAt)
    ensures Evidence.Wake(y.st.doc, agent).deduped == Evidence.Wake(x.st.doc, agent).deduped + 1
    ensures Evidence.Wake(y.st.doc, agent).ok == Evidence.Wake(x.st.doc, agent).ok
  {
  }

  /** The first wake, and then that delivery, as one run. */
  lemma WakeThenCoalesce(cfg: Config, agent: string, event: Event, ending: Retries.Ending, started: real,
                         other: Event, seenAt: real)
    returns (steps: seq<Step>, y: World)
    requires cfg.breaker.Ok() && cfg.wakeAttempts >= 1 && 1 <= cfg.capacity && (ending.Stopped? || ending.Succeeded?)
    requires event.occurredAt.Some? && other.occurredAt.Some? && other.occurredAt.value < started && 0.0 <= seenAt
    requires other.StreamKey() == event.StreamKey() && (other.DedupKey() == event.DedupKey() ==> cfg.ttl <= seenAt)
    ensures Runs(cfg, Start(0.0), steps, y) && y.inOrder
    ensures y.log == [Done(agent, event, if ending.Stopped? then StoppedWake else Ok, 0.0, 0.0, started),
                      Done(agent, other, Coalesced(Coverage(event.deliveryId, started)), seenAt, 0.0, 0.0)]
    ensures Evidence.Wake(y.st.doc, agent).deduped == 1
    ensures Evidence.Wake(y.st.doc, agent).ok == if ending.Stopped? then 0 else 1
  {
    var x := FirstWake(cfg, agent, event, ending, started);
    var a, b, c := Arrive(agent, event, GATES), End(agent, OneAttempt(ending, started)),
                   Arrive(agent, other, GATES.(seenAt := seenAt));
    steps := [a, b, c];
    y := Next(cfg, x, c);
    assert Runs(cfg, Start(0.0), steps, y) by {
      ThreeSteps(cfg, Start(0.0), a, b, c);
    }
    ThenCoalesced(cfg, agent, other, x, y, seenAt);
  }

  /** A delivery whose wake succeeds, and the same delivery again once the TTL is over, however late: it is
      coalesced and counted as a dedup, with no ok inside the TTL. */
  lemma CoalescedAfterTheTtl(cfg: Config, agent: string, event: Event, started: real, again: real)
    returns (steps: seq<Step>, y: World)
    requires cfg.breaker.Ok() && cfg.wakeAttempts >= 1 && 1 <= cfg.capacity
    requires event.occurredAt.Some? && event.occurredAt.value < started && 0.0 < cfg.ttl <= again
    ensures Runs(cfg, Start(0.0), steps, y) && y.inOrder
    ensures |y.log| == 2 && y.log[0].verdict == Ok && y.log[1].verdict == Coalesced(EntryOf(y.log[0]).c)
    ensures y.log[1].event == y.log[0].event == event
    ensures y.log[1].seenAt == again && y.log[1].seenAt - y.log[0].markedAt >= cfg.ttl
    ensures Evidence.Wake(y.st.doc, agent).deduped == 1
  {
    steps, y := WakeThenCoalesce(cfg, agent, event, Retries.Succeeded(0), started, event, again);
  }

  /** A delivery whose wake is stopped, and another of the stream that happened before it started: it is coalesced
      and counted as a dedup, with no ok at all, and no wake completed for its own key. */
  lemma CoalescedAfterAStop(cfg: Config, agent: string, event: Event, other: Event, started: real)
    returns (steps: seq<Step>, y: World)
    requires cfg.breaker.Ok() && cfg.wakeAttempts >= 1 && 1 <= cfg.capacity
    requires event.occurredAt.Some? && other.occurredAt.Some? && other.occurredAt.value < started
    requires other.StreamKey() == event.StreamKey() && other.DedupKey() != event.DedupKey()
    ensures Runs(cfg, Start(0.0), steps, y) && y.inOrder
    ensures |y.log| == 2 && y.log[0].verdict == StoppedWake && y.log[1].verdict == Coalesced(EntryOf(y.log[0]).c)
    ensures y.log[0].event == event && y.log[1].event == other
    ensures forall i :: !DispatchOnce.Completes(y.log, i, other.DedupKey())
    ensures Evidence.Wake(y.st.doc, agent).deduped == 1 && Evidence.Wake(y.st.doc, agent).ok == 0
  {
    steps, y := WakeThenCoalesce(cfg, agent, event, Retries.Stopped("TERM"), started, other, 0.0);
  }
}
