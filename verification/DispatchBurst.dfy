/** Burst collapse: once a wake on a stream has completed, deliveries that happened before it started are
    not woken for again, while the coverage store still holds it. */
module DispatchBurst {
  import opened Common
  import opened Models
  import opened Coalesce
  import opened Pipeline
  import opened PipelineRuns
  import opened DispatchCoverage

  /** Refused by one of the two duplicate gates. */
  predicate NotWoken(d: Done) { d.verdict == DedupedDelivery || d.verdict.Coalesced? }

  /** The delivery is covered after this log. */
  ghost predicate AnyCovers(log: seq<Done>, agent: string, event: Event, capacity: nat) {
    exists i :: CoveredBy(log, i, agent, event, capacity)
  }

  /** What the log so far says of one more `execute`: if it covers the delivery, no session ran; a coalesced
      delivery is recorded under the wake the store held. */
  ghost predicate Collapsed(log: seq<Done>, d: Done, capacity: nat) {
    && (AnyCovers(log, d.agent, d.event, capacity) ==> NotWoken(d))
    && (d.verdict.Coalesced? ==>
          Covering(StoreOf(Coverages(log), capacity).d, d.agent, d.event) == Some(d.verdict.into))
  }

  ghost predicate Collapsing(cfg: Config, x: World) {
    && x.st.coverage == StoreOf(Coverages(x.log), cfg.capacity).d
    && (forall a :: a in x.waking ==> !AnyCovers(x.log, a, x.waking[a].0, cfg.capacity))
    && (forall j :: 0 <= j < |x.log| ==> Collapsed(x.log[..j], x.log[j], cfg.capacity))
  }

  /** A delivery past the gates stays uncovered until a wake of its own agent completes. */
  lemma StaysUncovered(log: seq<Done>, d: Done, agent: string, event: Event, capacity: nat)
    requires !AnyCovers(log, agent, event, capacity) && (Covers(d) ==> d.agent != agent)
    ensures !AnyCovers(log + [d], agent, event, capacity)
  {
    forall i ensures !CoveredBy(log + [d], i, agent, event, capacity) {
      if CoveredBy(log + [d], i, agent, event, capacity) {
        assert i < |log|;
        ResidentBefore(log, d, i, capacity);
        assert CoveredBy(log, i, agent, event, capacity);
      }
    }
  }

  /** What a step that logs `d` must show. */
  lemma Grown(cfg: Config, x: World, y: World, d: Done)
    requires 1 <= cfg.capacity && Collapsing(cfg, x) && y.log == x.log + [d]
    requires forall a :: a in y.waking ==> a in x.waking && y.waking[a] == x.waking[a]
    requires Covers(d) ==> d.agent !in y.waking
    requires y.st.coverage
             == if Covers(d) then Recorded(x.st.coverage, EntryOf(d).id, EntryOf(d).c, cfg.capacity)
                else x.st.coverage
    requires Collapsed(x.log, d, cfg.capacity)
    ensures Collapsing(cfg, y)
  {
    CoveragesSnoc(x.log, d);
    assert y.st.coverage == StoreOf(Coverages(y.log), cfg.capacity).d by {
      if Covers(d) {
        assert (Coverages(x.log) + [EntryOf(d)])[..|Coverages(x.log)|] == Coverages(x.log);
      }
    }
    forall a | a in y.waking ensures !AnyCovers(y.log, a, y.waking[a].0, cfg.capacity) {
      StaysUncovered(x.log, d, a, y.waking[a].0, cfg.capacity);
    }
    assert forall j :: 0 <= j <= |x.log| ==> y.log[..j] == x.log[..j];
    assert x.log[..|x.log|] == x.log;
  }

  lemma StepKeeps(cfg: Config, x: World, step: Step, y: World)
    requires 1 <= cfg.capacity && Collapsing(cfg, x) && Enabled(x, step) && y == Next(cfg, x, step)
    ensures Collapsing(cfg, y)
  {
    match step
    case Arrive(agent, event, g) =>
      ArriveEffect(cfg, x, agent, event, g, y);
      FoundIffCovered(x.log, agent, event, cfg.capacity);
      if agent !in y.waking {
        Grown(cfg, x, y, LastDone(y));
      }
    case End(agent, w) =>
      EndEffect(cfg, x, agent, w, y);
      Grown(cfg, x, y, LastDone(y));
  }

  // ---------------------------------------------------------------- over whole runs

  lemma {:induction false} RunKeeps(cfg: Config, x: World, steps: seq<Step>, y: World)
    requires 1 <= cfg.capacity && Runs(cfg, x, steps, y) && Collapsing(cfg, x)
    ensures Collapsing(cfg, y)
    decreases |steps|
  {
    if steps != [] {
      StepKeeps(cfg, x, steps[0], Next(cfg, x, steps[0]));
      RunKeeps(cfg, Next(cfg, x, steps[0]), steps[1..], y);
    }
  }

  /** A delivery that was not refused as seen is coalesced exactly when an earlier completed wake of its agent on
      its stream started after it happened, and the stream was not evicted in between. */
  lemma CoalescedIffCovered(cfg: Config, clock: real, steps: seq<Step>, y: World, j: int)
    requires 1 <= cfg.capacity && Runs(cfg, Start(clock), steps, y)
    requires 0 <= j < |y.log| && y.log[j].verdict != DedupedDelivery
    ensures y.log[j].verdict.Coalesced?
            <==> exists i :: CoveredBy(y.log[..j], i, y.log[j].agent, y.log[j].event, cfg.capacity)
  {
    RunKeeps(cfg, Start(clock), steps, y);
    assert Collapsed(y.log[..j], y.log[j], cfg.capacity);
    FoundIffCovered(y.log[..j], y.log[j].agent, y.log[j].event, cfg.capacity);
  }

  /** Once a stamped delivery at `i` completed, from an attempt that started at `log[i].startedAt`, a
      later stamped delivery of that agent and stream that happened before that start is refused as
      deduped or coalesced, until the stream is evicted. */
  lemma BurstCollapses(cfg: Config, clock: real, steps: seq<Step>, y: World, i: int, j: int)
    requires 1 <= cfg.capacity && Runs(cfg, Start(clock), steps, y) && 0 <= i < j < |y.log|
    requires Covers(y.log[i]) && y.log[j].event.occurredAt.Some?
    requires y.log[i].agent == y.log[j].agent && y.log[i].event.StreamKey() == y.log[j].event.StreamKey()
    requires y.log[j].event.occurredAt.value < y.log[i].startedAt
    requires Resident(y.log[..j], i, cfg.capacity)
    ensures NotWoken(y.log[j])
  {
    if y.log[j].verdict != DedupedDelivery {
      CoalescedIffCovered(cfg, clock, steps, y, j);
      assert CoveredBy(y.log[..j], i, y.log[j].agent, y.log[j].event, cfg.capacity);
    }
  }

  /** In particular while no more distinct streams than the store has room for completed from `i` on. */
  lemma BurstCollapsesWhileFew(cfg: Config, clock: real, steps: seq<Step>, y: World, i: int, j: int)
    requires 1 <= cfg.capacity && Runs(cfg, Start(clock), steps, y) && 0 <= i < j < |y.log|
    requires Covers(y.log[i]) && y.log[j].event.occurredAt.Some?
    requires y.log[i].agent == y.log[j].agent && y.log[i].event.StreamKey() == y.log[j].event.StreamKey()
    requires y.log[j].event.occurredAt.value < y.log[i].startedAt
    requires StreamsSince(y.log[..j], i) <= cfg.capacity
    ensures NotWoken(y.log[j])
  {
    FewIsResident(y.log[..j], i, cfg.capacity);
    BurstCollapses(cfg, clock, steps, y, i, j);
  }

  /** A delivery in a burst: one agent, one stream, stamped before `t`. */
  predicate InBurst(d: Done, agent: string, stream: string, t: real) {
    d.agent == agent && d.event.StreamKey() == stream && d.event.occurredAt.Some? && d.event.occurredAt.value < t
  }

  /** However many deliveries queue up behind a wake, one completed follow-up that starts after them all
      is the only one to complete, until the stream is evicted. */
  lemma OneFollowUp(cfg: Config, clock: real, steps: seq<Step>, y: World, agent: string, stream: string, t: real,
                    i: int, j: int)
    requires 1 <= cfg.capacity && Runs(cfg, Start(clock), steps, y)
    requires 0 <= i < |y.log| && 0 <= j < |y.log|
    requires i < j ==> Resident(y.log[..j], i, cfg.capacity)
    requires j < i ==> Resident(y.log[..i], j, cfg.capacity)
    requires InBurst(y.log[i], agent, stream, t) && InBurst(y.log[j], agent, stream, t)
    requires Covers(y.log[i]) && Covers(y.log[j]) && y.log[i].startedAt >= t && y.log[j].startedAt >= t
    ensures i == j
  {
    if i < j {
      BurstCollapses(cfg, clock, steps, y, i, j);
    } else if j < i {
      BurstCollapses(cfg, clock, steps, y, j, i);
    }
  }
}
