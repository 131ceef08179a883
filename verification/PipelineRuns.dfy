/** Whole runs of the dispatch half. Wakes of different agents overlap: a run is any interleaving of
    arrivals (a delivery meets the gates) and endings (a wake that the gates let through is over), with
    at most one delivery of an agent inside at a time. */
module PipelineRuns {
  import opened Common
  import opened Models
  import opened Lru
  import Dedup
  import Coalesce
  import Breaker
  import Retries = Retry
  import opened Pipeline

  /** One finished `execute`. For a wake, also when its delivery was marked as woken, and when its
      deciding attempt started. */
  datatype Done = Done(agent: string, event: Event, verdict: Verdict, seenAt: real, markedAt: real, startedAt: real)

  /** `waking` holds each agent's delivery that is past the gates, with when it was looked up. `clock` is
      the dedup cache's latest reading, and `inOrder` whether its readings, taken before its lock, have
      never gone back. */
  datatype World = World(st: State, waking: map<string, (Event, real)>, log: seq<Done>, clock: real, inOrder: bool)

  datatype Step =
    | Arrive(agent: string, event: Event, g: GateInput)
    | End(agent: string, w: WakeInput)

  function Start(clock: real): World {
    World(State(Dedup.EMPTY, Empty(), Breaker.State(map[], 0), map[]), map[], [], clock, true)
  }

  predicate Enabled(x: World, step: Step) {
    match step case Arrive(agent, _, _) => agent !in x.waking case End(agent, _) => agent in x.waking
  }

  function StartedAt(cfg: Config, event: Event, w: WakeInput): real {
    if Attempts(cfg, event) < 1 then 0.0 else w.script(Retries.Calls(w.script, 0, Attempts(cfg, event)) - 1).startedAt
  }

  function Read(x: World, now: real): World { x.(clock := now, inOrder := x.inOrder && x.clock <= now) }

  function Next(cfg: Config, x: World, step: Step): World
    requires Enabled(x, step)
  {
    match step
    case Arrive(agent, event, g) =>
      var (st, stopped) := Gated(cfg, x.st, agent, event, g);
      var y := Read(x, g.seenAt).(st := st);
      if stopped.Some? then y.(log := x.log + [Done(agent, event, stopped.value, g.seenAt, 0.0, 0.0)])
      else y.(waking := x.waking[agent := (event, g.seenAt)])
    case End(agent, w) =>
      var (event, seenAt) := x.waking[agent];
      var (st, verdict) := Woken(cfg, x.st, agent, event, w);
      (if verdict.Completed() then Read(x, w.markedAt) else x).(
        st := st, waking := x.waking - {agent},
        log := x.log + [Done(agent, event, verdict, seenAt, w.markedAt, StartedAt(cfg, event, w))])
  }

  /** `steps` runs from `x` to `y`. */
  ghost predicate Runs(cfg: Config, x: World, steps: seq<Step>, y: World)
    decreases |steps|
  {
    if steps == [] then x == y
    else Enabled(x, steps[0]) && Runs(cfg, Next(cfg, x, steps[0]), steps[1..], y)
  }

  lemma ThreeSteps(cfg: Config, x: World, a: Step, b: Step, c: Step)
    requires Enabled(x, a) && Enabled(Next(cfg, x, a), b) && Enabled(Next(cfg, Next(cfg, x, a), b), c)
    ensures Runs(cfg, x, [a, b, c], Next(cfg, Next(cfg, Next(cfg, x, a), b), c))
  {
    var m := Next(cfg, Next(cfg, x, a), b);
    var y := Next(cfg, m, c);
    assert [a, b, c][1..] == [b, c] && [b, c][1..] == [c] && [c][1..] == [];
    assert Runs(cfg, y, [], y);
    assert Runs(cfg, m, [c], y);
    assert Runs(cfg, Next(cfg, x, a), [b, c], y);
  }

  /** One `execute` with nothing in between is an arrival followed, if the gates pass, by its ending. */
  lemma ExecuteIsArriveThenEnd(cfg: Config, x: World, agent: string, event: Event, g: GateInput, w: WakeInput)
    requires Enabled(x, Arrive(agent, event, g))
    ensures var y := Next(cfg, x, Arrive(agent, event, g));
            var z := if agent in y.waking then Next(cfg, y, End(agent, w)) else y;
            && (z.st, z.log[|z.log| - 1].verdict) == Executed(cfg, x.st, agent, event, g, w)
            && z.waking == x.waking && |z.log| == |x.log| + 1
  {
    var y := Next(cfg, x, Arrive(agent, event, g));
    if agent in y.waking {
      assert y.waking - {agent} == x.waking;
    }
  }

  // ---------------------------------------------------------------- the three things a step can be

  /** A gate stops the delivery `d`. */
  ghost predicate Stops(x: World, y: World, d: Done) {
    && d.agent !in x.waking && y.waking == x.waking
    && y.log == x.log + [d] && !d.verdict.Completed()
    && y.clock == d.seenAt && y.inOrder == (x.inOrder && x.clock <= d.seenAt)
  }

  /** The gates let a delivery through. */
  ghost predicate Passes(x: World, y: World, agent: string, event: Event, seenAt: real) {
    && agent !in x.waking && y.waking == x.waking[agent := (event, seenAt)]
    && y.log == x.log
    && y.clock == seenAt && y.inOrder == (x.inOrder && x.clock <= seenAt)
  }

  /** The wake for `d` is over. */
  ghost predicate Ends(x: World, y: World, d: Done) {
    && d.agent in x.waking && x.waking[d.agent] == (d.event, d.seenAt) && y.waking == x.waking - {d.agent}
    && y.log == x.log + [d]
    && (d.verdict.Completed() ==> y.clock == d.markedAt && y.inOrder == (x.inOrder && x.clock <= d.markedAt))
    && (!d.verdict.Completed() ==> y.clock == x.clock && y.inOrder == x.inOrder)
  }

  function LastDone(y: World): Done
    requires y.log != []
  {
    y.log[|y.log| - 1]
  }

  /** What an arrival does: the gates only ever drop one expired key from the dedup cache, and never touch
      coverage; the first two verdicts are the cache's and the coverage's. */
  lemma ArriveEffect(cfg: Config, x: World, agent: string, event: Event, g: GateInput, y: World)
    requires Enabled(x, Arrive(agent, event, g)) && y == Next(cfg, x, Arrive(agent, event, g))
    ensures y.st.deduper == Dedup.Seen(cfg.ttl, x.st.deduper, event.DedupKey(), g.seenAt).0
    ensures y.st.coverage == x.st.coverage
    ensures var hit := Dedup.Seen(cfg.ttl, x.st.deduper, event.DedupKey(), g.seenAt).1;
            var covering := Coalesce.Covering(x.st.coverage, agent, event);
            if agent in y.waking then Passes(x, y, agent, event, g.seenAt) && !hit && covering == None
            else
              && y.log != [] && Stops(x, y, LastDone(y)) && LastDone(y).agent == agent && LastDone(y).event == event
              && LastDone(y).seenAt == g.seenAt
              && (LastDone(y).verdict == DedupedDelivery <==> hit)
              && (LastDone(y).verdict.Coalesced? <==> !hit && covering.Some?)
              && (LastDone(y).verdict.Coalesced? ==> Some(LastDone(y).verdict.into) == covering)
  {
  }

  /** What an ending does: only a wake that completed is remembered, by both stores; any other leaves the
      dedup cache and the coverage as they were. */
  lemma EndEffect(cfg: Config, x: World, agent: string, w: WakeInput, y: World)
    requires Enabled(x, End(agent, w)) && y == Next(cfg, x, End(agent, w))
    ensures y.log != [] && Ends(x, y, LastDone(y)) && LastDone(y).agent == agent
    ensures y.st.breaker == x.st.breaker
    ensures var d := LastDone(y);
            && (d.verdict != Ok && d.verdict != StoppedWake ==>
                  y.st.deduper == x.st.deduper && y.st.coverage == x.st.coverage)
            && (d.verdict == Ok || d.verdict == StoppedWake ==>
                  && y.st.deduper == Dedup.Mark(cfg.ttl, x.st.deduper, d.event.DedupKey(), d.markedAt)
                  && y.st.coverage == Coalesce.Record(x.st.coverage, agent, d.event, d.startedAt, cfg.capacity))
            && d.verdict != DedupedDelivery && !d.verdict.Coalesced?
  {
  }
}
