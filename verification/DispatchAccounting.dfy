/** Outcome accounting: over any run the evidence counters are exactly the verdicts that were reached. */
module DispatchAccounting {
  import opened Common
  import opened Models
  import Breaker
  import Evidence
  import Retries = Retry
  import opened Pipeline
  import opened PipelineRuns

  /** One way of telling verdicts apart: of one agent, by one route if one is named, moving counter `c`, or
      none. */
  predicate Matches(d: Done, agent: string, route: Option<string>, c: Option<Evidence.Counter>) {
    d.agent == agent && (route == None || route == Some(d.event.source)) && d.verdict.Counts() == c
  }

  function Tally(log: seq<Done>, agent: string, route: Option<string>, c: Option<Evidence.Counter>): nat {
    if log == [] then 0
    else Tally(log[..|log| - 1], agent, route, c) + if Matches(log[|log| - 1], agent, route, c) then 1 else 0
  }

  /** An agent's finished `execute`s. */
  function Executes(log: seq<Done>, agent: string): nat {
    if log == [] then 0 else Executes(log[..|log| - 1], agent) + if log[|log| - 1].agent == agent then 1 else 0
  }

  lemma TallySnoc(log: seq<Done>, d: Done, agent: string, route: Option<string>, c: Option<Evidence.Counter>)
    ensures Tally(log + [d], agent, route, c)
            == Tally(log, agent, route, c) + if Matches(d, agent, route, c) then 1 else 0
  {
    assert (log + [d])[..|log|] == log;
  }

  /** Every `execute` of an agent moved one of the four counters, or none. */
  lemma {:induction false} TalliesPartition(log: seq<Done>, agent: string)
    ensures Tally(log, agent, None, Some(Evidence.Oks)) + Tally(log, agent, None, Some(Evidence.Failures))
            + Tally(log, agent, None, Some(Evidence.Refusals)) + Tally(log, agent, None, Some(Evidence.Dedups))
            + Tally(log, agent, None, None) == Executes(log, agent)
  {
    if log != [] {
      TalliesPartition(log[..|log| - 1], agent);
    }
  }

  /** The document one verdict leaves, for one agent and one counter: its counter and the counter of the
      row it came by move by one when the verdict moves that counter, and no other row moves. */
  ghost predicate Moves(before: Evidence.Document, after: Evidence.Document, agent: string, source: string,
                        moved: Option<Evidence.Counter>, a: string, route: string, c: Evidence.Counter) {
    var w, v := Evidence.Wake(before, a), Evidence.Wake(after, a);
    && v.Get(c) == w.Get(c) + (if a == agent && moved == Some(c) then 1 else 0)
    && Evidence.RowOf(v, route).Get(c)
       == Evidence.RowOf(w, route).Get(c) + (if a == agent && route == source && moved == Some(c) then 1 else 0)
    && (Evidence.Consistent(w) ==> Evidence.Consistent(v))
  }

  lemma NotedMoves(st: State, agent: string, report: Evidence.Report, event: Event, at: string, a: string,
                   route: string, c: Evidence.Counter)
    ensures Moves(st.doc, Noted(st, agent, report, event, at).doc, agent, event.source, Some(report.Counts()),
                  a, route, c)
  {
    var w, after := Evidence.Wake(st.doc, a), Noted(st, agent, report, event, at).doc;
    assert Evidence.Wake(after, a) == if a == agent then Evidence.WakeAfter(w, report, From(event), at) else w;
    Evidence.ReportMovesOneCounter(w, report, From(event), at, c);
    if Evidence.Consistent(w) {
      Evidence.ReportKeepsConsistent(w, report, From(event), at);
    }
  }

  /** The gates tell the store at most one thing, and it is their verdict's. */
  lemma GatesReport(cfg: Config, st: State, agent: string, event: Event, g: GateInput)
    returns (report: Option<Evidence.Report>)
    ensures var (after, stopped) := Gated(cfg, st, agent, event, g);
            && (if stopped.Some? then stopped.value.Counts() else None)
               == (if report.Some? then Some(report.value.Counts()) else None)
            && after.doc == if report.Some? then Noted(st, agent, report.value, event, g.at).doc else st.doc
  {
    var stopped := Gated(cfg, st, agent, event, g).1;
    if stopped == Some(Refused(WakeLockGate)) {
      report := Some(Evidence.Refused(g.wakeLock.reason));
    } else if stopped == Some(Refused(BreakerGate)) {
      var outcome := Breaker.Admit(cfg.breaker, st.breaker,
          Breaker.Call(g.breakerAt, agent, Some(event.StreamKey()))).1;
      report := Some(Evidence.Refused(outcome.Detail()));
    } else {
      report := if stopped.Some? && stopped.value.Counts().Some? then Some(Evidence.Deduped) else None;
    }
  }

  /** A gate's verdict is counted as it is given; a delivery let through counts nothing yet. */
  lemma GatesCount(cfg: Config, st: State, agent: string, event: Event, g: GateInput, a: string, route: string,
                   c: Evidence.Counter)
    ensures var (after, stopped) := Gated(cfg, st, agent, event, g);
            Moves(st.doc, after.doc, agent, event.source, if stopped.Some? then stopped.value.Counts() else None,
                  a, route, c)
  {
    var report := GatesReport(cfg, st, agent, event, g);
    if report.Some? {
      NotedMoves(st, agent, report.value, event, g.at, a, route, c);
    }
  }

  /** A wake's verdict is counted once, when it is over. */
  lemma WakeCounts(cfg: Config, st: State, agent: string, event: Event, w: WakeInput, a: string, route: string,
                   c: Evidence.Counter)
    ensures var (after, verdict) := Woken(cfg, st, agent, event, w);
            Moves(st.doc, after.doc, agent, event.source, verdict.Counts(), a, route, c)
  {
    if Attempts(cfg, event) >= 1 {
      var last := w.script(Retries.Calls(w.script, 0, Attempts(cfg, event)) - 1);
      match last.ending
      case Succeeded(_) => NotedMoves(st, agent, Evidence.Succeeded(event.deliveryId), event, w.at, a, route, c);
      case Transient(error) => NotedMoves(st, agent, Evidence.Failed(error), event, w.at, a, route, c);
      case _ =>
    }
  }

  /** For one agent, route and counter: the document shows the log's tallies. */
  ghost predicate Accounted(x: World, a: string, route: string, c: Evidence.Counter) {
    var w := Evidence.Wake(x.st.doc, a);
    && w.Get(c) == Tally(x.log, a, None, Some(c))
    && Evidence.RowOf(w, route).Get(c) == Tally(x.log, a, Some(route), Some(c))
    && Evidence.Consistent(w)
  }

  lemma StepCounts(cfg: Config, x: World, step: Step, y: World, a: string, route: string, c: Evidence.Counter)
    requires Accounted(x, a, route, c) && Enabled(x, step) && y == Next(cfg, x, step)
    ensures Accounted(y, a, route, c)
  {
    match step
    case Arrive(agent, event, g) =>
      GatesCount(cfg, x.st, agent, event, g, a, route, c);
      var stopped := Gated(cfg, x.st, agent, event, g).1;
      if stopped.Some? {
        var d := Done(agent, event, stopped.value, g.seenAt, 0.0, 0.0);
        TallySnoc(x.log, d, a, None, Some(c));
        TallySnoc(x.log, d, a, Some(route), Some(c));
      }
    case End(agent, w) =>
      var (event, seenAt) := x.waking[agent];
      WakeCounts(cfg, x.st, agent, event, w, a, route, c);
      var d := Done(agent, event, Woken(cfg, x.st, agent, event, w).1, seenAt, w.markedAt, StartedAt(cfg, event, w));
      TallySnoc(x.log, d, a, None, Some(c));
      TallySnoc(x.log, d, a, Some(route), Some(c));
  }

  lemma {:induction false} RunCounts(cfg: Config, x: World, steps: seq<Step>, y: World, a: string, route: string,
                                     c: Evidence.Counter)
    requires Runs(cfg, x, steps, y) && Accounted(x, a, route, c)
    ensures Accounted(y, a, route, c)
    decreases |steps|
  {
    if steps != [] {
      StepCounts(cfg, x, steps[0], Next(cfg, x, steps[0]), a, route, c);
      RunCounts(cfg, Next(cfg, x, steps[0]), steps[1..], y, a, route, c);
    }
  }

  /** Over any run each agent counter, and each of its per-route counters, is the number of verdicts that
      count there. */
  lemma CountersAreVerdicts(cfg: Config, clock: real, steps: seq<Step>, y: World, a: string, route: string,
                            c: Evidence.Counter)
    requires Runs(cfg, Start(clock), steps, y)
    ensures Evidence.Wake(y.st.doc, a).Get(c) == Tally(y.log, a, None, Some(c))
    ensures Evidence.RowOf(Evidence.Wake(y.st.doc, a), route).Get(c) == Tally(y.log, a, Some(route), Some(c))
    ensures Evidence.Consistent(Evidence.Wake(y.st.doc, a))
  {
    Evidence.DocumentConsistent([], a);
    RunCounts(cfg, Start(clock), steps, y, a, route, c);
  }

  /** So an agent's four counters and its uncounted outcomes (dropped, stopped, unexpected) sum to its
      finished executes. */
  lemma CountersSumToExecutes(cfg: Config, clock: real, steps: seq<Step>, y: World, a: string)
    requires Runs(cfg, Start(clock), steps, y)
    ensures var w := Evidence.Wake(y.st.doc, a);
            w.ok + w.failed + w.refused + w.deduped + Tally(y.log, a, None, None) == Executes(y.log, a)
  {
    CountersAreVerdicts(cfg, clock, steps, y, a, "", Evidence.Oks);
    CountersAreVerdicts(cfg, clock, steps, y, a, "", Evidence.Failures);
    CountersAreVerdicts(cfg, clock, steps, y, a, "", Evidence.Refusals);
    CountersAreVerdicts(cfg, clock, steps, y, a, "", Evidence.Dedups);
    TalliesPartition(y.log, a);
  }
  // ---------------------------------------------------------------- in the verdicts' own names

  /** An execute of the agent, by the route if one is named. */
  predicate By(d: Done, agent: string, route: Option<string>) {
    d.agent == agent && (route == None || route == Some(d.event.source))
  }

  function Oks(log: seq<Done>, agent: string, route: Option<string>): set<int> {
    set i | 0 <= i < |log| && By(log[i], agent, route) && log[i].verdict == Ok
  }

  function Failures(log: seq<Done>, agent: string, route: Option<string>): set<int> {
    set i | 0 <= i < |log| && By(log[i], agent, route) && log[i].verdict == FailedWake
  }

  function Refusals(log: seq<Done>, agent: string, route: Option<string>): set<int> {
    set i | 0 <= i < |log| && By(log[i], agent, route)
            && (log[i].verdict == Refused(WakeLockGate) || log[i].verdict == Refused(BreakerGate))
  }

  function Dedups(log: seq<Done>, agent: string, route: Option<string>): set<int> {
    set i | 0 <= i < |log| && By(log[i], agent, route)
            && (log[i].verdict == DedupedDelivery || log[i].verdict.Coalesced?)
  }

  function Matching(log: seq<Done>, agent: string, route: Option<string>, c: Option<Evidence.Counter>): set<int> {
    set i | 0 <= i < |log| && Matches(log[i], agent, route, c)
  }

  lemma {:induction false} TallyIsSize(log: seq<Done>, agent: string, route: Option<string>,
                                       c: Option<Evidence.Counter>)
    ensures Tally(log, agent, route, c) == |Matching(log, agent, route, c)|
  {
    if log == [] {
      assert Matching(log, agent, route, c) == {};
    } else {
      var n := |log| - 1;
      TallyIsSize(log[..n], agent, route, c);
      MatchingSnoc(log[..n], log[n], agent, route, c);
      assert log[..n] + [log[n]] == log;
    }
  }

  lemma MatchingSnoc(log: seq<Done>, d: Done, agent: string, route: Option<string>, c: Option<Evidence.Counter>)
    ensures |Matching(log + [d], agent, route, c)|
            == |Matching(log, agent, route, c)| + if Matches(d, agent, route, c) then 1 else 0
  {
    var last := if Matches(d, agent, route, c) then {|log|} else {};
    assert Matching(log + [d], agent, route, c) == Matching(log, agent, route, c) + last;
  }

  lemma KindsMatch(log: seq<Done>, agent: string, route: Option<string>)
    ensures Matching(log, agent, route, Some(Evidence.Oks)) == Oks(log, agent, route)
    ensures Matching(log, agent, route, Some(Evidence.Failures)) == Failures(log, agent, route)
    ensures Matching(log, agent, route, Some(Evidence.Refusals)) == Refusals(log, agent, route)
    ensures Matching(log, agent, route, Some(Evidence.Dedups)) == Dedups(log, agent, route)
  {
    forall d: Done | d.verdict.Refused?
      ensures d.verdict == Refused(WakeLockGate) || d.verdict == Refused(BreakerGate) {
      assert d.verdict.gate.WakeLockGate? || d.verdict.gate.BreakerGate?;
    }
  }

  lemma TalliesByKind(log: seq<Done>, agent: string, route: Option<string>)
    ensures Tally(log, agent, route, Some(Evidence.Oks)) == |Oks(log, agent, route)|
    ensures Tally(log, agent, route, Some(Evidence.Failures)) == |Failures(log, agent, route)|
    ensures Tally(log, agent, route, Some(Evidence.Refusals)) == |Refusals(log, agent, route)|
    ensures Tally(log, agent, route, Some(Evidence.Dedups)) == |Dedups(log, agent, route)|
  {
    KindsMatch(log, agent, route);
    forall c ensures Tally(log, agent, route, Some(c)) == |Matching(log, agent, route, Some(c))| {
      TallyIsSize(log, agent, route, Some(c));
    }
  }

  /** Over any run an agent's `ok`, `failed`, `refused` and `deduped` are how many of its executes succeeded, failed
      in every attempt, were refused by the wake-lock or the breaker, and were refused as seen or coalesced; and so
      for each route. */
  lemma CountersByVerdict(cfg: Config, clock: real, steps: seq<Step>, y: World, a: string, route: string)
    requires Runs(cfg, Start(clock), steps, y)
    ensures var w := Evidence.Wake(y.st.doc, a);
            && w.ok == |Oks(y.log, a, None)| && w.failed == |Failures(y.log, a, None)|
            && w.refused == |Refusals(y.log, a, None)| && w.deduped == |Dedups(y.log, a, None)|
    ensures var r, via := Evidence.RowOf(Evidence.Wake(y.st.doc, a), route), Some(route);
            && r.ok == |Oks(y.log, a, via)| && r.failed == |Failures(y.log, a, via)|
            && r.refused == |Refusals(y.log, a, via)| && r.deduped == |Dedups(y.log, a, via)|
  {
    AgentCounters(cfg, clock, steps, y, a);
    RouteCounters(cfg, clock, steps, y, a, route);
  }

  lemma AgentCounters(cfg: Config, clock: real, steps: seq<Step>, y: World, a: string)
    requires Runs(cfg, Start(clock), steps, y)
    ensures var w := Evidence.Wake(y.st.doc, a);
            && w.ok == |Oks(y.log, a, None)| && w.failed == |Failures(y.log, a, None)|
            && w.refused == |Refusals(y.log, a, None)| && w.deduped == |Dedups(y.log, a, None)|
  {
    TalliesByKind(y.log, a, None);
    CountersAreVerdicts(cfg, clock, steps, y, a, "", Evidence.Oks);
    CountersAreVerdicts(cfg, clock, steps, y, a, "", Evidence.Failures);
    CountersAreVerdicts(cfg, clock, steps, y, a, "", Evidence.Refusals);
    CountersAreVerdicts(cfg, clock, steps, y, a, "", Evidence.Dedups);
  }

  lemma RouteCounters(cfg: Config, clock: real, steps: seq<Step>, y: World, a: string, route: string)
    requires Runs(cfg, Start(clock), steps, y)
    ensures var r, via := Evidence.RowOf(Evidence.Wake(y.st.doc, a), route), Some(route);
            && r.ok == |Oks(y.log, a, via)| && r.failed == |Failures(y.log, a, via)|
            && r.refused == |Refusals(y.log, a, via)| && r.deduped == |Dedups(y.log, a, via)|
  {
    TalliesByKind(y.log, a, Some(route));
    CountersAreVerdicts(cfg, clock, steps, y, a, route, Evidence.Oks);
    CountersAreVerdicts(cfg, clock, steps, y, a, route, Evidence.Failures);
    CountersAreVerdicts(cfg, clock, steps, y, a, route, Evidence.Refusals);
    CountersAreVerdicts(cfg, clock, steps, y, a, route, Evidence.Dedups);
  }
}
