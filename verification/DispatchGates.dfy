/** Where an `execute` ends, in terms of what its gates and its wake were told. */
module DispatchGates {
  import opened Common
  import opened Models
  import Text
  import Dedup
  import Coalesce
  import Breaker
  import Evidence
  import opened Pipeline
  import Retries = Retry

  predicate SeenBefore(cfg: Config, st: State, event: Event, g: GateInput) {
    Dedup.Seen(cfg.ttl, st.deduper, event.DedupKey(), g.seenAt).1
  }

  predicate CoveredNow(st: State, agent: string, event: Event) {
    Coalesce.Covering(st.coverage, agent, event).Some?
  }

  /** What the breaker answers, if it is asked. */
  function Asked(cfg: Config, st: State, agent: string, event: Event, g: GateInput): (Breaker.State, Breaker.Outcome) {
    Breaker.Admit(cfg.breaker, st.breaker, Breaker.Call(g.breakerAt, agent, Some(event.StreamKey())))
  }

  /** The breaker is asked exactly when the delivery is new and the recheck and the wake-lock both let it go on. */
  predicate Reaches(cfg: Config, st: State, agent: string, event: Event, g: GateInput) {
    && !SeenBefore(cfg, st, event, g) && !CoveredNow(st, agent, event)
    && g.recheck == Proceed && g.wakeLock == Proceed
  }

  /** How many attempts a wake has: a probe's one, and otherwise the configured number. */
  function Allowed(cfg: Config, event: Event): int {
    if event.kind.SyntheticProbe? then 1 else cfg.wakeAttempts
  }

  /** Every gate decides alone, on what it was told, and only if all gates before it let the delivery through. */
  lemma WhereItEnds(cfg: Config, st: State, agent: string, event: Event, g: GateInput, w: WakeInput)
    ensures var verdict := Executed(cfg, st, agent, event, g, w).1;
            var seen, covered := SeenBefore(cfg, st, event, g), CoveredNow(st, agent, event);
            var admitted := Asked(cfg, st, agent, event, g).1.Admitted?;
            && (verdict == DedupedDelivery <==> seen)
            && (verdict.Coalesced? <==> !seen && covered)
            && (verdict.Coalesced? ==> Coalesce.Covering(st.coverage, agent, event) == Some(verdict.into))
            && (verdict == Dropped <==> !seen && !covered && g.recheck.Decline?)
            && (verdict == Refused(WakeLockGate) <==>
                  !seen && !covered && g.recheck == Proceed && g.wakeLock.Decline?)
            && (verdict == Refused(BreakerGate) <==> Reaches(cfg, st, agent, event, g) && !admitted)
  {
  }

  /** A session is launched exactly when no gate stops the delivery and an attempt is allowed; no more are launched
      than are allowed. */
  lemma LaunchesIff(cfg: Config, st: State, agent: string, event: Event, g: GateInput, w: WakeInput)
    ensures Launches(cfg, st, agent, event, g, w) > 0 <==>
              && Reaches(cfg, st, agent, event, g) && Asked(cfg, st, agent, event, g).1.Admitted?
              && Allowed(cfg, event) >= 1
    ensures Launches(cfg, st, agent, event, g, w) == 0 || Launches(cfg, st, agent, event, g, w) <= Allowed(cfg, event)
  {
  }

  /** The breaker is asked once, or not at all. */
  lemma BreakerAskedIff(cfg: Config, st: State, agent: string, event: Event, g: GateInput, w: WakeInput)
    ensures Executed(cfg, st, agent, event, g, w).0.breaker
            == if Reaches(cfg, st, agent, event, g) then Asked(cfg, st, agent, event, g).0 else st.breaker
  {
  }

  /** How a launched wake ends: the attempts go on while they fail for a passing reason, and the last decides. */
  lemma HowAWakeEnds(cfg: Config, st: State, agent: string, event: Event, g: GateInput, w: WakeInput)
    requires Launches(cfg, st, agent, event, g, w) > 0
    ensures var (n, verdict) := (Launches(cfg, st, agent, event, g, w), Executed(cfg, st, agent, event, g, w).1);
            var last := w.script(n - 1).ending;
            && (forall i: nat :: i < n - 1 ==> w.script(i).ending.Transient?)
            && (last.Transient? ==> n == Allowed(cfg, event))
            && (verdict == Ok <==> last.Succeeded?)
            && (verdict == StoppedWake <==> last.Stopped?)
            && (verdict == FailedWake <==> last.Transient?)
            && (verdict == Unexpected <==> last.Raised?)
  {
    Retries.CallsIsFirstDecisive(w.script, 0, Attempts(cfg, event));
  }

  /** Without a launch something broke exactly when the recheck or the wake-lock raised, each once it was asked, or
      no attempt is allowed. */
  lemma BrokeBeforeIff(cfg: Config, st: State, agent: string, event: Event, g: GateInput, w: WakeInput)
    requires Launches(cfg, st, agent, event, g, w) == 0
    ensures Executed(cfg, st, agent, event, g, w).1 == Unexpected <==>
              && !SeenBefore(cfg, st, event, g) && !CoveredNow(st, agent, event)
              && (|| g.recheck.Raises?
                  || (g.recheck == Proceed && g.wakeLock.Raises?)
                  || (Reaches(cfg, st, agent, event, g) && Asked(cfg, st, agent, event, g).1.Admitted?))
  {
  }

  // ---------------------------------------------------------------- what is left behind

  /** What the evidence says of an agent afterwards, for each verdict: a refusal with its reason, cut to two hundred
      characters, a success with its delivery, a failure with the last attempt's error, each under the delivery's own
      route; and nothing at all for a delivery dropped, a stop, or anything unexpected. */
  ghost predicate Told(before: Evidence.AgentWake, after: Evidence.AgentWake, event: Event, report: Option<string>,
                       c: Evidence.Counter) {
    var origin := Some(Evidence.Origin(event.source, event.kind.SyntheticProbe?));
    match c
    case Oks => after.ok == before.ok + 1 && after.lastOkDelivery == report && after.lastOkOrigin == origin
    case Failures =>
      after.failed == before.failed + 1 && after.lastFailedReason == report && after.lastFailedOrigin == origin
    case Refusals =>
      after.refused == before.refused + 1 && after.lastRefusedReason == report && after.lastRefusedOrigin == origin
    case Dedups => after.deduped == before.deduped + 1 && after.lastDedupedOrigin == origin
  }

  function Cut(text: string): string { if |text| <= 200 then text else text[..200] }

  /** A refusal of the breaker says whether it tripped now or was cooling down, which scope it was, that scope's agent
      or stream, and how many wakes were counted. */
  function Refusal(outcome: Breaker.Outcome): string
    requires !outcome.Admitted?
  {
    (if outcome.Tripped? then "tripped scope=" else "open scope=")
    + (if outcome.scope.AgentScope? then "agent" else "stream")
    + " key=" + (if outcome.scope.AgentScope? then outcome.scope.agent else outcome.scope.stream)
    + " count=" + Text.Decimal(if outcome.Tripped? then outcome.count else 0)
  }

  lemma RefusalIsDetail(outcome: Breaker.Outcome)
    requires !outcome.Admitted?
    ensures outcome.Detail() == Refusal(outcome)
  {
  }

  lemma GatesTell(cfg: Config, st: State, agent: string, event: Event, g: GateInput)
    ensures var (after, stopped) := Gated(cfg, st, agent, event, g);
            var past, present := Evidence.Wake(st.doc, agent), Evidence.Wake(after.doc, agent);
            match stopped
            case Some(Refused(WakeLockGate)) =>
              g.wakeLock.Decline? && Told(past, present, event, Some(Cut(g.wakeLock.reason)), Evidence.Refusals)
            case Some(Refused(BreakerGate)) =>
              var outcome := Asked(cfg, st, agent, event, g).1;
              !outcome.Admitted? && Told(past, present, event, Some(Cut(outcome.Detail())), Evidence.Refusals)
            case Some(DedupedDelivery) => Told(past, present, event, None, Evidence.Dedups)
            case Some(Coalesced(_)) => Told(past, present, event, None, Evidence.Dedups)
            case Some(Dropped) => after.doc == st.doc
            case Some(Unexpected) => after.doc == st.doc
            case None => after.doc == st.doc
            case Some(_) => false
  {
  }

  lemma WakeTells(cfg: Config, st: State, agent: string, event: Event, w: WakeInput)
    ensures var (after, verdict) := Woken(cfg, st, agent, event, w);
            var past, present := Evidence.Wake(st.doc, agent), Evidence.Wake(after.doc, agent);
            match verdict
            case Ok => Told(past, present, event, Some(event.deliveryId), Evidence.Oks)
            case FailedWake => past.failed + 1 == present.failed
            case StoppedWake => after.doc == st.doc
            case Unexpected => after.doc == st.doc
            case _ => false
  {
  }

  lemma WhatTheEvidenceSays(cfg: Config, st: State, agent: string, event: Event, g: GateInput, w: WakeInput)
    ensures var (after, verdict) := Executed(cfg, st, agent, event, g, w);
            var past, present := Evidence.Wake(st.doc, agent), Evidence.Wake(after.doc, agent);
            match verdict
            case Ok => Told(past, present, event, Some(event.deliveryId), Evidence.Oks)
            case Refused(WakeLockGate) =>
              g.wakeLock.Decline? && Told(past, present, event, Some(Cut(g.wakeLock.reason)), Evidence.Refusals)
            case Refused(BreakerGate) =>
              var outcome := Asked(cfg, st, agent, event, g).1;
              !outcome.Admitted? && Told(past, present, event, Some(Cut(Refusal(outcome))), Evidence.Refusals)
            case DedupedDelivery => Told(past, present, event, None, Evidence.Dedups)
            case Coalesced(_) => Told(past, present, event, None, Evidence.Dedups)
            case FailedWake => past.failed + 1 == present.failed
            case _ => after.doc == st.doc
  {
    GatesTell(cfg, st, agent, event, g);
    WakeTells(cfg, Gated(cfg, st, agent, event, g).0, agent, event, w);
    var outcome := Asked(cfg, st, agent, event, g).1;
    if !outcome.Admitted? {
      RefusalIsDetail(outcome);
    }
  }

  lemma FailureIsTheLastError(cfg: Config, st: State, agent: string, event: Event, g: GateInput, w: WakeInput)
    requires Launches(cfg, st, agent, event, g, w) > 0 && Executed(cfg, st, agent, event, g, w).1 == FailedWake
    ensures var last := w.script(Launches(cfg, st, agent, event, g, w) - 1).ending;
            && last.Transient?
            && Told(Evidence.Wake(st.doc, agent),
                    Evidence.Wake(Executed(cfg, st, agent, event, g, w).0.doc, agent), event,
                    Some(Cut(last.error)), Evidence.Failures)
  {
  }
  /** What is remembered of a wake that ended in a success or a stop: its delivery as woken for, at the time it was
      marked, and its stream as read from the start of the attempt that decided. Of any other nothing is. */
  lemma WhatIsRemembered(cfg: Config, st: State, agent: string, event: Event, g: GateInput, w: WakeInput)
    ensures var (after, verdict) := Executed(cfg, st, agent, event, g, w);
            var looked := Dedup.Seen(cfg.ttl, st.deduper, event.DedupKey(), g.seenAt).0;
            if verdict == Ok || verdict == StoppedWake then
              var n := Launches(cfg, st, agent, event, g, w);
              && n >= 1
              && after.deduper == Dedup.Mark(cfg.ttl, looked, event.DedupKey(), w.markedAt)
              && after.coverage
                 == Coalesce.Record(st.coverage, agent, event, w.script(n - 1).startedAt, cfg.capacity)
            else after.deduper == looked && after.coverage == st.coverage
  {
    var gated := Gated(cfg, st, agent, event, g);
    GatesRememberNothing(cfg, st, agent, event, g);
    if gated.1 == None {
      WakeRemembers(cfg, gated.0, agent, event, w);
    }
  }

  lemma GatesRememberNothing(cfg: Config, st: State, agent: string, event: Event, g: GateInput)
    ensures var (after, stopped) := Gated(cfg, st, agent, event, g);
            && after.deduper == Dedup.Seen(cfg.ttl, st.deduper, event.DedupKey(), g.seenAt).0
            && after.coverage == st.coverage
            && (stopped.Some? ==> stopped.value != Ok && stopped.value != StoppedWake)
  {
  }

  lemma WakeRemembers(cfg: Config, st: State, agent: string, event: Event, w: WakeInput)
    ensures var (after, verdict) := Woken(cfg, st, agent, event, w);
            if verdict == Ok || verdict == StoppedWake then
              && Attempts(cfg, event) >= 1
              && var last := w.script(Retries.Calls(w.script, 0, Attempts(cfg, event)) - 1);
              && after.deduper == Dedup.Mark(cfg.ttl, st.deduper, event.DedupKey(), w.markedAt)
              && after.coverage == Coalesce.Record(st.coverage, agent, event, last.startedAt, cfg.capacity)
            else after.deduper == st.deduper && after.coverage == st.coverage
  {
  }
}
