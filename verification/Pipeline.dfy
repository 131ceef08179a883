/** The dispatch half of pipeline.py: the gates in order, then the wake. What the outside world answers
    (clocks, the route's recheck, the wake-lock, each wake attempt) is an input. */
module Pipeline {
  import opened Common
  import opened Models
  import Dedup
  import Lru
  import Coalesce
  import Breaker
  import Evidence
  import opened Retry

  datatype Config = Config(ttl: real, capacity: nat, breaker: Breaker.Config, wakeAttempts: int)

  /** A collaborator's yes, its no with a reason, or an exception. */
  datatype Answer = Proceed | Decline(reason: string) | Raises(error: string)

  /** What the gates are told. */
  datatype GateInput = GateInput(seenAt: real, recheck: Answer, wakeLock: Answer, breakerAt: real, at: string)

  /** What the wake is told. */
  datatype WakeInput = WakeInput(script: nat -> Attempt, markedAt: real, at: string)

  datatype Gate = WakeLockGate | BreakerGate

  datatype Verdict =
    | Ok
    | FailedWake
    | Refused(gate: Gate)
    | DedupedDelivery
    | Coalesced(into: Coalesce.Coverage)                 // the wake it is recorded as coalesced into
    | Dropped
    | StoppedWake
    | Unexpected
  {
    /** The delivery is done: woken, or stopped. */
    predicate Completed() { Ok? || StoppedWake? }

    /** The evidence counter the verdict moves, if any. */
    function Counts(): Option<Evidence.Counter> {
      match this
      case Ok => Some(Evidence.Oks)
      case FailedWake => Some(Evidence.Failures)
      case Refused(_) => Some(Evidence.Refusals)
      case DedupedDelivery => Some(Evidence.Dedups)
      case Coalesced(_) => Some(Evidence.Dedups)
      case _ => None
    }
  }

  datatype Stage = Lock | Dedupe | Coalesce | Recheck | WakeLock | BreakerStage | Wake
  datatype StageOutcome = OK | IGNORED | FAILED | STOPPED

  function Terminal(v: Verdict): (Stage, StageOutcome) {
    match v
    case Ok => (Wake, OK)
    case FailedWake => (Wake, FAILED)
    case Refused(WakeLockGate) => (WakeLock, IGNORED)
    case Refused(BreakerGate) => (BreakerStage, IGNORED)
    case DedupedDelivery => (Dedupe, IGNORED)
    case Coalesced(_) => (Coalesce, IGNORED)
    case Dropped => (Recheck, IGNORED)
    case StoppedWake => (Wake, STOPPED)
    case Unexpected => (Wake, FAILED)
  }

  /** The stage record tells where a run ended: each verdict has its own, but for a wake that failed in every attempt
      and one that broke, which are both a failed wake. */
  lemma RecordTells(v: Verdict)
    ensures Terminal(v).1 == OK <==> v == Ok
    ensures Terminal(v).1 == STOPPED <==> v == StoppedWake
    ensures Terminal(v).1 == FAILED <==> v == FailedWake || v == Unexpected
    ensures Terminal(v).0 == Wake <==> Terminal(v).1 != IGNORED
    ensures Terminal(v).0 == Dedupe <==> v == DedupedDelivery
    ensures Terminal(v).0 == Coalesce <==> v.Coalesced?
    ensures Terminal(v).0 == Recheck <==> v == Dropped
    ensures Terminal(v).0 == WakeLock <==> v == Refused(WakeLockGate)
    ensures Terminal(v).0 == BreakerStage <==> v == Refused(BreakerGate)
    ensures Terminal(v).0 != Lock
  {
  }

  datatype State = State(deduper: Dedup.Cache, coverage: Coalesce.Streams, breaker: Breaker.State,
                         doc: Evidence.Document)

  function From(event: Event): Evidence.Origin { Evidence.Origin(event.source, event.Synthetic()) }

  function Noted(st: State, agent: string, report: Evidence.Report, event: Event, at: string): State {
    st.(doc := Evidence.After(st.doc, agent, report, From(event), at))
  }

  /** The gates, in order: `None` when the delivery is to be woken for. */
  function Gated(cfg: Config, st: State, agent: string, event: Event, g: GateInput): (State, Option<Verdict>) {
    var (cache, hit) := Dedup.Seen(cfg.ttl, st.deduper, event.DedupKey(), g.seenAt);
    var st1 := st.(deduper := cache);
    if hit then (Noted(st1, agent, Evidence.Deduped, event, g.at), Some(DedupedDelivery))
    else if Coalesce.Covering(st1.coverage, agent, event).Some? then
      (Noted(st1, agent, Evidence.Deduped, event, g.at),
       Some(Coalesced(Coalesce.Covering(st1.coverage, agent, event).value)))
    else Dispatched(cfg, st1, agent, event, g)
  }

  /** The gates past the two duplicate checks: the route's recheck, the wake-lock, the breaker. */
  function Dispatched(cfg: Config, st: State, agent: string, event: Event, g: GateInput): (State, Option<Verdict>) {
    match g.recheck
    case Raises(_) => (st, Some(Unexpected))
    case Decline(_) => (st, Some(Dropped))
    case Proceed =>
      match g.wakeLock
      case Raises(_) => (st, Some(Unexpected))
      case Decline(reason) => (Noted(st, agent, Evidence.Refused(reason), event, g.at), Some(Refused(WakeLockGate)))
      case Proceed =>
        var call := Breaker.Call(g.breakerAt, agent, Some(event.StreamKey()));
        var (breaker, outcome) := Breaker.Admit(cfg.breaker, st.breaker, call);
        var st2 := st.(breaker := breaker);
        if outcome.Admitted? then (st2, None)
        else (Noted(st2, agent, Evidence.Refused(outcome.Detail()), event, g.at), Some(Refused(BreakerGate)))
  }

  function Attempts(cfg: Config, event: Event): int { if event.Synthetic() then 1 else cfg.wakeAttempts }

  /** `_wake`: the attempts, what is recorded of them, and the coverage a completed one leaves. */
  function Woke(cfg: Config, st: State, agent: string, event: Event, w: WakeInput): (State, Verdict) {
    if Attempts(cfg, event) < 1 then (st, Unexpected)
    else
      var last := w.script(Calls(w.script, 0, Attempts(cfg, event)) - 1);
      match last.ending
      case Succeeded(_) =>
        var noted := Noted(st, agent, Evidence.Succeeded(event.deliveryId), event, w.at);
        (Covered(cfg, noted, agent, event, last.startedAt), Ok)
      case Stopped(_) => (Covered(cfg, st, agent, event, last.startedAt), StoppedWake)
      case Transient(error) => (Noted(st, agent, Evidence.Failed(error), event, w.at), FailedWake)
      case Raised(_) => (st, Unexpected)
  }

  function Covered(cfg: Config, st: State, agent: string, event: Event, startedAt: real): State {
    st.(coverage := Coalesce.Record(st.coverage, agent, event, startedAt, cfg.capacity))
  }

  /** The wake, and the dedup mark a completed one gets. */
  function Woken(cfg: Config, st: State, agent: string, event: Event, w: WakeInput): (State, Verdict) {
    var (after, verdict) := Woke(cfg, st, agent, event, w);
    if !verdict.Completed() then (after, verdict)
    else (after.(deduper := Dedup.Mark(cfg.ttl, after.deduper, event.DedupKey(), w.markedAt)), verdict)
  }

  /** One whole `execute`. */
  function Executed(cfg: Config, st: State, agent: string, event: Event, g: GateInput, w: WakeInput): (State, Verdict) {
    var (st1, verdict) := Gated(cfg, st, agent, event, g);
    if verdict.Some? then (st1, verdict.value) else Woken(cfg, st1, agent, event, w)
  }

  /** How many sessions an `execute` launches. */
  function Launches(cfg: Config, st: State, agent: string, event: Event, g: GateInput, w: WakeInput): nat {
    if Gated(cfg, st, agent, event, g).1.Some? || Attempts(cfg, event) < 1 then 0
    else Calls(w.script, 0, Attempts(cfg, event))
  }

  // ---------------------------------------------------------------- the object

  /** The wake lines of the journal. */
  datatype Line = WakeStart | WakeRetry(attempt: nat) | WakeStopped | WakeEnd(outcome: StageOutcome)

  function RetryLines(n: nat): (lines: seq<Line>)
    ensures |lines| == n && forall i :: 0 <= i < n ==> lines[i] == WakeRetry(i + 1)
  {
    seq(n, (i: nat) => WakeRetry(i + 1))
  }

  /** What a wake writes: a line for each retry and one for a stop, between a start and an end that a probe's wake
      does not have. */
  function Journal(event: Event, launches: nat, verdict: Verdict): seq<Line> {
    (if event.kind.SyntheticProbe? then [] else [WakeStart])
    + RetryLines(if launches == 0 then 0 else launches - 1)
    + (if verdict == StoppedWake then [WakeStopped] else [])
    + (if event.kind.SyntheticProbe? then []
       else [WakeEnd(if verdict == Ok then OK else if verdict == StoppedWake then STOPPED else FAILED)])
  }

  /** Half a second before the second attempt, and twice as long before each one after. */
  ghost predicate BacksOff(slept: seq<real>, launches: nat) {
    && |slept| == (if launches == 0 then 0 else launches - 1)
    && (slept != [] ==> slept[0] == 0.5)
    && forall i :: 0 < i < |slept| ==> slept[i] == slept[i - 1] + slept[i - 1]
  }

  /** One bracket: it opens first, closes last with the verdict's outcome, and does neither in between. */
  ghost predicate Bracketed(lines: seq<Line>, outcome: StageOutcome) {
    && |lines| >= 2 && lines[0] == WakeStart && lines[|lines| - 1] == WakeEnd(outcome)
    && forall i :: 0 < i < |lines| - 1 ==> !lines[i].WakeStart? && !lines[i].WakeEnd?
  }

  lemma JournalIsBracketed(event: Event, launches: nat, verdict: Verdict)
    requires !event.Synthetic()
    requires verdict == Ok || verdict == StoppedWake || verdict == FailedWake || verdict == Unexpected
    ensures Bracketed(Journal(event, launches, verdict), Terminal(verdict).1)
  {
  }

  class PipelineResult {
    var records: seq<(Stage, StageOutcome)>

    constructor ()
      ensures records == []
    {
      records := [];
    }
  }

  class WakePipeline {
    const cfg: Config
    const deduper: Dedup.DeliveryDeduper
    const coverage: Coalesce.WakeCoverage
    const breaker: Breaker.WakeRateBreaker
    const evidence: Evidence.EvidenceStore

    ghost predicate Valid()
      reads this, coverage
    {
      && deduper.ttl == cfg.ttl && coverage.capacity == cfg.capacity && breaker.cfg == cfg.breaker
      && 1 <= cfg.capacity && coverage.streams.Valid()
    }

    function Current(): State
      reads deduper, coverage, breaker, evidence
    {
      State(deduper.Current(), coverage.streams, breaker.Current(), evidence.doc)
    }

    constructor (cfg: Config)
      requires cfg.ttl >= 0.0 && 1 <= cfg.capacity && cfg.breaker.Ok()
      ensures Valid() && this.cfg == cfg
      ensures Current() == State(Dedup.EMPTY, Lru.Empty(), Breaker.State(map[], 0), map[])
    {
      this.cfg := cfg;
      deduper := new Dedup.DeliveryDeduper(cfg.ttl);
      coverage := new Coalesce.WakeCoverage(cfg.capacity);
      breaker := new Breaker.WakeRateBreaker(cfg.breaker);
      evidence := new Evidence.EvidenceStore();
      new;
      assert SetOf(coverage.streams.order) == {};
    }

    /** `execute`, holding the agent's lock. Every run leaves exactly two records: the lock, and where it
        ended. */
    method Execute(agent: string, event: Event, g: GateInput, w: WakeInput, result: PipelineResult)
      returns (verdict: Verdict, launches: nat, lines: seq<Line>, slept: seq<real>)
      requires Valid()
      modifies deduper, coverage, breaker, evidence, result
      ensures Valid()
      ensures (Current(), verdict) == Executed(cfg, old(Current()), agent, event, g, w)
      ensures launches == Launches(cfg, old(Current()), agent, event, g, w)
      ensures result.records == old(result.records) + [(Lock, OK), Terminal(verdict)]
      ensures lines != [] && !event.Synthetic() ==> Bracketed(lines, Terminal(verdict).1)
      ensures launches > 0 ==> lines == Journal(event, launches, verdict)
      ensures BacksOff(slept, launches)
    {
      result.records := result.records + [(Lock, OK)];
      var stopped := PassGates(agent, event, g, result);
      if stopped.Some? {
        return stopped.value, 0, [], [];
      }
      verdict, launches, lines, slept := WakeAgent(agent, event, w, result);
      if verdict.Unexpected? {
        result.records := result.records + [(Wake, FAILED)];
      }
      if verdict.Completed() {
        deduper.MarkSeen(event.DedupKey(), w.markedAt);
      }
    }

    /** The gates of `execute`, in order; the delivery is woken for when none of them stops it. */
    method PassGates(agent: string, event: Event, g: GateInput, result: PipelineResult)
      returns (stopped: Option<Verdict>)
      requires Valid()
      modifies deduper, breaker, evidence, result
      ensures Valid()
      ensures (Current(), stopped) == Gated(cfg, old(Current()), agent, event, g)
      ensures result.records == old(result.records) + if stopped.Some? then [Terminal(stopped.value)] else []
    {
      var provenance := From(event);
      stopped := None;
      var hit := deduper.WasSeen(event.DedupKey(), g.seenAt);
      if hit {
        evidence.RecordWakeDeduped(agent, provenance, g.at);
        result.records := result.records + [(Dedupe, IGNORED)];
        return Some(DedupedDelivery);
      }
      var covering := coverage.CoveringWake(agent, event);
      if covering.Some? {
        evidence.RecordWakeDeduped(agent, provenance, g.at);
        result.records := result.records + [(Coalesce, IGNORED)];
        return Some(Coalesced(covering.value));
      }
      stopped := PassDispatchGates(agent, event, g, result);
    }

    method PassDispatchGates(agent: string, event: Event, g: GateInput, result: PipelineResult)
      returns (stopped: Option<Verdict>)
      requires Valid()
      modifies breaker, evidence, result
      ensures Valid()
      ensures (Current(), stopped) == Dispatched(cfg, old(Current()), agent, event, g)
      ensures result.records == old(result.records) + if stopped.Some? then [Terminal(stopped.value)] else []
    {
      var provenance := From(event);
      stopped := None;
      if g.recheck.Raises? {
        result.records := result.records + [(Wake, FAILED)];
        return Some(Unexpected);
      }
      if g.recheck.Decline? {
        result.records := result.records + [(Recheck, IGNORED)];
        return Some(Dropped);
      }
      if g.wakeLock.Raises? {
        result.records := result.records + [(Wake, FAILED)];
        return Some(Unexpected);
      }
      if g.wakeLock.Decline? {
        evidence.RecordWakeRefused(agent, g.wakeLock.reason, provenance, g.at);
        result.records := result.records + [(WakeLock, IGNORED)];
        return Some(Refused(WakeLockGate));
      }
      var outcome := breaker.AdmitWake(Breaker.Call(g.breakerAt, agent, Some(event.StreamKey())));
      if !outcome.Admitted? {
        evidence.RecordWakeRefused(agent, outcome.Detail(), provenance, g.at);
        result.records := result.records + [(BreakerStage, IGNORED)];
        return Some(Refused(BreakerGate));
      }
    }

    /** `_wake`: dispatch with retry, record what happened, and close the bracket however it ended. */
    method WakeAgent(agent: string, event: Event, w: WakeInput, result: PipelineResult)
      returns (verdict: Verdict, launches: nat, lines: seq<Line>, slept: seq<real>)
      requires Valid()
      modifies coverage, evidence, result
      ensures Valid()
      ensures (Current(), verdict) == Woke(cfg, old(Current()), agent, event, w)
      ensures launches == if Attempts(cfg, event) < 1 then 0 else Calls(w.script, 0, Attempts(cfg, event))
      ensures result.records == old(result.records) + if verdict.Unexpected? then [] else [Terminal(verdict)]
      ensures lines == Journal(event, launches, verdict)
      ensures !event.Synthetic() ==> Bracketed(lines, Terminal(verdict).1)
      ensures BacksOff(slept, launches)
    {
      lines := if event.Synthetic() then [] else [WakeStart];
      var end;
      end, launches, slept := WithRetry(w.script, Attempts(cfg, event), 0.5);
      lines := lines + RetryLines(if launches == 0 then 0 else launches - 1);
      verdict := Conclude(agent, event, w, end, result);
      if verdict.StoppedWake? {
        lines := lines + [WakeStopped];
      }
      if !event.Synthetic() {
        lines := lines + [WakeEnd(Terminal(verdict).1)];
        JournalIsBracketed(event, launches, verdict);
      }
    }

    /** What `_wake` leaves behind, by how its retries ended. */
    method Conclude(agent: string, event: Event, w: WakeInput, end: RetryEnd, result: PipelineResult)
      returns (verdict: Verdict)
      requires Valid()
      requires if Attempts(cfg, event) < 1 then end == BadBound
               else
                 var last := w.script(Calls(w.script, 0, Attempts(cfg, event)) - 1);
                 end == if last.ending.Transient? then Exhausted(last) else Ended(last)
      modifies coverage, evidence, result
      ensures Valid()
      ensures (Current(), verdict) == Woke(cfg, old(Current()), agent, event, w)
      ensures result.records == old(result.records) + if verdict.Unexpected? then [] else [Terminal(verdict)]
    {
      if end.BadBound? || (end.Ended? && end.last.ending.Raised?) {
        verdict := Unexpected;
      } else if end.Ended? && end.last.ending.Stopped? {
        coverage.RecordWake(agent, event, end.last.startedAt);
        result.records := result.records + [(Wake, STOPPED)];
        verdict := StoppedWake;
      } else if end.Exhausted? {
        evidence.RecordWakeFailed(agent, end.last.ending.error, From(event), w.at);
        result.records := result.records + [(Wake, FAILED)];
        verdict := FailedWake;
      } else {
        evidence.RecordWakeOk(agent, event.deliveryId, From(event), w.at);
        coverage.RecordWake(agent, event, end.last.startedAt);
        result.records := result.records + [(Wake, OK)];
        verdict := Ok;
      }
    }
  }
}
