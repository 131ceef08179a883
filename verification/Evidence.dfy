/** The evidence document's agent-wake half (evidence.py): four outcome counters per agent and per
    (agent, route), the last event of each, and the migration of rows written before dedups were
    counted apart. */
module Evidence {
  import opened Common
  import opened MapSum

  datatype Counter = Oks | Failures | Refusals | Dedups

  datatype Row = Row(
    ok: int, failed: int, refused: int, deduped: int,
    lastOkAt: Option<string>, lastOkDelivery: Option<string>,
    lastFailedAt: Option<string>, lastFailedReason: Option<string>,
    lastRefusedAt: Option<string>, lastRefusedReason: Option<string>,
    lastDedupedAt: Option<string>)
  {
    function Get(c: Counter): int {
      match c case Oks => ok case Failures => failed case Refusals => refused case Dedups => deduped
    }
  }

  datatype Origin = Origin(route: string, synthetic: bool)

  datatype AgentWake = AgentWake(
    ok: int, failed: int, refused: int, deduped: int,
    lastOkAt: Option<string>, lastOkDelivery: Option<string>, lastOkOrigin: Option<Origin>,
    lastFailedAt: Option<string>, lastFailedReason: Option<string>, lastFailedOrigin: Option<Origin>,
    lastRefusedAt: Option<string>, lastRefusedReason: Option<string>, lastRefusedOrigin: Option<Origin>,
    lastDedupedAt: Option<string>, lastDedupedOrigin: Option<Origin>,
    queued: int,
    byRoute: map<string, Row>)
  {
    function Get(c: Counter): int {
      match c case Oks => ok case Failures => failed case Refusals => refused case Dedups => deduped
    }
  }

  type Document = map<string, AgentWake>

  const NO_ROW := Row(0, 0, 0, 0, None, None, None, None, None, None, None)
  const NO_WAKE := AgentWake(0, 0, 0, 0, None, None, None, None, None, None, None, None, None, None, None, 0, map[])
  const DUPLICATE_DELIVERY := "duplicate_delivery"
  const MAX_REASON := 200

  function Reason(text: string): string {
    if |text| <= MAX_REASON then text else text[..MAX_REASON]
  }

  function Wake(doc: Document, agent: string): AgentWake { if agent in doc then doc[agent] else NO_WAKE }

  function RowOf(w: AgentWake, route: string): Row { if route in w.byRoute then w.byRoute[route] else NO_ROW }

  /** What the store is told, and where from. */
  datatype Report =
    | Succeeded(delivery: string)
    | Failed(reason: string)
    | Refused(reason: string)
    | Deduped
  {
    function Counts(): Counter {
      match this case Succeeded(_) => Oks case Failed(_) => Failures case Refused(_) => Refusals case Deduped => Dedups
    }
  }

  function RowAfter(r: Row, report: Report, at: string): Row {
    match report
    case Succeeded(delivery) => r.(ok := r.ok + 1, lastOkAt := Some(at), lastOkDelivery := Some(delivery))
    case Failed(reason) =>
      r.(failed := r.failed + 1, lastFailedAt := Some(at), lastFailedReason := Some(Reason(reason)))
    case Refused(reason) =>
      r.(refused := r.refused + 1, lastRefusedAt := Some(at), lastRefusedReason := Some(Reason(reason)))
    case Deduped => r.(deduped := r.deduped + 1, lastDedupedAt := Some(at))
  }

  function WakeAfter(w: AgentWake, report: Report, from: Origin, at: string): AgentWake {
    var v := match report
      case Succeeded(delivery) =>
        w.(ok := w.ok + 1, lastOkAt := Some(at), lastOkDelivery := Some(delivery), lastOkOrigin := Some(from))
      case Failed(reason) =>
        w.(failed := w.failed + 1,
           lastFailedAt := Some(at), lastFailedReason := Some(Reason(reason)), lastFailedOrigin := Some(from))
      case Refused(reason) =>
        w.(refused := w.refused + 1,
           lastRefusedAt := Some(at), lastRefusedReason := Some(Reason(reason)), lastRefusedOrigin := Some(from))
      case Deduped =>
        w.(deduped := w.deduped + 1, lastDedupedAt := Some(at), lastDedupedOrigin := Some(from));
    v.(byRoute := w.byRoute[from.route := RowAfter(RowOf(w, from.route), report, at)])
  }

  function After(doc: Document, agent: string, report: Report, from: Origin, at: string): Document {
    doc[agent := WakeAfter(Wake(doc, agent), report, from, at)]
  }

  /** One call on the store. */
  datatype Event =
    | Reported(agent: string, report: Report, from: Origin, at: string)
    | Depth(agent: string, pending: nat)

  function Applied(doc: Document, event: Event): Document {
    match event
    case Reported(agent, report, from, at) => After(doc, agent, report, from, at)
    case Depth(agent, pending) => doc[agent := Wake(doc, agent).(queued := pending)]
  }

  class EvidenceStore {
    var doc: Document

    constructor ()
      ensures doc == map[]
    {
      doc := map[];
    }

    method RecordWakeOk(agent: string, delivery: string, from: Origin, at: string)
      modifies this
      ensures doc == After(old(doc), agent, Succeeded(delivery), from, at)
    {
      var wake := if agent in doc then doc[agent] else NO_WAKE;
      wake := wake.(ok := wake.ok + 1,
                    lastOkAt := Some(at), lastOkDelivery := Some(delivery), lastOkOrigin := Some(from));
      var row := if from.route in wake.byRoute then wake.byRoute[from.route] else NO_ROW;
      row := row.(ok := row.ok + 1, lastOkAt := Some(at), lastOkDelivery := Some(delivery));
      doc := doc[agent := wake.(byRoute := wake.byRoute[from.route := row])];
    }

    method RecordWakeFailed(agent: string, reason: string, from: Origin, at: string)
      modifies this
      ensures doc == After(old(doc), agent, Failed(reason), from, at)
    {
      var wake := if agent in doc then doc[agent] else NO_WAKE;
      wake := wake.(failed := wake.failed + 1, lastFailedAt := Some(at),
                    lastFailedReason := Some(Reason(reason)), lastFailedOrigin := Some(from));
      var row := if from.route in wake.byRoute then wake.byRoute[from.route] else NO_ROW;
      row := row.(failed := row.failed + 1, lastFailedAt := Some(at), lastFailedReason := Some(Reason(reason)));
      doc := doc[agent := wake.(byRoute := wake.byRoute[from.route := row])];
    }

    method RecordWakeRefused(agent: string, reason: string, from: Origin, at: string)
      modifies this
      ensures doc == After(old(doc), agent, Refused(reason), from, at)
    {
      var wake := if agent in doc then doc[agent] else NO_WAKE;
      wake := wake.(refused := wake.refused + 1, lastRefusedAt := Some(at),
                    lastRefusedReason := Some(Reason(reason)), lastRefusedOrigin := Some(from));
      var row := if from.route in wake.byRoute then wake.byRoute[from.route] else NO_ROW;
      row := row.(refused := row.refused + 1, lastRefusedAt := Some(at), lastRefusedReason := Some(Reason(reason)));
      doc := doc[agent := wake.(byRoute := wake.byRoute[from.route := row])];
    }

    method RecordWakeDeduped(agent: string, from: Origin, at: string)
      modifies this
      ensures doc == After(old(doc), agent, Deduped, from, at)
    {
      var wake := if agent in doc then doc[agent] else NO_WAKE;
      wake := wake.(deduped := wake.deduped + 1, lastDedupedAt := Some(at), lastDedupedOrigin := Some(from));
      var row := if from.route in wake.byRoute then wake.byRoute[from.route] else NO_ROW;
      row := row.(deduped := row.deduped + 1, lastDedupedAt := Some(at));
      doc := doc[agent := wake.(byRoute := wake.byRoute[from.route := row])];
    }

    /** Shows the depth for the agent; no counter, no row and no other agent's record changes. */
    method RecordQueueDepth(agent: string, pending: nat)
      modifies this
      ensures doc == Applied(old(doc), Depth(agent, pending))
      ensures Wake(doc, agent).queued == pending
      ensures forall c :: Wake(doc, agent).Get(c) == Wake(old(doc), agent).Get(c)
      ensures Wake(doc, agent).byRoute == Wake(old(doc), agent).byRoute
      ensures forall other :: other != agent ==> Wake(doc, other) == Wake(old(doc), other)
    {
      if agent !in doc {
        doc := doc[agent := NO_WAKE];
      }
      var wake := doc[agent];
      if wake.queued == pending { return; }
      doc := doc[agent := wake.(queued := pending)];
    }
  }

  // ---------------------------------------------------------------- conservation

  function Column(rows: map<string, Row>, c: Counter): map<string, int> {
    map route | route in rows :: rows[route].Get(c)
  }

  ghost function RowTotal(w: AgentWake, c: Counter): int {
    Sum(Column(w.byRoute, c))
  }

  /** Each agent counter is the sum of its per-route counters, and the last success the agent record
      names is the last success of the row it names. */
  ghost predicate Consistent(w: AgentWake) {
    && (forall c :: w.Get(c) == RowTotal(w, c))
    && (w.lastOkOrigin == None ==> w.lastOkAt == None && w.lastOkDelivery == None)
    && (w.lastOkOrigin.Some? ==> var r := w.lastOkOrigin.value.route;
          r in w.byRoute && w.byRoute[r].lastOkAt == w.lastOkAt && w.byRoute[r].lastOkDelivery == w.lastOkDelivery)
  }

  lemma RowTotalUpdate(w: AgentWake, route: string, r: Row, c: Counter)
    ensures Sum(Column(w.byRoute[route := r], c)) == RowTotal(w, c) - RowOf(w, route).Get(c) + r.Get(c)
  {
    SumUpdate(Column(w.byRoute, c), route, r.Get(c));
    assert Column(w.byRoute[route := r], c) == Column(w.byRoute, c)[route := r.Get(c)];
  }

  /** A report moves exactly one counter, by one, in the agent record and in the row it came by. */
  lemma ReportMovesOneCounter(w: AgentWake, report: Report, from: Origin, at: string, c: Counter)
    ensures var v := WakeAfter(w, report, from, at); var one := if c == report.Counts() then 1 else 0;
            && v.Get(c) == w.Get(c) + one
            && RowOf(v, from.route).Get(c) == RowOf(w, from.route).Get(c) + one
            && (forall route :: route != from.route ==> RowOf(v, route) == RowOf(w, route))
            && RowTotal(v, c) == RowTotal(w, c) + one
  {
    RowTotalUpdate(w, from.route, RowAfter(RowOf(w, from.route), report, at), c);
  }

  lemma ReportKeepsConsistent(w: AgentWake, report: Report, from: Origin, at: string)
    requires Consistent(w)
    ensures Consistent(WakeAfter(w, report, from, at))
  {
    forall c ensures WakeAfter(w, report, from, at).Get(c) == RowTotal(WakeAfter(w, report, from, at), c) {
      ReportMovesOneCounter(w, report, from, at, c);
    }
  }

  function Replay(events: seq<Event>): Document {
    if events == [] then map[] else Applied(Replay(events[..|events| - 1]), events[|events| - 1])
  }

  /** From an empty document, after any sequence of reports and queue depths, every agent's record is
      consistent. */
  lemma {:induction false} DocumentConsistent(events: seq<Event>, agent: string)
    ensures Consistent(Wake(Replay(events), agent))
  {
    if events == [] {
      forall c ensures NO_WAKE.Get(c) == RowTotal(NO_WAKE, c) {
        assert Column(NO_WAKE.byRoute, c) == map[];
      }
    } else {
      var n := |events| - 1;
      DocumentConsistent(events[..n], agent);
      var w := Wake(Replay(events[..n]), agent);
      match events[n]
      case Reported(a, report, from, at) =>
        if a == agent { ReportKeepsConsistent(w, report, from, at); }
      case Depth(a, pending) =>
        forall c ensures w.(queued := pending).Get(c) == RowTotal(w.(queued := pending), c) {
          assert w.Get(c) == RowTotal(w, c);
        }
    }
  }

  /** The queue depths among the events, in order. */
  function Depths(events: seq<Event>): seq<(string, nat)> {
    if events == [] then []
    else
      var e, before := events[|events| - 1], Depths(events[..|events| - 1]);
      if e.Depth? then before + [(e.agent, e.pending)] else before
  }

  /** And it shows the last depth given for the agent, or 0 if there was none. */
  lemma {:induction false} QueuedIsLastDepth(events: seq<Event>, agent: string)
    ensures Wake(Replay(events), agent).queued == LastCount(Depths(events), agent)
  {
    if events != [] {
      var n := |events| - 1;
      QueuedIsLastDepth(events[..n], agent);
      if events[n].Depth? {
        OfSnoc(Depths(events[..n]), (events[n].agent, events[n].pending), agent);
        assert Of(Depths(events[..n]), agent) + [] == Of(Depths(events[..n]), agent);
      }
    }
  }

  // ---------------------------------------------------------------- the legacy migration

  predicate LegacyRow(r: Row) { r.lastRefusedReason == Some(DUPLICATE_DELIVERY) }

  predicate LegacyWake(w: AgentWake) { w.lastRefusedReason == Some(DUPLICATE_DELIVERY) }

  function AtLeastZero(n: int): int { if n < 0 then 0 else n }

  /** `_reclassify_legacy_dedup` on a per-route row. */
  function MigratedRow(r: Row): Row {
    if !LegacyRow(r) then r
    else r.(deduped := r.deduped + 1, refused := AtLeastZero(r.refused - 1),
            lastDedupedAt := r.lastRefusedAt, lastRefusedAt := None, lastRefusedReason := None)
  }

  /** `_reclassify_legacy_dedup` on an agent record, with its provenance fields. */
  function MigratedWake(w: AgentWake): AgentWake {
    if !LegacyWake(w) then w
    else w.(deduped := w.deduped + 1, refused := AtLeastZero(w.refused - 1),
            lastDedupedAt := w.lastRefusedAt, lastRefusedAt := None, lastRefusedReason := None,
            lastDedupedOrigin := w.lastRefusedOrigin, lastRefusedOrigin := None)
  }

  /** `_rebuild_agent_wake`, from a parsed record on. */
  function Rebuilt(w: AgentWake): AgentWake {
    MigratedWake(w).(byRoute := map route | route in w.byRoute :: MigratedRow(w.byRoute[route]))
  }

  method RebuildAgentWake(parsed: AgentWake) returns (wake: AgentWake)
    ensures wake == Rebuilt(parsed)
  {
    wake := MigratedWake(parsed);
    var left := parsed.byRoute.Keys;
    while left != {}
      invariant left <= parsed.byRoute.Keys == wake.byRoute.Keys
      invariant wake == MigratedWake(parsed).(byRoute := wake.byRoute)
      invariant forall route :: route in left ==> wake.byRoute[route] == parsed.byRoute[route]
      invariant forall route :: route in wake.byRoute && route !in left ==>
          wake.byRoute[route] == MigratedRow(parsed.byRoute[route])
      decreases left
    {
      var route :| route in left;
      wake := wake.(byRoute := wake.byRoute[route := MigratedRow(wake.byRoute[route])]);
      left := left - {route};
    }
  }

  /** Migrating a migrated record changes nothing. */
  lemma MigrationIsIdempotent(w: AgentWake)
    ensures Rebuilt(Rebuilt(w)) == Rebuilt(w)
  {
    var v := Rebuilt(w);
    assert Rebuilt(v).byRoute == v.byRoute;
    assert MigratedWake(v) == v;
  }

  /** It conserves an agent's `refused + deduped` exactly when it has a refusal to move. */
  lemma MigrationConservesIff(w: AgentWake)
    ensures Rebuilt(w).refused + Rebuilt(w).deduped == w.refused + w.deduped <==> LegacyWake(w) ==> w.refused >= 1
    ensures forall route :: route in w.byRoute ==>
              (Rebuilt(w).byRoute[route].refused + Rebuilt(w).byRoute[route].deduped
                 == w.byRoute[route].refused + w.byRoute[route].deduped
               <==> (LegacyRow(w.byRoute[route]) ==> w.byRoute[route].refused >= 1))
  {
  }

  /** How many of an agent's rows are migrated. */
  ghost function LegacyRows(w: AgentWake): int {
    Sum(map route | route in w.byRoute :: if LegacyRow(w.byRoute[route]) then 1 else 0)
  }

  lemma MovedRefusals(w: AgentWake)
    requires forall route :: route in w.byRoute && LegacyRow(w.byRoute[route]) ==> w.byRoute[route].refused >= 1
    ensures RowTotal(w, Refusals) == RowTotal(Rebuilt(w), Refusals) + LegacyRows(w)
  {
    var moved := map route | route in w.byRoute :: if LegacyRow(w.byRoute[route]) then 1 else 0;
    SumAdds(Column(Rebuilt(w).byRoute, Refusals), moved, Column(w.byRoute, Refusals));
  }

  lemma MovedDedups(w: AgentWake)
    ensures RowTotal(Rebuilt(w), Dedups) == RowTotal(w, Dedups) + LegacyRows(w)
  {
    var moved := map route | route in w.byRoute :: if LegacyRow(w.byRoute[route]) then 1 else 0;
    SumAdds(Column(w.byRoute, Dedups), moved, Column(Rebuilt(w).byRoute, Dedups));
  }

  lemma NothingElseMoves(w: AgentWake)
    ensures RowTotal(Rebuilt(w), Oks) == RowTotal(w, Oks) && RowTotal(Rebuilt(w), Failures) == RowTotal(w, Failures)
  {
    assert Column(Rebuilt(w).byRoute, Oks) == Column(w.byRoute, Oks);
    assert Column(Rebuilt(w).byRoute, Failures) == Column(w.byRoute, Failures);
  }

  /** On a consistent record whose migrated parts each have a refusal to move, the migration keeps
      `refused + deduped` equal to the rows' total; `refused` alone still equals the rows' exactly when as
      many rows were migrated as agent records, that is one row for a migrated agent and none otherwise. */
  lemma MigrationAgainstRows(w: AgentWake)
    requires Consistent(w) && (LegacyWake(w) ==> w.refused >= 1)
    requires forall route :: route in w.byRoute && LegacyRow(w.byRoute[route]) ==> w.byRoute[route].refused >= 1
    ensures var v := Rebuilt(w);
            && v.refused + v.deduped == RowTotal(v, Refusals) + RowTotal(v, Dedups)
            && v.ok == RowTotal(v, Oks) && v.failed == RowTotal(v, Failures)
            && (v.refused == RowTotal(v, Refusals) <==> LegacyRows(w) == if LegacyWake(w) then 1 else 0)
  {
    MovedRefusals(w);
    MovedDedups(w);
    NothingElseMoves(w);
    assert w.Get(Refusals) == RowTotal(w, Refusals) && w.Get(Dedups) == RowTotal(w, Dedups);
    assert w.Get(Oks) == RowTotal(w, Oks) && w.Get(Failures) == RowTotal(w, Failures);
  }

  /** The equality for `refused` alone can break: two routes, each last refused as a duplicate. */
  lemma MigrationCanSplitRefused() returns (w: AgentWake)
    ensures Consistent(w) && Rebuilt(w).refused != RowTotal(Rebuilt(w), Refusals)
  {
    var row := NO_ROW.(refused := 1, lastRefusedAt := Some("t"), lastRefusedReason := Some(DUPLICATE_DELIVERY));
    w := NO_WAKE.(refused := 2, lastRefusedAt := Some("t"), lastRefusedReason := Some(DUPLICATE_DELIVERY),
                  byRoute := map["a" := row, "b" := row]);
    forall c ensures w.Get(c) == RowTotal(w, c) {
      TwoRows(row, c);
    }
    var ones := map route | route in w.byRoute :: if LegacyRow(w.byRoute[route]) then 1 else 0;
    assert ones == map["a" := 1, "b" := 1];
    SumWithout(ones, "a");
    assert ones - {"a"} == map["b" := 1];
    SumWithout(map["b" := 1], "b");
    assert map["b" := 1] - {"b"} == map[];
    MigrationAgainstRows(w);
  }

  lemma TwoRows(row: Row, c: Counter)
    ensures Sum(Column(map["a" := row, "b" := row], c)) == 2 * row.Get(c)
  {
    var m := Column(map["a" := row, "b" := row], c);
    SumWithout(m, "a");
    assert m - {"a"} == map["b" := row.Get(c)];
    SumWithout(m - {"a"}, "b");
    assert m - {"a"} - {"b"} == map[];
  }
}
