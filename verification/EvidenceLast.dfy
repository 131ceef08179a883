/** What the evidence document says, read off the calls it was told: how many of each kind, and the last of each. */
module EvidenceLast {
  import opened Common
  import opened Evidence

  /** The four kinds of report. */
  predicate OfKind(report: Report, c: Counter) {
    match c
    case Oks => report.Succeeded?
    case Failures => report.Failed?
    case Refusals => report.Refused?
    case Dedups => report.Deduped?
  }

  /** Call `i` reports this kind for the agent, by this route if one is named. */
  predicate Tells(events: seq<Event>, i: int, agent: string, route: Option<string>, c: Counter) {
    && 0 <= i < |events| && events[i].Reported? && events[i].agent == agent
    && (route == None || route == Some(events[i].from.route)) && OfKind(events[i].report, c)
  }

  predicate TellsLast(events: seq<Event>, i: int, agent: string, route: Option<string>, c: Counter) {
    Tells(events, i, agent, route, c) && forall j :: i < j < |events| ==> !Tells(events, j, agent, route, c)
  }

  function Tellings(events: seq<Event>, agent: string, route: Option<string>, c: Counter): set<int> {
    set i | 0 <= i < |events| && Tells(events, i, agent, route, c)
  }

  /** The words of a report: a success's delivery, or the first two hundred characters of a reason. */
  function Words(report: Report): Option<string> {
    match report
    case Succeeded(delivery) => Some(delivery)
    case Failed(reason) => Some(reason[..if |reason| < 200 then |reason| else 200])
    case Refused(reason) => Some(reason[..if |reason| < 200 then |reason| else 200])
    case Deduped => None
  }

  lemma ReasonIsCut(text: string)
    ensures Reason(text) == text[..if |text| < 200 then |text| else 200]
  {
    assert text[..|text|] == text;
  }

  lemma WordsOf(report: Report)
    ensures match report
            case Succeeded(delivery) => Words(report) == Some(delivery)
            case Failed(reason) => Words(report) == Some(Reason(reason))
            case Refused(reason) => Words(report) == Some(Reason(reason))
            case Deduped => Words(report) == None
  {
    match report
    case Failed(reason) => ReasonIsCut(reason);
    case Refused(reason) => ReasonIsCut(reason);
    case _ =>
  }

  /** What a record shows of the last report of one kind: when, its words, and where it came from. */
  function Shown(w: AgentWake, c: Counter): (Option<string>, Option<string>, Option<Origin>) {
    match c
    case Oks => (w.lastOkAt, w.lastOkDelivery, w.lastOkOrigin)
    case Failures => (w.lastFailedAt, w.lastFailedReason, w.lastFailedOrigin)
    case Refusals => (w.lastRefusedAt, w.lastRefusedReason, w.lastRefusedOrigin)
    case Dedups => (w.lastDedupedAt, None, w.lastDedupedOrigin)
  }

  function RowShown(r: Row, c: Counter): (Option<string>, Option<string>) {
    match c
    case Oks => (r.lastOkAt, r.lastOkDelivery)
    case Failures => (r.lastFailedAt, r.lastFailedReason)
    case Refusals => (r.lastRefusedAt, r.lastRefusedReason)
    case Dedups => (r.lastDedupedAt, None)
  }

  // ---------------------------------------------------------------- one more call

  lemma TellingsSnoc(events: seq<Event>, e: Event, agent: string, route: Option<string>, c: Counter)
    ensures forall i :: 0 <= i < |events| ==>
              (Tells(events + [e], i, agent, route, c) <==> Tells(events, i, agent, route, c))
    ensures |Tellings(events + [e], agent, route, c)|
            == |Tellings(events, agent, route, c)| + if Tells(events + [e], |events|, agent, route, c) then 1 else 0
  {
    var one := if Tells(events + [e], |events|, agent, route, c) then {|events|} else {};
    assert Tellings(events + [e], agent, route, c) == Tellings(events, agent, route, c) + one;
  }

  /** A call changes what is shown of its own kind, agent and route, and of nothing else. */
  lemma ShownAfter(doc: Document, e: Event, agent: string, c: Counter)
    ensures var w, v := Wake(doc, agent), Wake(Applied(doc, e), agent);
            Shown(v, c) == if Tells([e], 0, agent, None, c) then (Some(e.at), Words(e.report), Some(e.from))
                           else Shown(w, c)
  {
    if e.Reported? { WordsOf(e.report); }
  }

  lemma RowShownAfter(doc: Document, e: Event, agent: string, route: string, c: Counter)
    ensures var w, v := Wake(doc, agent), Wake(Applied(doc, e), agent);
            RowShown(RowOf(v, route), c)
            == if Tells([e], 0, agent, Some(route), c) then (Some(e.at), Words(e.report))
               else RowShown(RowOf(w, route), c)
  {
    if e.Reported? { WordsOf(e.report); }
  }

  lemma CountedAfter(doc: Document, e: Event, agent: string, route: string)
    ensures var w, v := Wake(doc, agent), Wake(Applied(doc, e), agent);
            && v.ok == w.ok + (if Tells([e], 0, agent, None, Oks) then 1 else 0)
            && v.failed == w.failed + (if Tells([e], 0, agent, None, Failures) then 1 else 0)
            && v.refused == w.refused + (if Tells([e], 0, agent, None, Refusals) then 1 else 0)
            && v.deduped == w.deduped + (if Tells([e], 0, agent, None, Dedups) then 1 else 0)
    ensures var w, v := RowOf(Wake(doc, agent), route), RowOf(Wake(Applied(doc, e), agent), route);
            && v.ok == w.ok + (if Tells([e], 0, agent, Some(route), Oks) then 1 else 0)
            && v.failed == w.failed + (if Tells([e], 0, agent, Some(route), Failures) then 1 else 0)
            && v.refused == w.refused + (if Tells([e], 0, agent, Some(route), Refusals) then 1 else 0)
            && v.deduped == w.deduped + (if Tells([e], 0, agent, Some(route), Dedups) then 1 else 0)
  {
  }

  // ---------------------------------------------------------------- after any calls

  /** An agent's counters, and each route's, are how many reports of each kind there were. */
  lemma {:induction false} CountsTheReports(events: seq<Event>, agent: string, route: string)
    ensures var w := Wake(Replay(events), agent);
            && w.ok == |Tellings(events, agent, None, Oks)| && w.failed == |Tellings(events, agent, None, Failures)|
            && w.refused == |Tellings(events, agent, None, Refusals)|
            && w.deduped == |Tellings(events, agent, None, Dedups)|
    ensures var r, via := RowOf(Wake(Replay(events), agent), route), Some(route);
            && r.ok == |Tellings(events, agent, via, Oks)| && r.failed == |Tellings(events, agent, via, Failures)|
            && r.refused == |Tellings(events, agent, via, Refusals)|
            && r.deduped == |Tellings(events, agent, via, Dedups)|
  {
    if events != [] {
      var n := |events| - 1;
      var before, e := events[..n], events[n];
      CountsTheReports(before, agent, route);
      CountedAfter(Replay(before), e, agent, route);
      assert events == before + [e];
      forall via: Option<string>, c: Counter
        ensures |Tellings(events, agent, via, c)|
                == |Tellings(before, agent, via, c)| + if Tells([e], 0, agent, via, c) then 1 else 0 {
        TellingsSnoc(before, e, agent, via, c);
      }
    } else {
      forall via: Option<string>, c: Counter ensures Tellings(events, agent, via, c) == {} {
      }
    }
  }

  /** For each kind the document shows the last report of the agent, and of each route: when it was, its words, and
      where it came from; and nothing when there was none. */
  lemma {:induction false} ShowsTheLast(events: seq<Event>, agent: string, route: string, c: Counter)
    ensures var w := Wake(Replay(events), agent);
            && (forall i :: TellsLast(events, i, agent, None, c) ==>
                  Shown(w, c) == (Some(events[i].at), Words(events[i].report), Some(events[i].from)))
            && ((forall i :: !Tells(events, i, agent, None, c)) ==> Shown(w, c) == (None, None, None))
            && (forall i :: TellsLast(events, i, agent, Some(route), c) ==>
                  RowShown(RowOf(w, route), c) == (Some(events[i].at), Words(events[i].report)))
            && ((forall i :: !Tells(events, i, agent, Some(route), c)) ==> RowShown(RowOf(w, route), c) == (None, None))
  {
    if events != [] {
      var n := |events| - 1;
      var before, e := events[..n], events[n];
      ShowsTheLast(before, agent, route, c);
      ShownAfter(Replay(before), e, agent, c);
      RowShownAfter(Replay(before), e, agent, route, c);
      assert events == before + [e];
      LastSnoc(before, e, agent, None, c);
      LastSnoc(before, e, agent, Some(route), c);
    }
  }

  lemma LastSnoc(events: seq<Event>, e: Event, agent: string, route: Option<string>, c: Counter)
    ensures Tells([e], 0, agent, route, c) <==> Tells(events + [e], |events|, agent, route, c)
    ensures Tells([e], 0, agent, route, c) ==>
              forall i :: TellsLast(events + [e], i, agent, route, c) ==> i == |events|
    ensures !Tells([e], 0, agent, route, c) ==>
              && (forall i :: TellsLast(events + [e], i, agent, route, c) ==> TellsLast(events, i, agent, route, c))
              && ((forall i :: !Tells(events + [e], i, agent, route, c)) ==>
                    forall i :: !Tells(events, i, agent, route, c))
  {
    TellingsSnoc(events, e, agent, route, c);
    forall i | TellsLast(events + [e], i, agent, route, c) && i < |events|
      ensures TellsLast(events, i, agent, route, c) && !Tells([e], 0, agent, route, c) {
      assert !Tells(events + [e], |events|, agent, route, c);
      forall j | i < j < |events| ensures !Tells(events, j, agent, route, c) {
        assert !Tells(events + [e], j, agent, route, c);
      }
    }
    forall i | Tells(events, i, agent, route, c) ensures Tells(events + [e], i, agent, route, c) {
    }
  }

  // ---------------------------------------------------------------- the migration, in the record's own fields

  /** A record or a row is migrated exactly when its last refusal was a duplicate delivery. What was shown as that
      refusal is then shown as the last dedup, no refusal is shown, and one count has moved. */
  lemma MigrationMoves(w: AgentWake)
    ensures var v := Rebuilt(w);
            if w.lastRefusedReason == Some("duplicate_delivery") then
              && Shown(v, Dedups) == (w.lastRefusedAt, None, w.lastRefusedOrigin)
              && Shown(v, Refusals) == (None, None, None) && v.deduped == w.deduped + 1
              && (w.refused >= 1 ==> v.refused == w.refused - 1) && (w.refused < 1 ==> v.refused == 0)
            else
              && Shown(v, Dedups) == Shown(w, Dedups) && Shown(v, Refusals) == Shown(w, Refusals)
              && v.deduped == w.deduped && v.refused == w.refused
    ensures var v := Rebuilt(w);
            && Shown(v, Oks) == Shown(w, Oks) && Shown(v, Failures) == Shown(w, Failures)
            && v.ok == w.ok && v.failed == w.failed && v.queued == w.queued && v.byRoute.Keys == w.byRoute.Keys
  {
  }

  lemma MigrationMovesRow(w: AgentWake, route: string)
    requires route in w.byRoute
    ensures var r, q := w.byRoute[route], Rebuilt(w).byRoute[route];
            if r.lastRefusedReason == Some("duplicate_delivery") then
              && RowShown(q, Dedups) == (r.lastRefusedAt, None) && RowShown(q, Refusals) == (None, None)
              && q.deduped == r.deduped + 1
              && (r.refused >= 1 ==> q.refused == r.refused - 1) && (r.refused < 1 ==> q.refused == 0)
              && RowShown(q, Oks) == RowShown(r, Oks) && RowShown(q, Failures) == RowShown(r, Failures)
              && q.ok == r.ok && q.failed == r.failed
            else q == r
  {
  }
}
