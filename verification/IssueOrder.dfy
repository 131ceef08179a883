/** The issue ledger against all the reports of an issue: when what it holds is what they come to, and when
    the order they arrive in does not matter. */
module IssueOrder {
  import opened Common
  import opened Lru
  import opened Ledger
  import opened IssueLedgers

  ghost predicate NoEviction(payloads: seq<Payload>, capacity: nat) {
    1 <= capacity && |Started(RULES, LogOf(payloads))| <= capacity
  }

  /** What the ledger holds for an issue. */
  function Held(payloads: seq<Payload>, capacity: nat, url: string): Option<IssueState> {
    var d := StoreOf(RULES, LogOf(payloads), capacity).d;
    if url in d.items then Some(d.items[url]) else None
  }

  /** Some report of the issue has shown the label by position `n`. */
  ghost predicate FollowedBy(payloads: seq<Payload>, url: string, n: int) {
    exists i :: 0 <= i <= n && ShowsHandoff(payloads, url, i)
  }

  // ---------------------------------------------------------------- one field

  /** Of all reports of `url`, the one at `n` is the last to arrive of those nothing outranks in field `f`. */
  ghost predicate Wins<V>(f: IssueState -> Claim<V>, log: seq<(string, IssueState)>, url: string, n: int) {
    && 0 <= n < |log| && log[n].0 == url
    && (forall j :: 0 <= j < n && log[j].0 == url ==> !Above(f(log[j].1), f(log[n].1)))
    && (forall j :: n < j < |log| && log[j].0 == url ==> Above(f(log[n].1), f(log[j].1)))
  }

  /** What the reports of an issue come to claims, in any field, what one of them claims. */
  lemma {:induction false} FoldIsSomeReport<V(!new)>(f: IssueState -> Claim<V>, log: seq<(string, IssueState)>,
                                              url: string)
    returns (j: int)
    requires IsField(f) && Of(log, url) != []
    ensures 0 <= j < |log| && log[j].0 == url && f(Fold(RULES, Of(log, url))) == f(log[j].1)
  {
    var n := |log| - 1;
    assert log == log[..n] + [log[n]];
    OfSnoc(log[..n], log[n], url);
    if log[n].0 != url {
      assert Of(log[..n], url) + [] == Of(log[..n], url);
      j := FoldIsSomeReport(f, log[..n], url);
    } else if Of(log[..n], url) == [] {
      assert Of(log, url) == [log[n].1];
      j := n;
    } else {
      FoldSnoc(f, Of(log[..n], url), log[n].1);
      j := FoldIsSomeReport(f, log[..n], url);
      if f(Fold(RULES, Of(log, url))) != f(log[j].1) {
        j := n;
      }
    }
  }

  lemma {:induction false} WinnerIsFolded<V(!new)>(f: IssueState -> Claim<V>, log: seq<(string, IssueState)>,
                                            url: string, n: int)
    requires IsField(f) && Wins(f, log, url, n)
    ensures Of(log, url) != [] && f(Fold(RULES, Of(log, url))) == f(log[n].1)
  {
    var m := |log| - 1;
    assert log == log[..m] + [log[m]];
    OfSnoc(log[..m], log[m], url);
    if n == m {
      if Of(log[..m], url) != [] {
        var j := FoldIsSomeReport(f, log[..m], url);
        FoldSnoc(f, Of(log[..m], url), log[m].1);
      } else {
        assert Of(log, url) == [log[m].1];
      }
    } else {
      WinnerIsFolded(f, log[..m], url, n);
      if log[m].0 == url {
        FoldSnoc(f, Of(log[..m], url), log[m].1);
      } else {
        assert Of(log[..m], url) + [] == Of(log[..m], url);
      }
    }
  }

  /** Reports before position `m` make no difference exactly when the winner is not one of them. */
  lemma WinsFromIff<V(!new)>(f: IssueState -> Claim<V>, log: seq<(string, IssueState)>, url: string, n: int, m: int)
    requires IsField(f) && Wins(f, log, url, n) && 0 <= m < |log| && Of(log[m..], url) != []
    ensures f(Fold(RULES, Of(log[m..], url))) == f(log[n].1) <==> m <= n
  {
    var tail := log[m..];
    if m <= n {
      assert forall j :: 0 <= j < |tail| ==> tail[j] == log[m + j];
      WinnerIsFolded(f, tail, url, n - m);
    } else {
      var j := FoldIsSomeReport(f, tail, url);
      assert Above(f(log[n].1), f(log[m + j].1));
    }
  }

  /** A field held is what all the issue's reports come to exactly when the report that wins it arrived with
      the label, or after a report that showed it. */
  lemma FieldIsHeldIff<V(!new)>(f: IssueState -> Claim<V>, payloads: seq<Payload>, capacity: nat, url: string, n: int)
    requires IsField(f) && NoEviction(payloads, capacity) && Wins(f, LogOf(payloads), url, n)
    ensures Held(payloads, capacity, url).Some? && f(Held(payloads, capacity, url).value) == f(Reported(payloads[n]))
            <==> FollowedBy(payloads, url, n)
  {
    FollowedFromFirstHandoff(payloads, capacity, url);
    if Held(payloads, capacity, url).Some? {
      StoreKept(RULES, LogOf(payloads), capacity, url);
      var m := StoreOf(RULES, LogOf(payloads), capacity).since[url];
      WinsFromIff(f, LogOf(payloads), url, n, m);
      assert ShowsHandoff(payloads, url, m);
    }
  }

  /** Every field of an issue with reports has a winner. */
  lemma {:induction false} WinnerExists<V>(f: IssueState -> Claim<V>, log: seq<(string, IssueState)>, url: string)
    returns (n: int)
    requires url in KeysOf(log)
    ensures Wins(f, log, url, n)
  {
    var m := |log| - 1;
    assert KeysOf(log) == KeysOf(log[..m]) + [log[m].0];
    if url in KeysOf(log[..m]) {
      n := WinnerExists(f, log[..m], url);
      if log[m].0 == url && !Above(f(log[n].1), f(log[m].1)) {
        n := m;
      }
    } else {
      n := m;
      forall j | 0 <= j < m ensures log[j].0 != url {
        assert KeysOf(log[..m])[j] == log[j].0;
      }
    }
  }

  // ---------------------------------------------------------------- all the fields

  /** The ledger forgets the reports before the first that shows the label. It still holds what all the
      issue's reports come to exactly when each field's winner arrived with or after that one. */
  lemma ForgottenDoNotCountIff(payloads: seq<Payload>, capacity: nat, url: string, o: int, l: int, r: int)
    requires NoEviction(payloads, capacity)
    requires Wins(OpenClaim, LogOf(payloads), url, o) && Wins(LabelsClaim, LogOf(payloads), url, l)
    requires Wins(RefClaim, LogOf(payloads), url, r)
    ensures Of(LogOf(payloads), url) != []
    ensures Held(payloads, capacity, url) == Some(Fold(RULES, Of(LogOf(payloads), url)))
            <==> FollowedBy(payloads, url, o) && FollowedBy(payloads, url, l) && FollowedBy(payloads, url, r)
  {
    TheFields();
    WinnerIsFolded(OpenClaim, LogOf(payloads), url, o);
    WinnerIsFolded(LabelsClaim, LogOf(payloads), url, l);
    WinnerIsFolded(RefClaim, LogOf(payloads), url, r);
    FieldIsHeldIff(OpenClaim, payloads, capacity, url, o);
    FieldIsHeldIff(LabelsClaim, payloads, capacity, url, l);
    FieldIsHeldIff(RefClaim, payloads, capacity, url, r);
    if Held(payloads, capacity, url).Some?
       && FollowedBy(payloads, url, o) && FollowedBy(payloads, url, l) && FollowedBy(payloads, url, r) {
      ClaimsDetermine(Held(payloads, capacity, url).value, Fold(RULES, Of(LogOf(payloads), url)));
    }
  }

  // ---------------------------------------------------------------- the newest report

  /** The report at `n` is newer than every other report of the issue. */
  ghost predicate Newest(payloads: seq<Payload>, url: string, n: int) {
    && 0 <= n < |payloads| && payloads[n].url == url
    && (forall j :: 0 <= j < |payloads| && j != n && payloads[j].url == url ==>
          payloads[j].updatedAt < payloads[n].updatedAt)
  }

  lemma NewestWins(payloads: seq<Payload>, url: string, n: int)
    requires Newest(payloads, url, n)
    ensures Wins(OpenClaim, LogOf(payloads), url, n) && Wins(LabelsClaim, LogOf(payloads), url, n)
    ensures Wins(RefClaim, LogOf(payloads), url, n)
  {
  }

  /** There is one whenever no two reports of the issue are of the same second. */
  lemma DistinctHaveNewest(payloads: seq<Payload>, url: string) returns (n: int)
    requires exists i :: 0 <= i < |payloads| && payloads[i].url == url
    requires forall i, j :: 0 <= i < j < |payloads| && payloads[i].url == url && payloads[j].url == url ==>
               payloads[i].updatedAt != payloads[j].updatedAt
    ensures Newest(payloads, url, n)
  {
    var log := LogOf(payloads);
    var i :| 0 <= i < |payloads| && payloads[i].url == url;
    assert KeysOf(log)[i] == url;
    n := WinnerExists(OpenClaim, log, url);
    forall j | 0 <= j < |payloads| && j != n && payloads[j].url == url
      ensures payloads[j].updatedAt < payloads[n].updatedAt {
      assert log[j].0 == url;
    }
  }

  /** Wherever it arrives, the newest report is what is held exactly when it, or a report before it, shows
      the label. */
  lemma NewestIsHeldIff(payloads: seq<Payload>, capacity: nat, url: string, n: int)
    requires NoEviction(payloads, capacity) && Newest(payloads, url, n)
    ensures Held(payloads, capacity, url) == Some(Reported(payloads[n])) <==> FollowedBy(payloads, url, n)
  {
    TheFields();
    NewestWins(payloads, url, n);
    FieldIsHeldIff(OpenClaim, payloads, capacity, url, n);
    FieldIsHeldIff(LabelsClaim, payloads, capacity, url, n);
    FieldIsHeldIff(RefClaim, payloads, capacity, url, n);
    if FollowedBy(payloads, url, n) {
      ClaimsDetermine(Held(payloads, capacity, url).value, Reported(payloads[n]));
    }
  }

  /** So the recheck of a queued wake answers for the newest report, when that is held, and never drops the
      wake of an issue that no report showed as a handoff. */
  lemma RecheckAnswersNewest(payloads: seq<Payload>, capacity: nat, url: string, n: int)
    requires NoEviction(payloads, capacity) && Newest(payloads, url, n)
    ensures var reason := ReasonToDrop(StoreOf(RULES, LogOf(payloads), capacity).d, url); var p := payloads[n];
            && (FollowedBy(payloads, url, n) ==>
                  && (reason == None <==> p.open && DO_NOT_WORK_LABEL !in p.labels && HANDOFF in p.labels)
                  && (reason == Some(IssueClosed) <==> !p.open)
                  && (reason == Some(DoNotWork) <==> p.open && DO_NOT_WORK_LABEL in p.labels))
            && (!FollowedBy(payloads, url, |payloads| - 1) ==> reason == None)
  {
    NewestIsHeldIff(payloads, capacity, url, n);
    FollowedFromFirstHandoff(payloads, capacity, url);
    if Held(payloads, capacity, url).Some? {
      var i :| ShowsHandoff(payloads, url, i);
      assert FollowedBy(payloads, url, |payloads| - 1);
    }
  }

  // ---------------------------------------------------------------- the order of arrival

  /** The same reports of the issue, in any order, among any reports of others. */
  ghost predicate SameReports(p: seq<Payload>, q: seq<Payload>, url: string) {
    forall x: Payload :: x.url == url ==> multiset(p)[x] == multiset(q)[x]
  }

  ghost predicate OrderFree(payloads: seq<Payload>, capacity: nat, url: string) {
    forall q: seq<Payload> :: SameReports(payloads, q, url) && NoEviction(q, capacity) ==>
      Held(q, capacity, url) == Held(payloads, capacity, url)
  }

  lemma CountAt(p: seq<Payload>, n: int)
    requires 0 <= n < |p|
    ensures multiset(p) == multiset(p[..n] + p[n + 1..]) + multiset{p[n]}
  {
    assert p == p[..n] + [p[n]] + p[n + 1..];
  }

  /** The newest report is the newest in any order. */
  lemma NewestAnywhere(p: seq<Payload>, q: seq<Payload>, url: string, n: int) returns (m: int)
    requires Newest(p, url, n) && SameReports(p, q, url)
    ensures Newest(q, url, m) && q[m] == p[n]
  {
    var x := p[n];
    assert x in multiset(p) && multiset(q)[x] == multiset(p)[x];
    assert x in q;
    m :| 0 <= m < |q| && q[m] == x;
    CountAt(p, n);
    CountAt(q, m);
    var ps, qs := p[..n] + p[n + 1..], q[..m] + q[m + 1..];
    assert x !in ps;
    assert multiset(qs)[x] == multiset(ps)[x] == 0;
    forall j | 0 <= j < |q| && j != m && q[j].url == url ensures q[j].updatedAt < x.updatedAt {
      assert q[j] == qs[if j < m then j else j - 1];
      assert q[j] in multiset(qs) && q[j] in multiset(q);
      assert q[j] in multiset(p) && q[j] in p;
      var k :| 0 <= k < |p| && p[k] == q[j];
      assert k != n;
    }
  }

  lemma LabelShows(p: seq<Payload>, q: seq<Payload>, url: string, i: int) returns (j: int)
    requires SameReports(p, q, url) && ShowsHandoff(p, url, i)
    ensures ShowsHandoff(q, url, j)
  {
    assert p[i] in multiset(p) && multiset(q)[p[i]] == multiset(p)[p[i]];
    assert p[i] in q;
    j :| 0 <= j < |q| && q[j] == p[i];
  }

  /** Nothing is evicted from the same payloads in another order. */
  lemma RearrangedFits(p: seq<Payload>, q: seq<Payload>, capacity: nat)
    requires NoEviction(p, capacity) && multiset(p) == multiset(q)
    ensures NoEviction(q, capacity)
  {
    forall url | url in Started(RULES, LogOf(q)) ensures url in Started(RULES, LogOf(p)) {
      var i :| 0 <= i < |q| && RULES.starts(LogOf(q)[i].1) && LogOf(q)[i].0 == url;
      assert q[i] in multiset(q) && q[i] in multiset(p);
      var j :| 0 <= j < |p| && p[j] == q[i];
      assert LogOf(p)[j] == LogOf(q)[i];
    }
    SubsetSize(Started(RULES, LogOf(q)), Started(RULES, LogOf(p)));
  }

  /** With the label on the newest report, or on none, every order gives one state. */
  lemma EveryOrderAgrees(p: seq<Payload>, q: seq<Payload>, capacity: nat, url: string, n: int)
    requires NoEviction(p, capacity) && NoEviction(q, capacity) && Newest(p, url, n) && SameReports(p, q, url)
    requires HANDOFF in p[n].labels || forall i :: !ShowsHandoff(p, url, i)
    ensures Held(q, capacity, url) == Held(p, capacity, url)
  {
    if HANDOFF in p[n].labels {
      var m := NewestAnywhere(p, q, url, n);
      assert ShowsHandoff(p, url, n) && ShowsHandoff(q, url, m);
      NewestIsHeldIff(p, capacity, url, n);
      NewestIsHeldIff(q, capacity, url, m);
    } else {
      FollowedFromFirstHandoff(p, capacity, url);
      FollowedFromFirstHandoff(q, capacity, url);
      if Held(q, capacity, url).Some? {
        var i :| ShowsHandoff(q, url, i);
        var j := LabelShows(q, p, url, i);
      }
    }
  }

  lemma NewestFirst(p: seq<Payload>, url: string, n: int)
    requires Newest(p, url, n)
    ensures Newest([p[n]] + (p[..n] + p[n + 1..]), url, 0)
  {
    var rest := p[..n] + p[n + 1..];
    forall j | 0 <= j < |rest| && rest[j].url == url ensures rest[j].updatedAt < p[n].updatedAt {
      assert rest[j] == p[if j < n then j else j + 1];
    }
  }

  lemma NewestLast(p: seq<Payload>, url: string, n: int)
    requires Newest(p, url, n)
    ensures Newest((p[..n] + p[n + 1..]) + [p[n]], url, |p| - 1)
  {
    var rest := p[..n] + p[n + 1..];
    forall j | 0 <= j < |rest| && rest[j].url == url ensures rest[j].updatedAt < p[n].updatedAt {
      assert rest[j] == p[if j < n then j else j + 1];
    }
  }

  /** With the label on an older report only, the newest is held when it arrives last. */
  lemma LastIsHeld(p: seq<Payload>, capacity: nat, url: string, n: int, i: int) returns (last: seq<Payload>)
    requires NoEviction(p, capacity) && Newest(p, url, n) && HANDOFF !in p[n].labels && ShowsHandoff(p, url, i)
    ensures multiset(last) == multiset(p) && NoEviction(last, capacity)
    ensures Held(last, capacity, url) == Some(Reported(p[n]))
  {
    var rest := p[..n] + p[n + 1..];
    last := rest + [p[n]];
    CountAt(p, n);
    RearrangedFits(p, last, capacity);
    NewestLast(p, url, n);
    NewestIsHeldIff(last, capacity, url, |p| - 1);
    var j := if i < n then i else i - 1;
    assert rest[j] == p[i] && last[j] == rest[j];
    assert ShowsHandoff(last, url, j);
  }

  /** And is not held when it arrives first. */
  lemma FirstIsNotHeld(p: seq<Payload>, capacity: nat, url: string, n: int) returns (first: seq<Payload>)
    requires NoEviction(p, capacity) && Newest(p, url, n) && HANDOFF !in p[n].labels
    ensures multiset(first) == multiset(p) && NoEviction(first, capacity)
    ensures Held(first, capacity, url) != Some(Reported(p[n]))
  {
    first := [p[n]] + (p[..n] + p[n + 1..]);
    CountAt(p, n);
    RearrangedFits(p, first, capacity);
    NewestFirst(p, url, n);
    NewestIsHeldIff(first, capacity, url, 0);
  }

  /** When one report is newer than all others of its issue, the order they arrive in does not matter exactly
      when that report shows the label, or no report does. */
  lemma OrderDoesNotMatterIff(payloads: seq<Payload>, capacity: nat, url: string, n: int)
    requires NoEviction(payloads, capacity) && Newest(payloads, url, n)
    ensures OrderFree(payloads, capacity, url)
            <==> HANDOFF in payloads[n].labels || forall i :: !ShowsHandoff(payloads, url, i)
  {
    if HANDOFF in payloads[n].labels || forall i :: !ShowsHandoff(payloads, url, i) {
      forall q | SameReports(payloads, q, url) && NoEviction(q, capacity)
        ensures Held(q, capacity, url) == Held(payloads, capacity, url) {
        EveryOrderAgrees(payloads, q, capacity, url, n);
      }
    } else {
      var i :| ShowsHandoff(payloads, url, i);
      var first := FirstIsNotHeld(payloads, capacity, url, n);
      var last := LastIsHeld(payloads, capacity, url, n, i);
      assert SameReports(payloads, first, url) && SameReports(payloads, last, url);
    }
  }

  // ---------------------------------------------------------------- a close that is forgotten

  lemma TwoReports(p: Payload, q: Payload)
    ensures StoreOf(RULES, LogOf([p, q]), 1).d
            == Observe(RULES, Observe(RULES, Empty(), p.url, Reported(p), 1), q.url, Reported(q), 1)
  {
    var x, y := (p.url, Reported(p)), (q.url, Reported(q));
    var none: seq<(string, IssueState)> := [];
    assert LogOf([p, q]) == [x, y] && [x, y][..1] == [x] && [x][..0] == none;
    assert StoreOf(RULES, [x], 1).d == Observe(RULES, Empty(), x.0, x.1, 1);
  }

  /** A close that shows no handoff label, then the older report that did. The ledger would run
      the wake of an issue it was told is closed. */
  lemma ForgetsAnEarlierClose(close: Payload, earlier: Payload)
    requires close.url == earlier.url && earlier.updatedAt < close.updatedAt && !close.open && earlier.open
    requires HANDOFF !in close.labels && HANDOFF in earlier.labels && DO_NOT_WORK_LABEL !in earlier.labels
    ensures ReasonToDrop(StoreOf(RULES, LogOf([close, earlier]), 1).d, close.url) == None
    ensures ReasonToDrop(StoreOf(RULES, LogOf([earlier, close]), 1).d, close.url) == Some(IssueClosed)
  {
    var url := close.url;
    var none: Issues := Empty();
    assert none.Valid() by { assert SetOf(none.order) == {}; }
    TwoReports(close, earlier);
    TwoReports(earlier, close);
    ObserveEffect(RULES, none, url, Reported(earlier), 1);
    ObserveEffect(RULES, Observe(RULES, none, url, Reported(earlier), 1), url, Reported(close), 1);
  }
}
