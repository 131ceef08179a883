/** The pull requests' ledger (routes/github.py), from well-formed reports on. */
module PullLedgers {
  import opened Common
  import opened Lru
  import opened Ledger
  import Text

  datatype PullState = PullState(updatedAt: int, open: bool, author: string, number: int, url: string, named: set<int>)

  type PullKey = (string, int)   // (repo in lower case, number)
  type Pulls = OrderedDict<PullKey, PullState>

  /** An older report, or one of the same second that would reopen a closed pull request. */
  predicate Ignored(known: PullState, report: PullState) {
    report.updatedAt < known.updatedAt || (report.updatedAt == known.updatedAt && !known.open && report.open)
  }

  const RULES := Rules((_: PullState) => true,
                       (known: PullState, report: PullState) => Ignored(known, report),
                       (known: PullState, report: PullState) => if Ignored(known, report) then known else report)

  function KeyOf(repo: string, number: int): PullKey { (Text.Lower(repo), number) }

  class PullLedger {
    const capacity: nat
    var pulls: Pulls

    constructor (capacity: nat)
      requires 1 <= capacity
      ensures this.capacity == capacity && pulls == Empty() && pulls.Valid()
    {
      this.capacity, pulls := capacity, Empty();
      new;
      assert SetOf(pulls.order) == {};
    }

    method ObserveReport(repo: string, report: PullState)
      requires pulls.Valid() && 1 <= capacity
      modifies this
      ensures pulls == Observe(RULES, old(pulls), KeyOf(repo, report.number), report, capacity) && pulls.Valid()
    {
      ghost var before := pulls;
      var key := KeyOf(repo, report.number);
      if key in pulls.items {
        var known := pulls.items[key];
        if report.updatedAt < known.updatedAt || (report.updatedAt == known.updatedAt && !known.open && report.open) {
          return;
        }
      }
      pulls := pulls.Set(key, report).MoveToEnd(key);
      PutEffect(before, key, report, capacity);
      ghost var target := pulls.Trimmed(capacity);
      while |pulls.order| > capacity
        invariant pulls.Trimmed(capacity) == target
        decreases |pulls.order|
      {
        pulls := pulls.PopFirst();
      }
    }

    method Get(repo: string, number: int) returns (known: Option<PullState>)
      ensures known == if KeyOf(repo, number) in pulls.items then Some(pulls.items[KeyOf(repo, number)]) else None
    {
      var key := KeyOf(repo, number);
      if key in pulls.items { return Some(pulls.items[key]); }
      return None;
    }
  }

  /** A closed report outranks an open one of the same second. */
  function ClaimOf(s: PullState): Claim<PullState> { Claim(s.updatedAt, !s.open, s) }

  function Claims(reports: seq<PullState>): (cs: seq<Claim<PullState>>)
    ensures |cs| == |reports|
  {
    seq(|reports|, i requires 0 <= i < |reports| => ClaimOf(reports[i]))
  }

  lemma {:induction false} FoldPrefers(reports: seq<PullState>)
    requires reports != []
    ensures ClaimOf(Fold(RULES, reports)) == Preferred(Claims(reports))
  {
    var n := |reports| - 1;
    if n > 0 {
      FoldPrefers(reports[..n]);
      assert Claims(reports)[..n] == Claims(reports[..n]);
    }
  }

  function LogOf(reports: seq<(string, PullState)>): (log: seq<(PullKey, PullState)>)
    ensures |log| == |reports|
  {
    seq(|reports|, i requires 0 <= i < |reports| => (KeyOf(reports[i].0, reports[i].1.number), reports[i].1))
  }

  /** Every report of a key counts, from its first, while no more pull requests were reported than the
      ledger has room for. */
  lemma AllReportsFollowed(reports: seq<(string, PullState)>, capacity: nat, k: PullKey)
    requires 1 <= capacity && |SetOf(KeysOf(LogOf(reports)))| <= capacity
    ensures var d := StoreOf(RULES, LogOf(reports), capacity).d;
            && (k in d.items <==> k in KeysOf(LogOf(reports)))
            && (k in d.items ==> Of(LogOf(reports), k) != [] && d.items[k] == Fold(RULES, Of(LogOf(reports), k)))
  {
    var log := LogOf(reports);
    var s := StoreOf(RULES, log, capacity);
    EveryReportStarts(log);
    NothingIsEvicted(RULES, log, capacity, k);
    StoreKept(RULES, log, capacity, k);
    if k in s.d.items {
      FromTheFirst(log, k, s.since[k]);
    } else {
      OfNonEmpty(log, k);
    }
  }

  lemma EveryReportStarts(log: seq<(PullKey, PullState)>)
    ensures Started(RULES, log) == SetOf(KeysOf(log))
  {
    forall i | 0 <= i < |log| ensures RULES.starts(log[i].1) && KeysOf(log)[i] == log[i].0 {
    }
  }

  lemma FromTheFirst(log: seq<(PullKey, PullState)>, k: PullKey, m: nat)
    requires m <= |log| && forall j :: 0 <= j < m && log[j].0 == k ==> !RULES.starts(log[j].1)
    ensures Of(log, k) == Of(log[m..], k)
  {
    assert log == log[..m] + log[m..];
    OfConcat(log[..m], log[m..], k);
    OfNonEmpty(log[..m], k);
    forall j | 0 <= j < m ensures KeysOf(log[..m])[j] != k {
      assert RULES.starts(log[j].1);
    }
    assert [] + Of(log[m..], k) == Of(log[m..], k);
  }

  /** What is held for a pull request is the last to arrive of the reports that are maximal in (updated_at,
      closed), for every order of arrival and every interleaving with other pull requests. */
  lemma HeldIsLexicographicMaximum(reports: seq<(string, PullState)>, capacity: nat, k: PullKey)
    requires 1 <= capacity && |SetOf(KeysOf(LogOf(reports)))| <= capacity
    requires k in KeysOf(LogOf(reports))
    ensures k in StoreOf(RULES, LogOf(reports), capacity).d.items
    ensures exists i :: LastMaximal(Claims(Of(LogOf(reports), k)), i)
              && Of(LogOf(reports), k)[i] == StoreOf(RULES, LogOf(reports), capacity).d.items[k]
  {
    AllReportsFollowed(reports, capacity, k);
    var own := Of(LogOf(reports), k);
    FoldPrefers(own);
    var i := PreferredIsLastMaximal(Claims(own));
    assert Claims(own)[i] == ClaimOf(own[i]);
  }

  /** A report of this pull request, whatever the case of the repo's name. */
  predicate Reports(reports: seq<(string, PullState)>, i: int, repo: string, number: int) {
    && 0 <= i < |reports|
    && Text.Lower(reports[i].0) == Text.Lower(repo) && reports[i].1.number == number
  }

  /** Report `i` is of the newest second, closed if any of that second is, and the last to arrive of those. */
  ghost predicate Prevails(reports: seq<(string, PullState)>, i: int, repo: string, number: int) {
    && Reports(reports, i, repo, number)
    && forall j :: Reports(reports, j, repo, number) ==>
         var s, t := reports[i].1, reports[j].1;
         && t.updatedAt <= s.updatedAt
         && (t.updatedAt == s.updatedAt ==> (s.open ==> t.open) && (s.open == t.open ==> j <= i))
  }

  /** Asked for a pull request, the ledger answers with the report of it that prevails, and has none exactly when
      nothing was ever reported of it. */
  lemma {:induction false} AnswersForItsReports(reports: seq<(string, PullState)>, capacity: nat, repo: string,
                                                number: int)
    requires 1 <= capacity && |SetOf(KeysOf(LogOf(reports)))| <= capacity
    ensures var d := StoreOf(RULES, LogOf(reports), capacity).d;
            && (KeyOf(repo, number) in d.items <==> exists i :: Reports(reports, i, repo, number))
            && (KeyOf(repo, number) in d.items ==>
                  exists i :: Prevails(reports, i, repo, number) && d.items[KeyOf(repo, number)] == reports[i].1)
  {
    var k, log := KeyOf(repo, number), LogOf(reports);
    AllReportsFollowed(reports, capacity, k);
    ReportedIff(reports, repo, number);
    OfNonEmpty(log, k);
    if k in KeysOf(log) {
      var i := FoldPrevails(reports, repo, number);
    }
  }

  function Own(reports: seq<(string, PullState)>, repo: string, number: int): seq<PullState> {
    Of(LogOf(reports), KeyOf(repo, number))
  }

  lemma ReportedIff(reports: seq<(string, PullState)>, repo: string, number: int)
    ensures Own(reports, repo, number) != [] <==> exists i :: Reports(reports, i, repo, number)
  {
    var k, keys := KeyOf(repo, number), KeysOf(LogOf(reports));
    OfNonEmpty(LogOf(reports), k);
    forall i ensures Reports(reports, i, repo, number) <==> 0 <= i < |keys| && keys[i] == k {
    }
  }

  lemma OwnSnoc(reports: seq<(string, PullState)>, report: (string, PullState), repo: string, number: int)
    ensures Own(reports + [report], repo, number)
            == if Reports(reports + [report], |reports|, repo, number) then Own(reports, repo, number) + [report.1]
               else Own(reports, repo, number)
  {
    assert LogOf(reports + [report]) == LogOf(reports) + [(KeyOf(report.0, report.1.number), report.1)];
    OfSnoc(LogOf(reports), (KeyOf(report.0, report.1.number), report.1), KeyOf(repo, number));
    assert Own(reports, repo, number) + [] == Own(reports, repo, number);
  }

  lemma FoldOneMore(own: seq<PullState>, report: PullState)
    ensures Fold(RULES, own + [report])
            == if own != [] && Ignored(Fold(RULES, own), report) then Fold(RULES, own) else report
  {
    assert (own + [report])[..|own|] == own;
  }

  lemma {:induction false} FoldPrevails(reports: seq<(string, PullState)>, repo: string, number: int) returns (i: int)
    requires Own(reports, repo, number) != []
    ensures Prevails(reports, i, repo, number) && Fold(RULES, Own(reports, repo, number)) == reports[i].1
  {
    var n := |reports| - 1;
    var shorter, report := reports[..n], reports[n];
    assert shorter + [report] == reports;
    OwnSnoc(shorter, report, repo, number);
    FoldOneMore(Own(shorter, repo, number), report.1);
    if Own(shorter, repo, number) == [] {
      ReportedIff(shorter, repo, number);
      OnlyReport(shorter, report, repo, number);
      i := n;
    } else {
      i := FoldPrevails(shorter, repo, number);
      PrevailsSnoc(shorter, report, i, repo, number);
      i := if Reports(reports, n, repo, number) && !Ignored(shorter[i].1, report.1) then n else i;
    }
  }

  lemma PrevailsSnoc(reports: seq<(string, PullState)>, report: (string, PullState), i: int, repo: string, number: int)
    requires Prevails(reports, i, repo, number)
    ensures var longer := reports + [report]; var n := |reports|;
            Prevails(longer, if Reports(longer, n, repo, number) && !Ignored(reports[i].1, report.1) then n else i,
                     repo, number)
  {
    var longer := reports + [report];
    forall j | Reports(longer, j, repo, number) ensures j < |reports| ==> Reports(reports, j, repo, number) {
    }
  }

  lemma OnlyReport(before: seq<(string, PullState)>, report: (string, PullState), repo: string, number: int)
    requires Reports(before + [report], |before|, repo, number) && forall j :: !Reports(before, j, repo, number)
    ensures Prevails(before + [report], |before|, repo, number)
  {
    forall j | Reports(before + [report], j, repo, number) ensures j == |before| {
      assert !Reports(before, j, repo, number);
    }
  }

  /** With eviction, the same of the reports since it was last brought in. */
  lemma HeldSinceBroughtIn(reports: seq<(string, PullState)>, capacity: nat, k: PullKey) returns (m: nat)
    requires 1 <= capacity && k in StoreOf(RULES, LogOf(reports), capacity).d.items
    ensures m < |reports| && LogOf(reports)[m].0 == k
    ensures exists i :: LastMaximal(Claims(Of(LogOf(reports)[m..], k)), i)
              && Of(LogOf(reports)[m..], k)[i] == StoreOf(RULES, LogOf(reports), capacity).d.items[k]
  {
    StoreKept(RULES, LogOf(reports), capacity, k);
    m := StoreOf(RULES, LogOf(reports), capacity).since[k];
    var own := Of(LogOf(reports)[m..], k);
    FoldPrefers(own);
    var i := PreferredIsLastMaximal(Claims(own));
    assert Claims(own)[i] == ClaimOf(own[i]);
  }

  /** When it was last updated, and whether it is open, do not depend on the order of arrival. */
  lemma StateIsOrderFree(a: seq<(string, PullState)>, b: seq<(string, PullState)>, capacity: nat, k: PullKey)
    requires 1 <= capacity && |SetOf(KeysOf(LogOf(a)))| <= capacity && |SetOf(KeysOf(LogOf(b)))| <= capacity
    requires k in KeysOf(LogOf(a)) && k in KeysOf(LogOf(b))
    requires multiset(Claims(Of(LogOf(a), k))) == multiset(Claims(Of(LogOf(b), k)))
    ensures var d, e := StoreOf(RULES, LogOf(a), capacity).d, StoreOf(RULES, LogOf(b), capacity).d;
            && k in d.items && k in e.items
            && d.items[k].updatedAt == e.items[k].updatedAt && d.items[k].open == e.items[k].open
  {
    AllReportsFollowed(a, capacity, k);
    AllReportsFollowed(b, capacity, k);
    FoldPrefers(Of(LogOf(a), k));
    FoldPrefers(Of(LogOf(b), k));
    RankIsOrderFree(Claims(Of(LogOf(a), k)), Claims(Of(LogOf(b), k)));
  }
  /** A report older than what is held, or one that would reopen a pull request in the second it was closed, changes
      nothing. Any other is held from then on, its pull request last, the rest in their order as far as there is
      room. */
  lemma WhatAReportDoes(d: Pulls, repo: string, report: PullState, capacity: nat)
    requires d.Valid() && 1 <= capacity
    ensures var k := (Text.Lower(repo), report.number);
            var e := Observe(RULES, d, k, report, capacity);
            if k in d.items
               && (report.updatedAt < d.items[k].updatedAt
                   || (report.updatedAt == d.items[k].updatedAt && report.open && !d.items[k].open)) then e == d
            else
              && e.order == LastN(Without(d.order, k) + [k], capacity)
              && k in e.items && e.items[k] == report
              && forall other :: other in e.items && other != k ==> other in d.items && e.items[other] == d.items[other]
  {
    ObserveExactly(RULES, d, (Text.Lower(repo), report.number), report, capacity);
  }
}
