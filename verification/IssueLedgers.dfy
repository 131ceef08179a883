/** The handoff issues' ledger (routes/github.py), from parsed reports on. */
module IssueLedgers {
  import opened Common
  import opened Lru
  import opened Ledger
  import opened Text

  const HANDOFF := "handoff"
  const DO_NOT_WORK_LABEL := "Do Not Work"

  datatype IssueRef = IssueRef(repo: string, number: int, url: string, title: string)

  datatype IssueState = IssueState(
    updatedAt: int,
    open: bool,
    labels: set<string>,
    stateFirstHand: bool,
    labelsFirstHand: bool,
    ref: Option<IssueRef>)

  /** A well-formed payload. `action` is its action when it is an `issues` delivery; `named` is the repo,
      number and title when it carries enough to name the issue. */
  datatype Payload = Payload(url: string, updatedAt: int, open: bool, labels: set<string>, action: Option<string>,
                             named: Option<(string, int, string)>)

  predicate In(action: Option<string>, actions: set<string>) { action.Some? && action.value in actions }

  function Reported(p: Payload): IssueState {
    IssueState(p.updatedAt, p.open, p.labels,
               In(p.action, {"opened", "closed", "reopened"}), In(p.action, {"opened", "labeled", "unlabeled"}),
               if p.named.Some? then Some(IssueRef(p.named.value.0, p.named.value.1, p.url, p.named.value.2)) else None)
  }

  function SettleTie(known: IssueState, report: IssueState): IssueState {
    var keepState := known.stateFirstHand && !report.stateFirstHand;
    var keepLabels := known.labelsFirstHand && !report.labelsFirstHand;
    IssueState(report.updatedAt,
               if keepState then known.open else report.open,
               if keepLabels then known.labels else report.labels,
               known.stateFirstHand || report.stateFirstHand,
               known.labelsFirstHand || report.labelsFirstHand,
               if report.ref.Some? then report.ref else known.ref)
  }

  function Merge(known: IssueState, report: IssueState): IssueState {
    if report.updatedAt < known.updatedAt then known
    else if report.updatedAt == known.updatedAt then SettleTie(known, report)
    else report
  }

  const RULES := Rules((report: IssueState) => HANDOFF in report.labels,
                       (known: IssueState, report: IssueState) => report.updatedAt < known.updatedAt,
                       (known: IssueState, report: IssueState) => Merge(known, report))

  type Issues = OrderedDict<string, IssueState>

  datatype Reason = IssueClosed | DoNotWork | HandoffRemoved

  function ReasonFor(known: IssueState): Option<Reason> {
    if !known.open then Some(IssueClosed)
    else if DO_NOT_WORK_LABEL in known.labels then Some(DoNotWork)
    else if HANDOFF !in known.labels then Some(HandoffRemoved)
    else None
  }

  function ReasonToDrop(d: Issues, url: string): Option<Reason> {
    if url in d.items then ReasonFor(d.items[url]) else None
  }

  predicate IsHandoffOf(known: IssueState, repo: string) {
    known.ref.Some? && Lower(known.ref.value.repo) == Lower(repo) && known.open && HANDOFF in known.labels
  }

  /** The open handoffs of a repo among `urls`, in their order. */
  function HandoffsAmong(d: Issues, urls: seq<string>, repo: string): seq<IssueRef> {
    if urls == [] then []
    else
      var n := |urls| - 1;
      var before := HandoffsAmong(d, urls[..n], repo);
      if urls[n] in d.items && IsHandoffOf(d.items[urls[n]], repo) then before + [d.items[urls[n]].ref.value]
      else before
  }

  class IssueLedger {
    const capacity: nat
    var issues: Issues

    constructor (capacity: nat)
      requires 1 <= capacity
      ensures this.capacity == capacity && issues == Empty() && issues.Valid()
    {
      this.capacity, issues := capacity, Empty();
      new;
      assert SetOf(issues.order) == {};
    }

    method ObserveReport(p: Payload)
      requires issues.Valid() && 1 <= capacity
      modifies this
      ensures issues == Observe(RULES, old(issues), p.url, Reported(p), capacity) && issues.Valid()
    {
      ghost var before := issues;
      var report := Reported(p);
      var known := if p.url in issues.items then Some(issues.items[p.url]) else None;
      if known == None && HANDOFF !in p.labels { return; }
      if known.Some? && p.updatedAt < known.value.updatedAt { return; }
      if known.Some? && p.updatedAt == known.value.updatedAt {
        report := SettleTie(known.value, report);
      }
      issues := issues.Set(p.url, report).MoveToEnd(p.url);
      PutEffect(before, p.url, report, capacity);
      ghost var target := issues.Trimmed(capacity);
      while |issues.order| > capacity
        invariant issues.Trimmed(capacity) == target
        decreases |issues.order|
      {
        issues := issues.PopFirst();
      }
    }

    /** `reason_to_drop`: a wake runs exactly for an unknown issue, or an open one that is labelled and not
        parked; closed comes before parked, and parked before the missing label. */
    method Recheck(url: string) returns (reason: Option<Reason>)
      ensures reason == ReasonToDrop(issues, url)
      ensures reason == None <==>
                (url in issues.items ==>
                   && issues.items[url].open && "handoff" in issues.items[url].labels
                   && "Do Not Work" !in issues.items[url].labels)
      ensures reason == Some(IssueClosed) <==> url in issues.items && !issues.items[url].open
      ensures reason == Some(DoNotWork) <==>
                url in issues.items && issues.items[url].open && "Do Not Work" in issues.items[url].labels
    {
      if url !in issues.items { return None; }
      var known := issues.items[url];
      if !known.open { return Some(IssueClosed); }
      if DO_NOT_WORK_LABEL in known.labels { return Some(DoNotWork); }
      if HANDOFF !in known.labels { return Some(HandoffRemoved); }
      return None;
    }

    /** `open_handoffs`: one reference for each issue held open and labelled under a reference to the repo, in the
        ledger's order. */
    method OpenHandoffs(repo: string) returns (refs: seq<IssueRef>)
      requires issues.Valid()
      ensures refs == HandoffsAmong(issues, issues.order, repo)
      ensures exists at :: ListsHandoffs(issues, repo, refs, at)
    {
      refs := [];
      var n := 0;
      while n < |issues.order|
        invariant n <= |issues.order| && refs == HandoffsAmong(issues, issues.order[..n], repo)
      {
        var known := issues.items[issues.order[n]];
        assert issues.order[..n + 1][..n] == issues.order[..n];
        if IsHandoffOf(known, repo) {
          refs := refs + [known.ref.value];
        }
        n := n + 1;
      }
      assert issues.order[..n] == issues.order;
      ghost var at := HandoffsListed(issues, issues.order, repo);
      assert ListsHandoffs(issues, repo, refs, at);
    }
  }

  // ---------------------------------------------------------------- the open handoffs

  /** What is held is open, labelled, and referred to in this repo, whatever the case of the repo's name. */
  ghost predicate OpenIn(known: IssueState, repo: string) {
    && known.open && "handoff" in known.labels
    && known.ref.Some? && Lower(known.ref.value.repo) == Lower(repo)
  }

  /** `refs` are the references held at the positions `at` of the ledger's order, which are exactly those of the
      repo's open handoffs, in order. */
  ghost predicate ListsHandoffs(d: Issues, repo: string, refs: seq<IssueRef>, at: seq<int>) {
    ListsAmong(d, d.order, repo, refs, at)
  }

  ghost predicate ListsAmong(d: Issues, urls: seq<string>, repo: string, refs: seq<IssueRef>, at: seq<int>) {
    && |refs| == |at|
    && (forall m :: 0 <= m < |at| ==> 0 <= at[m] < |urls| && urls[at[m]] in d.items)
    && (forall m :: 0 <= m < |at| ==>
          OpenIn(d.items[urls[at[m]]], repo) && d.items[urls[at[m]]].ref == Some(refs[m]))
    && (forall m, n :: 0 <= m < n < |at| ==> at[m] < at[n])
    && (forall i :: 0 <= i < |urls| && urls[i] in d.items && OpenIn(d.items[urls[i]], repo) ==> i in at)
  }

  lemma {:induction false} HandoffsListed(d: Issues, urls: seq<string>, repo: string) returns (at: seq<int>)
    ensures ListsAmong(d, urls, repo, HandoffsAmong(d, urls, repo), at)
  {
    if urls == [] {
      at := [];
    } else {
      var n := |urls| - 1;
      var shorter, refs := urls[..n], HandoffsAmong(d, urls[..n], repo);
      at := HandoffsListed(d, shorter, repo);
      ListsOneMore(d, shorter, urls[n], repo, refs, at);
      assert shorter + [urls[n]] == urls;
      if urls[n] in d.items && OpenIn(d.items[urls[n]], repo) {
        assert HandoffsAmong(d, urls, repo) == refs + [d.items[urls[n]].ref.value];
        at := at + [n];
      } else {
        assert HandoffsAmong(d, urls, repo) == refs;
      }
    }
  }

  lemma ListsOneMore(d: Issues, urls: seq<string>, url: string, repo: string, refs: seq<IssueRef>, at: seq<int>)
    requires ListsAmong(d, urls, repo, refs, at)
    ensures if url in d.items && OpenIn(d.items[url], repo)
            then ListsAmong(d, urls + [url], repo, refs + [d.items[url].ref.value], at + [|urls|])
            else ListsAmong(d, urls + [url], repo, refs, at)
  {
    var longer := urls + [url];
    forall i | 0 <= i < |urls| && longer[i] in d.items && OpenIn(d.items[longer[i]], repo) ensures i in at {
      assert urls[i] == longer[i];
    }
  }

  /** So a reference is listed exactly when some issue is held under it, open, labelled, in the repo. */
  lemma ListedIff(d: Issues, repo: string, ref: IssueRef)
    requires d.Valid()
    ensures ref in HandoffsAmong(d, d.order, repo) <==>
              exists url :: url in d.items && d.items[url].ref == Some(ref) && d.items[url].open
                && "handoff" in d.items[url].labels && Lower(ref.repo) == Lower(repo)
  {
    var refs := HandoffsAmong(d, d.order, repo);
    var at := HandoffsListed(d, d.order, repo);
    if ref in refs {
      var m :| 0 <= m < |refs| && refs[m] == ref;
      assert OpenIn(d.items[d.order[at[m]]], repo);
    }
    forall url | url in d.items && d.items[url].ref == Some(ref) && OpenIn(d.items[url], repo) ensures ref in refs {
      var i :| 0 <= i < |d.order| && d.order[i] == url;
      assert i in at;
      var m :| 0 <= m < |at| && at[m] == i;
      assert refs[m] == ref;
    }
  }

  // ---------------------------------------------------------------- first-hand reports

  /** Which actions change an issue's state, and which its labels: only those reports are first-hand. */
  lemma FirstHandActions(p: Payload)
    ensures Reported(p).stateFirstHand <==>
              p.action == Some("opened") || p.action == Some("closed") || p.action == Some("reopened")
    ensures Reported(p).labelsFirstHand <==>
              p.action == Some("opened") || p.action == Some("labeled") || p.action == Some("unlabeled")
    ensures Reported(p).updatedAt == p.updatedAt && Reported(p).open == p.open && Reported(p).labels == p.labels
    ensures Reported(p).ref.Some? <==> p.named.Some?
    ensures p.named.Some? ==>
              Reported(p).ref == Some(IssueRef(p.named.value.0, p.named.value.1, p.url, p.named.value.2))
  {
  }

  /** So a comment of the same second changes neither what a close reported nor what a labelling reported. */
  lemma MentionsDoNotOverride(known: Payload, mention: Payload)
    requires mention.updatedAt == known.updatedAt && mention.action == None
    ensures known.action in {Some("opened"), Some("closed"), Some("reopened")} ==>
              Merge(Reported(known), Reported(mention)).open == known.open
    ensures known.action in {Some("opened"), Some("labeled"), Some("unlabeled")} ==>
              Merge(Reported(known), Reported(mention)).labels == known.labels
    ensures known.action == None ==>
              && Merge(Reported(known), Reported(mention)).open == mention.open
              && Merge(Reported(known), Reported(mention)).labels == mention.labels
  {
  }

  // ---------------------------------------------------------------- each field is a claim

  function OpenClaim(s: IssueState): Claim<bool> { Claim(s.updatedAt, s.stateFirstHand, s.open) }

  function LabelsClaim(s: IssueState): Claim<set<string>> { Claim(s.updatedAt, s.labelsFirstHand, s.labels) }

  function RefClaim(s: IssueState): Claim<Option<IssueRef>> { Claim(s.updatedAt, s.ref.Some?, s.ref) }

  /** Merging two reports merges each field's claim by itself. */
  lemma MergeIsFieldwise(known: IssueState, report: IssueState)
    ensures OpenClaim(Merge(known, report)) == Prefer(OpenClaim(known), OpenClaim(report))
    ensures LabelsClaim(Merge(known, report)) == Prefer(LabelsClaim(known), LabelsClaim(report))
    ensures RefClaim(Merge(known, report)) == Prefer(RefClaim(known), RefClaim(report))
  {
  }

  /** Three reports merge alike however they are grouped. */
  lemma MergeAssociative(a: IssueState, b: IssueState, c: IssueState)
    ensures Merge(Merge(a, b), c) == Merge(a, Merge(b, c))
  {
    var l, r := Merge(Merge(a, b), c), Merge(a, Merge(b, c));
    MergeIsFieldwise(a, b);
    MergeIsFieldwise(b, c);
    MergeIsFieldwise(Merge(a, b), c);
    MergeIsFieldwise(a, Merge(b, c));
    PreferAssociative(OpenClaim(a), OpenClaim(b), OpenClaim(c));
    PreferAssociative(LabelsClaim(a), LabelsClaim(b), LabelsClaim(c));
    PreferAssociative(RefClaim(a), RefClaim(b), RefClaim(c));
    assert OpenClaim(l) == OpenClaim(r) && LabelsClaim(l) == LabelsClaim(r) && RefClaim(l) == RefClaim(r);
  }

  /** A field: what the merge of two reports claims is what is preferred of what each claims. */
  ghost predicate IsField<V(!new)>(f: IssueState -> Claim<V>) {
    forall known, report {:trigger f(Merge(known, report))} :: f(Merge(known, report)) == Prefer(f(known), f(report))
  }

  lemma TheFields()
    ensures IsField(OpenClaim) && IsField(LabelsClaim) && IsField(RefClaim)
  {
    forall known, report
      ensures OpenClaim(Merge(known, report)) == Prefer(OpenClaim(known), OpenClaim(report))
      ensures LabelsClaim(Merge(known, report)) == Prefer(LabelsClaim(known), LabelsClaim(report))
      ensures RefClaim(Merge(known, report)) == Prefer(RefClaim(known), RefClaim(report)) {
      MergeIsFieldwise(known, report);
    }
  }

  /** The three claims are the whole report. */
  lemma ClaimsDetermine(s: IssueState, t: IssueState)
    requires OpenClaim(s) == OpenClaim(t) && LabelsClaim(s) == LabelsClaim(t) && RefClaim(s) == RefClaim(t)
    ensures s == t
  {
  }

  function ClaimsOf<V>(f: IssueState -> Claim<V>, reports: seq<IssueState>): (cs: seq<Claim<V>>)
    ensures |cs| == |reports| && forall i :: 0 <= i < |reports| ==> cs[i] == f(reports[i])
  {
    seq(|reports|, i requires 0 <= i < |reports| => f(reports[i]))
  }

  lemma FoldSnoc<V(!new)>(f: IssueState -> Claim<V>, reports: seq<IssueState>, report: IssueState)
    requires IsField(f) && reports != []
    ensures f(Fold(RULES, reports + [report])) == Prefer(f(Fold(RULES, reports)), f(report))
  {
    assert (reports + [report])[..|reports|] == reports;
    assert Fold(RULES, reports + [report]) == Merge(Fold(RULES, reports), report);
  }

  lemma PreferredSnoc<V>(claims: seq<Claim<V>>, c: Claim<V>)
    requires claims != []
    ensures Preferred(claims + [c]) == Prefer(Preferred(claims), c)
  {
    assert (claims + [c])[..|claims|] == claims;
  }

  lemma {:induction false} FoldPrefers<V(!new)>(f: IssueState -> Claim<V>, reports: seq<IssueState>)
    requires IsField(f) && reports != []
    ensures f(Fold(RULES, reports)) == Preferred(ClaimsOf(f, reports))
  {
    var n := |reports| - 1;
    if n > 0 {
      FoldPrefers(f, reports[..n]);
      FoldSnoc(f, reports[..n], reports[n]);
      PreferredSnoc(ClaimsOf(f, reports[..n]), f(reports[n]));
      assert reports == reports[..n] + [reports[n]];
      assert ClaimsOf(f, reports) == ClaimsOf(f, reports[..n]) + [f(reports[n])];
    }
  }

  /** One field of `s` is that of the last to arrive of the newest reports, first-hand before hearsay. */
  ghost predicate MaximalIn<V>(f: IssueState -> Claim<V>, s: IssueState, reports: seq<IssueState>) {
    exists i :: LastMaximal(ClaimsOf(f, reports), i) && f(s) == f(reports[i])
  }

  /** What a sequence of reports of one issue comes to, field by field. */
  ghost predicate IsMaximum(s: IssueState, reports: seq<IssueState>) {
    MaximalIn(OpenClaim, s, reports) && MaximalIn(LabelsClaim, s, reports) && MaximalIn(RefClaim, s, reports)
  }

  lemma FieldIsMaximal<V(!new)>(f: IssueState -> Claim<V>, reports: seq<IssueState>)
    requires IsField(f) && reports != []
    ensures MaximalIn(f, Fold(RULES, reports), reports)
  {
    FoldPrefers(f, reports);
    var i := PreferredIsLastMaximal(ClaimsOf(f, reports));
  }

  lemma FoldIsMaximum(reports: seq<IssueState>)
    requires reports != []
    ensures IsMaximum(Fold(RULES, reports), reports)
  {
    TheFields();
    FieldIsMaximal(OpenClaim, reports);
    FieldIsMaximal(LabelsClaim, reports);
    FieldIsMaximal(RefClaim, reports);
  }

  // ---------------------------------------------------------------- the ledger against its reports

  /** A log of payloads, as keyed reports. */
  function LogOf(payloads: seq<Payload>): (log: seq<(string, IssueState)>)
    ensures |log| == |payloads|
  {
    seq(|payloads|, i requires 0 <= i < |payloads| => (payloads[i].url, Reported(payloads[i])))
  }

  /** The reports of an issue since it was last brought in; from then on it is followed. */
  function Followed(payloads: seq<Payload>, capacity: nat, url: string): seq<IssueState>
    requires 1 <= capacity && url in StoreOf(RULES, LogOf(payloads), capacity).d.items
  {
    var s := StoreOf(RULES, LogOf(payloads), capacity);
    StoreKept(RULES, LogOf(payloads), capacity, url);
    Of(LogOf(payloads)[s.since[url]..], url)
  }

  /** What the ledger holds for an issue is the declarative maximum of its reports since it was brought in,
      by a report that showed the handoff label, for every order of arrival and every interleaving with
      other issues. */
  lemma HeldIsMaximum(payloads: seq<Payload>, capacity: nat, url: string)
    requires 1 <= capacity && url in StoreOf(RULES, LogOf(payloads), capacity).d.items
    ensures var reports := Followed(payloads, capacity, url);
            && reports != []
            && IsMaximum(StoreOf(RULES, LogOf(payloads), capacity).d.items[url], reports)
  {
    StoreKept(RULES, LogOf(payloads), capacity, url);
    FoldIsMaximum(Followed(payloads, capacity, url));
  }

  ghost predicate ShowsHandoff(payloads: seq<Payload>, url: string, i: int) {
    0 <= i < |payloads| && payloads[i].url == url && HANDOFF in payloads[i].labels
  }

  /** While no more issues than the ledger has room for ever showed the label, an issue is held exactly
      when one of its reports did, and is followed from the first that did. */
  lemma FollowedFromFirstHandoff(payloads: seq<Payload>, capacity: nat, url: string)
    requires 1 <= capacity && |Started(RULES, LogOf(payloads))| <= capacity
    ensures var s := StoreOf(RULES, LogOf(payloads), capacity);
            && (url in s.d.items <==> exists i :: ShowsHandoff(payloads, url, i))
            && (url in s.d.items ==>
                  && url in s.since && ShowsHandoff(payloads, url, s.since[url])
                  && forall j :: 0 <= j < s.since[url] ==> !ShowsHandoff(payloads, url, j))
  {
    var log := LogOf(payloads);
    var s := StoreOf(RULES, log, capacity);
    NothingIsEvicted(RULES, log, capacity, url);
    StoreKept(RULES, log, capacity, url);
    if url in s.d.items {
      assert ShowsHandoff(payloads, url, s.since[url]);
      forall j | 0 <= j < s.since[url] ensures !ShowsHandoff(payloads, url, j) {
        assert log[j].0 == url ==> !RULES.starts(log[j].1);
      }
    }
    forall i | ShowsHandoff(payloads, url, i) ensures url in Started(RULES, log) {
      assert log[i].0 == url && RULES.starts(log[i].1);
    }
  }

  // ---------------------------------------------------------------- its references

  /** Every reference held is to the issue it is held for. */
  ghost predicate RefsKeyed(d: Issues) {
    forall url :: url in d.items && d.items[url].ref.Some? ==> d.items[url].ref.value.url == url
  }

  lemma {:induction false} OfComesFromLog<K, T>(log: seq<(K, T)>, k: K, x: T)
    requires x in Of(log, k)
    ensures (k, x) in log
  {
    var n := |log| - 1;
    if !(log[n].0 == k && log[n].1 == x) {
      OfComesFromLog(log[..n], k, x);
    }
  }

  /** The ledger keeps its references keyed. */
  lemma RefsStayKeyed(payloads: seq<Payload>, capacity: nat)
    requires 1 <= capacity
    ensures RefsKeyed(StoreOf(RULES, LogOf(payloads), capacity).d)
  {
    var log := LogOf(payloads);
    var s := StoreOf(RULES, log, capacity);
    forall url | url in s.d.items && s.d.items[url].ref.Some? ensures s.d.items[url].ref.value.url == url {
      HeldIsMaximum(payloads, capacity, url);
      StoreKept(RULES, log, capacity, url);
      var reports := Followed(payloads, capacity, url);
      var i :| LastMaximal(ClaimsOf(RefClaim, reports), i) && RefClaim(s.d.items[url]) == RefClaim(reports[i]);
      ReportIsOfItsIssue(payloads, s.since[url], url, reports[i]);
    }
  }

  lemma ReportIsOfItsIssue(payloads: seq<Payload>, m: nat, url: string, report: IssueState)
    requires m <= |payloads| && report in Of(LogOf(payloads)[m..], url)
    ensures report.ref.Some? ==> report.ref.value.url == url
  {
    var log := LogOf(payloads);
    OfComesFromLog(log[m..], url, report);
    var j :| m <= j < |log| && log[j] == (url, report);
    assert report == Reported(payloads[j]) && payloads[j].url == url;
  }
  // ---------------------------------------------------------------- what one report does

  /** A report of an issue that is not held and does not show the label changes nothing, and neither does one older
      than what is held. Any other puts its issue last, holding the report or, if one of that second is held, what the
      two come to; the rest stay as they were, in their order, as far as there is room from the end. */
  lemma WhatAReportDoes(d: Issues, p: Payload, capacity: nat)
    requires d.Valid() && 1 <= capacity
    ensures var e := Observe(RULES, d, p.url, Reported(p), capacity);
            if (p.url !in d.items && "handoff" !in p.labels)
               || (p.url in d.items && p.updatedAt < d.items[p.url].updatedAt) then e == d
            else
              && e.order == LastN(Without(d.order, p.url) + [p.url], capacity)
              && p.url in e.items && e.items[p.url].updatedAt == p.updatedAt
              && (p.url !in d.items || d.items[p.url].updatedAt < p.updatedAt ==> e.items[p.url] == Reported(p))
              && (p.url in d.items && d.items[p.url].updatedAt == p.updatedAt ==>
                    e.items[p.url] == SettleTie(d.items[p.url], Reported(p)))
              && forall url :: url in e.items && url != p.url ==> url in d.items && e.items[url] == d.items[url]
  {
    ObserveExactly(RULES, d, p.url, Reported(p), capacity);
  }
}
