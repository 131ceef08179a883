/** The coverage store over a log of finished executes: which completed wakes it still answers for, and which
    one it names. */
module DispatchCoverage {
  import opened Common
  import opened Models
  import opened Lru
  import opened Coalesce
  import opened Pipeline
  import opened PipelineRuns

  /** A completed wake for a stamped delivery. */
  predicate Covers(d: Done) { d.verdict.Completed() && d.event.occurredAt.Some? }

  function EntryOf(d: Done): Entry {
    Entry((d.agent, d.event.StreamKey()), Coverage(d.event.deliveryId, d.startedAt))
  }

  /** What a log recorded as covered, in order. */
  function Coverages(log: seq<Done>): seq<Entry> {
    if log == [] then []
    else
      var d, before := log[|log| - 1], Coverages(log[..|log| - 1]);
      if Covers(d) then before + [EntryOf(d)] else before
  }

  /** What the store holds after a log. */
  function Held(log: seq<Done>, capacity: nat): map<StreamId, Coverage> {
    StoreOf(Coverages(log), capacity).d.items
  }

  /** Position `i` recorded a completed wake for the stream. */
  predicate Records(log: seq<Done>, i: int, id: StreamId) {
    0 <= i < |log| && Covers(log[i]) && EntryOf(log[i]).id == id
  }

  /** After the first `n` of a log the stream is among the `capacity` most recently recorded ones. */
  predicate Recent(log: seq<Done>, n: int, capacity: nat, id: StreamId)
    requires 0 <= n <= |log|
  {
    MostRecent(Coverages(log[..n]), capacity, id)
  }

  /** The stream of position `i` has not been evicted since. */
  ghost predicate Resident(log: seq<Done>, i: int, capacity: nat) {
    && 0 <= i < |log|
    && forall n :: i < n <= |log| ==> Recent(log, n, capacity, EntryOf(log[i]).id)
  }

  /** Position `p` brought the stream in, and it has not been evicted since. */
  ghost predicate BringsIn(log: seq<Done>, p: int, capacity: nat, id: StreamId) {
    && Records(log, p, id) && !Recent(log, p, capacity, id)
    && forall n :: p < n <= |log| ==> Recent(log, n, capacity, id)
  }

  /** Of the stream's completed wakes since `p` brought it in, position `i` is the last to finish of those that
      started last. */
  ghost predicate LatestFrom(log: seq<Done>, p: int, i: int, capacity: nat, id: StreamId) {
    && BringsIn(log, p, capacity, id) && p <= i && Records(log, i, id)
    && forall k :: p <= k && Records(log, k, id) ==>
         log[k].startedAt <= log[i].startedAt && (i < k ==> log[k].startedAt < log[i].startedAt)
  }

  // ---------------------------------------------------------------- one more execute

  lemma CoveragesSnoc(log: seq<Done>, d: Done)
    ensures Coverages(log + [d]) == if Covers(d) then Coverages(log) + [EntryOf(d)] else Coverages(log)
  {
    assert (log + [d])[..|log|] == log;
  }

  lemma RecentAtEnd(log: seq<Done>, capacity: nat, id: StreamId)
    requires 1 <= capacity
    ensures Recent(log, |log|, capacity, id) <==> id in Held(log, capacity)
  {
    assert log[..|log|] == log;
    HeldAreMostRecent(Coverages(log), capacity, id);
  }

  lemma RecentBefore(log: seq<Done>, d: Done, n: int, capacity: nat, id: StreamId)
    requires 0 <= n <= |log|
    ensures Recent(log + [d], n, capacity, id) <==> Recent(log, n, capacity, id)
  {
    assert (log + [d])[..n] == log[..n];
  }

  /** What one more execute leaves held for a stream. */
  lemma HeldSnoc(log: seq<Done>, d: Done, capacity: nat, id: StreamId)
    requires 1 <= capacity
    ensures var before, after := Held(log, capacity), Held(log + [d], capacity);
            && (!Covers(d) ==> after == before)
            && (Covers(d) && EntryOf(d).id != id && id in after ==> id in before && after[id] == before[id])
            && (Covers(d) && EntryOf(d).id == id ==>
                  && id in after
                  && after[id]
                     == if id in before && d.startedAt < before[id].startedAt then before[id] else EntryOf(d).c)
  {
    CoveragesSnoc(log, d);
    if Covers(d) {
      assert (Coverages(log) + [EntryOf(d)])[..|Coverages(log)|] == Coverages(log);
      StoreKept(Coverages(log), capacity, id);
      RecordedItems(StoreOf(Coverages(log), capacity).d, EntryOf(d).id, EntryOf(d).c, capacity);
    }
  }

  // ---------------------------------------------------------------- while it is not evicted

  /** A completed wake whose stream was not evicted since is held, or a later start of its stream is. */
  lemma {:induction false} HeldWhileResident(log: seq<Done>, i: int, capacity: nat)
    requires 1 <= capacity && Resident(log, i, capacity) && Covers(log[i])
    ensures var id := EntryOf(log[i]).id;
            id in Held(log, capacity) && log[i].startedAt <= Held(log, capacity)[id].startedAt
    decreases |log|
  {
    var n := |log| - 1;
    var shorter, id := log[..n], EntryOf(log[i]).id;
    assert log == shorter + [log[n]];
    RecentAtEnd(log, capacity, id);
    HeldSnoc(shorter, log[n], capacity, id);
    if i < n {
      ResidentBefore(shorter, log[n], i, capacity);
      HeldWhileResident(shorter, i, capacity);
    }
  }

  lemma ResidentBefore(log: seq<Done>, d: Done, i: int, capacity: nat)
    requires i < |log| && Resident(log + [d], i, capacity)
    ensures Resident(log, i, capacity)
  {
    var longer, id := log + [d], EntryOf(log[i]).id;
    assert longer[i] == log[i];
    forall n | i < n <= |log| ensures Recent(log, n, capacity, id) {
      assert Recent(longer, n, capacity, id);
      RecentBefore(log, d, n, capacity, id);
    }
  }

  lemma BringsInSnoc(log: seq<Done>, d: Done, p: int, capacity: nat, id: StreamId)
    requires 1 <= capacity && BringsIn(log, p, capacity, id) && id in Held(log + [d], capacity)
    ensures BringsIn(log + [d], p, capacity, id)
  {
    var longer := log + [d];
    assert Records(longer, p, id);
    RecentBefore(log, d, p, capacity, id);
    forall n | p < n <= |longer| ensures Recent(longer, n, capacity, id) {
      assert n <= |log| ==> Recent(log, n, capacity, id);
      RecentLater(log, d, n, capacity, id);
    }
  }

  lemma RecentLater(log: seq<Done>, d: Done, n: int, capacity: nat, id: StreamId)
    requires 1 <= capacity && 0 <= n <= |log| + 1 && id in Held(log + [d], capacity)
    requires n <= |log| ==> Recent(log, n, capacity, id)
    ensures Recent(log + [d], n, capacity, id)
  {
    if n <= |log| {
      RecentBefore(log, d, n, capacity, id);
    } else {
      RecentAtEnd(log + [d], capacity, id);
    }
  }

  lemma BringsInNow(log: seq<Done>, d: Done, capacity: nat, id: StreamId)
    requires 1 <= capacity && Covers(d) && EntryOf(d).id == id && id !in Held(log, capacity)
    ensures BringsIn(log + [d], |log|, capacity, id)
  {
    var longer := log + [d];
    assert Records(longer, |log|, id);
    RecentAtEnd(log, capacity, id);
    RecentBefore(log, d, |log|, capacity, id);
    HeldSnoc(log, d, capacity, id);
    forall n | |log| < n <= |longer| ensures Recent(longer, n, capacity, id) {
      RecentLater(log, d, n, capacity, id);
    }
  }

  /** What the store holds for a stream is its latest start since it was last brought in, under the delivery
      that wake was for. */
  lemma {:induction false} HeldIsLatest(log: seq<Done>, capacity: nat, id: StreamId) returns (p: int, i: int)
    requires 1 <= capacity && id in Held(log, capacity)
    ensures LatestFrom(log, p, i, capacity, id) && Held(log, capacity)[id] == EntryOf(log[i]).c
  {
    var n := |log| - 1;
    var shorter, d := log[..n], log[n];
    assert log == shorter + [d];
    HeldSnoc(shorter, d, capacity, id);
    if id in Held(shorter, capacity) {
      p, i := HeldIsLatest(shorter, capacity, id);
      BringsInSnoc(shorter, d, p, capacity, id);
      if Records(log, n, id) && d.startedAt >= shorter[i].startedAt {
        i := n;
      }
    } else {
      BringsInNow(shorter, d, capacity, id);
      p, i := n, n;
    }
    forall k | p <= k && Records(log, k, id)
      ensures log[k].startedAt <= log[i].startedAt && (i < k ==> log[k].startedAt < log[i].startedAt) {
      assert k < n ==> Records(shorter, k, id);
    }
  }

  /** There is only one such wake. */
  lemma LatestIsUnique(log: seq<Done>, p: int, i: int, q: int, j: int, capacity: nat, id: StreamId)
    requires LatestFrom(log, p, i, capacity, id) && LatestFrom(log, q, j, capacity, id)
    ensures p == q && i == j
  {
    assert !Recent(log, p, capacity, id) && !Recent(log, q, capacity, id);
  }

  // ---------------------------------------------------------------- covered deliveries

  /** The wake at position `i` started after the delivery happened, and its stream has not been evicted. */
  ghost predicate CoveredBy(log: seq<Done>, i: int, agent: string, event: Event, capacity: nat) {
    && Records(log, i, (agent, event.StreamKey())) && Resident(log, i, capacity)
    && event.occurredAt.Some? && event.occurredAt.value < log[i].startedAt
  }

  /** The store finds a delivery covered exactly when some completed wake covers it. */
  lemma FoundIffCovered(log: seq<Done>, agent: string, event: Event, capacity: nat)
    requires 1 <= capacity
    ensures Covering(StoreOf(Coverages(log), capacity).d, agent, event).Some?
            <==> exists i :: CoveredBy(log, i, agent, event, capacity)
  {
    var id := (agent, event.StreamKey());
    if Covering(StoreOf(Coverages(log), capacity).d, agent, event).Some? {
      var p, i := HeldIsLatest(log, capacity, id);
      assert CoveredBy(log, i, agent, event, capacity);
    }
    if i :| CoveredBy(log, i, agent, event, capacity) {
      HeldWhileResident(log, i, capacity);
    }
  }

  // ---------------------------------------------------------------- few enough streams

  lemma {:induction false} CoveragesConcat(a: seq<Done>, b: seq<Done>)
    ensures Coverages(a + b) == Coverages(a) + Coverages(b)
  {
    if b == [] {
      assert a + b == a;
    } else {
      var c, d := b[..|b| - 1], b[|b| - 1];
      assert a + b == (a + c) + [d] && b == c + [d];
      CoveragesConcat(a, c);
      CoveragesSnocs(a, c, d);
    }
  }

  lemma CoveragesSnocs(a: seq<Done>, c: seq<Done>, d: Done)
    requires Coverages(a + c) == Coverages(a) + Coverages(c)
    ensures Coverages((a + c) + [d]) == Coverages(a) + Coverages(c + [d])
  {
    CoveragesSnoc(a + c, d);
    CoveragesSnoc(c, d);
  }

  /** How many distinct streams of any agent completed a stamped wake from position `i` on. */
  function StreamsSince(log: seq<Done>, i: int): nat
    requires 0 <= i <= |log|
  {
    |Lru.Recency(Ids(Coverages(log[i..])))|
  }

  /** The recency order ends with that of any suffix of the writes. */
  lemma {:induction false} RecencySuffix<K>(a: seq<K>, b: seq<K>) returns (p: seq<K>)
    ensures Recency(a + b) == p + Recency(b)
  {
    if b == [] {
      p := Recency(a);
      assert a + b == a;
    } else {
      var n := |b| - 1;
      var q := RecencySuffix(a, b[..n]);
      p := Without(q, b[n]);
      assert (a + b)[..|a + b| - 1] == a + b[..n];
      WithoutConcat(q, Recency(b[..n]), b[n]);
    }
  }

  lemma LastNKeepsEnd<K>(q: seq<K>, r: seq<K>, k: K, n: nat)
    requires |r| <= n && k in r
    ensures k in LastN(q + r, n)
  {
    var i :| 0 <= i < |r| && r[i] == k;
    var all, last := q + r, LastN(q + r, n);
    assert all[|q| + i] == k;
    assert last[|q| + i - (|all| - |last|)] == k;
  }

  lemma FewKeepRecent(a: seq<Entry>, b: seq<Entry>, capacity: nat)
    requires b != [] && |Recency(Ids(b))| <= capacity
    ensures MostRecent(a + b, capacity, b[0].id)
  {
    assert Ids(a + b) == Ids(a) + Ids(b);
    var q := RecencySuffix(Ids(a), Ids(b));
    RecencyNoDup(Ids(b));
    assert Ids(b)[0] == b[0].id;
    LastNKeepsEnd(q, Recency(Ids(b)), b[0].id, capacity);
  }

  lemma {:induction false} FewerBefore(a: seq<Entry>, b: seq<Entry>)
    ensures |Recency(Ids(a))| <= |Recency(Ids(a + b))|
  {
    if b == [] {
      assert a + b == a;
    } else {
      var n := |b| - 1;
      assert (a + b)[..|a + b| - 1] == a + b[..n];
      FewerBefore(a, b[..n]);
      OneFewer(a + b);
    }
  }

  lemma CoveragesFrom(log: seq<Done>, i: int)
    requires 0 <= i < |log| && Covers(log[i])
    ensures Coverages(log[i..]) != [] && Coverages(log[i..])[0] == EntryOf(log[i])
  {
    CoveragesConcat([log[i]], log[i + 1..]);
    assert log[i..] == [log[i]] + log[i + 1..];
    CoveragesSnoc([], log[i]);
    assert [] + [log[i]] == [log[i]] && Coverages([]) == [] && Coverages([log[i]]) == [EntryOf(log[i])];
  }

  /** While the distinct streams recorded since, its own among them, fit the store, a stream is not evicted. */
  lemma FewIsResident(log: seq<Done>, i: int, capacity: nat)
    requires 0 <= i < |log| && Covers(log[i]) && StreamsSince(log, i) <= capacity
    ensures Resident(log, i, capacity)
  {
    forall n | i < n <= |log| ensures Recent(log, n, capacity, EntryOf(log[i]).id) {
      var head, since := log[..i], log[..n][i..];
      assert log[..n] == head + since && log[i..] == since + log[n..];
      CoveragesConcat(head, since);
      CoveragesConcat(since, log[n..]);
      FewerBefore(Coverages(since), Coverages(log[n..]));
      CoveragesFrom(log[..n], i);
      FewKeepRecent(Coverages(head), Coverages(since), capacity);
    }
  }
}
