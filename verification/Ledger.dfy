/** The shape both of routes/github.py's ledgers have: keyed reports that arrive in any order, merged one
    at a time into an LRU. */
module Ledger {
  import opened Common
  import opened Lru

  // ---------------------------------------------------------------- reports that outrank each other

  /** One field of a report: its payload's timestamp, whether it outranks another of the same second, and
      what it says. */
  datatype Claim<V> = Claim(at: int, strong: bool, value: V)

  predicate Above<V>(a: Claim<V>, b: Claim<V>) {
    a.at > b.at || (a.at == b.at && a.strong && !b.strong)
  }

  function Prefer<V>(known: Claim<V>, report: Claim<V>): Claim<V> {
    if Above(known, report) then known else report
  }

  function Preferred<V>(claims: seq<Claim<V>>): Claim<V>
    requires claims != []
  {
    var n := |claims| - 1;
    if n == 0 then claims[0] else Prefer(Preferred(claims[..n]), claims[n])
  }

  lemma PreferAssociative<V>(a: Claim<V>, b: Claim<V>, c: Claim<V>)
    ensures Prefer(Prefer(a, b), c) == Prefer(a, Prefer(b, c))
  {
  }

  /** The last to arrive of those nothing is above. */
  ghost predicate LastMaximal<V>(claims: seq<Claim<V>>, i: int) {
    && 0 <= i < |claims|
    && (forall j :: 0 <= j < i ==> !Above(claims[j], claims[i]))
    && (forall j :: i < j < |claims| ==> Above(claims[i], claims[j]))
  }

  /** Preferring one at a time prefers the last-arriving maximum. */
  lemma {:induction false} PreferredIsLastMaximal<V>(claims: seq<Claim<V>>) returns (i: int)
    requires claims != []
    ensures LastMaximal(claims, i) && Preferred(claims) == claims[i]
  {
    var n := |claims| - 1;
    if n == 0 {
      i := 0;
    } else {
      i := PreferredIsLastMaximal(claims[..n]);
      assert forall j :: 0 <= j < n ==> claims[..n][j] == claims[j];
      if !Above(claims[i], claims[n]) {
        i := n;
      }
    }
  }

  /** There is only one. */
  lemma LastMaximalIsUnique<V>(claims: seq<Claim<V>>, i: int, j: int)
    requires LastMaximal(claims, i) && LastMaximal(claims, j)
    ensures i == j
  {
    if i < j {
      NotBefore(claims, i, j);
    } else if j < i {
      NotBefore(claims, j, i);
    }
  }

  lemma NotBefore<V>(claims: seq<Claim<V>>, i: int, j: int)
    requires LastMaximal(claims, i) && 0 <= j < |claims| && i < j
    ensures !LastMaximal(claims, j)
  {
    assert Above(claims[i], claims[j]);
  }

  lemma NothingAbove<V>(claims: seq<Claim<V>>, i: int, j: int)
    requires LastMaximal(claims, i) && 0 <= j < |claims|
    ensures !Above(claims[j], claims[i])
  {
    if i < j {
      assert Above(claims[i], claims[j]);
    }
  }

  /** The rank preferred does not depend on the order of arrival. */
  lemma RankIsOrderFree<V>(a: seq<Claim<V>>, b: seq<Claim<V>>)
    requires a != [] && b != [] && multiset(a) == multiset(b)
    ensures Preferred(a).at == Preferred(b).at && Preferred(a).strong == Preferred(b).strong
  {
    var i := PreferredIsLastMaximal(a);
    var j := PreferredIsLastMaximal(b);
    assert a[i] in multiset(a) && b[j] in multiset(b);
    assert a[i] in b && b[j] in a;
    var k :| 0 <= k < |b| && b[k] == a[i];
    var l :| 0 <= l < |a| && a[l] == b[j];
    NothingAbove(b, j, k);
    NothingAbove(a, i, l);
  }

  // ---------------------------------------------------------------- the ledger

  /** `starts`: a report that begins to be followed for its key. `skips`: a report that is discarded given
      what is known. `merge`: what is known after one that is not. */
  datatype Rules<!V> = Rules(starts: V -> bool, skips: (V, V) -> bool, merge: (V, V) -> V)

  ghost predicate Lawful<V(!new)>(r: Rules<V>) {
    forall known, report :: r.skips(known, report) ==> r.merge(known, report) == known
  }

  function Observe<K(==), V>(r: Rules<V>, d: OrderedDict<K, V>, k: K, report: V, capacity: nat): OrderedDict<K, V> {
    if k !in d.items && !r.starts(report) then d
    else if k in d.items && r.skips(d.items[k], report) then d
    else Put(d, k, if k in d.items then r.merge(d.items[k], report) else report, capacity)
  }

  lemma ObserveExactly<K, V>(r: Rules<V>, d: OrderedDict<K, V>, k: K, report: V, capacity: nat)
    requires d.Valid() && 1 <= capacity
    ensures var e := Observe(r, d, k, report, capacity);
            if (k !in d.items && !r.starts(report)) || (k in d.items && r.skips(d.items[k], report)) then e == d
            else
              && e.order == LastN(Without(d.order, k) + [k], capacity)
              && k in e.items && e.items[k] == (if k in d.items then r.merge(d.items[k], report) else report)
              && forall other :: other in e.items && other != k ==> other in d.items && e.items[other] == d.items[other]
  {
    PutEffect(d, k, if k in d.items then r.merge(d.items[k], report) else report, capacity);
  }

  /** The ledger after a log of reports, and for each key it holds the position that brought it in. */
  datatype Store<!K(==), V> = Store(d: OrderedDict<K, V>, since: map<K, nat>)

  function Stored<K(==), V>(r: Rules<V>, s: Store<K, V>, n: nat, k: K, report: V, capacity: nat): Store<K, V> {
    Store(Observe(r, s.d, k, report, capacity),
          if k in s.d.items || !r.starts(report) then s.since else s.since[k := n])
  }

  function StoreOf<K(==), V>(r: Rules<V>, log: seq<(K, V)>, capacity: nat): Store<K, V> {
    if log == [] then Store(Empty(), map[])
    else
      var n := |log| - 1;
      Stored(r, StoreOf(r, log[..n], capacity), n, log[n].0, log[n].1, capacity)
  }

  function Fold<V>(r: Rules<V>, reports: seq<V>): V
    requires reports != []
  {
    var n := |reports| - 1;
    if n == 0 then reports[0] else r.merge(Fold(r, reports[..n]), reports[n])
  }

  /** What a held key's entry is: the merge, in order, of its reports since it was last brought in, the
      first of which was one that starts. */
  ghost predicate Kept<K, V>(r: Rules<V>, log: seq<(K, V)>, s: Store<K, V>, k: K) {
    k in s.d.items ==>
      && k in s.since && s.since[k] < |log|
      && log[s.since[k]].0 == k && r.starts(log[s.since[k]].1)
      && Of(log[s.since[k]..], k) != []
      && s.d.items[k] == Fold(r, Of(log[s.since[k]..], k))
  }

  lemma ObserveEffect<K, V(!new)>(r: Rules<V>, d: OrderedDict<K, V>, k: K, report: V, capacity: nat)
    requires Lawful(r) && 1 <= capacity && d.Valid() && |d.order| <= capacity
    ensures var e := Observe(r, d, k, report, capacity);
            && e.Valid() && |e.order| <= capacity
            && (k in d.items || r.starts(report) ==>
                  k in e.items && e.items[k] == if k in d.items then r.merge(d.items[k], report) else report)
            && (k !in d.items && !r.starts(report) ==> e == d)
            && (forall x :: x in e.items && x != k ==> x in d.items && e.items[x] == d.items[x])
  {
    PutEffect(d, k, if k in d.items then r.merge(d.items[k], report) else report, capacity);
  }

  lemma KeptAfter<K, V>(r: Rules<V>, log: seq<(K, V)>, s: Store<K, V>, x: (K, V), after: Store<K, V>, k: K)
    requires Kept(r, log, s, k)
    requires after.since == if x.0 in s.d.items || !r.starts(x.1) then s.since else s.since[x.0 := |log|]
    requires x.0 !in s.d.items && !r.starts(x.1) ==> after.d == s.d
    requires x.0 in s.d.items || r.starts(x.1) ==>
               && x.0 in after.d.items
               && after.d.items[x.0] == if x.0 in s.d.items then r.merge(s.d.items[x.0], x.1) else x.1
    requires forall y :: y in after.d.items && y != x.0 ==> y in s.d.items && after.d.items[y] == s.d.items[y]
    ensures Kept(r, log + [x], after, k)
  {
    if k in s.d.items {
      var m := s.since[k];
      assert (log + [x])[m..] == log[m..] + [x];
      OfSnoc(log[m..], x, k);
      var before := Of(log[m..], k);
      assert before + [] == before;
      assert (before + [x.1])[..|before|] == before;
    } else {
      assert (log + [x])[|log|..] == [] + [x];
      OfSnoc([], x, k);
    }
  }

  lemma {:induction false} StoreKept<K, V(!new)>(r: Rules<V>, log: seq<(K, V)>, capacity: nat, k: K)
    requires Lawful(r) && 1 <= capacity
    ensures StoreOf(r, log, capacity).d.Valid() && |StoreOf(r, log, capacity).d.order| <= capacity
    ensures Kept(r, log, StoreOf(r, log, capacity), k)
  {
    if log == [] {
      assert SetOf(Empty<K, V>().order) == {};
    } else {
      var n := |log| - 1;
      StoreKept(r, log[..n], capacity, k);
      var s := StoreOf(r, log[..n], capacity);
      ObserveEffect(r, s.d, log[n].0, log[n].1, capacity);
      KeptAfter(r, log[..n], s, log[n], StoreOf(r, log, capacity), k);
      assert log == log[..n] + [log[n]];
    }
  }

  // ---------------------------------------------------------------- without eviction

  /** The keys that were ever followed. */
  function Started<K(==), V>(r: Rules<V>, log: seq<(K, V)>): set<K> {
    set i | 0 <= i < |log| && r.starts(log[i].1) :: log[i].0
  }

  lemma StartedSnoc<K, V>(r: Rules<V>, log: seq<(K, V)>, x: (K, V))
    ensures Started(r, log + [x]) == if r.starts(x.1) then Started(r, log) + {x.0} else Started(r, log)
  {
    var l := log + [x];
    forall k | k in Started(r, log) ensures k in Started(r, l) {
      var i :| 0 <= i < |log| && r.starts(log[i].1) && log[i].0 == k;
      assert l[i] == log[i];
    }
    if r.starts(x.1) {
      assert l[|log|] == x;
    }
  }

  lemma PutFits<K, V>(d: OrderedDict<K, V>, k: K, v: V, capacity: nat)
    requires d.Valid() && 1 <= capacity && |d.items.Keys + {k}| <= capacity
    ensures Put(d, k, v, capacity).items == d.items[k := v]
  {
    WithoutNoDup(d.order, k);
    NoDupSize(d.order);
    if k !in d.items {
      WithoutMembers(d.order, k);
      WithoutConcat(d.order, [k], k);
      assert |d.items.Keys + {k}| == |d.items.Keys| + 1;
    } else {
      assert d.items.Keys + {k} == d.items.Keys;
    }
    assert |d.Set(k, v).MoveToEnd(k).order| <= capacity;
  }

  /** A held key was brought in by the first of its reports that starts. */
  ghost predicate SinceFirst<K, V>(r: Rules<V>, log: seq<(K, V)>, s: Store<K, V>, k: K) {
    k in s.d.items ==>
      && k in s.since && s.since[k] < |log|
      && (forall j :: 0 <= j < s.since[k] && log[j].0 == k ==> !r.starts(log[j].1))
  }

  /** With no more followed keys than room, a key is held as soon as it starts and is never let go. */
  lemma {:induction false} NothingIsEvicted<K, V(!new)>(r: Rules<V>, log: seq<(K, V)>, capacity: nat, k: K)
    requires Lawful(r) && 1 <= capacity && |Started(r, log)| <= capacity
    ensures StoreOf(r, log, capacity).d.items.Keys == Started(r, log)
    ensures SinceFirst(r, log, StoreOf(r, log, capacity), k)
  {
    if log != [] {
      var n := |log| - 1;
      assert log == log[..n] + [log[n]];
      StartedSnoc(r, log[..n], log[n]);
      SubsetSize(Started(r, log[..n]), Started(r, log));
      NothingIsEvicted(r, log[..n], capacity, k);
      StoreKept(r, log[..n], capacity, k);
      StepFits(r, log[..n], StoreOf(r, log[..n], capacity), log[n], capacity, k);
    } else {
      assert Started(r, log) == {};
    }
  }

  lemma StepFits<K, V(!new)>(r: Rules<V>, log: seq<(K, V)>, s: Store<K, V>, x: (K, V), capacity: nat, k: K)
    requires Lawful(r) && 1 <= capacity && s.d.Valid() && s.d.items.Keys == Started(r, log)
    requires |Started(r, log + [x])| <= capacity
    requires SinceFirst(r, log, s, k)
    ensures Stored(r, s, |log|, x.0, x.1, capacity).d.items.Keys == Started(r, log + [x])
    ensures SinceFirst(r, log + [x], Stored(r, s, |log|, x.0, x.1, capacity), k)
  {
    StartedSnoc(r, log, x);
    if x.0 in s.d.items || r.starts(x.1) {
      assert s.d.items.Keys + {x.0} == Started(r, log + [x]);
      PutFits(s.d, x.0, if x.0 in s.d.items then r.merge(s.d.items[x.0], x.1) else x.1, capacity);
    }
    forall j | 0 <= j < |log| && r.starts(log[j].1) ensures log[j].0 in s.d.items {
      assert log[j].0 in Started(r, log);
    }
  }
}
