/** An insertion-ordered dictionary kept to a capacity by evicting from the front, as coalesce.py and
    routes/github.py use OrderedDict. */
module Lru {
  import opened Common

  datatype OrderedDict<K(==), V> = OrderedDict(order: seq<K>, items: map<K, V>)
  {
    ghost predicate Valid() { NoDup(order) && items.Keys == SetOf(order) }

    /** `d[k] = v`. */
    function Set(k: K, v: V): OrderedDict<K, V> {
      OrderedDict(if k in items then order else order + [k], items[k := v])
    }

    /** `d.move_to_end(k)`. */
    function MoveToEnd(k: K): OrderedDict<K, V> {
      OrderedDict(Without(order, k) + [k], items)
    }

    /** `d.popitem(last=False)`. */
    function PopFirst(): OrderedDict<K, V>
      requires order != []
    {
      OrderedDict(order[1..], items - {order[0]})
    }

    /** Pop until at most `capacity` are left. */
    function Trimmed(capacity: nat): OrderedDict<K, V>
      decreases |order|
    {
      if |order| > capacity then PopFirst().Trimmed(capacity) else this
    }
  }

  function Empty<K(==), V>(): OrderedDict<K, V> { OrderedDict([], map[]) }

  function Without<K(==)>(s: seq<K>, k: K): seq<K> {
    if s == [] then [] else (if s[0] == k then [] else [s[0]]) + Without(s[1..], k)
  }

  function LastN<K>(s: seq<K>, n: nat): seq<K> {
    if |s| <= n then s else s[|s| - n..]
  }

  /** The distinct keys written, least recently written first. */
  function Recency<K(==)>(keys: seq<K>): seq<K> {
    if keys == [] then []
    else
      var k := keys[|keys| - 1];
      Without(Recency(keys[..|keys| - 1]), k) + [k]
  }

  /** One write: set, move to the end, evict. */
  function Put<K(==), V>(d: OrderedDict<K, V>, k: K, v: V, capacity: nat): OrderedDict<K, V> {
    d.Set(k, v).MoveToEnd(k).Trimmed(capacity)
  }

  lemma {:induction false} WithoutConcat<K>(a: seq<K>, b: seq<K>, k: K)
    ensures Without(a + b, k) == Without(a, k) + Without(b, k)
  {
    if a == [] {
      assert a + b == b;
    } else {
      assert (a + b)[1..] == a[1..] + b;
      WithoutConcat(a[1..], b, k);
    }
  }

  lemma {:induction false} WithoutMembers<K>(s: seq<K>, k: K)
    ensures forall x :: x in Without(s, k) <==> x in s && x != k
    ensures k !in s ==> Without(s, k) == s
  {
    if s != [] {
      WithoutMembers(s[1..], k);
      assert s == [s[0]] + s[1..];
    }
  }

  lemma {:induction false} WithoutNoDup<K>(s: seq<K>, k: K)
    requires NoDup(s)
    ensures NoDup(Without(s, k))
    ensures |Without(s, k)| == |s| - if k in s then 1 else 0
  {
    if s != [] {
      NoDupTail(s);
      WithoutNoDup(s[1..], k);
      WithoutMembers(s[1..], k);
      NoDupConcat(if s[0] == k then [] else [s[0]], Without(s[1..], k));
      assert k in s <==> k == s[0] || k in s[1..];
    }
  }

  lemma {:induction false} RecencyNoDup<K>(keys: seq<K>)
    ensures NoDup(Recency(keys))
    ensures forall x :: x in Recency(keys) <==> x in keys
  {
    if keys != [] {
      var n := |keys| - 1;
      RecencyNoDup(keys[..n]);
      WithoutNoDup(Recency(keys[..n]), keys[n]);
      WithoutMembers(Recency(keys[..n]), keys[n]);
      NoDupConcat(Without(Recency(keys[..n]), keys[n]), [keys[n]]);
      assert keys == keys[..n] + [keys[n]];
    }
  }

  lemma PopKeepsValid<K, V>(d: OrderedDict<K, V>)
    requires d.Valid() && d.order != []
    ensures d.PopFirst().Valid()
  {
    NoDupTail(d.order);
    assert d.order == [d.order[0]] + d.order[1..];
    assert d.PopFirst().items.Keys == SetOf(d.PopFirst().order);
  }

  lemma LastNOfTail<K>(s: seq<K>, n: nat)
    requires |s| > n
    ensures LastN(s[1..], n) == LastN(s, n)
  {
  }

  lemma {:induction false} TrimmedIsLastN<K, V>(d: OrderedDict<K, V>, capacity: nat)
    requires d.Valid()
    ensures d.Trimmed(capacity).Valid()
    ensures d.Trimmed(capacity).order == LastN(d.order, capacity)
    ensures forall k :: k in d.Trimmed(capacity).items ==> k in d.items && d.Trimmed(capacity).items[k] == d.items[k]
    decreases |d.order|
  {
    if |d.order| > capacity {
      var e := d.PopFirst();
      PopKeepsValid(d);
      TrimmedIsLastN(e, capacity);
      LastNOfTail(d.order, capacity);
      assert d.Trimmed(capacity) == e.Trimmed(capacity);
    } else {
      assert d.Trimmed(capacity) == d;
    }
  }

  /** Whether or not the key was there, setting it and moving it to the end puts it last, once. */
  lemma MovedOrder<K, V>(d: OrderedDict<K, V>, k: K, v: V)
    requires d.Valid()
    ensures d.Set(k, v).MoveToEnd(k).order == Without(d.order, k) + [k]
  {
    if k !in d.items {
      WithoutConcat(d.order, [k], k);
      assert [k][1..] == [];
      assert Without([k], k) == [];
    }
  }

  lemma MovedToEnd<K, V>(d: OrderedDict<K, V>, k: K, v: V)
    requires d.Valid()
    ensures d.Set(k, v).MoveToEnd(k).Valid()
  {
    MovedOrder(d, k, v);
    WithoutNoDup(d.order, k);
    WithoutMembers(d.order, k);
    NoDupConcat(Without(d.order, k), [k]);
    assert d.items[k := v].Keys == SetOf(Without(d.order, k) + [k]);
  }

  lemma PutEffect<K, V>(d: OrderedDict<K, V>, k: K, v: V, capacity: nat)
    requires d.Valid() && 1 <= capacity
    ensures var e := Put(d, k, v, capacity);
            && e.Valid()
            && e.order == LastN(Without(d.order, k) + [k], capacity)
            && k in e.items && e.items[k] == v
            && (forall x :: x in e.items && x != k ==> x in d.items && e.items[x] == d.items[x])
  {
    var m := d.Set(k, v).MoveToEnd(k);
    MovedOrder(d, k, v);
    MovedToEnd(d, k, v);
    TrimmedIsLastN(m, capacity);
    var e := m.Trimmed(capacity);
    assert e.order[|e.order| - 1] == k;
    assert k in SetOf(e.order);
  }

  lemma LastNOfConcat<K>(p: seq<K>, q: seq<K>, n: nat)
    requires n <= |q|
    ensures LastN(p + q, n) == LastN(q, n)
  {
    if p == [] { assert p + q == q; }
  }

  lemma WriteOfKept<K>(p: seq<K>, s: seq<K>, k: K)
    requires NoDup(p + s) && NoDup(s) && k in s
    ensures LastN(Without(p + s, k) + [k], |s|) == LastN(Without(s, k) + [k], |s|)
  {
    WithoutConcat(p, s, k);
    DisjointHalves(p, s, k);
    WithoutMembers(p, k);
    WithoutNoDup(s, k);
    LastNOfConcat(p, Without(s, k) + [k], |s|);
    assert (p + Without(s, k)) + [k] == p + (Without(s, k) + [k]);
  }

  lemma WriteOfOther<K>(p: seq<K>, s: seq<K>, k: K)
    requires k !in s
    ensures LastN(Without(p + s, k) + [k], |s|) == LastN(Without(s, k) + [k], |s|)
  {
    WithoutConcat(p, s, k);
    WithoutMembers(s, k);
    LastNOfConcat(Without(p, k), s + [k], |s|);
    assert (Without(p, k) + s) + [k] == Without(p, k) + (s + [k]);
  }

  /** Keeping only the last `n` before a write loses nothing that would survive it. */
  lemma LastNThenWrite<K>(r: seq<K>, k: K, n: nat)
    requires NoDup(r) && 1 <= n
    ensures LastN(Without(LastN(r, n), k) + [k], n) == LastN(Without(r, k) + [k], n)
  {
    if |r| > n {
      var p, s := r[..|r| - n], r[|r| - n..];
      assert r == p + s;
      if k in s {
        WriteOfKept(p, s, k);
      } else {
        WriteOfOther(p, s, k);
      }
    }
  }

  lemma DisjointHalves<K>(p: seq<K>, s: seq<K>, k: K)
    requires NoDup(p + s) && k in s
    ensures k !in p
  {
    var j :| 0 <= j < |s| && s[j] == k;
    assert forall i :: 0 <= i < |p| ==> p[i] == (p + s)[i] != (p + s)[|p| + j];
  }

  lemma OrderAfterWrite<K, V>(d: OrderedDict<K, V>, keys: seq<K>, k: K, v: V, capacity: nat)
    requires d.Valid() && 1 <= capacity && d.order == LastN(Recency(keys), capacity)
    ensures Put(d, k, v, capacity).order == LastN(Recency(keys + [k]), capacity)
  {
    PutEffect(d, k, v, capacity);
    RecencyNoDup(keys);
    LastNThenWrite(Recency(keys), k, capacity);
    assert (keys + [k])[..|keys|] == keys;
  }

  /** What a sequence of writes leaves, from an empty dictionary. */
  function Written<K(==), V>(writes: seq<(K, V)>, capacity: nat): OrderedDict<K, V> {
    if writes == [] then Empty()
    else
      var n := |writes| - 1;
      Put(Written(writes[..n], capacity), writes[n].0, writes[n].1, capacity)
  }

  lemma OneMoreWrite<K, V>(d: OrderedDict<K, V>, keys: seq<K>, w: (K, V), capacity: nat, after: OrderedDict<K, V>)
    requires d.Valid() && 1 <= capacity && d.order == LastN(Recency(keys), capacity)
    requires after == Put(d, w.0, w.1, capacity)
    ensures after.Valid() && after.order == LastN(Recency(keys + [w.0]), capacity)
  {
    PutEffect(d, w.0, w.1, capacity);
    OrderAfterWrite(d, keys, w.0, w.1, capacity);
  }

  lemma KeysOfLast<K, V>(writes: seq<(K, V)>)
    requires writes != []
    ensures KeysOf(writes) == KeysOf(writes[..|writes| - 1]) + [writes[|writes| - 1].0]
  {
  }

  /** After any writes the dictionary's order is the last `capacity` of the recency order of the keys written. */
  lemma {:induction false} OrderIsRecency<K, V>(writes: seq<(K, V)>, capacity: nat)
    requires 1 <= capacity
    ensures Written(writes, capacity).Valid()
    ensures Written(writes, capacity).order == LastN(Recency(KeysOf(writes)), capacity)
  {
    if writes == [] {
      assert SetOf(Empty<K, V>().order) == {};
    } else {
      var n := |writes| - 1;
      OrderIsRecency(writes[..n], capacity);
      KeysOfLast(writes);
      OneMoreWrite(Written(writes[..n], capacity), KeysOf(writes[..n]), writes[n], capacity, Written(writes, capacity));
    }
  }
}
