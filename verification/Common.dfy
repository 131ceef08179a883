/** Shared vocabulary: an option type and the projection of a keyed log on one key. */
module Common {

  datatype Option<+T> = None | Some(value: T)

  /** What a log of (key, value) pairs says about one key, in order. */
  function Of<K(==), T>(log: seq<(K, T)>, k: K): seq<T>
  {
    if log == [] then []
    else
      var last := log[|log| - 1];
      Of(log[..|log| - 1], k) + if last.0 == k then [last.1] else []
  }

  /** The last count a log gives for a key, or 0 if it gives none. */
  function LastCount<K(==)>(log: seq<(K, nat)>, k: K): nat {
    var counts := Of(log, k);
    if counts == [] then 0 else counts[|counts| - 1]
  }

  /** The keys of a log, in order. */
  function KeysOf<K, T>(log: seq<(K, T)>): (ks: seq<K>)
    ensures |ks| == |log|
  {
    seq(|log|, i requires 0 <= i < |log| => log[i].0)
  }

  function SetOf<T(==)>(s: seq<T>): set<T> {
    set x | x in s
  }

  ghost predicate NoDup<T>(s: seq<T>) {
    forall i, j :: 0 <= i < j < |s| ==> s[i] != s[j]
  }

  lemma OfSnoc<K, T>(log: seq<(K, T)>, x: (K, T), k: K)
    ensures Of(log + [x], k) == Of(log, k) + if x.0 == k then [x.1] else []
  {
    assert (log + [x])[..|log|] == log;
  }

  lemma OfConcat<K, T>(a: seq<(K, T)>, b: seq<(K, T)>, k: K)
    ensures Of(a + b, k) == Of(a, k) + Of(b, k)
  {
    if b == [] {
      assert a + b == a;
    } else {
      var n := |b| - 1;
      OfConcat(a, b[..n], k);
      assert a + b == (a + b[..n]) + [b[n]];
      OfSnoc(a + b[..n], b[n], k);
    }
  }

  /** A key a log mentions has a non-empty projection, and conversely. */
  lemma OfNonEmpty<K, T>(log: seq<(K, T)>, k: K)
    ensures Of(log, k) != [] <==> k in KeysOf(log)
  {
    if log != [] {
      var n := |log| - 1;
      OfNonEmpty(log[..n], k);
      assert KeysOf(log) == KeysOf(log[..n]) + [log[n].0];
    }
  }

  lemma SetOfConcat<T>(a: seq<T>, b: seq<T>)
    ensures SetOf(a + b) == SetOf(a) + SetOf(b)
  {
  }

  lemma KeysOfConcat<K, T>(a: seq<(K, T)>, b: seq<(K, T)>)
    ensures KeysOf(a + b) == KeysOf(a) + KeysOf(b)
  {
  }

  lemma KeysOfSuffix<K, T>(a: seq<(K, T)>, b: seq<(K, T)>, ks: seq<K>)
    requires a <= b && KeysOf(b) == KeysOf(a) + ks
    ensures KeysOf(b[|a|..]) == ks
  {
    forall i | 0 <= i < |b| - |a| ensures KeysOf(b[|a|..])[i] == ks[i] {
      assert KeysOf(b)[|a| + i] == b[|a| + i].0;
    }
  }

  lemma NoDupConcat<T>(a: seq<T>, b: seq<T>)
    requires NoDup(a) && NoDup(b) && forall x :: x in a ==> x !in b
    ensures NoDup(a + b)
  {
    forall i, j | 0 <= i < j < |a + b| ensures (a + b)[i] != (a + b)[j] {
      if i < |a| <= j {
        assert a[i] in a && b[j - |a|] in b;
      }
    }
  }

  lemma NoDupTail<T>(s: seq<T>)
    requires NoDup(s) && s != []
    ensures NoDup(s[1..]) && s[0] !in s[1..]
  {
  }

  lemma {:induction false} NoDupSize<T>(s: seq<T>)
    requires NoDup(s)
    ensures |SetOf(s)| == |s|
  {
    if s != [] {
      var n := |s| - 1;
      NoDupSize(s[..n]);
      assert s == s[..n] + [s[n]];
      SetOfConcat(s[..n], [s[n]]);
      assert SetOf([s[n]]) == {s[n]};
      assert s[n] !in s[..n];
    } else {
      assert SetOf(s) == {};
    }
  }

  lemma OfHead<K, T>(log: seq<(K, T)>, k: K)
    requires log != []
    ensures Of(log, k) == (if log[0].0 == k then [log[0].1] else []) + Of(log[1..], k)
  {
    OfConcat([log[0]], log[1..], k);
    OfSnoc([], log[0], k);
    assert [] + [log[0]] == [log[0]];
    assert log == [log[0]] + log[1..];
  }

  lemma NoMembers<T(!new)>(s: seq<T>)
    ensures s == [] <==> forall x :: x !in s
  {
    if s != [] {
      assert s[0] in s;
    }
  }

  /** A finite set inside another is no larger. */
  lemma SubsetSize<T>(a: set<T>, b: set<T>)
    requires a <= b
    ensures |a| <= |b|
  {
    assert b == a + (b - a);
  }

  /** How many elements of a log carry one key is the length of its projection. */
  lemma OfLength<K, T>(log: seq<(K, T)>, k: K)
    ensures |Of(log, k)| == multiset(KeysOf(log))[k]
  {
    if log != [] {
      var n := |log| - 1;
      OfLength(log[..n], k);
      assert KeysOf(log) == KeysOf(log[..n]) + [log[n].0];
    } else {
      assert KeysOf(log) == [];
    }
  }

  lemma Pick<T>(a: set<T>) returns (x: T)
    requires a != {}
    ensures x in a
  {
    x :| x in a;
  }

  lemma SubMultisetSize<K(!new)>(a: multiset<K>, b: multiset<K>)
    requires forall k :: a[k] <= b[k]
    ensures |a| <= |b|
  {
    assert b == a + (b - a);
  }

  /** A log that is no longer than another on every key is no longer overall. */
  lemma ShorterEverywhere<K(!new), T, U>(a: seq<(K, T)>, b: seq<(K, U)>)
    requires forall k :: |Of(a, k)| <= |Of(b, k)|
    ensures |a| <= |b|
  {
    KeysNoMore(a, b);
    SubMultisetSize(multiset(KeysOf(a)), multiset(KeysOf(b)));
  }

  lemma KeysNoMore<K(!new), T, U>(a: seq<(K, T)>, b: seq<(K, U)>)
    requires forall k :: |Of(a, k)| <= |Of(b, k)|
    ensures forall k :: multiset(KeysOf(a))[k] <= multiset(KeysOf(b))[k]
  {
    forall k ensures multiset(KeysOf(a))[k] <= multiset(KeysOf(b))[k] {
      OfLength(a, k);
      OfLength(b, k);
    }
  }
}
