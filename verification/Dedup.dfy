/** The recently-woke delivery cache (dedup.py), against the plain history of marks. */
module Dedup {
  import opened Common

  datatype Cache = Cache(seen: map<string, real>, marksSinceGc: int)

  const GC_INTERVAL := 1024
  const EMPTY := Cache(map[], 0)

  function Seen(ttl: real, c: Cache, key: string, now: real): (Cache, bool) {
    if ttl <= 0.0 || key !in c.seen then (c, false)
    else if now - c.seen[key] >= ttl then (c.(seen := c.seen - {key}), false)
    else (c, true)
  }

  /** `_gc`. */
  function Swept(seen: map<string, real>, cutoff: real): map<string, real> {
    map key | key in seen && seen[key] > cutoff :: seen[key]
  }

  function Mark(ttl: real, c: Cache, key: string, now: real): Cache {
    if ttl <= 0.0 then c
    else
      var seen := c.seen[key := now];
      if c.marksSinceGc + 1 >= GC_INTERVAL then Cache(Swept(seen, now - ttl), 0)
      else Cache(seen, c.marksSinceGc + 1)
  }

  class DeliveryDeduper {
    const ttl: real
    var seen: map<string, real>
    var marksSinceGc: int

    function Current(): Cache
      reads this
    {
      Cache(seen, marksSinceGc)
    }

    constructor (ttl: real)
      requires ttl >= 0.0
      ensures this.ttl == ttl && Current() == EMPTY
    {
      this.ttl, seen, marksSinceGc := ttl, map[], 0;
    }

    /** `seen`; `now` is the clock it read. */
    method WasSeen(key: string, now: real) returns (hit: bool)
      modifies this`seen
      ensures (Current(), hit) == Seen(ttl, old(Current()), key, now)
    {
      if ttl <= 0.0 || key !in seen { return false; }
      if now - seen[key] >= ttl {
        seen := seen - {key};
        return false;
      }
      return true;
    }

    method MarkSeen(key: string, now: real)
      modifies this
      ensures Current() == Mark(ttl, old(Current()), key, now)
    {
      if ttl <= 0.0 { return; }
      seen := seen[key := now];
      marksSinceGc := marksSinceGc + 1;
      if marksSinceGc >= GC_INTERVAL {
        Gc(now);
        marksSinceGc := 0;
      }
    }

    /** `_gc`: list the stale keys, then delete them one at a time. */
    method Gc(now: real)
      modifies this`seen
      ensures seen == Swept(old(seen), now - ttl)
    {
      var cutoff := now - ttl;
      var stale := set key | key in seen && seen[key] <= cutoff;
      while stale != {}
        invariant stale <= seen.Keys
        invariant forall key :: key in seen ==> key in old(seen) && seen[key] == old(seen)[key]
        invariant forall key :: key in old(seen) && key !in seen ==> old(seen)[key] <= cutoff
        invariant forall key :: key in seen && seen[key] <= cutoff ==> key in stale
        invariant forall key :: key in stale ==> old(seen)[key] <= cutoff
        decreases stale
      {
        var key :| key in stale;
        seen := seen - {key};
        stale := stale - {key};
      }
    }
  }

  // ---------------------------------------------------------------- the history of marks

  datatype Op = Check(key: string, now: real) | Woke(key: string, now: real)

  /** Run the operations in lock order. `marks` is every mark made, `lastSweep` how many of them had been
      made when the cache was last swept, and `sweptAt` the clock it was swept at. */
  datatype Run = Run(cache: Cache, hits: seq<bool>, marks: seq<(string, real)>, lastSweep: nat, sweptAt: real)

  function Perform(ttl: real, ops: seq<Op>): Run {
    if ops == [] then Run(EMPTY, [], [], 0, 0.0)
    else Apply(ttl, Perform(ttl, ops[..|ops| - 1]), ops[|ops| - 1])
  }

  function Apply(ttl: real, r: Run, op: Op): Run {
    match op
    case Check(key, now) =>
      var (cache, hit) := Seen(ttl, r.cache, key, now);
      r.(cache := cache, hits := r.hits + [hit])
    case Woke(key, now) =>
      var cache := Mark(ttl, r.cache, key, now);
      var marks := r.marks + [(key, now)];
      if cache.marksSinceGc == 0 then Run(cache, r.hits, marks, |marks|, now)
      else Run(cache, r.hits, marks, r.lastSweep, r.sweptAt)
  }

  ghost predicate Ordered(ops: seq<Op>) {
    forall i, j :: 0 <= i < j < |ops| ==> ops[i].now <= ops[j].now
  }

  /** The latest mark of a key, if it was ever marked. */
  function Latest(marks: seq<(string, real)>, key: string): Option<real> {
    var times := Of(marks, key);
    if times == [] then None else Some(times[|times| - 1])
  }

  /** At time `t`: a cached key holds its latest mark, and a key that was marked and is not cached has
      outlived the TTL. */
  ghost predicate Faithful(ttl: real, cache: Cache, marks: seq<(string, real)>, t: real) {
    && (forall key :: key in cache.seen ==> Latest(marks, key) == Some(cache.seen[key]))
    && (forall key :: key !in cache.seen && Latest(marks, key).Some? ==> t - Latest(marks, key).value >= ttl)
  }

  /** What the cache may hold: keys marked inside the TTL before the last sweep, and keys marked since. */
  ghost predicate Bounded(ttl: real, r: Run) {
    && 0 <= r.cache.marksSinceGc < GC_INTERVAL
    && r.lastSweep + r.cache.marksSinceGc == |r.marks|
    && (forall key :: key in r.cache.seen ==> exists i :: MarkedAt(r.marks, i, key, r.cache.seen[key]) &&
                                                         (i < r.lastSweep ==> r.marks[i].1 > r.sweptAt - ttl))
  }

  ghost predicate MarkedAt(marks: seq<(string, real)>, i: int, key: string, at: real) {
    0 <= i < |marks| && marks[i] == (key, at)
  }

  /** A faithful cache answers for every mark there was, and the lookup leaves it faithful. */
  lemma SeenAnswers(ttl: real, cache: Cache, marks: seq<(string, real)>, key: string, now: real, t: real)
    requires ttl > 0.0 && Faithful(ttl, cache, marks, t) && t <= now
    ensures Faithful(ttl, Seen(ttl, cache, key, now).0, marks, now)
    ensures Seen(ttl, cache, key, now).1
            == (Latest(marks, key).Some? && now - Latest(marks, key).value < ttl)
  {
  }

  lemma MarkAnswers(ttl: real, cache: Cache, marks: seq<(string, real)>, key: string, now: real, t: real)
    requires ttl > 0.0 && Faithful(ttl, cache, marks, t) && t <= now
    ensures Faithful(ttl, Mark(ttl, cache, key, now), marks + [(key, now)], now)
  {
    forall k
      ensures Latest(marks + [(key, now)], k) == if k == key then Some(now) else Latest(marks, k) {
      OfSnoc(marks, (key, now), k);
    }
  }

  lemma ApplyFaithful(ttl: real, r: Run, op: Op, t: real)
    requires ttl > 0.0 && Faithful(ttl, r.cache, r.marks, t) && t <= op.now
    ensures Faithful(ttl, Apply(ttl, r, op).cache, Apply(ttl, r, op).marks, op.now)
  {
    match op
    case Check(key, now) => SeenAnswers(ttl, r.cache, r.marks, key, now, t);
    case Woke(key, now) => MarkAnswers(ttl, r.cache, r.marks, key, now, t);
  }

  /** The cache answers for the whole history: `seen(k)` is true exactly when the latest mark of `k` is
      less than a TTL old, whatever expired entries were dropped on the way. */
  lemma {:induction false} RunFaithful(ttl: real, ops: seq<Op>, t: real)
    requires ttl > 0.0 && Ordered(ops) && (ops != [] ==> ops[|ops| - 1].now <= t)
    ensures Faithful(ttl, Perform(ttl, ops).cache, Perform(ttl, ops).marks, t)
  {
    if ops != [] {
      var n := |ops| - 1;
      RunFaithful(ttl, ops[..n], ops[n].now);
      ApplyFaithful(ttl, Perform(ttl, ops[..n]), ops[n], ops[n].now);
    }
  }

  lemma {:induction false} SeenIffMarkedWithinTtl(ttl: real, ops: seq<Op>, key: string, now: real)
    requires ttl > 0.0 && Ordered(ops) && (ops != [] ==> ops[|ops| - 1].now <= now)
    ensures var r := Perform(ttl, ops);
            Seen(ttl, r.cache, key, now).1 <==> Latest(r.marks, key).Some? && now - Latest(r.marks, key).value < ttl
  {
    RunFaithful(ttl, ops, now);
    SeenAnswers(ttl, Perform(ttl, ops).cache, Perform(ttl, ops).marks, key, now, now);
  }

  /** With no TTL nothing is remembered and nothing is found. */
  lemma {:induction false} DisabledFindsNothing(ttl: real, ops: seq<Op>)
    requires ttl <= 0.0
    ensures Perform(ttl, ops).cache == EMPTY
    ensures forall i :: 0 <= i < |Perform(ttl, ops).hits| ==> !Perform(ttl, ops).hits[i]
  {
    if ops != [] {
      DisabledFindsNothing(ttl, ops[..|ops| - 1]);
    }
  }

  lemma ApplyBounded(ttl: real, r: Run, op: Op)
    requires ttl > 0.0 && Bounded(ttl, r)
    ensures Bounded(ttl, Apply(ttl, r, op))
  {
    var q := Apply(ttl, r, op);
    forall key | key in q.cache.seen
      ensures exists i :: MarkedAt(q.marks, i, key, q.cache.seen[key])
                          && (i < q.lastSweep ==> q.marks[i].1 > q.sweptAt - ttl) {
      if op.Woke? && key == op.key {
        assert MarkedAt(q.marks, |r.marks|, key, op.now);
      } else {
        var i :| MarkedAt(r.marks, i, key, r.cache.seen[key]) && (i < r.lastSweep ==> r.marks[i].1 > r.sweptAt - ttl);
        assert MarkedAt(q.marks, i, key, q.cache.seen[key]);
      }
    }
  }

  lemma {:induction false} RunBounded(ttl: real, ops: seq<Op>)
    requires ttl > 0.0
    ensures Bounded(ttl, Perform(ttl, ops))
  {
    if ops != [] {
      RunBounded(ttl, ops[..|ops| - 1]);
      ApplyBounded(ttl, Perform(ttl, ops[..|ops| - 1]), ops[|ops| - 1]);
    }
  }

  /** The keys marked within one TTL before the last sweep. */
  function FreshAtSweep(ttl: real, r: Run): set<string> {
    set i | 0 <= i < r.lastSweep && i < |r.marks| && r.marks[i].1 > r.sweptAt - ttl :: r.marks[i].0
  }

  /** So the cache never holds more than those, and fewer than `GC_INTERVAL` others. */
  lemma CacheSize(ttl: real, ops: seq<Op>)
    requires ttl > 0.0
    ensures var r := Perform(ttl, ops); |r.cache.seen| < |FreshAtSweep(ttl, r)| + 1024
  {
    var r := Perform(ttl, ops);
    RunBounded(ttl, ops);
    var since := SetOf(KeysOf(r.marks[r.lastSweep..]));
    forall key | key in r.cache.seen ensures key in FreshAtSweep(ttl, r) + since {
      var i :| MarkedAt(r.marks, i, key, r.cache.seen[key]) && (i < r.lastSweep ==> r.marks[i].1 > r.sweptAt - ttl);
      if i >= r.lastSweep {
        assert KeysOf(r.marks[r.lastSweep..])[i - r.lastSweep] == key;
      }
    }
    SubsetSize(r.cache.seen.Keys, FreshAtSweep(ttl, r) + since);
    SetOfSize(KeysOf(r.marks[r.lastSweep..]));
    assert |r.cache.seen| == |r.cache.seen.Keys|;
    UnionSize(FreshAtSweep(ttl, r), since);
  }

  lemma UnionSize<T>(a: set<T>, b: set<T>)
    ensures |a + b| <= |a| + |b|
  {
  }

  lemma {:induction false} SetOfSize<T>(s: seq<T>)
    ensures |SetOf(s)| <= |s|
  {
    if s != [] {
      SetOfSize(s[1..]);
      SetOfConcat([s[0]], s[1..]);
      assert s == [s[0]] + s[1..];
      assert SetOf([s[0]]) == {s[0]};
    } else {
      assert SetOf(s) == {};
    }
  }
}
