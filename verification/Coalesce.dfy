/** Wake coverage (coalesce.py): which completed wake already covered each agent's stream. */
module Coalesce {
  import opened Common
  import opened Lru
  import opened Models

  datatype Coverage = Coverage(delivery: string, startedAt: real)

  type StreamId = (string, string)   // (agent key, stream key)
  type Streams = OrderedDict<StreamId, Coverage>

  /** What `record` does for an event stamped with a time. */
  function Recorded(d: Streams, id: StreamId, c: Coverage, capacity: nat): Streams {
    var kept := if id in d.items && c.startedAt < d.items[id].startedAt then d.items[id] else c;
    Put(d, id, kept, capacity)
  }

  function Record(d: Streams, agent: string, event: Event, startedAt: real, capacity: nat): Streams {
    if event.occurredAt == None then d
    else Recorded(d, (agent, event.StreamKey()), Coverage(event.deliveryId, startedAt), capacity)
  }

  function Covering(d: Streams, agent: string, event: Event): Option<Coverage> {
    var id := (agent, event.StreamKey());
    if event.occurredAt.Some? && id in d.items && event.occurredAt.value < d.items[id].startedAt
    then Some(d.items[id]) else None
  }

  class WakeCoverage {
    const capacity: nat
    var streams: Streams

    constructor (capacity: nat)
      requires 1 <= capacity
      ensures this.capacity == capacity && streams == Empty()
    {
      this.capacity, streams := capacity, Empty();
    }

    method RecordWake(agent: string, event: Event, startedAt: real)
      requires streams.Valid() && 1 <= capacity
      modifies this
      ensures streams == Record(old(streams), agent, event, startedAt, capacity) && streams.Valid()
    {
      if event.occurredAt == None { return; }
      var key := (agent, event.StreamKey());
      ghost var before := streams;
      if !(key in streams.items) || startedAt >= streams.items[key].startedAt {
        streams := streams.Set(key, Coverage(event.deliveryId, startedAt));
      }
      ghost var kept := if key in before.items && startedAt < before.items[key].startedAt
                        then before.items[key] else Coverage(event.deliveryId, startedAt);
      assert streams == before.Set(key, kept);
      streams := streams.MoveToEnd(key);
      PutEffect(before, key, kept, capacity);
      ghost var target := streams.Trimmed(capacity);
      while |streams.order| > capacity
        invariant streams.Trimmed(capacity) == target
        decreases |streams.order|
      {
        streams := streams.PopFirst();
      }
    }

    method CoveringWake(agent: string, event: Event) returns (covering: Option<Coverage>)
      ensures covering == Covering(streams, agent, event)
    {
      if event.occurredAt == None { return None; }
      var key := (agent, event.StreamKey());
      if !(key in streams.items) { return None; }
      var known := streams.items[key];
      if !(event.occurredAt.value < known.startedAt) { return None; }
      return Some(known);
    }
  }

  /** Which deliveries one wake covers: its agent's that happened before it started, from the same origin, or with
      the same wake argument when neither has an origin. A delivery with an origin and one without share a stream
      only when the one's url is the other's argument. */
  lemma CoversItsOwnStream(agent: string, e: Event, startedAt: real, other: string, f: Event, capacity: nat)
    requires 1 <= capacity && e.occurredAt.Some? && f.occurredAt.Some? && f.occurredAt.value < startedAt
    ensures var d := Record(Empty(), agent, e, startedAt, capacity);
            && (Covering(d, other, f).Some? <==>
                  && other == agent
                  && match (e.originUrl, f.originUrl)
                     case (Some(u), Some(v)) => u == v
                     case (None, None) => e.wakeArg == f.wakeArg
                     case (Some(u), None) => u == f.wakeArg
                     case (None, Some(v)) => e.wakeArg == v)
            && (Covering(d, other, f).Some? ==> Covering(d, other, f).value == Coverage(e.deliveryId, startedAt))
  {
    var empty: Streams := Empty();
    assert SetOf(empty.order) == {};
    PutEffect(empty, (agent, e.StreamKey()), Coverage(e.deliveryId, startedAt), capacity);
  }

  // ---------------------------------------------------------------- against the unbounded map

  datatype Entry = Entry(id: StreamId, c: Coverage)

  function Ids(log: seq<Entry>): seq<StreamId> {
    seq(|log|, i requires 0 <= i < |log| => log[i].id)
  }

  /** The store after a sequence of records, and for each stream it holds the position of the record
      that brought it in. */
  datatype Store = Store(d: Streams, since: map<StreamId, nat>)

  /** The record at position `n` of the log. */
  function Stored(s: Store, n: nat, e: Entry, capacity: nat): Store {
    Store(Recorded(s.d, e.id, e.c, capacity), if e.id in s.d.items then s.since else s.since[e.id := n])
  }

  function StoreOf(log: seq<Entry>, capacity: nat): Store {
    if log == [] then Store(Empty(), map[])
    else Stored(StoreOf(log[..|log| - 1], capacity), |log| - 1, log[|log| - 1], capacity)
  }

  /** What a map that evicts nothing would hold: the latest record among those with the latest start. */
  function Best(log: seq<Entry>, id: StreamId): Option<Coverage> {
    if log == [] then None
    else
      var n := |log| - 1;
      var before, e := Best(log[..n], id), log[n];
      if e.id != id || (before.Some? && e.c.startedAt < before.value.startedAt) then before else Some(e.c)
  }

  lemma BestSnoc(log: seq<Entry>, e: Entry, id: StreamId)
    ensures Best(log + [e], id)
            == if e.id != id || (Best(log, id).Some? && e.c.startedAt < Best(log, id).value.startedAt)
               then Best(log, id) else Some(e.c)
  {
    assert (log + [e])[..|log|] == log;
  }

  /** The best of a stream's records is one of them, and none of them started later. */
  lemma {:induction false} BestIsLatest(log: seq<Entry>, id: StreamId)
    ensures Best(log, id).Some? ==> exists i :: 0 <= i < |log| && log[i] == Entry(id, Best(log, id).value)
    ensures forall i :: 0 <= i < |log| && log[i].id == id ==>
        Best(log, id).Some? && log[i].c.startedAt <= Best(log, id).value.startedAt
  {
    if log != [] {
      var n := |log| - 1;
      BestIsLatest(log[..n], id);
      if log[n].id != id || (Best(log[..n], id).Some? && log[n].c.startedAt < Best(log[..n], id).value.startedAt) {
        if Best(log, id).Some? {
          var i :| 0 <= i < n && log[..n][i] == Entry(id, Best(log, id).value);
          assert log[i] == Entry(id, Best(log, id).value);
        }
      } else {
        assert log[n] == Entry(id, Best(log, id).value);
      }
      forall i | 0 <= i < |log| && log[i].id == id
        ensures Best(log, id).Some? && log[i].c.startedAt <= Best(log, id).value.startedAt {
        if i < n { assert log[..n][i].id == id; }
      }
    }
  }

  /** What a held stream's entry is: the best of its records since it was last brought in. */
  ghost predicate Kept(log: seq<Entry>, s: Store, id: StreamId) {
    id in s.d.items ==>
      id in s.since && s.since[id] < |log| && Best(log[s.since[id]..], id) == Some(s.d.items[id])
  }

  lemma {:induction false} StoreKept(log: seq<Entry>, capacity: nat, id: StreamId)
    requires 1 <= capacity
    ensures StoreOf(log, capacity).d.Valid()
    ensures Kept(log, StoreOf(log, capacity), id)
    ensures StoreOf(log, capacity).d.order == LastN(Recency(Ids(log)), capacity)
  {
    if log == [] {
      assert SetOf(Empty<StreamId, Coverage>().order) == {};
    } else {
      var n := |log| - 1;
      StoreKept(log[..n], capacity, id);
      assert log == log[..n] + [log[n]];
      StoredOrder(log[..n], StoreOf(log[..n], capacity), log[n], capacity, StoreOf(log, capacity).d);
      StoredKept(log[..n], StoreOf(log[..n], capacity), log[n], capacity, id, StoreOf(log, capacity));
    }
  }

  lemma RecordedOrder(d: Streams, id: StreamId, c: Coverage, capacity: nat, keys: seq<StreamId>)
    requires 1 <= capacity && d.Valid() && d.order == LastN(Recency(keys), capacity)
    ensures Recorded(d, id, c, capacity).Valid()
    ensures Recorded(d, id, c, capacity).order == LastN(Recency(keys + [id]), capacity)
  {
    var kept := if id in d.items && c.startedAt < d.items[id].startedAt then d.items[id] else c;
    PutEffect(d, id, kept, capacity);
    OrderAfterWrite(d, keys, id, kept, capacity);
  }

  lemma RecordedItems(d: Streams, id: StreamId, c: Coverage, capacity: nat)
    requires 1 <= capacity && d.Valid()
    ensures var e := Recorded(d, id, c, capacity);
            && id in e.items
            && e.items[id] == (if id in d.items && c.startedAt < d.items[id].startedAt then d.items[id] else c)
            && (forall x :: x in e.items && x != id ==> x in d.items && e.items[x] == d.items[x])
  {
    var kept := if id in d.items && c.startedAt < d.items[id].startedAt then d.items[id] else c;
    PutEffect(d, id, kept, capacity);
  }

  lemma StoredOrder(log: seq<Entry>, s: Store, e: Entry, capacity: nat, after: Streams)
    requires 1 <= capacity && s.d.Valid() && s.d.order == LastN(Recency(Ids(log)), capacity)
    requires after == Recorded(s.d, e.id, e.c, capacity)
    ensures after.Valid()
    ensures after.order == LastN(Recency(Ids(log + [e])), capacity)
  {
    assert Ids(log + [e]) == Ids(log) + [e.id];
    RecordedOrder(s.d, e.id, e.c, capacity, Ids(log));
  }

  lemma StoredKept(log: seq<Entry>, s: Store, e: Entry, capacity: nat, id: StreamId, after: Store)
    requires 1 <= capacity && s.d.Valid() && Kept(log, s, id)
    requires after == Stored(s, |log|, e, capacity)
    ensures Kept(log + [e], after, id)
  {
    RecordedItems(s.d, e.id, e.c, capacity);
    KeptAfter(log, s, e, after, id);
  }

  lemma KeptAfter(log: seq<Entry>, s: Store, e: Entry, after: Store, id: StreamId)
    requires Kept(log, s, id)
    requires after.since == (if e.id in s.d.items then s.since else s.since[e.id := |log|])
    requires e.id in after.d.items
    requires after.d.items[e.id]
             == if e.id in s.d.items && e.c.startedAt < s.d.items[e.id].startedAt then s.d.items[e.id] else e.c
    requires forall x :: x in after.d.items && x != e.id ==> x in s.d.items && after.d.items[x] == s.d.items[x]
    ensures Kept(log + [e], after, id)
  {
    if id in s.d.items {
      var m := s.since[id];
      assert (log + [e])[m..] == log[m..] + [e];
      BestSnoc(log[m..], e, id);
    } else {
      assert (log + [e])[|log|..] == [] + [e];
      BestSnoc([], e, id);
    }
  }

  function Later(a: Option<Coverage>, b: Option<Coverage>): Option<Coverage>
    requires b.Some?
  {
    if a.Some? && b.value.startedAt < a.value.startedAt then a else b
  }

  lemma {:induction false} BestConcat(a: seq<Entry>, b: seq<Entry>, id: StreamId)
    ensures Best(b, id) == None ==> Best(a + b, id) == Best(a, id)
    ensures Best(b, id).Some? ==> Best(a + b, id) == Later(Best(a, id), Best(b, id))
  {
    if b == [] {
      assert a + b == a;
    } else {
      var n := |b| - 1;
      BestConcat(a, b[..n], id);
      assert a + b == (a + b[..n]) + [b[n]];
      BestSnoc(a + b[..n], b[n], id);
    }
  }

  /** Which streams are held: the `capacity` most recently recorded distinct ones. */
  lemma HeldAreMostRecent(log: seq<Entry>, capacity: nat, id: StreamId)
    requires 1 <= capacity
    ensures id in StoreOf(log, capacity).d.items <==> id in LastN(Recency(Ids(log)), capacity)
  {
    StoreKept(log, capacity, id);
  }

  predicate MostRecent(log: seq<Entry>, capacity: nat, id: StreamId) {
    id in LastN(Recency(Ids(log)), capacity)
  }

  /** The position of the record that brought a stream in among the `capacity` most recently recorded ones,
      where it has been ever since; none when it is not one of them now. */
  function BroughtIn(log: seq<Entry>, capacity: nat, id: StreamId): Option<nat> {
    if log == [] || !MostRecent(log, capacity, id) then None
    else
      var before := BroughtIn(log[..|log| - 1], capacity, id);
      if before.Some? then before else Some(|log| - 1)
  }

  lemma {:induction false} BroughtInWhileMostRecent(log: seq<Entry>, capacity: nat, id: StreamId)
    ensures BroughtIn(log, capacity, id).Some? <==> MostRecent(log, capacity, id)
    ensures BroughtIn(log, capacity, id).Some? ==> BroughtIn(log, capacity, id).value < |log|
  {
    if log != [] {
      BroughtInWhileMostRecent(log[..|log| - 1], capacity, id);
    } else {
      assert Ids(log) == [];
    }
  }

  /** The stream was not among them before that position, and has been after it. */
  lemma {:induction false} BroughtInMeans(log: seq<Entry>, capacity: nat, id: StreamId, p: int)
    requires BroughtIn(log, capacity, id).Some? && 0 <= p <= |log|
    ensures var m := BroughtIn(log, capacity, id).value;
            && m < |log|
            && (p == m ==> !MostRecent(log[..p], capacity, id))
            && (m < p ==> MostRecent(log[..p], capacity, id))
  {
    var n := |log| - 1;
    BroughtInWhileMostRecent(log, capacity, id);
    BroughtInWhileMostRecent(log[..n], capacity, id);
    if p == |log| {
      assert log[..p] == log;
    } else {
      assert log[..n][..p] == log[..p];
      if BroughtIn(log[..n], capacity, id).Some? {
        BroughtInMeans(log[..n], capacity, id, p);
      }
    }
  }

  /** `since` is that position. */
  lemma {:induction false} SinceIsBroughtIn(log: seq<Entry>, capacity: nat, id: StreamId)
    requires 1 <= capacity
    ensures var s := StoreOf(log, capacity);
            && (id in s.d.items <==> BroughtIn(log, capacity, id).Some?)
            && (id in s.d.items ==> id in s.since && BroughtIn(log, capacity, id) == Some(s.since[id]))
  {
    HeldAreMostRecent(log, capacity, id);
    BroughtInWhileMostRecent(log, capacity, id);
    if id in StoreOf(log, capacity).d.items {
      var n := |log| - 1;
      SinceIsBroughtIn(log[..n], capacity, id);
      StoreKept(log[..n], capacity, id);
      SinceOfLast(n, log[n], capacity, id, StoreOf(log[..n], capacity), StoreOf(log, capacity));
    }
  }

  /** A record moves `since` only for its own stream, and only when that was not held. */
  lemma SinceOfLast(n: nat, e: Entry, capacity: nat, id: StreamId, before: Store, after: Store)
    requires 1 <= capacity && before.d.Valid() && (id in before.d.items ==> id in before.since)
    requires after == Stored(before, n, e, capacity) && id in after.d.items
    ensures id in before.d.items ==> id in after.since && after.since[id] == before.since[id]
    ensures id !in before.d.items ==> id in after.since && after.since[id] == n && e.id == id
  {
    RecordedItems(before.d, e.id, e.c, capacity);
  }

  /** No record of the stream before `m` started later than all its records from `m` on. */
  ghost predicate NothingLaterBefore(log: seq<Entry>, id: StreamId, m: nat) {
    forall i :: 0 <= i < m && i < |log| && log[i].id == id ==>
      exists j :: m <= j < |log| && log[j].id == id && log[i].c.startedAt <= log[j].c.startedAt
  }

  /** For a stream that is held, the store agrees with the unbounded map exactly when nothing recorded for it
      before it was last brought in started later than everything recorded for it since. */
  lemma AgreesWithUnboundedIff(log: seq<Entry>, capacity: nat, id: StreamId)
    requires 1 <= capacity && BroughtIn(log, capacity, id).Some?
    ensures id in StoreOf(log, capacity).d.items
    ensures Best(log, id) == Some(StoreOf(log, capacity).d.items[id])
            <==> NothingLaterBefore(log, id, BroughtIn(log, capacity, id).value)
  {
    SinceIsBroughtIn(log, capacity, id);
    StoreKept(log, capacity, id);
    var s := StoreOf(log, capacity);
    BestSinceIff(log, s.since[id], id, s.d.items[id]);
    LatestSince(log, id, s.since[id], s.d.items[id]);
  }

  lemma LatestSince(log: seq<Entry>, id: StreamId, m: nat, c: Coverage)
    requires m <= |log| && Best(log[m..], id) == Some(c)
    ensures NothingLaterBefore(log, id, m)
            <==> forall i :: 0 <= i < m && log[i].id == id ==> log[i].c.startedAt <= c.startedAt
  {
    BestIsLatest(log[m..], id);
    var k :| 0 <= k < |log[m..]| && log[m..][k] == Entry(id, c);
    assert log[m + k] == Entry(id, c);
    forall j | m <= j < |log| && log[j].id == id ensures log[j].c.startedAt <= c.startedAt {
      assert log[m..][j - m] == log[j];
    }
  }

  /** What is best from `m` on is best of all exactly when nothing before `m` started later. */
  lemma BestSinceIff(log: seq<Entry>, m: nat, id: StreamId, c: Coverage)
    requires m <= |log| && Best(log[m..], id) == Some(c)
    ensures Best(log, id) == Some(c)
            <==> forall i :: 0 <= i < m && log[i].id == id ==> log[i].c.startedAt <= c.startedAt
  {
    assert log == log[..m] + log[m..];
    BestConcat(log[..m], log[m..], id);
    BestIsLatest(log[..m], id);
    assert forall i :: 0 <= i < m ==> log[..m][i] == log[i];
    if Best(log[..m], id).Some? {
      var i :| 0 <= i < m && log[..m][i] == Entry(id, Best(log[..m], id).value);
      assert log[i].id == id;
    }
  }

  /** In particular, when each stream's starts never go back, the store gives the unbounded map's answer
      for the `capacity` most recently recorded streams. */
  lemma AgreesWhenStartsOrdered(log: seq<Entry>, capacity: nat, id: StreamId)
    requires 1 <= capacity && id in LastN(Recency(Ids(log)), capacity)
    requires forall i, j :: 0 <= i < j < |log| && log[i].id == id && log[j].id == id ==>
        log[i].c.startedAt <= log[j].c.startedAt
    ensures id in StoreOf(log, capacity).d.items && Some(StoreOf(log, capacity).d.items[id]) == Best(log, id)
  {
    HeldAreMostRecent(log, capacity, id);
    SinceIsBroughtIn(log, capacity, id);
    AgreesWithUnboundedIff(log, capacity, id);
    var j := HeldIsRecorded(log, capacity, id);
    assert forall i :: 0 <= i < j && log[i].id == id ==> log[i].c.startedAt <= log[j].c.startedAt;
  }

  /** What is held was recorded, at or after the position that brought its stream in. */
  lemma HeldIsRecorded(log: seq<Entry>, capacity: nat, id: StreamId) returns (j: nat)
    requires 1 <= capacity && id in StoreOf(log, capacity).d.items
    ensures var s := StoreOf(log, capacity);
            id in s.since && s.since[id] <= j < |log| && log[j] == Entry(id, s.d.items[id])
  {
    StoreKept(log, capacity, id);
    var s := StoreOf(log, capacity);
    var m := s.since[id];
    BestIsLatest(log[m..], id);
    var k :| 0 <= k < |log[m..]| && log[m..][k] == Entry(id, s.d.items[id]);
    j := m + k;
  }

  /** Without that, eviction can lose a later start: with one slot, any stream evicted by another and then
      recorded again from an attempt that had started earlier. */
  lemma EvictionCanForgetLaterStart(e1: Entry, e2: Entry, e3: Entry)
    requires e1.id == e3.id != e2.id && e3.c.startedAt < e1.c.startedAt
    ensures var s := StoreOf([e1, e2, e3], 1);
            e1.id in s.d.items && s.d.items[e1.id] == e3.c && Best([e1, e2, e3], e1.id) == Some(e1.c)
  {
    var a := e1.id;
    assert [e1, e2, e3][..2] == [e1, e2];
    var before := StoreOf([e1, e2], 1).d;
    OnlyTheSecond(e1, e2);
    StoreKept([e1, e2], 1, a);
    RecordedItems(before, a, e3.c, 1);
    BestOfThree(e1, e2, e3);
  }

  lemma BestOfThree(e1: Entry, e2: Entry, e3: Entry)
    requires e1.id == e3.id != e2.id && e3.c.startedAt < e1.c.startedAt
    ensures Best([e1, e2, e3], e1.id) == Some(e1.c)
  {
    BestSnoc([], e1, e1.id);
    BestSnoc([e1], e2, e1.id);
    BestSnoc([e1, e2], e3, e1.id);
    assert [] + [e1] == [e1] && [e1] + [e2] == [e1, e2] && [e1, e2] + [e3] == [e1, e2, e3];
  }

  lemma OnlyTheSecond(e1: Entry, e2: Entry)
    requires e1.id != e2.id
    ensures e1.id !in StoreOf([e1, e2], 1).d.items
  {
    var a, b := e1.id, e2.id;
    StoreKept([e1, e2], 1, a);
    assert Ids([e1, e2]) == [a, b];
    assert [a, b][..1] == [a];
    assert Recency([a]) == Without(Recency<StreamId>([]), a) + [a] == [a];
    assert Recency([a, b]) == Without([a], b) + [b] == [a, b];
    assert LastN([a, b], 1) == [b];
  }

  /** With no more distinct streams than slots the store is the unbounded map. */
  lemma {:induction false} NoEvictionIsUnbounded(log: seq<Entry>, capacity: nat, id: StreamId)
    requires 1 <= capacity && |Recency(Ids(log))| <= capacity
    ensures var d := StoreOf(log, capacity).d;
            Best(log, id) == if id in d.items then Some(d.items[id]) else None
  {
    if log != [] {
      var n := |log| - 1;
      OneFewer(log);
      NoEvictionIsUnbounded(log[..n], capacity, id);
      StoreKept(log[..n], capacity, id);
      RecordedItems(StoreOf(log[..n], capacity).d, log[n].id, log[n].c, capacity);
      AllHeld(log[..n], capacity, id);
      AllHeld(log, capacity, id);
      MembersSnoc(log, id);
    }
  }

  /** One record fewer is no more streams. */
  lemma OneFewer(log: seq<Entry>)
    requires log != []
    ensures |Recency(Ids(log[..|log| - 1]))| <= |Recency(Ids(log))|
  {
    var n := |log| - 1;
    assert Ids(log)[..n] == Ids(log[..n]);
    RecencyNoDup(Ids(log[..n]));
    WithoutNoDup(Recency(Ids(log[..n])), log[n].id);
  }

  lemma AllHeld(log: seq<Entry>, capacity: nat, id: StreamId)
    requires 1 <= capacity && |Recency(Ids(log))| <= capacity
    ensures id in StoreOf(log, capacity).d.items <==> id in Ids(log)
  {
    HeldAreMostRecent(log, capacity, id);
    RecencyNoDup(Ids(log));
  }

  lemma MembersSnoc(log: seq<Entry>, id: StreamId)
    requires log != []
    ensures id in Ids(log) <==> id in Ids(log[..|log| - 1]) || id == log[|log| - 1].id
  {
    var n := |log| - 1;
    assert Ids(log) == Ids(log[..n]) + [log[n].id];
  }

  /** Every hit is sound: some completed wake of that agent, on that stream, started strictly after the
      event happened. */
  lemma HitsAreSound(log: seq<Entry>, capacity: nat, agent: string, event: Event)
    requires 1 <= capacity && Covering(StoreOf(log, capacity).d, agent, event).Some?
    ensures var c := Covering(StoreOf(log, capacity).d, agent, event).value;
            && event.occurredAt.Some? && event.occurredAt.value < c.startedAt
            && exists i :: 0 <= i < |log| && log[i] == Entry((agent, event.StreamKey()), c)
  {
    var j := HeldIsRecorded(log, capacity, (agent, event.StreamKey()));
  }

  /** While a stream is held, its start only moves forward. */
  lemma StartsMoveForward(d: Streams, id: StreamId, c: Coverage, capacity: nat, other: StreamId)
    requires d.Valid() && 1 <= capacity
    requires other in d.items && other in Recorded(d, id, c, capacity).items
    ensures d.items[other].startedAt <= Recorded(d, id, c, capacity).items[other].startedAt
    ensures other == id ==> c.startedAt <= Recorded(d, id, c, capacity).items[other].startedAt
  {
    PutEffect(d, id, if id in d.items && c.startedAt < d.items[id].startedAt then d.items[id] else c, capacity);
  }
}
