/**
 The wake scheduler's lock-guarded state, and what each of its locked sections does to it
 (src/basecradle_router/scheduler.py). The executor's work queue is part of the state, because
 `_pump_locked` appends to it inside the lock.
 */
module SchedulerState {
  import opened Common

  type Key = string   // an agent's harness key
  type Job = int      // the identity of one queued wake

  datatype State = State(
    queues: map<Key, seq<Job>>,
    ready: seq<Key>,
    readySet: set<Key>,
    inflight: set<Key>,
    pool: seq<(Key, Job)>,
    notifying: int,
    notifySeq: map<Key, int>,
    notifyTurn: map<Key, int>,
    saturated: bool)

  const EMPTY := State(map[], [], {}, {}, [], 0, map[], map[], false)

  function Queue(s: State, k: Key): seq<Job> {
    if k in s.queues then s.queues[k] else []
  }

  function Pending(s: State, k: Key): nat {
    |Queue(s, k)| + if k in s.inflight then 1 else 0
  }

  /** `_notify_turn.get(key, 0)`. */
  function Turn(s: State, k: Key): int {
    if k in s.notifyTurn then s.notifyTurn[k] else 0
  }

  /** What holds of the scheduling fields at every point inside a locked section. */
  ghost predicate Shape(s: State, lanes: nat) {
    && NoDup(s.ready)
    && s.readySet == SetOf(s.ready)
    && s.readySet !! s.inflight
    && (forall k :: k in s.queues ==> s.queues[k] != [] && (k in s.readySet || k in s.inflight))
    && (forall k :: k in s.readySet ==> k in s.queues)
    && |s.inflight| <= lanes
  }

  /** What holds between locked sections: the lanes are all busy whenever an agent waits. */
  ghost predicate Valid(s: State, lanes: nat) {
    && Shape(s, lanes)
    && (s.ready != [] ==> |s.inflight| == lanes)
    && s.saturated == (s.ready != [])
  }

  function Append(s: State, k: Key): State {
    s.(ready := s.ready + [k], readySet := s.readySet + {k})
  }

  /** One pass of the pump: the head ready agent's head job goes to the pool. */
  function DispatchHead(s: State): State
    requires s.ready != [] && Queue(s, s.ready[0]) != []
  {
    var k := s.ready[0];
    var q := s.queues[k];
    s.(ready := s.ready[1..],
       readySet := s.readySet - {k},
       queues := if |q| == 1 then s.queues - {k} else s.queues[k := q[1..]],
       inflight := s.inflight + {k},
       pool := s.pool + [(k, q[0])])
  }

  lemma DispatchHeadKeepsShape(s: State, lanes: nat)
    requires Shape(s, lanes) && s.ready != [] && |s.inflight| < lanes
    ensures Shape(DispatchHead(s), lanes)
  {
    var k, t := s.ready[0], DispatchHead(s);
    assert k in s.readySet;
    forall x ensures x in t.readySet <==> x in t.ready {
      assert x in s.ready ==> x == k || x in s.ready[1..];
    }
  }

  /** `_pump_locked`: dispatch onto free lanes in ready order, then note saturation. */
  function Pump(s: State, lanes: nat): State
    requires Shape(s, lanes)
    decreases |s.ready|
  {
    if |s.inflight| < lanes && s.ready != [] then
      DispatchHeadKeepsShape(s, lanes);
      Pump(DispatchHead(s), lanes)
    else s.(saturated := |s.inflight| >= lanes && s.ready != [])
  }

  /** How many agents one pump dispatches. */
  function Dispatches(s: State, lanes: nat): (n: int)
    requires |s.inflight| <= lanes
    ensures 0 <= n <= |s.ready|
  {
    if lanes - |s.inflight| < |s.ready| then lanes - |s.inflight| else |s.ready|
  }

  /** Ticket `i` of the agent has been taken and not settled. */
  ghost predicate TicketOut(s: State, k: Key, i: int) {
    k in s.notifySeq && Turn(s, k) <= i < s.notifySeq[k]
  }

  /** `_claim_notification_locked`: the ticket taken, and the state after. */
  function Claim(s: State, k: Key): (State, int) {
    var ticket := if k in s.notifySeq then s.notifySeq[k] else 0;
    (s.(notifySeq := s.notifySeq[k := ticket + 1], notifying := s.notifying + 1), ticket)
  }

  /** `submit`'s scheduling half, up to the pump. */
  function Enqueued(s: State, k: Key, j: Job): State {
    var t := s.(queues := s.queues[k := Queue(s, k) + [j]]);
    if k !in t.inflight && k !in t.readySet then Append(t, k) else t
  }

  /** `_run_job`'s post-wake bookkeeping, up to the pump. */
  function Released(s: State, k: Key): State {
    var t := s.(inflight := s.inflight - {k});
    if Queue(t, k) != [] && k !in t.readySet then Append(t, k) else t
  }

  /** `_deliver_queue_change`'s closing section. */
  function Settled(s: State, k: Key, ticket: int): State {
    var turn := ticket + 1;
    (if k in s.notifySeq && turn == s.notifySeq[k]
     then s.(notifySeq := s.notifySeq - {k}, notifyTurn := s.notifyTurn - {k})
     else s.(notifyTurn := s.notifyTurn[k := turn])).(notifying := s.notifying - 1)
  }

  predicate Idle(s: State) {
    s.inflight == {} && s.ready == [] && s.notifying == 0
  }

  // ---------------------------------------------------------------- what a pump does

  /** Everything the scheduler still has to start for an agent: its pool entries, then its queue. */
  function Owed(s: State, k: Key): seq<Job> {
    Of(s.pool, k) + Queue(s, k)
  }

  lemma DispatchHeadOwes(s: State, lanes: nat, k: Key)
    requires Shape(s, lanes) && s.ready != []
    ensures Owed(DispatchHead(s), k) == Owed(s, k)
    ensures Pending(DispatchHead(s), k) == Pending(s, k)
  {
    var h, u := s.ready[0], DispatchHead(s);
    assert h in s.readySet;
    OfSnoc(s.pool, (h, s.queues[h][0]), k);
    if k == h {
      assert s.queues[h] == [s.queues[h][0]] + Queue(u, h);
    }
  }

  lemma DispatchesStep(s: State, lanes: nat)
    requires Shape(s, lanes) && s.ready != [] && |s.inflight| < lanes
    ensures |DispatchHead(s).inflight| <= lanes
    ensures Dispatches(s, lanes) == 1 + Dispatches(DispatchHead(s), lanes)
  {
    assert s.ready[0] in s.readySet;
  }

  /** The pump in closed form, first part: the front of the ready queue leaves it, in order. */
  lemma {:induction false} PumpTakesTheFront(s: State, lanes: nat)
    requires Shape(s, lanes)
    ensures Pump(s, lanes).ready == s.ready[Dispatches(s, lanes)..]
    decreases |s.ready|
  {
    if |s.inflight| < lanes && s.ready != [] {
      DispatchHeadKeepsShape(s, lanes);
      DispatchesStep(s, lanes);
      PumpTakesTheFront(DispatchHead(s), lanes);
    }
  }

  /** Second part: exactly the agents that left it take a lane. */
  lemma {:induction false} PumpFillsLanes(s: State, lanes: nat, k: Key)
    requires Shape(s, lanes)
    ensures k in Pump(s, lanes).inflight <==> k in s.inflight || (k in s.readySet && k !in Pump(s, lanes).readySet)
    ensures k in Pump(s, lanes).readySet ==> k in s.readySet
    decreases |s.ready|
  {
    if |s.inflight| < lanes && s.ready != [] {
      DispatchHeadKeepsShape(s, lanes);
      assert s.ready[0] in s.readySet;
      PumpFillsLanes(DispatchHead(s), lanes, k);
      PumpIsValid(DispatchHead(s), lanes);
    }
  }

  lemma FeedOne(pool: seq<(Key, Job)>, task: (Key, Job), ready: seq<Key>, n: int, keys: seq<Key>)
    requires ready != [] && task.0 == ready[0] && 0 <= n < |ready|
    requires keys == KeysOf(pool + [task]) + ready[1..][..n]
    ensures keys == KeysOf(pool) + ready[..n + 1]
  {
    KeysOfConcat(pool, [task]);
    assert KeysOf([task]) == [ready[0]];
    assert ready[..n + 1] == [ready[0]] + ready[1..][..n];
  }

  /** Third part: and each of them has one job join the pool, in the same order. */
  lemma {:induction false} PumpFeedsPool(s: State, lanes: nat)
    requires Shape(s, lanes)
    ensures KeysOf(Pump(s, lanes).pool) == KeysOf(s.pool) + s.ready[..Dispatches(s, lanes)]
    decreases |s.ready|
  {
    if |s.inflight| < lanes && s.ready != [] {
      DispatchHeadKeepsShape(s, lanes);
      DispatchesStep(s, lanes);
      var u := DispatchHead(s);
      var n := Dispatches(u, lanes);
      PumpFeedsPool(u, lanes);
      FeedOne(s.pool, u.pool[|s.pool|], s.ready, n, KeysOf(Pump(u, lanes).pool));
    }
  }

  lemma {:induction false} PumpIsValid(s: State, lanes: nat)
    requires Shape(s, lanes)
    ensures Valid(Pump(s, lanes), lanes)
    decreases |s.ready|
  {
    if |s.inflight| < lanes && s.ready != [] {
      DispatchHeadKeepsShape(s, lanes);
      PumpIsValid(DispatchHead(s), lanes);
    }
  }

  /** A pump loses nothing, reorders no agent's work and changes no pending count. */
  lemma {:induction false} PumpConserves(s: State, lanes: nat, k: Key)
    requires Shape(s, lanes)
    ensures var t := Pump(s, lanes);
            && Owed(t, k) == Owed(s, k)
            && Pending(t, k) == Pending(s, k)
            && s.pool <= t.pool
            && t.notifying == s.notifying && t.notifySeq == s.notifySeq && t.notifyTurn == s.notifyTurn
    decreases |s.ready|
  {
    if |s.inflight| < lanes && s.ready != [] {
      DispatchHeadKeepsShape(s, lanes);
      DispatchHeadOwes(s, lanes, k);
      PumpConserves(DispatchHead(s), lanes, k);
    }
  }

  lemma EnqueuedShape(s: State, lanes: nat, k: Key, j: Job)
    requires Valid(s, lanes)
    ensures Shape(Enqueued(s, k, j), lanes)
  {
  }

  lemma ReleasedShape(s: State, lanes: nat, k: Key)
    requires Valid(s, lanes) && k in s.inflight
    ensures Shape(Released(s, k), lanes)
  {
    SubsetSize(s.inflight - {k}, s.inflight);
  }

  /** `submit`'s whole locked section: the new state, the count read and the ticket taken. */
  function Submitted(s: State, lanes: nat, k: Key, j: Job): (State, nat, int)
    requires Valid(s, lanes)
  {
    EnqueuedShape(s, lanes, k, j);
    var t := Pump(Enqueued(s, k, j), lanes);
    var (u, ticket) := Claim(t, k);
    (u, Pending(t, k), ticket)
  }

  /** `_run_job`'s whole locked section. */
  function Completed(s: State, lanes: nat, k: Key): (State, nat, int)
    requires Valid(s, lanes) && k in s.inflight
  {
    ReleasedShape(s, lanes, k);
    var t := Pump(Released(s, k), lanes);
    var (u, ticket) := Claim(t, k);
    (u, Pending(t, k), ticket)
  }

  /** Whom a submission makes ready. */
  function NewlyReady(s: State, k: Key): seq<Key> {
    if k !in s.inflight && k !in s.readySet then [k] else []
  }

  /** Whom a completion puts back, behind everyone already waiting. */
  function ReEntering(s: State, k: Key): seq<Key> {
    if Queue(s, k) != [] then [k] else []
  }

  /** What a pump does for the agents: the order of dispatch is the ready order, every agent in
      flight has exactly one job in the pool or on a thread, and nothing else moves. */
  ghost predicate PumpSummary(s: State, t: State, lanes: nat) {
    && Valid(t, lanes)
    && KeysOf(t.pool) + t.ready == KeysOf(s.pool) + s.ready
    && s.pool <= t.pool
    && (forall k :: k in t.inflight <==> k in s.inflight || k in KeysOf(t.pool[|s.pool|..]))
    && (forall k :: k in KeysOf(t.pool[|s.pool|..]) ==> k in s.readySet)
    && NoDup(KeysOf(t.pool[|s.pool|..]))
    && t.notifying == s.notifying && t.notifySeq == s.notifySeq && t.notifyTurn == s.notifyTurn
  }

  lemma PumpSummarized(s: State, lanes: nat)
    requires Shape(s, lanes)
    ensures PumpSummary(s, Pump(s, lanes), lanes)
  {
    PumpIsValid(s, lanes);
    PumpTakesTheFront(s, lanes);
    PumpFeedsPool(s, lanes);
    PumpConserves(s, lanes, "");
    forall k
      ensures k in Pump(s, lanes).inflight <==> k in s.inflight || (k in s.readySet && k !in Pump(s, lanes).readySet) {
      PumpFillsLanes(s, lanes, k);
    }
    SummaryOf(s, Pump(s, lanes), lanes, Dispatches(s, lanes));
  }

  lemma SummaryOf(s: State, t: State, lanes: nat, n: nat)
    requires Shape(s, lanes) && Valid(t, lanes) && n <= |s.ready|
    requires t.ready == s.ready[n..]
    requires forall k :: k in t.inflight <==> k in s.inflight || (k in s.readySet && k !in t.readySet)
    requires s.pool <= t.pool && KeysOf(t.pool) == KeysOf(s.pool) + s.ready[..n]
    requires t.notifying == s.notifying && t.notifySeq == s.notifySeq && t.notifyTurn == s.notifyTurn
    ensures PumpSummary(s, t, lanes)
  {
    KeysOfSuffix(s.pool, t.pool, s.ready[..n]);
    assert KeysOf(t.pool) + t.ready == KeysOf(s.pool) + s.ready by {
      assert s.ready == s.ready[..n] + s.ready[n..];
    }
    var front := KeysOf(t.pool[|s.pool|..]);
    FrontIsGone(s.ready, n, front);
  }

  lemma FrontIsGone(r: seq<Key>, n: nat, front: seq<Key>)
    requires NoDup(r) && n <= |r| && front == r[..n]
    ensures NoDup(front) && forall k :: k in front <==> k in r && k !in r[n..]
  {
    forall k ensures k in front <==> k in r && k !in r[n..] {
      FrontOrBack(r, n, k);
    }
  }

  lemma FrontOrBack(r: seq<Key>, n: nat, k: Key)
    requires NoDup(r) && n <= |r|
    ensures k in r[..n] <==> k in r && k !in r[n..]
  {
    if k in r {
      var i :| 0 <= i < |r| && r[i] == k;
      if i < n { assert r[..n][i] == k; } else { assert r[n..][i - n] == k; }
    }
  }

  /** What one locked section of `submit` or `_run_job` does, apart from the counts: `entering` joined
      the ready queue, `released` gave up its lane, and the rest is the pump. */
  ghost predicate Section(s: State, u: State, lanes: nat, entering: seq<Key>, released: set<Key>) {
    && Valid(u, lanes)
    && KeysOf(u.pool) + u.ready == KeysOf(s.pool) + s.ready + entering
    && s.pool <= u.pool
    && (forall x :: x in u.inflight <==> (x in s.inflight && x !in released) || x in KeysOf(u.pool[|s.pool|..]))
    && (forall x :: x in KeysOf(u.pool[|s.pool|..]) ==> x !in s.inflight || x in released)
    && NoDup(KeysOf(u.pool[|s.pool|..]))
  }

  /** `_claim_notification_locked`'s effect on the ticket fields. */
  ghost predicate Claimed(s: State, u: State, k: Key, ticket: int) {
    && ticket == (if k in s.notifySeq then s.notifySeq[k] else 0)
    && u.notifySeq == s.notifySeq[k := ticket + 1]
    && u.notifyTurn == s.notifyTurn
    && u.notifying == s.notifying + 1
  }

  lemma EnqueuedSection(s: State, lanes: nat, k: Key, j: Job, t: State)
    requires Valid(s, lanes) && PumpSummary(Enqueued(s, k, j), t, lanes)
    ensures Section(s, t, lanes, NewlyReady(s, k), {})
  {
    var m := Enqueued(s, k, j);
    assert KeysOf(s.pool) + s.ready + NewlyReady(s, k) == KeysOf(s.pool) + m.ready;
  }

  lemma ReleasedSection(s: State, lanes: nat, k: Key, t: State)
    requires Valid(s, lanes) && k in s.inflight && PumpSummary(Released(s, k), t, lanes)
    ensures Section(s, t, lanes, ReEntering(s, k), {k})
  {
    var m := Released(s, k);
    assert KeysOf(s.pool) + s.ready + ReEntering(s, k) == KeysOf(s.pool) + m.ready;
  }

  lemma ClaimEffect(t: State, k: Key)
    ensures var (u, ticket) := Claim(t, k);
            && Claimed(t, u, k, ticket)
            && u == t.(notifySeq := u.notifySeq, notifying := u.notifying)
            && (forall x :: Owed(u, x) == Owed(t, x) && Pending(u, x) == Pending(t, x))
  {
  }

  lemma SubmittedEffect(s: State, lanes: nat, k: Key, j: Job)
    requires Valid(s, lanes)
    ensures var (u, pending, ticket) := Submitted(s, lanes, k, j);
            && Section(s, u, lanes, NewlyReady(s, k), {})
            && Claimed(s, u, k, ticket)
            && pending == Pending(u, k)
  {
    EnqueuedShape(s, lanes, k, j);
    PumpSummarized(Enqueued(s, k, j), lanes);
    EnqueuedSection(s, lanes, k, j, Pump(Enqueued(s, k, j), lanes));
    ClaimEffect(Pump(Enqueued(s, k, j), lanes), k);
  }

  lemma EnqueuedOwes(s: State, lanes: nat, k: Key, j: Job, x: Key)
    ensures var m := Enqueued(s, k, j);
            && Owed(m, x) == Owed(s, x) + (if x == k then [j] else [])
            && Pending(m, x) == Pending(s, x) + (if x == k then 1 else 0)
  {
    assert x == k ==> Of(s.pool, x) + (Queue(s, x) + [j]) == Owed(s, x) + [j];
  }

  /** A submission adds one job at the back of its agent's work, and nothing to any other's. */
  lemma SubmittedOwes(s: State, lanes: nat, k: Key, j: Job, x: Key)
    requires Valid(s, lanes)
    ensures var u := Submitted(s, lanes, k, j).0;
            && Owed(u, x) == Owed(s, x) + (if x == k then [j] else [])
            && Pending(u, x) == Pending(s, x) + (if x == k then 1 else 0)
  {
    EnqueuedShape(s, lanes, k, j);
    EnqueuedOwes(s, lanes, k, j, x);
    PumpConserves(Enqueued(s, k, j), lanes, x);
    ClaimEffect(Pump(Enqueued(s, k, j), lanes), k);
  }

  lemma CompletedEffect(s: State, lanes: nat, k: Key)
    requires Valid(s, lanes) && k in s.inflight
    ensures var (u, pending, ticket) := Completed(s, lanes, k);
            && Section(s, u, lanes, ReEntering(s, k), {k})
            && Claimed(s, u, k, ticket)
            && pending == Pending(u, k)
  {
    ReleasedShape(s, lanes, k);
    PumpSummarized(Released(s, k), lanes);
    ReleasedSection(s, lanes, k, Pump(Released(s, k), lanes));
    ClaimEffect(Pump(Released(s, k), lanes), k);
  }

  lemma ReleasedOwes(s: State, k: Key, x: Key)
    requires k in s.inflight
    ensures Owed(Released(s, k), x) == Owed(s, x)
    ensures Pending(Released(s, k), x) == Pending(s, x) - (if x == k then 1 else 0)
  {
  }

  /** A completion takes nothing from any agent's remaining work; it pays off one pending wake. */
  lemma CompletedOwes(s: State, lanes: nat, k: Key, x: Key)
    requires Valid(s, lanes) && k in s.inflight
    ensures var u := Completed(s, lanes, k).0;
            && Owed(u, x) == Owed(s, x)
            && Pending(u, x) == Pending(s, x) - (if x == k then 1 else 0)
  {
    ReleasedShape(s, lanes, k);
    ReleasedOwes(s, k, x);
    PumpConserves(Released(s, k), lanes, x);
    ClaimEffect(Pump(Released(s, k), lanes), k);
  }
}
