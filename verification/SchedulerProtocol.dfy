/**
 The scheduler as a transition system over its threads: submitters, and `lanes` pool threads that
 run wakes and then deliver queue-change notices outside the lock. A pool thread frees its agent's
 lane before it delivers, so a dispatched job can wait in the executor's queue for a thread.
 */
module SchedulerProtocol {
  import opened Common
  import opened SchedulerState

  /** What `_deliver_queue_change` was called with. */
  datatype Notice = Notice(key: Key, pending: nat, ticket: int)

  datatype Thread =
    | Free                          // a pool thread with nothing to do
    | Running(key: Key, job: Job)   // inside `run`, holding the agent's lock guard
    | Waiting(n: Notice)            // in `wait_for`, for its ticket's turn
    | Calling(n: Notice)            // inside the observer
    | Told(n: Notice)               // the observer has the count; not settled yet
  {
    predicate HasNotice() { Waiting? || Calling? || Told? }
  }

  /** The whole system. Threads `0..lanes` are the pool's; every other thread is a submitter, present
      only while its notice is outstanding. The logs record the run so far. */
  datatype System = System(
    lanes: nat,
    s: State,
    threads: map<nat, Thread>,
    submitted: seq<(Key, Job)>,
    started: seq<(Key, Job)>,
    finished: seq<(Key, Job)>,
    entered: seq<Key>,              // every entry into `_ready`, in order
    claimed: seq<(Key, nat)>,       // every count read for a notice, in order
    told: seq<(Key, nat)>)          // every count the observer was handed, in order

  datatype Step =
    | Submit(t: nat, key: Key, job: Job)
    | Start(t: nat)
    | Finish(t: nat)
    | Begin(t: nat)
    | Observe(t: nat)
    | Settle(t: nat)

  function FreePool(n: nat): (pool: map<nat, Thread>)
    ensures forall t: nat :: t in pool <==> t < n
    ensures forall t :: t in pool ==> pool[t] == Free
  {
    if n == 0 then map[] else FreePool(n - 1)[n - 1 := Free]
  }

  function Init(lanes: nat): System {
    System(lanes, EMPTY, FreePool(lanes), [], [], [], [], [], [])
  }

  predicate Enabled(x: System, step: Step) {
    match step
    case Submit(t, _, _) => t >= x.lanes && t !in x.threads
    case Start(t) => t in x.threads && x.threads[t].Free? && x.s.pool != []
    case Finish(t) => t in x.threads && x.threads[t].Running?
    case Begin(t) => t in x.threads && x.threads[t].Waiting? && Turn(x.s, x.threads[t].n.key) == x.threads[t].n.ticket
    case Observe(t) => t in x.threads && x.threads[t].Calling?
    case Settle(t) => t in x.threads && x.threads[t].Told?
  }

  /** Enough of the invariant for every enabled step to be defined. */
  ghost predicate Steppable(x: System) {
    && Valid(x.s, x.lanes)
    && forall t :: t in x.threads && x.threads[t].Running? ==> x.threads[t].key in x.s.inflight
  }

  function Next(x: System, step: Step): System
    requires Steppable(x) && Enabled(x, step)
  {
    match step
    case Submit(t, k, j) =>
      var (u, pending, ticket) := Submitted(x.s, x.lanes, k, j);
      x.(s := u,
         threads := x.threads[t := Waiting(Notice(k, pending, ticket))],
         submitted := x.submitted + [(k, j)],
         entered := x.entered + NewlyReady(x.s, k),
         claimed := x.claimed + [(k, pending)])
    case Start(t) =>
      var task := x.s.pool[0];
      x.(s := x.s.(pool := x.s.pool[1..]),
         threads := x.threads[t := Running(task.0, task.1)],
         started := x.started + [task])
    case Finish(t) =>
      var k, j := x.threads[t].key, x.threads[t].job;
      var (u, pending, ticket) := Completed(x.s, x.lanes, k);
      x.(s := u,
         threads := x.threads[t := Waiting(Notice(k, pending, ticket))],
         finished := x.finished + [(k, j)],
         entered := x.entered + ReEntering(x.s, k),
         claimed := x.claimed + [(k, pending)])
    case Begin(t) => x.(threads := x.threads[t := Calling(x.threads[t].n)])
    case Observe(t) =>
      var n := x.threads[t].n;
      x.(threads := x.threads[t := Told(n)], told := x.told + [(n.key, n.pending)])
    case Settle(t) =>
      var n := x.threads[t].n;
      x.(s := Settled(x.s, n.key, n.ticket),
         threads := if t < x.lanes then x.threads[t := Free] else x.threads - {t})
  }

  // ---------------------------------------------------------------- the invariant, part by part

  /** The pool has its `lanes` threads, and every other thread is delivering. */
  ghost predicate Staffed(x: System) {
    && (forall w: nat :: w < x.lanes ==> w in x.threads)
    && (forall t :: t in x.threads && x.lanes <= t ==> x.threads[t].HasNotice())
  }

  ghost predicate Runs(x: System, t: nat, k: Key) {
    t in x.threads && x.threads[t].Running? && x.threads[t].key == k
  }

  /** Every agent in flight has its one job in exactly one place: the pool's queue or one thread. */
  ghost predicate Placed(x: System) {
    && NoDup(KeysOf(x.s.pool))
    && (forall k :: k in KeysOf(x.s.pool) ==> k in x.s.inflight)
    && (forall t, k :: Runs(x, t, k) ==> k in x.s.inflight && k !in KeysOf(x.s.pool))
    && (forall t1, t2, k :: Runs(x, t1, k) && Runs(x, t2, k) ==> t1 == t2)
    && (forall k :: k in x.s.inflight ==> k in KeysOf(x.s.pool) || exists t :: Runs(x, t, k))
  }

  /** Per agent, what was started plus what is still owed is exactly what was submitted, in order;
      and what was started is what was finished plus the one wake running. */
  ghost predicate Conserved(x: System) {
    && (forall k :: Of(x.started, k) + Owed(x.s, k) == Of(x.submitted, k))
    && (forall t, k :: Runs(x, t, k) ==> Of(x.started, k) == Of(x.finished, k) + [x.threads[t].job])
    && (forall k :: (forall t :: !Runs(x, t, k)) ==> Of(x.started, k) == Of(x.finished, k))
  }

  /** Round robin: agents are dispatched in exactly the order they became ready. */
  ghost predicate Fifo(x: System) {
    x.entered == KeysOf(x.started) + KeysOf(x.s.pool) + x.s.ready
  }

  /** Thread `t` carries the notice with ticket `i` for agent `k`. */
  ghost predicate Holds(x: System, t: nat, k: Key, i: int) {
    t in x.threads && x.threads[t].HasNotice() && x.threads[t].n.key == k && x.threads[t].n.ticket == i
  }

  ghost predicate Outstanding(x: System, k: Key, i: int) {
    TicketOut(x.s, k, i)
  }

  ghost function Notifiers(x: System): set<nat> {
    set t | t in x.threads && x.threads[t].HasNotice()
  }

  /** The outstanding tickets of an agent are exactly `turn .. seq - 1`, one thread each, and only
      the holder of the turn can be inside the observer. */
  ghost predicate Ticketed(x: System) {
    && (forall k :: k in x.s.notifyTurn ==> k in x.s.notifySeq)
    && (forall k :: k in x.s.notifySeq ==> 0 <= Turn(x.s, k) < x.s.notifySeq[k])
    && (forall t, k, i :: Holds(x, t, k, i) ==> Outstanding(x, k, i))
    && (forall t, k, i :: Holds(x, t, k, i) && !x.threads[t].Waiting? ==> i == Turn(x.s, k))
    && (forall t1, t2, k, i :: Holds(x, t1, k, i) && Holds(x, t2, k, i) ==> t1 == t2)
    && (forall k, i :: Outstanding(x, k, i) ==> exists t :: Holds(x, t, k, i))
    && x.s.notifying == |Notifiers(x)|
  }

  /** Position, in the agent's claim log, of the claim that took ticket 0 of the current pair. */
  ghost function Base(x: System, k: Key): int {
    |Of(x.claimed, k)| - if k in x.s.notifySeq then x.s.notifySeq[k] else 0
  }

  /** Every outstanding notice carries the count its ticket was claimed with. */
  ghost predicate Carried(x: System) {
    && (forall k :: 0 <= Base(x, k))
    && (forall t, k, i :: Holds(x, t, k, i) && k in x.s.notifySeq && 0 <= i < x.s.notifySeq[k]
          ==> x.threads[t].n.pending == Of(x.claimed, k)[Base(x, k) + i])
  }

  /** How many of an agent's claims the observer has been handed, going by one of its notices. */
  ghost function Handed(x: System, t: nat): int
    requires t in x.threads
    requires x.threads[t].HasNotice()
  {
    Base(x, x.threads[t].n.key) + x.threads[t].n.ticket + if x.threads[t].Told? then 1 else 0
  }

  /** The observer has been handed each agent's counts in the order they were read: all of them
      but the outstanding ones. */
  ghost predicate Linearized(x: System) {
    && (forall k :: k !in x.s.notifySeq ==> Of(x.told, k) == Of(x.claimed, k))
    && (forall t, k :: Holds(x, t, k, Turn(x.s, k)) ==> InStep(x, t))
  }

  ghost predicate InStep(x: System, t: nat)
    requires t in x.threads
    requires x.threads[t].HasNotice()
  {
    var k := x.threads[t].n.key;
    0 <= Handed(x, t) <= |Of(x.claimed, k)| && Of(x.told, k) == Of(x.claimed, k)[..Handed(x, t)]
  }

  /** The newest count read for an agent is its pending count now. */
  ghost predicate Current(x: System) {
    forall k :: Pending(x.s, k) == LastCount(x.claimed, k)
  }

  ghost predicate Inv(x: System) {
    && 1 <= x.lanes
    && Steppable(x)
    && Staffed(x)
    && Placed(x)
    && Conserved(x)
    && Fifo(x)
    && Ticketed(x)
    && Carried(x)
    && Linearized(x)
    && Current(x)
  }
}
