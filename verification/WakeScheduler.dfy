/** The scheduler object: the locked sections of scheduler.py on the fields it keeps. Each is proved to do
    what the transition system's functions say. */
module WakeScheduler {
  import opened Common
  import opened SchedulerState
  import Evidence

  class WakeScheduler {
    const lanes: nat
    var queues: map<Key, seq<Job>>
    var ready: seq<Key>
    var readySet: set<Key>
    var inflight: set<Key>
    var pool: seq<(Key, Job)>        // the executor's work queue
    var notifying: int
    var notifySeq: map<Key, int>
    var notifyTurn: map<Key, int>
    var saturated: bool

    function Current(): State
      reads this
    {
      State(queues, ready, readySet, inflight, pool, notifying, notifySeq, notifyTurn, saturated)
    }

    constructor (lanes: nat)
      requires 1 <= lanes
      ensures this.lanes == lanes && Current() == EMPTY && Valid(Current(), lanes)
    {
      this.lanes := lanes;
      queues, ready, readySet, inflight, pool := map[], [], {}, {}, [];
      notifying, notifySeq, notifyTurn, saturated := 0, map[], map[], false;
      new;
      assert SetOf(EMPTY.ready) == {};
    }

    /** The scheduling half of `submit`: everything it does under the condition. */
    method Submit(key: Key, job: Job) returns (pending: nat, ticket: int)
      requires Valid(Current(), lanes)
      modifies this
      ensures Valid(Current(), lanes)
      ensures (Current(), pending, ticket) == Submitted(old(Current()), lanes, key, job)
    {
      EnqueuedShape(Current(), lanes, key, job);
      SubmittedEffect(Current(), lanes, key, job);
      queues := queues[key := (if key in queues then queues[key] else []) + [job]];
      if key !in inflight && key !in readySet {
        ready := ready + [key];
        readySet := readySet + {key};
      }
      assert Current() == Enqueued(old(Current()), key, job);
      PumpLocked();
      pending := PendingLocked(key);
      ticket := ClaimNotificationLocked(key);
    }

    /** The body of `_pump_locked`'s loop. */
    method DispatchNext()
      requires Shape(Current(), lanes) && |inflight| < lanes && ready != []
      modifies this
      ensures Queue(old(Current()), old(ready)[0]) != []
      ensures Current() == DispatchHead(old(Current()))
    {
      var key := ready[0];
      assert key in readySet;
      ready := ready[1..];
      readySet := readySet - {key};
      var queue := queues[key];
      var job := queue[0];
      if |queue| == 1 {
        queues := queues - {key};
      } else {
        queues := queues[key := queue[1..]];
      }
      inflight := inflight + {key};
      pool := pool + [(key, job)];
    }

    /** `_pump_locked`. */
    method PumpLocked()
      requires Shape(Current(), lanes)
      modifies this
      ensures Current() == Pump(old(Current()), lanes)
    {
      while |inflight| < lanes && ready != []
        invariant Shape(Current(), lanes)
        invariant Pump(Current(), lanes) == Pump(old(Current()), lanes)
        decreases |ready|
      {
        DispatchHeadKeepsShape(Current(), lanes);
        DispatchNext();
      }
      saturated := |inflight| >= lanes && ready != [];
    }

    /** The bookkeeping of `_run_job` after the wake. */
    method FinishJob(key: Key) returns (pending: nat, ticket: int)
      requires Valid(Current(), lanes) && key in inflight
      modifies this
      ensures Valid(Current(), lanes)
      ensures (Current(), pending, ticket) == Completed(old(Current()), lanes, key)
    {
      ReleasedShape(Current(), lanes, key);
      CompletedEffect(Current(), lanes, key);
      inflight := inflight - {key};
      if key in queues && queues[key] != [] && key !in readySet {
        ready := ready + [key];
        readySet := readySet + {key};
      }
      assert Current() == Released(old(Current()), key);
      PumpLocked();
      pending := PendingLocked(key);
      ticket := ClaimNotificationLocked(key);
    }

    method PendingLocked(key: Key) returns (pending: nat)
      ensures pending == Pending(Current(), key)
    {
      pending := (if key in queues then |queues[key]| else 0) + if key in inflight then 1 else 0;
    }

    /** Takes the agent's next ticket; no other ticket of any agent is taken or settled. */
    method ClaimNotificationLocked(key: Key) returns (ticket: int)
      modifies this`notifySeq, this`notifying
      ensures (Current(), ticket) == Claim(old(Current()), key)
      ensures Turn(old(Current()), key) <= ticket && (key in old(notifySeq) || Turn(old(Current()), key) == 0) ==>
                forall k, i :: TicketOut(Current(), k, i)
                               <==> TicketOut(old(Current()), k, i) || (k == key && i == ticket)
    {
      ticket := if key in notifySeq then notifySeq[key] else 0;
      notifySeq := notifySeq[key := ticket + 1];
      notifying := notifying + 1;
    }

    /** `_deliver_queue_change`, from the moment its ticket's turn has come: the observer, the evidence store,
        is told outside the condition, and then the ticket is settled. */
    method DeliverQueueChange(key: Key, pending: nat, ticket: int, observer: Evidence.EvidenceStore)
      requires Turn(Current(), key) == ticket && TicketOut(Current(), key, ticket)
      modifies this`notifySeq, this`notifyTurn, this`notifying, observer
      ensures Current() == Settled(old(Current()), key, ticket)
      ensures observer.doc == Evidence.Applied(old(observer.doc), Evidence.Depth(key, pending))
      ensures forall k, i :: TicketOut(Current(), k, i)
                             <==> TicketOut(old(Current()), k, i) && !(k == key && i == ticket)
    {
      observer.RecordQueueDepth(key, pending);
      SettleLocked(key, ticket);
    }

    /** The closing section of `_deliver_queue_change`: for the holder of the turn, exactly its own ticket is
        settled, the next one's turn comes, and an agent with no ticket left keeps no counter. */
    method SettleLocked(key: Key, ticket: int)
      modifies this`notifySeq, this`notifyTurn, this`notifying
      ensures Current() == Settled(old(Current()), key, ticket)
      ensures Turn(old(Current()), key) == ticket && TicketOut(old(Current()), key, ticket) ==>
                && (forall k, i :: TicketOut(Current(), k, i)
                                   <==> TicketOut(old(Current()), k, i) && !(k == key && i == ticket))
                && (key in notifySeq <==> TicketOut(Current(), key, ticket + 1))
                && (key in notifySeq ==> Turn(Current(), key) == ticket + 1)
                && (key !in notifySeq ==> key !in notifyTurn)
    {
      var turn := ticket + 1;
      if key in notifySeq && turn == notifySeq[key] {
        notifySeq := notifySeq - {key};
        notifyTurn := notifyTurn - {key};
      } else {
        notifyTurn := notifyTurn[key := turn];
      }
      notifying := notifying - 1;
    }

    /** `_idle_locked`, the predicate `wait_idle` waits for: no agent has a wake pending, although only the
        lanes and the ready queue are looked at, and no notification is outstanding. */
    method IdleLocked() returns (idle: bool)
      requires Valid(Current(), lanes)
      ensures idle == Idle(Current())
      ensures idle <==> notifying == 0 && forall k :: Pending(Current(), k) == 0
    {
      idle := inflight == {} && ready == [] && notifying == 0;
      IdleIsNothingPending(Current(), lanes);
    }
  }

  lemma IdleIsNothingPending(s: State, lanes: nat)
    requires Valid(s, lanes)
    ensures Idle(s) <==> s.notifying == 0 && forall k :: Pending(s, k) == 0
  {
    if forall k :: Pending(s, k) == 0 {
      forall k ensures k !in s.inflight && k !in s.ready {
        assert Pending(s, k) == 0;
        assert k in s.ready ==> k in s.readySet;
      }
      assert s.inflight == {};
      NoMembers(s.ready);
    } else {
      var k :| Pending(s, k) != 0;
      assert k in s.readySet ==> k in s.ready;
    }
  }
}
