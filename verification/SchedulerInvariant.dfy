/** Every step of the scheduler's threads keeps the system invariant. */
module SchedulerInvariant {
  import opened Common
  import opened SchedulerState
  import opened SchedulerProtocol

  // ---------------------------------------------------------------- frames

  /** Two systems that agree on everything the work half of the invariant reads. */
  ghost predicate SameWork(x: System, y: System) {
    && y.lanes == x.lanes
    && y.s == x.s.(notifying := y.s.notifying, notifySeq := y.s.notifySeq, notifyTurn := y.s.notifyTurn)
    && (forall t, k :: Runs(y, t, k) <==> Runs(x, t, k))
    && (forall t, k :: Runs(y, t, k) ==> x.threads[t] == y.threads[t])
    && y.submitted == x.submitted && y.started == x.started && y.finished == x.finished && y.entered == x.entered
  }

  lemma SameWorkKeeps(x: System, y: System)
    requires SameWork(x, y) && Steppable(x) && Placed(x) && Conserved(x) && Fifo(x)
    ensures Steppable(y) && Placed(y) && Conserved(y) && Fifo(y)
  {
    assert forall t :: t in y.threads && y.threads[t].Running? ==> Runs(y, t, y.threads[t].key);
    forall k ensures Of(y.started, k) + Owed(y.s, k) == Of(y.submitted, k) {
      assert Owed(y.s, k) == Owed(x.s, k);
    }
    forall k | k in y.s.inflight ensures k in KeysOf(y.s.pool) || exists t :: Runs(y, t, k) {
      if k !in KeysOf(x.s.pool) {
        var t :| Runs(x, t, k);
        assert Runs(y, t, k);
      }
    }
    forall k | forall t :: !Runs(y, t, k) ensures Of(y.started, k) == Of(y.finished, k) {
      assert forall t :: !Runs(x, t, k);
    }
  }

  /** Two systems that agree on everything the notice half reads. */
  ghost predicate SameNotices(x: System, y: System) {
    && y.s.notifying == x.s.notifying && y.s.notifySeq == x.s.notifySeq && y.s.notifyTurn == x.s.notifyTurn
    && (forall t :: t in y.threads && y.threads[t].HasNotice() <==> t in x.threads && x.threads[t].HasNotice())
    && (forall t :: t in y.threads && y.threads[t].HasNotice() ==> y.threads[t] == x.threads[t])
    && y.claimed == x.claimed && y.told == x.told
  }

  lemma SameNoticesKeeps(x: System, y: System)
    requires SameNotices(x, y) && Ticketed(x) && Carried(x) && Linearized(x)
    ensures Ticketed(y) && Carried(y) && Linearized(y)
  {
    assert forall t, k, i :: Holds(y, t, k, i) <==> Holds(x, t, k, i);
    assert forall k, i :: Outstanding(y, k, i) <==> Outstanding(x, k, i);
    assert Notifiers(y) == Notifiers(x);
    forall k, i | Outstanding(y, k, i) ensures exists t :: Holds(y, t, k, i) {
      var t :| Holds(x, t, k, i);
      assert Holds(y, t, k, i);
    }
    assert forall k :: Base(y, k) == Base(x, k);
    forall t, k | Holds(y, t, k, Turn(y.s, k)) ensures InStep(y, t) {
      assert Holds(x, t, k, Turn(x.s, k));
      assert InStep(x, t) && Handed(y, t) == Handed(x, t);
    }
  }

  // ---------------------------------------------------------------- claiming a ticket

  /** A thread that carried no notice comes out of a locked section with agent `k`'s next ticket. */
  ghost predicate Claims(x: System, y: System, t: nat, k: Key, pending: nat, ticket: int) {
    && Claimed(x.s, y.s, k, ticket)
    && (t in x.threads ==> !x.threads[t].HasNotice())
    && y.threads == x.threads[t := Waiting(Notice(k, pending, ticket))]
    && y.claimed == x.claimed + [(k, pending)]
    && y.told == x.told
  }

  lemma ClaimHolds(x: System, y: System, t: nat, k: Key, pending: nat, ticket: int)
    requires Claims(x, y, t, k, pending, ticket)
    ensures Holds(y, t, k, ticket)
    ensures forall u, l, i :: Holds(y, u, l, i) <==> Holds(x, u, l, i) || (u == t && l == k && i == ticket)
    ensures forall u, l, i :: Holds(x, u, l, i) ==> u != t && y.threads[u] == x.threads[u]
    ensures Notifiers(y) == Notifiers(x) + {t} && t !in Notifiers(x)
  {
  }

  lemma ClaimTicketed(x: System, y: System, t: nat, k: Key, pending: nat, ticket: int)
    requires Claims(x, y, t, k, pending, ticket) && Ticketed(x)
    ensures Ticketed(y)
    ensures forall l, i :: Outstanding(y, l, i) <==> Outstanding(x, l, i) || (l == k && i == ticket)
    ensures forall l :: Turn(y.s, l) == Turn(x.s, l)
  {
    ClaimHolds(x, y, t, k, pending, ticket);
    forall l, i | Outstanding(y, l, i) ensures exists u :: Holds(y, u, l, i) {
      if l == k && i == ticket {
        assert Holds(y, t, k, ticket);
      } else {
        assert Outstanding(x, l, i);
        var u :| Holds(x, u, l, i);
        assert Holds(y, u, l, i);
      }
    }
  }

  lemma ClaimBase(x: System, y: System, t: nat, k: Key, pending: nat, ticket: int, l: Key)
    requires Claims(x, y, t, k, pending, ticket)
    ensures Base(y, l) == Base(x, l)
    ensures Of(y.claimed, l) == Of(x.claimed, l) + if l == k then [pending] else []
  {
    OfSnoc(x.claimed, (k, pending), l);
  }

  lemma ClaimCarried(x: System, y: System, t: nat, k: Key, pending: nat, ticket: int)
    requires Claims(x, y, t, k, pending, ticket) && Ticketed(x) && Carried(x)
    ensures Carried(y)
  {
    ClaimHolds(x, y, t, k, pending, ticket);
    ClaimTicketed(x, y, t, k, pending, ticket);
    forall l ensures 0 <= Base(y, l) {
      ClaimBase(x, y, t, k, pending, ticket, l);
    }
    forall u, l, i | Holds(y, u, l, i) && l in y.s.notifySeq && 0 <= i < y.s.notifySeq[l]
      ensures y.threads[u].n.pending == Of(y.claimed, l)[Base(y, l) + i] {
      ClaimBase(x, y, t, k, pending, ticket, l);
      if u != t {
        assert Holds(x, u, l, i);
        assert Outstanding(x, l, i);
      }
    }
  }

  lemma ClaimLinearized(x: System, y: System, t: nat, k: Key, pending: nat, ticket: int)
    requires Claims(x, y, t, k, pending, ticket) && Ticketed(x) && Carried(x) && Linearized(x)
    ensures Linearized(y)
  {
    ClaimHolds(x, y, t, k, pending, ticket);
    ClaimTicketed(x, y, t, k, pending, ticket);
    forall l | l !in y.s.notifySeq ensures Of(y.told, l) == Of(y.claimed, l) {
      ClaimBase(x, y, t, k, pending, ticket, l);
    }
    forall u, l | Holds(y, u, l, Turn(y.s, l))
      ensures InStep(y, u) {
      ClaimBase(x, y, t, k, pending, ticket, l);
      if u == t {
        assert ticket == Turn(x.s, k);
        if k in x.s.notifySeq { assert false; }
        assert Of(x.claimed, k) == Of(y.claimed, k)[..|Of(x.claimed, k)|];
      } else {
        assert Holds(x, u, l, Turn(x.s, l));
        assert InStep(x, u) && Handed(y, u) == Handed(x, u);
        assert Of(x.claimed, l) == Of(y.claimed, l)[..|Of(x.claimed, l)|];
      }
    }
  }

  // ---------------------------------------------------------------- begin, observe, settle

  /** A claimed count is still the newest when neither the counts nor the claims change. */
  lemma SameCounts(x: System, y: System)
    requires Current(x) && y.claimed == x.claimed && y.s.queues == x.s.queues && y.s.inflight == x.s.inflight
    ensures Current(y)
  {
    forall l ensures Pending(y.s, l) == LastCount(y.claimed, l) {
      assert Pending(x.s, l) == LastCount(x.claimed, l);
    }
  }

  /** The turn's holder goes into the observer. */
  ghost predicate Enters(x: System, y: System, t: nat) {
    && t in x.threads && x.threads[t].Waiting? && Turn(x.s, x.threads[t].n.key) == x.threads[t].n.ticket
    && y == x.(threads := x.threads[t := Calling(x.threads[t].n)])
  }

  lemma EntersTicketed(x: System, y: System, t: nat)
    requires Enters(x, y, t) && Ticketed(x)
    ensures Ticketed(y)
    ensures forall u, l, i :: Holds(y, u, l, i) <==> Holds(x, u, l, i)
  {
    assert forall u, l, i :: Holds(y, u, l, i) <==> Holds(x, u, l, i);
    assert forall l, i :: Outstanding(y, l, i) <==> Outstanding(x, l, i);
    assert Notifiers(y) == Notifiers(x);
    forall l, i | Outstanding(y, l, i) ensures exists u :: Holds(y, u, l, i) {
      var u :| Holds(x, u, l, i);
      assert Holds(y, u, l, i);
    }
  }

  lemma EntersLinearized(x: System, y: System, t: nat)
    requires Enters(x, y, t) && Ticketed(x) && Carried(x) && Linearized(x)
    ensures Carried(y) && Linearized(y)
  {
    EntersTicketed(x, y, t);
    assert forall l :: Base(y, l) == Base(x, l);
    forall u, l | Holds(y, u, l, Turn(y.s, l)) ensures InStep(y, u) {
      assert Holds(x, u, l, Turn(x.s, l));
      assert InStep(x, u) && Handed(y, u) == Handed(x, u);
    }
  }

  lemma EntersKeeps(x: System, y: System, t: nat)
    requires Inv(x) && Enters(x, y, t)
    ensures Inv(y)
  {
    SameWorkKeeps(x, y);
    SameCounts(x, y);
    EntersTicketed(x, y, t);
    EntersLinearized(x, y, t);
  }

  /** The observer has been handed thread `t`'s count. */
  ghost predicate Hands(x: System, y: System, t: nat)
  {
    && t in x.threads && x.threads[t].Calling?
    && y == x.(threads := x.threads[t := Told(x.threads[t].n)],
               told := x.told + [(x.threads[t].n.key, x.threads[t].n.pending)])
  }

  lemma HandsTicketed(x: System, y: System, t: nat)
    requires Hands(x, y, t) && Ticketed(x) && Carried(x)
    ensures Ticketed(y) && Carried(y)
    ensures Holds(x, t, x.threads[t].n.key, Turn(x.s, x.threads[t].n.key))
    ensures forall u, l, i :: Holds(y, u, l, i) <==> Holds(x, u, l, i)
    ensures forall l :: Base(y, l) == Base(x, l)
  {
    assert Holds(x, t, x.threads[t].n.key, x.threads[t].n.ticket);
    assert forall u, l, i :: Holds(y, u, l, i) <==> Holds(x, u, l, i);
    assert forall l, i :: Outstanding(y, l, i) <==> Outstanding(x, l, i);
    assert Notifiers(y) == Notifiers(x);
    forall l, i | Outstanding(y, l, i) ensures exists u :: Holds(y, u, l, i) {
      var u :| Holds(x, u, l, i);
      assert Holds(y, u, l, i);
    }
    forall l ensures Base(y, l) == Base(x, l) && 0 <= Base(x, l) {}
  }

  lemma HandsInStep(x: System, y: System, t: nat)
    requires Hands(x, y, t) && Ticketed(x) && Carried(x) && Linearized(x)
    ensures InStep(y, t)
  {
    HandsTicketed(x, y, t);
    var n := x.threads[t].n;
    var c, h := Of(x.claimed, n.key), Handed(x, t);
    assert Holds(x, t, n.key, n.ticket) && Outstanding(x, n.key, n.ticket);
    assert InStep(x, t) && h == Base(x, n.key) + n.ticket && n.pending == c[h];
    OfSnoc(x.told, (n.key, n.pending), n.key);
    assert c[..h] + [c[h]] == c[..h + 1];
  }

  lemma HandsLinearized(x: System, y: System, t: nat)
    requires Hands(x, y, t) && Ticketed(x) && Carried(x) && Linearized(x)
    ensures Linearized(y)
  {
    HandsTicketed(x, y, t);
    HandsInStep(x, y, t);
    var n := x.threads[t].n;
    forall l | l !in y.s.notifySeq ensures Of(y.told, l) == Of(y.claimed, l) {
      assert Outstanding(x, n.key, n.ticket) by { assert Holds(x, t, n.key, n.ticket); }
      OfSnoc(x.told, (n.key, n.pending), l);
    }
    forall u, l | Holds(y, u, l, Turn(y.s, l)) ensures InStep(y, u) {
      assert Holds(x, u, l, Turn(x.s, l));
      if l != n.key {
        OfSnoc(x.told, (n.key, n.pending), l);
        assert InStep(x, u) && Handed(y, u) == Handed(x, u);
      }
    }
  }

  /** The turn's holder leaves its agent's line. */
  ghost predicate Leaves(x: System, y: System, t: nat) {
    && t in x.threads && x.threads[t].Told?
    && y == x.(s := Settled(x.s, x.threads[t].n.key, x.threads[t].n.ticket),
               threads := if t < x.lanes then x.threads[t := Free] else x.threads - {t})
  }

  lemma LeavesHolds(x: System, y: System, t: nat)
    requires Leaves(x, y, t)
    ensures forall u, l, i :: Holds(y, u, l, i) <==> Holds(x, u, l, i) && u != t
    ensures forall u, l, i :: Holds(y, u, l, i) ==> y.threads[u] == x.threads[u]
    ensures Notifiers(y) == Notifiers(x) - {t} && t in Notifiers(x)
  {
  }

  lemma LeavesTurns(x: System, y: System, t: nat)
    requires Leaves(x, y, t) && Ticketed(x)
    ensures var k := x.threads[t].n.key;
            && Holds(x, t, k, Turn(x.s, k)) && k in x.s.notifySeq
            && (forall l :: l != k ==> Turn(y.s, l) == Turn(x.s, l))
            && (forall l :: l != k ==> (l in y.s.notifySeq <==> l in x.s.notifySeq))
            && (forall l :: l in y.s.notifySeq ==> l in x.s.notifySeq && y.s.notifySeq[l] == x.s.notifySeq[l])
            && (k in y.s.notifySeq ==> Turn(y.s, k) == Turn(x.s, k) + 1)
            && (k in y.s.notifySeq <==> x.s.notifySeq[k] != Turn(x.s, k) + 1)
            && (forall l :: l in y.s.notifyTurn ==> l in y.s.notifySeq)
  {
    var n := x.threads[t].n;
    assert Holds(x, t, n.key, n.ticket) && Outstanding(x, n.key, n.ticket);
  }

  lemma LeavesTicketed(x: System, y: System, t: nat)
    requires Leaves(x, y, t) && Ticketed(x)
    ensures Ticketed(y)
  {
    LeavesHolds(x, y, t);
    LeavesTurns(x, y, t);
    forall l, i | Outstanding(y, l, i) ensures exists u :: Holds(y, u, l, i) {
      assert Outstanding(x, l, i);
      var u :| Holds(x, u, l, i);
      assert Holds(y, u, l, i);
    }
    forall u, l, i | Holds(y, u, l, i) ensures Outstanding(y, l, i) && (y.threads[u].Waiting? || i == Turn(y.s, l)) {
      assert Holds(x, u, l, i) && Outstanding(x, l, i);
    }
  }

  lemma LeavesCarried(x: System, y: System, t: nat)
    requires Leaves(x, y, t) && Ticketed(x) && Carried(x)
    ensures Carried(y)
    ensures forall l :: l in y.s.notifySeq ==> Base(y, l) == Base(x, l)
  {
    LeavesHolds(x, y, t);
    LeavesTurns(x, y, t);
    forall l ensures 0 <= Base(y, l) && (l in y.s.notifySeq ==> Base(y, l) == Base(x, l)) {
      assert 0 <= Base(x, l);
    }
  }

  lemma LeavesLinearized(x: System, y: System, t: nat)
    requires Leaves(x, y, t) && Ticketed(x) && Carried(x) && Linearized(x)
    ensures Linearized(y)
  {
    LeavesHolds(x, y, t);
    LeavesTurns(x, y, t);
    LeavesTicketed(x, y, t);
    LeavesCarried(x, y, t);
    var k := x.threads[t].n.key;
    assert InStep(x, t) && Handed(x, t) == Base(x, k) + Turn(x.s, k) + 1;
    forall u, l | Holds(y, u, l, Turn(y.s, l)) ensures InStep(y, u) {
      assert Holds(x, u, l, Turn(y.s, l)) && Outstanding(y, l, Turn(y.s, l));
      if l == k {
        assert y.threads[u].Waiting? && Handed(y, u) == Handed(x, t);
      } else {
        assert InStep(x, u) && Handed(y, u) == Handed(x, u);
      }
    }
  }

  // ---------------------------------------------------------------- submit, start, finish: the work half

  /** A locked section of `submit` (`released` empty) or `_run_job` (`released` its agent), seen from
      the threads: whoever ran still runs, except the one that released its lane. */
  ghost predicate Sectioned(x: System, y: System, entering: seq<Key>, released: set<Key>) {
    && y.lanes == x.lanes
    && Section(x.s, y.s, x.lanes, entering, released)
    && (forall t, k :: Runs(y, t, k) <==> Runs(x, t, k) && k !in released)
    && (forall t, k :: Runs(y, t, k) ==> y.threads[t] == x.threads[t])
    && (forall k :: k in released ==> exists t :: Runs(x, t, k))
    && y.started == x.started
    && y.entered == x.entered + entering
  }

  lemma SectionedPlaced(x: System, y: System, entering: seq<Key>, released: set<Key>)
    requires Sectioned(x, y, entering, released) && Placed(x)
    ensures Placed(y)
  {
    var fed := KeysOf(y.s.pool[|x.s.pool|..]);
    assert y.s.pool == x.s.pool + y.s.pool[|x.s.pool|..];
    KeysOfConcat(x.s.pool, y.s.pool[|x.s.pool|..]);
    assert KeysOf(y.s.pool) == KeysOf(x.s.pool) + fed;
    forall k | k in KeysOf(x.s.pool) ensures k in x.s.inflight && k !in released && k !in fed {
      assert forall t :: !Runs(x, t, k);
    }
    NoDupConcat(KeysOf(x.s.pool), fed);
    forall k | k in y.s.inflight ensures k in KeysOf(y.s.pool) || exists t :: Runs(y, t, k) {
      if k !in fed && k !in KeysOf(x.s.pool) {
        var t :| Runs(x, t, k);
        assert Runs(y, t, k);
      }
    }
  }

  lemma SectionedFifo(x: System, y: System, entering: seq<Key>, released: set<Key>)
    requires Sectioned(x, y, entering, released) && Fifo(x)
    ensures Fifo(y)
  {
    assert KeysOf(y.started) + KeysOf(y.s.pool) + y.s.ready
        == KeysOf(y.started) + (KeysOf(x.s.pool) + x.s.ready + entering);
  }

  lemma SubmitConserved(x: System, y: System, k: Key, j: Job)
    requires Sectioned(x, y, NewlyReady(x.s, k), {}) && Conserved(x)
    requires forall l :: Owed(y.s, l) == Owed(x.s, l) + if l == k then [j] else []
    requires y.submitted == x.submitted + [(k, j)] && y.finished == x.finished
    ensures Conserved(y)
  {
    forall l ensures Of(y.started, l) + Owed(y.s, l) == Of(y.submitted, l) {
      OfSnoc(x.submitted, (k, j), l);
      assert Of(x.started, l) + (Owed(x.s, l) + [j]) == Of(x.started, l) + Owed(x.s, l) + [j];
    }
    forall l | forall t :: !Runs(y, t, l) ensures Of(y.started, l) == Of(y.finished, l) {
      assert forall t :: !Runs(x, t, l);
    }
  }

  lemma FinishConserved(x: System, y: System, t: nat, k: Key)
    requires Sectioned(x, y, ReEntering(x.s, k), {k}) && Conserved(x) && Placed(x) && Runs(x, t, k)
    requires forall l :: Owed(y.s, l) == Owed(x.s, l)
    requires y.submitted == x.submitted && y.finished == x.finished + [(k, x.threads[t].job)]
    ensures Conserved(y)
  {
    forall l ensures Of(y.finished, l) == Of(x.finished, l) + if l == k then [x.threads[t].job] else [] {
      OfSnoc(x.finished, (k, x.threads[t].job), l);
    }
    forall l | forall u :: !Runs(y, u, l) ensures Of(y.started, l) == Of(y.finished, l) {
      if l != k {
        assert forall u :: Runs(x, u, l) ==> Runs(y, u, l);
      }
    }
  }

  /** A pool thread takes the executor's oldest task. */
  ghost predicate Takes(x: System, y: System, t: nat) {
    && t in x.threads && x.threads[t].Free? && x.s.pool != []
    && y == x.(s := x.s.(pool := x.s.pool[1..]),
               threads := x.threads[t := Running(x.s.pool[0].0, x.s.pool[0].1)],
               started := x.started + [x.s.pool[0]])
  }

  lemma TakesPlaced(x: System, y: System, t: nat)
    requires Takes(x, y, t) && Valid(x.s, x.lanes) && Placed(x)
    ensures Valid(y.s, y.lanes) && Placed(y)
  {
    var h := x.s.pool[0].0;
    assert KeysOf(x.s.pool)[0] == h && KeysOf(y.s.pool) == KeysOf(x.s.pool)[1..];
    NoDupTail(KeysOf(x.s.pool));
    assert KeysOf(x.s.pool) == [h] + KeysOf(y.s.pool);
    TakesRuns(x, y, t);
    assert Runs(y, t, h);
    forall k | k in y.s.inflight ensures k in KeysOf(y.s.pool) || exists u :: Runs(y, u, k) {
      if k != h && k !in KeysOf(x.s.pool) {
        var u :| Runs(x, u, k);
        assert Runs(y, u, k);
      }
    }
  }

  lemma TakesFifo(x: System, y: System, t: nat)
    requires Takes(x, y, t) && Fifo(x)
    ensures Fifo(y)
  {
    var h := x.s.pool[0].0;
    assert KeysOf(y.started) == KeysOf(x.started) + [h];
    assert KeysOf(x.s.pool) == [h] + KeysOf(y.s.pool);
  }

  lemma TakesLogs(x: System, y: System, t: nat, l: Key)
    requires Takes(x, y, t)
    ensures var task := x.s.pool[0];
            if l == task.0 then
              Of(y.started, l) == Of(x.started, l) + [task.1] && Owed(x.s, l) == [task.1] + Owed(y.s, l)
            else Of(y.started, l) == Of(x.started, l) && Owed(x.s, l) == Owed(y.s, l)
  {
    var task := x.s.pool[0];
    OfSnoc(x.started, task, l);
    OfHead(x.s.pool, l);
    if l == task.0 {
      assert ([task.1] + Of(y.s.pool, l)) + Queue(y.s, l) == [task.1] + Owed(y.s, l);
    } else {
      assert [] + Of(y.s.pool, l) == Of(y.s.pool, l);
    }
  }

  lemma TakesRuns(x: System, y: System, t: nat)
    requires Takes(x, y, t) && Placed(x)
    ensures forall u, k :: Runs(y, u, k) <==> Runs(x, u, k) || (u == t && k == x.s.pool[0].0)
    ensures forall u :: !Runs(x, u, x.s.pool[0].0)
  {
    assert KeysOf(x.s.pool)[0] == x.s.pool[0].0;
  }

  lemma TakesAgent(x: System, y: System, t: nat, l: Key)
    requires Takes(x, y, t) && Conserved(x)
    ensures Of(y.started, l) + Owed(y.s, l) == Of(y.submitted, l)
  {
    var task := x.s.pool[0];
    TakesLogs(x, y, t, l);
    assert Of(x.started, l) + Owed(x.s, l) == Of(x.submitted, l);
    if l == task.0 {
      assert (Of(x.started, l) + [task.1]) + Owed(y.s, l) == Of(x.started, l) + ([task.1] + Owed(y.s, l));
    }
  }

  lemma TakesRunning(x: System, y: System, t: nat, u: nat, l: Key)
    requires Takes(x, y, t) && Placed(x) && Conserved(x) && Runs(y, u, l)
    ensures Of(y.started, l) == Of(y.finished, l) + [y.threads[u].job]
  {
    TakesRuns(x, y, t);
    TakesLogs(x, y, t, l);
    if u != t {
      assert Runs(x, u, l);
      assert Of(x.started, l) == Of(x.finished, l) + [x.threads[u].job];
    } else {
      assert forall v :: !Runs(x, v, l);
    }
  }

  lemma TakesIdle(x: System, y: System, t: nat, l: Key)
    requires Takes(x, y, t) && Placed(x) && Conserved(x) && forall u :: !Runs(y, u, l)
    ensures Of(y.started, l) == Of(y.finished, l)
  {
    TakesRuns(x, y, t);
    TakesLogs(x, y, t, l);
    assert Runs(y, t, x.s.pool[0].0);
    assert forall u :: !Runs(x, u, l);
  }

  lemma TakesConserved(x: System, y: System, t: nat)
    requires Takes(x, y, t) && Placed(x) && Conserved(x)
    ensures Conserved(y)
  {
    forall l ensures Of(y.started, l) + Owed(y.s, l) == Of(y.submitted, l) {
      TakesAgent(x, y, t, l);
    }
    forall u, l | Runs(y, u, l) ensures Of(y.started, l) == Of(y.finished, l) + [y.threads[u].job] {
      TakesRunning(x, y, t, u, l);
    }
    forall l | forall u :: !Runs(y, u, l) ensures Of(y.started, l) == Of(y.finished, l) {
      TakesIdle(x, y, t, l);
    }
  }

  /** Reading a count and claiming a ticket for it in the same section keeps the newest claim current. */
  lemma ClaimCurrent(x: System, y: System, k: Key, pending: nat)
    requires y.claimed == x.claimed + [(k, pending)] && Current(x)
    requires pending == Pending(y.s, k)
    requires forall l :: l != k ==> Pending(y.s, l) == Pending(x.s, l)
    ensures Current(y)
  {
    forall l ensures Pending(y.s, l) == LastCount(y.claimed, l) {
      OfSnoc(x.claimed, (k, pending), l);
    }
  }

  // ---------------------------------------------------------------- the steps

  lemma SubmitKeeps(x: System, t: nat, k: Key, j: Job)
    requires Inv(x) && Enabled(x, Submit(t, k, j))
    ensures Inv(Next(x, Submit(t, k, j)))
  {
    var y := Next(x, Submit(t, k, j));
    SubmittedEffect(x.s, x.lanes, k, j);
    forall l ensures Owed(y.s, l) == Owed(x.s, l) + (if l == k then [j] else [])
             ensures Pending(y.s, l) == Pending(x.s, l) + (if l == k then 1 else 0) {
      SubmittedOwes(x.s, x.lanes, k, j, l);
    }
    SectionKeeps(x, y, t, k, NewlyReady(x.s, k), {});
    SubmitConserved(x, y, k, j);
  }

  lemma FinishKeeps(x: System, t: nat)
    requires Inv(x) && Enabled(x, Finish(t))
    ensures Inv(Next(x, Finish(t)))
  {
    var y, k := Next(x, Finish(t)), x.threads[t].key;
    assert Runs(x, t, k);
    CompletedEffect(x.s, x.lanes, k);
    forall l ensures Owed(y.s, l) == Owed(x.s, l)
             ensures Pending(y.s, l) == Pending(x.s, l) - (if l == k then 1 else 0) {
      CompletedOwes(x.s, x.lanes, k, l);
    }
    SectionKeeps(x, y, t, k, ReEntering(x.s, k), {k});
    FinishConserved(x, y, t, k);
  }

  /** The part a submission and a completion share. */
  lemma SectionKeeps(x: System, y: System, t: nat, k: Key, entering: seq<Key>, released: set<Key>)
    requires Inv(x) && Section(x.s, y.s, x.lanes, entering, released) && y.lanes == x.lanes
    requires y.started == x.started && y.entered == x.entered + entering
    requires t in y.threads && y.threads[t].Waiting?
    requires var n := y.threads[t].n;
             n.key == k && n.pending == Pending(y.s, k) && Claims(x, y, t, k, n.pending, n.ticket)
    requires t < x.lanes ==> t in x.threads
    requires released == (if t in x.threads && x.threads[t].Running? then {x.threads[t].key} else {})
    requires forall l :: l != k ==> Pending(y.s, l) == Pending(x.s, l)
    ensures Sectioned(x, y, entering, released)
    ensures Steppable(y) && Staffed(y) && Placed(y) && Fifo(y)
    ensures Ticketed(y) && Carried(y) && Linearized(y) && Current(y)
  {
    var n := y.threads[t].n;
    ClaimTicketed(x, y, t, k, n.pending, n.ticket);
    ClaimCarried(x, y, t, k, n.pending, n.ticket);
    ClaimLinearized(x, y, t, k, n.pending, n.ticket);
    ClaimCurrent(x, y, k, n.pending);
    WhoStillRuns(x, y, t, k, n.pending, n.ticket, released);
    SectionedPlaced(x, y, entering, released);
    SectionedFifo(x, y, entering, released);
    assert forall v :: v in y.threads && y.threads[v].Running? ==> Runs(y, v, y.threads[v].key);
  }

  lemma WhoStillRuns(x: System, y: System, t: nat, k: Key, pending: nat, ticket: int, released: set<Key>)
    requires Placed(x) && Claims(x, y, t, k, pending, ticket)
    requires released == (if t in x.threads && x.threads[t].Running? then {x.threads[t].key} else {})
    ensures forall v, l :: Runs(y, v, l) <==> Runs(x, v, l) && l !in released
    ensures forall v, l :: Runs(y, v, l) ==> y.threads[v] == x.threads[v]
    ensures forall l :: l in released ==> exists v :: Runs(x, v, l)
  {
    assert forall l :: l in released ==> Runs(x, t, l);
    assert forall v, l :: Runs(y, v, l) <==> Runs(x, v, l) && v != t;
  }

  lemma TakesKeeps(x: System, y: System, t: nat)
    requires Inv(x) && Takes(x, y, t)
    ensures Inv(y)
  {
    TakesPlaced(x, y, t);
    TakesFifo(x, y, t);
    TakesConserved(x, y, t);
    SameNoticesKeeps(x, y);
    SameCounts(x, y);
    assert forall v :: v in y.threads && y.threads[v].Running? ==> Runs(y, v, y.threads[v].key);
  }

  lemma HandsKeeps(x: System, y: System, t: nat)
    requires Inv(x) && Hands(x, y, t)
    ensures Inv(y)
  {
    SameWorkKeeps(x, y);
    SameCounts(x, y);
    HandsTicketed(x, y, t);
    HandsLinearized(x, y, t);
  }

  lemma LeavesWork(x: System, y: System, t: nat)
    requires Leaves(x, y, t) && Staffed(x)
    ensures SameWork(x, y) && Staffed(y) && y.claimed == x.claimed
  {
  }

  lemma LeavesKeeps(x: System, y: System, t: nat)
    requires Inv(x) && Leaves(x, y, t)
    ensures Inv(y)
  {
    LeavesWork(x, y, t);
    SameWorkKeeps(x, y);
    SameCounts(x, y);
    LeavesTicketed(x, y, t);
    LeavesCarried(x, y, t);
    LeavesLinearized(x, y, t);
  }

  /** Every enabled step, by whichever thread, keeps the invariant. */
  lemma StepKeeps(x: System, step: Step)
    requires Inv(x) && Enabled(x, step)
    ensures Inv(Next(x, step))
  {
    match step
    case Submit(t, k, j) => SubmitKeeps(x, t, k, j);
    case Start(t) => TakesKeeps(x, Next(x, step), t);
    case Finish(t) => FinishKeeps(x, t);
    case Begin(t) => EntersKeeps(x, Next(x, step), t);
    case Observe(t) => HandsKeeps(x, Next(x, step), t);
    case Settle(t) => LeavesKeeps(x, Next(x, step), t);
  }

  lemma InitHolds(lanes: nat)
    requires 1 <= lanes
    ensures Inv(Init(lanes))
  {
    var x := Init(lanes);
    assert SetOf(EMPTY.ready) == {};
    assert Notifiers(x) == {};
    assert forall t, k :: !Runs(x, t, k);
    assert forall t, k, i :: !Holds(x, t, k, i);
    assert KeysOf(x.started) + KeysOf(x.s.pool) + x.s.ready == [];
  }
}
