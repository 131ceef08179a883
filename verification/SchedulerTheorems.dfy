/** What the scheduler guarantees over whole runs of its threads. */
module SchedulerTheorems {
  import opened Common
  import opened SchedulerState
  import opened SchedulerProtocol
  import opened SchedulerInvariant

  /** `steps` is a run from `x` to `y`. */
  ghost predicate Path(x: System, steps: seq<Step>, y: System)
    decreases |steps|
  {
    if steps == [] then x == y
    else Steppable(x) && Enabled(x, steps[0]) && Path(Next(x, steps[0]), steps[1..], y)
  }

  lemma {:induction false} PathKeeps(x: System, steps: seq<Step>, y: System)
    requires Inv(x) && Path(x, steps, y)
    ensures Inv(y)
    decreases |steps|
  {
    if steps != [] {
      StepKeeps(x, steps[0]);
      PathKeeps(Next(x, steps[0]), steps[1..], y);
    }
  }

  lemma PathCons(x: System, step: Step, rest: seq<Step>, y: System)
    requires Steppable(x) && Enabled(x, step) && Path(Next(x, step), rest, y)
    ensures Path(x, [step] + rest, y)
  {
    assert ([step] + rest)[1..] == rest;
  }

  lemma {:induction false} PathSnoc(x: System, steps: seq<Step>, y: System, step: Step, z: System)
    requires Path(x, steps, y) && Path(y, [step], z)
    ensures Path(x, steps + [step], z)
    decreases |steps|
  {
    if steps == [] {
      assert [] + [step] == [step];
    } else {
      var longer := steps[1..] + [step];
      PathSnoc(Next(x, steps[0]), steps[1..], y, step, z);
      assert Path(Next(x, steps[0]), longer, z);
      PathCons(x, steps[0], longer, z);
      assert [steps[0]] + longer == steps + [step];
    }
  }

  // ---------------------------------------------------------------- mutual exclusion

  /** Some run leads from `x` to `y`. */
  ghost predicate Leads(x: System, y: System) {
    exists steps :: Path(x, steps, y)
  }

  ghost predicate Reachable(lanes: nat, y: System) {
    Leads(Init(lanes), y)
  }

  lemma StaysReachable(lanes: nat, y: System, step: Step)
    requires Reachable(lanes, y) && Steppable(y) && Enabled(y, step)
    ensures Reachable(lanes, Next(y, step))
  {
    var steps :| Path(Init(lanes), steps, y);
    var z := Next(y, step);
    assert Path(z, [], z);
    PathCons(y, step, [], z);
    assert [step] + [] == [step];
    PathSnoc(Init(lanes), steps, y, step, z);
  }

  lemma ReachableHolds(lanes: nat, y: System)
    requires 1 <= lanes && Reachable(lanes, y)
    ensures Inv(y) && y.lanes == lanes
  {
    InitHolds(lanes);
    var steps :| Path(Init(lanes), steps, y);
    PathKeeps(Init(lanes), steps, y);
    LanesFixed(Init(lanes), steps, y);
  }

  /** No two threads are ever inside wakes of one agent, so the per-agent lock guard is never
      contended; at most `lanes` agents are in flight, none of them also waiting; and while an agent
      waits every lane is busy. */
  lemma OneWakePerAgent(lanes: nat, y: System)
    requires 1 <= lanes && Reachable(lanes, y)
    ensures forall t1, t2, k :: Runs(y, t1, k) && Runs(y, t2, k) ==> t1 == t2
    ensures |y.s.inflight| <= lanes
    ensures y.s.readySet == SetOf(y.s.ready) && NoDup(y.s.ready) && y.s.readySet !! y.s.inflight
    ensures forall k :: k in y.s.queues ==> y.s.queues[k] != [] && (k in y.s.ready || k in y.s.inflight)
    ensures y.s.ready != [] ==> |y.s.inflight| == lanes
  {
    ReachableHolds(lanes, y);
  }

  /** Every agent's jobs are dispatched in its submission order, and none is lost or doubled: what the
      pool was given plus what is still queued is what was submitted. */
  lemma SubmittedIsDispatchedPlusQueued(lanes: nat, y: System, k: Key)
    requires 1 <= lanes && Reachable(lanes, y)
    ensures Of(y.started + y.s.pool, k) + Queue(y.s, k) == Of(y.submitted, k)
    ensures Of(y.finished, k) <= Of(y.started, k) && |Of(y.started, k)| <= |Of(y.finished, k)| + 1
  {
    ReachableHolds(lanes, y);
    DispatchedPlusQueued(y, k);
    StartedOneAhead(y, k);
  }

  lemma DispatchedPlusQueued(x: System, k: Key)
    requires Conserved(x)
    ensures Of(x.started + x.s.pool, k) + Queue(x.s, k) == Of(x.submitted, k)
  {
    OfConcat(x.started, x.s.pool, k);
    assert Of(x.started, k) + Owed(x.s, k) == Of(x.submitted, k);
  }

  lemma StartedOneAhead(x: System, k: Key)
    requires Conserved(x)
    ensures Of(x.finished, k) <= Of(x.started, k) && |Of(x.started, k)| <= |Of(x.finished, k)| + 1
  {
    if exists t :: Runs(x, t, k) {
      var t :| Runs(x, t, k);
    }
  }

  lemma {:induction false} LanesFixed(x: System, steps: seq<Step>, y: System)
    requires Inv(x) && Path(x, steps, y)
    ensures y.lanes == x.lanes
    decreases |steps|
  {
    if steps != [] {
      StepKeeps(x, steps[0]);
      LanesFixed(Next(x, steps[0]), steps[1..], y);
    }
  }

  // ---------------------------------------------------------------- deadlock freedom

  /** Whoever holds an agent's lowest outstanding ticket can always move: nobody waits for a turn
      that never comes. */
  lemma TurnHolderMoves(x: System, k: Key)
    requires Inv(x) && k in x.s.notifySeq
    ensures exists t :: Holds(x, t, k, Turn(x.s, k)) &&
                        (Enabled(x, Begin(t)) || Enabled(x, Observe(t)) || Enabled(x, Settle(t)))
  {
    var t := LowestIsHeld(x, k);
    HolderMoves(x, t, k);
  }

  lemma LowestIsHeld(x: System, k: Key) returns (t: nat)
    requires Ticketed(x) && k in x.s.notifySeq
    ensures Holds(x, t, k, Turn(x.s, k))
  {
    assert Outstanding(x, k, Turn(x.s, k));
    t :| Holds(x, t, k, Turn(x.s, k));
  }

  lemma HolderMoves(x: System, t: nat, k: Key)
    requires Holds(x, t, k, Turn(x.s, k))
    ensures Enabled(x, Begin(t)) || Enabled(x, Observe(t)) || Enabled(x, Settle(t))
  {
  }

  lemma NobodyNotifying(x: System)
    requires Ticketed(x) && x.s.notifying == 0
    ensures forall t :: t in x.threads ==> !x.threads[t].HasNotice()
  {
    forall t | t in x.threads ensures !x.threads[t].HasNotice() {
      assert t !in Notifiers(x);
    }
  }

  predicate Internal(step: Step) {
    !step.Submit?
  }

  /** In every reachable state that is not idle, some thread can take a step with no new submission,
      even when every pool thread is busy running or waiting for its turn. */
  lemma NeverStuck(x: System) returns (step: Step)
    requires Inv(x) && !Idle(x.s)
    ensures Internal(step) && Enabled(x, step)
  {
    if x.s.notifying != 0 {
      var t :| t in Notifiers(x);
      var n := x.threads[t].n;
      assert Holds(x, t, n.key, n.ticket) && Outstanding(x, n.key, n.ticket);
      TurnHolderMoves(x, n.key);
      var u :| Holds(x, u, n.key, Turn(x.s, n.key)) &&
          (Enabled(x, Begin(u)) || Enabled(x, Observe(u)) || Enabled(x, Settle(u)));
      step := if Enabled(x, Begin(u)) then Begin(u) else if Enabled(x, Observe(u)) then Observe(u) else Settle(u);
    } else {
      NobodyNotifying(x);
      assert 0 in x.threads;
      if x.threads[0].Running? {
        step := Finish(0);
      } else if x.s.pool != [] {
        step := Start(0);
      } else {
        assert x.s.inflight != {} by {
          if x.s.ready != [] { assert |x.s.inflight| == x.lanes; }
        }
        var k :| k in x.s.inflight;
        assert k !in KeysOf(x.s.pool);
        var t :| Runs(x, t, k);
        step := Finish(t);
      }
    }
  }

  // ---------------------------------------------------------------- drain

  lemma LogsNest(x: System)
    requires Inv(x)
    ensures |x.finished| <= |x.started| <= |x.submitted|
  {
    forall k ensures |Of(x.started, k)| <= |Of(x.submitted, k)| {
      assert Of(x.started, k) + Owed(x.s, k) == Of(x.submitted, k);
    }
    ShorterEverywhere(x.started, x.submitted);
    forall k ensures |Of(x.finished, k)| <= |Of(x.started, k)| {
      StartedOneAhead(x, k);
    }
    ShorterEverywhere(x.finished, x.started);
  }

  ghost function Untold(x: System): set<nat> {
    set t | t in x.threads && (x.threads[t].Waiting? || x.threads[t].Calling?)
  }

  ghost function Waiters(x: System): set<nat> {
    set t | t in x.threads && x.threads[t].Waiting?
  }

  /** The work left: jobs not started, wakes running and notices not settled, weighted by the steps
      each still needs. */
  ghost function Work(x: System): int {
    5 * (|x.submitted| - |x.started|) + 4 * (|x.started| - |x.finished|)
    + |Notifiers(x)| + |Untold(x)| + |Waiters(x)|
  }

  ghost predicate OnlyMoves(x: System, y: System, t: nat) {
    && (forall u :: u != t ==> (u in y.threads <==> u in x.threads))
    && (forall u :: u != t && u in x.threads ==> y.threads[u] == x.threads[u])
  }

  function One(b: bool): int { if b then 1 else 0 }

  lemma SizeChange(a: set<nat>, b: set<nat>, t: nat)
    requires a - {t} == b - {t}
    ensures |b| - |a| == One(t in b) - One(t in a)
  {
    if t in a { assert a == (a - {t}) + {t}; } else { assert a == a - {t}; }
    if t in b { assert b == (b - {t}) + {t}; } else { assert b == b - {t}; }
  }

  lemma ThreadMoves(x: System, y: System, t: nat)
    requires OnlyMoves(x, y, t)
    ensures |Notifiers(y)| - |Notifiers(x)| == One(t in Notifiers(y)) - One(t in Notifiers(x))
    ensures |Untold(y)| - |Untold(x)| == One(t in Untold(y)) - One(t in Untold(x))
    ensures |Waiters(y)| - |Waiters(x)| == One(t in Waiters(y)) - One(t in Waiters(x))
  {
    SizeChange(Notifiers(x), Notifiers(y), t);
    SizeChange(Untold(x), Untold(y), t);
    SizeChange(Waiters(x), Waiters(y), t);
  }

  /** Without new submissions the work left goes down by exactly one at every step. */
  lemma StepWorks(x: System, step: Step)
    requires Inv(x) && Enabled(x, step) && Internal(step)
    ensures Work(Next(x, step)) == Work(x) - 1
  {
    ThreadMoves(x, Next(x, step), step.t);
  }

  ghost predicate AllInternal(steps: seq<Step>) {
    forall i :: 0 <= i < |steps| ==> Internal(steps[i])
  }

  lemma {:induction false} DrainLength(x: System, steps: seq<Step>, y: System)
    requires Inv(x) && Path(x, steps, y) && AllInternal(steps)
    ensures |steps| == Work(x) - Work(y)
    decreases |steps|
  {
    if steps != [] {
      StepKeeps(x, steps[0]);
      StepWorks(x, steps[0]);
      DrainLength(Next(x, steps[0]), steps[1..], y);
    }
  }

  /** What a thread returning from `wait_idle` may rely on: every submitted wake ran to its end exactly
      once, in its agent's submission order; the last count the observer was handed for every agent
      is 0; no thread is busy; and the ticket and queue registries hold no residue. */
  ghost predicate Drained(x: System) {
    && (forall k :: Of(x.finished, k) == Of(x.submitted, k))
    && (forall k :: Of(x.told, k) == Of(x.claimed, k) && LastCount(x.told, k) == 0)
    && (forall t :: t in x.threads ==> t < x.lanes && x.threads[t].Free?)
    && x.s.pool == [] && x.s.queues == map[] && x.s.notifySeq == map[] && x.s.notifyTurn == map[]
  }

  lemma IdleHasNoTickets(x: System)
    requires Inv(x) && Idle(x.s)
    ensures x.s.notifySeq == map[] && x.s.notifyTurn == map[]
    ensures forall t :: t in x.threads ==> t < x.lanes && !x.threads[t].HasNotice()
  {
    NobodyNotifying(x);
    forall k ensures k !in x.s.notifySeq {
      assert forall t :: !Holds(x, t, k, Turn(x.s, k));
      assert !Outstanding(x, k, Turn(x.s, k));
    }
    assert x.s.notifySeq.Keys == {} && x.s.notifyTurn.Keys == {};
  }

  lemma IdleHasNoWork(x: System)
    requires Inv(x) && Idle(x.s)
    ensures x.s.pool == [] && x.s.queues == map[]
    ensures forall t, k :: !Runs(x, t, k)
  {
    assert SetOf(x.s.ready) == {};
    assert x.s.queues.Keys == {};
    NoMembers(KeysOf(x.s.pool));
  }

  lemma IdleMeansDrained(x: System)
    requires Inv(x) && Idle(x.s)
    ensures Drained(x)
  {
    IdleHasNoTickets(x);
    IdleHasNoWork(x);
    forall t | t in x.threads ensures x.threads[t].Free? {}
    forall k ensures Of(x.finished, k) == Of(x.submitted, k) {
      assert Of(x.started, k) + Owed(x.s, k) == Of(x.submitted, k);
      assert forall t :: !Runs(x, t, k);
    }
    forall k ensures LastCount(x.told, k) == 0 {
      assert Pending(x.s, k) == 0;
    }
  }

  /** Draining always ends, after exactly as many steps as there was work, and ends drained. */
  lemma EveryMaximalRunDrains(x: System, steps: seq<Step>, y: System)
    requires Inv(x) && Path(x, steps, y) && AllInternal(steps)
    ensures |steps| <= Work(x)
    ensures (forall step :: Internal(step) ==> !Enabled(y, step)) ==> Idle(y.s) && Drained(y)
    ensures y.submitted == x.submitted
  {
    PathKeeps(x, steps, y);
    DrainLength(x, steps, y);
    LogsNest(y);
    NoNewSubmissions(x, steps, y);
    if forall step :: Internal(step) ==> !Enabled(y, step) {
      if !Idle(y.s) {
        var step := NeverStuck(y);
        assert false;
      }
      IdleMeansDrained(y);
    }
  }

  lemma {:induction false} NoNewSubmissions(x: System, steps: seq<Step>, y: System)
    requires Inv(x) && Path(x, steps, y) && AllInternal(steps)
    ensures y.submitted == x.submitted
    decreases |steps|
  {
    if steps != [] {
      StepKeeps(x, steps[0]);
      assert Internal(steps[0]);
      NoNewSubmissions(Next(x, steps[0]), steps[1..], y);
    }
  }

  /** And from every reachable state such a run exists. */
  lemma {:induction false} SomeRunDrains(x: System) returns (steps: seq<Step>, y: System)
    requires Inv(x)
    ensures Path(x, steps, y) && AllInternal(steps) && Inv(y) && Idle(y.s)
    decreases Work(x)
  {
    if Idle(x.s) {
      steps, y := [], x;
    } else {
      var step := NeverStuck(x);
      StepKeeps(x, step);
      StepWorks(x, step);
      LogsNest(Next(x, step));
      var rest, z := SomeRunDrains(Next(x, step));
      steps, y := [step] + rest, z;
      PathCons(x, step, rest, z);
    }
  }

  // ---------------------------------------------------------------- notifications

  /** The thread has the agent's notification and its turn has come. */
  ghost predicate InObserver(x: System, t: nat, k: Key) {
    exists i :: Holds(x, t, k, i) && !x.threads[t].Waiting?
  }

  /** How many of the counts read for an agent the observer has not been handed. */
  ghost function Undelivered(x: System, k: Key): int {
    |Of(x.claimed, k)| - |Of(x.told, k)|
  }

  lemma OneInTheObserver(x: System, k: Key)
    requires Ticketed(x)
    ensures forall t1, t2 :: InObserver(x, t1, k) && InObserver(x, t2, k) ==> t1 == t2
  {
    forall t1, t2 | InObserver(x, t1, k) && InObserver(x, t2, k) ensures t1 == t2 {
      var i1 :| Holds(x, t1, k, i1);
      var i2 :| Holds(x, t2, k, i2);
      assert i1 == Turn(x.s, k) && i2 == Turn(x.s, k);
    }
  }

  lemma DeliveredInOrder(x: System, k: Key)
    requires Ticketed(x) && Linearized(x) && k in x.s.notifySeq
    ensures Of(x.told, k) <= Of(x.claimed, k)
    ensures Undelivered(x, k) in {x.s.notifySeq[k] - Turn(x.s, k), x.s.notifySeq[k] - Turn(x.s, k) - 1}
  {
    assert Outstanding(x, k, Turn(x.s, k));
    var t :| Holds(x, t, k, Turn(x.s, k));
    assert InStep(x, t);
  }

  /** At every reachable moment, for each agent: at most one thread is inside the observer; the counts
      delivered are a prefix of the counts read, in the order they were read; those missing are the
      outstanding tickets; and once none is outstanding the observer's last value is current. */
  lemma NotificationsLinearized(x: System, k: Key)
    requires Inv(x)
    ensures forall t1, t2 :: InObserver(x, t1, k) && InObserver(x, t2, k) ==> t1 == t2
    ensures Of(x.told, k) <= Of(x.claimed, k)
    ensures k in x.s.notifySeq ==>
              Undelivered(x, k) in {x.s.notifySeq[k] - Turn(x.s, k), x.s.notifySeq[k] - Turn(x.s, k) - 1}
    ensures LastCount(x.claimed, k) == Pending(x.s, k)
    ensures k !in x.s.notifySeq ==> LastCount(x.told, k) == Pending(x.s, k)
  {
    OneInTheObserver(x, k);
    if k in x.s.notifySeq {
      DeliveredInOrder(x, k);
    }
  }

  // ---------------------------------------------------------------- fairness

  /** The agents dispatched so far, in order. */
  ghost function Dispatched(x: System): seq<Key> {
    KeysOf(x.started) + KeysOf(x.s.pool)
  }

  function FinishesOf(step: Step): nat {
    if step.Finish? then 1 else 0
  }

  /** Whom a step puts at the back of the ready queue. */
  ghost function Entering(x: System, step: Step): seq<Key>
    requires Enabled(x, step)
  {
    match step
    case Submit(_, k, _) => NewlyReady(x.s, k)
    case Finish(t) => ReEntering(x.s, x.threads[t].key)
    case _ => []
  }

  lemma SectionQueues(s: State, u: State, lanes: nat, entering: seq<Key>, released: set<Key>, d: seq<Key>)
    requires Section(s, u, lanes, entering, released)
    ensures d + KeysOf(s.pool) <= d + KeysOf(u.pool)
    ensures (d + KeysOf(u.pool)) + u.ready == (d + KeysOf(s.pool)) + s.ready + entering
  {
    PoolGrew(s.pool, u.pool);
    assert (d + KeysOf(u.pool)) + u.ready == d + (KeysOf(u.pool) + u.ready);
    assert d + (KeysOf(s.pool) + s.ready + entering) == (d + KeysOf(s.pool)) + s.ready + entering;
  }

  lemma PoolGrew(a: seq<(Key, Job)>, b: seq<(Key, Job)>)
    requires a <= b
    ensures KeysOf(a) <= KeysOf(b)
  {
  }

  lemma TakeQueues(x: System, y: System, t: nat)
    requires Takes(x, y, t)
    ensures Dispatched(y) == Dispatched(x)
  {
    assert KeysOf(y.started) == KeysOf(x.started) + [x.s.pool[0].0];
    assert KeysOf(x.s.pool) == [x.s.pool[0].0] + KeysOf(y.s.pool);
  }

  /** Dispatches only ever append, and whoever enters the ready queue enters at its back: in particular
      an agent that finishes with more work goes behind everyone already waiting. */
  lemma StepQueues(x: System, step: Step)
    requires Inv(x) && Enabled(x, step)
    ensures Dispatched(x) <= Dispatched(Next(x, step))
    ensures Dispatched(Next(x, step)) + Next(x, step).s.ready == Dispatched(x) + x.s.ready + Entering(x, step)
  {
    var y := Next(x, step);
    match step
    case Submit(t, k, j) =>
      SubmittedEffect(x.s, x.lanes, k, j);
      SectionQueues(x.s, y.s, x.lanes, NewlyReady(x.s, k), {}, KeysOf(x.started));
    case Finish(t) =>
      CompletedEffect(x.s, x.lanes, x.threads[t].key);
      SectionQueues(x.s, y.s, x.lanes, ReEntering(x.s, x.threads[t].key), {x.threads[t].key}, KeysOf(x.started));
    case Start(t) =>
      TakeQueues(x, y, t);
    case _ =>
  }

  lemma {:induction false} RunQueues(x: System, steps: seq<Step>, y: System)
    requires Inv(x) && Path(x, steps, y)
    ensures Dispatched(x) <= Dispatched(y)
    ensures Dispatched(x) + x.s.ready <= Dispatched(y) + y.s.ready
    decreases |steps|
  {
    if steps != [] {
      StepKeeps(x, steps[0]);
      StepQueues(x, steps[0]);
      RunQueues(Next(x, steps[0]), steps[1..], y);
    }
  }

  /** Dispatches went from `d` to `d'` while the ready queue went from `r` to `r'`, and the agent at index
      `i` of `r` was served in turn: the dispatches since then began with exactly the agents ahead of
      it, in order and each once; up to `i` of them it moved up by as many; the next was its own. */
  ghost predicate InTurn(d: seq<Key>, r: seq<Key>, d': seq<Key>, r': seq<Key>, i: nat)
    requires i < |r|
  {
    && d <= d'
    && var since := d'[|d|..];
       if |since| <= i
       then since == r[..|since|] && |since| + |r'| > i && r'[i - |since|] == r[i]
       else since[..i + 1] == r[..i + 1] && r[i] !in since[..i]
  }

  /** Round robin, from any reachable moment to any later one. */
  lemma RoundRobin(x: System, steps: seq<Step>, y: System, i: nat)
    requires Inv(x) && Path(x, steps, y) && i < |x.s.ready|
    ensures InTurn(Dispatched(x), x.s.ready, Dispatched(y), y.s.ready, i)
  {
    RunQueues(x, steps, y);
    Overtake(Dispatched(x), x.s.ready, Dispatched(y), y.s.ready, i);
  }

  lemma Overtake(d: seq<Key>, r: seq<Key>, d': seq<Key>, r': seq<Key>, i: nat)
    requires d <= d' && d + r <= d' + r' && i < |r| && NoDup(r)
    ensures InTurn(d, r, d', r', i)
  {
    var since := d'[|d|..];
    assert forall m :: 0 <= m < |r| ==> (d' + r')[|d| + m] == (d + r)[|d| + m] == r[m];
    assert forall m :: 0 <= m < |since| ==> since[m] == (d' + r')[|d| + m];
    if |since| <= i {
      assert (d' + r')[|d| + i] == r'[i - |since|];
    }
  }

  // ---------------------------------------------------------------- how long an agent waits

  /** While an agent waits, every completion dispatches exactly one agent and nothing else does. */
  lemma StepDispatches(x: System, step: Step)
    requires Inv(x) && Enabled(x, step) && x.s.ready != []
    ensures |Dispatched(Next(x, step))| == |Dispatched(x)| + FinishesOf(step)
  {
    match step
    case Submit(t, k, j) => SubmitDispatchesNone(x, t, k, j);
    case Finish(t) => FinishDispatchesOne(x, t);
    case _ =>
  }

  lemma SubmitDispatchesNone(x: System, t: nat, k: Key, j: Job)
    requires Inv(x) && Enabled(x, Submit(t, k, j)) && x.s.ready != []
    ensures |Dispatched(Next(x, Submit(t, k, j)))| == |Dispatched(x)|
  {
    SubmittedEffect(x.s, x.lanes, k, j);
    SlotsTaken(x.s, Next(x, Submit(t, k, j)).s, x.lanes, NewlyReady(x.s, k), {});
  }

  lemma FinishDispatchesOne(x: System, t: nat)
    requires Inv(x) && Enabled(x, Finish(t)) && x.s.ready != []
    ensures |Dispatched(Next(x, Finish(t)))| == |Dispatched(x)| + 1
  {
    var k := x.threads[t].key;
    CompletedEffect(x.s, x.lanes, k);
    SlotsTaken(x.s, Next(x, Finish(t)).s, x.lanes, ReEntering(x.s, k), {k});
  }

  /** With an agent waiting before the section, the lanes are full before and after it. */
  lemma SlotsTaken(s: State, u: State, lanes: nat, entering: seq<Key>, released: set<Key>)
    requires Valid(s, lanes) && s.ready != [] && Section(s, u, lanes, entering, released)
    requires released <= s.inflight && |released| <= 1
    ensures |u.pool| == |s.pool| + |released|
  {
    var fed := KeysOf(u.pool[|s.pool|..]);
    assert u.inflight == (s.inflight - released) + SetOf(fed);
    NoDupSize(fed);
    assert |u.inflight| == |s.inflight - released| + |fed|;
    assert |s.inflight - released| == lanes - |released|;
    assert |KeysOf(u.pool) + u.ready| == |KeysOf(s.pool) + s.ready + entering|;
  }

  function Finishes(steps: seq<Step>): nat {
    if steps == [] then 0 else FinishesOf(steps[0]) + Finishes(steps[1..])
  }

  /** The agent now at index `i` is dispatched by the (i+1)-th completion from now, neither sooner nor
      later, whatever is submitted meanwhile. */
  lemma {:induction false} WaitsExactly(x: System, steps: seq<Step>, y: System, i: nat)
    requires Inv(x) && Path(x, steps, y) && i < |x.s.ready|
    ensures |Dispatched(y)| - |Dispatched(x)| > i <==> Finishes(steps) > i
    ensures Finishes(steps) <= i ==> |Dispatched(y)| - |Dispatched(x)| == Finishes(steps)
    decreases |steps|
  {
    if steps != [] {
      var z := Next(x, steps[0]);
      StepKeeps(x, steps[0]);
      StepDispatches(x, steps[0]);
      StepQueues(x, steps[0]);
      var f := FinishesOf(steps[0]);
      RunQueues(z, steps[1..], y);
      if f <= i {
        assert |z.s.ready| >= |x.s.ready| - f;
        WaitsExactly(z, steps[1..], y, i - f);
      }
    }
  }

  /** The stated bound (scheduler.py:45-47), that a waiting agent waits for at most the wakes
      running now, one per lane. */
  ghost predicate WaitsAtMostLanes(x: System, i: nat)
    requires Inv(x)
  {
    forall steps, y :: Path(x, steps, y) && Finishes(steps) >= x.lanes ==> |Dispatched(y)| - |Dispatched(x)| > i
  }

  /** A run can be stopped at any number of its completions. */
  lemma {:induction false} CutRun(x: System, all: seq<Step>, z: System, c: nat) returns (steps: seq<Step>, y: System)
    requires Path(x, all, z) && c <= Finishes(all)
    ensures Path(x, steps, y) && Finishes(steps) == c
    decreases |all|
  {
    if c == 0 {
      steps, y := [], x;
    } else {
      var rest, end := CutRun(Next(x, all[0]), all[1..], z, c - FinishesOf(all[0]));
      PathCons(x, all[0], rest, end);
      FinishesCons(all[0], rest);
      steps, y := [all[0]] + rest, end;
    }
  }

  lemma FinishesCons(step: Step, rest: seq<Step>)
    ensures Finishes([step] + rest) == FinishesOf(step) + Finishes(rest)
  {
    assert ([step] + rest)[1..] == rest;
  }

  lemma FewAheadDoNotWait(x: System, i: nat, steps: seq<Step>, y: System)
    requires Inv(x) && i < |x.s.ready| && i < x.lanes
    requires Path(x, steps, y) && Finishes(steps) >= x.lanes
    ensures |Dispatched(y)| - |Dispatched(x)| > i
  {
    WaitsExactly(x, steps, y, i);
  }

  /** Some run dispatches every agent that waits, and so completes enough wakes to. */
  lemma SomeRunReaches(x: System, i: nat) returns (steps: seq<Step>, y: System)
    requires Inv(x) && i < |x.s.ready|
    ensures Path(x, steps, y) && Finishes(steps) > i
  {
    steps, y := SomeRunDrains(x);
    RoundRobin(x, steps, y, i);
    WaitsExactly(x, steps, y, i);
  }

  /** A run with exactly `lanes` completions that leaves the agent at index `lanes` or later waiting. */
  lemma ManyAheadWait(x: System, i: nat) returns (steps: seq<Step>, y: System)
    requires Inv(x) && i < |x.s.ready| && x.lanes <= i
    ensures Path(x, steps, y) && Finishes(steps) == x.lanes && |Dispatched(y)| - |Dispatched(x)| <= i
  {
    var all, z := SomeRunReaches(x, i);
    steps, y := CutRun(x, all, z, x.lanes);
    WaitsExactly(x, steps, y, i);
  }

  /** It holds exactly for the agents with fewer than `lanes` others ahead of them. */
  lemma WaitsAtMostLanesIff(x: System, i: nat)
    requires Inv(x) && i < |x.s.ready|
    ensures WaitsAtMostLanes(x, i) <==> i < x.lanes
  {
    if i < x.lanes {
      forall steps, y | Path(x, steps, y) && Finishes(steps) >= x.lanes ensures |Dispatched(y)| - |Dispatched(x)| > i {
        FewAheadDoNotWait(x, i, steps, y);
      }
    } else {
      var steps, y := ManyAheadWait(x, i);
    }
  }

  /** What a submission leaves: the agents in flight, those waiting, and its thread. */
  ghost predicate After(x: System, y: System, t: nat, inflight: set<Key>, ready: seq<Key>) {
    && Reachable(1, y) && y.lanes == x.lanes
    && y.threads.Keys == x.threads.Keys + {t}
    && y.s.inflight == inflight && y.s.ready == ready
  }

  /** A submission while every lane is busy dispatches nobody. */
  lemma SubmitToFullLanes(x: System, t: nat, k: Key, j: Job) returns (y: System)
    requires Reachable(1, x) && Enabled(x, Submit(t, k, j)) && |x.s.inflight| == x.lanes
    requires k !in x.s.inflight && k !in x.s.ready
    ensures After(x, y, t, x.s.inflight, x.s.ready + [k])
  {
    ReachableHolds(1, x);
    StaysReachable(1, x, Submit(t, k, j));
    SubmittedEffect(x.s, x.lanes, k, j);
    assert NewlyReady(x.s, k) == [k];
    NoSlots(x.s, Submitted(x.s, x.lanes, k, j).0, x.lanes, [k]);
    y := Next(x, Submit(t, k, j));
  }

  lemma NoSlots(s: State, u: State, lanes: nat, entering: seq<Key>)
    requires |s.inflight| == lanes && Section(s, u, lanes, entering, {})
    ensures u.inflight == s.inflight && u.ready == s.ready + entering
  {
    var fed := KeysOf(u.pool[|s.pool|..]);
    NoDupSize(fed);
    assert u.inflight == s.inflight + SetOf(fed);
    assert |fed| == 0;
    assert u.pool == s.pool;
    var p := KeysOf(s.pool);
    assert p + u.ready == p + (s.ready + entering);
    assert u.ready == (p + u.ready)[|p|..];
  }

  lemma FirstSubmission(t: nat, k: Key, j: Job) returns (y: System)
    requires 1 <= t
    ensures After(Init(1), y, t, {k}, [])
  {
    assert Path(Init(1), [], Init(1));
    InitHolds(1);
    StaysReachable(1, Init(1), Submit(t, k, j));
    SubmittedEffect(EMPTY, 1, k, j);
    assert NewlyReady(EMPTY, k) == [k];
    FirstSection(Submitted(EMPTY, 1, k, j).0, k);
    y := Next(Init(1), Submit(t, k, j));
  }

  lemma FirstSection(u: State, k: Key)
    requires Section(EMPTY, u, 1, [k], {})
    ensures u.inflight == {k} && u.ready == []
  {
    assert u.pool[0..] == u.pool;
    assert |KeysOf(u.pool) + u.ready| == 1;
    assert u.inflight == SetOf(KeysOf(u.pool));
    NoDupSize(KeysOf(u.pool));
    assert |u.ready| == 0;
    assert KeysOf(u.pool) + u.ready == [k] && KeysOf(u.pool) == KeysOf(u.pool) + u.ready;
  }

  lemma TwoMore(x: System, b: Key, c: Key) returns (y: System)
    requires Reachable(1, x) && x.lanes == 1 && |x.s.inflight| == 1 && x.s.ready == []
    requires b !in x.s.inflight && c !in x.s.inflight && b != c && 2 !in x.threads && 3 !in x.threads
    ensures Reachable(1, y) && y.lanes == 1 && y.s.ready == [b, c]
  {
    var x2 := SubmitToFullLanes(x, 2, b, 0);
    y := SubmitToFullLanes(x2, 3, c, 0);
  }

  lemma ThreeWaiting(a: Key, b: Key, c: Key) returns (x: System)
    requires a != b && b != c && a != c
    ensures Reachable(1, x) && x.lanes == 1 && x.s.ready == [b, c]
  {
    var x1 := FirstSubmission(1, a, 0);
    x := TwoMore(x1, b, c);
  }

  /** One lane, and three agents submitted to in turn: the third has one agent ahead of it and so waits
      for two completions, one more than there are lanes. */
  lemma WaitsLongerThanLanes(a: Key, b: Key, c: Key) returns (x: System)
    requires a != b && b != c && a != c
    ensures Reachable(1, x) && Inv(x) && x.s.ready == [b, c] && !WaitsAtMostLanes(x, 1)
  {
    x := ThreeWaiting(a, b, c);
    ReachableHolds(1, x);
    WaitsAtMostLanesIff(x, 1);
  }
}
