/** The scheduler and the dispatch half together: each running thread takes its job through the gates and the
    wake. The dispatch half assumes that one delivery of an agent is inside at a time; the scheduler sees to it. */
module DispatchScheduled {
  import opened Common
  import opened Models
  import opened Lru
  import S = SchedulerProtocol
  import SchedulerInvariant
  import opened Pipeline
  import opened PipelineRuns

  /** How far a thread is with the `execute` of its job. */
  datatype Phase = Fresh | Inside | Over

  datatype Joint = Joint(x: S.System, w: World, phase: map<nat, Phase>)

  datatype Move =
    | Schedule(step: S.Step)                             // a step of the scheduler
    | Meet(t: nat, event: Event, g: GateInput)           // thread `t` takes its job's delivery to the gates
    | Leave(t: nat, input: WakeInput)                    // the wake that thread `t` is in is over

  ghost predicate Running(j: Joint, t: nat, phase: Phase) {
    t in j.x.threads && j.x.threads[t].Running? && t in j.phase && j.phase[t] == phase
  }

  /** What the threads may do next. That an agent is free when a delivery of it arrives is not asked. */
  ghost predicate Able(j: Joint, move: Move) {
    match move
    case Schedule(step) => S.Enabled(j.x, step) && (step.Finish? ==> Running(j, step.t, Over))
    case Meet(t, _, _) => Running(j, t, Fresh)
    case Leave(t, _) => Running(j, t, Inside)
  }

  ghost predicate Awake(j: Joint, t: nat, agent: string) {
    S.Runs(j.x, t, agent) && Running(j, t, Inside)
  }

  /** The agents inside the dispatch half are exactly those with a thread inside, and no two threads run one
      agent. */
  ghost predicate Agrees(j: Joint) {
    && (forall t1, t2, agent :: S.Runs(j.x, t1, agent) && S.Runs(j.x, t2, agent) ==> t1 == t2)
    && (forall t :: t in j.x.threads && j.x.threads[t].Running? ==> t in j.phase)
    && (forall t, agent :: Awake(j, t, agent) ==> agent in j.w.waking)
    && (forall agent :: agent in j.w.waking ==> exists t :: Awake(j, t, agent))
  }

  /** No delivery of an agent arrives while another is inside. */
  lemma ArrivalsAreAdmissible(j: Joint, t: nat, event: Event, g: GateInput)
    requires Agrees(j) && Running(j, t, Fresh)
    ensures Enabled(j.w, Arrive(j.x.threads[t].key, event, g))
  {
    var agent := j.x.threads[t].key;
    assert S.Runs(j.x, t, agent);
    forall u ensures !Awake(j, u, agent) {
      assert S.Runs(j.x, u, agent) ==> u == t;
    }
  }

  lemma EndingsAreAdmissible(j: Joint, t: nat, input: WakeInput)
    requires Agrees(j) && Running(j, t, Inside)
    ensures Enabled(j.w, End(j.x.threads[t].key, input))
  {
    assert Awake(j, t, j.x.threads[t].key);
  }

  /** The scheduler's own steps leave the dispatch half alone; a thread that starts a job starts it fresh. */
  ghost function Scheduled(j: Joint, step: S.Step): Joint
    requires S.Steppable(j.x) && S.Enabled(j.x, step)
  {
    Joint(S.Next(j.x, step), j.w, if step.Start? then j.phase[step.t := Fresh] else j.phase)
  }

  ghost function Advance(cfg: Config, j: Joint, move: Move): Joint
    requires S.Steppable(j.x) && Agrees(j) && Able(j, move)
  {
    match move
    case Schedule(step) => Scheduled(j, step)
    case Meet(t, event, g) =>
      ArrivalsAreAdmissible(j, t, event, g);
      var agent := j.x.threads[t].key;
      var w := Next(cfg, j.w, Arrive(agent, event, g));
      Joint(j.x, w, j.phase[t := if agent in w.waking then Inside else Over])
    case Leave(t, input) =>
      EndingsAreAdmissible(j, t, input);
      Joint(j.x, Next(cfg, j.w, End(j.x.threads[t].key, input)), j.phase[t := Over])
  }

  // ---------------------------------------------------------------- each move keeps it

  /** A scheduler step starts or ends the running of no thread but its own. */
  lemma OthersRunOn(x: S.System, step: S.Step, u: nat)
    requires S.Steppable(x) && S.Enabled(x, step) && u != step.t
    ensures u in S.Next(x, step).threads <==> u in x.threads
    ensures u in x.threads ==> S.Next(x, step).threads[u] == x.threads[u]
  {
  }

  lemma OwnRunning(x: S.System, step: S.Step)
    requires S.Steppable(x) && S.Enabled(x, step)
    ensures var y := S.Next(x, step);
            step.t in y.threads && y.threads[step.t].Running? <==> step.Start?
    ensures step.t in x.threads && x.threads[step.t].Running? <==> step.Finish?
  {
  }

  /** So it neither brings a thread inside nor takes one out. */
  lemma ScheduleLeavesAwake(j: Joint, step: S.Step, k: Joint, u: nat, agent: string)
    requires S.Steppable(j.x) && Able(j, Schedule(step)) && k == Scheduled(j, step)
    ensures Awake(k, u, agent) <==> Awake(j, u, agent)
  {
    if u != step.t {
      OthersRunOn(j.x, step, u);
    } else {
      OwnRunning(j.x, step);
    }
  }

  lemma ScheduleKeepsPhases(j: Joint, step: S.Step, k: Joint, u: nat)
    requires S.Steppable(j.x) && Able(j, Schedule(step)) && k == Scheduled(j, step)
    requires u in j.x.threads && j.x.threads[u].Running? ==> u in j.phase
    ensures u in k.x.threads && k.x.threads[u].Running? ==> u in k.phase
  {
    if u != step.t {
      OthersRunOn(j.x, step, u);
    } else {
      OwnRunning(j.x, step);
    }
  }

  lemma ScheduleKeeps(j: Joint, step: S.Step, k: Joint)
    requires S.Inv(j.x) && Agrees(j) && Able(j, Schedule(step)) && k == Scheduled(j, step)
    ensures S.Inv(k.x) && Agrees(k)
  {
    SchedulerInvariant.StepKeeps(j.x, step);
    forall u, agent ensures Awake(k, u, agent) <==> Awake(j, u, agent) {
      ScheduleLeavesAwake(j, step, k, u, agent);
    }
    forall u | u in k.x.threads && k.x.threads[u].Running? ensures u in k.phase {
      ScheduleKeepsPhases(j, step, k, u);
    }
    forall agent | agent in k.w.waking ensures exists t :: Awake(k, t, agent) {
      var t :| Awake(j, t, agent);
      assert Awake(k, t, agent);
    }
  }

  /** The thread's own agent is inside afterwards exactly when the thread is. */
  lemma OneThreadMoves(j: Joint, k: Joint, t: nat, agent: string)
    requires Agrees(j) && S.Runs(j.x, t, agent) && k.x == j.x
    requires t in k.phase && k.phase == j.phase[t := k.phase[t]]
    requires agent in k.w.waking <==> k.phase[t] == Inside
    requires forall other :: other != agent ==> (other in k.w.waking <==> other in j.w.waking)
    ensures Agrees(k)
  {
    forall u, other | Awake(k, u, other) ensures other in k.w.waking {
      if u != t {
        assert Awake(j, u, other);
        assert S.Runs(j.x, u, other);
      }
    }
    forall other | other in k.w.waking ensures exists u :: Awake(k, u, other) {
      if other == agent {
        assert Awake(k, t, agent);
      } else {
        var u :| Awake(j, u, other);
        assert Awake(k, u, other);
      }
    }
  }

  lemma MeetKeeps(cfg: Config, j: Joint, t: nat, event: Event, g: GateInput)
    requires S.Steppable(j.x) && Agrees(j) && Running(j, t, Fresh)
    ensures Agrees(Advance(cfg, j, Meet(t, event, g)))
  {
    var k := Advance(cfg, j, Meet(t, event, g));
    var agent := j.x.threads[t].key;
    ArrivalsAreAdmissible(j, t, event, g);
    ArriveEffect(cfg, j.w, agent, event, g, k.w);
    OneThreadMoves(j, k, t, agent);
  }

  lemma LeaveKeeps(cfg: Config, j: Joint, t: nat, input: WakeInput)
    requires S.Steppable(j.x) && Agrees(j) && Running(j, t, Inside)
    ensures Agrees(Advance(cfg, j, Leave(t, input)))
  {
    var k := Advance(cfg, j, Leave(t, input));
    var agent := j.x.threads[t].key;
    EndingsAreAdmissible(j, t, input);
    EndEffect(cfg, j.w, agent, input, k.w);
    OneThreadMoves(j, k, t, agent);
  }

  /** Whatever the threads do next, the two halves go on agreeing: no move leads out of the runs below. */
  lemma AdvanceKeeps(cfg: Config, j: Joint, move: Move)
    requires S.Inv(j.x) && Agrees(j) && Able(j, move)
    ensures S.Inv(Advance(cfg, j, move).x) && Agrees(Advance(cfg, j, move))
  {
    match move
    case Schedule(step) => ScheduleKeeps(j, step, Scheduled(j, step));
    case Meet(t, event, g) => MeetKeeps(cfg, j, t, event, g);
    case Leave(t, input) => LeaveKeeps(cfg, j, t, input);
  }

  // ---------------------------------------------------------------- over whole runs

  ghost predicate JointRuns(cfg: Config, j: Joint, moves: seq<Move>, k: Joint)
    decreases |moves|
  {
    if moves == [] then j == k
    else
      && S.Steppable(j.x) && Agrees(j) && Able(j, moves[0])
      && JointRuns(cfg, Advance(cfg, j, moves[0]), moves[1..], k)
  }

  function Beginning(lanes: nat, clock: real): Joint
    requires 1 <= lanes
  {
    Joint(S.Init(lanes), PipelineRuns.Start(clock), map[])
  }

  lemma BeginningAgrees(lanes: nat, clock: real)
    requires 1 <= lanes
    ensures S.Inv(Beginning(lanes, clock).x) && Agrees(Beginning(lanes, clock))
  {
    SchedulerInvariant.InitHolds(lanes);
  }

  lemma RunsCons(cfg: Config, x: World, step: PipelineRuns.Step, rest: seq<PipelineRuns.Step>, z: World)
    requires Enabled(x, step) && Runs(cfg, Next(cfg, x, step), rest, z)
    ensures Runs(cfg, x, [step] + rest, z)
  {
    assert ([step] + rest)[1..] == rest;
  }

  /** One move is one step of the dispatch half, or none. */
  lemma MoveIsStep(cfg: Config, j: Joint, move: Move) returns (step: Option<PipelineRuns.Step>)
    requires S.Steppable(j.x) && Agrees(j) && Able(j, move)
    ensures var after := Advance(cfg, j, move).w;
            if step.Some? then Enabled(j.w, step.value) && after == Next(cfg, j.w, step.value) else after == j.w
  {
    match move
    case Schedule(_) => step := None;
    case Meet(t, event, g) =>
      ArrivalsAreAdmissible(j, t, event, g);
      step := Some(Arrive(j.x.threads[t].key, event, g));
    case Leave(t, input) =>
      EndingsAreAdmissible(j, t, input);
      step := Some(End(j.x.threads[t].key, input));
  }

  lemma {:induction false} DispatchOf(cfg: Config, j: Joint, moves: seq<Move>, k: Joint)
    returns (steps: seq<PipelineRuns.Step>)
    requires S.Inv(j.x) && Agrees(j) && JointRuns(cfg, j, moves, k)
    ensures S.Inv(k.x) && Agrees(k) && Runs(cfg, j.w, steps, k.w)
    decreases |moves|
  {
    if moves == [] {
      steps := [];
    } else {
      AdvanceKeeps(cfg, j, moves[0]);
      var first := MoveIsStep(cfg, j, moves[0]);
      steps := DispatchOf(cfg, Advance(cfg, j, moves[0]), moves[1..], k);
      if first.Some? {
        RunsCons(cfg, j.w, first.value, steps, k.w);
        steps := [first.value] + steps;
      }
    }
  }

  /** Every run of the scheduler's threads through the dispatch half is one of the runs the dispatch theorems
      speak of, and in it no two threads are inside with one agent. */
  lemma ScheduledRunIsDispatchRun(cfg: Config, lanes: nat, clock: real, moves: seq<Move>, k: Joint)
    returns (steps: seq<PipelineRuns.Step>)
    requires 1 <= lanes && JointRuns(cfg, Beginning(lanes, clock), moves, k)
    ensures Runs(cfg, PipelineRuns.Start(clock), steps, k.w)
    ensures forall t1, t2, agent :: Awake(k, t1, agent) && Awake(k, t2, agent) ==> t1 == t2
  {
    BeginningAgrees(lanes, clock);
    steps := DispatchOf(cfg, Beginning(lanes, clock), moves, k);
  }
}
