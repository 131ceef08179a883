/** The scheduler and its observer together: what the evidence document shows as queued. */
module DepthReports {
  import opened Common
  import opened SchedulerState
  import opened SchedulerProtocol
  import opened SchedulerTheorems
  import Evidence

  /** The store was told these counts, in this order, among whatever wakes were recorded in between. */
  ghost predicate Observes(x: System, events: seq<Evidence.Event>) {
    Evidence.Depths(events) == x.told
  }

  /** At every moment the document's depth for an agent with no notification outstanding is the number of its
      wakes that are queued or running. */
  lemma ShownIsPending(x: System, events: seq<Evidence.Event>, k: Key)
    requires Inv(x) && Observes(x, events)
    ensures k !in x.s.notifySeq ==> Evidence.Wake(Evidence.Replay(events), k).queued == Pending(x.s, k)
  {
    NotificationsLinearized(x, k);
    Evidence.QueuedIsLastDepth(events, k);
  }

  /** So once `wait_idle` holds, the document shows no wake queued for any agent. */
  lemma IdleShowsNothingQueued(lanes: nat, x: System, events: seq<Evidence.Event>, k: Key)
    requires 1 <= lanes && Reachable(lanes, x) && Idle(x.s) && Observes(x, events)
    ensures Evidence.Wake(Evidence.Replay(events), k).queued == 0
  {
    ReachableHolds(lanes, x);
    IdleMeansDrained(x);
    Evidence.QueuedIsLastDepth(events, k);
  }
}
