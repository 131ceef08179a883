/** Deliveries that were resolved through the registry: a dedup key is then one agent's, which is what the
    theorem on dedups after a stop asks. */
module DispatchResolved {
  import opened Common
  import opened Models
  import opened Pipeline
  import opened PipelineRuns
  import opened DispatchOnce
  import opened DispatchStopped
  import Registry

  /** How a delivery reaches an agent: its recipient resolves to it. `kinds` is the one kind of recipient each
      route delivers by; route names and recipients hold no colon. */
  ghost predicate Routed(ix: Registry.Indexes, kinds: map<string, string>, agent: string, event: Event) {
    && event.source in kinds && kinds[event.source] == event.recipient.tag
    && ':' !in event.source && ':' !in event.recipient.value
    && Registry.Resolve(ix, event.recipient).Ok?
    && Registry.Resolve(ix, event.recipient).value.HarnessKey() == agent
  }

  lemma KeyIsOneAgents(ix: Registry.Indexes, kinds: map<string, string>, a: string, e: Event, b: string, f: Event)
    requires Routed(ix, kinds, a, e) && Routed(ix, kinds, b, f) && e.DedupKey() == f.DedupKey()
    ensures a == b
  {
    DedupKeyNamesOneDelivery(e, f);
    assert e.recipient == f.recipient;
  }

  /** Every delivery of a run arrives so. */
  ghost predicate ArriveRouted(ix: Registry.Indexes, kinds: map<string, string>, steps: seq<Step>) {
    forall k :: 0 <= k < |steps| && steps[k].Arrive? ==> Routed(ix, kinds, steps[k].agent, steps[k].event)
  }

  ghost predicate AllRouted(ix: Registry.Indexes, kinds: map<string, string>, x: World) {
    && (forall a :: a in x.waking ==> Routed(ix, kinds, a, x.waking[a].0))
    && (forall i :: 0 <= i < |x.log| ==> Routed(ix, kinds, x.log[i].agent, x.log[i].event))
  }

  lemma StepRouted(cfg: Config, ix: Registry.Indexes, kinds: map<string, string>, x: World, step: Step, y: World)
    requires AllRouted(ix, kinds, x) && Enabled(x, step) && y == Next(cfg, x, step)
    requires step.Arrive? ==> Routed(ix, kinds, step.agent, step.event)
    ensures AllRouted(ix, kinds, y)
  {
    match step
    case Arrive(agent, event, g) => ArriveEffect(cfg, x, agent, event, g, y);
    case End(agent, w) => EndEffect(cfg, x, agent, w, y);
  }

  lemma {:induction false} RunRouted(cfg: Config, ix: Registry.Indexes, kinds: map<string, string>, x: World,
                                     steps: seq<Step>, y: World)
    requires Runs(cfg, x, steps, y) && AllRouted(ix, kinds, x) && ArriveRouted(ix, kinds, steps)
    ensures AllRouted(ix, kinds, y)
    decreases |steps|
  {
    if steps != [] {
      StepRouted(cfg, ix, kinds, x, steps[0], Next(cfg, x, steps[0]));
      assert forall k :: 0 <= k < |steps| - 1 ==> steps[1..][k] == steps[k + 1];
      RunRouted(cfg, ix, kinds, Next(cfg, x, steps[0]), steps[1..], y);
    }
  }

  /** Where every recipient was resolved through one registry, a delivery refused as seen follows an ok of its own
      agent, less than a TTL old, exactly when the last wake to complete for its key was not stopped. */
  lemma ResolvedDedupFollowsOkIff(cfg: Config, ix: Registry.Indexes, kinds: map<string, string>, clock: real,
                                  steps: seq<Step>, y: World, j: int) returns (i: int)
    requires cfg.ttl > 0.0 && Runs(cfg, Start(clock), steps, y) && y.inOrder && ArriveRouted(ix, kinds, steps)
    requires 0 <= j < |y.log| && y.log[j].verdict == DedupedDelivery
    ensures LastBefore(y.log, i, j, y.log[j].event.DedupKey()) && y.log[i].agent == y.log[j].agent
    ensures FollowsOk(cfg.ttl, y.log, j, y.log[j].event.DedupKey()) <==> !y.log[i].verdict.StoppedWake?
  {
    RunRouted(cfg, ix, kinds, Start(clock), steps, y);
    forall k | Completes(y.log, k, y.log[j].event.DedupKey()) ensures y.log[k].agent == y.log[j].agent {
      KeyIsOneAgents(ix, kinds, y.log[k].agent, y.log[k].event, y.log[j].agent, y.log[j].event);
    }
    i := DedupFollowsOkIff(cfg, clock, steps, y, j);
  }
}
