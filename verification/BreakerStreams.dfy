/** The bound on a stream's rate: runs of calls that reach it. */
module BreakerStreams {
  import opened Common
  import opened Breaker
  import opened BreakerTheory
  import opened BreakerRate
  import opened BreakerTight
  import opened BreakerScopes

  /** Call `m` of a burst: on the stream until that has tripped, and then on no stream, to trip the agent as well. */
  function MixedCall(cfg: Config, agent: string, stream: string, n: nat, m: nat): Call {
    Call(Times(n, cfg.cooldown), agent, if m <= cfg.streamMaxWakes then Some(stream) else None)
  }

  /** `n` bursts, a cooldown apart, each of one call more than the agent's threshold, and `m` calls of the next. */
  function Mixed(cfg: Config, agent: string, stream: string, n: nat, m: nat): seq<Call>
    requires cfg.maxWakes >= 1
    decreases n, m
  {
    if m > 0 then Mixed(cfg, agent, stream, n, m - 1) + [MixedCall(cfg, agent, stream, n, m - 1)]
    else if n > 0 then Mixed(cfg, agent, stream, n - 1, cfg.maxWakes + 1)
    else []
  }

  function Least(a: int, b: int): int { if a <= b then a else b }

  // ---------------------------------------------------------------- one call

  lemma HealTwo(hs: Histories, a: Scope, b: Scope, now: real)
    requires a != b
    requires Past(hs, a).until.Some? ==> Past(hs, a).until.value <= now
    requires Past(hs, b).until.Some? ==> Past(hs, b).until.value <= now
    ensures SpecHeal(hs, [a, b], now).1 == None
    ensures Past(SpecHeal(hs, [a, b], now).0, a) == Cleared(Past(hs, a))
    ensures Past(SpecHeal(hs, [a, b], now).0, b) == Cleared(Past(hs, b))
  {
    var healed := if Past(hs, a).until == None then hs else hs[a := Cleared(Past(hs, a))];
    assert [a, b][1..] == [b];
    assert SpecHeal(hs, [a, b], now) == SpecHeal(healed, [b], now);
    HealAlone(healed, b, now);
  }

  lemma RecordTwo(cfg: Config, hs: Histories, a: Scope, b: Scope, n: nat, m: nat)
    requires a != b && m < cfg.Threshold(a) && m <= cfg.Threshold(b)
    requires Ready(cfg, Past(hs, a), n, m) && Ready(cfg, Past(hs, b), n, m)
    ensures var (hs', outcome) := SpecRecord(cfg, hs, [a, b], Times(n, cfg.cooldown));
            && Past(hs', a) == OneMoreAt(cfg, Past(hs, a), n, false)
            && Past(hs', b) == OneMoreAt(cfg, Past(hs, b), n, m == cfg.Threshold(b))
            && (outcome.Admitted? <==> m < cfg.Threshold(b))
  {
    var after := hs[a := OneMoreAt(cfg, Past(hs, a), n, false)];
    assert [a, b][1..] == [b];
    assert SpecRecord(cfg, hs, [a, b], Times(n, cfg.cooldown)) == SpecRecord(cfg, after, [b], Times(n, cfg.cooldown));
    LastScope(cfg, after, b, n, m);
  }

  /** A call on the stream is admitted until the stream is full, and the next one trips the stream. */
  lemma OnStream(cfg: Config, hs: Histories, agent: string, stream: string, n: nat, m: nat)
    requires cfg.Ok() && 1 <= cfg.streamMaxWakes && m <= cfg.streamMaxWakes && m < cfg.maxWakes
    requires Stage(cfg, Past(hs, AgentScope(agent)), n, m, cfg.maxWakes)
    requires Stage(cfg, Past(hs, StreamScope(agent, stream)), n, m, cfg.streamMaxWakes)
    ensures var (hs', outcome) := SpecAdmit(cfg, hs, MixedCall(cfg, agent, stream, n, m));
            && Stage(cfg, Past(hs', AgentScope(agent)), n, m + 1, cfg.maxWakes)
            && Stage(cfg, Past(hs', StreamScope(agent, stream)), n, m + 1, cfg.streamMaxWakes)
            && (outcome.Admitted? <==> m < cfg.streamMaxWakes)
  {
    var a, b, t := AgentScope(agent), StreamScope(agent, stream), Times(n, cfg.cooldown);
    assert Scopes(cfg, MixedCall(cfg, agent, stream, n, m)) == [a, b];
    ClearedIsReady(cfg, Past(hs, a), n, m, cfg.maxWakes);
    ClearedIsReady(cfg, Past(hs, b), n, m, cfg.streamMaxWakes);
    HealTwo(hs, a, b, t);
    var healed := SpecHeal(hs, [a, b], t).0;
    RecordTwo(cfg, healed, a, b, n, m);
    OneMoreStage(cfg, Past(healed, a), n, m, cfg.maxWakes);
    OneMoreStage(cfg, Past(healed, b), n, m, cfg.streamMaxWakes);
  }

  /** A later call of the burst moves only the agent's scope. */
  lemma OffStream(cfg: Config, hs: Histories, agent: string, stream: string, n: nat, m: nat)
    requires cfg.Ok() && cfg.streamMaxWakes < m <= cfg.maxWakes
    requires Stage(cfg, Past(hs, AgentScope(agent)), n, m, cfg.maxWakes)
    ensures var hs' := SpecAdmit(cfg, hs, MixedCall(cfg, agent, stream, n, m)).0;
            && Stage(cfg, Past(hs', AgentScope(agent)), n, m + 1, cfg.maxWakes)
            && Past(hs', StreamScope(agent, stream)) == Past(hs, StreamScope(agent, stream))
  {
    assert MixedCall(cfg, agent, stream, n, m) == CallAt(cfg, agent, n);
    OneMoreCall(cfg, hs, agent, n, m);
  }

  // ---------------------------------------------------------------- the whole run

  /** Both scopes after calls up to the `m`-th of burst `n`. */
  ghost predicate BothAt(cfg: Config, agent: string, stream: string, hs: Histories, n: nat, m: nat)
    requires cfg.streamMaxWakes >= 1
  {
    && Stage(cfg, Past(hs, AgentScope(agent)), n, m, cfg.maxWakes)
    && Stage(cfg, Past(hs, StreamScope(agent, stream)), n, Least(m, cfg.streamMaxWakes + 1), cfg.streamMaxWakes)
  }

  function Due(cfg: Config, n: nat, m: nat): int { n * cfg.streamMaxWakes + Least(m, cfg.streamMaxWakes) }

  ghost predicate UpTo(calls: seq<Call>, t: real) {
    Ordered(calls) && forall i :: 0 <= i < |calls| ==> calls[i].now <= t
  }

  /** What calls up to the `m`-th of burst `n` come to. */
  ghost predicate MixedTo(cfg: Config, agent: string, stream: string, calls: seq<Call>, n: nat, m: nat)
    requires cfg.streamMaxWakes >= 1
  {
    var (hs, outcomes) := SpecRun(cfg, calls);
    && UpTo(calls, Times(n, cfg.cooldown)) && |outcomes| == |calls| && BothAt(cfg, agent, stream, hs, n, m)
    && AdmittedIn(cfg, calls, outcomes, StreamScope(agent, stream), 0.0, false) == Due(cfg, n, m)
  }

  lemma UpToSnoc(calls: seq<Call>, call: Call)
    requires UpTo(calls, call.now)
    ensures UpTo(calls + [call], call.now)
  {
    OrderedSnoc(calls, call);
  }

  /** One call more, from what it leaves of the scopes and whether it counts. */
  lemma MixedGrows(cfg: Config, agent: string, stream: string, calls: seq<Call>, call: Call, n: nat, m: nat)
    requires cfg.Ok() && 1 <= cfg.streamMaxWakes && call.now == Times(n, cfg.cooldown) && 1 <= m
    requires MixedTo(cfg, agent, stream, calls, n, m - 1)
    requires BothAt(cfg, agent, stream, SpecAdmit(cfg, SpecRun(cfg, calls).0, call).0, n, m)
    requires m <= cfg.streamMaxWakes <==>
               && SpecAdmit(cfg, SpecRun(cfg, calls).0, call).1.Admitted?
               && StreamScope(agent, stream) in Scopes(cfg, call) && Within(cfg, call.now, 0.0, false)
    ensures MixedTo(cfg, agent, stream, calls + [call], n, m)
  {
    UpToSnoc(calls, call);
    AdmittedSnoc(cfg, calls, call, StreamScope(agent, stream), 0.0, false);
  }

  lemma MixedNothing(cfg: Config, agent: string, stream: string)
    requires cfg.Ok() && cfg.streamMaxWakes >= 1
    ensures MixedTo(cfg, agent, stream, [], 0, 0)
  {
  }

  lemma MixedOnStream(cfg: Config, agent: string, stream: string, calls: seq<Call>, n: nat, m: nat)
    requires cfg.Ok() && 1 <= cfg.streamMaxWakes && 1 <= m <= cfg.streamMaxWakes + 1 && m <= cfg.maxWakes
    requires MixedTo(cfg, agent, stream, calls, n, m - 1) && Times(n, cfg.cooldown) < cfg.window
    ensures MixedTo(cfg, agent, stream, calls + [MixedCall(cfg, agent, stream, n, m - 1)], n, m)
  {
    var call := MixedCall(cfg, agent, stream, n, m - 1);
    TimesGrows(0, n, cfg.cooldown);
    OnStream(cfg, SpecRun(cfg, calls).0, agent, stream, n, m - 1);
    assert Scopes(cfg, call)[1] == StreamScope(agent, stream);
    MixedGrows(cfg, agent, stream, calls, call, n, m);
  }

  lemma MixedOffStream(cfg: Config, agent: string, stream: string, calls: seq<Call>, n: nat, m: nat)
    requires cfg.Ok() && 1 <= cfg.streamMaxWakes < m - 1 <= cfg.maxWakes
    requires MixedTo(cfg, agent, stream, calls, n, m - 1)
    ensures MixedTo(cfg, agent, stream, calls + [MixedCall(cfg, agent, stream, n, m - 1)], n, m)
  {
    OffStream(cfg, SpecRun(cfg, calls).0, agent, stream, n, m - 1);
    MixedGrows(cfg, agent, stream, calls, MixedCall(cfg, agent, stream, n, m - 1), n, m);
  }

  lemma MixedNext(cfg: Config, agent: string, stream: string, calls: seq<Call>, n: nat)
    requires cfg.Ok() && 1 <= cfg.streamMaxWakes < cfg.maxWakes && 1 <= n
    requires MixedTo(cfg, agent, stream, calls, n - 1, cfg.maxWakes + 1)
    ensures MixedTo(cfg, agent, stream, calls, n, 0)
  {
    TimesGrows(n - 1, n, cfg.cooldown);
    assert n * cfg.streamMaxWakes == (n - 1) * cfg.streamMaxWakes + cfg.streamMaxWakes;
  }

  lemma MixedOne(cfg: Config, agent: string, stream: string, calls: seq<Call>, n: nat, m: nat)
    requires cfg.Ok() && 1 <= cfg.streamMaxWakes <= cfg.maxWakes && Times(n, cfg.cooldown) < cfg.window
    requires 1 <= m <= if cfg.streamMaxWakes < cfg.maxWakes then cfg.maxWakes + 1 else cfg.maxWakes
    requires MixedTo(cfg, agent, stream, calls, n, m - 1)
    ensures MixedTo(cfg, agent, stream, calls + [MixedCall(cfg, agent, stream, n, m - 1)], n, m)
  {
    if m - 1 <= cfg.streamMaxWakes {
      MixedOnStream(cfg, agent, stream, calls, n, m);
    } else {
      MixedOffStream(cfg, agent, stream, calls, n, m);
    }
  }

  /** Within one burst. Only the last may be as long as the agent's threshold and no longer. */
  lemma {:induction false} MixedLoads(cfg: Config, agent: string, stream: string, n: nat, m: nat)
    requires cfg.Ok() && 1 <= cfg.streamMaxWakes <= cfg.maxWakes && Times(n, cfg.cooldown) < cfg.window
    requires m <= if cfg.streamMaxWakes < cfg.maxWakes then cfg.maxWakes + 1 else cfg.maxWakes
    requires MixedTo(cfg, agent, stream, Mixed(cfg, agent, stream, n, 0), n, 0)
    ensures MixedTo(cfg, agent, stream, Mixed(cfg, agent, stream, n, m), n, m)
  {
    if m > 0 {
      var calls := Mixed(cfg, agent, stream, n, m - 1);
      MixedLoads(cfg, agent, stream, n, m - 1);
      MixedOne(cfg, agent, stream, calls, n, m);
      assert Mixed(cfg, agent, stream, n, m) == calls + [MixedCall(cfg, agent, stream, n, m - 1)];
    }
  }

  lemma {:induction false} AllMixedLoad(cfg: Config, agent: string, stream: string, n: nat)
    requires cfg.Ok() && 1 <= cfg.streamMaxWakes && (n > 0 ==> cfg.streamMaxWakes < cfg.maxWakes)
    requires n > 0 ==> Times(n - 1, cfg.cooldown) < cfg.window
    ensures MixedTo(cfg, agent, stream, Mixed(cfg, agent, stream, n, 0), n, 0)
  {
    if n > 0 {
      var calls := Mixed(cfg, agent, stream, n - 1, cfg.maxWakes + 1);
      if n > 1 { TimesGrows(n - 2, n - 1, cfg.cooldown); }
      AllMixedLoad(cfg, agent, stream, n - 1);
      MixedLoads(cfg, agent, stream, n - 1, cfg.maxWakes + 1);
      MixedNext(cfg, agent, stream, calls, n);
      assert Mixed(cfg, agent, stream, n, 0) == calls;
    } else {
      assert Mixed(cfg, agent, stream, 0, 0) == [];
      MixedNothing(cfg, agent, stream);
    }
  }

  /** As many cooldowns as begin inside a window admit the stream's threshold each, when the agent's is higher. In one
      cooldown the agent's need only be as high: that many wakes are admitted at one instant. */
  lemma StreamRateIsAttained(cfg: Config, agent: string, stream: string, n: nat) returns (calls: seq<Call>)
    requires cfg.Ok() && 1 <= cfg.streamMaxWakes && n >= 1 && Times(n - 1, cfg.cooldown) < cfg.window
    requires cfg.streamMaxWakes < cfg.maxWakes || (cfg.streamMaxWakes == cfg.maxWakes && n == 1)
    ensures Ordered(calls) && |Run(cfg, calls).1| == |calls|
    ensures |StreamWakes(cfg, calls, Run(cfg, calls).1, agent, stream, 0.0, false)| == n * cfg.streamMaxWakes
  {
    calls := Mixed(cfg, agent, stream, n - 1, cfg.streamMaxWakes);
    if n > 1 { TimesGrows(n - 2, n - 1, cfg.cooldown); }
    AllMixedLoad(cfg, agent, stream, n - 1);
    MixedLoads(cfg, agent, stream, n - 1, cfg.streamMaxWakes);
    SameOutcomes(cfg, calls, Times(n - 1, cfg.cooldown));
    StreamCount(cfg, calls, Run(cfg, calls).1, agent, stream, 0.0, false);
    assert n * cfg.streamMaxWakes == (n - 1) * cfg.streamMaxWakes + cfg.streamMaxWakes;
  }
}
