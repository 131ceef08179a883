/** The breaker's rate in terms of the calls themselves: which wakes the agent's cap counts, which ones the stream's,
    and that without a stream, or with the stream's cap off, the agent's is all there is. */
module BreakerScopes {
  import opened Common
  import opened Breaker
  import opened BreakerTheory
  import opened BreakerRate

  /** A time inside one half-open window. */
  predicate Inside(cfg: Config, at: real, lo: real, leftOpen: bool) {
    if leftOpen then lo < at <= lo + cfg.window else lo <= at < lo + cfg.window
  }

  /** The admitted wakes of an agent inside a window. */
  function AgentWakes(cfg: Config, calls: seq<Call>, outcomes: seq<Outcome>, agent: string, lo: real,
                      leftOpen: bool): set<int>
    requires |calls| == |outcomes|
  {
    set i | 0 <= i < |calls| && outcomes[i] == Admitted && calls[i].agent == agent
            && Inside(cfg, calls[i].now, lo, leftOpen)
  }

  /** Those of them on one stream. */
  function StreamWakes(cfg: Config, calls: seq<Call>, outcomes: seq<Outcome>, agent: string, stream: string, lo: real,
                       leftOpen: bool): set<int>
    requires |calls| == |outcomes|
  {
    set i | 0 <= i < |calls| && outcomes[i] == Admitted && calls[i].agent == agent && calls[i].stream == Some(stream)
            && Inside(cfg, calls[i].now, lo, leftOpen)
  }

  // ---------------------------------------------------------------- counted by scope

  predicate Hit(cfg: Config, call: Call, outcome: Outcome, scope: Scope, lo: real, leftOpen: bool) {
    outcome.Admitted? && scope in Scopes(cfg, call) && Within(cfg, call.now, lo, leftOpen)
  }

  function ScopeWakes(cfg: Config, calls: seq<Call>, outcomes: seq<Outcome>, scope: Scope, lo: real,
                      leftOpen: bool): set<int>
    requires |calls| == |outcomes|
  {
    set i | 0 <= i < |calls| && Hit(cfg, calls[i], outcomes[i], scope, lo, leftOpen)
  }

  lemma ScopeWakesLast(cfg: Config, calls: seq<Call>, outcomes: seq<Outcome>, scope: Scope, lo: real, leftOpen: bool)
    requires |calls| == |outcomes| > 0
    ensures var n := |calls| - 1;
            |ScopeWakes(cfg, calls, outcomes, scope, lo, leftOpen)|
            == |ScopeWakes(cfg, calls[..n], outcomes[..n], scope, lo, leftOpen)|
               + if Hit(cfg, calls[n], outcomes[n], scope, lo, leftOpen) then 1 else 0
  {
    var n := |calls| - 1;
    var last := if Hit(cfg, calls[n], outcomes[n], scope, lo, leftOpen) then {n} else {};
    assert ScopeWakes(cfg, calls, outcomes, scope, lo, leftOpen)
        == ScopeWakes(cfg, calls[..n], outcomes[..n], scope, lo, leftOpen) + last;
  }

  lemma {:induction false} CountIsSize(cfg: Config, calls: seq<Call>, outcomes: seq<Outcome>, scope: Scope, lo: real,
                                       leftOpen: bool)
    requires |calls| == |outcomes|
    ensures AdmittedIn(cfg, calls, outcomes, scope, lo, leftOpen)
            == |ScopeWakes(cfg, calls, outcomes, scope, lo, leftOpen)|
  {
    if calls == [] {
      assert ScopeWakes(cfg, calls, outcomes, scope, lo, leftOpen) == {};
    } else {
      CountIsSize(cfg, calls[..|calls| - 1], outcomes[..|calls| - 1], scope, lo, leftOpen);
      ScopeWakesLast(cfg, calls, outcomes, scope, lo, leftOpen);
    }
  }

  lemma AgentCount(cfg: Config, calls: seq<Call>, outcomes: seq<Outcome>, agent: string, lo: real, leftOpen: bool)
    requires |calls| == |outcomes|
    ensures AdmittedIn(cfg, calls, outcomes, AgentScope(agent), lo, leftOpen)
            == |AgentWakes(cfg, calls, outcomes, agent, lo, leftOpen)|
  {
    CountIsSize(cfg, calls, outcomes, AgentScope(agent), lo, leftOpen);
    assert ScopeWakes(cfg, calls, outcomes, AgentScope(agent), lo, leftOpen)
        == AgentWakes(cfg, calls, outcomes, agent, lo, leftOpen);
  }

  lemma StreamCount(cfg: Config, calls: seq<Call>, outcomes: seq<Outcome>, agent: string, stream: string, lo: real,
                    leftOpen: bool)
    requires |calls| == |outcomes| && cfg.streamMaxWakes >= 1
    ensures AdmittedIn(cfg, calls, outcomes, StreamScope(agent, stream), lo, leftOpen)
            == |StreamWakes(cfg, calls, outcomes, agent, stream, lo, leftOpen)|
  {
    CountIsSize(cfg, calls, outcomes, StreamScope(agent, stream), lo, leftOpen);
    assert ScopeWakes(cfg, calls, outcomes, StreamScope(agent, stream), lo, leftOpen)
        == StreamWakes(cfg, calls, outcomes, agent, stream, lo, leftOpen);
  }

  // ---------------------------------------------------------------- the two caps

  /** In any window of any run an agent's admitted wakes, on whatever streams, are at most `maxWakes` for each of the
      `n` cooldowns it takes to cover a window. */
  lemma AgentCap(cfg: Config, calls: seq<Call>, agent: string, lo: real, leftOpen: bool, n: nat)
    requires cfg.Ok() && Ordered(calls) && n as real * cfg.cooldown >= cfg.window
    ensures |Run(cfg, calls).1| == |calls|
    ensures |AgentWakes(cfg, calls, Run(cfg, calls).1, agent, lo, leftOpen)| <= n * cfg.maxWakes
  {
    TimesIsProduct(n, cfg.cooldown);
    RateBound(cfg, calls, AgentScope(agent), lo, leftOpen, n);
    AgentCount(cfg, calls, Run(cfg, calls).1, agent, lo, leftOpen);
  }

  /** And those on one stream at most `streamMaxWakes`, unless that is off. */
  lemma StreamCap(cfg: Config, calls: seq<Call>, agent: string, stream: string, lo: real, leftOpen: bool, n: nat)
    requires cfg.Ok() && Ordered(calls) && n as real * cfg.cooldown >= cfg.window && cfg.streamMaxWakes >= 1
    ensures |Run(cfg, calls).1| == |calls|
    ensures |StreamWakes(cfg, calls, Run(cfg, calls).1, agent, stream, lo, leftOpen)| <= n * cfg.streamMaxWakes
  {
    TimesIsProduct(n, cfg.cooldown);
    RateBound(cfg, calls, StreamScope(agent, stream), lo, leftOpen, n);
    StreamCount(cfg, calls, Run(cfg, calls).1, agent, stream, lo, leftOpen);
  }

  // ---------------------------------------------------------------- the agent's scope alone

  /** A call without a stream, or any call while the stream's cap is off, is decided by the agent's scope, and leaves
      every other scope as the sweep before it did. */
  lemma AgentScopeAlone(cfg: Config, st: State, call: Call, other: Scope)
    requires call.stream == None || cfg.streamMaxWakes == 0
    ensures var (after, outcome) := Admit(cfg, st, call);
            && (outcome == Admitted || outcome.scope == AgentScope(call.agent))
            && (other != AgentScope(call.agent) ==>
                  Lookup(after.windows, other) == Lookup(Collected(cfg, st, call.now).windows, other))
  {
    var agent, none: seq<Scope> := AgentScope(call.agent), [];
    var ws := Collected(cfg, st, call.now).windows;
    assert Scopes(cfg, call) == [agent] && [agent][1..] == none;
    HealOnAgent(ws, agent, call.now);
    RecordOnAgent(cfg, Heal(ws, [agent], call.now).0, agent, call.now);
  }

  lemma HealOnAgent(ws: Windows, agent: Scope, now: real)
    ensures var (after, cooling) := Heal(ws, [agent], now);
            (after == ws || after == ws[agent := EMPTY_WINDOW]) && (cooling == None || cooling == Some(agent))
  {
    var none: seq<Scope> := [];
    assert [agent][1..] == none;
    assert Heal(ws, none, now) == (ws, None);
    assert Heal(ws[agent := EMPTY_WINDOW], none, now) == (ws[agent := EMPTY_WINDOW], None);
  }

  lemma RecordOnAgent(cfg: Config, ws: Windows, agent: Scope, now: real)
    ensures var (after, outcome) := Record(cfg, ws, [agent], now);
            && (outcome == Admitted || (outcome.Tripped? && outcome.scope == agent))
            && after == ws[agent := Lookup(after, agent)]
  {
    var none: seq<Scope> := [];
    var w := Lookup(ws, agent);
    var ts := PopExpired(w.timestamps, now - cfg.window) + [now];
    assert [agent][1..] == none;
    assert Record(cfg, ws[agent := Window(ts, w.trippedUntil)], none, now)
        == (ws[agent := Window(ts, w.trippedUntil)], Admitted);
  }

  function WithoutStreams(calls: seq<Call>): (r: seq<Call>)
    ensures |r| == |calls|
  {
    seq(|calls|, i requires 0 <= i < |calls| => calls[i].(stream := None))
  }

  /** So with the stream's cap off it makes no difference which streams a run's calls were on. */
  lemma {:induction false} StreamsDoNotMatter(cfg: Config, calls: seq<Call>)
    requires cfg.streamMaxWakes == 0
    ensures Run(cfg, calls) == Run(cfg, WithoutStreams(calls))
  {
    if calls != [] {
      var n := |calls| - 1;
      StreamsDoNotMatter(cfg, calls[..n]);
      assert WithoutStreams(calls)[..n] == WithoutStreams(calls[..n]);
      assert Scopes(cfg, calls[n]) == Scopes(cfg, calls[n].(stream := None));
    }
  }

  /** A call on a stream is decided by the agent's scope first: when both are cooling down it is the agent's that
      refuses, and the stream's trips only for a wake that the agent's let through. */
  lemma AgentScopeFirst(cfg: Config, st: State, call: Call, stream: string, until: real)
    requires call.stream == Some(stream) && Cooling(st.windows, AgentScope(call.agent), until) && call.now < until
    ensures Admit(cfg, st, call).1 == Open(AgentScope(call.agent))
  {
    assert Lookup(Collected(cfg, st, call.now).windows, AgentScope(call.agent)).trippedUntil == Some(until);
    assert Scopes(cfg, call)[0] == AgentScope(call.agent);
  }
}
