/** The bound on the breaker's rate is the best there is: runs of calls that reach it. */
module BreakerTight {
  import opened Common
  import opened Breaker
  import opened BreakerTheory
  import opened BreakerRate

  /** The call an agent makes `n` cooldowns after the first, on its own scope alone. */
  function CallAt(cfg: Config, agent: string, n: nat): Call { Call(Times(n, cfg.cooldown), agent, None) }

  /** `n` bursts, a cooldown apart, each of one call more than the threshold, and `m` calls of the next. */
  function Bursts(cfg: Config, agent: string, n: nat, m: nat): seq<Call>
    requires cfg.maxWakes >= 1
    decreases n, m
  {
    if m > 0 then Bursts(cfg, agent, n, m - 1) + [CallAt(cfg, agent, n)]
    else if n > 0 then Bursts(cfg, agent, n - 1, cfg.maxWakes + 1)
    else []
  }

  /** How far a scope is that has seen `n` full bursts and `m` calls of the next: in epoch `n` with `m` entries, and
      tripped once they are more than its cap. */
  ghost predicate Stage(cfg: Config, h: History, n: nat, m: nat, cap: int) {
    && (forall i :: 0 <= i < |h.entries| ==> h.entries[i].epoch <= h.epoch)
    && if m == 0 && n > 0 then h.epoch == n - 1 && h.until == Some(Times(n, cfg.cooldown))
       else
         && h.epoch == n && |Recent(h.entries, n, Times(n, cfg.cooldown) - cfg.window)| == m
         && h.until == if m <= cap then None else Some(Times(n + 1, cfg.cooldown))
  }

  lemma {:induction false} NoneRecent(es: seq<Entry>, epoch: nat, cutoff: real)
    requires forall i :: 0 <= i < |es| ==> es[i].epoch < epoch
    ensures Recent(es, epoch, cutoff) == []
  {
    if es != [] {
      NoneRecent(es[..|es| - 1], epoch, cutoff);
    }
  }

  /** A scope once it is healed. */
  function Cleared(h: History): History {
    if h.until == None then h else h.(epoch := h.epoch + 1, until := None)
  }

  /** A healed scope in epoch `n`, with `m` entries to count. */
  ghost predicate Ready(cfg: Config, h: History, n: nat, m: nat) {
    && h.until == None && h.epoch == n && |Recent(h.entries, n, Times(n, cfg.cooldown) - cfg.window)| == m
    && forall i :: 0 <= i < |h.entries| ==> h.entries[i].epoch <= n
  }

  /** Its cooldown, if it has one, is over when the next call of the burst comes. */
  lemma ClearedIsReady(cfg: Config, h: History, n: nat, m: nat, cap: int)
    requires m <= cap && Stage(cfg, h, n, m, cap)
    ensures Ready(cfg, Cleared(h), n, m)
    ensures h.until.Some? ==> h.until.value == Times(n, cfg.cooldown)
  {
    if m == 0 && n > 0 {
      NoneRecent(h.entries, n, Times(n, cfg.cooldown) - cfg.window);
    }
  }

  function OneMoreAt(cfg: Config, h: History, n: nat, trips: bool): History {
    var t := Times(n, cfg.cooldown);
    Noted(h, t, trips, if trips then Some(t + cfg.cooldown) else None)
  }

  lemma OneMoreStage(cfg: Config, h: History, n: nat, m: nat, cap: int)
    requires cfg.Ok() && m <= cap && Ready(cfg, h, n, m)
    ensures Stage(cfg, OneMoreAt(cfg, h, n, m == cap), n, m + 1, cap)
  {
    RecentSnoc(h.entries, Entry(Times(n, cfg.cooldown), n, m == cap), n, Times(n, cfg.cooldown) - cfg.window);
    assert Times(n + 1, cfg.cooldown) == Times(n, cfg.cooldown) + cfg.cooldown;
  }

  /** One more entry trips the last scope of a call when it is full, and admits the call otherwise. */
  lemma LastScope(cfg: Config, hs: Histories, scope: Scope, n: nat, m: nat)
    requires Ready(cfg, Past(hs, scope), n, m) && m <= cfg.Threshold(scope)
    ensures var (hs', outcome) := SpecRecord(cfg, hs, [scope], Times(n, cfg.cooldown));
            && hs' == hs[scope := OneMoreAt(cfg, Past(hs, scope), n, m == cfg.Threshold(scope))]
            && (outcome.Admitted? <==> m < cfg.Threshold(scope))
  {
    var rest: seq<Scope> := [];
    var after := OneMoreAt(cfg, Past(hs, scope), n, false);
    assert [scope][1..] == rest;
    assert SpecRecord(cfg, hs[scope := after], rest, Times(n, cfg.cooldown)) == (hs[scope := after], Admitted);
  }

  lemma HealAlone(hs: Histories, scope: Scope, now: real)
    requires Past(hs, scope).until.Some? ==> Past(hs, scope).until.value <= now
    ensures SpecHeal(hs, [scope], now).1 == None
    ensures Past(SpecHeal(hs, [scope], now).0, scope) == Cleared(Past(hs, scope))
    ensures forall other :: other != scope ==> Past(SpecHeal(hs, [scope], now).0, other) == Past(hs, other)
  {
    var rest: seq<Scope> := [];
    assert [scope][1..] == rest;
    assert SpecHeal(hs, rest, now) == (hs, None);
    var healed := hs[scope := Cleared(Past(hs, scope))];
    assert SpecHeal(healed, rest, now) == (healed, None);
  }

  /** One more call is admitted while the burst is within the threshold, and the next one trips. */
  lemma OneMoreCall(cfg: Config, hs: Histories, agent: string, n: nat, m: nat)
    requires cfg.Ok() && m <= cfg.maxWakes && Stage(cfg, Past(hs, AgentScope(agent)), n, m, cfg.maxWakes)
    ensures var (hs', outcome) := SpecAdmit(cfg, hs, CallAt(cfg, agent, n));
            && Stage(cfg, Past(hs', AgentScope(agent)), n, m + 1, cfg.maxWakes)
            && (forall other :: other != AgentScope(agent) ==> Past(hs', other) == Past(hs, other))
            && (outcome.Admitted? <==> m < cfg.maxWakes)
  {
    var scope, t := AgentScope(agent), Times(n, cfg.cooldown);
    assert Scopes(cfg, CallAt(cfg, agent, n)) == [scope];
    ClearedIsReady(cfg, Past(hs, scope), n, m, cfg.maxWakes);
    HealAlone(hs, scope, t);
    var hs1 := SpecHeal(hs, [scope], t).0;
    LastScope(cfg, hs1, scope, n, m);
    OneMoreStage(cfg, Past(hs1, scope), n, m, cfg.maxWakes);
  }

  lemma OrderedSnoc(calls: seq<Call>, call: Call)
    requires Ordered(calls) && forall i :: 0 <= i < |calls| ==> calls[i].now <= call.now
    ensures Ordered(calls + [call])
  {
  }

  /** A run's count is its prefix's and its last call's. */
  lemma AdmittedSnoc(cfg: Config, calls: seq<Call>, call: Call, scope: Scope, lo: real, leftOpen: bool)
    requires |SpecRun(cfg, calls).1| == |calls|
    ensures |SpecRun(cfg, calls + [call]).1| == |calls| + 1
    ensures var (hs', outcome) := SpecAdmit(cfg, SpecRun(cfg, calls).0, call);
            && SpecRun(cfg, calls + [call]).0 == hs'
            && AdmittedIn(cfg, calls + [call], SpecRun(cfg, calls + [call]).1, scope, lo, leftOpen)
               == AdmittedIn(cfg, calls, SpecRun(cfg, calls).1, scope, lo, leftOpen)
                  + if outcome.Admitted? && scope in Scopes(cfg, call) && Within(cfg, call.now, lo, leftOpen)
                      then 1 else 0
  {
    var longer, outcomes := calls + [call], SpecRun(cfg, calls).1;
    assert longer[..|longer| - 1] == calls;
    assert SpecRun(cfg, longer).1[..|calls|] == outcomes;
  }

  /** What calls up to the `m`-th of burst `n` come to. */
  ghost predicate Loaded(cfg: Config, agent: string, calls: seq<Call>, n: nat, m: nat) {
    var (hs, outcomes) := SpecRun(cfg, calls);
    && Ordered(calls) && (forall i :: 0 <= i < |calls| ==> calls[i].now <= Times(n, cfg.cooldown))
    && |outcomes| == |calls| && Stage(cfg, Past(hs, AgentScope(agent)), n, m, cfg.maxWakes)
    && AdmittedIn(cfg, calls, outcomes, AgentScope(agent), 0.0, false) == Counted(cfg, n, m)
  }

  function Counted(cfg: Config, n: nat, m: nat): int {
    n * cfg.maxWakes + if m <= cfg.maxWakes then m else cfg.maxWakes
  }

  /** Within one burst. */
  lemma {:induction false} BurstLoads(cfg: Config, agent: string, n: nat, m: nat)
    requires cfg.Ok() && m <= cfg.maxWakes + 1 && Times(n, cfg.cooldown) < cfg.window
    requires Loaded(cfg, agent, Bursts(cfg, agent, n, 0), n, 0)
    ensures Loaded(cfg, agent, Bursts(cfg, agent, n, m), n, m)
  {
    if m > 0 {
      var calls := Bursts(cfg, agent, n, m - 1);
      BurstLoads(cfg, agent, n, m - 1);
      LoadOne(cfg, agent, calls, n, m);
      assert Bursts(cfg, agent, n, m) == calls + [CallAt(cfg, agent, n)];
    }
  }

  lemma {:induction false} BurstsLoad(cfg: Config, agent: string, n: nat)
    requires cfg.Ok() && (n > 0 ==> Times(n - 1, cfg.cooldown) < cfg.window)
    ensures Loaded(cfg, agent, Bursts(cfg, agent, n, 0), n, 0)
  {
    if n > 0 {
      var calls := Bursts(cfg, agent, n - 1, cfg.maxWakes + 1);
      if n > 1 { TimesGrows(n - 2, n - 1, cfg.cooldown); }
      BurstsLoad(cfg, agent, n - 1);
      BurstLoads(cfg, agent, n - 1, cfg.maxWakes + 1);
      NextBurst(cfg, agent, calls, n);
      assert Bursts(cfg, agent, n, 0) == calls;
    } else {
      NothingLoaded(cfg, agent);
    }
  }

  lemma NothingLoaded(cfg: Config, agent: string)
    requires cfg.Ok()
    ensures Loaded(cfg, agent, [], 0, 0)
  {
  }

  lemma LoadOne(cfg: Config, agent: string, calls: seq<Call>, n: nat, m: nat)
    requires cfg.Ok() && 1 <= m <= cfg.maxWakes + 1 && Loaded(cfg, agent, calls, n, m - 1)
    requires Times(n, cfg.cooldown) < cfg.window
    ensures Loaded(cfg, agent, calls + [CallAt(cfg, agent, n)], n, m)
  {
    var call := CallAt(cfg, agent, n);
    TimesGrows(0, n, cfg.cooldown);
    OrderedSnoc(calls, call);
    OneMoreCall(cfg, SpecRun(cfg, calls).0, agent, n, m - 1);
    AdmittedSnoc(cfg, calls, call, AgentScope(agent), 0.0, false);
    assert Scopes(cfg, call) == [AgentScope(agent)];
  }

  lemma NextBurst(cfg: Config, agent: string, calls: seq<Call>, n: nat)
    requires cfg.Ok() && 1 <= n && Loaded(cfg, agent, calls, n - 1, cfg.maxWakes + 1)
    ensures Loaded(cfg, agent, calls, n, 0)
  {
    TimesGrows(n - 1, n, cfg.cooldown);
    assert n * cfg.maxWakes == (n - 1) * cfg.maxWakes + cfg.maxWakes;
  }

  // ---------------------------------------------------------------- the bound is reached

  /** As many cooldowns as begin inside a window admit the threshold each: the bound of `RateBound` is reached. */
  lemma RateIsAttained(cfg: Config, agent: string, n: nat) returns (calls: seq<Call>)
    requires cfg.Ok() && n >= 1 && Times(n - 1, cfg.cooldown) < cfg.window
    ensures Ordered(calls) && |Run(cfg, calls).1| == |calls|
    ensures AdmittedIn(cfg, calls, Run(cfg, calls).1, AgentScope(agent), 0.0, false) == n * cfg.maxWakes
  {
    calls := Bursts(cfg, agent, n, 0);
    BurstsLoad(cfg, agent, n);
    SameOutcomes(cfg, calls, Times(n, cfg.cooldown));
  }

  lemma CeilingIsLeast(window: real, cooldown: real)
    requires window > 0.0 && cooldown > 0.0
    ensures Ceiling(window / cooldown) >= 1
    ensures Times(Ceiling(window / cooldown) - 1, cooldown) < window
  {
    CeilingCovers(window, cooldown);
    var q := window / cooldown;
    assert q * cooldown == window;
    FewerCooldowns(Ceiling(q) - 1, q, cooldown, window);
  }

  lemma FewerCooldowns(n: nat, q: real, cooldown: real, window: real)
    requires n as real < q && cooldown > 0.0 && q * cooldown == window
    ensures Times(n, cooldown) < window
  {
    TimesIsProduct(n, cooldown);
    Scaled(n as real, q, cooldown);
  }

  lemma Scaled(a: real, b: real, c: real)
    requires a < b && c > 0.0
    ensures a * c < b * c
  {
    assert b * c == a * c + (b - a) * c;
  }

  /** So is its closed form, `threshold * ceil(window / cooldown)`. */
  lemma ClosedFormIsAttained(cfg: Config, agent: string) returns (calls: seq<Call>)
    requires cfg.Ok() && cfg.cooldown > 0.0
    ensures Ordered(calls) && |Run(cfg, calls).1| == |calls|
    ensures AdmittedIn(cfg, calls, Run(cfg, calls).1, AgentScope(agent), 0.0, false)
            == Ceiling(cfg.window / cfg.cooldown) * cfg.maxWakes
  {
    CeilingIsLeast(cfg.window, cfg.cooldown);
    calls := RateIsAttained(cfg, agent, Ceiling(cfg.window / cfg.cooldown));
  }

  /** No run admits more than `b` wakes of the agent in a window. */
  ghost predicate BoundedBy(cfg: Config, agent: string, b: nat) {
    forall calls, lo, leftOpen :: Ordered(calls) ==> AtMost(cfg, agent, calls, lo, leftOpen, b)
  }

  ghost predicate AtMost(cfg: Config, agent: string, calls: seq<Call>, lo: real, leftOpen: bool, b: nat) {
    && |Run(cfg, calls).1| == |calls|
    && AdmittedIn(cfg, calls, Run(cfg, calls).1, AgentScope(agent), lo, leftOpen) <= b
  }

  lemma {:induction false} NoTimes(n: nat)
    ensures Times(n, 0.0) == 0.0
  {
    if n > 0 { NoTimes(n - 1); }
  }

  /** The agent's wakes in a window are bounded at all exactly when the cooldown is positive: with none, any number
      are admitted at one instant. */
  lemma BoundedIffCooldown(cfg: Config, agent: string)
    requires cfg.Ok()
    ensures (exists b :: BoundedBy(cfg, agent, b)) <==> cfg.cooldown > 0.0
  {
    if cfg.cooldown > 0.0 {
      var b := Ceiling(cfg.window / cfg.cooldown) * cfg.maxWakes;
      CeilingIsLeast(cfg.window, cfg.cooldown);
      forall calls, lo, leftOpen | Ordered(calls)
        ensures AtMost(cfg, agent, calls, lo, leftOpen, b) {
        RateBoundClosedForm(cfg, calls, AgentScope(agent), lo, leftOpen);
      }
      assert BoundedBy(cfg, agent, b);
    } else {
      forall b ensures !BoundedBy(cfg, agent, b) {
        NoBound(cfg, agent, b);
      }
    }
  }

  lemma NoBound(cfg: Config, agent: string, b: nat)
    requires cfg.Ok() && cfg.cooldown == 0.0
    ensures !BoundedBy(cfg, agent, b)
  {
    NoTimes(b);
    var calls := RateIsAttained(cfg, agent, b + 1);
    assert (b + 1) * cfg.maxWakes > b;
    assert !AtMost(cfg, agent, calls, 0.0, false, b);
  }
}
