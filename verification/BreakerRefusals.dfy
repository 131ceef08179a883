/** What a refused wake leaves in the windows: a refusal for cooldown records nothing, and a trip records
    the wake that caused it. */
module BreakerRefusals {
  import opened Common
  import opened Breaker
  import opened BreakerTheory
  import opened BreakerRate

  /** Some scope of the call is still cooling down. */
  ghost predicate CoolingDown(cfg: Config, ws: Windows, call: Call) {
    exists scope, until :: scope in Scopes(cfg, call) && Cooling(ws, scope, until) && call.now < until
  }

  lemma {:induction false} RecordNeverOpens(cfg: Config, ws: Windows, scopes: seq<Scope>, now: real)
    ensures !Record(cfg, ws, scopes, now).1.Open?
    decreases |scopes|
  {
    if scopes != [] {
      var w := Lookup(ws, scopes[0]);
      var ts := PopExpired(w.timestamps, now - cfg.window) + [now];
      RecordNeverOpens(cfg, ws[scopes[0] := Window(ts, w.trippedUntil)], scopes[1..], now);
    }
  }

  lemma SweptKeepsCooling(cfg: Config, st: State, now: real, scope: Scope, until: real)
    ensures Cooling(Collected(cfg, st, now).windows, scope, until) <==> Cooling(st.windows, scope, until)
  {
  }

  /** A call is refused for cooldown exactly when one of its scopes was tripped and has not cooled yet. */
  lemma OpenIffCoolingDown(cfg: Config, st: State, call: Call)
    ensures Admit(cfg, st, call).1.Open? <==> CoolingDown(cfg, st.windows, call)
  {
    var scopes, st1 := Scopes(cfg, call), Collected(cfg, st, call.now);
    if CoolingDown(cfg, st.windows, call) {
      var scope, until :| scope in scopes && Cooling(st.windows, scope, until) && call.now < until;
      TrippedRefuses(cfg, st, call, scope, until);
    }
    var (ws, refused) := Heal(st1.windows, scopes, call.now);
    if refused.Some? {
      ScopesDistinct(cfg, call);
      OpenOnlyWhileCooling(st1.windows, scopes, call.now);
      var until :| call.now < until && Cooling(st1.windows, refused.value, until);
      SweptKeepsCooling(cfg, st, call.now, refused.value, until);
    } else {
      RecordNeverOpens(cfg, ws, scopes, call.now);
    }
  }

  // ---------------------------------------------------------------- what is recorded

  /** No scope's history has a wake it did not have. */
  ghost predicate RecordsNothing(before: Histories, after: Histories) {
    forall scope :: Past(after, scope).entries == Past(before, scope).entries
  }

  /** One scope's history has exactly this wake more. */
  ghost predicate RecordsOne(before: Histories, after: Histories, scope: Scope, now: real) {
    var es, fs := Past(before, scope).entries, Past(after, scope).entries;
    |fs| == |es| + 1 && fs[..|es|] == es && fs[|es|].at == now
  }

  lemma HealRecordsNothingAtAll(hs: Histories, scopes: seq<Scope>, now: real)
    ensures RecordsNothing(hs, SpecHeal(hs, scopes, now).0)
  {
    forall scope ensures Past(SpecHeal(hs, scopes, now).0, scope).entries == Past(hs, scope).entries {
      HealRecordsNothing(hs, scopes, now, scope);
    }
  }

  /** A scope's history once `n` of the scopes of a call have been counted on. */
  ghost predicate CountedOn(before: Histories, after: Histories, scopes: seq<Scope>, n: nat, now: real, scope: Scope) {
    if exists i :: 0 <= i < n && i < |scopes| && scopes[i] == scope then RecordsOne(before, after, scope, now)
    else Past(after, scope).entries == Past(before, scope).entries
  }

  /** How many scopes the recording loop counts a wake on: all of them, or up to the one it trips. */
  function Reached(cfg: Config, hs: Histories, scopes: seq<Scope>, now: real): (n: nat)
    ensures n <= |scopes| && (scopes != [] ==> n > 0)
    decreases |scopes|
  {
    if scopes == [] then 0
    else if Over(cfg, hs, scopes[0], now) then 1
    else
      var h := Past(hs, scopes[0]);
      1 + Reached(cfg, hs[scopes[0] := Noted(h, now, false, h.until)], scopes[1..], now)
  }

  lemma {:induction false} RecordCounts(cfg: Config, hs: Histories, scopes: seq<Scope>, now: real, scope: Scope)
    requires NoDup(scopes)
    ensures CountedOn(hs, SpecRecord(cfg, hs, scopes, now).0, scopes, Reached(cfg, hs, scopes, now), now, scope)
    ensures var outcome := SpecRecord(cfg, hs, scopes, now).1;
            && !outcome.Open?
            && (outcome.Admitted? ==> Reached(cfg, hs, scopes, now) == |scopes|)
            && (outcome.Tripped? ==>
                  scopes != [] && outcome.scope == scopes[Reached(cfg, hs, scopes, now) - 1])
    decreases |scopes|
  {
    if scopes != [] {
      var first, h := scopes[0], Past(hs, scopes[0]);
      NoDupTail(scopes);
      if Over(cfg, hs, first, now) {
        assert first == scope ==> scopes[0] == scope;
      } else {
        var hs' := hs[first := Noted(h, now, false, h.until)];
        RecordCounts(cfg, hs', scopes[1..], now, scope);
        CountsFirst(hs, hs', SpecRecord(cfg, hs', scopes[1..], now).0, scopes,
                    Reached(cfg, hs', scopes[1..], now), now, scope);
      }
    }
  }

  lemma CountsFirst(hs: Histories, hs': Histories, after: Histories, scopes: seq<Scope>, n: nat, now: real,
                    scope: Scope)
    requires scopes != [] && NoDup(scopes)
    requires hs' == hs[scopes[0] := Noted(Past(hs, scopes[0]), now, false, Past(hs, scopes[0]).until)]
    requires CountedOn(hs', after, scopes[1..], n, now, scope)
    ensures CountedOn(hs, after, scopes, n + 1, now, scope)
  {
    NoDupTail(scopes);
    if scope == scopes[0] {
      assert forall i :: 0 <= i < |scopes[1..]| ==> scopes[1..][i] in scopes[1..];
      assert Past(after, scope).entries == Past(hs', scope).entries;
    } else if exists i :: 0 <= i < n && i < |scopes[1..]| && scopes[1..][i] == scope {
      var i :| 0 <= i < n && i < |scopes[1..]| && scopes[1..][i] == scope;
      assert scopes[i + 1] == scope;
    } else {
      assert forall i :: 0 < i < n + 1 && i < |scopes| ==> scopes[i] == scopes[1..][i - 1];
    }
  }

  /** A wake that trips a scope is recorded on that scope and on those before it: a trip of the stream stays
      in the agent's window. An admitted one is recorded on all its scopes, one refused for cooldown on none. */
  lemma WhatAWakeRecords(cfg: Config, hs: Histories, call: Call)
    ensures var (after, outcome) := SpecAdmit(cfg, hs, call);
            var agent := AgentScope(call.agent);
            match outcome
            case Open(_) => RecordsNothing(hs, after)
            case Admitted => forall scope :: scope in Scopes(cfg, call) ==> RecordsOne(hs, after, scope, call.now)
            case Tripped(tripped, _) =>
              && tripped in Scopes(cfg, call)
              && RecordsOne(hs, after, agent, call.now) && RecordsOne(hs, after, tripped, call.now)
  {
    var scopes := Scopes(cfg, call);
    var (hs1, refused) := SpecHeal(hs, scopes, call.now);
    HealRecordsNothingAtAll(hs, scopes, call.now);
    ScopesDistinct(cfg, call);
    if refused == None {
      var n := Reached(cfg, hs1, scopes, call.now);
      var after := SpecRecord(cfg, hs1, scopes, call.now).0;
      forall i | 0 <= i < n ensures RecordsOne(hs, after, scopes[i], call.now) {
        RecordCounts(cfg, hs1, scopes, call.now, scopes[i]);
      }
      RecordCounts(cfg, hs1, scopes, call.now, scopes[0]);
    }
  }

  /** In every run: a refused wake records nothing exactly when it is refused for cooldown, that is exactly
      when one of its scopes is cooling down as the call comes in. */
  lemma RefusedRecordsNothingIff(cfg: Config, calls: seq<Call>, call: Call)
    requires cfg.Ok() && Ordered(calls + [call])
    ensures Admit(cfg, Run(cfg, calls).0, call).1 == SpecAdmit(cfg, SpecRun(cfg, calls).0, call).1
    ensures !Admit(cfg, Run(cfg, calls).0, call).1.Admitted? ==>
              (RecordsNothing(SpecRun(cfg, calls).0, SpecAdmit(cfg, SpecRun(cfg, calls).0, call).0)
               <==> CoolingDown(cfg, Run(cfg, calls).0.windows, call))
  {
    var st, hs := Run(cfg, calls).0, SpecRun(cfg, calls).0;
    assert forall i :: 0 <= i < |calls| ==>
        (calls + [call])[i] == calls[i] && calls[i].now <= (calls + [call])[|calls|].now;
    SameOutcomes(cfg, calls, call.now);
    AdmitRefines(cfg, st, hs, call, call.now);
    OpenIffCoolingDown(cfg, st, call);
    WhatAWakeRecords(cfg, hs, call);
  }

  /** Scopes with nothing in them heal to themselves and admit a wake. */
  lemma {:induction false} EmptyScopesAdmit(cfg: Config, ws: Windows, scopes: seq<Scope>, now: real)
    requires NoDup(scopes)
    requires forall s :: s in scopes ==> Lookup(ws, s) == EMPTY_WINDOW && cfg.Threshold(s) >= 1
    ensures Heal(ws, scopes, now) == (ws, None) && Record(cfg, ws, scopes, now).1.Admitted?
    decreases |scopes|
  {
    if scopes != [] {
      NoDupTail(scopes);
      assert forall s :: s in scopes[1..] ==> s in scopes;
      assert scopes[0] in scopes;
      EmptyScopesAdmit(cfg, ws, scopes[1..], now);
      assert PopExpired([], now - cfg.window) + [now] == [now];
      EmptyScopesAdmit(cfg, ws[scopes[0] := Window([now], None)], scopes[1..], now);
    }
  }

  lemma FreshBreakerAdmits(cfg: Config, call: Call)
    requires cfg.Ok()
    ensures Admit(cfg, State(map[], 0), call).1.Admitted?
  {
    ScopesDistinct(cfg, call);
    EmptyScopesAdmit(cfg, map[], Scopes(cfg, call), call.now);
  }

  // ---------------------------------------------------------------- a refused wake that counts

  /** Both scopes of a call at work, none of them tripped and nothing in them expired. */
  lemma AdmitOnTwo(cfg: Config, st: State, call: Call, a: Scope, b: Scope, ts: seq<real>, us: seq<real>)
    requires Scopes(cfg, call) == [a, b] && a != b && st.admitsSinceGc + 1 < GC_INTERVAL
    requires Lookup(st.windows, a) == Window(ts, None) && Lookup(st.windows, b) == Window(us, None)
    requires ts == [] || ts[0] > call.now - cfg.window
    requires us == [] || us[0] > call.now - cfg.window
    ensures var (after, outcome) := Admit(cfg, st, call);
            var ws := st.windows[a := Window(ts + [call.now], None)];
            var cooled := Some(call.now + cfg.cooldown);
            && after.admitsSinceGc == st.admitsSinceGc + 1
            && if |ts| + 1 > cfg.Threshold(a) then
                 outcome == Tripped(a, |ts| + 1) && after.windows == st.windows[a := Window(ts + [call.now], cooled)]
               else if |us| + 1 > cfg.Threshold(b) then
                 outcome == Tripped(b, |us| + 1) && after.windows == ws[b := Window(us + [call.now], cooled)]
               else outcome == Admitted && after.windows == ws[b := Window(us + [call.now], None)]
  {
    var ws := st.windows[a := Window(ts + [call.now], None)];
    assert [a, b][1..] == [b] && [b][1..] == [];
    assert Heal(st.windows, [b], call.now) == (st.windows, None);
    assert Heal(st.windows, [a, b], call.now) == (st.windows, None);
    assert PopExpired(ts, call.now - cfg.window) == ts && PopExpired(us, call.now - cfg.window) == us;
    assert Lookup(ws, b) == Window(us, None);
    RecordLast(cfg, ws, b, us, call.now);
    assert |ts| + 1 <= cfg.Threshold(a) ==> Record(cfg, st.windows, [a, b], call.now) == Record(cfg, ws, [b], call.now);
  }

  lemma RecordLast(cfg: Config, ws: Windows, b: Scope, us: seq<real>, now: real)
    requires Lookup(ws, b) == Window(us, None) && PopExpired(us, now - cfg.window) == us
    ensures Record(cfg, ws, [b], now)
            == if |us| + 1 > cfg.Threshold(b)
               then (ws[b := Window(us + [now], Some(now + cfg.cooldown))], Tripped(b, |us| + 1))
               else (ws[b := Window(us + [now], None)], Admitted)
  {
    assert [b][1..] == [];
    assert Record(cfg, ws[b := Window(us + [now], None)], [], now) == (ws[b := Window(us + [now], None)], Admitted);
  }

  /** Two wakes an agent may make in a window, one a stream. The second wake of a stream is refused, and still
      uses up the agent's window: a wake of another stream trips the agent after one admitted wake. */
  lemma RefusedWakeCounts(agent: string, s: string, t: string)
    requires s != t
    ensures var cfg := Config(2, 60.0, 60.0, 1);
            var calls := [Call(0.0, agent, Some(s)), Call(1.0, agent, Some(s)), Call(2.0, agent, Some(t))];
            Run(cfg, calls).1 == [Admitted, Tripped(StreamScope(agent, s), 2), Tripped(AgentScope(agent), 3)]
  {
    var cfg := Config(2, 60.0, 60.0, 1);
    var c1, c2, c3 := Call(0.0, agent, Some(s)), Call(1.0, agent, Some(s)), Call(2.0, agent, Some(t));
    var a, b, d := AgentScope(agent), StreamScope(agent, s), StreamScope(agent, t);
    var st0 := State(map[], 0);
    var st1 := Admit(cfg, st0, c1).0;
    var st2 := Admit(cfg, st1, c2).0;
    AdmitOnTwo(cfg, st0, c1, a, b, [], []);
    assert [] + [0.0] == [0.0];
    AdmitOnTwo(cfg, st1, c2, a, b, [0.0], [0.0]);
    assert [0.0] + [1.0] == [0.0, 1.0];
    AdmitOnTwo(cfg, st2, c3, a, d, [0.0, 1.0], []);
    ThreeCalls(cfg, c1, c2, c3);
  }

  lemma ThreeCalls(cfg: Config, c1: Call, c2: Call, c3: Call)
    ensures var (st1, o1) := Admit(cfg, State(map[], 0), c1);
            var (st2, o2) := Admit(cfg, st1, c2);
            Run(cfg, [c1, c2, c3]).1 == [o1, o2, Admit(cfg, st2, c3).1]
  {
    var none: seq<Call> := [];
    assert [c1, c2, c3][..2] == [c1, c2] && [c1, c2][..1] == [c1] && [c1][..0] == none;
    assert Run(cfg, [c1]).0 == Admit(cfg, State(map[], 0), c1).0;
    assert Run(cfg, [c1, c2]).0 == Admit(cfg, Run(cfg, [c1]).0, c2).0;
    assert Run(cfg, [c1]).1 == [] + [Admit(cfg, State(map[], 0), c1).1];
  }
}
