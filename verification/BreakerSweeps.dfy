/** What the breaker keeps: no window outlives its use by more than the calls between two sweeps. */
module BreakerSweeps {
  import opened Common
  import opened Breaker
  import opened BreakerTheory

  /** Call `i` touched the scope. */
  predicate Touches(cfg: Config, calls: seq<Call>, i: int, scope: Scope) {
    0 <= i < |calls| && scope in Scopes(cfg, calls[i])
  }

  /** The last call that swept, every 1024th; before the first of them, none. */
  function LastSweep(n: nat): int { n / 1024 * 1024 - 1 }

  /** A scope was touched at or after the last sweep, or less than a window before it. */
  ghost predicate Used(cfg: Config, calls: seq<Call>, scope: Scope) {
    var sweep := LastSweep(|calls|);
    exists i :: Touches(cfg, calls, i, scope)
      && (i >= sweep || (0 <= sweep < |calls| && calls[i].now > calls[sweep].now - cfg.window))
  }

  /** The newest entry of a window, if it has one, is some call's that touched it. */
  ghost predicate Dated(cfg: Config, calls: seq<Call>, ws: Windows, scope: Scope) {
    scope in ws && ws[scope].timestamps != [] ==>
      exists i :: Touches(cfg, calls, i, scope)
        && calls[i].now == ws[scope].timestamps[|ws[scope].timestamps| - 1]
  }

  // ---------------------------------------------------------------- one call

  lemma {:induction false} HealTouches(ws: Windows, scopes: seq<Scope>, now: real, scope: Scope)
    ensures scope !in scopes ==>
              (scope in Heal(ws, scopes, now).0 <==> scope in ws)
              && (scope in ws ==> Heal(ws, scopes, now).0[scope] == ws[scope])
    ensures scope in Heal(ws, scopes, now).0 ==>
              Heal(ws, scopes, now).0[scope].timestamps == []
              || (scope in ws && Heal(ws, scopes, now).0[scope] == ws[scope])
    decreases |scopes|
  {
    if scopes != [] {
      var w := Lookup(ws, scopes[0]);
      if w.trippedUntil == None {
        HealTouches(ws, scopes[1..], now, scope);
      } else if now >= w.trippedUntil.value {
        HealTouches(ws[scopes[0] := EMPTY_WINDOW], scopes[1..], now, scope);
      }
    }
  }

  lemma {:induction false} RecordTouches(cfg: Config, ws: Windows, scopes: seq<Scope>, now: real, scope: Scope)
    ensures var after := Record(cfg, ws, scopes, now).0;
            && (scope !in scopes ==> (scope in after <==> scope in ws) && (scope in ws ==> after[scope] == ws[scope]))
            && (scope in after ==>
                  || (scope in ws && after[scope] == ws[scope])
                  || (after[scope].timestamps != [] && after[scope].timestamps[|after[scope].timestamps| - 1] == now))
    decreases |scopes|
  {
    if scopes != [] {
      var w := Lookup(ws, scopes[0]);
      var ts := PopExpired(w.timestamps, now - cfg.window) + [now];
      RecordTouches(cfg, ws[scopes[0] := Window(ts, w.trippedUntil)], scopes[1..], now, scope);
    }
  }

  /** A call changes its own scopes' windows only, and the newest entry it leaves them is its own or what was there. */
  lemma AdmitTouches(cfg: Config, st: State, call: Call, scope: Scope)
    ensures var swept, after := Collected(cfg, st, call.now).windows, Admit(cfg, st, call).0.windows;
            && (scope !in Scopes(cfg, call) ==>
                  (scope in after <==> scope in swept) && (scope in swept ==> after[scope] == swept[scope]))
            && (scope in after && after[scope].timestamps != [] ==>
                  || (scope in swept && after[scope].timestamps == swept[scope].timestamps)
                  || after[scope].timestamps[|after[scope].timestamps| - 1] == call.now)
  {
    var swept, scopes := Collected(cfg, st, call.now).windows, Scopes(cfg, call);
    HealTouches(swept, scopes, call.now, scope);
    RecordTouches(cfg, Heal(swept, scopes, call.now).0, scopes, call.now, scope);
  }

  // ---------------------------------------------------------------- over whole runs

  lemma {:induction false} CountsCalls(cfg: Config, calls: seq<Call>)
    ensures Run(cfg, calls).0.admitsSinceGc == |calls| % 1024
  {
    if calls != [] {
      CountsCalls(cfg, calls[..|calls| - 1]);
    }
  }

  lemma TouchesSnoc(cfg: Config, calls: seq<Call>, call: Call, i: int, scope: Scope)
    requires Touches(cfg, calls, i, scope)
    ensures Touches(cfg, calls + [call], i, scope) && (calls + [call])[i] == calls[i]
  {
  }

  lemma DatedSnoc(cfg: Config, calls: seq<Call>, call: Call, scope: Scope)
    requires Dated(cfg, calls, Run(cfg, calls).0.windows, scope)
    ensures Dated(cfg, calls + [call], Run(cfg, calls + [call]).0.windows, scope)
  {
    var st, longer := Run(cfg, calls).0, calls + [call];
    assert longer[..|calls|] == calls;
    var after := Run(cfg, longer).0.windows;
    AdmitTouches(cfg, st, call, scope);
    if scope in after && after[scope].timestamps != [] {
      if after[scope].timestamps[|after[scope].timestamps| - 1] == call.now && scope in Scopes(cfg, call) {
        assert Touches(cfg, longer, |calls|, scope);
      } else {
        var i :| Touches(cfg, calls, i, scope)
            && calls[i].now == st.windows[scope].timestamps[|st.windows[scope].timestamps| - 1];
        TouchesSnoc(cfg, calls, call, i, scope);
      }
    }
  }

  lemma {:induction false} AllDated(cfg: Config, calls: seq<Call>, scope: Scope)
    ensures Dated(cfg, calls, Run(cfg, calls).0.windows, scope)
  {
    if calls != [] {
      var n := |calls| - 1;
      AllDated(cfg, calls[..n], scope);
      DatedSnoc(cfg, calls[..n], calls[n], scope);
      assert calls[..n] + [calls[n]] == calls;
    }
  }

  /** After any run, every window the breaker holds is tripped, or its scope was touched since the last sweep or less
      than a window before it. */
  lemma {:induction false} WindowsAreInUse(cfg: Config, calls: seq<Call>, scope: Scope)
    requires scope in Run(cfg, calls).0.windows
    ensures Run(cfg, calls).0.windows[scope].trippedUntil.Some? || Used(cfg, calls, scope)
  {
    var n := |calls| - 1;
    var before, call := calls[..n], calls[n];
    var st := Run(cfg, before).0;
    assert before + [call] == calls;
    CountsCalls(cfg, before);
    AdmitTouches(cfg, st, call, scope);
    if scope in Scopes(cfg, call) {
      assert Touches(cfg, calls, n, scope);
    } else if (n + 1) % 1024 == 0 {
      AllDated(cfg, before, scope);
      SweepKeepsUsed(cfg, before, call, scope);
    } else {
      WindowsAreInUse(cfg, before, scope);
      if Used(cfg, before, scope) {
        UsedSnoc(cfg, before, call, scope);
      }
    }
  }

  /** What a sweep leaves untripped was touched less than a window before. */
  lemma SweepKeepsUsed(cfg: Config, calls: seq<Call>, call: Call, scope: Scope)
    requires (|calls| + 1) % 1024 == 0 && Run(cfg, calls).0.admitsSinceGc == |calls| % 1024
    requires Dated(cfg, calls, Run(cfg, calls).0.windows, scope)
    requires scope in Collected(cfg, Run(cfg, calls).0, call.now).windows
    ensures Run(cfg, calls).0.windows[scope].trippedUntil.Some? || Used(cfg, calls + [call], scope)
  {
    var st, longer := Run(cfg, calls).0, calls + [call];
    var w := st.windows[scope];
    assert !Stale(w, call.now - cfg.window);
    if w.trippedUntil == None {
      var i :| Touches(cfg, calls, i, scope) && calls[i].now == w.timestamps[|w.timestamps| - 1];
      TouchesSnoc(cfg, calls, call, i, scope);
      assert LastSweep(|longer|) == |calls| && longer[|calls|] == call;
    }
  }

  lemma UsedSnoc(cfg: Config, calls: seq<Call>, call: Call, scope: Scope)
    requires (|calls| + 1) % 1024 != 0 && Used(cfg, calls, scope)
    ensures Used(cfg, calls + [call], scope)
  {
    var sweep, longer := LastSweep(|calls|), calls + [call];
    assert LastSweep(|longer|) == sweep;
    var i :| Touches(cfg, calls, i, scope)
        && (i >= sweep || (0 <= sweep < |calls| && calls[i].now > calls[sweep].now - cfg.window));
    TouchesSnoc(cfg, calls, call, i, scope);
  }
}
