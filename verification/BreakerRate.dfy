/** How many wakes the breaker can admit in one window. */
module BreakerRate {
  import opened Common
  import opened Breaker
  import opened BreakerTheory

  /** `n` cooldowns, one after another. */
  function Times(n: nat, c: real): real {
    if n == 0 then 0.0 else Times(n - 1, c) + c
  }

  lemma {:induction false} TimesGrows(m: nat, n: nat, c: real)
    requires m <= n && c >= 0.0
    ensures Times(m, c) <= Times(n, c)
    decreases n
  {
    if m < n {
      TimesGrows(m, n - 1, c);
    }
  }

  /** By time `t` a cooldown has passed for every epoch opened since an entry was recorded, and one more
      will have when the trip clock runs out. */
  ghost predicate OnPace(cfg: Config, h: History, t: real) {
    && (forall i :: 0 <= i < |h.entries| ==>
          h.entries[i].epoch <= h.epoch && h.entries[i].at + Times(h.epoch - h.entries[i].epoch, cfg.cooldown) <= t)
    && (h.until.Some? ==> forall i :: 0 <= i < |h.entries| ==>
          h.entries[i].epoch <= h.epoch &&
          h.entries[i].at + Times(h.epoch + 1 - h.entries[i].epoch, cfg.cooldown) <= h.until.value)
  }

  /** Entries of different epochs are at least a cooldown apart for every epoch between them. */
  ghost predicate Separated(es: seq<Entry>, c: real) {
    forall i, j :: 0 <= i < j < |es| ==>
      es[i].epoch <= es[j].epoch && es[i].at + Times(es[j].epoch - es[i].epoch, c) <= es[j].at
  }

  /** An entry that did not trip its scope had at most `threshold` entries of its epoch in the window
      behind it, itself included. */
  ghost predicate Capped(cfg: Config, es: seq<Entry>, threshold: int) {
    forall i :: 0 <= i < |es| ==> CappedAt(cfg, es, i, threshold)
  }

  ghost predicate CappedAt(cfg: Config, es: seq<Entry>, i: int, threshold: int)
    requires 0 <= i < |es|
  {
    es[i].tripping || |Recent(es[..i + 1], es[i].epoch, es[i].at - cfg.window)| <= threshold
  }

  ghost predicate Paced(cfg: Config, h: History, t: real, threshold: int) {
    OnPace(cfg, h, t) && Separated(h.entries, cfg.cooldown) && Capped(cfg, h.entries, threshold)
  }

  ghost predicate AllPaced(cfg: Config, hs: Histories, t: real) {
    forall scope :: Paced(cfg, Past(hs, scope), t, cfg.Threshold(scope))
  }

  lemma HealedOnPace(cfg: Config, h: History, t: real)
    requires OnPace(cfg, h, t) && h.until.Some? && h.until.value <= t
    ensures OnPace(cfg, h.(epoch := h.epoch + 1, until := None), t)
  {
  }

  lemma NotedOnPace(cfg: Config, h: History, t: real, tripping: bool)
    requires OnPace(cfg, h, t)
    ensures OnPace(cfg, Noted(h, t, tripping, if tripping then Some(t + cfg.cooldown) else None), t)
  {
    assert Times(1, cfg.cooldown) == cfg.cooldown by { assert Times(0, cfg.cooldown) == 0.0; }
    forall i | 0 <= i < |h.entries|
      ensures h.entries[i].at + Times(h.epoch + 1 - h.entries[i].epoch, cfg.cooldown) <= t + cfg.cooldown {
      assert Times(h.epoch + 1 - h.entries[i].epoch, cfg.cooldown)
          == Times(h.epoch - h.entries[i].epoch, cfg.cooldown) + cfg.cooldown;
    }
  }

  lemma NotedSeparated(cfg: Config, h: History, t: real, tripping: bool)
    requires OnPace(cfg, h, t) && Separated(h.entries, cfg.cooldown)
    ensures Separated(h.entries + [Entry(t, h.epoch, tripping)], cfg.cooldown)
  {
  }

  lemma NotedCapped(cfg: Config, h: History, t: real, tripping: bool, threshold: int)
    requires cfg.Ok() && Capped(cfg, h.entries, threshold)
    requires !tripping ==> |Recent(h.entries, h.epoch, t - cfg.window)| + 1 <= threshold
    ensures Capped(cfg, h.entries + [Entry(t, h.epoch, tripping)], threshold)
  {
    var es, e := h.entries, Entry(t, h.epoch, tripping);
    RecentSnoc(es, e, h.epoch, t - cfg.window);
    assert (es + [e])[..|es| + 1] == es + [e];
    forall i | 0 <= i <= |es| ensures CappedAt(cfg, es + [e], i, threshold) {
      if i < |es| {
        assert CappedAt(cfg, es, i, threshold);
        assert (es + [e])[..i + 1] == es[..i + 1];
      }
    }
  }

  lemma NotedPaced(cfg: Config, h: History, t: real, tripping: bool, threshold: int)
    requires cfg.Ok() && Paced(cfg, h, t, threshold)
    requires !tripping ==> |Recent(h.entries, h.epoch, t - cfg.window)| + 1 <= threshold
    ensures Paced(cfg, Noted(h, t, tripping, if tripping then Some(t + cfg.cooldown) else None), t, threshold)
  {
    NotedOnPace(cfg, h, t, tripping);
    NotedSeparated(cfg, h, t, tripping);
    NotedCapped(cfg, h, t, tripping, threshold);
  }

  lemma UpdatePaced(cfg: Config, hs: Histories, scope: Scope, h: History, t: real)
    requires AllPaced(cfg, hs, t) && Paced(cfg, h, t, cfg.Threshold(scope))
    ensures AllPaced(cfg, hs[scope := h], t)
  {
    var hs' := hs[scope := h];
    forall s ensures Paced(cfg, Past(hs', s), t, cfg.Threshold(s)) {
      assert Paced(cfg, Past(hs, s), t, cfg.Threshold(s));
    }
  }

  lemma {:induction false} HealPaced(cfg: Config, hs: Histories, scopes: seq<Scope>, t: real)
    requires AllPaced(cfg, hs, t)
    ensures AllPaced(cfg, SpecHeal(hs, scopes, t).0, t)
    decreases |scopes|
  {
    if scopes != [] {
      var scope, h := scopes[0], Past(hs, scopes[0]);
      assert Paced(cfg, h, t, cfg.Threshold(scope));
      if h.until == None {
        HealPaced(cfg, hs, scopes[1..], t);
      } else if t >= h.until.value {
        HealedOnPace(cfg, h, t);
        var h' := h.(epoch := h.epoch + 1, until := None);
        UpdatePaced(cfg, hs, scope, h', t);
        HealPaced(cfg, hs[scope := h'], scopes[1..], t);
      }
    }
  }

  /** Healing records nothing, and when it refuses no scope it leaves none of them tripped. */
  lemma {:induction false} HealRecordsNothing(hs: Histories, scopes: seq<Scope>, t: real, s: Scope)
    ensures Past(SpecHeal(hs, scopes, t).0, s).entries == Past(hs, s).entries
    ensures Past(hs, s).until == None ==> Past(SpecHeal(hs, scopes, t).0, s).until == None
    ensures SpecHeal(hs, scopes, t).1 == None && s in scopes ==> Past(SpecHeal(hs, scopes, t).0, s).until == None
    decreases |scopes|
  {
    if scopes != [] {
      var scope, h := scopes[0], Past(hs, scopes[0]);
      if h.until == None {
        HealRecordsNothing(hs, scopes[1..], t, s);
      } else if t >= h.until.value {
        HealRecordsNothing(hs[scope := h.(epoch := h.epoch + 1, until := None)], scopes[1..], t, s);
      }
    }
  }

  /** The indices of the entries that did not trip, inside one half-open interval of length `window`. */
  predicate Within(cfg: Config, at: real, lo: real, leftOpen: bool) {
    if leftOpen then lo < at <= lo + cfg.window else lo <= at < lo + cfg.window
  }

  function Kept(cfg: Config, es: seq<Entry>, lo: real, leftOpen: bool): set<int> {
    set i | 0 <= i < |es| && !es[i].tripping && Within(cfg, es[i].at, lo, leftOpen)
  }

  lemma KeptSnoc(cfg: Config, es: seq<Entry>, e: Entry, lo: real, leftOpen: bool)
    ensures |Kept(cfg, es + [e], lo, leftOpen)|
            == |Kept(cfg, es, lo, leftOpen)| + if !e.tripping && Within(cfg, e.at, lo, leftOpen) then 1 else 0
  {
    var one: set<int> := if !e.tripping && Within(cfg, e.at, lo, leftOpen) then {|es|} else {};
    assert Kept(cfg, es + [e], lo, leftOpen) == Kept(cfg, es, lo, leftOpen) + one;
  }

  lemma TurnPaced(cfg: Config, hs: Histories, scope: Scope, t: real, tripping: bool)
    requires cfg.Ok() && AllPaced(cfg, hs, t) && tripping == Over(cfg, hs, scope, t)
    ensures var until := if tripping then Some(t + cfg.cooldown) else None;
            AllPaced(cfg, hs[scope := Noted(Past(hs, scope), t, tripping, until)], t)
  {
    var h := Past(hs, scope);
    assert Paced(cfg, h, t, cfg.Threshold(scope));
    NotedPaced(cfg, h, t, tripping, cfg.Threshold(scope));
    UpdatePaced(cfg, hs, scope, Noted(h, t, tripping, if tripping then Some(t + cfg.cooldown) else None), t);
  }

  lemma {:induction false} RecordPaced(cfg: Config, hs: Histories, scopes: seq<Scope>, t: real)
    requires cfg.Ok() && AllPaced(cfg, hs, t) && NoDup(scopes)
    requires forall s :: s in scopes ==> Past(hs, s).until == None
    ensures AllPaced(cfg, SpecRecord(cfg, hs, scopes, t).0, t)
    decreases |scopes|
  {
    if scopes != [] {
      var scope, h := scopes[0], Past(hs, scopes[0]);
      NoDupTail(scopes);
      if Over(cfg, hs, scope, t) {
        TurnPaced(cfg, hs, scope, t, true);
        assert SpecRecord(cfg, hs, scopes, t).0 == hs[scope := Noted(h, t, true, Some(t + cfg.cooldown))];
      } else {
        var hs' := hs[scope := Noted(h, t, false, None)];
        assert AllPaced(cfg, hs', t) by { TurnPaced(cfg, hs, scope, t, false); }
        assert h.until == None;
        assert SpecRecord(cfg, hs, scopes, t) == SpecRecord(cfg, hs', scopes[1..], t);
        RecordPaced(cfg, hs', scopes[1..], t);
      }
    }
  }

  /** An admitted wake adds one entry that did not trip to each of its scopes, and no wake takes any away. */
  lemma {:induction false} RecordKeeps(cfg: Config, hs: Histories, scopes: seq<Scope>, t: real, lo: real,
                                       leftOpen: bool, s: Scope)
    requires NoDup(scopes)
    ensures |Kept(cfg, Past(SpecRecord(cfg, hs, scopes, t).0, s).entries, lo, leftOpen)|
            >= |Kept(cfg, Past(hs, s).entries, lo, leftOpen)|
               + if SpecRecord(cfg, hs, scopes, t).1.Admitted? && s in scopes && Within(cfg, t, lo, leftOpen)
                   then 1 else 0
    decreases |scopes|
  {
    if scopes != [] {
      var scope, h := scopes[0], Past(hs, scopes[0]);
      NoDupTail(scopes);
      var tripping := Over(cfg, hs, scope, t);
      KeptSnoc(cfg, h.entries, Entry(t, h.epoch, tripping), lo, leftOpen);
      if !tripping {
        var hs' := hs[scope := Noted(h, t, false, h.until)];
        RecordKeeps(cfg, hs', scopes[1..], t, lo, leftOpen, s);
        assert s in scopes <==> s == scope || s in scopes[1..];
      }
    }
  }

  // ---------------------------------------------------------------- counting

  lemma {:induction false} RecentSize(es: seq<Entry>, epoch: nat, cutoff: real)
    ensures |Recent(es, epoch, cutoff)| == |Behind(es, epoch, cutoff)|
  {
    if es != [] {
      var n := |es| - 1;
      RecentSize(es[..n], epoch, cutoff);
      var last := if es[n].epoch == epoch && es[n].at > cutoff then {n} else {};
      assert Behind(es, epoch, cutoff) == Behind(es[..n], epoch, cutoff) + last;
    } else {
      assert Behind(es, epoch, cutoff) == {};
    }
  }

  ghost predicate Spanning(cfg: Config, es: seq<Entry>, a: set<int>) {
    && (forall i :: i in a ==> 0 <= i < |es| && !es[i].tripping)
    && (forall i, j :: i in a && j in a ==> es[j].at - es[i].at < cfg.window)
  }

  function Behind(es: seq<Entry>, epoch: nat, cutoff: real): set<int> {
    set i | 0 <= i < |es| && es[i].epoch == epoch && es[i].at > cutoff
  }

  /** Of a set of entries spanning less than a window, at most `threshold` share an epoch. */
  lemma OneEpoch(cfg: Config, es: seq<Entry>, threshold: int, a: set<int>, epoch: nat)
    requires Capped(cfg, es, threshold) && threshold >= 0 && Spanning(cfg, es, a)
    requires forall i :: i in a ==> es[i].epoch == epoch
    ensures |a| <= threshold
  {
    if a != {} {
      var m := Largest(a);
      var c := es[m].at - cfg.window;
      assert CappedAt(cfg, es, m, threshold);
      RecentSize(es[..m + 1], epoch, c);
      forall i | i in a ensures i in Behind(es[..m + 1], epoch, c) {
        assert es[..m + 1][i] == es[i];
      }
      SubsetSize(a, Behind(es[..m + 1], epoch, c));
    }
  }

  lemma {:induction false} Largest(a: set<int>) returns (m: int)
    requires a != {}
    ensures m in a && forall i :: i in a ==> i <= m
    decreases |a|
  {
    m := Pick(a);
    if a != {m} {
      assert (a - {m}) + {m} == a;
      var n := Largest(a - {m});
      m := if n > m then n else m;
    }
  }

  lemma {:induction false} Smallest(a: set<int>) returns (m: int)
    requires a != {}
    ensures m in a && forall i :: i in a ==> m <= i
    decreases |a|
  {
    m := Pick(a);
    if a != {m} {
      assert (a - {m}) + {m} == a;
      var n := Smallest(a - {m});
      m := if n < m then n else m;
    }
  }

  lemma {:induction false} EpochSum(cfg: Config, es: seq<Entry>, threshold: int, a: set<int>, first: nat, n: nat)
    requires Capped(cfg, es, threshold) && threshold >= 0 && Spanning(cfg, es, a)
    requires forall i :: i in a ==> first <= es[i].epoch < first + n
    ensures |a| <= n * threshold
    decreases n
  {
    if n == 0 {
      assert a == {};
    } else {
      var last := set i | i in a && es[i].epoch == first + n - 1;
      var rest := a - last;
      assert |a| == |rest| + |last| by { assert a == rest + last; }
      OneEpoch(cfg, es, threshold, last, first + n - 1);
      assert Spanning(cfg, es, rest);
      EpochSum(cfg, es, threshold, rest, first, n - 1);
      OneMore(n, threshold);
    }
  }

  lemma OneMore(n: int, m: int)
    ensures n * m == (n - 1) * m + m
  {
  }

  /** Entries that did not trip and span less than a window number at most `threshold` for each of the
      `n` cooldowns it takes to cover a window. */
  lemma SpanBound(cfg: Config, es: seq<Entry>, threshold: int, a: set<int>, n: nat)
    requires cfg.Ok() && Separated(es, cfg.cooldown) && Capped(cfg, es, threshold) && threshold >= 0
    requires Times(n, cfg.cooldown) >= cfg.window && Spanning(cfg, es, a)
    ensures |a| <= n * threshold
  {
    if a != {} {
      var m := Smallest(a);
      forall i | i in a ensures es[m].epoch <= es[i].epoch < es[m].epoch + n {
        EpochsClose(cfg, es, a, m, i, n);
      }
      EpochSum(cfg, es, threshold, a, es[m].epoch, n);
    }
  }

  lemma EpochsClose(cfg: Config, es: seq<Entry>, a: set<int>, m: int, i: int, n: nat)
    requires cfg.Ok() && Separated(es, cfg.cooldown) && Spanning(cfg, es, a)
    requires Times(n, cfg.cooldown) >= cfg.window && m in a && i in a && m <= i
    ensures es[m].epoch <= es[i].epoch < es[m].epoch + n
  {
    if es[i].epoch >= es[m].epoch + n {
      if m < i {
        TimesGrows(n, es[i].epoch - es[m].epoch, cfg.cooldown);
      }
    }
  }

  // ---------------------------------------------------------------- the bound

  /** How many calls of a run were admitted on one scope inside one half-open window. */
  function AdmittedIn(cfg: Config, calls: seq<Call>, outcomes: seq<Outcome>, scope: Scope, lo: real,
                      leftOpen: bool): nat
    requires |calls| == |outcomes|
  {
    if calls == [] then 0
    else
      var n := |calls| - 1;
      AdmittedIn(cfg, calls[..n], outcomes[..n], scope, lo, leftOpen)
      + if outcomes[n].Admitted? && scope in Scopes(cfg, calls[n]) && Within(cfg, calls[n].now, lo, leftOpen)
          then 1 else 0
  }

  lemma ScopesDistinct(cfg: Config, call: Call)
    ensures NoDup(Scopes(cfg, call))
  {
  }

  lemma {:induction false} RunLength(cfg: Config, calls: seq<Call>)
    ensures |SpecRun(cfg, calls).1| == |calls|
  {
    if calls != [] {
      RunLength(cfg, calls[..|calls| - 1]);
    }
  }

  lemma LaterPaced(cfg: Config, hs: Histories, t: real, t': real)
    requires AllPaced(cfg, hs, t) && t <= t'
    ensures AllPaced(cfg, hs, t')
  {
    forall s ensures Paced(cfg, Past(hs, s), t', cfg.Threshold(s)) {
      assert Paced(cfg, Past(hs, s), t, cfg.Threshold(s));
    }
  }

  lemma AdmitPaced(cfg: Config, hs: Histories, call: Call, t: real, s: Scope, lo: real, leftOpen: bool)
    requires cfg.Ok() && AllPaced(cfg, hs, t) && t <= call.now
    ensures var (hs', outcome) := SpecAdmit(cfg, hs, call);
            && AllPaced(cfg, hs', call.now)
            && |Kept(cfg, Past(hs', s).entries, lo, leftOpen)| >= |Kept(cfg, Past(hs, s).entries, lo, leftOpen)|
               + if outcome.Admitted? && s in Scopes(cfg, call) && Within(cfg, call.now, lo, leftOpen) then 1 else 0
  {
    LaterPaced(cfg, hs, t, call.now);
    ScopesDistinct(cfg, call);
    HealPaced(cfg, hs, Scopes(cfg, call), call.now);
    HealRecordsNothing(hs, Scopes(cfg, call), call.now, s);
    var (hs1, cooling) := SpecHeal(hs, Scopes(cfg, call), call.now);
    if cooling == None {
      forall x | x in Scopes(cfg, call) ensures Past(hs1, x).until == None {
        HealRecordsNothing(hs, Scopes(cfg, call), call.now, x);
      }
      RecordPaced(cfg, hs1, Scopes(cfg, call), call.now);
      RecordKeeps(cfg, hs1, Scopes(cfg, call), call.now, lo, leftOpen, s);
    }
  }

  lemma {:induction false} RunPaced(cfg: Config, calls: seq<Call>, t: real, s: Scope, lo: real, leftOpen: bool)
    requires cfg.Ok() && Ordered(calls) && (calls != [] ==> calls[|calls| - 1].now <= t)
    ensures |SpecRun(cfg, calls).1| == |calls|
    ensures AllPaced(cfg, SpecRun(cfg, calls).0, t)
    ensures AdmittedIn(cfg, calls, SpecRun(cfg, calls).1, s, lo, leftOpen)
            <= |Kept(cfg, Past(SpecRun(cfg, calls).0, s).entries, lo, leftOpen)|
  {
    RunLength(cfg, calls);
    if calls != [] {
      var n := |calls| - 1;
      RunPaced(cfg, calls[..n], calls[n].now, s, lo, leftOpen);
      AdmitPaced(cfg, SpecRun(cfg, calls[..n]).0, calls[n], calls[n].now, s, lo, leftOpen);
      assert SpecRun(cfg, calls).1[..n] == SpecRun(cfg, calls[..n]).1;
      LaterPaced(cfg, SpecRun(cfg, calls).0, calls[n].now, t);
    }
  }

  /** The rate the breaker enforces. In any half-open interval one window long, of any run whose clock does
      not go back, a scope admits at most its threshold for each of the `n` cooldowns it takes to
      cover a window. */
  lemma RateBound(cfg: Config, calls: seq<Call>, scope: Scope, lo: real, leftOpen: bool, n: nat)
    requires cfg.Ok() && Ordered(calls) && Times(n, cfg.cooldown) >= cfg.window
    ensures |Run(cfg, calls).1| == |calls|
    ensures AdmittedIn(cfg, calls, Run(cfg, calls).1, scope, lo, leftOpen) <= n * cfg.Threshold(scope)
  {
    var t := if calls == [] then 0.0 else calls[|calls| - 1].now;
    SameOutcomes(cfg, calls, t);
    RunPaced(cfg, calls, t, scope, lo, leftOpen);
    var h := Past(SpecRun(cfg, calls).0, scope);
    assert Paced(cfg, h, t, cfg.Threshold(scope));
    SpanBound(cfg, h.entries, cfg.Threshold(scope), Kept(cfg, h.entries, lo, leftOpen), n);
  }

  function Ceiling(x: real): int {
    -((-x).Floor)
  }

  lemma {:induction false} TimesIsProduct(n: nat, c: real)
    ensures Times(n, c) == n as real * c
  {
    if n > 0 {
      TimesIsProduct(n - 1, c);
      assert n as real * c == (n - 1) as real * c + c;
    }
  }

  lemma CeilingCovers(window: real, cooldown: real)
    requires window > 0.0 && cooldown > 0.0
    ensures Ceiling(window / cooldown) >= 1
    ensures Times(Ceiling(window / cooldown), cooldown) >= window
  {
    var q := window / cooldown;
    assert q * cooldown == window;
    assert q > 0.0;
    var n := Ceiling(q);
    assert n as real >= q;
    TimesIsProduct(n, cooldown);
    assert n as real * cooldown >= q * cooldown;
  }

  /** The same bound in closed form. With a cooldown no shorter than the window it is the threshold itself. */
  lemma RateBoundClosedForm(cfg: Config, calls: seq<Call>, scope: Scope, lo: real, leftOpen: bool)
    requires cfg.Ok() && Ordered(calls) && cfg.cooldown > 0.0
    ensures |Run(cfg, calls).1| == |calls|
    ensures AdmittedIn(cfg, calls, Run(cfg, calls).1, scope, lo, leftOpen)
            <= Ceiling(cfg.window / cfg.cooldown) * cfg.Threshold(scope)
    ensures cfg.cooldown >= cfg.window ==>
              AdmittedIn(cfg, calls, Run(cfg, calls).1, scope, lo, leftOpen) <= cfg.Threshold(scope)
  {
    CeilingCovers(cfg.window, cfg.cooldown);
    RateBound(cfg, calls, scope, lo, leftOpen, Ceiling(cfg.window / cfg.cooldown));
    if cfg.cooldown >= cfg.window {
      TimesIsProduct(1, cfg.cooldown);
      RateBound(cfg, calls, scope, lo, leftOpen, 1);
    }
  }

  // ---------------------------------------------------------------- a tripped scope stays refused

  ghost predicate Cooling(ws: Windows, scope: Scope, until: real) {
    Lookup(ws, scope).trippedUntil == Some(until)
  }

  lemma {:induction false} HealHonoursCooldown(ws: Windows, scopes: seq<Scope>, now: real, scope: Scope, until: real)
    requires Cooling(ws, scope, until) && now < until
    ensures Cooling(Heal(ws, scopes, now).0, scope, until)
    ensures scope in scopes ==> Heal(ws, scopes, now).1.Some?
    decreases |scopes|
  {
    if scopes != [] {
      var w := Lookup(ws, scopes[0]);
      if w.trippedUntil == None {
        HealHonoursCooldown(ws, scopes[1..], now, scope, until);
      } else if now >= w.trippedUntil.value {
        HealHonoursCooldown(ws[scopes[0] := EMPTY_WINDOW], scopes[1..], now, scope, until);
      }
    }
  }

  lemma {:induction false} RecordElsewhere(cfg: Config, ws: Windows, scopes: seq<Scope>, now: real, scope: Scope)
    requires scope !in scopes
    ensures Lookup(Record(cfg, ws, scopes, now).0, scope) == Lookup(ws, scope)
    decreases |scopes|
  {
    if scopes != [] {
      var first := scopes[0];
      var w := Lookup(ws, first);
      var ts := PopExpired(w.timestamps, now - cfg.window) + [now];
      RecordElsewhere(cfg, ws[first := Window(ts, w.trippedUntil)], scopes[1..], now, scope);
    }
  }

  /** Until its cooldown ends a tripped scope refuses every wake that touches it, and no call, on any
      scope, shortens the cooldown. */
  lemma TrippedRefuses(cfg: Config, st: State, call: Call, scope: Scope, until: real)
    requires Cooling(st.windows, scope, until) && call.now < until
    ensures Cooling(Admit(cfg, st, call).0.windows, scope, until)
    ensures scope in Scopes(cfg, call) ==> Admit(cfg, st, call).1.Open?
  {
    var st1, scopes := Collected(cfg, st, call.now), Scopes(cfg, call);
    HealHonoursCooldown(st1.windows, scopes, call.now, scope, until);
    if scope !in scopes {
      RecordElsewhere(cfg, Heal(st1.windows, scopes, call.now).0, scopes, call.now, scope);
    }
  }

  function RunFrom(cfg: Config, st: State, calls: seq<Call>): (State, seq<Outcome>)
    decreases |calls|
  {
    if calls == [] then (st, [])
    else
      var (st', outcome) := Admit(cfg, st, calls[0]);
      var (end, outcomes) := RunFrom(cfg, st', calls[1..]);
      (end, [outcome] + outcomes)
  }

  /** Over any run of calls before the cooldown ends. */
  lemma {:induction false} TrippedRefusesThroughout(cfg: Config, st: State, calls: seq<Call>, scope: Scope, until: real)
    requires Cooling(st.windows, scope, until) && forall i :: 0 <= i < |calls| ==> calls[i].now < until
    ensures |RunFrom(cfg, st, calls).1| == |calls|
    ensures forall i :: 0 <= i < |calls| && scope in Scopes(cfg, calls[i]) ==> RunFrom(cfg, st, calls).1[i].Open?
    decreases |calls|
  {
    if calls != [] {
      TrippedRefuses(cfg, st, calls[0], scope, until);
      TrippedRefusesThroughout(cfg, Admit(cfg, st, calls[0]).0, calls[1..], scope, until);
    }
  }

  /** A refusal for cooldown is always by a scope whose cooldown has not ended: a scope whose cooldown is
      over never refuses for it, so no trip latches. */
  lemma {:induction false} OpenOnlyWhileCooling(ws: Windows, scopes: seq<Scope>, now: real)
    requires NoDup(scopes)
    ensures var refused := Heal(ws, scopes, now).1;
            refused.Some? ==>
                refused.value in scopes && exists until :: now < until && Cooling(ws, refused.value, until)
    decreases |scopes|
  {
    if scopes != [] {
      var w := Lookup(ws, scopes[0]);
      NoDupTail(scopes);
      if w.trippedUntil == None {
        OpenOnlyWhileCooling(ws, scopes[1..], now);
      } else if now >= w.trippedUntil.value {
        OpenOnlyWhileCooling(ws[scopes[0] := EMPTY_WINDOW], scopes[1..], now);
        var refused := Heal(ws[scopes[0] := EMPTY_WINDOW], scopes[1..], now).1;
        if refused.Some? {
          var until :| now < until && Cooling(ws[scopes[0] := EMPTY_WINDOW], refused.value, until);
          assert Cooling(ws, refused.value, until);
        }
      } else {
        assert Cooling(ws, scopes[0], w.trippedUntil.value);
      }
    }
  }
}
