/** The breaker against its specification: one that forgets nothing. */
module BreakerTheory {
  import opened Common
  import opened Breaker

  // ---------------------------------------------------------------- the full-history specification

  /** One recorded wake: when, in which epoch of its scope (how many resets before it), and whether it
      was the one that tripped the scope. */
  datatype Entry = Entry(at: real, epoch: nat, tripping: bool)

  /** Everything ever recorded on one scope. */
  datatype History = History(entries: seq<Entry>, epoch: nat, until: Option<real>)

  type Histories = map<Scope, History>

  const NO_HISTORY := History([], 0, None)

  function Past(hs: Histories, scope: Scope): History {
    if scope in hs then hs[scope] else NO_HISTORY
  }

  /** The times recorded in one epoch after `cutoff`. */
  function Recent(entries: seq<Entry>, epoch: nat, cutoff: real): seq<real> {
    if entries == [] then []
    else
      var e, before := entries[|entries| - 1], Recent(entries[..|entries| - 1], epoch, cutoff);
      if e.epoch == epoch && e.at > cutoff then before + [e.at] else before
  }

  function SpecHeal(hs: Histories, scopes: seq<Scope>, now: real): (Histories, Option<Scope>)
    decreases |scopes|
  {
    if scopes == [] then (hs, None)
    else
      var scope, h := scopes[0], Past(hs, scopes[0]);
      if h.until == None then SpecHeal(hs, scopes[1..], now)
      else if now < h.until.value then (hs, Some(scope))
      else SpecHeal(hs[scope := h.(epoch := h.epoch + 1, until := None)], scopes[1..], now)
  }

  function SpecRecord(cfg: Config, hs: Histories, scopes: seq<Scope>, now: real): (Histories, Outcome)
    decreases |scopes|
  {
    if scopes == [] then (hs, Admitted)
    else
      var scope, h := scopes[0], Past(hs, scopes[0]);
      var count := |Recent(h.entries, h.epoch, now - cfg.window)| + 1;
      if count > cfg.Threshold(scope)
      then (hs[scope := Noted(h, now, true, Some(now + cfg.cooldown))], Tripped(scope, count))
      else SpecRecord(cfg, hs[scope := Noted(h, now, false, h.until)], scopes[1..], now)
  }

  function Noted(h: History, now: real, tripping: bool, until: Option<real>): History {
    History(h.entries + [Entry(now, h.epoch, tripping)], h.epoch, until)
  }

  function SpecAdmit(cfg: Config, hs: Histories, call: Call): (Histories, Outcome) {
    var (hs1, cooling) := SpecHeal(hs, Scopes(cfg, call), call.now);
    if cooling.Some? then (hs1, Open(cooling.value)) else SpecRecord(cfg, hs1, Scopes(cfg, call), call.now)
  }

  /** The outcomes, and the state, of a whole sequence of calls. */
  function Run(cfg: Config, calls: seq<Call>): (State, seq<Outcome>) {
    if calls == [] then (State(map[], 0), [])
    else
      var (st, outcomes) := Run(cfg, calls[..|calls| - 1]);
      var (st', outcome) := Admit(cfg, st, calls[|calls| - 1]);
      (st', outcomes + [outcome])
  }

  function SpecRun(cfg: Config, calls: seq<Call>): (Histories, seq<Outcome>) {
    if calls == [] then (map[], [])
    else
      var (hs, outcomes) := SpecRun(cfg, calls[..|calls| - 1]);
      var (hs', outcome) := SpecAdmit(cfg, hs, calls[|calls| - 1]);
      (hs', outcomes + [outcome])
  }

  /** The clock, read before the lock, does not go back in the order the lock is taken. */
  ghost predicate Ordered(calls: seq<Call>) {
    forall i, j :: 0 <= i < j < |calls| ==> calls[i].now <= calls[j].now
  }

  // ---------------------------------------------------------------- refinement

  function Live(ts: seq<real>, cutoff: real): seq<real> {
    if ts == [] then []
    else
      var t, before := ts[|ts| - 1], Live(ts[..|ts| - 1], cutoff);
      if t > cutoff then before + [t] else before
  }

  ghost predicate Sorted(ts: seq<real>) {
    forall i, j :: 0 <= i < j < |ts| ==> ts[i] <= ts[j]
  }

  lemma LiveSnoc(ts: seq<real>, t: real, c: real)
    ensures Live(ts + [t], c) == if t > c then Live(ts, c) + [t] else Live(ts, c)
  {
    assert (ts + [t])[..|ts|] == ts;
  }

  lemma RecentSnoc(es: seq<Entry>, e: Entry, epoch: nat, c: real)
    ensures Recent(es + [e], epoch, c)
            == if e.epoch == epoch && e.at > c then Recent(es, epoch, c) + [e.at] else Recent(es, epoch, c)
  {
    assert (es + [e])[..|es|] == es;
  }

  lemma {:induction false} LiveAll(ts: seq<real>, c: real)
    requires forall i :: 0 <= i < |ts| ==> ts[i] > c
    ensures Live(ts, c) == ts
  {
    if ts != [] {
      LiveAll(ts[..|ts| - 1], c);
    }
  }

  lemma {:induction false} LiveNone(ts: seq<real>, c: real)
    requires forall i :: 0 <= i < |ts| ==> ts[i] <= c
    ensures Live(ts, c) == []
  {
    if ts != [] {
      LiveNone(ts[..|ts| - 1], c);
    }
  }

  lemma {:induction false} LiveConcat(a: seq<real>, b: seq<real>, c: real)
    ensures Live(a + b, c) == Live(a, c) + Live(b, c)
  {
    if b == [] {
      assert a + b == a;
    } else {
      var n := |b| - 1;
      LiveConcat(a, b[..n], c);
      assert a + b == (a + b[..n]) + [b[n]] && b == b[..n] + [b[n]];
      LiveConcatSnoc(a, b[..n], b[n], c);
    }
  }

  lemma LiveConcatSnoc(a: seq<real>, b: seq<real>, t: real, c: real)
    requires Live(a + b, c) == Live(a, c) + Live(b, c)
    ensures Live((a + b) + [t], c) == Live(a, c) + Live(b + [t], c)
  {
    LiveSnoc(a + b, t, c);
    LiveSnoc(b, t, c);
  }

  /** On a sorted window, popping expired timestamps off the front leaves exactly the live ones. */
  lemma {:induction false} PoppingIsFiltering(ts: seq<real>, c: real)
    requires Sorted(ts)
    ensures PopExpired(ts, c) == Live(ts, c) && Sorted(PopExpired(ts, c))
    decreases |ts|
  {
    if ts != [] && ts[0] <= c {
      PoppingIsFiltering(ts[1..], c);
      LiveConcat([ts[0]], ts[1..], c);
      assert ts == [ts[0]] + ts[1..];
      LiveNone([ts[0]], c);
    } else {
      LiveAll(ts, c);
    }
  }

  lemma {:induction false} LiveTwice(ts: seq<real>, c: real, c': real)
    requires c <= c'
    ensures Live(ts, c') == Live(Live(ts, c), c')
  {
    if ts != [] {
      var n := |ts| - 1;
      LiveTwice(ts[..n], c, c');
      if ts[n] > c { LiveSnoc(Live(ts[..n], c), ts[n], c'); }
    }
  }

  lemma {:induction false} RecentThenLive(es: seq<Entry>, epoch: nat, c: real, c': real)
    requires c <= c'
    ensures Recent(es, epoch, c') == Live(Recent(es, epoch, c), c')
  {
    if es != [] {
      var n := |es| - 1;
      RecentThenLive(es[..n], epoch, c, c');
      if es[n].epoch == epoch && es[n].at > c { LiveSnoc(Recent(es[..n], epoch, c), es[n].at, c'); }
    }
  }

  lemma {:induction false} NothingInFreshEpoch(es: seq<Entry>, epoch: nat, c: real)
    requires forall i :: 0 <= i < |es| ==> es[i].epoch < epoch
    ensures Recent(es, epoch, c) == []
  {
    if es != [] {
      NothingInFreshEpoch(es[..|es| - 1], epoch, c);
    }
  }

  /** A window stands for a history as of time `t`: same trip clock, same live timestamps. */
  ghost predicate Stands(cfg: Config, w: Window, h: History, t: real) {
    && w.trippedUntil == h.until
    && Sorted(w.timestamps)
    && (forall i :: 0 <= i < |w.timestamps| ==> w.timestamps[i] <= t)
    && (forall i :: 0 <= i < |h.entries| ==> h.entries[i].epoch <= h.epoch)
    && Live(w.timestamps, t - cfg.window) == Recent(h.entries, h.epoch, t - cfg.window)
  }

  ghost predicate Refines(cfg: Config, ws: Windows, hs: Histories, t: real) {
    forall scope :: Stands(cfg, Lookup(ws, scope), Past(hs, scope), t)
  }

  lemma StandsLater(cfg: Config, w: Window, h: History, t: real, t': real)
    requires Stands(cfg, w, h, t) && t <= t'
    ensures Stands(cfg, w, h, t')
  {
    LiveTwice(w.timestamps, t - cfg.window, t' - cfg.window);
    RecentThenLive(h.entries, h.epoch, t - cfg.window, t' - cfg.window);
  }

  /** Forgetting stale windows is unobservable. */
  lemma SweepingKeepsRefinement(cfg: Config, ws: Windows, hs: Histories, t: real)
    requires Refines(cfg, ws, hs, t)
    ensures Refines(cfg, Swept(ws, t - cfg.window), hs, t)
  {
    forall scope ensures Stands(cfg, Lookup(Swept(ws, t - cfg.window), scope), Past(hs, scope), t) {
      assert Stands(cfg, Lookup(ws, scope), Past(hs, scope), t);
      if scope in ws && Stale(ws[scope], t - cfg.window) {
        LiveNone(ws[scope].timestamps, t - cfg.window);
      }
    }
  }

  lemma UpdateRefines(cfg: Config, ws: Windows, hs: Histories, scope: Scope, w: Window, h: History, t: real)
    requires Refines(cfg, ws, hs, t) && Stands(cfg, w, h, t)
    ensures Refines(cfg, ws[scope := w], hs[scope := h], t)
  {
    var ws', hs' := ws[scope := w], hs[scope := h];
    forall s ensures Stands(cfg, Lookup(ws', s), Past(hs', s), t) {
      assert Stands(cfg, Lookup(ws, s), Past(hs, s), t);
    }
  }

  lemma HealOne(cfg: Config, w: Window, h: History, t: real)
    requires Stands(cfg, w, h, t)
    ensures Stands(cfg, EMPTY_WINDOW, h.(epoch := h.epoch + 1, until := None), t)
  {
    NothingInFreshEpoch(h.entries, h.epoch + 1, t - cfg.window);
  }

  lemma {:induction false} HealRefines(cfg: Config, ws: Windows, hs: Histories, scopes: seq<Scope>, t: real)
    requires Refines(cfg, ws, hs, t)
    ensures Refines(cfg, Heal(ws, scopes, t).0, SpecHeal(hs, scopes, t).0, t)
    ensures Heal(ws, scopes, t).1 == SpecHeal(hs, scopes, t).1
    decreases |scopes|
  {
    if scopes != [] {
      var scope, w, h := scopes[0], Lookup(ws, scopes[0]), Past(hs, scopes[0]);
      assert Stands(cfg, w, h, t);
      if w.trippedUntil == None {
        HealRefines(cfg, ws, hs, scopes[1..], t);
      } else if t >= w.trippedUntil.value {
        HealOne(cfg, w, h, t);
        var h' := h.(epoch := h.epoch + 1, until := None);
        UpdateRefines(cfg, ws, hs, scope, EMPTY_WINDOW, h', t);
        HealRefines(cfg, ws[scope := EMPTY_WINDOW], hs[scope := h'], scopes[1..], t);
      }
    }
  }

  lemma PoppedStands(cfg: Config, w: Window, h: History, t: real, kept: seq<real>)
    requires Stands(cfg, w, h, t) && kept == PopExpired(w.timestamps, t - cfg.window)
    ensures Stands(cfg, Window(kept, h.until), h, t)
    ensures |kept| == |Recent(h.entries, h.epoch, t - cfg.window)|
  {
    var c := t - cfg.window;
    PoppingIsFiltering(w.timestamps, c);
    LiveSubset(w.timestamps, c, t);
    LiveTwice(w.timestamps, c, c);
  }

  lemma SameSnoc(ts: seq<real>, es: seq<Entry>, t: real, epoch: nat, c: real, tripping: bool)
    requires Live(ts, c) == Recent(es, epoch, c)
    ensures Live(ts + [t], c) == Recent(es + [Entry(t, epoch, tripping)], epoch, c)
  {
    LiveSnoc(ts, t, c);
    RecentSnoc(es, Entry(t, epoch, tripping), epoch, c);
  }

  lemma SortedSnoc(ts: seq<real>, t: real)
    requires Sorted(ts) && forall i :: 0 <= i < |ts| ==> ts[i] <= t
    ensures Sorted(ts + [t]) && forall i :: 0 <= i < |ts + [t]| ==> (ts + [t])[i] <= t
  {
  }

  lemma StandsAfter(cfg: Config, kept: seq<real>, h: History, t: real, until: Option<real>, tripping: bool)
    requires cfg.Ok() && Stands(cfg, Window(kept, h.until), h, t)
    ensures Stands(cfg, Window(kept + [t], until), Noted(h, t, tripping, until), t)
  {
    SameSnoc(kept, h.entries, t, h.epoch, t - cfg.window, tripping);
    SortedSnoc(kept, t);
  }

  lemma {:induction false} LiveSubset(ts: seq<real>, c: real, t: real)
    requires forall i :: 0 <= i < |ts| ==> ts[i] <= t
    ensures forall i :: 0 <= i < |Live(ts, c)| ==> Live(ts, c)[i] <= t
  {
    if ts != [] {
      LiveSubset(ts[..|ts| - 1], c, t);
    }
  }

  lemma CountsAgree(cfg: Config, ws: Windows, hs: Histories, scope: Scope, t: real)
    requires Refines(cfg, ws, hs, t)
    ensures |PopExpired(Lookup(ws, scope).timestamps, t - cfg.window)|
            == |Recent(Past(hs, scope).entries, Past(hs, scope).epoch, t - cfg.window)|
  {
    assert Stands(cfg, Lookup(ws, scope), Past(hs, scope), t);
    PoppingIsFiltering(Lookup(ws, scope).timestamps, t - cfg.window);
  }

  /** One scope's turn in the recording loop leaves states that still correspond. */
  lemma TurnRefines(cfg: Config, ws: Windows, hs: Histories, scope: Scope, t: real, tripping: bool, until: Option<real>)
    requires cfg.Ok() && Refines(cfg, ws, hs, t)
    ensures var ts := PopExpired(Lookup(ws, scope).timestamps, t - cfg.window) + [t];
            Refines(cfg, ws[scope := Window(ts, until)], hs[scope := Noted(Past(hs, scope), t, tripping, until)], t)
  {
    var w, h := Lookup(ws, scope), Past(hs, scope);
    assert Stands(cfg, w, h, t);
    var kept := PopExpired(w.timestamps, t - cfg.window);
    PoppedStands(cfg, w, h, t, kept);
    StandsAfter(cfg, kept, h, t, until, tripping);
    UpdateRefines(cfg, ws, hs, scope, Window(kept + [t], until), Noted(h, t, tripping, until), t);
  }

  predicate Over(cfg: Config, hs: Histories, scope: Scope, t: real) {
    |Recent(Past(hs, scope).entries, Past(hs, scope).epoch, t - cfg.window)| + 1 > cfg.Threshold(scope)
  }

  lemma RecordTrips(cfg: Config, ws: Windows, hs: Histories, scopes: seq<Scope>, t: real)
    requires cfg.Ok() && Refines(cfg, ws, hs, t) && scopes != [] && Over(cfg, hs, scopes[0], t)
    ensures Refines(cfg, Record(cfg, ws, scopes, t).0, SpecRecord(cfg, hs, scopes, t).0, t)
    ensures Record(cfg, ws, scopes, t).1 == SpecRecord(cfg, hs, scopes, t).1
  {
    CountsAgree(cfg, ws, hs, scopes[0], t);
    var scope, until := scopes[0], Some(t + cfg.cooldown);
    var ts := PopExpired(Lookup(ws, scope).timestamps, t - cfg.window) + [t];
    assert Record(cfg, ws, scopes, t) == (ws[scope := Window(ts, until)], Tripped(scope, |ts|));
    assert SpecRecord(cfg, hs, scopes, t)
        == (hs[scope := Noted(Past(hs, scope), t, true, until)], Tripped(scope, |ts|));
    assert Refines(cfg, ws[scope := Window(ts, until)], hs[scope := Noted(Past(hs, scope), t, true, until)], t) by {
      TurnRefines(cfg, ws, hs, scope, t, true, until);
    }
  }

  lemma RecordPasses(cfg: Config, ws: Windows, hs: Histories, scopes: seq<Scope>, t: real)
    returns (ws': Windows, hs': Histories)
    requires cfg.Ok() && Refines(cfg, ws, hs, t) && scopes != [] && !Over(cfg, hs, scopes[0], t)
    ensures Refines(cfg, ws', hs', t)
    ensures Record(cfg, ws, scopes, t) == Record(cfg, ws', scopes[1..], t)
    ensures SpecRecord(cfg, hs, scopes, t) == SpecRecord(cfg, hs', scopes[1..], t)
  {
    var scope, w, h := scopes[0], Lookup(ws, scopes[0]), Past(hs, scopes[0]);
    assert w.trippedUntil == h.until by { assert Stands(cfg, w, h, t); }
    CountsAgree(cfg, ws, hs, scope, t);
    TurnRefines(cfg, ws, hs, scope, t, false, w.trippedUntil);
    ws' := ws[scope := Window(PopExpired(w.timestamps, t - cfg.window) + [t], w.trippedUntil)];
    hs' := hs[scope := Noted(h, t, false, h.until)];
  }

  lemma {:induction false} RecordRefines(cfg: Config, ws: Windows, hs: Histories, scopes: seq<Scope>, t: real)
    requires cfg.Ok() && Refines(cfg, ws, hs, t)
    ensures Refines(cfg, Record(cfg, ws, scopes, t).0, SpecRecord(cfg, hs, scopes, t).0, t)
    ensures Record(cfg, ws, scopes, t).1 == SpecRecord(cfg, hs, scopes, t).1
    decreases |scopes|
  {
    if scopes != [] {
      if Over(cfg, hs, scopes[0], t) {
        RecordTrips(cfg, ws, hs, scopes, t);
      } else {
        var ws', hs' := RecordPasses(cfg, ws, hs, scopes, t);
        RecordRefines(cfg, ws', hs', scopes[1..], t);
      }
    }
  }

  lemma AdmitRefines(cfg: Config, st: State, hs: Histories, call: Call, t: real)
    requires cfg.Ok() && Refines(cfg, st.windows, hs, t) && t <= call.now
    ensures Admit(cfg, st, call).1 == SpecAdmit(cfg, hs, call).1
    ensures Refines(cfg, Admit(cfg, st, call).0.windows, SpecAdmit(cfg, hs, call).0, call.now)
  {
    forall scope ensures Stands(cfg, Lookup(st.windows, scope), Past(hs, scope), call.now) {
      StandsLater(cfg, Lookup(st.windows, scope), Past(hs, scope), t, call.now);
    }
    SweepingKeepsRefinement(cfg, st.windows, hs, call.now);
    var st1 := Collected(cfg, st, call.now);
    HealRefines(cfg, st1.windows, hs, Scopes(cfg, call), call.now);
    var (ws, cooling) := Heal(st1.windows, Scopes(cfg, call), call.now);
    RecordRefines(cfg, ws, SpecHeal(hs, Scopes(cfg, call), call.now).0, Scopes(cfg, call), call.now);
  }

  /** Whatever was popped or swept along the way, every sequence of calls gets exactly the outcomes it
      would get from a breaker that kept every recorded wake since the beginning. */
  lemma {:induction false} SameOutcomes(cfg: Config, calls: seq<Call>, t: real)
    requires cfg.Ok() && Ordered(calls) && (calls != [] ==> calls[|calls| - 1].now <= t)
    ensures Run(cfg, calls).1 == SpecRun(cfg, calls).1
    ensures Refines(cfg, Run(cfg, calls).0.windows, SpecRun(cfg, calls).0, t)
  {
    if calls != [] {
      var n := |calls| - 1;
      SameOutcomes(cfg, calls[..n], calls[n].now);
      AdmitRefines(cfg, Run(cfg, calls[..n]).0, SpecRun(cfg, calls[..n]).0, calls[n], calls[n].now);
      forall scope
        ensures Stands(cfg, Lookup(Run(cfg, calls).0.windows, scope), Past(SpecRun(cfg, calls).0, scope), t) {
        StandsLater(cfg, Lookup(Run(cfg, calls).0.windows, scope), Past(SpecRun(cfg, calls).0, scope), calls[n].now, t);
      }
    }
  }
}
