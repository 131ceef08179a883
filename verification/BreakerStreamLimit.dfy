/** When the bound on a stream's rate is reached: the agent's cap has to leave room for it. */
module BreakerStreamLimit {
  import opened Common
  import opened Breaker
  import opened BreakerTheory
  import opened BreakerRate
  import opened BreakerScopes
  import BreakerTight
  import BreakerStreams

  // ---------------------------------------------------------------- where an epoch ends

  /** An epoch ends with the entry that tripped it, and with no other. */
  ghost predicate TripsEnd(es: seq<Entry>) {
    && (forall k, i :: 0 <= k < i < |es| && es[k].tripping ==> es[k].epoch < es[i].epoch)
    && (forall i :: 0 < i < |es| && es[i - 1].epoch < es[i].epoch ==> es[i - 1].tripping)
  }

  ghost predicate Ended(h: History) {
    && TripsEnd(h.entries)
    && (h.entries == [] ==> h.until == None)
    && (h.entries != [] ==>
          var last := h.entries[|h.entries| - 1];
          last.epoch <= h.epoch && (last.tripping <==> h.until.Some? || last.epoch < h.epoch))
  }

  ghost predicate AllEnded(hs: Histories) { forall scope :: Ended(Past(hs, scope)) }

  lemma ClearedEnded(h: History)
    requires Ended(h) && h.until.Some?
    ensures Ended(h.(epoch := h.epoch + 1, until := None))
  {
  }

  lemma NotedEnded(h: History, t: real, tripping: bool, until: Option<real>)
    requires Ended(h) && h.until == None && until.Some? == tripping
    ensures Ended(Noted(h, t, tripping, until))
  {
    var es, e := h.entries, Entry(t, h.epoch, tripping);
    forall k, i | 0 <= k < i < |es| + 1 && (es + [e])[k].tripping ensures (es + [e])[k].epoch < (es + [e])[i].epoch {
      if i == |es| && k < |es| - 1 {
        assert es[k].epoch < es[|es| - 1].epoch;
      }
    }
  }

  lemma UpdateEnded(hs: Histories, scope: Scope, h: History)
    requires AllEnded(hs) && Ended(h)
    ensures AllEnded(hs[scope := h])
  {
    var hs' := hs[scope := h];
    forall other ensures Ended(Past(hs', other)) {
      assert Ended(Past(hs, other));
    }
  }

  lemma {:induction false} HealEnded(hs: Histories, scopes: seq<Scope>, t: real)
    requires AllEnded(hs)
    ensures AllEnded(SpecHeal(hs, scopes, t).0)
    decreases |scopes|
  {
    if scopes != [] {
      var h := Past(hs, scopes[0]);
      assert Ended(h);
      if h.until == None {
        HealEnded(hs, scopes[1..], t);
      } else if t >= h.until.value {
        var h' := h.(epoch := h.epoch + 1, until := None);
        ClearedEnded(h);
        UpdateEnded(hs, scopes[0], h');
        HealEnded(hs[scopes[0] := h'], scopes[1..], t);
      }
    }
  }

  lemma {:induction false} RecordEnded(cfg: Config, hs: Histories, scopes: seq<Scope>, t: real)
    requires AllEnded(hs) && NoDup(scopes) && forall s :: s in scopes ==> Past(hs, s).until == None
    ensures AllEnded(SpecRecord(cfg, hs, scopes, t).0)
    decreases |scopes|
  {
    if scopes != [] {
      var scope, h := scopes[0], Past(hs, scopes[0]);
      assert Ended(h) && scope in scopes;
      NoDupTail(scopes);
      NotedEnded(h, t, true, Some(t + cfg.cooldown));
      NotedEnded(h, t, false, None);
      UpdateEnded(hs, scope, Noted(h, t, true, Some(t + cfg.cooldown)));
      UpdateEnded(hs, scope, Noted(h, t, false, None));
      if !Over(cfg, hs, scope, t) {
        var hs' := hs[scope := Noted(h, t, false, None)];
        forall s | s in scopes[1..] ensures Past(hs', s).until == None {
          assert s in scopes;
        }
        RecordEnded(cfg, hs', scopes[1..], t);
      }
    }
  }

  lemma AdmitEnded(cfg: Config, hs: Histories, call: Call)
    requires AllEnded(hs)
    ensures AllEnded(SpecAdmit(cfg, hs, call).0)
  {
    var scopes := Scopes(cfg, call);
    ScopesDistinct(cfg, call);
    HealEnded(hs, scopes, call.now);
    var (hs1, cooling) := SpecHeal(hs, scopes, call.now);
    if cooling == None {
      forall s | s in scopes ensures Past(hs1, s).until == None {
        HealRecordsNothing(hs, scopes, call.now, s);
      }
      RecordEnded(cfg, hs1, scopes, call.now);
    }
  }

  // ---------------------------------------------------------------- a stream's entries are its agent's

  /** Every entry of a stream is, at the same time, one of its agent's that did not trip the agent. */
  ghost predicate Embeds(agent: seq<Entry>, stream: seq<Entry>, at: seq<int>) {
    && |at| == |stream|
    && (forall i :: 0 <= i < |at| ==>
          0 <= at[i] < |agent| && agent[at[i]].at == stream[i].at && !agent[at[i]].tripping)
    && (forall i, j :: 0 <= i < j < |at| ==> at[i] < at[j])
  }

  function Plus(es: seq<Entry>, e: Option<Entry>): seq<Entry> { if e.Some? then es + [e.value] else es }

  /** What one call adds: nothing, an entry to the agent, or one to the agent that does not trip it and one to the
      stream. */
  lemma AdmitAdds(cfg: Config, hs: Histories, call: Call) returns (e: Option<Entry>, f: Option<Entry>)
    ensures var after := SpecAdmit(cfg, hs, call).0;
            && Past(after, AgentScope(call.agent)).entries == Plus(Past(hs, AgentScope(call.agent)).entries, e)
            && (f.Some? ==> e.Some? && !e.value.tripping && e.value.at == f.value.at)
            && (f.Some? ==> call.stream.Some?)
            && (call.stream.Some? ==>
                  var stream := StreamScope(call.agent, call.stream.value);
                  Past(after, stream).entries == Plus(Past(hs, stream).entries, f))
            && (forall other :: other != AgentScope(call.agent)
                                && (call.stream == None || other != StreamScope(call.agent, call.stream.value)) ==>
                  Past(after, other).entries == Past(hs, other).entries)
  {
    var scopes := Scopes(cfg, call);
    forall s ensures Past(SpecHeal(hs, scopes, call.now).0, s).entries == Past(hs, s).entries {
      HealRecordsNothing(hs, scopes, call.now, s);
    }
    var (hs1, cooling) := SpecHeal(hs, scopes, call.now);
    if cooling.Some? {
      e, f := None, None;
    } else if |scopes| == 1 {
      assert scopes == [scopes[0]] + [];
      e := RecordAdds(cfg, hs1, scopes[0], [], call.now);
      f := None;
    } else {
      assert scopes == [scopes[0]] + [scopes[1]];
      e := RecordAdds(cfg, hs1, scopes[0], [scopes[1]], call.now);
      if e.value.tripping {
        f := None;
      } else {
        f := RecordAdds(cfg, hs1[scopes[0] := Noted(Past(hs1, scopes[0]), call.now, false, Past(hs1, scopes[0]).until)],
                        scopes[1], [], call.now);
      }
    }
  }

  /** Recording on a first scope, and on the rest if that does not trip it. */
  lemma RecordAdds(cfg: Config, hs: Histories, scope: Scope, rest: seq<Scope>, now: real) returns (e: Option<Entry>)
    ensures e.Some? && e.value == Entry(now, Past(hs, scope).epoch, Over(cfg, hs, scope, now))
    ensures var h := Past(hs, scope);
            SpecRecord(cfg, hs, [scope] + rest, now).0
            == if Over(cfg, hs, scope, now) then hs[scope := Noted(h, now, true, Some(now + cfg.cooldown))]
               else SpecRecord(cfg, hs[scope := Noted(h, now, false, h.until)], rest, now).0
    ensures rest == [] ==>
              forall other :: Past(SpecRecord(cfg, hs, [scope] + rest, now).0, other).entries
                              == if other == scope then Past(hs, scope).entries + [e.value] else Past(hs, other).entries
  {
    assert ([scope] + rest)[1..] == rest;
    e := Some(Entry(now, Past(hs, scope).epoch, Over(cfg, hs, scope, now)));
  }

  lemma PlusEmbeds(agent: seq<Entry>, stream: seq<Entry>, at: seq<int>, e: Option<Entry>, f: Option<Entry>)
    requires Embeds(agent, stream, at) && (f.Some? ==> e.Some? && !e.value.tripping && e.value.at == f.value.at)
    ensures Embeds(Plus(agent, e), Plus(stream, f), if f.Some? then at + [|agent|] else at)
  {
  }

  lemma {:induction false} RunEnded(cfg: Config, calls: seq<Call>)
    ensures AllEnded(SpecRun(cfg, calls).0)
  {
    if calls != [] {
      var n := |calls| - 1;
      RunEnded(cfg, calls[..n]);
      AdmitEnded(cfg, SpecRun(cfg, calls[..n]).0, calls[n]);
    }
  }

  lemma {:induction false} RunEmbeds(cfg: Config, calls: seq<Call>, agent: string, stream: string)
    returns (at: seq<int>)
    ensures Embeds(Past(SpecRun(cfg, calls).0, AgentScope(agent)).entries,
                   Past(SpecRun(cfg, calls).0, StreamScope(agent, stream)).entries, at)
  {
    at := [];
    if calls != [] {
      var n := |calls| - 1;
      var hs, call := SpecRun(cfg, calls[..n]).0, calls[n];
      at := RunEmbeds(cfg, calls[..n], agent, stream);
      var e, f := AdmitAdds(cfg, hs, call);
      var g := if call.agent == agent && call.stream == Some(stream) then f else None;
      var d := if call.agent == agent then e else None;
      var es, fs := Past(hs, AgentScope(agent)).entries, Past(hs, StreamScope(agent, stream)).entries;
      PlusEmbeds(es, fs, at, d, g);
      at := if g.Some? then at + [|es|] else at;
    }
  }

  // ---------------------------------------------------------------- equal caps

  /** The entry that ends the epoch of `p` lies between it and any entry of a later epoch. */
  lemma {:induction false} TripBetween(es: seq<Entry>, c: real, p: int, q: int) returns (j: int)
    requires TripsEnd(es) && Separated(es, c) && 0 <= p < q < |es| && es[p].epoch < es[q].epoch
    ensures p <= j < q && es[j].tripping && es[j].epoch == es[p].epoch
    decreases q
  {
    if es[q - 1].epoch == es[p].epoch {
      j := q - 1;
    } else {
      assert p < q - 1;
      j := TripBetween(es, c, p, q - 1);
    }
  }

  function Image(a: set<int>, at: seq<int>): set<int>
    requires forall i :: i in a ==> 0 <= i < |at|
  {
    set i | i in a :: at[i]
  }

  lemma {:induction false} ImageSize(a: set<int>, at: seq<int>)
    requires forall i :: i in a ==> 0 <= i < |at|
    requires forall i, j :: 0 <= i < j < |at| ==> at[i] < at[j]
    ensures |Image(a, at)| == |a|
    decreases |a|
  {
    if a != {} {
      var x := Pick(a);
      var rest := a - {x};
      ImageSize(rest, at);
      assert at[x] !in Image(rest, at);
      assert Image(a, at) == Image(rest, at) + {at[x]};
    }
  }

  /** Entries of a stream inside a window that are of one epoch of the agent are no more than the agent's threshold. */
  lemma OneAgentEpoch(cfg: Config, agent: seq<Entry>, stream: seq<Entry>, at: seq<int>, a: set<int>, epoch: nat)
    requires Embeds(agent, stream, at) && Capped(cfg, agent, cfg.maxWakes) && cfg.maxWakes >= 0
    requires forall i :: i in a ==> 0 <= i < |stream| && agent[at[i]].epoch == epoch
    requires forall i, j :: i in a && j in a ==> stream[j].at - stream[i].at < cfg.window
    ensures |a| <= cfg.maxWakes
  {
    ImageSize(a, at);
    OneEpoch(cfg, agent, cfg.maxWakes, Image(a, at), epoch);
  }

  /** Of `threshold` entries of a stream's epoch and the one that tripped it, all inside a window, one belongs to an
      earlier epoch of the agent, whose threshold is the same. */
  lemma AgentWasReset(cfg: Config, agent: seq<Entry>, stream: seq<Entry>, at: seq<int>, a: set<int>, j: int)
    returns (i: int)
    requires Embeds(agent, stream, at) && Separated(agent, cfg.cooldown) && Capped(cfg, agent, cfg.maxWakes)
    requires 0 <= j < |stream| && |a| == cfg.maxWakes && cfg.window > 0.0
    requires forall k :: k in a ==> 0 <= k < j && stream[j].at - cfg.window < stream[k].at <= stream[j].at
    ensures i in a && agent[at[i]].epoch < agent[at[j]].epoch
  {
    if forall k :: k in a ==> agent[at[k]].epoch == agent[at[j]].epoch {
      assert |a + {j}| == |a| + 1;
      OneAgentEpoch(cfg, agent, stream, at, a + {j}, agent[at[j]].epoch);
      assert false;
    } else {
      i :| i in a && agent[at[i]].epoch != agent[at[j]].epoch;
      assert at[i] < at[j];
    }
  }

  /** Of entries that fill `n` epochs, those outside any `n - 1` epochs are a threshold at least. */
  lemma TheRestIsFull(cfg: Config, es: seq<Entry>, threshold: int, a: set<int>, b: set<int>, first: nat, n: nat)
    requires Capped(cfg, es, threshold) && threshold >= 0 && Spanning(cfg, es, a) && n >= 1 && |a| == n * threshold
    requires b <= a && forall i :: i in a - b ==> first <= es[i].epoch < first + n - 1
    ensures |b| >= threshold
  {
    EpochSum(cfg, es, threshold, a - b, first, n - 1);
    assert a == (a - b) + b;
    assert n * threshold == (n - 1) * threshold + threshold;
  }

  function InEpoch(es: seq<Entry>, a: set<int>, epoch: nat): set<int>
    requires forall i :: i in a ==> 0 <= i < |es|
  {
    set i | i in a && es[i].epoch == epoch
  }

  /** Entries that fill every epoch they can, fill the first and the last. */
  lemma FirstAndLastAreFull(cfg: Config, es: seq<Entry>, threshold: int, a: set<int>, first: nat, n: nat)
    requires Capped(cfg, es, threshold) && threshold >= 1 && Spanning(cfg, es, a) && n >= 2 && |a| == n * threshold
    requires forall i :: i in a ==> first <= es[i].epoch < first + n
    ensures |InEpoch(es, a, first)| == threshold && InEpoch(es, a, first + n - 1) != {}
  {
    OneEpoch(cfg, es, threshold, InEpoch(es, a, first), first);
    TheRestIsFull(cfg, es, threshold, a, InEpoch(es, a, first), first + 1, n);
    TheRestIsFull(cfg, es, threshold, a, InEpoch(es, a, first + n - 1), first, n);
  }

  /** With the stream's threshold no lower than the agent's, two or more epochs of the stream cannot all be full
      inside one window: to trip the stream the agent has to be reset in between. */
  lemma NotAllFull(cfg: Config, agent: seq<Entry>, stream: seq<Entry>, at: seq<int>, a: set<int>, n: nat)
    requires cfg.Ok() && cfg.streamMaxWakes == cfg.maxWakes && n >= 2 && Times(n, cfg.cooldown) >= cfg.window
    requires Embeds(agent, stream, at) && Separated(agent, cfg.cooldown) && Capped(cfg, agent, cfg.maxWakes)
    requires Separated(stream, cfg.cooldown) && Capped(cfg, stream, cfg.streamMaxWakes) && TripsEnd(stream)
    requires Spanning(cfg, stream, a)
    ensures |a| != n * cfg.streamMaxWakes
  {
    if |a| == n * cfg.streamMaxWakes {
      assert a != {} by { assert n * cfg.streamMaxWakes >= 1; }
      var m := Smallest(a);
      var first := stream[m].epoch;
      forall i | i in a ensures first <= stream[i].epoch < first + n {
        EpochsClose(cfg, stream, a, m, i, n);
      }
      FirstAndLastAreFull(cfg, stream, cfg.streamMaxWakes, a, first, n);
      var l := InEpoch(stream, a, first);
      var p, q := PickTwo(l, InEpoch(stream, a, first + n - 1));
      var i := LongAgo(cfg, agent, stream, at, l, p, q, n);
    }
  }

  lemma PickTwo(a: set<int>, b: set<int>) returns (p: int, q: int)
    requires a != {} && b != {}
    ensures p in a && q in b
  {
    p := Pick(a);
    q := Pick(b);
  }

  /** Then some entry of the first epoch is `n` cooldowns older than one of the last. */
  lemma LongAgo(cfg: Config, agent: seq<Entry>, stream: seq<Entry>, at: seq<int>, l: set<int>, p: int, q: int, n: nat)
    returns (i: int)
    requires cfg.Ok() && n >= 2
    requires Embeds(agent, stream, at) && Separated(agent, cfg.cooldown) && Capped(cfg, agent, cfg.maxWakes)
    requires Separated(stream, cfg.cooldown) && TripsEnd(stream)
    requires p in l && |l| == cfg.maxWakes && 0 <= q < |stream|
    requires forall k :: k in l ==> 0 <= k < |stream| && stream[q].at - stream[k].at < cfg.window && !stream[k].tripping
    requires forall k :: k in l ==> stream[k].epoch == stream[p].epoch
    requires stream[q].epoch == stream[p].epoch + n - 1
    ensures i in l && stream[i].at + Times(n, cfg.cooldown) <= stream[q].at
  {
    var j := TripBetween(stream, cfg.cooldown, p, q);
    TimesGrows(0, n - 1, cfg.cooldown);
    assert stream[j].at <= stream[q].at;
    forall k | k in l ensures 0 <= k < j && stream[j].at - cfg.window < stream[k].at <= stream[j].at {
      BeforeTheTrip(stream, cfg.cooldown, k, j);
    }
    i := AgentWasReset(cfg, agent, stream, at, l, j);
    OneCooldown(cfg, agent, at[i], at[j]);
    assert Times(n, cfg.cooldown) == Times(n - 1, cfg.cooldown) + cfg.cooldown;
  }

  lemma BeforeTheTrip(es: seq<Entry>, c: real, k: int, j: int)
    requires TripsEnd(es) && Separated(es, c) && c >= 0.0 && 0 <= k < |es| && 0 <= j < |es|
    requires es[j].tripping && !es[k].tripping && es[k].epoch == es[j].epoch
    ensures k < j && es[k].at <= es[j].at
  {
    assert k != j && !(j < k);
    TimesGrows(0, es[j].epoch - es[k].epoch, c);
  }

  lemma OneCooldown(cfg: Config, es: seq<Entry>, i: int, j: int)
    requires cfg.Ok() && Separated(es, cfg.cooldown) && 0 <= i < j < |es| && es[i].epoch < es[j].epoch
    ensures es[i].at + cfg.cooldown <= es[j].at
  {
    TimesGrows(1, es[j].epoch - es[i].epoch, cfg.cooldown);
    assert Times(1, cfg.cooldown) == Times(0, cfg.cooldown) + cfg.cooldown;
  }

  // ---------------------------------------------------------------- when the bound is reached

  ghost predicate Reaches(cfg: Config, agent: string, stream: string, calls: seq<Call>, lo: real, leftOpen: bool,
                          b: int) {
    && Ordered(calls) && |Run(cfg, calls).1| == |calls|
    && |StreamWakes(cfg, calls, Run(cfg, calls).1, agent, stream, lo, leftOpen)| >= b
  }

  lemma NoRoom(cfg: Config, agent: string, stream: string, calls: seq<Call>, lo: real, leftOpen: bool, n: nat)
    requires cfg.Ok() && cfg.streamMaxWakes == cfg.maxWakes && n >= 2 && Times(n, cfg.cooldown) >= cfg.window
    ensures !Reaches(cfg, agent, stream, calls, lo, leftOpen, n * cfg.streamMaxWakes)
  {
    if Reaches(cfg, agent, stream, calls, lo, leftOpen, n * cfg.streamMaxWakes) {
      StreamCount(cfg, calls, Run(cfg, calls).1, agent, stream, lo, leftOpen);
      var ha, hs, at := BothHistories(cfg, agent, stream, calls, lo, leftOpen);
      SpanBound(cfg, hs, cfg.streamMaxWakes, Kept(cfg, hs, lo, leftOpen), n);
      NotAllFull(cfg, ha, hs, at, Kept(cfg, hs, lo, leftOpen), n);
    }
  }

  lemma BothHistories(cfg: Config, agent: string, stream: string, calls: seq<Call>, lo: real, leftOpen: bool)
    returns (ha: seq<Entry>, hs: seq<Entry>, at: seq<int>)
    requires cfg.Ok() && Ordered(calls)
    ensures Embeds(ha, hs, at) && Separated(ha, cfg.cooldown) && Capped(cfg, ha, cfg.maxWakes)
    ensures Separated(hs, cfg.cooldown) && Capped(cfg, hs, cfg.streamMaxWakes) && TripsEnd(hs)
    ensures |Run(cfg, calls).1| == |calls|
    ensures AdmittedIn(cfg, calls, Run(cfg, calls).1, StreamScope(agent, stream), lo, leftOpen)
            <= |Kept(cfg, hs, lo, leftOpen)|
  {
    var t := if calls == [] then 0.0 else calls[|calls| - 1].now;
    var a, s := AgentScope(agent), StreamScope(agent, stream);
    SameOutcomes(cfg, calls, t);
    RunPaced(cfg, calls, t, s, lo, leftOpen);
    RunEnded(cfg, calls);
    at := RunEmbeds(cfg, calls, agent, stream);
    ha, hs := Past(SpecRun(cfg, calls).0, a).entries, Past(SpecRun(cfg, calls).0, s).entries;
    assert Paced(cfg, Past(SpecRun(cfg, calls).0, a), t, cfg.Threshold(a));
    assert Paced(cfg, Past(SpecRun(cfg, calls).0, s), t, cfg.Threshold(s));
    assert Ended(Past(SpecRun(cfg, calls).0, s));
  }

  lemma TooFew(cfg: Config, agent: string, stream: string, calls: seq<Call>, lo: real, leftOpen: bool, n: nat)
    requires cfg.Ok() && cfg.streamMaxWakes > cfg.maxWakes && n >= 1 && Times(n, cfg.cooldown) >= cfg.window
    ensures !Reaches(cfg, agent, stream, calls, lo, leftOpen, n * cfg.streamMaxWakes)
  {
    if Reaches(cfg, agent, stream, calls, lo, leftOpen, n * cfg.streamMaxWakes) {
      var outcomes := Run(cfg, calls).1;
      assert n * cfg.streamMaxWakes - n * cfg.maxWakes == n * (cfg.streamMaxWakes - cfg.maxWakes) >= 1;
      TimesIsProduct(n, cfg.cooldown);
      AgentCap(cfg, calls, agent, lo, leftOpen, n);
      SubsetSize(StreamWakes(cfg, calls, outcomes, agent, stream, lo, leftOpen),
                 AgentWakes(cfg, calls, outcomes, agent, lo, leftOpen));
    }
  }

  /** Some run admits `streamMaxWakes` of a stream for each of the cooldowns it takes to cover a window, all inside one
      window, exactly when the agent's cap is higher, or as high and one cooldown covers a window. */
  lemma StreamBoundReachedIff(cfg: Config, agent: string, stream: string)
    requires cfg.Ok() && cfg.cooldown > 0.0 && cfg.streamMaxWakes >= 1
    ensures var b := Ceiling(cfg.window / cfg.cooldown) * cfg.streamMaxWakes;
            (exists calls, lo, leftOpen :: Reaches(cfg, agent, stream, calls, lo, leftOpen, b))
            <==> cfg.streamMaxWakes < cfg.maxWakes
                 || (cfg.streamMaxWakes == cfg.maxWakes && Ceiling(cfg.window / cfg.cooldown) == 1)
  {
    var n := Ceiling(cfg.window / cfg.cooldown);
    BreakerTight.CeilingIsLeast(cfg.window, cfg.cooldown);
    CeilingCovers(cfg.window, cfg.cooldown);
    if cfg.streamMaxWakes < cfg.maxWakes || (cfg.streamMaxWakes == cfg.maxWakes && n == 1) {
      var calls := BreakerStreams.StreamRateIsAttained(cfg, agent, stream, n);
      assert Reaches(cfg, agent, stream, calls, 0.0, false, n * cfg.streamMaxWakes);
    } else {
      forall calls, lo, leftOpen ensures !Reaches(cfg, agent, stream, calls, lo, leftOpen, n * cfg.streamMaxWakes) {
        if cfg.streamMaxWakes == cfg.maxWakes {
          NoRoom(cfg, agent, stream, calls, lo, leftOpen, n);
        } else {
          TooFew(cfg, agent, stream, calls, lo, leftOpen, n);
        }
      }
    }
  }
}
