/** The wake-rate circuit breaker (breaker.py): a sliding window per agent and per (agent, stream). */
module Breaker {
  import opened Common
  import opened Text

  datatype Scope = AgentScope(agent: string) | StreamScope(agent: string, stream: string)
  {
    function Name(): string { if AgentScope? then "agent" else "stream" }

    function Display(): string { if AgentScope? then agent else stream }
  }

  datatype Config = Config(maxWakes: int, window: real, cooldown: real, streamMaxWakes: int)
  {
    /** What `BreakerConfig.__post_init__` accepts. */
    predicate Ok() { maxWakes >= 1 && window > 0.0 && cooldown >= 0.0 && streamMaxWakes >= 0 }

    function Threshold(scope: Scope): int { if scope.AgentScope? then maxWakes else streamMaxWakes }
  }

  datatype Window = Window(timestamps: seq<real>, trippedUntil: Option<real>)

  datatype Outcome = Admitted | Tripped(scope: Scope, count: nat) | Open(scope: Scope)
  {
    /** The reason a refusal is recorded with. */
    function Detail(): string {
      match this
      case Admitted => "admitted"
      case Tripped(s, n) => "tripped scope=" + s.Name() + " key=" + s.Display() + " count=" + Decimal(n)
      case Open(s) => "open scope=" + s.Name() + " key=" + s.Display() + " count=" + Decimal(0)
    }
  }

  type Windows = map<Scope, Window>

  datatype State = State(windows: Windows, admitsSinceGc: int)

  datatype Call = Call(now: real, agent: string, stream: Option<string>)

  const GC_INTERVAL := 1024
  const EMPTY_WINDOW := Window([], None)

  /** The scopes one wake is counted on. */
  function Scopes(cfg: Config, call: Call): seq<Scope> {
    [AgentScope(call.agent)] +
    if call.stream.Some? && cfg.streamMaxWakes > 0 then [StreamScope(call.agent, call.stream.value)] else []
  }

  function Lookup(ws: Windows, scope: Scope): Window {
    if scope in ws then ws[scope] else EMPTY_WINDOW
  }

  function PopExpired(ts: seq<real>, cutoff: real): seq<real> {
    if ts != [] && ts[0] <= cutoff then PopExpired(ts[1..], cutoff) else ts
  }

  predicate Stale(w: Window, cutoff: real) {
    w.trippedUntil == None && (w.timestamps == [] || w.timestamps[|w.timestamps| - 1] <= cutoff)
  }

  /** `_gc`: drop the stale, untripped windows. */
  function Swept(ws: Windows, cutoff: real): Windows {
    map scope | scope in ws && !Stale(ws[scope], cutoff) :: ws[scope]
  }

  /** `admit`'s first loop: stop at a scope still cooling down, clear the ones that have cooled. */
  function Heal(ws: Windows, scopes: seq<Scope>, now: real): (Windows, Option<Scope>)
    decreases |scopes|
  {
    if scopes == [] then (ws, None)
    else
      var scope, w := scopes[0], Lookup(ws, scopes[0]);
      if w.trippedUntil == None then Heal(ws, scopes[1..], now)
      else if now < w.trippedUntil.value then (ws, Some(scope))
      else Heal(ws[scope := EMPTY_WINDOW], scopes[1..], now)
  }

  /** `admit`'s second loop: record the wake on each scope, and trip the first that goes over. */
  function Record(cfg: Config, ws: Windows, scopes: seq<Scope>, now: real): (Windows, Outcome)
    decreases |scopes|
  {
    if scopes == [] then (ws, Admitted)
    else
      var scope, w := scopes[0], Lookup(ws, scopes[0]);
      var ts := PopExpired(w.timestamps, now - cfg.window) + [now];
      if |ts| > cfg.Threshold(scope)
      then (ws[scope := Window(ts, Some(now + cfg.cooldown))], Tripped(scope, |ts|))
      else Record(cfg, ws[scope := Window(ts, w.trippedUntil)], scopes[1..], now)
  }

  function Collected(cfg: Config, st: State, now: real): State {
    if st.admitsSinceGc + 1 >= GC_INTERVAL then State(Swept(st.windows, now - cfg.window), 0)
    else State(st.windows, st.admitsSinceGc + 1)
  }

  function Admit(cfg: Config, st: State, call: Call): (State, Outcome) {
    var st1 := Collected(cfg, st, call.now);
    var (ws, cooling) := Heal(st1.windows, Scopes(cfg, call), call.now);
    if cooling.Some? then (st1.(windows := ws), Open(cooling.value))
    else
      var (ws2, outcome) := Record(cfg, ws, Scopes(cfg, call), call.now);
      (st1.(windows := ws2), outcome)
  }

  class WakeRateBreaker {
    const cfg: Config
    var windows: Windows
    var admitsSinceGc: int

    function Current(): State
      reads this
    {
      State(windows, admitsSinceGc)
    }

    constructor (cfg: Config)
      requires cfg.Ok()
      ensures this.cfg == cfg && Current() == State(map[], 0)
    {
      this.cfg, windows, admitsSinceGc := cfg, map[], 0;
    }

    /** `admit`, under its lock; `call.now` is the clock it read. */
    method AdmitWake(call: Call) returns (outcome: Outcome)
      modifies this
      ensures (Current(), outcome) == Admit(cfg, old(Current()), call)
    {
      var scopes, now := Scopes(cfg, call), call.now;
      admitsSinceGc := admitsSinceGc + 1;
      if admitsSinceGc >= GC_INTERVAL {
        Gc(now);
        admitsSinceGc := 0;
      }
      ghost var swept := Collected(cfg, old(Current()), now);
      for i := 0 to |scopes|
        invariant Heal(windows, scopes[i..], now) == Heal(swept.windows, scopes, now)
        invariant admitsSinceGc == swept.admitsSinceGc
      {
        var scope := scopes[i];
        if scope in windows && windows[scope].trippedUntil != None {
          if now < windows[scope].trippedUntil.value {
            return Open(scope);
          }
          windows := windows[scope := Window([], None)];
        }
      }
      ghost var healed := windows;
      for i := 0 to |scopes|
        invariant Record(cfg, windows, scopes[i..], now) == Record(cfg, healed, scopes, now)
        invariant admitsSinceGc == swept.admitsSinceGc
      {
        var scope := scopes[i];
        var window := if scope in windows then windows[scope] else Window([], None);
        var timestamps := window.timestamps;
        while timestamps != [] && timestamps[0] <= now - cfg.window
          invariant PopExpired(timestamps, now - cfg.window) == PopExpired(window.timestamps, now - cfg.window)
        {
          timestamps := timestamps[1..];
        }
        timestamps := timestamps + [now];
        if |timestamps| > cfg.Threshold(scope) {
          windows := windows[scope := Window(timestamps, Some(now + cfg.cooldown))];
          return Tripped(scope, |timestamps|);
        }
        windows := windows[scope := Window(timestamps, window.trippedUntil)];
      }
      return Admitted;
    }

    /** `_gc`: collect the stale keys, then delete them one at a time. */
    method Gc(now: real)
      modifies this`windows
      ensures windows == Swept(old(windows), now - cfg.window)
    {
      var cutoff := now - cfg.window;
      var stale := set scope | scope in windows && Stale(windows[scope], cutoff);
      while stale != {}
        invariant stale <= windows.Keys
        invariant forall scope :: scope in windows ==> scope in old(windows) && windows[scope] == old(windows)[scope]
        invariant forall scope :: scope in old(windows) && scope !in windows ==> Stale(old(windows)[scope], cutoff)
        invariant forall scope :: scope in windows && Stale(windows[scope], cutoff) ==> scope in stale
        invariant forall scope :: scope in stale ==> Stale(old(windows)[scope], cutoff)
        decreases stale
      {
        var scope :| scope in stale;
        windows := windows - {scope};
        stale := stale - {scope};
      }
    }
  }
}
