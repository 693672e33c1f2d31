/**
 * The reconnecting WebSocket: sockets, handshake checks and timers of several
 * connection attempts, and of several mounts of the effect, side by side.
 */
module WsConnection {
  import opened Options

  /** The structural options; when one changes the effect is mounted anew, with the new ones. */
  datatype Config = Config(interval: int, step: int, max: int)

  datatype Ready = Connecting | Open | Closing | Closed

  /** One WebSocket object. It is named by its generation; effect is the mount that created it. */
  datatype Socket = Socket(effect: nat, ready: Ready, handlers: bool, wasOpen: bool)

  /** An asynchronous session check after a failed or closed connection. */
  datatype Check = Check(effect: nat, gen: nat, wasOpen: bool)

  datatype Timer = Timer(effect: nat, delay: int)

  datatype Kind = OnConnecting | OnOpen | OnClose | OnError | OnMessage | OnPong | OnUnauthorized | OnDispose

  /** A callback of the consumer: the generation it speaks for, and the state of affairs when it ran. */
  datatype Call = Call(kind: Kind, gen: nat, current: nat, mounted: bool)

  datatype State = State(
    cfg: Config, // of the current effect
    effect: nat, mounted: bool, // !disposed of the current effect
    gen: nat, // connectGenRef
    sockets: map<nat, Socket>,
    socket: Option<nat>, // socketRef
    latest: Option<nat>, // the socket that activeCleanup would clean up
    timeouts: set<nat>, // armed connect timeouts
    checks: set<Check>,
    timer: Option<Timer>, // reconnectTimerRef
    delay: int, // reconnectDelay
    scheduled: nat, // reconnects scheduled since the last open or mount
    hadOpened: bool, reconnecting: bool,
    log: seq<Call>)

  function Start(cfg: Config): State {
    State(cfg, 0, false, 0, map[], None, None, {}, {}, None, cfg.interval, 0, false, false, [])
  }

  datatype Event =
    | Mount(cfg: Config)
    | Dispose
    | TimerFires
    | TimeoutFires(gen: nat)
    | Opens(gen: nat)
    | Errors(gen: nat)
    | Closes(gen: nat)
    | Message(gen: nat, pong: bool)
    | Watchdog(gen: nat)
    | CheckDone(check: Check, unauthorized: bool)
    | Visible // the tab becomes visible, or the network comes back

  /** What the browser can do: events reach sockets in the states that allow them. */
  predicate Enabled(s: State, e: Event) {
    match e
    case Mount(_) => !s.mounted
    case Dispose => s.mounted
    case TimerFires => s.timer.Some?
    case TimeoutFires(g) => g in s.timeouts && g in s.sockets
    case Opens(g) => g in s.sockets && s.sockets[g].ready == Connecting
    case Errors(g) => g in s.sockets && s.sockets[g].ready != Closed
    case Closes(g) => g in s.sockets && s.sockets[g].ready != Closed
    case Message(g, _) => g in s.sockets && s.sockets[g].ready == Open
    case Watchdog(g) => g in s.sockets && s.sockets[g].ready == Open
    case CheckDone(c, _) => c in s.checks
    case Visible => true
  }

  predicate Disposed(s: State, effect: nat) {
    !s.mounted || effect != s.effect
  }

  function Tell(s: State, kind: Kind, gen: nat): State {
    s.(log := s.log + [Call(kind, gen, s.gen, s.mounted)])
  }

  function Orphaned(s: State, g: nat): State
    requires g in s.sockets
  {
    s.(sockets := s.sockets[g := s.sockets[g].(handlers := false)],
       socket := if s.socket == Some(g) then None else s.socket)
  }

  /** activeCleanup. */
  function CleanedUp(s: State): State {
    if s.latest.None? || s.latest.value !in s.sockets then s else
      var g := s.latest.value;
      var o := Orphaned(s, g).(timeouts := s.timeouts - {g});
      if o.sockets[g].ready == Open then o.(sockets := o.sockets[g := o.sockets[g].(ready := Closing)]) else o
  }

  function WithSocket(s: State, g: nat, effect: nat): State {
    s.(sockets := s.sockets[g := Socket(effect, Connecting, true, false)],
       socket := Some(g), latest := Some(g), timeouts := s.timeouts + {g})
  }

  /** A new socket of the next generation takes over. */
  function Attached(s: State, effect: nat): State {
    var g := s.gen + 1;
    WithSocket(Tell(s.(gen := g, reconnecting := s.reconnecting || s.hadOpened), OnConnecting, g), g, effect)
  }

  /** connect, called from the given effect. */
  function Connected(s: State, effect: nat): State {
    if Disposed(s, effect) then s else Attached(CleanedUp(s.(timer := None)), effect)
  }

  function Min(a: int, b: int): int {
    if a < b then a else b
  }

  /** scheduleReconnect. */
  function Rescheduled(s: State, effect: nat): State {
    if Disposed(s, effect) then s else
      s.(reconnecting := s.reconnecting || s.hadOpened,
         timer := Some(Timer(effect, s.delay)),
         delay := Min(s.delay + s.cfg.step, s.cfg.max),
         scheduled := s.scheduled + 1)
  }

  function Recovered(s: State): State {
    s.(hadOpened := true, delay := s.cfg.interval, scheduled := 0, reconnecting := false)
  }

  function EffectStarted(s: State, cfg: Config): State {
    s.(cfg := cfg, effect := s.effect + 1, mounted := true, latest := None, delay := cfg.interval, scheduled := 0)
  }

  function Next(s: State, e: Event): State
    requires Enabled(s, e)
  {
    match e
    case Mount(cfg) => Connected(EffectStarted(s, cfg), s.effect + 1)
    case Dispose =>
      Tell(CleanedUp(s.(mounted := false, timer := None)), OnDispose, s.gen).(hadOpened := false, reconnecting := false)
    case TimerFires => Connected(s, s.timer.value.effect)
    case TimeoutFires(g) =>
      var s1 := s.(timeouts := s.timeouts - {g});
      if Disposed(s, s.sockets[g].effect) || g != s.gen || s.sockets[g].ready != Connecting then s1
      else Orphaned(s1, g).(checks := s.checks + {Check(s.sockets[g].effect, g, s.sockets[g].wasOpen)})
    case Opens(g) =>
      if !s.sockets[g].handlers || Disposed(s, s.sockets[g].effect) || g != s.gen then
        s.(sockets := s.sockets[g := s.sockets[g].(ready := Open)],
           timeouts := if s.sockets[g].handlers then s.timeouts - {g} else s.timeouts)
      else
        Tell(Recovered(s).(sockets := s.sockets[g := s.sockets[g].(ready := Open, wasOpen := true)],
                                timeouts := s.timeouts - {g}), OnOpen, g)
    case Errors(g) =>
      if !s.sockets[g].handlers then s else
        var s1 := s.(timeouts := s.timeouts - {g});
        if Disposed(s, s.sockets[g].effect) || g != s.gen then s1 else Tell(s1, OnError, g)
    case Closes(g) =>
      var s1 := s.(sockets := s.sockets[g := s.sockets[g].(ready := Closed)]);
      if !s.sockets[g].handlers then s1 else
        var s2 := s1.(timeouts := s.timeouts - {g});
        if Disposed(s, s.sockets[g].effect) || g != s.gen then s2
        else s2.(socket := if s.socket == Some(g) then None else s.socket,
                 checks := s.checks + {Check(s.sockets[g].effect, g, s.sockets[g].wasOpen)})
    case Message(g, pong) =>
      if !s.sockets[g].handlers then s else Tell(s, if pong then OnPong else OnMessage, g)
    case Watchdog(g) =>
      if Disposed(s, s.sockets[g].effect) || g != s.gen then s
      else s.(sockets := s.sockets[g := s.sockets[g].(ready := Closing)])
    case CheckDone(c, unauthorized) =>
      var s1 := s.(checks := s.checks - {c});
      if !c.wasOpen && unauthorized && c.gen == s.gen then Tell(s1, OnUnauthorized, c.gen)
      else if Disposed(s, c.effect) || c.gen != s.gen then s1
      else Rescheduled(Tell(s1, OnClose, c.gen), c.effect)
    case Visible =>
      if !s.mounted then s
      else if s.socket.Some? && s.socket.value in s.sockets
              && s.sockets[s.socket.value].ready in {Open, Connecting} then s
      else Connected(s, s.effect)
  }

  // ----- the effect's refs and variables, changed by its callbacks -----

  class Connection {
    var cfg: Config
    var effect: nat
    var mounted: bool
    var gen: nat
    var sockets: map<nat, Socket>
    var socketRef: Option<nat>
    var activeCleanup: Option<nat>
    var timeouts: set<nat>
    var checks: set<Check>
    var reconnectTimer: Option<Timer>
    var reconnectDelay: int
    var scheduled: nat
    var hadOpened: bool
    var reconnecting: bool
    var log: seq<Call>

    function View(): State
      reads this
    {
      State(cfg, effect, mounted, gen, sockets, socketRef, activeCleanup, timeouts, checks,
            reconnectTimer, reconnectDelay, scheduled, hadOpened, reconnecting, log)
    }

    constructor (cfg: Config)
      ensures View() == Start(cfg)
    {
      this.cfg := cfg;
      effect, mounted, gen, sockets, socketRef, activeCleanup := 0, false, 0, map[], None, None;
      timeouts, checks, reconnectTimer, reconnectDelay, scheduled := {}, {}, None, cfg.interval, 0;
      hadOpened, reconnecting, log := false, false, [];
    }

    method Invoke(kind: Kind, g: nat)
      modifies this`log
      ensures View() == Tell(old(View()), kind, g)
    {
      log := log + [Call(kind, g, gen, mounted)];
    }

    method OrphanSocket(g: nat)
      requires g in sockets
      modifies this`sockets, this`socketRef
      ensures View() == Orphaned(old(View()), g)
    {
      sockets := sockets[g := sockets[g].(handlers := false)];
      if socketRef == Some(g) {
        socketRef := None;
      }
    }

    method Cleanup()
      modifies this`sockets, this`socketRef, this`timeouts
      ensures View() == CleanedUp(old(View()))
    {
      if activeCleanup.None? || activeCleanup.value !in sockets {
        return;
      }
      var g := activeCleanup.value;
      timeouts := timeouts - {g};
      OrphanSocket(g);
      if sockets[g].ready == Open {
        sockets := sockets[g := sockets[g].(ready := Closing)];
      }
    }

    method Attach(caller: nat)
      modifies this
      ensures View() == Attached(old(View()), caller)
    {
      gen := gen + 1;
      if hadOpened {
        reconnecting := true;
      }
      Invoke(OnConnecting, gen);
      OpenSocket(caller);
    }

    method OpenSocket(caller: nat)
      modifies this`sockets, this`socketRef, this`activeCleanup, this`timeouts
      ensures View() == WithSocket(old(View()), gen, caller)
    {
      sockets := sockets[gen := Socket(caller, Connecting, true, false)];
      socketRef, activeCleanup := Some(gen), Some(gen);
      timeouts := timeouts + {gen};
    }

    method Connect(caller: nat)
      modifies this
      ensures View() == Connected(old(View()), caller)
    {
      if !mounted || caller != effect {
        return;
      }
      reconnectTimer := None;
      Cleanup();
      Attach(caller);
    }

    method ScheduleReconnect(caller: nat)
      modifies this`reconnecting, this`reconnectTimer, this`reconnectDelay, this`scheduled
      ensures View() == Rescheduled(old(View()), caller)
    {
      if !mounted || caller != effect {
        return;
      }
      if hadOpened {
        reconnecting := true;
      }
      var delay := reconnectDelay;
      reconnectDelay := Min(reconnectDelay + cfg.step, cfg.max);
      reconnectTimer := Some(Timer(caller, delay));
      scheduled := scheduled + 1;
    }

    /** The start of the effect function: its own variables, afresh. */
    method StartEffect(options: Config)
      modifies this`cfg, this`effect, this`mounted, this`activeCleanup, this`reconnectDelay, this`scheduled
      ensures View() == EffectStarted(old(View()), options)
    {
      cfg := options;
      effect := effect + 1;
      mounted := true;
      activeCleanup := None;
      reconnectDelay := cfg.interval;
      scheduled := 0;
    }

    method OnMount(options: Config)
      requires !mounted
      modifies this
      ensures View() == Next(old(View()), Mount(options))
    {
      StartEffect(options);
      Connect(effect);
    }

    method OnUnmount()
      requires mounted
      modifies this
      ensures View() == Next(old(View()), Dispose)
    {
      mounted := false;
      reconnectTimer := None;
      Cleanup();
      Invoke(OnDispose, gen);
      hadOpened := false;
      reconnecting := false;
    }

    method OnReconnectTimer()
      requires reconnectTimer.Some?
      modifies this
      ensures View() == Next(old(View()), TimerFires)
    {
      Connect(reconnectTimer.value.effect);
    }

    method OnConnectTimeout(g: nat)
      requires g in timeouts && g in sockets
      modifies this
      ensures View() == Next(old(View()), TimeoutFires(g))
    {
      timeouts := timeouts - {g};
      if !mounted || sockets[g].effect != effect || g != gen {
        return;
      }
      if sockets[g].ready != Connecting {
        return;
      }
      OrphanSocket(g);
      checks := checks + {Check(sockets[g].effect, g, sockets[g].wasOpen)};
    }

    method Recover()
      modifies this`hadOpened, this`reconnectDelay, this`scheduled, this`reconnecting
      ensures View() == Recovered(old(View()))
    {
      hadOpened := true;
      reconnectDelay, scheduled := cfg.interval, 0;
      reconnecting := false;
    }

    method OnSocketOpen(g: nat)
      requires Enabled(View(), Opens(g))
      modifies this
      ensures View() == Next(old(View()), Opens(g))
    {
      if !sockets[g].handlers {
        sockets := sockets[g := sockets[g].(ready := Open)];
        return;
      }
      timeouts := timeouts - {g};
      if !mounted || sockets[g].effect != effect || g != gen {
        sockets := sockets[g := sockets[g].(ready := Open)];
        return;
      }
      sockets := sockets[g := sockets[g].(ready := Open, wasOpen := true)];
      Recover();
      Invoke(OnOpen, g);
    }

    method OnSocketError(g: nat)
      requires Enabled(View(), Errors(g))
      modifies this
      ensures View() == Next(old(View()), Errors(g))
    {
      if !sockets[g].handlers {
        return;
      }
      timeouts := timeouts - {g};
      if !mounted || sockets[g].effect != effect || g != gen {
        return;
      }
      Invoke(OnError, g);
    }

    method OnSocketClose(g: nat)
      requires Enabled(View(), Closes(g))
      modifies this
      ensures View() == Next(old(View()), Closes(g))
    {
      sockets := sockets[g := sockets[g].(ready := Closed)];
      if !sockets[g].handlers {
        return;
      }
      timeouts := timeouts - {g};
      if !mounted || sockets[g].effect != effect || g != gen {
        return;
      }
      if socketRef == Some(g) {
        socketRef := None;
      }
      checks := checks + {Check(sockets[g].effect, g, sockets[g].wasOpen)};
    }

    method OnSocketMessage(g: nat, pong: bool)
      requires Enabled(View(), Message(g, pong))
      modifies this
      ensures View() == Next(old(View()), Message(g, pong))
    {
      if sockets[g].handlers {
        if pong {
          Invoke(OnPong, g);
        } else {
          Invoke(OnMessage, g);
        }
      }
    }

    method OnPongMissed(g: nat)
      requires Enabled(View(), Watchdog(g))
      modifies this
      ensures View() == Next(old(View()), Watchdog(g))
    {
      if !mounted || sockets[g].effect != effect || g != gen {
        return;
      }
      sockets := sockets[g := sockets[g].(ready := Closing)];
    }

    method OnCheckDone(c: Check, unauthorized: bool)
      requires c in checks
      modifies this
      ensures View() == Next(old(View()), CheckDone(c, unauthorized))
    {
      checks := checks - {c};
      // The dispose flag was passed by value when the check began, so only the generation is looked at here.
      if !c.wasOpen && unauthorized && c.gen == gen {
        Invoke(OnUnauthorized, c.gen);
        return;
      }
      if !mounted || c.effect != effect || c.gen != gen {
        return;
      }
      Invoke(OnClose, c.gen);
      ScheduleReconnect(c.effect);
    }

    method ReconnectNow()
      modifies this
      ensures View() == Next(old(View()), Visible)
    {
      if !mounted {
        return;
      }
      if socketRef.Some? && socketRef.value in sockets {
        if sockets[socketRef.value].ready == Open || sockets[socketRef.value].ready == Connecting {
          return;
        }
      }
      Connect(effect);
    }
  }

  // ----- runs -----

  predicate CanRun(s: State, es: seq<Event>)
    decreases |es|
  {
    es != [] ==> Enabled(s, es[0]) && CanRun(Next(s, es[0]), es[1..])
  }

  function After(s: State, es: seq<Event>): State
    requires CanRun(s, es)
    decreases |es|
  {
    if es == [] then s else After(Next(s, es[0]), es[1..])
  }
}
