/** The WebSocket never gives up, backs off by what has failed, and tells the consumer about its socket. */
module WsProgress {
  import opened Options
  import opened WsConnection
  import opened WsProofs

  // ----- what the log says -----

  ghost predicate Told(log: seq<Call>, kind: Kind, g: int) {
    exists i :: 0 <= i < |log| && log[i].kind == kind && log[i].gen == g
  }

  /** The reconnects announced since the last open or dispose. */
  function Failures(log: seq<Call>): nat {
    if log == [] then 0 else
      match log[|log| - 1].kind
      case OnOpen => 0
      case OnDispose => 0
      case OnClose => Failures(log[..|log| - 1]) + 1
      case _ => Failures(log[..|log| - 1])
  }

  /** The connection has been open since the last dispose. */
  function HasOpened(log: seq<Call>): bool {
    if log == [] then false else
      match log[|log| - 1].kind
      case OnOpen => true
      case OnDispose => false
      case _ => HasOpened(log[..|log| - 1])
  }

  lemma TellMore(log: seq<Call>, c: Call)
    ensures forall k, g :: Told(log + [c], k, g) <==> Told(log, k, g) || (c.kind == k && c.gen == g)
    ensures Failures(log + [c]) ==
            if c.kind in {OnOpen, OnDispose} then 0 else Failures(log) + if c.kind == OnClose then 1 else 0
    ensures HasOpened(log + [c]) == (c.kind == OnOpen || (c.kind != OnDispose && HasOpened(log)))
  {
    assert (log + [c])[..|log|] == log;
    forall k, g ensures Told(log + [c], k, g) <==> Told(log, k, g) || (c.kind == k && c.gen == g) {
      if Told(log, k, g) {
        var i :| 0 <= i < |log| && log[i].kind == k && log[i].gen == g;
        assert (log + [c])[i] == log[i];
      }
      if c.kind == k && c.gen == g {
        assert (log + [c])[|log|] == c;
      }
    }
  }

  // ----- the invariant -----

  /** An attempt is under way: a socket is attached, or its end is being checked, or the next one is scheduled. */
  ghost predicate Trying(s: State) {
    s.socket.Some? || s.timer.Some? || exists c :: Checking(s, c)
  }

  ghost predicate Going(s: State) {
    && (forall k, g :: Told(s.log, k, g) ==> g <= s.gen)
    && (s.mounted ==> (Trying(s) <==> !Told(s.log, OnUnauthorized, s.gen)))
    && (forall g :: g in s.sockets && s.sockets[g].handlers && s.sockets[g].ready != Closed ==> s.socket == Some(g))
  }

  ghost predicate Counted(s: State) {
    && (s.mounted ==> s.scheduled == Failures(s.log))
    && s.hadOpened == HasOpened(s.log)
    && (!s.mounted ==> !s.hadOpened && !s.reconnecting && Failures(s.log) == 0)
    && (s.mounted ==> (s.reconnecting <==> s.hadOpened && (s.timer.Some? || !Told(s.log, OnOpen, s.gen))))
  }

  ghost predicate Remembered(s: State) {
    && (forall g :: g in s.sockets ==> (s.sockets[g].wasOpen <==> Told(s.log, OnOpen, g)))
    && (forall c :: c in s.checks ==> (c.wasOpen <==> Told(s.log, OnOpen, c.gen)))
  }

  ghost predicate Steady(s: State) {
    Tame(s) && Going(s) && Counted(s) && Remembered(s)
  }

  // ----- steps -----

  /** A new attempt from a state in which nobody can call back. */
  lemma AttachSteady(s: State)
    requires s.mounted && s.socket.None? && s.timer.None? && Remembered(s)
    requires forall g :: g in s.sockets ==> g <= s.gen && !s.sockets[g].handlers
    requires forall c :: c in s.checks ==> c.gen <= s.gen
    requires forall k, g :: Told(s.log, k, g) ==> g <= s.gen
    requires s.scheduled == Failures(s.log) && s.hadOpened == HasOpened(s.log)
    requires !s.hadOpened ==> !s.reconnecting
    ensures var t := Attached(s, s.effect); Going(t) && Counted(t) && Remembered(t)
  {
    var t := Attached(s, s.effect);
    TellMore(s.log, Call(OnConnecting, s.gen + 1, s.gen + 1, s.mounted));
  }

  lemma ConnectSteady(s: State, effect: nat)
    requires Steady(s)
    ensures Steady(Connected(s, effect))
  {
    ConnectTames(s, effect);
    if !Disposed(s, effect) {
      CleanUpSilences(s, s.mounted, None);
      CleanUpOpened(s.(timer := None));
      AttachSteady(CleanedUp(s.(timer := None)));
    }
  }

  lemma CleanUpOpened(s: State)
    ensures var t := CleanedUp(s);
      forall g :: g in s.sockets ==> g in t.sockets && t.sockets[g].wasOpen == s.sockets[g].wasOpen
  {
  }

  lemma MountSteady(s: State, cfg: Config)
    requires Steady(s) && !s.mounted
    ensures Steady(Next(s, Mount(cfg)))
  {
    MountTames(s, cfg);
    forall g | g in s.sockets ensures g <= s.gen && !s.sockets[g].handlers {
      assert Tied(s, g);
    }
    var s1 := EffectStarted(s, cfg);
    assert CleanedUp(s1.(timer := None)) == s1;
    AttachSteady(s1);
  }

  lemma DisposeSteady(s: State)
    requires Steady(s) && s.mounted
    ensures Steady(Next(s, Dispose))
  {
    DisposeTames(s);
    CleanUpSilences(s, false, None);
    CleanUpOpened(s.(mounted := false, timer := None));
    TellMore(s.log, Call(OnDispose, s.gen, s.gen, false));
  }

  lemma OpenSteady(s: State, g: nat)
    requires Steady(s) && Enabled(s, Opens(g))
    ensures Steady(Next(s, Opens(g)))
  {
    var t := Next(s, Opens(g));
    SocketEventTames(s, Opens(g));
    assert Tied(s, g);
    assert forall c :: Checking(t, c) <==> Checking(s, c);
    if s.sockets[g].handlers {
      TellMore(s.log, Call(OnOpen, g, s.gen, true));
      assert forall c :: c in s.checks ==> c.gen != g by { assert forall c :: !Checking(s, c); }
    }
  }

  /** The callback that an event of a socket is for. */
  function KindFor(e: Event): Kind
    requires e.Opens? || e.Errors? || e.Message?
  {
    if e.Opens? then OnOpen else if e.Errors? then OnError else if e.pong then OnPong else OnMessage
  }

  lemma WatchdogSteady(s: State, g: nat)
    requires Steady(s) && Enabled(s, Watchdog(g))
    ensures Steady(Next(s, Watchdog(g)))
  {
    SocketEventTames(s, Watchdog(g));
    assert Tied(s, g);
    assert forall c :: Checking(Next(s, Watchdog(g)), c) <==> Checking(s, c);
  }

  lemma SayKeeps(s: State, timeouts: set<nat>, c: Call)
    requires Going(s) && Counted(s) && Remembered(s) && c.kind in {OnError, OnMessage, OnPong} && c.gen <= s.gen
    ensures var t := s.(timeouts := timeouts, log := s.log + [c]); Going(t) && Counted(t) && Remembered(t)
  {
    var t := s.(timeouts := timeouts, log := s.log + [c]);
    TellMore(s.log, c);
    assert forall d :: Checking(t, d) <==> Checking(s, d);
  }

  /** A step that at most tells an error, message or pong. */
  lemma TellSteady(s: State, e: Event)
    requires Steady(s) && Enabled(s, e) && (e.Errors? || e.Message?)
    ensures Steady(Next(s, e))
  {
    var t := Next(s, e);
    SocketEventTames(s, e);
    assert Tied(s, e.gen);
    if s.sockets[e.gen].handlers {
      SayKeeps(s, t.timeouts, Call(KindFor(e), e.gen, s.gen, s.mounted));
    }
  }

  lemma CloseSteady(s: State, g: nat)
    requires Steady(s) && Enabled(s, Closes(g))
    ensures Steady(Next(s, Closes(g)))
  {
    var t := Next(s, Closes(g));
    CloseTames(s, g);
    assert Tied(s, g);
    if s.sockets[g].handlers {
      assert Checking(t, Check(s.effect, g, s.sockets[g].wasOpen));
    } else {
      assert forall c :: Checking(t, c) <==> Checking(s, c);
    }
  }

  lemma TimeoutSteady(s: State, g: nat)
    requires Steady(s) && Enabled(s, TimeoutFires(g))
    ensures Steady(Next(s, TimeoutFires(g)))
  {
    var t := Next(s, TimeoutFires(g));
    TimeoutTames(s, g);
    assert Tied(s, g) && s.socket == Some(g);
    if s.sockets[g].ready == Connecting {
      assert Checking(t, Check(s.effect, g, s.sockets[g].wasOpen));
    } else {
      assert forall c :: Checking(t, c) <==> Checking(s, c);
    }
  }

  lemma CheckSteady(s: State, c: Check, unauthorized: bool)
    requires Steady(s) && c in s.checks
    ensures Steady(Next(s, CheckDone(c, unauthorized)))
  {
    var t := Next(s, CheckDone(c, unauthorized));
    CheckTames(s, CheckDone(c, unauthorized));
    if |t.log| > |s.log| {
      TellMore(s.log, t.log[|s.log|]);
      assert t.log == s.log + [t.log[|s.log|]];
    }
    if c.gen == s.gen {
      assert Checking(s, c);
      assert forall d :: !Checking(t, d) by { assert forall d :: Checking(t, d) ==> Checking(s, d); }
    } else {
      assert forall d :: Checking(t, d) <==> Checking(s, d);
    }
  }

  lemma StepSteady(s: State, e: Event)
    requires Steady(s) && Enabled(s, e)
    ensures Steady(Next(s, e))
  {
    match e
    case Mount(cfg) => MountSteady(s, cfg);
    case Dispose => DisposeSteady(s);
    case TimerFires => ConnectSteady(s, s.timer.value.effect);
    case Visible => ConnectSteady(s, s.effect);
    case TimeoutFires(g) => TimeoutSteady(s, g);
    case Closes(g) => CloseSteady(s, g);
    case CheckDone(c, unauthorized) => CheckSteady(s, c, unauthorized);
    case Opens(g) => OpenSteady(s, g);
    case Watchdog(g) => WatchdogSteady(s, g);
    case _ => TellSteady(s, e);
  }

  lemma {:induction false} RunSteady(s: State, es: seq<Event>)
    requires Steady(s) && CanRun(s, es)
    ensures Steady(After(s, es))
    decreases |es|
  {
    if es != [] {
      StepSteady(s, es[0]);
      RunSteady(Next(s, es[0]), es[1..]);
    }
  }

  // ----- what this means -----

  /**
   * In every reachable mounted state an attempt is under way, unless the consumer has been told that the session of
   * the current generation is not authorized; then none is.
   */
  lemma KeepsTryingIff(cfg: Config, es: seq<Event>)
    requires CanRun(Start(cfg), es) && After(Start(cfg), es).mounted
    ensures var s := After(Start(cfg), es); Trying(s) <==> !Told(s.log, OnUnauthorized, s.gen)
  {
    RunSteady(Start(cfg), es);
  }

  /**
   * In every reachable mounted state the next reconnect waits by what the consumer was told: linear in the closes since
   * the last open or dispose, up to the maximum.
   */
  lemma BackoffCountsFailures(cfg: Config, es: seq<Event>)
    requires CanRun(Start(cfg), es) && After(Start(cfg), es).mounted && After(Start(cfg), es).cfg.step >= 0
    ensures var s := After(Start(cfg), es);
      && s.delay == DelayAfter(s.cfg, Failures(s.log))
      && (s.timer.Some? ==> Failures(s.log) > 0 && s.timer.value.delay == DelayAfter(s.cfg, Failures(s.log) - 1))
  {
    RunSteady(Start(cfg), es);
  }

  /**
   * In every reachable mounted state `reconnecting` is shown exactly when the connection has been open since it was
   * mounted, and the current attempt has not, or the next one is scheduled.
   */
  lemma ReconnectingIff(cfg: Config, es: seq<Event>)
    requires CanRun(Start(cfg), es) && After(Start(cfg), es).mounted
    ensures var s := After(Start(cfg), es);
      s.reconnecting <==> HasOpened(s.log) && (s.timer.Some? || !Told(s.log, OnOpen, s.gen))
  {
    RunSteady(Start(cfg), es);
  }

  /**
   * After any run, a check of the current generation reports an unauthorized session if and only if the session is
   * and that attempt was never open; otherwise, while mounted, the consumer is told of the close and the next attempt
   * is scheduled.
   */
  lemma CheckReportsIff(cfg: Config, es: seq<Event>, c: Check, unauthorized: bool)
    requires CanRun(Start(cfg), es) && Checking(After(Start(cfg), es), c)
    ensures var s := After(Start(cfg), es);
      var t := Next(s, CheckDone(c, unauthorized));
      if unauthorized && !Told(s.log, OnOpen, s.gen) then
        t.log == s.log + [Call(OnUnauthorized, s.gen, s.gen, s.mounted)] && t.timer.None?
      else if s.mounted then
        t.log == s.log + [Call(OnClose, s.gen, s.gen, true)] && t.timer == Some(Timer(s.effect, s.delay))
      else t.log == s.log && t.timer.None?
  {
    RunSteady(Start(cfg), es);
  }

  /** After any run, an open, error, message or pong reaches the consumer exactly when its socket is attached. */
  lemma AttachedIsHeard(cfg: Config, es: seq<Event>, e: Event)
    requires CanRun(Start(cfg), es) && Enabled(After(Start(cfg), es), e) && (e.Opens? || e.Errors? || e.Message?)
    ensures var s := After(Start(cfg), es);
      Next(s, e).log
        == s.log + if s.socket == Some(e.gen) then [Call(KindFor(e), e.gen, e.gen, true)] else []
  {
    RunSteady(Start(cfg), es);
    assert Tied(After(Start(cfg), es), e.gen);
  }

  /** The current attempt ends: its socket closes, or its connect timeout fires while it connects. */
  predicate EndsAttempt(s: State, e: Event) {
    && Enabled(s, e)
    && (e == Closes(s.gen) || (e == TimeoutFires(s.gen) && s.sockets[s.gen].ready == Connecting))
  }

  /** A new attempt: a socket of the next generation, with its connect timeout. */
  predicate NewAttempt(s: State, t: State) {
    && t.mounted && t.gen == s.gen + 1 && t.socket == Some(t.gen) && t.timer.None? && t.gen in t.timeouts
    && t.gen in t.sockets && t.sockets[t.gen] == Socket(s.effect, Connecting, true, false)
    && t.log == s.log + [Call(OnConnecting, t.gen, t.gen, true)]
  }

  lemma ConnectOpens(s: State)
    requires s.mounted
    ensures NewAttempt(s, Connected(s, s.effect)) && Connected(s, s.effect).effect == s.effect
  {
    CleanUpFrame(s.(timer := None));
  }

  lemma EndStartsCheck(s: State, e: Event)
    requires Tame(s) && s.socket.Some? && EndsAttempt(s, e)
    ensures var t := Next(s, e);
      && Check(s.effect, s.gen, s.sockets[s.gen].wasOpen) in t.checks
      && (t.gen, t.effect, t.mounted, t.log) == (s.gen, s.effect, true, s.log)
  {
    assert Tied(s, s.gen);
  }

  lemma CheckSchedules(s: State, c: Check)
    requires s.mounted && c in s.checks && c.gen == s.gen && c.effect == s.effect
    ensures var t := Next(s, CheckDone(c, false));
      && t.timer.Some? && t.timer.value.effect == s.effect
      && (t.gen, t.effect, t.mounted, t.log) == (s.gen, s.effect, true, s.log + [Call(OnClose, s.gen, s.gen, true)])
  {
  }

  /**
   * After any run, once the attached socket is lost a check starts, and if that does not find the session unauthorized,
   * the reconnect timer makes a new attempt.
   */
  lemma LossIsRetried(cfg: Config, es: seq<Event>, e: Event)
    requires CanRun(Start(cfg), es) && After(Start(cfg), es).socket.Some? && EndsAttempt(After(Start(cfg), es), e)
    ensures var s := After(Start(cfg), es);
      && s.gen in s.sockets
      && var c := CheckDone(Check(s.effect, s.gen, s.sockets[s.gen].wasOpen), false);
         var s1 := Next(s, e);
         && Enabled(s1, c) && Enabled(Next(s1, c), TimerFires)
         && Next(s1, c).log == s.log + [Call(OnClose, s.gen, s.gen, true)]
         && NewAttempt(Next(s1, c), Next(Next(s1, c), TimerFires))
         && Next(s1, c).gen == s.gen
  {
    RunTames(Start(cfg), es);
    var s := After(Start(cfg), es);
    var c := Check(s.effect, s.gen, s.sockets[s.gen].wasOpen);
    EndStartsCheck(s, e);
    CheckSchedules(Next(s, e), c);
    ConnectOpens(Next(Next(s, e), CheckDone(c, false)));
  }

  /** After any run, the page becoming visible makes a new attempt unless the attached socket is open or connecting. */
  lemma VisibleReconnectsIff(cfg: Config, es: seq<Event>)
    requires CanRun(Start(cfg), es) && After(Start(cfg), es).mounted
    ensures var s, t := After(Start(cfg), es), Next(After(Start(cfg), es), Visible);
      && (s.socket.Some? ==> s.socket == Some(s.gen) && s.gen in s.sockets)
      && if s.socket.Some? && s.sockets[s.gen].ready in {Open, Connecting} then t == s else NewAttempt(s, t)
  {
    RunTames(Start(cfg), es);
    ConnectOpens(After(Start(cfg), es));
  }

  // ----- no opened socket is left behind -----

  /** The socket that the connection stands for. */
  predicate Current(s: State, g: nat) {
    s.mounted && g == s.gen
  }

  /** Only an attempt that still connects has a connect timeout, and an opened socket that was replaced is closed. */
  ghost predicate LeftClosed(s: State) {
    && (forall g :: g in s.timeouts ==> g in s.sockets && s.sockets[g].ready == Connecting)
    && (forall g :: g in s.sockets && s.sockets[g].wasOpen ==>
          s.sockets[g].ready != Connecting && (Current(s, g) || s.sockets[g].ready in {Closing, Closed}))
  }

  /** A socket after cleaning up, against before: if it ever opened it is closed. */
  predicate ClosedFrom(before: Socket, after: Socket) {
    && after.wasOpen == before.wasOpen && (after.ready == before.ready || after.ready == Closing)
    && (before.wasOpen ==> after.ready in {Closing, Closed})
  }

  lemma CleanUpCloses(s: State, mounted: bool, timer: Option<Timer>)
    requires Sockets(s) && LeftClosed(s)
    ensures var t := CleanedUp(s.(mounted := mounted, timer := timer));
      t.sockets.Keys == s.sockets.Keys && forall g :: g in t.sockets ==> ClosedFrom(s.sockets[g], t.sockets[g])
  {
    var s1 := s.(mounted := mounted, timer := timer);
    CleanUpFrame(s1);
    forall g | g in s.sockets ensures ClosedFrom(s.sockets[g], CleanedUp(s1).sockets[g]) {
      CleanUpCloses1(s1, g);
    }
  }

  lemma CleanUpCloses1(s: State, g: nat)
    requires g in s.sockets && s.sockets[g].wasOpen ==> s.sockets[g].ready != Connecting
    requires g in s.sockets && s.sockets[g].wasOpen && s.latest != Some(g) ==> s.sockets[g].ready in {Closing, Closed}
    requires g in s.sockets
    ensures g in CleanedUp(s).sockets && ClosedFrom(s.sockets[g], CleanedUp(s).sockets[g])
  {
  }

  lemma ConnectLeavesClosed(s: State, effect: nat)
    requires Tame(s) && LeftClosed(s)
    ensures LeftClosed(Connected(s, effect))
  {
    if !Disposed(s, effect) {
      CleanUpSilences(s, s.mounted, None);
      CleanUpCloses(s, s.mounted, None);
      AttachLeavesClosed(CleanedUp(s.(timer := None)));
    }
  }

  lemma AttachLeavesClosed(s: State)
    requires s.mounted && s.timeouts == {}
    requires forall g :: g in s.sockets && s.sockets[g].wasOpen ==> s.sockets[g].ready in {Closing, Closed}
    ensures LeftClosed(Attached(s, s.effect))
  {
  }

  lemma MountLeavesClosed(s: State, cfg: Config)
    requires Tame(s) && LeftClosed(s) && !s.mounted
    ensures LeftClosed(Next(s, Mount(cfg)))
  {
    var s1 := EffectStarted(s, cfg);
    assert CleanedUp(s1.(timer := None)) == s1.(timer := None);
    assert s.timeouts == {} by {
      assert forall g :: g in s.timeouts ==> s.socket == Some(g);
    }
    AttachLeavesClosed(s1.(timer := None));
  }

  lemma DisposeLeavesClosed(s: State)
    requires Tame(s) && LeftClosed(s) && s.mounted
    ensures LeftClosed(Next(s, Dispose))
  {
    CleanUpSilences(s, false, None);
    CleanUpCloses(s, false, None);
  }

  lemma SocketLeavesClosed(s: State, e: Event)
    requires Sockets(s) && LeftClosed(s) && Enabled(s, e) && (e.Opens? || e.Closes? || e.Watchdog? || e.TimeoutFires?)
    ensures LeftClosed(Next(s, e))
  {
    assert Tied(s, e.gen);
    var t := Next(s, e);
    assert t.mounted == s.mounted && t.gen == s.gen;
    assert forall g :: g in s.sockets && g != e.gen ==> t.sockets[g] == s.sockets[g];
  }

  lemma OthersLeaveClosed(s: State, e: Event)
    requires LeftClosed(s) && Enabled(s, e) && (e.Errors? || e.Message? || e.CheckDone?)
    ensures LeftClosed(Next(s, e))
  {
    var t := Next(s, e);
    assert t.sockets == s.sockets && t.gen == s.gen && t.mounted == s.mounted && t.timeouts <= s.timeouts;
  }

  lemma {:induction false} RunLeavesClosed(s: State, es: seq<Event>)
    requires Tame(s) && LeftClosed(s) && CanRun(s, es)
    ensures LeftClosed(After(s, es))
    decreases |es|
  {
    if es != [] {
      StepTames(s, es[0]);
      match es[0] {
        case Mount(cfg) => MountLeavesClosed(s, cfg);
        case Dispose => DisposeLeavesClosed(s);
        case TimerFires => ConnectLeavesClosed(s, s.timer.value.effect);
        case Visible => ConnectLeavesClosed(s, s.effect);
        case Errors(_) => OthersLeaveClosed(s, es[0]);
        case Message(_, _) => OthersLeaveClosed(s, es[0]);
        case CheckDone(_, _) => OthersLeaveClosed(s, es[0]);
        case _ => SocketLeavesClosed(s, es[0]);
      }
      RunLeavesClosed(Next(s, es[0]), es[1..]);
    }
  }

  /** In every reachable state, whatever the consumer saw open is closing or closed once it is not current. */
  lemma OpenedIsClosed(cfg: Config, es: seq<Event>, g: nat)
    requires CanRun(Start(cfg), es) && Told(After(Start(cfg), es).log, OnOpen, g)
    requires g in After(Start(cfg), es).sockets && !Current(After(Start(cfg), es), g)
    ensures After(Start(cfg), es).sockets[g].ready in {Closing, Closed}
  {
    RunSteady(Start(cfg), es);
    RunLeavesClosed(Start(cfg), es);
  }

  /** After any run, a missed pong closes the attached socket, so that the attempt can only end. */
  lemma MissedPongCloses(cfg: Config, es: seq<Event>, g: nat)
    requires CanRun(Start(cfg), es) && Enabled(After(Start(cfg), es), Watchdog(g))
    requires After(Start(cfg), es).socket == Some(g)
    ensures var t := Next(After(Start(cfg), es), Watchdog(g));
      t.sockets[g].ready == Closing && t.socket == Some(g) && EndsAttempt(t, Closes(g))
  {
    RunTames(Start(cfg), es);
    assert Tied(After(Start(cfg), es), g);
  }

  /**
   * A socket that was given up while connecting is another matter: when it opens all the same it stays open, although
   * the consumer has a new one.
   */
  lemma GivenUpSocketStaysOpen(cfg: Config)
    ensures var es := [Mount(cfg), TimeoutFires(1), CheckDone(Check(1, 1, false), false), TimerFires, Opens(1)];
      && CanRun(Start(cfg), es)
      && var t := After(Start(cfg), es);
         t.socket == Some(2) && 1 in t.sockets && t.sockets[1].ready == Open && !t.sockets[1].handlers
  {
    var es := [Mount(cfg), TimeoutFires(1), CheckDone(Check(1, 1, false), false), TimerFires, Opens(1)];
    var s0 := Start(cfg);
    var s1 := Next(s0, es[0]);
    var s2 := Next(s1, es[1]);
    var s3 := Next(s2, es[2]);
    assert s3.sockets == map[1 := Socket(1, Connecting, false, false)];
    OpensAfterAll(s3);
    var rest := [es[3], es[4]];
    OneMoreFirst(s2, es[2], rest, After(s3, rest));
    OneMoreFirst(s1, es[1], [es[2]] + rest, After(s3, rest));
    OneMoreFirst(s0, es[0], [es[1]] + ([es[2]] + rest), After(s3, rest));
    assert es == [es[0]] + ([es[1]] + ([es[2]] + rest));
  }

  lemma OpensAfterAll(s: State)
    requires s.mounted && s.effect == 1 && s.gen == 1 && s.latest == Some(1)
    requires s.timer.Some? && s.timer.value.effect == 1
    requires s.sockets == map[1 := Socket(1, Connecting, false, false)]
    ensures var rest := [TimerFires, Opens(1)];
      && CanRun(s, rest)
      && var t := After(s, rest);
         t.socket == Some(2) && 1 in t.sockets && t.sockets[1].ready == Open && !t.sockets[1].handlers
  {
    var s4 := Next(s, TimerFires);
    var s5 := Next(s4, Opens(1));
    assert CanRun(s5, []) && After(s5, []) == s5;
    OneMoreFirst(s4, Opens(1), [], s5);
    OneMoreFirst(s, TimerFires, [Opens(1)], s5);
    assert [TimerFires, Opens(1)] == [TimerFires] + [Opens(1)];
  }

  lemma OneMoreFirst(s: State, e: Event, rest: seq<Event>, end: State)
    requires Enabled(s, e) && CanRun(Next(s, e), rest) && After(Next(s, e), rest) == end
    ensures CanRun(s, [e] + rest) && After(s, [e] + rest) == end
  {
    assert ([e] + rest)[1..] == rest;
  }
}
