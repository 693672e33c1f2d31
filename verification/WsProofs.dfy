/** What holds in every reachable state of the reconnecting WebSocket. */
module WsProofs {
  import opened Options
  import opened WsConnection

  /** The delay of the next reconnect once k have been scheduled since the last open or mount. */
  function DelayAfter(cfg: Config, k: nat): int {
    if k == 0 then cfg.interval else Min(cfg.interval + k * cfg.step, cfg.max)
  }

  /** A socket can still call back only if it is the current generation's, of the mounted effect. */
  predicate Tied(s: State, g: nat)
    requires g in s.sockets
  {
    g <= s.gen && (s.sockets[g].handlers ==>
        g == s.gen && s.mounted && s.sockets[g].effect == s.effect && s.latest == Some(g))
  }

  /** The current attempt is over: its socket has closed or been orphaned. */
  predicate Over(s: State) {
    && s.socket.None? && s.gen !in s.timeouts
    && (s.gen in s.sockets ==> !s.sockets[s.gen].handlers || s.sockets[s.gen].ready == Closed)
  }

  predicate Checking(s: State, c: Check) {
    c in s.checks && c.gen == s.gen
  }

  ghost predicate Sockets(s: State) {
    && (forall g :: g in s.sockets ==> Tied(s, g))
    && (s.socket.Some? ==>
          && s.socket.value == s.gen && s.mounted && s.gen in s.sockets
          && s.sockets[s.gen].handlers && s.sockets[s.gen].ready != Closed)
    && (forall g :: g in s.timeouts ==> s.socket == Some(g))
    && (s.mounted ==> s.latest == Some(s.gen) && s.gen in s.sockets)
  }

  ghost predicate Checks(s: State) {
    && (forall c :: c in s.checks ==> c.gen <= s.gen)
    && (forall c :: Checking(s, c) ==> c.effect == s.effect && Over(s) && s.timer.None?)
    && (forall c, d :: Checking(s, c) && Checking(s, d) ==> c == d)
    && (s.timer.Some? ==> s.mounted && s.timer.value.effect == s.effect && Over(s))
  }

  predicate Delays(s: State) {
    && (s.timer.Some? ==> s.scheduled > 0)
    && (s.cfg.step >= 0 ==>
          && s.delay == DelayAfter(s.cfg, s.scheduled)
          && (s.timer.Some? ==> s.timer.value.delay == DelayAfter(s.cfg, s.scheduled - 1)))
  }

  /** An open, close, error, message or pong callback speaks for the current generation of the mounted effect. */
  predicate Timely(c: Call) {
    c.kind in {OnOpen, OnClose, OnError, OnMessage, OnPong} ==> c.gen == c.current && c.mounted
  }

  ghost predicate Tame(s: State) {
    Sockets(s) && Checks(s) && Delays(s) && forall i :: 0 <= i < |s.log| ==> Timely(s.log[i])
  }

  lemma CleanUpFrame(s: State)
    ensures var t := CleanedUp(s);
      t == s.(sockets := t.sockets, socket := t.socket, timeouts := t.timeouts) && t.sockets.Keys == s.sockets.Keys
  {
  }

  lemma CleanUpSocketOf(s: State, s1: State, g: nat)
    requires g in s.sockets && Tied(s, g) && s1.sockets == s.sockets && s1.latest == s.latest
    ensures g in CleanedUp(s1).sockets && !CleanedUp(s1).sockets[g].handlers
  {
  }

  lemma CleanUpRefs(s: State, mounted: bool, timer: Option<Timer>)
    requires Sockets(s)
    ensures var t := CleanedUp(s.(mounted := mounted, timer := timer)); t.socket.None? && t.timeouts == {}
  {
    if s.socket.Some? {
      assert Tied(s, s.gen);
    }
    forall g | g in s.timeouts ensures s.socket == Some(g) && s.latest == Some(g) {
    }
  }

  /** After cleaning up, no socket can call back and no connect timeout is armed. */
  lemma CleanUpSilences(s: State, mounted: bool, timer: Option<Timer>)
    requires Sockets(s)
    ensures var t := CleanedUp(s.(mounted := mounted, timer := timer));
      && (forall g :: g in t.sockets ==> g <= t.gen && !t.sockets[g].handlers)
      && t.socket.None? && t.timeouts == {} && t.sockets.Keys == s.sockets.Keys
      && t == s.(mounted := mounted, timer := timer, sockets := t.sockets, socket := None, timeouts := {})
  {
    var s1 := s.(mounted := mounted, timer := timer);
    CleanUpFrame(s1);
    CleanUpRefs(s, mounted, timer);
    forall g | g in s.sockets ensures g <= s.gen && !CleanedUp(s1).sockets[g].handlers {
      assert Tied(s, g);
      CleanUpSocketOf(s, s1, g);
    }
  }

  /** A fresh attempt from a silent state. */
  lemma AttachTames(s: State)
    requires s.mounted && s.socket.None? && s.timeouts == {} && s.timer.None?
    requires forall g :: g in s.sockets ==> g <= s.gen && !s.sockets[g].handlers
    requires forall c :: c in s.checks ==> c.gen <= s.gen
    requires Delays(s) && forall i :: 0 <= i < |s.log| ==> Timely(s.log[i])
    ensures Tame(Attached(s, s.effect))
  {
    var t := Attached(s, s.effect);
    forall g | g in t.sockets ensures Tied(t, g) {}
    assert forall c :: !Checking(t, c);
  }

  lemma ConnectTames(s: State, effect: nat)
    requires Tame(s)
    ensures Tame(Connected(s, effect))
  {
    if !Disposed(s, effect) {
      CleanUpSilences(s, s.mounted, None);
      AttachTames(CleanedUp(s.(timer := None)));
    }
  }

  lemma MountTames(s: State, cfg: Config)
    requires Tame(s) && !s.mounted
    ensures Tame(Next(s, Mount(cfg)))
  {
    forall g | g in s.sockets ensures g <= s.gen && !s.sockets[g].handlers {
      assert Tied(s, g);
    }
    assert forall g :: g in s.timeouts ==> s.socket == Some(g);
    var s1 := EffectStarted(s, cfg);
    assert CleanedUp(s1.(timer := None)) == s1;
    AttachTames(s1);
  }

  lemma DisposeTames(s: State)
    requires Tame(s) && s.mounted
    ensures Tame(Next(s, Dispose))
  {
    CleanUpSilences(s, false, None);
    var t := Next(s, Dispose);
    forall c | Checking(t, c) ensures c.effect == t.effect && Over(t) {
      assert Checking(s, c);
    }
    forall c, d | Checking(t, c) && Checking(t, d) ensures c == d {
      assert Checking(s, c) && Checking(s, d);
    }
    forall g | g in t.sockets ensures Tied(t, g) {}
  }

  /** A step that changes at most the current socket, not its handlers' ties, and starts no check. */
  lemma SocketEventTames(s: State, e: Event)
    requires Tame(s) && Enabled(s, e) && (e.Opens? || e.Errors? || e.Message? || e.Watchdog?)
    ensures Tame(Next(s, e))
  {
    var t := Next(s, e);
    assert Tied(s, e.gen);
    forall g | g in t.sockets ensures Tied(t, g) {
      assert Tied(s, g);
    }
    forall c | Checking(t, c) ensures Checking(s, c) && c.effect == t.effect && Over(t) && t.timer.None? {
      assert Checking(s, c);
    }
    assert t.timer.Some? ==> Over(t);
  }

  /** A step after which the attempt is over and its handshake is being checked. */
  lemma NewCheckTames(s: State, t: State, c: Check)
    requires Tame(s) && c == Check(s.effect, s.gen, c.wasOpen) && s.mounted && !Over(s)
    requires t == s.(sockets := t.sockets, socket := None, timeouts := s.timeouts - {s.gen}, checks := s.checks + {c})
    requires s.gen in s.sockets && t.sockets.Keys == s.sockets.Keys
    requires forall g :: g in s.sockets && g != s.gen ==> t.sockets[g] == s.sockets[g]
    requires t.sockets[s.gen].effect == s.sockets[s.gen].effect
    requires t.sockets[s.gen].handlers ==> s.sockets[s.gen].handlers && t.sockets[s.gen].ready == Closed
    ensures Tame(t)
  {
    forall g | g in t.sockets ensures Tied(t, g) {
      assert Tied(s, g);
    }
    assert forall d :: Checking(t, d) ==> Checking(s, d) || d == c;
    assert forall d :: !Checking(s, d);
  }

  lemma CloseTames(s: State, g: nat)
    requires Tame(s) && Enabled(s, Closes(g))
    ensures Tame(Next(s, Closes(g)))
  {
    var t := Next(s, Closes(g));
    assert Tied(s, g);
    if s.sockets[g].handlers {
      NewCheckTames(s, t, Check(s.effect, g, s.sockets[g].wasOpen));
    } else {
      QuietSocketTames(s, t, g);
    }
  }

  /** A socket that nobody listens to changes its state. */
  lemma QuietSocketTames(s: State, t: State, g: nat)
    requires Tame(s) && g in s.sockets && !s.sockets[g].handlers
    requires exists ready :: t == s.(sockets := s.sockets[g := s.sockets[g].(ready := ready)])
    ensures Tame(t)
  {
    forall h | h in t.sockets ensures Tied(t, h) {
      assert Tied(s, h);
    }
    assert forall c :: Checking(t, c) <==> Checking(s, c);
  }

  lemma TimeoutTames(s: State, g: nat)
    requires Tame(s) && Enabled(s, TimeoutFires(g))
    ensures Tame(Next(s, TimeoutFires(g)))
  {
    var t := Next(s, TimeoutFires(g));
    assert Tied(s, g) && s.socket == Some(g);
    if s.sockets[g].ready == Connecting {
      NewCheckTames(s, t, Check(s.effect, g, s.sockets[g].wasOpen));
    } else {
      assert forall c :: Checking(t, c) <==> Checking(s, c);
      forall h | h in t.sockets ensures Tied(t, h) {
        assert Tied(s, h);
      }
    }
  }

  lemma NextDelay(cfg: Config, k: nat)
    requires cfg.step >= 0
    ensures Min(DelayAfter(cfg, k) + cfg.step, cfg.max) == DelayAfter(cfg, k + 1)
  {
    assert (k + 1) * cfg.step == k * cfg.step + cfg.step;
  }

  lemma DropCheckTames(s: State, c: Check)
    requires Tame(s)
    ensures Tame(s.(checks := s.checks - {c}))
  {
    var t := s.(checks := s.checks - {c});
    forall g | g in t.sockets ensures Tied(t, g) {
      assert Tied(s, g);
    }
    assert forall d :: Checking(t, d) ==> Checking(s, d);
  }

  lemma TellTames(s: State, kind: Kind, g: nat)
    requires Tame(s) && Timely(Call(kind, g, s.gen, s.mounted))
    ensures Tame(Tell(s, kind, g))
  {
    var t := Tell(s, kind, g);
    forall h | h in t.sockets ensures Tied(t, h) {
      assert Tied(s, h);
    }
    assert forall d :: Checking(t, d) <==> Checking(s, d);
  }

  lemma RescheduleTames(s: State)
    requires Tame(s) && s.mounted && Over(s) && forall c :: !Checking(s, c)
    ensures Tame(Rescheduled(s, s.effect))
  {
    if s.cfg.step >= 0 {
      NextDelay(s.cfg, s.scheduled);
    }
    var t := Rescheduled(s, s.effect);
    forall g | g in t.sockets ensures Tied(t, g) {
      assert Tied(s, g);
    }
    assert forall c :: !Checking(t, c) by { assert forall c :: Checking(t, c) ==> Checking(s, c); }
  }

  lemma CheckTames(s: State, e: Event)
    requires Tame(s) && Enabled(s, e) && e.CheckDone?
    ensures Tame(Next(s, e))
  {
    var c := e.check;
    var s1 := s.(checks := s.checks - {c});
    DropCheckTames(s, c);
    if c.gen == s.gen {
      assert Checking(s, c);
      assert forall d :: !Checking(s1, d) by { assert forall d :: Checking(s1, d) ==> Checking(s, d); }
      if !c.wasOpen && e.unauthorized {
        TellTames(s1, OnUnauthorized, c.gen);
      } else if s.mounted {
        TellTames(s1, OnClose, c.gen);
        var s2 := Tell(s1, OnClose, c.gen);
        assert forall d :: Checking(s2, d) <==> Checking(s1, d);
        RescheduleTames(s2);
      }
    }
  }

  lemma StepTames(s: State, e: Event)
    requires Tame(s) && Enabled(s, e)
    ensures Tame(Next(s, e))
  {
    match e
    case Mount(cfg) => MountTames(s, cfg);
    case Dispose => DisposeTames(s);
    case TimerFires => ConnectTames(s, s.timer.value.effect);
    case Visible => ConnectTames(s, s.effect);
    case TimeoutFires(g) => TimeoutTames(s, g);
    case Closes(g) => CloseTames(s, g);
    case CheckDone(_, _) => CheckTames(s, e);
    case _ => SocketEventTames(s, e);
  }

  lemma {:induction false} RunTames(s: State, es: seq<Event>)
    requires Tame(s) && CanRun(s, es)
    ensures Tame(After(s, es))
    decreases |es|
  {
    if es != [] {
      StepTames(s, es[0]);
      RunTames(Next(s, es[0]), es[1..]);
    }
  }

  /**
   * In every reachable state at most one of these exists: an attached socket, a check of the current generation, an
   * armed reconnect timer.
   */
  lemma OneThingAtATime(cfg: Config, es: seq<Event>)
    requires CanRun(Start(cfg), es)
    ensures var s := After(Start(cfg), es);
      && (s.socket.Some? ==> s.timer.None? && s.socket == Some(s.gen) && forall c :: !Checking(s, c))
      && (s.timer.Some? ==> forall c :: !Checking(s, c))
      && (forall c, d :: Checking(s, c) && Checking(s, d) ==> c == d)
      && (!s.mounted ==> s.socket.None? && s.timer.None?)
  {
    RunTames(Start(cfg), es);
  }

  /** In every run no open, close, error, message or pong callback comes from an older generation or after dispose. */
  lemma NoStaleCallback(cfg: Config, es: seq<Event>, i: nat)
    requires CanRun(Start(cfg), es) && i < |After(Start(cfg), es).log|
    ensures Timely(After(Start(cfg), es).log[i])
  {
    RunTames(Start(cfg), es);
  }

  /**
   * In every reachable state the delay follows the linear backoff of the current options, and so does the timer that
   * is armed, however often the effect has been mounted anew with other options.
   */
  lemma BackoffIsLinear(cfg: Config, es: seq<Event>)
    requires CanRun(Start(cfg), es) && After(Start(cfg), es).cfg.step >= 0
    ensures var s := After(Start(cfg), es);
      && s.delay == DelayAfter(s.cfg, s.scheduled)
      && (s.cfg.interval <= s.cfg.max ==> s.delay == Min(s.cfg.interval + s.scheduled * s.cfg.step, s.cfg.max))
      && (s.timer.Some? ==> s.scheduled > 0 && s.timer.value.delay == DelayAfter(s.cfg, s.scheduled - 1))
  {
    RunTames(Start(cfg), es);
  }

  // ----- the unauthorized callback after dispose -----

  /** The run stays within one disposed effect. */
  predicate NoMount(es: seq<Event>) {
    forall e :: e in es ==> !e.Mount?
  }

  /** What the run adds to the log contains an unauthorized callback. */
  ghost predicate Reports(before: State, after: State) {
    exists i :: |before.log| <= i < |after.log| && after.log[i].kind == OnUnauthorized
  }

  /** A disposed effect that no socket can call back and no timer wakes. */
  ghost predicate Quiet(s: State) {
    && !s.mounted && s.timer.None? && s.timeouts == {}
    && forall g :: g in s.sockets ==> !s.sockets[g].handlers
  }

  lemma DisposeQuiets(s: State)
    requires Tame(s) && s.mounted
    ensures var t := Next(s, Dispose);
      Quiet(t) && t.gen == s.gen && t.checks == s.checks && t.log == s.log + [Call(OnDispose, s.gen, s.gen, false)]
  {
    CleanUpSilences(s, false, None);
  }

  /**
   * In such a state the checks only run out, and nothing but a check of the current generation that never opened
   * reports.
   */
  lemma QuietStep(s: State, e: Event)
    requires Quiet(s) && Enabled(s, e) && !e.Mount?
    ensures var t := Next(s, e);
      && Quiet(t) && t.gen == s.gen && t.checks <= s.checks && s.log <= t.log
      && (Reports(s, t) ==> e.CheckDone? && Checking(s, e.check) && !e.check.wasOpen)
  {
  }

  /** A failed handshake of the current generation is being checked. */
  ghost predicate FailedHandshake(s: State) {
    exists c :: Checking(s, c) && !c.wasOpen
  }

  lemma {:induction false} QuietRun(s: State, es: seq<Event>)
    requires Quiet(s) && CanRun(s, es) && NoMount(es)
    ensures s.log <= After(s, es).log
    ensures Reports(s, After(s, es)) ==> FailedHandshake(s)
    decreases |es|
  {
    if es != [] {
      assert es[0] in es;
      var t := Next(s, es[0]);
      QuietStep(s, es[0]);
      QuietRun(t, es[1..]);
      if Reports(s, After(s, es)) && !Reports(t, After(s, es)) {
        var i :| |s.log| <= i < |After(s, es).log| && After(s, es).log[i].kind == OnUnauthorized;
        assert t.log[i].kind == OnUnauthorized;
        assert Reports(s, t);
      }
      if FailedHandshake(t) {
        var c :| Checking(t, c) && !c.wasOpen;
        assert Checking(s, c);
      }
    }
  }

  lemma CheckReports(s: State, c: Check)
    requires Quiet(s) && Checking(s, c) && !c.wasOpen
    ensures CanRun(s, [CheckDone(c, true)]) && Reports(s, After(s, [CheckDone(c, true)]))
  {
    var t := Next(s, CheckDone(c, true));
    assert CanRun(t, []) && After(t, []) == t;
    assert [CheckDone(c, true)][1..] == [];
    assert t.log[|s.log|].kind == OnUnauthorized;
  }

  /**
   * The unauthorized callback is the exception: it can still fire after dispose and before the next mount if and only
   * if a failed handshake of the current generation is being checked at the moment of dispose.
   */
  lemma UnauthorizedAfterDisposeIff(cfg: Config, run: seq<Event>)
    requires CanRun(Start(cfg), run) && After(Start(cfg), run).mounted
    ensures var s := After(Start(cfg), run);
      var t := Next(s, Dispose);
      (exists es :: CanRun(t, es) && NoMount(es) && Reports(t, After(t, es))) <==> FailedHandshake(s)
  {
    RunTames(Start(cfg), run);
    var s := After(Start(cfg), run);
    var t := Next(s, Dispose);
    DisposeQuiets(s);
    assert forall c :: Checking(t, c) <==> Checking(s, c);
    forall es | CanRun(t, es) && NoMount(es) && Reports(t, After(t, es)) ensures FailedHandshake(s) {
      QuietRun(t, es);
      var c :| Checking(t, c) && !c.wasOpen;
      assert Checking(s, c);
    }
    if FailedHandshake(s) {
      var c :| Checking(s, c) && !c.wasOpen;
      CheckReports(t, c);
      assert NoMount([CheckDone(c, true)]);
    }
  }
}
