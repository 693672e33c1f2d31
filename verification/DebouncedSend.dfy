/**
 * The throttle's speed sender: a debounce in front of one retry chain at a
 * time. Timers, promise callbacks and user actions are separate events.
 */
module DebouncedSend {
  import opened Options
  import opened RetryChain

  /** A throttle move; moves are numbered in the order the user makes them. */
  datatype Move = Move(number: nat, address: int, speed: int, forward: bool)

  /** One call of the underlying setSpeed, and how many moves had been made by then. */
  datatype Frame = Frame(move: Move, newest: nat)

  datatype Timer = Timer(gen: nat, chain: Chain<Move>, due: int)

  datatype State = State(
    now: int,
    moves: nat, // moves made so far
    pending: Option<Move>, // pendingRef
    debounce: bool, // whether timerRef of the debounce is armed
    gen: nat, // genRef
    flights: map<nat, Chain<Move>>, // promises not yet resolved, by the generation of their dispatch
    timer: Option<Timer>, // the retry timer
    retrying: bool,
    mounted: bool,
    log: seq<Frame>)

  const START := State(0, 0, None, false, 0, map[], None, false, true, [])

  datatype Event =
    | Wait(d: nat)
    | QueueSpeed(address: int, speed: int, forward: bool)
    | SendSpeedNow(address: int, speed: int, forward: bool)
    | Flush
    | DebounceFires
    | Resolves(gen: nat, res: Result)
    | RetryFires
    | Unmount

  predicate Enabled(s: State, e: Event) {
    match e
    case DebounceFires => s.debounce
    case Resolves(gen, _) => gen in s.flights
    case RetryFires => s.timer.Some? && s.timer.value.due <= s.now
    case Unmount => s.mounted
    case _ => true
  }

  // ----- what each callback does -----

  function Cancelled(s: State): State {
    s.(gen := s.gen + 1, retrying := false, timer := None)
  }

  function Sending(s: State, move: Move): seq<Frame> {
    s.log + [Frame(move, s.moves)]
  }

  function Dispatched(s: State, move: Move): State {
    var c := Cancelled(s);
    c.(flights := c.flights[c.gen := Start(move, c.now)], log := Sending(s, move))
  }

  function Flushed(s: State): State {
    var quiet := s.(debounce := false);
    if s.pending.None? then quiet else Dispatched(quiet.(pending := None), s.pending.value)
  }

  function Next(s: State, e: Event): State
    requires Enabled(s, e)
  {
    match e
    case Wait(d) => s.(now := s.now + d)
    case QueueSpeed(address, speed, forward) =>
      Cancelled(s).(moves := s.moves + 1, pending := Some(Move(s.moves + 1, address, speed, forward)), debounce := true)
    case SendSpeedNow(address, speed, forward) =>
      Dispatched(s.(moves := s.moves + 1, debounce := false, pending := None),
          Move(s.moves + 1, address, speed, forward))
    case Flush => Flushed(s)
    case DebounceFires => Flushed(s)
    case Resolves(gen, res) =>
      var c := s.flights[gen];
      var s1 := s.(flights := s.flights - {gen});
      if gen != s.gen then s1 else
        var b := Retry(res, c.budget, s.now);
        if b.None? then s1.(retrying := false)
        else s1.(retrying := true, timer := Some(Timer(gen, c.(budget := b.value), s.now + BACKOFF)))
    case RetryFires =>
      var t := s.timer.value;
      var s1 := s.(timer := None);
      if t.gen != s.gen then s1
      else s1.(flights := s.flights[t.gen := t.chain.(sends := t.chain.sends + 1)], log := Sending(s, t.chain.args))
    case Unmount =>
      s.(mounted := false, timer := None, debounce := false,
         log := if s.pending.Some? then Sending(s, s.pending.value) else s.log)
  }

  // ----- the hook's refs, changed by its callbacks -----

  class SpeedSender {
    var now: int
    var moves: nat
    var pendingRef: Option<Move>
    var debounceArmed: bool
    var genRef: nat
    var flights: map<nat, Chain<Move>>
    var timerRef: Option<Timer>
    var retrying: bool
    var mounted: bool
    var log: seq<Frame>

    function View(): State
      reads this
    {
      State(now, moves, pendingRef, debounceArmed, genRef, flights, timerRef, retrying, mounted, log)
    }

    constructor ()
      ensures View() == START
    {
      now, moves, pendingRef, debounceArmed := 0, 0, None, false;
      genRef, flights, timerRef, retrying, mounted, log := 0, map[], None, false, true, [];
    }

    method Cancel()
      modifies this
      ensures View() == Cancelled(old(View()))
    {
      genRef := genRef + 1;
      retrying := false;
      timerRef := None;
    }

    method Dispatch(move: Move)
      modifies this
      ensures View() == Dispatched(old(View()), move)
    {
      Cancel();
      flights := flights[genRef := Start(move, now)];
      log := log + [Frame(move, moves)];
    }

    method FlushPending()
      modifies this
      ensures View() == Flushed(old(View()))
    {
      debounceArmed := false;
      var pending := pendingRef;
      if pending.None? {
        return;
      }
      pendingRef := None;
      Dispatch(pending.value);
    }

    method Queue(address: int, speed: int, forward: bool)
      modifies this
      ensures View() == Next(old(View()), QueueSpeed(address, speed, forward))
    {
      Cancel();
      moves := moves + 1;
      pendingRef := Some(Move(moves, address, speed, forward));
      debounceArmed := true;
    }

    method SendNow(address: int, speed: int, forward: bool)
      modifies this
      ensures View() == Next(old(View()), SendSpeedNow(address, speed, forward))
    {
      moves := moves + 1;
      debounceArmed := false;
      pendingRef := None;
      Dispatch(Move(moves, address, speed, forward));
    }

    /** The continuation of one send's promise. */
    method OnResult(gen: nat, res: Result)
      requires gen in flights
      modifies this
      ensures View() == Next(old(View()), Resolves(gen, res))
    {
      var c := flights[gen];
      flights := flights - {gen};
      if gen != genRef {
        return;
      }
      var b := Retry(res, c.budget, now);
      if b.None? {
        retrying := false;
        return;
      }
      retrying := true;
      timerRef := Some(Timer(gen, c.(budget := b.value), now + BACKOFF));
    }

    method OnRetryTimer()
      requires Enabled(View(), RetryFires)
      modifies this
      ensures View() == Next(old(View()), RetryFires)
    {
      var t := timerRef.value;
      timerRef := None;
      if t.gen != genRef {
        return;
      }
      flights := flights[t.gen := t.chain.(sends := t.chain.sends + 1)];
      log := log + [Frame(t.chain.args, moves)];
    }

    method OnUnmount()
      requires mounted
      modifies this
      ensures View() == Next(old(View()), Unmount)
    {
      mounted := false;
      timerRef := None;
      debounceArmed := false;
      if pendingRef.Some? {
        log := log + [Frame(pendingRef.value, moves)];
      }
    }
  }

  // ----- runs -----

  predicate CanRun(s: State, es: seq<Event>)
    decreases |es|
  {
    es != [] ==> Enabled(s, es[0]) && CanRun(Next(s, es[0]), es[1..])
  }

  function After(s: State, es: seq<Event>): State
    requires CanRun(s, es)
    decreases |es|
  {
    if es == [] then s else After(Next(s, es[0]), es[1..])
  }

  /** The current generation's chain is the newest move's, and nothing newer waits behind it. */
  predicate Newest(s: State) {
    && (s.pending.Some? ==> s.pending.value.number == s.moves && s.gen !in s.flights && s.timer.None?)
    && (s.gen in s.flights ==> s.flights[s.gen].args.number == s.moves && s.timer.None?)
    && (s.timer.Some? ==> s.timer.value.gen == s.gen && s.timer.value.chain.args.number == s.moves)
    && (s.mounted ==>
          (s.retrying <==> s.timer.Some? || (s.gen in s.flights && s.flights[s.gen].sends > 1)))
  }

  ghost predicate Consistent(s: State) {
    && Newest(s)
    && (forall g :: g in s.flights ==> g <= s.gen && InFlight(s.flights[g], s.now))
    && (s.timer.Some? ==> Waiting(s.timer.value.chain, s.timer.value.due))
    && (forall i :: 0 <= i < |s.log| ==> s.log[i].move.number == s.log[i].newest)
  }

  lemma StepKeepsConsistent(s: State, e: Event)
    requires Consistent(s) && Enabled(s, e)
    ensures Consistent(Next(s, e))
    ensures s.log <= Next(s, e).log
  {
    var t := Next(s, e);
    if e.Resolves? && e.gen == s.gen {
      RetryKeepsSound(s.flights[e.gen], e.res, s.now, s.now);
    }
    forall g | g in t.flights ensures g <= t.gen && InFlight(t.flights[g], t.now) {
      if g in s.flights {
        assert InFlight(s.flights[g], s.now);
      }
    }
  }

  lemma {:induction false} RunKeepsConsistent(s: State, es: seq<Event>)
    requires Consistent(s) && CanRun(s, es)
    ensures Consistent(After(s, es)) && s.log <= After(s, es).log
    decreases |es|
  {
    if es != [] {
      StepKeepsConsistent(s, es[0]);
      RunKeepsConsistent(Next(s, es[0]), es[1..]);
    }
  }

  /** In every run, whatever is sent or resent is the newest move made so far: no superseded speed goes out. */
  lemma NoSupersededSend(es: seq<Event>, i: nat)
    requires CanRun(START, es) && i < |After(START, es).log|
    ensures After(START, es).log[i].move.number == After(START, es).log[i].newest
  {
    RunKeepsConsistent(START, es);
  }

  // ----- what the user asked for gets sent -----

  /** The moves that a run makes, when so many have been made before. */
  function Asked(es: seq<Event>, before: nat): seq<Move> {
    if es == [] then [] else
      match es[0]
      case QueueSpeed(a, speed, forward) => [Move(before + 1, a, speed, forward)] + Asked(es[1..], before + 1)
      case SendSpeedNow(a, speed, forward) => [Move(before + 1, a, speed, forward)] + Asked(es[1..], before + 1)
      case _ => Asked(es[1..], before)
  }

  predicate IsAsked(made: seq<Move>, m: Move) {
    1 <= m.number <= |made| && made[m.number - 1] == m
  }

  /** Every move that the state or the log speaks of is one that the user made. */
  ghost predicate OnlyAsked(s: State, made: seq<Move>) {
    && s.moves == |made|
    && (s.pending.Some? ==> IsAsked(made, s.pending.value))
    && (s.timer.Some? ==> IsAsked(made, s.timer.value.chain.args))
    && (forall g :: g in s.flights ==> IsAsked(made, s.flights[g].args))
    && (forall i :: 0 <= i < |s.log| ==> IsAsked(made, s.log[i].move))
  }

  ghost predicate InLog(s: State, number: nat) {
    exists i :: 0 <= i < |s.log| && s.log[i].move.number == number
  }

  /** The newest move has been sent, or waits for the debounce. */
  ghost predicate Delivered(s: State) {
    s.moves > 0 ==> InLog(s, s.moves) || (s.debounce && s.pending.Some? && s.pending.value.number == s.moves)
  }

  lemma NewMoveIsAsked(s: State, e: Event, made: seq<Move>)
    requires OnlyAsked(s, made) && (e.QueueSpeed? || e.SendSpeedNow?)
    ensures Asked([e], s.moves) == [Move(s.moves + 1, e.address, e.speed, e.forward)]
    ensures OnlyAsked(Next(s, e), made + [Move(s.moves + 1, e.address, e.speed, e.forward)])
  {
    var m := Move(s.moves + 1, e.address, e.speed, e.forward);
    var t, more := Next(s, e), made + [m];
    assert [e][1..] == [];
    assert IsAsked(more, m);
    forall g | g in t.flights ensures IsAsked(more, t.flights[g].args) {
      assert g in s.flights ==> IsAsked(made, s.flights[g].args);
    }
    forall i | 0 <= i < |t.log| ensures IsAsked(more, t.log[i].move) {
      assert i < |s.log| ==> t.log[i] == s.log[i] && IsAsked(made, s.log[i].move);
    }
  }

  lemma ResolvedIsAsked(s: State, e: Event, made: seq<Move>)
    requires OnlyAsked(s, made) && Enabled(s, e) && e.Resolves?
    ensures OnlyAsked(Next(s, e), made)
  {
    assert Next(s, e).log == s.log && Next(s, e).flights == s.flights - {e.gen};
  }

  lemma OldMovesAreAsked(s: State, e: Event, made: seq<Move>)
    requires OnlyAsked(s, made) && Enabled(s, e) && !e.QueueSpeed? && !e.SendSpeedNow? && !e.Resolves?
    ensures OnlyAsked(Next(s, e), made)
  {
    var t := Next(s, e);
    forall g | g in t.flights ensures IsAsked(made, t.flights[g].args) {
      assert g in s.flights ==> IsAsked(made, s.flights[g].args);
    }
    forall i | 0 <= i < |t.log| ensures IsAsked(made, t.log[i].move) {
      assert i < |s.log| ==> t.log[i] == s.log[i] && IsAsked(made, s.log[i].move);
    }
  }

  lemma StepIsAsked(s: State, e: Event, made: seq<Move>)
    requires OnlyAsked(s, made) && Enabled(s, e)
    ensures OnlyAsked(Next(s, e), made + Asked([e], s.moves))
  {
    if e.QueueSpeed? || e.SendSpeedNow? {
      NewMoveIsAsked(s, e, made);
    } else {
      assert [e][1..] == [] && made + [] == made;
      if e.Resolves? {
        ResolvedIsAsked(s, e, made);
      } else {
        OldMovesAreAsked(s, e, made);
      }
    }
  }

  lemma StepDelivers(s: State, e: Event)
    requires Consistent(s) && Delivered(s) && Enabled(s, e)
    ensures Delivered(Next(s, e))
  {
    var t := Next(s, e);
    if InLog(s, s.moves) && t.moves == s.moves {
      var i :| 0 <= i < |s.log| && s.log[i].move.number == s.moves;
      assert t.log[i] == s.log[i];
    } else if |t.log| > |s.log| {
      assert t.log[|s.log|].move.number == t.moves;
    }
  }

  lemma {:induction false} RunDelivers(s: State, es: seq<Event>)
    requires Consistent(s) && Delivered(s) && CanRun(s, es)
    ensures Delivered(After(s, es))
    decreases |es|
  {
    if es != [] {
      StepKeepsConsistent(s, es[0]);
      StepDelivers(s, es[0]);
      RunDelivers(Next(s, es[0]), es[1..]);
    }
  }

  lemma {:induction false} RunIsAsked(s: State, es: seq<Event>, made: seq<Move>)
    requires OnlyAsked(s, made) && CanRun(s, es)
    ensures OnlyAsked(After(s, es), made + Asked(es, s.moves))
    decreases |es|
  {
    if es == [] {
      assert made + [] == made;
    } else {
      StepIsAsked(s, es[0], made);
      RunIsAsked(Next(s, es[0]), es[1..], made + Asked([es[0]], s.moves));
      AskedInOrder(made, es, s.moves);
    }
  }

  lemma AskedInOrder(made: seq<Move>, es: seq<Event>, before: nat)
    requires es != []
    ensures var first := Asked([es[0]], before);
      made + first + Asked(es[1..], before + |first|) == made + Asked(es, before)
  {
    AskedMore(es, before);
  }

  lemma AskedMore(es: seq<Event>, before: nat)
    requires es != []
    ensures Asked(es, before) == Asked([es[0]], before) + Asked(es[1..], before + |Asked([es[0]], before)|)
  {
    assert [es[0]][1..] == [];
  }

  lemma LastIsNewest(s: State, asked: seq<Move>)
    requires OnlyAsked(s, asked) && Delivered(s) && asked != []
    ensures var newest := asked[|asked| - 1];
      (exists i :: 0 <= i < |s.log| && s.log[i].move == newest) || (s.debounce && s.pending == Some(newest))
  {
    if InLog(s, s.moves) {
      var i :| 0 <= i < |s.log| && s.log[i].move.number == s.moves;
      assert IsAsked(asked, s.log[i].move);
    }
  }

  /**
   * In every run the newest move, just as the user made it, has been sent or waits for the debounce; and nothing is
   * ever sent that the user did not ask for.
   */
  lemma NewestGoesOut(es: seq<Event>)
    requires CanRun(START, es)
    ensures var s, asked := After(START, es), Asked(es, 0);
      && (forall i :: 0 <= i < |s.log| ==> s.log[i].move in asked)
      && (asked != [] ==>
            var newest := asked[|asked| - 1];
            (exists i :: 0 <= i < |s.log| && s.log[i].move == newest) || (s.debounce && s.pending == Some(newest)))
  {
    var s, asked := After(START, es), Asked(es, 0);
    RunDelivers(START, es);
    RunIsAsked(START, es, []);
    assert [] + asked == asked;
    forall i | 0 <= i < |s.log| ensures s.log[i].move in asked {
      assert IsAsked(asked, s.log[i].move);
    }
    if asked != [] {
      LastIsNewest(s, asked);
    }
  }

  /** Whether this event sends something. */
  predicate Sends(s: State, e: Event) {
    e.SendSpeedNow? || e.RetryFires? || ((e.Flush? || e.DebounceFires? || e.Unmount?) && s.pending.Some?)
  }

  /** What a step adds to the log is the newest move. */
  lemma SentStep(s: State, e: Event, made: seq<Move>)
    requires Consistent(s) && OnlyAsked(s, made) && Enabled(s, e)
    ensures var t := Next(s, e);
      if !Sends(s, e) then t.log == s.log
      else
        && |t.log| == |s.log| + 1 && t.log[..|s.log|] == s.log
        && t.log[|s.log|].move.number == t.log[|s.log|].newest == t.moves
        && (e.Unmount? || (t.gen in t.flights && t.flights[t.gen].args == t.log[|s.log|].move && t.pending.None?
                           && t.timer.None?))
  {
  }

  lemma LastSent(s: State, t: State, asked: seq<Move>)
    requires OnlyAsked(t, asked) && |t.log| == |s.log| + 1 && t.log[..|s.log|] == s.log
    requires t.log[|s.log|].move.number == t.log[|s.log|].newest == t.moves
    ensures asked != [] && t.log[|s.log|] == Frame(asked[|asked| - 1], |asked|)
    ensures t.log == s.log + [Frame(asked[|asked| - 1], |asked|)]
  {
    assert IsAsked(asked, t.log[|s.log|].move);
    assert t.log == s.log + [t.log[|s.log|]];
  }

  /**
   * After any run, an event that sends, sends the newest move, once; except at unmount its chain is then in flight
   * under the current generation, with nothing waiting behind it.
   */
  lemma SentIsNewest(es: seq<Event>, e: Event)
    requires CanRun(START, es) && Enabled(After(START, es), e)
    ensures var s, asked := After(START, es), Asked(es + [e], 0);
      var t := Next(s, e);
      if !Sends(s, e) then t.log == s.log
      else
        && asked != []
        && t.log == s.log + [Frame(asked[|asked| - 1], |asked|)]
        && (e.Unmount? || (t.gen in t.flights && t.flights[t.gen].args == asked[|asked| - 1]
                           && t.pending.None? && t.timer.None?))
  {
    var s, t, made := After(START, es), Next(After(START, es), e), Asked(es, 0);
    RunKeepsConsistent(START, es);
    RunIsAsked(START, es, []);
    assert [] + made == made;
    StepIsAsked(s, e, made);
    AskedLater(es, e, 0);
    assert made + Asked([e], s.moves) == Asked(es + [e], 0);
    SentStep(s, e, made);
    if Sends(s, e) {
      LastSent(s, t, Asked(es + [e], 0));
    }
  }

  lemma {:induction false} AskedLater(es: seq<Event>, e: Event, before: nat)
    ensures Asked(es + [e], before) == Asked(es, before) + Asked([e], before + |Asked(es, before)|)
  {
    if es != [] {
      AskedMore(es + [e], before);
      AskedMore(es, before);
      assert (es + [e])[1..] == es[1..] + [e];
      AskedLater(es[1..], e, before + |Asked([es[0]], before)|);
    }
  }

  /**
   * After any run, a failed send of the current generation that its budget lets retry is sent again 200 ms later, and
   * shown as retrying until then; any other answer leaves nothing to come.
   */
  lemma FailedSendIsRetried(es: seq<Event>, res: Result)
    requires CanRun(START, es) && After(START, es).gen in After(START, es).flights
    ensures var s := After(START, es);
      var c := s.flights[s.gen];
      var t := Next(s, Resolves(s.gen, res));
      if (res.AckTimeout? && c.budget.timeoutsLeft > 0) || (res.Offline? && s.now < c.budget.deadline) then
        && t.retrying && Enabled(Next(t, Wait(200)), RetryFires)
        && var u := Next(Next(t, Wait(200)), RetryFires);
           && u.log == s.log + [Frame(c.args, s.moves)] && u.gen == s.gen
           && u.gen in u.flights && u.flights[u.gen].args == c.args && u.flights[u.gen].sends == c.sends + 1
           && u.flights[u.gen].budget.deadline == c.budget.deadline
           && u.flights[u.gen].budget.timeoutsLeft == c.budget.timeoutsLeft - (if res.AckTimeout? then 1 else 0)
      else
        !t.retrying && t.timer.None? && t.gen !in t.flights
  {
    RunKeepsConsistent(START, es);
  }

  // ----- after unmounting -----

  /** The user's hand, or a flush on the user's behalf. */
  predicate ByHand(e: Event) {
    e.QueueSpeed? || e.SendSpeedNow? || e.Flush?
  }

  lemma {:induction false} IdleStaysSilent(s: State, rest: seq<Event>)
    requires !s.debounce && s.timer.None? && s.gen !in s.flights
    requires CanRun(s, rest) && forall e :: e in rest ==> !ByHand(e) && !e.Unmount?
    ensures After(s, rest).log == s.log
    decreases |rest|
  {
    if rest != [] {
      assert rest[0] in rest;
      IdleStaysSilent(Next(s, rest[0]), rest[1..]);
    }
  }

  /**
   * Unmounting sends the waiting move, just once, and disarms both timers: unless a send is in flight, whose retries go
   * on, nothing is sent any more.
   */
  lemma QuietAfterUnmount(es: seq<Event>, rest: seq<Event>)
    requires CanRun(START, es) && Enabled(After(START, es), Unmount)
    requires After(START, es).gen !in After(START, es).flights
    requires CanRun(Next(After(START, es), Unmount), rest) && forall e :: e in rest ==> !ByHand(e) && !e.Unmount?
    ensures var s := After(START, es);
      After(Next(s, Unmount), rest).log
        == s.log + if s.pending.Some? then [Frame(s.pending.value, s.moves)] else []
  {
    RunKeepsConsistent(START, es);
    IdleStaysSilent(Next(After(START, es), Unmount), rest);
  }

  /**
   * In every run each live chain is within its 18 sends, and while mounted `retrying` shows exactly whether the current
   * one is past a failed send.
   */
  lemma LiveChainsBounded(es: seq<Event>)
    requires CanRun(START, es)
    ensures var s := After(START, es);
      && (forall g :: g in s.flights ==> s.flights[g].sends <= MAX_SENDS)
      && (s.timer.Some? ==> s.timer.value.chain.sends < MAX_SENDS)
      && !(s.timer.Some? && s.gen in s.flights)
      && (s.mounted ==> (s.retrying <==> s.timer.Some? || (s.gen in s.flights && s.flights[s.gen].sends > 1)))
  {
    RunKeepsConsistent(START, es);
    var s := After(START, es);
    forall g | g in s.flights ensures s.flights[g].sends <= MAX_SENDS {
      ChainsAreBounded(s.flights[g], s.now);
    }
    if s.timer.Some? {
      ChainsAreBounded(s.timer.value.chain, s.timer.value.due);
    }
  }
}
