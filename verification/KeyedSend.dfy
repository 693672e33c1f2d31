/** The keyed retry sender: one retry chain per key, side by side. */
module KeyedSend {
  import opened Options
  import opened RetryChain

  type Key = string

  datatype Timer = Timer(gen: nat, chain: Chain<nat>, due: int)

  datatype State = State(
    now: int,
    gens: map<Key, nat>,
    timers: map<Key, Timer>,
    retryKeys: set<Key>,
    flights: map<(Key, nat), Chain<nat>>, // unresolved promises, by key and generation
    retrying: bool,
    mounted: bool,
    log: seq<(Key, nat)>) // the calls of the underlying send: key and request

  const START := State(0, map[], map[], {}, map[], false, true, [])

  datatype Event =
    | Wait(d: nat)
    | Dispatch(key: Key, request: nat)
    | Resolves(key: Key, gen: nat, res: Result)
    | RetryFires(key: Key)
    | Unmount

  predicate Enabled(s: State, e: Event) {
    match e
    case Resolves(key, gen, _) => (key, gen) in s.flights
    case RetryFires(key) => key in s.timers && s.timers[key].due <= s.now
    case Unmount => s.mounted
    case _ => true
  }

  function Gen(s: State, key: Key): nat {
    if key in s.gens then s.gens[key] else 0
  }

  function SetRetrying(s: State, key: Key, on: bool): State {
    var keys := if on then s.retryKeys + {key} else s.retryKeys - {key};
    s.(retryKeys := keys, retrying := keys != {})
  }

  function Next(s: State, e: Event): State
    requires Enabled(s, e)
  {
    match e
    case Wait(d) => s.(now := s.now + d)
    case Dispatch(key, request) =>
      var gen := Gen(s, key) + 1;
      SetRetrying(s, key, false).(
        gens := s.gens[key := gen], timers := s.timers - {key},
        flights := s.flights[(key, gen) := Start(request, s.now)], log := s.log + [(key, request)])
    case Resolves(key, gen, res) =>
      var c := s.flights[(key, gen)];
      var s1 := s.(flights := s.flights - {(key, gen)});
      if gen != Gen(s, key) then s1 else
        var b := Retry(res, c.budget, s.now);
        if b.None? then SetRetrying(s1, key, false)
        else SetRetrying(s1, key, true).(timers := s.timers[key := Timer(gen, c.(budget := b.value), s.now + BACKOFF)])
    case RetryFires(key) =>
      var t := s.timers[key];
      var s1 := s.(timers := s.timers - {key});
      if t.gen != Gen(s, key) then s1
      else
        s1.(flights := s.flights[(key, t.gen) := t.chain.(sends := t.chain.sends + 1)],
            log := s.log + [(key, t.chain.args)])
    case Unmount => s.(mounted := false, timers := map[], retryKeys := {})
  }

  class KeyedSender {
    var now: int
    var genRef: map<Key, nat>
    var timersRef: map<Key, Timer>
    var retryKeysRef: set<Key>
    var flights: map<(Key, nat), Chain<nat>>
    var retrying: bool
    var mounted: bool
    var log: seq<(Key, nat)>

    function View(): State
      reads this
    {
      State(now, genRef, timersRef, retryKeysRef, flights, retrying, mounted, log)
    }

    constructor ()
      ensures View() == START
    {
      now, genRef, timersRef, retryKeysRef, flights := 0, map[], map[], {}, map[];
      retrying, mounted, log := false, true, [];
    }

    method SetKeyRetrying(key: Key, active: bool)
      modifies this`retryKeysRef, this`retrying
      ensures View() == SetRetrying(old(View()), key, active)
    {
      if active {
        retryKeysRef := retryKeysRef + {key};
      } else {
        retryKeysRef := retryKeysRef - {key};
      }
      retrying := retryKeysRef != {};
    }

    method Send(key: Key, request: nat)
      modifies this
      ensures View() == Next(old(View()), Dispatch(key, request))
    {
      var gen := (if key in genRef then genRef[key] else 0) + 1;
      genRef := genRef[key := gen];
      timersRef := timersRef - {key};
      SetKeyRetrying(key, false);
      flights := flights[(key, gen) := Start(request, now)];
      log := log + [(key, request)];
    }

    method OnResult(key: Key, gen: nat, res: Result)
      requires (key, gen) in flights
      modifies this
      ensures View() == Next(old(View()), Resolves(key, gen, res))
    {
      var c := flights[(key, gen)];
      flights := flights - {(key, gen)};
      if gen != if key in genRef then genRef[key] else 0 {
        return;
      }
      var b := Retry(res, c.budget, now);
      if b.None? {
        SetKeyRetrying(key, false);
        return;
      }
      SetKeyRetrying(key, true);
      timersRef := timersRef[key := Timer(gen, c.(budget := b.value), now + BACKOFF)];
    }

    method OnRetryTimer(key: Key)
      requires Enabled(View(), RetryFires(key))
      modifies this
      ensures View() == Next(old(View()), RetryFires(key))
    {
      var t := timersRef[key];
      timersRef := timersRef - {key};
      if t.gen != if key in genRef then genRef[key] else 0 {
        return;
      }
      flights := flights[(key, t.gen) := t.chain.(sends := t.chain.sends + 1)];
      log := log + [(key, t.chain.args)];
    }

    method OnUnmount()
      requires mounted
      modifies this
      ensures View() == Next(old(View()), Unmount)
    {
      timersRef := map[];
      retryKeysRef := {};
      mounted := false;
    }
  }

  // ----- keys do not interfere -----

  /** Everything that one key's chain consists of. */
  datatype Lane = Lane(gen: nat, timer: Option<Timer>, flight: Option<Chain<nat>>, inRetry: bool)

  function LaneOf(s: State, key: Key): Lane {
    Lane(
      Gen(s, key),
      if key in s.timers then Some(s.timers[key]) else None,
      if (key, Gen(s, key)) in s.flights then Some(s.flights[(key, Gen(s, key))]) else None,
      key in s.retryKeys)
  }

  predicate IsOn(e: Event, key: Key) {
    (e.Dispatch? || e.Resolves? || e.RetryFires?) && e.key == key
  }

  lemma StepLeavesLane(s: State, e: Event, other: Key)
    requires Enabled(s, e) && !e.Unmount? && !IsOn(e, other)
    ensures LaneOf(Next(s, e), other) == LaneOf(s, other)
  {
    match e
    case Resolves(key, gen, res) => ResolveLeavesLane(s, key, gen, res, other);
    case _ =>
  }

  lemma ResolveLeavesLane(s: State, key: Key, gen: nat, res: Result, other: Key)
    requires (key, gen) in s.flights && key != other
    ensures LaneOf(Next(s, Resolves(key, gen, res)), other) == LaneOf(s, other)
  {
  }

  predicate CanRun(s: State, es: seq<Event>)
    decreases |es|
  {
    es != [] ==> Enabled(s, es[0]) && CanRun(Next(s, es[0]), es[1..])
  }

  function After(s: State, es: seq<Event>): State
    requires CanRun(s, es)
    decreases |es|
  {
    if es == [] then s else After(Next(s, es[0]), es[1..])
  }

  /** Over any run, the steps on other keys leave a key's chain as it is: only its own steps and unmounting touch it. */
  lemma {:induction false} KeysDoNotInterfere(s: State, es: seq<Event>, key: Key)
    requires CanRun(s, es) && forall e :: e in es ==> !e.Unmount? && !IsOn(e, key)
    ensures LaneOf(After(s, es), key) == LaneOf(s, key)
    decreases |es|
  {
    if es != [] {
      assert es[0] in es;
      StepLeavesLane(s, es[0], key);
      KeysDoNotInterfere(Next(s, es[0]), es[1..], key);
    }
  }

  /** The chain of a key is in flight or waiting, never both, and belongs to the key's current generation. */
  predicate LaneSound(s: State, key: Key) {
    var l := LaneOf(s, key);
    && (l.timer.Some? ==>
          && l.timer.value.gen == l.gen && l.flight.None?
          && Waiting(l.timer.value.chain, l.timer.value.due))
    && (l.flight.Some? ==> InFlight(l.flight.value, s.now))
    && (s.mounted ==> (l.inRetry <==> l.timer.Some? || (l.flight.Some? && l.flight.value.sends > 1)))
  }

  ghost predicate Consistent(s: State) {
    && (forall k :: LaneSound(s, k))
    && (forall f :: f in s.flights ==> f.1 <= Gen(s, f.0))
    && (s.mounted ==> (s.retrying <==> s.retryKeys != {}))
  }

  lemma DispatchLane(s: State, e: Event)
    requires e.Dispatch?
    ensures LaneSound(Next(s, e), e.key)
  {
  }

  lemma ResolvesLane(s: State, e: Event)
    requires e.Resolves? && Enabled(s, e) && LaneSound(s, e.key)
    ensures LaneSound(Next(s, e), e.key)
  {
    if e.gen == Gen(s, e.key) {
      RetryKeepsSound(s.flights[(e.key, e.gen)], e.res, s.now, s.now);
    }
  }

  lemma FiresLane(s: State, e: Event)
    requires e.RetryFires? && Enabled(s, e) && LaneSound(s, e.key)
    ensures LaneSound(Next(s, e), e.key)
  {
  }

  lemma StepKeepsLane(s: State, e: Event, k: Key)
    requires Enabled(s, e) && LaneSound(s, k)
    ensures LaneSound(Next(s, e), k)
  {
    if (e.Dispatch? || e.Resolves? || e.RetryFires?) && k != e.key {
      StepLeavesLane(s, e, k);
    } else {
      match e
      case Dispatch(_, _) => DispatchLane(s, e);
      case Resolves(_, _, _) => ResolvesLane(s, e);
      case RetryFires(_) => FiresLane(s, e);
      case _ =>
    }
  }

  lemma StepKeepsConsistent(s: State, e: Event)
    requires Consistent(s) && Enabled(s, e)
    ensures Consistent(Next(s, e))
  {
    forall k ensures LaneSound(Next(s, e), k) {
      StepKeepsLane(s, e, k);
    }
  }

  lemma {:induction false} RunKeepsConsistent(s: State, es: seq<Event>)
    requires Consistent(s) && CanRun(s, es)
    ensures Consistent(After(s, es))
    decreases |es|
  {
    if es != [] {
      StepKeepsConsistent(s, es[0]);
      RunKeepsConsistent(Next(s, es[0]), es[1..]);
    }
  }

  /**
   * In every run, while mounted: `retrying` shows exactly whether some key is in retry, and a key is in retry exactly
   * while its current chain is past a failed send and not settled. Every chain stays within its 18 sends.
   */
  lemma RetryingShowsSomeKey(es: seq<Event>, key: Key)
    requires CanRun(START, es) && After(START, es).mounted
    ensures var s := After(START, es);
      var l := LaneOf(s, key);
      && (s.retrying <==> exists k :: LaneOf(s, k).inRetry)
      && (l.inRetry <==> l.timer.Some? || (l.flight.Some? && l.flight.value.sends > 1))
      && (l.timer.Some? ==> l.flight.None? && l.timer.value.chain.sends < MAX_SENDS)
      && (l.flight.Some? ==> l.flight.value.sends <= MAX_SENDS)
  {
    assert Consistent(START);
    RunKeepsConsistent(START, es);
    var s := After(START, es);
    assert LaneSound(s, key);
    var l := LaneOf(s, key);
    if l.timer.Some? {
      ChainsAreBounded(l.timer.value.chain, l.timer.value.due);
    }
    if l.flight.Some? {
      ChainsAreBounded(l.flight.value, s.now);
    }
    if s.retryKeys != {} {
      var k :| k in s.retryKeys;
      assert LaneOf(s, k).inRetry;
    }
  }

  // ----- what is sent -----

  /** The last request that a run makes for a key, if any. */
  function Latest(es: seq<Event>, key: Key): Option<nat> {
    if es == [] then None
    else if es[|es| - 1].Dispatch? && es[|es| - 1].key == key then Some(es[|es| - 1].request)
    else Latest(es[..|es| - 1], key)
  }

  /** The current chain of the key, in flight or waiting, is for this request. */
  predicate ChainIs(s: State, key: Key, request: Option<nat>) {
    var l := LaneOf(s, key);
    && (l.flight.Some? ==> request == Some(l.flight.value.args))
    && (l.timer.Some? ==> request == Some(l.timer.value.chain.args))
  }

  lemma {:induction false} AfterLast(s: State, es: seq<Event>, e: Event)
    requires CanRun(s, es + [e])
    ensures CanRun(s, es) && Enabled(After(s, es), e) && After(s, es + [e]) == Next(After(s, es), e)
    decreases |es|
  {
    if es == [] {
      assert CanRun(Next(s, e), [e][1..]) && After(s, [e]) == Next(s, e);
      assert [] + [e] == [e];
    } else {
      assert (es + [e])[1..] == es[1..] + [e];
      AfterLast(Next(s, es[0]), es[1..], e);
    }
  }

  lemma ChainStep(s: State, e: Event, key: Key, request: Option<nat>)
    requires LaneSound(s, key) && Enabled(s, e) && ChainIs(s, key, request)
    ensures ChainIs(Next(s, e), key, if e.Dispatch? && e.key == key then Some(e.request) else request)
  {
    if !e.Unmount? && !IsOn(e, key) {
      StepLeavesLane(s, e, key);
    }
  }

  lemma {:induction false} ChainIsLatest(es: seq<Event>, key: Key)
    requires CanRun(START, es)
    ensures Consistent(After(START, es)) && ChainIs(After(START, es), key, Latest(es, key))
  {
    if es == [] {
      assert Consistent(START);
    } else {
      var before, e := es[..|es| - 1], es[|es| - 1];
      assert es == before + [e];
      AfterLast(START, before, e);
      ChainIsLatest(before, key);
      assert LaneSound(After(START, before), key);
      ChainStep(After(START, before), e, key, Latest(before, key));
      StepKeepsConsistent(After(START, before), e);
    }
  }

  /**
   * After any run, a dispatch or a retry sends the latest request of its key, once, and nothing else sends anything;
   * the key's chain is then in flight with this request.
   */
  lemma SentIsLatest(es: seq<Event>, e: Event)
    requires CanRun(START, es) && Enabled(After(START, es), e)
    ensures var s := After(START, es);
      var t := Next(s, e);
      if e.Dispatch? || e.RetryFires? then
        var request, l := Latest(es + [e], e.key), LaneOf(t, e.key);
        && request.Some? && t.log == s.log + [(e.key, request.value)]
        && l.flight.Some? && l.flight.value.args == request.value && l.timer.None?
      else t.log == s.log
  {
    if e.Dispatch? || e.RetryFires? {
      ChainIsLatest(es, e.key);
      assert LaneSound(After(START, es), e.key);
      assert (es + [e])[..|es|] == es;
    }
  }

  /**
   * After any run, a failed send of a key's current chain that its budget lets retry is sent again 200 ms later, and
   * shown as retrying until then; any other answer leaves nothing to come for the key.
   */
  lemma FailedSendIsRetried(es: seq<Event>, key: Key, res: Result)
    requires CanRun(START, es) && LaneOf(After(START, es), key).flight.Some?
    ensures var s := After(START, es);
      var c, gen := LaneOf(s, key).flight.value, Gen(s, key);
      var t := Next(s, Resolves(key, gen, res));
      if (res.AckTimeout? && c.budget.timeoutsLeft > 0) || (res.Offline? && s.now < c.budget.deadline) then
        && key in t.retryKeys && Enabled(Next(t, Wait(200)), RetryFires(key))
        && var u := Next(Next(t, Wait(200)), RetryFires(key));
           && u.log == s.log + [(key, c.args)] && Gen(u, key) == gen
           && LaneOf(u, key).flight == Some(c.(
                sends := c.sends + 1,
                budget := c.budget.(timeoutsLeft := c.budget.timeoutsLeft - if res.AckTimeout? then 1 else 0)))
      else
        key !in t.retryKeys && LaneOf(t, key).timer.None? && LaneOf(t, key).flight.None?
  {
    ChainIsLatest(es, key);
    assert LaneSound(After(START, es), key);
  }

  // ----- after unmounting -----

  /** No current chain is in flight or waiting. */
  ghost predicate Idle(s: State) {
    s.timers == map[] && forall f :: f in s.flights ==> f.1 != Gen(s, f.0)
  }

  lemma {:induction false} IdleStaysSilent(s: State, rest: seq<Event>)
    requires Idle(s) && CanRun(s, rest) && forall e :: e in rest ==> !e.Dispatch?
    ensures After(s, rest).log == s.log
    decreases |rest|
  {
    if rest != [] {
      assert rest[0] in rest;
      IdleStaysSilent(Next(s, rest[0]), rest[1..]);
    }
  }

  /** Unmounting disarms all timers: unless a send is in flight, whose retries go on, nothing is sent any more. */
  lemma QuietAfterUnmount(s: State, rest: seq<Event>)
    requires s.mounted && forall f :: f in s.flights ==> f.1 != Gen(s, f.0)
    requires CanRun(Next(s, Unmount), rest) && forall e :: e in rest ==> !e.Dispatch?
    ensures After(Next(s, Unmount), rest).log == s.log
  {
    IdleStaysSilent(Next(s, Unmount), rest);
  }
}
