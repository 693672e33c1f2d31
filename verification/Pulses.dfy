/**
 * Timed function pulses: switch a function on, hold it, switch it off. Each
 * pulse runs in its own goroutine; the marks in pulseActive keep two pulses
 * from working on the same function.
 */
module Pulses {
  import opened FunctionCache

  type Id = nat

  /** Tries counts the calls made so far; the two ...Done phases have only the mark left to clear. */
  datatype Phase = TurningOn(tries: nat) | OnFailed | Holding | TurningOff(tries: nat) | OffDone

  datatype Pulse = Pulse(key: FnKey, attempts: int, phase: Phase)

  /** What an observer of the calls sees. */
  datatype Event =
    | Started(id: Id, key: FnKey)
    | Called(id: Id, key: FnKey, on: bool, ok: bool)
    | Unmarked(id: Id, key: FnKey)

  datatype State = State(active: set<FnKey>, live: map<Id, Pulse>, log: seq<Event>)

  datatype Step =
    | Request(id: Id, key: FnKey, retry: int) // setTimedLocoFunctionWithRetry, by any caller
    | Call(id: Id, ok: bool) // one setLocoFunction of that pulse
    | TimerFires(id: Id)
    | Unmark(id: Id) // markTimedFunctionStopped

  predicate Enabled(s: State, e: Step) {
    match e
    case Request(id, _, _) => id !in s.live
    case Call(id, _) => id in s.live && (s.live[id].phase.TurningOn? || s.live[id].phase.TurningOff?)
    case TimerFires(id) => id in s.live && s.live[id].phase.Holding?
    case Unmark(id) => id in s.live && (s.live[id].phase.OnFailed? || s.live[id].phase.OffDone?)
  }

  /** With no attempts at all the loop returns at once, without an error. */
  function FirstOn(attempts: int): Phase {
    if attempts <= 0 then Holding else TurningOn(0)
  }

  function FirstOff(attempts: int): Phase {
    if attempts <= 0 then OffDone else TurningOff(0)
  }

  function AfterCall(p: Pulse, ok: bool): Phase
    requires p.phase.TurningOn? || p.phase.TurningOff?
  {
    if p.phase.TurningOn? then
      if ok then Holding else if p.phase.tries + 1 >= p.attempts then OnFailed else TurningOn(p.phase.tries + 1)
    else
      if ok || p.phase.tries + 1 >= p.attempts then OffDone else TurningOff(p.phase.tries + 1)
  }

  function Next(s: State, e: Step): State
    requires Enabled(s, e)
  {
    match e
    case Request(id, key, retry) =>
      if key in s.active then s
      else State(s.active + {key}, s.live[id := Pulse(key, retry + 1, FirstOn(retry + 1))], s.log + [Started(id, key)])
    case Call(id, ok) =>
      var p := s.live[id];
      s.(live := s.live[id := p.(phase := AfterCall(p, ok))],
         log := s.log + [Called(id, p.key, p.phase.TurningOn?, ok)])
    case TimerFires(id) =>
      var p := s.live[id];
      s.(live := s.live[id := p.(phase := FirstOff(p.attempts))])
    case Unmark(id) =>
      var p := s.live[id];
      State(s.active - {p.key}, s.live - {id}, s.log + [Unmarked(id, p.key)])
  }

  const START := State({}, map[], [])

  predicate CanRun(s: State, run: seq<Step>)
    decreases |run|
  {
    run != [] ==> Enabled(s, run[0]) && CanRun(Next(s, run[0]), run[1..])
  }

  function After(s: State, run: seq<Step>): State
    requires CanRun(s, run)
    decreases |run|
  {
    if run == [] then s else After(Next(s, run[0]), run[1..])
  }

  // ----- the router's marks and goroutines, one callback at a time -----

  class Pulser {
    var pulseActive: set<FnKey>
    var live: map<Id, Pulse>
    var log: seq<Event>

    function View(): State
      reads this
    {
      State(pulseActive, live, log)
    }

    constructor ()
      ensures View() == START
    {
      pulseActive, live, log := {}, map[], [];
    }

    method MarkTimedFunctionStarted(key: FnKey) returns (isNew: bool)
      modifies this`pulseActive
      ensures isNew <==> key !in old(pulseActive)
      ensures pulseActive == old(pulseActive) + {key}
    {
      isNew := key !in pulseActive;
      pulseActive := pulseActive + {key};
    }

    method MarkTimedFunctionStopped(key: FnKey)
      modifies this`pulseActive
      ensures pulseActive == old(pulseActive) - {key}
    {
      pulseActive := pulseActive - {key};
    }

    /** setTimedLocoFunctionWithRetry, up to the start of its goroutine. */
    method RequestPulse(id: Id, key: FnKey, retry: int)
      requires id !in live
      modifies this
      ensures View() == Next(old(View()), Request(id, key, retry))
    {
      var isNew := MarkTimedFunctionStarted(key);
      if !isNew {
        assert old(pulseActive) + {key} == old(pulseActive);
        return;
      }
      live := live[id := Pulse(key, retry + 1, FirstOn(retry + 1))];
      log := log + [Started(id, key)];
    }

    /** One call of the retry loop returns. */
    method OnReply(id: Id, ok: bool)
      requires Enabled(View(), Call(id, ok))
      modifies this`live, this`log
      ensures View() == Next(old(View()), Call(id, ok))
    {
      var p := live[id];
      log := log + [Called(id, p.key, p.phase.TurningOn?, ok)];
      live := live[id := p.(phase := AfterCall(p, ok))];
    }

    method OnTimer(id: Id)
      requires Enabled(View(), TimerFires(id))
      modifies this`live
      ensures View() == Next(old(View()), TimerFires(id))
    {
      live := live[id := live[id].(phase := FirstOff(live[id].attempts))];
    }

    /** The end of a pulse, after a failed on or after the calls for off. */
    method OnEnd(id: Id)
      requires Enabled(View(), Unmark(id))
      modifies this
      ensures View() == Next(old(View()), Unmark(id))
    {
      var key := live[id].key;
      MarkTimedFunctionStopped(key);
      live := live - {id};
      log := log + [Unmarked(id, key)];
    }
  }

  // ----- one function, watched from outside -----

  /**
   * What the events for one function have come to: no pulse, or a pulse that
   * has (lit) or has not switched it on and has (tried) or has not called for
   * off since. Broken when two pulses mix, when a call comes outside a pulse,
   * or when a mark clears on a function left on without a try to switch it off.
   */
  datatype Watch = Free | Held(id: Id, lit: bool, tried: bool) | Broken

  function Watched(log: seq<Event>, key: FnKey): Watch {
    if log == [] then Free else
      var w := Watched(log[..|log| - 1], key);
      match log[|log| - 1]
      case Started(id, k) => if k != key then w else if w == Free then Held(id, false, false) else Broken
      case Called(id, k, on, ok) =>
        if k != key then w
        else if !w.Held? || w.id != id then Broken
        else if on then Held(id, w.lit || ok, false) else Held(id, w.lit, true)
      case Unmarked(id, k) =>
        if k != key then w
        else if w.Held? && w.id == id && (w.lit ==> w.tried) then Free
        else Broken
  }

  // ----- the invariant -----

  ghost predicate OnePulsePerMark(s: State) {
    && (forall id :: id in s.live ==> s.live[id].key in s.active)
    && (forall i, j :: i in s.live && j in s.live && s.live[i].key == s.live[j].key ==> i == j)
    && (forall k :: k in s.active ==> exists id :: id in s.live && s.live[id].key == k)
  }

  predicate Reflects(p: Pulse, id: Id, w: Watch) {
    w.Held? && w.id == id &&
    match p.phase
    case TurningOn(_) => !w.lit && p.attempts > 0
    case OnFailed => !w.lit
    case Holding => w.lit ==> p.attempts > 0
    case TurningOff(n) => n > 0 ==> w.tried
    case OffDone => w.lit ==> w.tried
  }

  ghost predicate LogReflects(s: State) {
    && (forall id :: id in s.live ==> Reflects(s.live[id], id, Watched(s.log, s.live[id].key)))
    && (forall k :: k !in s.active ==> Watched(s.log, k) == Free)
  }

  ghost predicate Inv(s: State) {
    OnePulsePerMark(s) && LogReflects(s)
  }

  lemma Watch1(log: seq<Event>, e: Event, key: FnKey)
    ensures var w, w1 := Watched(log, key), Watched(log + [e], key);
      match e
      case Started(id, k) => w1 == if k != key then w else if w == Free then Held(id, false, false) else Broken
      case Called(id, k, on, ok) =>
        w1 == (if k != key then w else if !w.Held? || w.id != id then Broken
               else if on then Held(id, w.lit || ok, false) else Held(id, w.lit, true))
      case Unmarked(id, k) =>
        w1 == if k != key then w else if w.Held? && w.id == id && (w.lit ==> w.tried) then Free else Broken
  {
    assert (log + [e])[..|log|] == log;
  }

  /** A step that changes no key and no mark. */
  lemma SameKeys(s: State, t: State)
    requires OnePulsePerMark(s) && t.active == s.active && t.live.Keys == s.live.Keys
    requires forall id :: id in s.live ==> t.live[id].key == s.live[id].key
    ensures OnePulsePerMark(t)
  {
    forall k | k in t.active ensures exists id :: id in t.live && t.live[id].key == k {
      var id :| id in s.live && s.live[id].key == k;
      assert id in t.live && t.live[id].key == k;
    }
  }

  lemma RequestMarks(s: State, e: Step)
    requires Inv(s) && Enabled(s, e) && e.Request? && e.key !in s.active
    ensures OnePulsePerMark(Next(s, e))
  {
    var t := Next(s, e);
    assert t.live[e.id].key == e.key;
    forall k | k in t.active ensures exists id :: id in t.live && t.live[id].key == k {
      if k != e.key {
        var id :| id in s.live && s.live[id].key == k;
        assert id in t.live && t.live[id].key == k;
      }
    }
  }

  lemma RequestKeeps(s: State, e: Step)
    requires Inv(s) && Enabled(s, e) && e.Request?
    ensures Inv(Next(s, e))
  {
    if e.key !in s.active {
      RequestMarks(s, e);
      forall k {
        Watch1(s.log, Started(e.id, e.key), k);
      }
    }
  }

  lemma CallKeeps(s: State, e: Step)
    requires Inv(s) && Enabled(s, e) && e.Call?
    ensures Inv(Next(s, e))
  {
    var t, p := Next(s, e), s.live[e.id];
    SameKeys(s, t);
    forall id | id in t.live ensures Reflects(t.live[id], id, Watched(t.log, t.live[id].key)) {
      assert Reflects(s.live[id], id, Watched(s.log, s.live[id].key));
      CallReflects(s, e, id);
    }
    forall k | k !in t.active ensures Watched(t.log, k) == Free {
      Watch1(s.log, Called(e.id, p.key, p.phase.TurningOn?, e.ok), k);
    }
  }

  lemma CallReflects(s: State, e: Step, id: Id)
    requires Enabled(s, e) && e.Call? && id in s.live && (s.live[id].key == s.live[e.id].key ==> id == e.id)
    requires Reflects(s.live[id], id, Watched(s.log, s.live[id].key))
    ensures var t := Next(s, e); Reflects(t.live[id], id, Watched(t.log, t.live[id].key))
  {
    var p := s.live[e.id];
    Watch1(s.log, Called(e.id, p.key, p.phase.TurningOn?, e.ok), s.live[id].key);
  }

  lemma TimerKeeps(s: State, e: Step)
    requires Inv(s) && Enabled(s, e) && e.TimerFires?
    ensures Inv(Next(s, e))
  {
    var t := Next(s, e);
    SameKeys(s, t);
    forall id | id in t.live ensures Reflects(t.live[id], id, Watched(t.log, t.live[id].key)) {
      assert Reflects(s.live[id], id, Watched(s.log, s.live[id].key));
    }
  }

  lemma UnmarkKeeps(s: State, e: Step)
    requires Inv(s) && Enabled(s, e) && e.Unmark?
    ensures Inv(Next(s, e))
  {
    var t, p := Next(s, e), s.live[e.id];
    forall k | k in t.active ensures exists id :: id in t.live && t.live[id].key == k {
      var id :| id in s.live && s.live[id].key == k;
      assert id in t.live && t.live[id].key == k;
    }
    forall k {
      Watch1(s.log, Unmarked(e.id, p.key), k);
    }
  }

  lemma {:induction false} InvAlways(s: State, run: seq<Step>)
    requires Inv(s) && CanRun(s, run)
    ensures Inv(After(s, run))
    decreases |run|
  {
    if run != [] {
      match run[0] {
        case Request(_, _, _) => RequestKeeps(s, run[0]);
        case Call(_, _) => CallKeeps(s, run[0]);
        case TimerFires(_) => TimerKeeps(s, run[0]);
        case Unmark(_) => UnmarkKeeps(s, run[0]);
      }
      InvAlways(Next(s, run[0]), run[1..]);
    }
  }

  /**
   * In any interleaving a function is marked just when a pulse for it is switching on, holding or switching off, and
   * there are never two.
   */
  lemma MarkedIffPulsing(run: seq<Step>, k: FnKey)
    requires CanRun(START, run)
    ensures var s := After(START, run);
      && (k in s.active <==> exists id :: id in s.live && s.live[id].key == k)
      && (forall i, j :: i in s.live && j in s.live && s.live[i].key == s.live[j].key ==> i == j)
  {
    InvAlways(START, run);
  }

  /**
   * Its calls are never mixed with another pulse's, and no mark clears on a function that was switched on without a
   * call to switch it off.
   */
  lemma PulsesAreOrderly(run: seq<Step>, k: FnKey)
    requires CanRun(START, run)
    ensures !Watched(After(START, run).log, k).Broken?
  {
    InvAlways(START, run);
    var s := After(START, run);
    if k in s.active {
      var id :| id in s.live && s.live[id].key == k;
      assert Reflects(s.live[id], id, Watched(s.log, s.live[id].key));
    }
  }

  // ----- every pulse ends -----

  /** How many steps of its own a pulse can still take. */
  function StepsLeft(p: Pulse): int {
    var n := if p.attempts > 0 then p.attempts else 0;
    match p.phase
    case TurningOn(tries) => 2 * n - tries + 2
    case OnFailed => 1
    case Holding => n + 2
    case TurningOff(tries) => n - tries + 1
    case OffDone => 1
  }

  predicate InTime(p: Pulse) {
    (p.phase.TurningOn? || p.phase.TurningOff?) ==> p.phase.tries < p.attempts
  }

  lemma EachStepCounts(s: State, e: Step, id: Id)
    requires Enabled(s, e) && id in s.live && InTime(s.live[id])
    ensures StepsLeft(s.live[id]) >= 1
    ensures id in Next(s, e).live ==> InTime(Next(s, e).live[id])
    ensures id in Next(s, e).live ==>
              StepsLeft(Next(s, e).live[id]) <= StepsLeft(s.live[id]) - if IsOwn(e, id) then 1 else 0
  {
  }

  predicate IsOwn(e: Step, id: Id) {
    !e.Request? && e.id == id
  }

  function OwnSteps(run: seq<Step>, id: Id): nat
    decreases |run|
  {
    if run == [] then 0 else (if IsOwn(run[0], id) then 1 else 0) + OwnSteps(run[1..], id)
  }

  lemma {:induction false} OwnStepsBounded(s: State, run: seq<Step>, id: Id)
    requires CanRun(s, run) && forall e :: e in run ==> !(e.Request? && e.id == id)
    requires id in s.live ==> InTime(s.live[id])
    ensures OwnSteps(run, id) <= if id in s.live then StepsLeft(s.live[id]) else 0
    decreases |run|
  {
    if run != [] {
      assert run[0] in run;
      if id in s.live {
        EachStepCounts(s, run[0], id);
      }
      OwnStepsBounded(Next(s, run[0]), run[1..], id);
    }
  }

  /** The calls that the log shows for a pulse, for on or for off. */
  function Calls(log: seq<Event>, id: Id, on: bool): nat {
    if log == [] then 0 else
      var e := log[|log| - 1];
      Calls(log[..|log| - 1], id, on) + if e.Called? && e.id == id && e.on == on then 1 else 0
  }

  lemma OneMoreCall(log: seq<Event>, e: Event, id: Id, on: bool)
    ensures Calls(log + [e], id, on) == Calls(log, id, on) + if e.Called? && e.id == id && e.on == on then 1 else 0
  {
    assert (log + [e])[..|log|] == log;
  }

  /** How far a pulse with at most n attempts each way has used them. */
  predicate Spent(p: Pulse, n: nat, ons: int, offs: int) {
    && n == (if p.attempts > 0 then p.attempts else 0) && InTime(p)
    && match p.phase
       case TurningOn(tries) => ons == tries && offs == 0
       case OnFailed => ons <= n && offs == 0
       case Holding => ons <= n && offs == 0
       case TurningOff(tries) => ons <= n && offs == tries
       case OffDone => ons <= n && offs <= n
  }

  /** The calls for on and for off since the log showed the given numbers of them. */
  predicate Within(s: State, id: Id, n: nat, ons: nat, offs: nat) {
    var on, off := Calls(s.log, id, true) - ons, Calls(s.log, id, false) - offs;
    on <= n && off <= n && (id in s.live ==> Spent(s.live[id], n, on, off))
  }

  /** Only a call of the pulse itself counts. */
  lemma NextCalls(s: State, e: Step, id: Id, on: bool)
    requires Enabled(s, e)
    ensures Calls(Next(s, e).log, id, on)
         == Calls(s.log, id, on) + if e.Call? && e.id == id && s.live[id].phase.TurningOn? == on then 1 else 0
  {
    match e
    case Request(_, key, _) => OneMoreCall(s.log, Started(e.id, key), id, on);
    case Call(_, ok) => OneMoreCall(s.log, Called(e.id, s.live[e.id].key, s.live[e.id].phase.TurningOn?, ok), id, on);
    case TimerFires(_) =>
    case Unmark(_) => OneMoreCall(s.log, Unmarked(e.id, s.live[e.id].key), id, on);
  }

  lemma CallSpends(p: Pulse, ok: bool, n: nat, ons: int, offs: int)
    requires Spent(p, n, ons, offs) && (p.phase.TurningOn? || p.phase.TurningOff?)
    ensures var on := p.phase.TurningOn?;
      var ons1, offs1 := ons + (if on then 1 else 0), offs + (if on then 0 else 1);
      Spent(p.(phase := AfterCall(p, ok)), n, ons1, offs1) && ons1 <= n && offs1 <= n
  {
  }

  lemma StepStaysWithin(s: State, e: Step, id: Id, n: nat, ons: nat, offs: nat)
    requires Enabled(s, e) && Within(s, id, n, ons, offs) && !(e.Request? && e.id == id)
    ensures Within(Next(s, e), id, n, ons, offs)
  {
    NextCalls(s, e, id, true);
    NextCalls(s, e, id, false);
    if e.Call? && e.id == id {
      CallSpends(s.live[id], e.ok, n, Calls(s.log, id, true) - ons, Calls(s.log, id, false) - offs);
      assert Next(s, e).live[id] == s.live[id].(phase := AfterCall(s.live[id], e.ok));
    } else if e.TimerFires? && e.id == id {
      assert Next(s, e).live[id] == s.live[id].(phase := FirstOff(s.live[id].attempts));
    } else if id in Next(s, e).live {
      assert Next(s, e).live[id] == s.live[id];
    }
  }

  lemma {:induction false} RunStaysWithin(s: State, run: seq<Step>, id: Id, n: nat, ons: nat, offs: nat)
    requires CanRun(s, run) && forall e :: e in run ==> !(e.Request? && e.id == id)
    requires Within(s, id, n, ons, offs)
    ensures Within(After(s, run), id, n, ons, offs)
    decreases |run|
  {
    if run != [] {
      assert run[0] in run;
      StepStaysWithin(s, run[0], id, n, ons, offs);
      RunStaysWithin(Next(s, run[0]), run[1..], id, n, ons, offs);
    }
  }

  /**
   * However the pulses interleave, one pulse makes at most retry + 1 calls for on, as many for off, and no more than
   * two steps besides.
   */
  lemma PulseIsShort(s: State, key: FnKey, retry: int, run: seq<Step>, id: Id)
    requires id !in s.live && key !in s.active && CanRun(s, [Request(id, key, retry)] + run)
    requires forall e :: e in run ==> !(e.Request? && e.id == id)
    ensures var n := if retry >= 0 then retry + 1 else 0;
      var t := After(s, [Request(id, key, retry)] + run);
      && Calls(t.log, id, true) - Calls(s.log, id, true) <= n
      && Calls(t.log, id, false) - Calls(s.log, id, false) <= n
      && OwnSteps(run, id) <= 2 * n + 2
  {
    var e := Request(id, key, retry);
    assert ([e] + run)[1..] == run;
    OwnStepsBounded(Next(s, e), run, id);
    OneMoreCall(s.log, Started(id, key), id, true);
    OneMoreCall(s.log, Started(id, key), id, false);
    var n := if retry >= 0 then retry + 1 else 0;
    RunStaysWithin(Next(s, e), run, id, n, Calls(s.log, id, true), Calls(s.log, id, false));
  }

  // ----- the course of a pulse -----

  /** How the calls of one pulse turned out, for on or for off, in order. */
  function Results(log: seq<Event>, id: Id, on: bool): seq<bool> {
    if log == [] then [] else
      var e := log[|log| - 1];
      Results(log[..|log| - 1], id, on) + if e.Called? && e.id == id && e.on == on then [e.ok] else []
  }

  /** So many tries and all refused. */
  ghost predicate Refused(results: seq<bool>, tries: nat) {
    |results| == tries && forall i :: 0 <= i < |results| ==> !results[i]
  }

  /** Tried until accepted, within so many tries. */
  ghost predicate Accepted(results: seq<bool>, tries: nat) {
    1 <= |results| <= tries && results[|results| - 1] && Refused(results[..|results| - 1], |results| - 1)
  }

  /** The calls so far, when a pulse with n attempts each way has come to this phase; no attempts count as accepted. */
  ghost predicate OnCourse(phase: Phase, n: nat, ons: seq<bool>, offs: seq<bool>) {
    match phase
    case TurningOn(tries) => tries < n && Refused(ons, tries) && offs == []
    case OnFailed => n > 0 && Refused(ons, n) && offs == []
    case Holding => WentOn(n, ons) && offs == []
    case TurningOff(tries) => tries < n && WentOn(n, ons) && Refused(offs, tries)
    case OffDone => WentOn(n, ons) && (Accepted(offs, n) || Refused(offs, n))
  }

  ghost predicate WentOn(n: nat, ons: seq<bool>) {
    Accepted(ons, n) || (n == 0 && ons == [])
  }

  predicate Attempts(p: Pulse, n: nat) {
    n == if p.attempts > 0 then p.attempts else 0
  }

  lemma OneMoreResult(log: seq<Event>, e: Event, id: Id, on: bool)
    ensures Results(log + [e], id, on)
         == Results(log, id, on) + if e.Called? && e.id == id && e.on == on then [e.ok] else []
  {
    assert (log + [e])[..|log|] == log;
  }

  /** Only a call of the pulse itself adds a result. */
  lemma NextResults(s: State, e: Step, id: Id, on: bool)
    requires Enabled(s, e)
    ensures Results(Next(s, e).log, id, on)
         == Results(s.log, id, on) + if e.Call? && e.id == id && s.live[id].phase.TurningOn? == on then [e.ok] else []
  {
    match e
    case Request(_, key, _) => OneMoreResult(s.log, Started(e.id, key), id, on);
    case Call(_, ok) =>
      OneMoreResult(s.log, Called(e.id, s.live[e.id].key, s.live[e.id].phase.TurningOn?, ok), id, on);
    case TimerFires(_) =>
    case Unmark(_) => OneMoreResult(s.log, Unmarked(e.id, s.live[e.id].key), id, on);
  }

  lemma CallOnCourse(p: Pulse, ok: bool, n: nat, ons: seq<bool>, offs: seq<bool>)
    requires OnCourse(p.phase, n, ons, offs) && Attempts(p, n) && (p.phase.TurningOn? || p.phase.TurningOff?)
    ensures var on := p.phase.TurningOn?;
      OnCourse(AfterCall(p, ok), n, if on then ons + [ok] else ons, if on then offs else offs + [ok])
  {
    assert (ons + [ok])[..|ons|] == ons && (offs + [ok])[..|offs|] == offs;
  }

  /** Where a pulse is, or how it ended: refused n times, or accepted and then switched off or refused n times. */
  ghost predicate Course(s: State, id: Id, n: nat) {
    var ons, offs := Results(s.log, id, true), Results(s.log, id, false);
    if id in s.live then Attempts(s.live[id], n) && OnCourse(s.live[id].phase, n, ons, offs)
    else OnCourse(OnFailed, n, ons, offs) || OnCourse(OffDone, n, ons, offs)
  }

  lemma StepStaysOnCourse(s: State, e: Step, id: Id, n: nat)
    requires Enabled(s, e) && Course(s, id, n) && !(e.Request? && e.id == id)
    ensures Course(Next(s, e), id, n)
  {
    NextResults(s, e, id, true);
    NextResults(s, e, id, false);
    if e.id == id && !e.Request? {
      OwnStepOnCourse(s, e, n, Results(s.log, id, true), Results(s.log, id, false));
    } else {
      OtherStep(s, e, id);
    }
  }

  lemma OtherStep(s: State, e: Step, id: Id)
    requires Enabled(s, e) && e.id != id
    ensures id in Next(s, e).live <==> id in s.live
    ensures id in s.live ==> Next(s, e).live[id] == s.live[id]
  {
  }

  lemma OwnStepOnCourse(s: State, e: Step, n: nat, ons: seq<bool>, offs: seq<bool>)
    requires Enabled(s, e) && !e.Request? && Attempts(s.live[e.id], n) && OnCourse(s.live[e.id].phase, n, ons, offs)
    ensures var t, on := Next(s, e), s.live[e.id].phase.TurningOn?;
      var ons1 := if e.Call? && on then ons + [e.ok] else ons;
      var offs1 := if e.Call? && !on then offs + [e.ok] else offs;
      if e.Unmark? then e.id !in t.live && (OnCourse(OnFailed, n, ons, offs) || OnCourse(OffDone, n, ons, offs))
      else e.id in t.live && Attempts(t.live[e.id], n) && OnCourse(t.live[e.id].phase, n, ons1, offs1)
  {
    if e.Call? {
      CallOnCourse(s.live[e.id], e.ok, n, ons, offs);
    }
  }

  lemma {:induction false} RunStaysOnCourse(s: State, run: seq<Step>, id: Id, n: nat)
    requires CanRun(s, run) && forall e :: e in run ==> !(e.Request? && e.id == id)
    requires Course(s, id, n)
    ensures Course(After(s, run), id, n)
    decreases |run|
  {
    if run != [] {
      assert run[0] in run;
      StepStaysOnCourse(s, run[0], id, n);
      RunStaysOnCourse(Next(s, run[0]), run[1..], id, n);
    }
  }

  /**
   * However the pulses interleave, each runs its course: on is tried until it is accepted, at most retry + 1 times, and
   * only then off, again until it is accepted and at most so often. At the end on was refused every time, or it was
   * accepted and off was accepted or refused every time.
   */
  lemma PulseRunsItsCourse(s: State, key: FnKey, retry: int, run: seq<Step>, id: Id)
    requires id !in s.live && key !in s.active && CanRun(s, [Request(id, key, retry)] + run)
    requires Results(s.log, id, true) == [] && Results(s.log, id, false) == []
    requires forall e :: e in run ==> !(e.Request? && e.id == id)
    ensures Course(After(s, [Request(id, key, retry)] + run), id, if retry >= 0 then retry + 1 else 0)
  {
    var e, n := Request(id, key, retry), if retry >= 0 then retry + 1 else 0;
    assert ([e] + run)[1..] == run;
    NextResults(s, e, id, true);
    NextResults(s, e, id, false);
    assert Course(Next(s, e), id, n);
    RunStaysOnCourse(Next(s, e), run, id, n);
  }
}
