/**
 * Commands for one function that overlap: looking at cache and store, staging,
 * sending, recording and rolling back are separate steps of any number of
 * threads.
 */
module FunctionRace {
  import opened Options

  /** Where a thread's command is: found different, staged over the previous cache entry, accepted or refused. */
  datatype Phase =
    | Idle
    | Unmatched(on: bool)
    | Staged(on: bool, previous: Option<bool>)
    | Accepted(on: bool)
    | Refused(previous: Option<bool>)

  datatype State = State(cache: Option<bool>, station: Option<bool>, stored: bool, phase: map<nat, Phase>)

  /** Nothing is known of the function, and the store has it off. */
  const START := State(None, None, false, map[])

  datatype Step =
    | Begin(thread: nat, on: bool)
    | Stage(thread: nat, on: bool)
    | Accept(thread: nat, on: bool) // the station obeys
    | Refuse(thread: nat)
    | Record(thread: nat, on: bool) // the store is told
    | Rollback(thread: nat, previous: Option<bool>)

  function PhaseOf(s: State, t: nat): Phase {
    if t in s.phase then s.phase[t] else Idle
  }

  predicate Skips(s: State, on: bool) {
    s.cache == Some(on) && s.stored == on
  }

  predicate Enabled(s: State, e: Step) {
    match e
    case Begin(t, _) => PhaseOf(s, t).Idle?
    case Stage(t, on) => PhaseOf(s, t) == Unmatched(on)
    case Accept(t, on) => PhaseOf(s, t).Staged? && PhaseOf(s, t).on == on
    case Refuse(t) => PhaseOf(s, t).Staged?
    case Record(t, on) => PhaseOf(s, t) == Accepted(on)
    case Rollback(t, previous) => PhaseOf(s, t) == Refused(previous)
  }

  function Next(s: State, e: Step): State
    requires Enabled(s, e)
  {
    match e
    case Begin(t, on) => if Skips(s, on) then s else s.(phase := s.phase[t := Unmatched(on)])
    case Stage(t, on) => s.(cache := Some(on), phase := s.phase[t := Staged(on, s.cache)])
    case Accept(t, on) => s.(station := Some(on), phase := s.phase[t := Accepted(on)])
    case Refuse(t) => s.(phase := s.phase[t := Refused(PhaseOf(s, t).previous)])
    case Record(t, on) => s.(stored := on, phase := s.phase[t := Idle])
    case Rollback(t, previous) => s.(cache := previous, phase := s.phase[t := Idle])
  }

  predicate CanRun(s: State, run: seq<Step>)
    decreases |run|
  {
    run != [] ==> Enabled(s, run[0]) && CanRun(Next(s, run[0]), run[1..])
  }

  function After(s: State, run: seq<Step>): State
    requires CanRun(s, run)
    decreases |run|
  {
    if run == [] then s else After(Next(s, run[0]), run[1..])
  }

  // ----- commands that do not overlap -----

  /** Commands one after the other: each begins when no other is under way. */
  ghost predicate OneByOne(s: State, run: seq<Step>)
    requires CanRun(s, run)
    decreases |run|
  {
    run != [] ==>
      && (run[0].Begin? ==> forall t :: PhaseOf(s, t).Idle?)
      && OneByOne(Next(s, run[0]), run[1..])
  }

  /** At most one command is under way, and apart from it cache, store and station say the same. */
  ghost predicate Tidy(s: State) {
    && (forall t, u :: !PhaseOf(s, t).Idle? && !PhaseOf(s, u).Idle? ==> t == u)
    && ((forall t :: PhaseOf(s, t).Idle? || PhaseOf(s, t).Unmatched?) ==> Settled(s.cache, s))
    && (forall t :: PhaseOf(s, t).Staged? ==> Settled(PhaseOf(s, t).previous, s))
    && (forall t :: PhaseOf(s, t).Refused? ==> Settled(PhaseOf(s, t).previous, s))
    && (forall t :: PhaseOf(s, t).Staged? ==> s.cache == Some(PhaseOf(s, t).on))
    && (forall t :: PhaseOf(s, t).Accepted? ==> s.cache == s.station == Some(PhaseOf(s, t).on))
  }

  /** A cache entry that is what the station has, and the store with it. */
  predicate Settled(entry: Option<bool>, s: State) {
    entry == s.station && (s.station.Some? ==> s.station == Some(s.stored))
  }

  lemma StepStaysTidy(s: State, e: Step)
    requires Tidy(s) && Enabled(s, e) && (e.Begin? ==> forall t :: PhaseOf(s, t).Idle?)
    ensures Tidy(Next(s, e))
  {
    var n := Next(s, e);
    forall t ensures PhaseOf(n, t) == if t == e.thread then PhaseOf(n, e.thread) else PhaseOf(s, t) {
    }
    if !e.Begin? {
      assert !PhaseOf(s, e.thread).Idle?;
      assert forall t :: t != e.thread ==> PhaseOf(s, t).Idle?;
    }
  }

  /** Commands that do not overlap never lose one. */
  lemma {:induction false} OneByOneNeverLoses(s: State, run: seq<Step>, on: bool)
    requires Tidy(s) && CanRun(s, run) && OneByOne(s, run)
    ensures Tidy(After(s, run))
    ensures (forall t :: PhaseOf(After(s, run), t).Idle?) && Skips(After(s, run), on) ==>
              After(s, run).station == Some(on)
    decreases |run|
  {
    if run != [] {
      StepStaysTidy(s, run[0]);
      OneByOneNeverLoses(Next(s, run[0]), run[1..], on);
    }
  }

  // ----- the last writes of a run -----

  /** What the last stage or rollback put into the cache. */
  function LastCached(run: seq<Step>, before: Option<bool>): Option<bool>
    decreases |run|
  {
    if run == [] then before else
      LastCached(run[1..],
                 if run[0].Stage? then Some(run[0].on)
                 else if run[0].Rollback? then run[0].previous
                 else before)
  }

  /** What the station last accepted. */
  function LastAccepted(run: seq<Step>, before: Option<bool>): Option<bool>
    decreases |run|
  {
    if run == [] then before else LastAccepted(run[1..], if run[0].Accept? then Some(run[0].on) else before)
  }

  /** What was last recorded in the store. */
  function LastRecorded(run: seq<Step>, before: bool): bool
    decreases |run|
  {
    if run == [] then before else LastRecorded(run[1..], if run[0].Record? then run[0].on else before)
  }

  lemma {:induction false} LastWritesDecide(s: State, run: seq<Step>)
    requires CanRun(s, run)
    ensures var t := After(s, run);
      && t.cache == LastCached(run, s.cache)
      && t.station == LastAccepted(run, s.station)
      && t.stored == LastRecorded(run, s.stored)
    decreases |run|
  {
    if run != [] {
      LastWritesDecide(Next(s, run[0]), run[1..]);
    }
  }

  /**
   * After any run, with any number of commands under way, cache and station agree if and only if the last stage or
   * rollback and the last acceptance carry the same value; likewise store and station for the last record.
   */
  lemma AgreeIff(run: seq<Step>)
    requires CanRun(START, run)
    ensures var s := After(START, run);
      && (s.cache == s.station <==> LastCached(run, None) == LastAccepted(run, None))
      && (Some(s.stored) == s.station <==> Some(LastRecorded(run, false)) == LastAccepted(run, None))
  {
    LastWritesDecide(START, run);
  }

  /**
   * The next command for a value is skipped although the station has the other one if and only if the last stage or
   * rollback and the last record carry that value and the last acceptance the other.
   */
  lemma LosesCommandIff(run: seq<Step>, on: bool)
    requires CanRun(START, run)
    ensures var s := After(START, run);
      Skips(s, on) && s.station == Some(!on)
      <==> LastCached(run, None) == Some(on) && LastRecorded(run, false) == on && LastAccepted(run, None) == Some(!on)
  {
    LastWritesDecide(START, run);
  }

  // ----- a run that goes wrong -----

  lemma Extend(s: State, e: Step, run: seq<Step>, end: State)
    requires Enabled(s, e) && CanRun(Next(s, e), run) && After(Next(s, e), run) == end
    ensures CanRun(s, [e] + run) && After(s, [e] + run) == end
  {
    assert ([e] + run)[1..] == run;
  }

  /** The second half of the run below: both commands are sent and recorded, in opposite orders. */
  lemma CrossedRecords(s: State)
    requires s == State(Some(true), None, false, map[0 := Staged(true, Some(false)), 1 := Staged(false, None)])
    ensures var run := [Accept(0, true), Accept(1, false), Record(1, false), Record(0, true)];
      && CanRun(s, run)
      && After(s, run) == State(Some(true), Some(false), true, map[0 := Idle, 1 := Idle])
  {
    var s1 := Next(s, Accept(0, true));
    var s2 := Next(s1, Accept(1, false));
    var s3 := Next(s2, Record(1, false));
    var s4 := Next(s3, Record(0, true));
    Extend(s3, Record(0, true), [], s4);
    Extend(s2, Record(1, false), [Record(0, true)], s4);
    Extend(s1, Accept(1, false), [Record(1, false), Record(0, true)], s4);
    Extend(s, Accept(0, true), [Accept(1, false), Record(1, false), Record(0, true)], s4);
  }

  /**
   * Overlapping ones do: two commands whose stages, sends and records come in different orders leave cache and store
   * saying "on" for a function the station has off, so that the next "on" is skipped.
   */
  lemma OverlapLosesCommand()
    ensures exists run: seq<Step> ::
              && CanRun(START, run)
              && var s := After(START, run);
                 (forall t :: PhaseOf(s, t).Idle?) && s.station == Some(false) && Skips(s, true)
  {
    var end := State(Some(true), Some(false), true, map[0 := Idle, 1 := Idle]);
    var crossed := [Accept(0, true), Accept(1, false), Record(1, false), Record(0, true)];
    var s1 := Next(START, Begin(0, true));
    var s2 := Next(s1, Begin(1, false));
    var s3 := Next(s2, Stage(1, false));
    CrossedRecords(Next(s3, Stage(0, true)));
    Extend(s3, Stage(0, true), crossed, end);
    Extend(s2, Stage(1, false), [Stage(0, true)] + crossed, end);
    Extend(s1, Begin(1, false), [Stage(1, false)] + ([Stage(0, true)] + crossed), end);
    Extend(START, Begin(0, true), [Begin(1, false)] + ([Stage(1, false)] + ([Stage(0, true)] + crossed)), end);
    assert forall t :: PhaseOf(end, t).Idle?;
  }
}
