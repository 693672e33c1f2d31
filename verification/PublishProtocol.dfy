/**
 * Snapshot publishing as the coordinator's goroutines interleave it: changing
 * the registry, setting the dirty flag, building a snapshot under the lock and
 * storing it afterwards are separate steps of any number of threads.
 */
module PublishProtocol {
  import opened Options
  import opened Coordinator

  type View = map<Key, Presence>
  type Thread = nat

  /** Snapshots are numbered as they are built; outbox holds those not yet stored. */
  datatype State = State(
    reg: View, dirty: bool, builds: nat, built: View, owing: set<Thread>, outbox: map<nat, View>,
        stored: nat, storedView: View)

  const START := State(map[], false, 0, map[], {}, map[], 0, map[])

  datatype Step =
    | Change(thread: Thread, reg: View) // drop, brake, sync or activity: the registry moves first
    | Mark(thread: Thread) // markDirty
    | Build // PublishSnapshot, or PublishSnapshotThrottled when its time has come
    | BuildIfDirty // the end of a sweep
    | Store(number: nat) // the publisher writes a built snapshot
    | Elsewhere(reg: View) // a change outside the coordinator, which no one marks

  predicate Enabled(s: State, e: Step) {
    match e
    case Change(t, _) => t !in s.owing
    case Mark(t) => t in s.owing
    case Store(n) => n in s.outbox
    case _ => true
  }

  function Built(s: State): State {
    s.(built := s.reg, dirty := false, builds := s.builds + 1, outbox := s.outbox[s.builds + 1 := s.reg])
  }

  function Next(s: State, e: Step): State
    requires Enabled(s, e)
  {
    match e
    case Change(t, reg) => s.(reg := reg, owing := s.owing + {t})
    case Mark(t) => s.(dirty := true, owing := s.owing - {t})
    case Build => Built(s)
    case BuildIfDirty => if s.dirty then Built(s) else s
    case Store(n) => s.(stored := n, storedView := s.outbox[n], outbox := s.outbox - {n})
    case Elsewhere(reg) => s.(reg := reg)
  }

  predicate CanRun(s: State, run: seq<Step>)
    decreases |run|
  {
    run != [] ==> Enabled(s, run[0]) && CanRun(Next(s, run[0]), run[1..])
  }

  function After(s: State, run: seq<Step>): State
    requires CanRun(s, run)
    decreases |run|
  {
    if run == [] then s else After(Next(s, run[0]), run[1..])
  }

  /** A change missing from the last built snapshot is flagged, or its thread has still to flag it. */
  predicate Accounted(s: State) {
    s.built != s.reg ==> s.dirty || s.owing != {}
  }

  /** In any interleaving of the coordinator's own threads no change is forgotten. */
  lemma {:induction false} NoLostPublish(s: State, run: seq<Step>)
    requires Accounted(s) && CanRun(s, run)
    requires forall e :: e in run ==> !e.Elsewhere?
    ensures Accounted(After(s, run))
    decreases |run|
  {
    if run != [] {
      assert run[0] in run;
      NoLostPublish(Next(s, run[0]), run[1..]);
    }
  }

  /**
   * So a sweep that ends while no thread is between its change and its mark leaves the snapshot equal to the registry.
   */
  lemma SweepCatchesUp(run: seq<Step>)
    requires CanRun(START, run)
    requires forall e :: e in run ==> !e.Elsewhere?
    requires After(START, run).owing == {}
    ensures Next(After(START, run), BuildIfDirty).built == After(START, run).reg
  {
    NoLostPublish(START, run);
  }

  /** A publish that does not ask for the flag, or a sweep whose flag was up at first or has been put up since. */
  ghost predicate Picks(run: seq<Step>, dirty: bool) {
    exists i :: 0 <= i < |run|
                && (run[i].Build? || (run[i].BuildIfDirty? && (dirty || exists j :: 0 <= j < i && run[j].Mark?)))
  }

  lemma PicksFirst(run: seq<Step>, dirty: bool)
    requires run != []
    ensures Picks(run, dirty)
       <==> run[0].Build? || (run[0].BuildIfDirty? && dirty) || Picks(run[1..], dirty || run[0].Mark?)
  {
    var rest, flagged := run[1..], dirty || run[0].Mark?;
    if Picks(rest, flagged) {
      var i :| 0 <= i < |rest|
               && (rest[i].Build? || (rest[i].BuildIfDirty? && (flagged || exists j :: 0 <= j < i && rest[j].Mark?)));
      assert run[i + 1] == rest[i];
      if !flagged && rest[i].BuildIfDirty? {
        var j :| 0 <= j < i && rest[j].Mark?;
        assert run[j + 1].Mark?;
      }
    }
    if Picks(run, dirty) && !run[0].Build? && !(run[0].BuildIfDirty? && dirty) {
      var i :| 0 <= i < |run|
               && (run[i].Build? || (run[i].BuildIfDirty? && (dirty || exists j :: 0 <= j < i && run[j].Mark?)));
      assert i > 0 && rest[i - 1] == run[i];
      if !flagged && run[i].BuildIfDirty? {
        var j :| 0 <= j < i && run[j].Mark?;
        assert rest[j - 1].Mark?;
      }
    }
  }

  /** What a view says of one client, if anything. */
  function Shown(v: View, key: Key): Option<Presence> {
    if key in v then Some(v[key]) else None
  }

  /**
   * A registry change to one client that the last snapshot does not show, be it flagged or not. In every run that does
   * not change this client again, whatever else it changes or flags, the change gets into a snapshot if and only if
   * some step of the run picks it up; until then every snapshot keeps the old state.
   */
  lemma UnflaggedStaysOutIff(s: State, run: seq<Step>, key: Key)
    requires CanRun(s, run) && Shown(s.built, key) != Shown(s.reg, key)
    requires forall e :: e in run && (e.Change? || e.Elsewhere?) ==> Shown(e.reg, key) == Shown(s.reg, key)
    ensures Shown(After(s, run).built, key) == Shown(s.reg, key) <==> Picks(run, s.dirty)
    ensures Shown(After(s, run).built, key) == Shown(s.built, key) <==> !Picks(run, s.dirty)
  {
    ShownAfter(s, run, key);
  }

  lemma {:induction false} ShownAfter(s: State, run: seq<Step>, key: Key)
    requires CanRun(s, run)
    requires forall e :: e in run && (e.Change? || e.Elsewhere?) ==> Shown(e.reg, key) == Shown(s.reg, key)
    ensures Shown(After(s, run).built, key) == if Picks(run, s.dirty) then Shown(s.reg, key) else Shown(s.built, key)
    decreases |run|
  {
    if run != [] {
      assert run[0] in run;
      PicksFirst(run, s.dirty);
      ShownAfter(Next(s, run[0]), run[1..], key);
    }
  }

  /** Over every run from any state, a snapshot is built just when some step picks up the registry. */
  lemma {:induction false} BuildsIff(s: State, run: seq<Step>)
    requires CanRun(s, run)
    ensures After(s, run).builds >= s.builds
    ensures After(s, run).builds > s.builds <==> Picks(run, s.dirty)
    ensures !Picks(run, s.dirty) ==> After(s, run).built == s.built
    decreases |run|
  {
    if run != [] {
      PicksFirst(run, s.dirty);
      BuildsIff(Next(s, run[0]), run[1..]);
    }
  }

  // ----- what Redis ends up with -----

  /** The number of the snapshot stored last, or the one that was there before. */
  function LastStored(run: seq<Step>, before: nat): nat
    decreases |run|
  {
    if run == [] then before else LastStored(run[1..], if run[0].Store? then run[0].number else before)
  }

  /** Every snapshot built is stored or waits, and carries what was built under its number. */
  ghost predicate Numbered(s: State) {
    && (forall n :: n in s.outbox ==> 0 < n <= s.builds)
    && s.stored <= s.builds && s.stored !in s.outbox
    && (s.builds in s.outbox ==> s.outbox[s.builds] == s.built)
    && (s.stored == s.builds ==> s.storedView == s.built)
  }

  lemma NumberedStep(s: State, e: Step)
    requires Numbered(s) && Enabled(s, e)
    ensures Numbered(Next(s, e))
  {
  }

  lemma {:induction false} NumberedAlways(s: State, run: seq<Step>)
    requires Numbered(s) && CanRun(s, run)
    ensures Numbered(After(s, run)) && After(s, run).stored == LastStored(run, s.stored)
    decreases |run|
  {
    if run != [] {
      NumberedStep(s, run[0]);
      NumberedAlways(Next(s, run[0]), run[1..]);
    }
  }

  /** Each store takes the oldest snapshot that waits. */
  ghost predicate InOrder(s: State, run: seq<Step>)
    requires CanRun(s, run)
    decreases |run|
  {
    run != [] ==>
      && (run[0].Store? ==> forall n :: n in s.outbox ==> run[0].number <= n)
      && InOrder(Next(s, run[0]), run[1..])
  }

  /** Everything waiting is newer than what is stored, and the newest is one or the other. */
  ghost predicate Behind(s: State) {
    (forall n :: n in s.outbox ==> s.stored < n) && (s.builds in s.outbox || s.stored == s.builds)
  }

  lemma {:induction false} InOrderStaysBehind(s: State, run: seq<Step>)
    requires Numbered(s) && Behind(s) && CanRun(s, run) && InOrder(s, run)
    ensures Behind(After(s, run)) && Numbered(After(s, run))
    decreases |run|
  {
    if run != [] {
      InOrderStaysBehind(Next(s, run[0]), run[1..]);
    }
  }

  /** If snapshots were stored in the order they were built, Redis would hold the last one once nothing waits. */
  lemma OrderedStoresKeepLast(run: seq<Step>)
    requires CanRun(START, run) && InOrder(START, run) && After(START, run).outbox == map[]
    ensures LastStored(run, 0) == After(START, run).builds && After(START, run).storedView == After(START, run).built
  {
    InOrderStaysBehind(START, run);
    NumberedAlways(START, run);
    assert After(START, run).builds !in After(START, run).outbox;
  }

  /**
   * In general Redis holds the newest snapshot if and only if the last store was of the newest one built: the
   * stores before it may come in any order, but none after it.
   */
  lemma NewestStaysIff(run: seq<Step>)
    requires CanRun(START, run)
    ensures var s := After(START, run);
      && (s.stored == s.builds <==> LastStored(run, 0) == s.builds)
      && (LastStored(run, 0) == s.builds ==> s.storedView == s.built)
      && (LastStored(run, 0) != s.builds ==> s.stored < s.builds)
  {
    NumberedAlways(START, run);
  }

  /**
   * The code does not order the stores, since it stores after releasing the lock: an older snapshot can be the one that
   * stays, with nothing left to correct it.
   */
  lemma LateStoreWins(view: View)
    requires view != map[]
    ensures exists run: seq<Step> ::
              && CanRun(START, run) && (forall e :: e in run ==> !e.Elsewhere?)
              && var t := After(START, run);
                 && !t.dirty && t.owing == {} && t.outbox == map[]
                 && t.built == t.reg == view && t.storedView != view
  {
    var run := [Build, Change(0, view), Mark(0), BuildIfDirty, Store(2), Store(1)];
    var s1 := Next(START, run[0]);
    var s2 := Next(s1, run[1]);
    var s3 := Next(s2, run[2]);
    var s4 := Next(s3, run[3]);
    var s5 := Next(s4, run[4]);
    var s6 := Next(s5, run[5]);
    assert CanRun(s6, []) && After(s6, []) == s6;
    assert CanRun(s5, run[5..]) && After(s5, run[5..]) == s6 by { assert run[5..][1..] == []; }
    assert CanRun(s4, run[4..]) && After(s4, run[4..]) == s6 by { assert run[4..][1..] == run[5..]; }
    assert CanRun(s3, run[3..]) && After(s3, run[3..]) == s6 by { assert run[3..][1..] == run[4..]; }
    assert CanRun(s2, run[2..]) && After(s2, run[2..]) == s6 by { assert run[2..][1..] == run[3..]; }
    assert CanRun(s1, run[1..]) && After(s1, run[1..]) == s6 by { assert run[1..][1..] == run[2..]; }
    assert CanRun(START, run) && After(START, run) == s6;
    assert s6.outbox == map[];
    assert forall e :: e in run ==> !e.Elsewhere?;
  }
}
