/**
 * Runs of function commands with everything else that writes the cache, the
 * state store or the station: other throttles, reports of the bus,
 * subscriptions, what Redis has when the roster changes, drives and removals
 * from the roster. When is skipping a command as good as sending it?
 */
module FunctionRuns {
  import opened Options
  import opened FunctionCache

  datatype Op =
    | Set(key: FnKey, on: bool, answers: seq<Answer>) // a command of ours, with its retries
    | Throttle(key: FnKey, on: bool) // another throttle switches the function at the station
    | Report(addr: nat, seen: Sighting, watched: bool, motion: bool) // the state feed
    | Subscribe(addr: nat) // seeds the cache
    | Load(found: Vectors) // a new roster: what Redis has for its addresses, however old
    | Drive(addr: nat) // a speed goes to the store, which then knows the address
    | Retire(addr: nat, agreed: set<nat>)

  function Step(b: Bus, op: Op): Bus {
    match op
    case Set(k, on, answers) => Retried(b, k, on, answers).0
    case Throttle(k, on) => b.(station := Switched(b.station, k, on))
    case Report(addr, seen, watched, motion) => Observed(b, addr, seen, watched, motion)
    case Subscribe(addr) => Seeded(b, addr)
    case Load(found) => b.(functions := Loaded(b.functions, found))
    case Drive(addr) => b.(functions := Entered(b.functions, addr))
    case Retire(addr, agreed) => Retired(b, addr, agreed)
  }

  /** The same without a cache: every command is sent, until an attempt gets through. */
  function CachelessStep(b: Bus, op: Op): Bus {
    match op
    case Set(k, on, answers) =>
      if !Heard(answers) then b
      else b.(functions := WithFunction(b.functions, k, on), station := Switched(b.station, k, on))
    case Subscribe(_) => b
    case _ => Step(b, op).(cache := b.cache)
  }

  function Final(b: Bus, run: seq<Op>): Bus {
    if run == [] then b else Step(Final(b, run[..|run| - 1]), run[|run| - 1])
  }

  function CachelessFinal(b: Bus, run: seq<Op>): Bus {
    if run == [] then b else CachelessStep(CachelessFinal(b, run[..|run| - 1]), run[|run| - 1])
  }

  // ----- the exact condition on a run -----

  /** Alike in all that anyone outside can see: the station, and each function as the store shows it. */
  ghost predicate Alike(b: Bus, c: Bus) {
    b.station == c.station && forall k :: IsOn(b.functions, k) == IsOn(c.functions, k)
  }

  /** A command for this value would be skipped although the station has the other one. */
  predicate SkipsWrongly(b: Bus, k: FnKey, on: bool) {
    Matches(b, k, on) && (k in b.station) != on
  }

  /** It is, although the station would have accepted it. */
  predicate Misled(b: Bus, op: Op) {
    op.Set? && SkipsWrongly(b, op.key, op.on) && Heard(op.answers)
  }

  lemma SetAlikeIff(b: Bus, c: Bus, k: FnKey, on: bool, answers: seq<Answer>)
    requires Alike(b, c)
    ensures Alike(Step(b, Set(k, on, answers)), CachelessStep(c, Set(k, on, answers))) <==>
              !Misled(b, Set(k, on, answers))
  {
    RetriedIs(b, k, on, answers);
    forall j ensures IsOn(WithFunction(b.functions, k, on), j) == IsOn(WithFunction(c.functions, k, on), j) {
      OnlyThatFunction(b.functions, k, on, j);
      OnlyThatFunction(c.functions, k, on, j);
    }
    if Matches(b, k, on) {
      forall j ensures IsOn(WithFunction(c.functions, k, on), j) == IsOn(b.functions, j) {
        OnlyThatFunction(c.functions, k, on, j);
      }
      assert k in Switched(c.station, k, on) <==> on;
    }
  }

  lemma ReportAlike(b: Bus, c: Bus, addr: nat, seen: Sighting, watched: bool, motion: bool)
    requires Alike(b, c)
    ensures Alike(Observed(b, addr, seen, watched, motion), Observed(c, addr, seen, watched, motion))
  {
    var v := StoreReported(b.functions, addr, seen, MAX_SEEN_FUNCTION + 1);
    var w := StoreReported(c.functions, addr, seen, MAX_SEEN_FUNCTION + 1);
    forall k ensures IsOn(v, k) == IsOn(w, k) {
      StoreReportedAt(b.functions, addr, seen, MAX_SEEN_FUNCTION + 1, k);
      StoreReportedAt(c.functions, addr, seen, MAX_SEEN_FUNCTION + 1, k);
    }
  }

  /** A vector with a function on is loaded for an address that only the store of c knows. */
  ghost predicate LoadsApart(b: Bus, c: Bus, op: Op) {
    op.Load? && exists k :: IsOn(op.found, k) && k.addr !in b.functions && k.addr in c.functions
  }

  lemma LoadAlikeIff(b: Bus, c: Bus, found: Vectors)
    requires Alike(b, c) && b.functions.Keys <= c.functions.Keys
    ensures Alike(Step(b, Load(found)), CachelessStep(c, Load(found))) <==> !LoadsApart(b, c, Load(found))
  {
    var v, w := Loaded(b.functions, found), Loaded(c.functions, found);
    forall k ensures IsOn(v, k) == IsOn(w, k) <==> !(IsOn(found, k) && k.addr !in b.functions && k.addr in c.functions)
    {
      LoadedAt(b.functions, found, k);
      LoadedAt(c.functions, found, k);
      assert IsOn(b.functions, k) == IsOn(c.functions, k);
    }
  }

  lemma StepAlikeIff(b: Bus, c: Bus, op: Op)
    requires Alike(b, c) && b.functions.Keys <= c.functions.Keys
    ensures Alike(Step(b, op), CachelessStep(c, op)) <==> !Misled(b, op) && !LoadsApart(b, c, op)
  {
    match op
    case Set(k, on, answers) => SetAlikeIff(b, c, k, on, answers);
    case Report(addr, seen, watched, motion) => ReportAlike(b, c, addr, seen, watched, motion);
    case Load(found) => LoadAlikeIff(b, c, found);
    case Drive(addr) =>
      assert forall k :: IsOn(Entered(b.functions, addr), k) == IsOn(b.functions, k);
      assert forall k :: IsOn(Entered(c.functions, addr), k) == IsOn(c.functions, k);
    case _ =>
  }

  /** The store knows an address after this, provided that commands are sent. */
  predicate Enters(op: Op, addr: nat) {
    match op
    case Set(k, _, answers) => k.addr == addr && Heard(answers)
    case Report(a, _, watched, _) => a == addr && watched
    case Load(found) => addr in found
    case Drive(a) => a == addr
    case _ => false
  }

  lemma {:induction false} CachelessKnows(c: Bus, run: seq<Op>, addr: nat)
    ensures addr in CachelessFinal(c, run).functions
       <==> addr in c.functions || exists op :: op in run && Enters(op, addr)
  {
    if run != [] {
      var before, op := run[..|run| - 1], run[|run| - 1];
      CachelessKnows(c, before, addr);
      StepKnows(CachelessFinal(c, before), op, addr);
      assert run == before + [op];
    }
  }

  lemma StepKnows(b: Bus, op: Op, addr: nat)
    ensures addr in CachelessStep(b, op).functions <==> addr in b.functions || Enters(op, addr)
    ensures addr in Step(b, op).functions
       <==> addr in b.functions || (Enters(op, addr) && (op.Set? ==> !Matches(b, op.key, op.on)))
  {
    match op
    case Set(k, on, answers) => RetriedIs(b, k, on, answers);
    case Report(a, seen, _, _) => StoreReportedAt(b.functions, a, seen, MAX_SEEN_FUNCTION + 1, FnKey(a, 0));
    case _ =>
  }

  lemma {:induction false} CachelessKnowsMore(b: Bus, c: Bus, run: seq<Op>)
    requires b.functions.Keys <= c.functions.Keys
    ensures Final(b, run).functions.Keys <= CachelessFinal(c, run).functions.Keys
  {
    if run != [] {
      var before, op := run[..|run| - 1], run[|run| - 1];
      CachelessKnowsMore(b, c, before);
      forall addr | addr in Final(b, run).functions ensures addr in CachelessFinal(c, run).functions {
        StepKnows(Final(b, before), op, addr);
        StepKnows(CachelessFinal(c, before), op, addr);
      }
    }
  }

  /**
   * What Redis has shows a function on, for an address that the store would know had every command so far been sent;
   * but does not, since those commands were skipped.
   */
  ghost predicate Misloaded(b: Bus, before: seq<Op>, op: Op) {
    op.Load? && exists k ::
      && IsOn(op.found, k)
      && k.addr !in Final(b, before).functions
      && exists e :: e in before && Enters(e, k.addr)
  }

  /** At every point the station and the store are as if every command had been sent. */
  ghost predicate AlwaysAlike(b: Bus, c: Bus, run: seq<Op>) {
    Alike(Final(b, run), CachelessFinal(c, run)) && (run != [] ==> AlwaysAlike(b, c, run[..|run| - 1]))
  }

  ghost predicate NeverMisled(b: Bus, run: seq<Op>) {
    run != [] ==> NeverMisled(b, run[..|run| - 1]) && !Misled(Final(b, run[..|run| - 1]), run[|run| - 1])
  }

  ghost predicate NeverMisloaded(b: Bus, run: seq<Op>) {
    run != [] ==> NeverMisloaded(b, run[..|run| - 1]) && !Misloaded(b, run[..|run| - 1], run[|run| - 1])
  }

  lemma MisloadedIsApart(b: Bus, c: Bus, before: seq<Op>, op: Op)
    requires b.functions.Keys == c.functions.Keys
    ensures LoadsApart(Final(b, before), CachelessFinal(c, before), op) <==> Misloaded(b, before, op)
  {
    if op.Load? {
      forall k: FnKey | k.addr !in Final(b, before).functions
        ensures k.addr in CachelessFinal(c, before).functions <==> exists e :: e in before && Enters(e, k.addr)
      {
        CachelessKnows(c, before, k.addr);
        KnownStays(b, before, k.addr);
      }
    }
  }

  lemma {:induction false} KnownStays(b: Bus, run: seq<Op>, addr: nat)
    ensures addr in b.functions ==> addr in Final(b, run).functions
  {
    if run != [] {
      KnownStays(b, run[..|run| - 1], addr);
      StepKnows(Final(b, run[..|run| - 1]), run[|run| - 1], addr);
    }
  }

  /**
   * Over every run: the cache is unobservable throughout if and only if no command is skipped wrongly and no vector is
   * loaded for an address that the store does not know only because of a skip.
   */
  lemma {:induction false} SkippingIsSendingIff(b: Bus, c: Bus, run: seq<Op>)
    requires Alike(b, c) && b.functions.Keys == c.functions.Keys
    ensures AlwaysAlike(b, c, run) <==> NeverMisled(b, run) && NeverMisloaded(b, run)
  {
    if run != [] {
      var before, op := run[..|run| - 1], run[|run| - 1];
      SkippingIsSendingIff(b, c, before);
      if AlwaysAlike(b, c, before) {
        CachelessKnowsMore(b, c, before);
        StepAlikeIff(Final(b, before), CachelessFinal(c, before), op);
        MisloadedIsApart(b, c, before, op);
      }
    }
  }

  // ----- what the history says of one function -----

  /** Our command reaches the station and is obeyed. */
  predicate Obeys(b: Bus, op: Op, k: FnKey) {
    op.Set? && op.key == k && !Matches(b, op.key, op.on) && Heard(op.answers)
  }

  predicate Sees(op: Op, k: FnKey) {
    op.Report? && op.addr == k.addr && k.fn in op.seen && k.fn <= 28
  }

  /**
   * The report reaches the cache: nobody watches the address, or it is news to the store, because of the loco's motion
   * or of a function up to 28.
   */
  predicate Tells(b: Bus, op: Op)
    requires op.Report?
  {
    op.watched ==>
      || op.motion
      || exists fn :: fn in op.seen && fn <= 28 && IsOn(b.functions, FnKey(op.addr, fn)) != op.seen[fn]
  }

  lemma TellsIsNews(b: Bus, op: Op)
    requires op.Report?
    ensures Tells(b, op) <==> (op.watched ==> News(b.functions, op.addr, op.seen, op.motion))
  {
    forall fn | fn in op.seen && fn <= 28 && IsOn(b.functions, FnKey(op.addr, fn)) != op.seen[fn]
      ensures News(b.functions, op.addr, op.seen, op.motion)
    {
      assert FnKey(op.addr, fn) in SeenKeys(op.addr, op.seen);
    }
    forall k | k in SeenKeys(op.addr, op.seen) && IsOn(b.functions, k) != op.seen[k.fn] && op.watched
      ensures Tells(b, op)
    {
      assert k == FnKey(op.addr, k.fn);
    }
  }

  /** The station's own word: the last command obeyed, from whichever throttle, or the removal from the roster. */
  function StationWord(b: Bus, run: seq<Op>, k: FnKey): bool {
    if run == [] then k in b.station else
      var before, op := run[..|run| - 1], run[|run| - 1];
      if Obeys(Final(b, before), op, k) then op.on
      else if op.Throttle? && op.key == k then op.on
      else if op.Retire? && op.addr == k.addr && k.fn in op.agreed && k.fn <= 31 then false
      else StationWord(b, before, k)
  }

  /** The store knows the address: at first, or since it was commanded, reported while watched, loaded or driven. */
  function Known(b: Bus, run: seq<Op>, addr: nat): bool {
    if run == [] then addr in b.functions else
      var before, op := run[..|run| - 1], run[|run| - 1];
      || Known(b, before, addr)
      || (op.Set? && op.key.addr == addr && Obeys(Final(b, before), op, op.key))
      || (!op.Set? && Enters(op, addr))
  }

  /** What Redis has is taken over for the address. */
  predicate TakesOver(b: Bus, before: seq<Op>, op: Op, addr: nat) {
    op.Load? && addr in op.found && !Known(b, before, addr)
  }

  /**
   * The store's: the last command of ours obeyed, the last report to a watched address, or what Redis had when the
   * address became known.
   */
  function StoreWord(b: Bus, run: seq<Op>, k: FnKey): bool {
    if run == [] then IsOn(b.functions, k) else
      var before, op := run[..|run| - 1], run[|run| - 1];
      if Obeys(Final(b, before), op, k) then op.on
      else if Sees(op, k) && op.watched then op.seen[k.fn]
      else if TakesOver(b, before, op, k.addr) then IsOn(op.found, k)
      else StoreWord(b, before, k)
  }

  /** Whether the store's vector reaches to the function: at first, as loaded, or by a write of a function as high. */
  function Reaches(b: Bus, run: seq<Op>, k: FnKey): bool {
    if run == [] then k.fn < |VectorOf(b.functions, k.addr)| else
      var before, op := run[..|run| - 1], run[|run| - 1];
      || Reaches(b, before, k)
      || (op.Set? && op.key.addr == k.addr && op.key.fn >= k.fn && Obeys(Final(b, before), op, op.key))
      || (op.Report? && op.watched && op.addr == k.addr
          && exists fn :: k.fn <= fn <= 28 && fn in op.seen)
      || (TakesOver(b, before, op, k.addr) && k.fn < |op.found[k.addr]|)
  }

  /**
   * The cache's: the last command of ours obeyed, the last report of which it was told, or the store's word at the
   * last subscription.
   */
  function CacheWord(b: Bus, run: seq<Op>, k: FnKey): Option<bool> {
    if run == [] then if k in b.cache then Some(b.cache[k]) else None
    else
      var before, op := run[..|run| - 1], run[|run| - 1];
      if Obeys(Final(b, before), op, k) then Some(op.on)
      else if Sees(op, k) && Tells(Final(b, before), op) then Some(op.seen[k.fn])
      else if op.Subscribe? && op.addr == k.addr && k.fn <= 31 && Reaches(b, before, k) then
        Some(StoreWord(b, before, k))
      else if op.Retire? && op.addr == k.addr then None
      else CacheWord(b, before, k)
  }

  /** The state of one function is what these words say. */
  ghost predicate AsSaid(b: Bus, run: seq<Op>, k: FnKey) {
    var s := Final(b, run);
    && (k in s.station) == StationWord(b, run, k)
    && IsOn(s.functions, k) == StoreWord(b, run, k)
    && (k.fn < |VectorOf(s.functions, k.addr)|) == Reaches(b, run, k)
    && (if k in s.cache then Some(s.cache[k]) else None) == CacheWord(b, run, k)
  }

  lemma {:induction false} KnownDecides(b: Bus, run: seq<Op>, addr: nat)
    ensures addr in Final(b, run).functions <==> Known(b, run, addr)
  {
    if run != [] {
      KnownDecides(b, run[..|run| - 1], addr);
      StepKnows(Final(b, run[..|run| - 1]), run[|run| - 1], addr);
    }
  }

  lemma UnsentAsSaid(b: Bus, before: seq<Op>, op: Op, k: FnKey)
    requires AsSaid(b, before, k) && op.Set? && !Obeys(Final(b, before), op, op.key)
    ensures AsSaid(b, before + [op], k)
  {
    LastOff(before, op);
    RetriedIs(Final(b, before), op.key, op.on, op.answers);
    assert Final(b, before + [op]) == Final(b, before);
  }

  lemma ObeyedAsSaid(b: Bus, before: seq<Op>, op: Op, k: FnKey)
    requires AsSaid(b, before, k) && op.Set? && Obeys(Final(b, before), op, op.key)
    ensures AsSaid(b, before + [op], k)
  {
    LastOff(before, op);
    RetriedIs(Final(b, before), op.key, op.on, op.answers);
    assert Final(b, before + [op]) == Obeyed(Final(b, before), op.key, op.on);
    OnlyThatFunction(Final(b, before).functions, op.key, op.on, k);
  }

  lemma ReportAsSaid(b: Bus, before: seq<Op>, op: Op, k: FnKey)
    requires AsSaid(b, before, k) && op.Report?
    ensures AsSaid(b, before + [op], k)
  {
    assert (before + [op])[..|before|] == before;
    TellsIsNews(Final(b, before), op);
    StoreReportedAt(Final(b, before).functions, op.addr, op.seen, MAX_SEEN_FUNCTION + 1, k);
    CacheToldAt(Final(b, before).cache, op.addr, op.seen, MAX_SEEN_FUNCTION + 1, k);
    assert k in SeenKeys(op.addr, op.seen) <==> k.addr == op.addr && k.fn in op.seen && k.fn < MAX_SEEN_FUNCTION + 1;
    assert (exists fn :: k.fn <= fn < MAX_SEEN_FUNCTION + 1 && fn in op.seen)
      <==> (exists fn :: k.fn <= fn <= 28 && fn in op.seen);
  }

  lemma SubscribeAsSaid(b: Bus, before: seq<Op>, op: Op, k: FnKey)
    requires AsSaid(b, before, k) && op.Subscribe?
    ensures AsSaid(b, before + [op], k)
  {
    LastOff(before, op);
    SeededAt(Final(b, before).cache, Final(b, before).functions, op.addr, MAX_DCC_FUNCTION + 1, k);
  }

  lemma LoadAsSaid(b: Bus, before: seq<Op>, op: Op, k: FnKey)
    requires AsSaid(b, before, k) && op.Load?
    ensures AsSaid(b, before + [op], k)
  {
    LastOff(before, op);
    KnownDecides(b, before, k.addr);
    LoadedAt(Final(b, before).functions, op.found, k);
  }

  lemma OtherAsSaid(b: Bus, before: seq<Op>, op: Op, k: FnKey)
    requires AsSaid(b, before, k) && (op.Throttle? || op.Drive? || op.Retire?)
    ensures AsSaid(b, before + [op], k)
  {
    LastOff(before, op);
  }

  /** After every run, station, store and cache hold for each function exactly what its history says. */
  lemma {:induction false} HistoryDecides(b: Bus, run: seq<Op>, k: FnKey)
    ensures AsSaid(b, run, k) && (k.addr in Final(b, run).functions <==> Known(b, run, k.addr))
  {
    KnownDecides(b, run, k.addr);
    if run != [] {
      var before, op := run[..|run| - 1], run[|run| - 1];
      HistoryDecides(b, before, k);
      assert before + [op] == run;
      match op {
        case Set(_, _, _) =>
          if Obeys(Final(b, before), op, op.key) {
            ObeyedAsSaid(b, before, op, k);
          } else {
            UnsentAsSaid(b, before, op, k);
          }
        case Report(_, _, _, _) => ReportAsSaid(b, before, op, k);
        case Subscribe(_) => SubscribeAsSaid(b, before, op, k);
        case Load(_) => LoadAsSaid(b, before, op, k);
        case _ => OtherAsSaid(b, before, op, k);
      }
    }
  }

  /**
   * So the next command for a value is skipped wrongly if and only if the last words of the cache and of the store
   * are for that value, and the station's is against it.
   */
  lemma NextSkippedWronglyIff(b: Bus, run: seq<Op>, k: FnKey, on: bool)
    ensures SkipsWrongly(Final(b, run), k, on)
       <==> CacheWord(b, run, k) == Some(on) && StoreWord(b, run, k) == on && StationWord(b, run, k) != on
  {
    HistoryDecides(b, run, k);
  }

  /**
   * A subscription seeds the cache from the store. Right after it some command for a function within the vector is
   * skipped wrongly if and only if the store's last word was not the station's.
   */
  lemma SeedMisleadsIff(b: Bus, run: seq<Op>, k: FnKey)
    requires Reaches(b, run, k) && k.fn <= 31
    ensures (exists on :: SkipsWrongly(Final(b, run + [Subscribe(k.addr)]), k, on))
       <==> StoreWord(b, run, k) != StationWord(b, run, k)
  {
    var whole := run + [Subscribe(k.addr)];
    assert whole[..|whole| - 1] == run;
    NextSkippedWronglyIff(b, whole, k, StoreWord(b, run, k));
    NextSkippedWronglyIff(b, whole, k, !StoreWord(b, run, k));
    assert SkipsWrongly(Final(b, whole), k, StoreWord(b, run, k)) <==> StoreWord(b, run, k) != StationWord(b, run, k);
    assert !SkipsWrongly(Final(b, whole), k, !StoreWord(b, run, k));
  }

  // ----- which functions can be misled at all -----

  /** Reports say what the station has at that moment; of what Redis has nothing is supposed. */
  ghost predicate Truthful(b: Bus, op: Op) {
    op.Report? ==> forall k :: k in SeenKeys(op.addr, op.seen) ==> op.seen[k.fn] == (k in b.station)
  }

  ghost predicate TruthfulRun(b: Bus, run: seq<Op>) {
    run != [] ==> TruthfulRun(b, run[..|run| - 1]) && Truthful(Final(b, run[..|run| - 1]), run[|run| - 1])
  }

  /**
   * The function was switched at the station past the store, by another throttle or by a removal from the roster, or
   * was loaded from Redis against the station, or was never in agreement; and since then it was neither reported to
   * the store nor commanded by us.
   */
  ghost predicate Unreported(b: Bus, run: seq<Op>, k: FnKey) {
    if run == [] then IsOn(b.functions, k) != (k in b.station) else
      var before, op := run[..|run| - 1], run[|run| - 1];
      if Obeys(Final(b, before), op, k) || (Sees(op, k) && op.watched) then false
      else if TakesOver(b, before, op, k.addr) then IsOn(op.found, k) != (k in Final(b, before).station)
      else
        || Unreported(b, before, k)
        || (op.Throttle? && op.key == k)
        || (op.Retire? && op.addr == k.addr && k.fn in op.agreed && k.fn <= 31)
  }

  lemma {:induction false} ReportedAgrees(b: Bus, run: seq<Op>, k: FnKey)
    requires TruthfulRun(b, run) && !Unreported(b, run, k)
    ensures StoreWord(b, run, k) == StationWord(b, run, k)
  {
    if run != [] {
      var before, op := run[..|run| - 1], run[|run| - 1];
      HistoryDecides(b, before, k);
      if !Unreported(b, before, k) {
        ReportedAgrees(b, before, k);
      }
    }
  }

  /**
   * Over every run with truthful reports, however throttles, reports, subscriptions and removals interleave, only a
   * function whose last switch at the station was never reported to the store can be skipped wrongly.
   */
  lemma OnlyUnreportedMislead(b: Bus, run: seq<Op>, k: FnKey, on: bool)
    requires TruthfulRun(b, run) && !Unreported(b, run, k)
    ensures !SkipsWrongly(Final(b, run), k, on)
  {
    ReportedAgrees(b, run, k);
    NextSkippedWronglyIff(b, run, k, on);
  }

  /** Nothing but our own commands, drives, loads and removals happens to the station and the cache. */
  predicate Undisturbed(op: Op) {
    op.Set? || op.Drive? || op.Load? || op.Retire?
  }

  /** The cache never claims more than the station has. */
  ghost predicate Sound(b: Bus) {
    forall k :: k in b.cache ==> b.cache[k] == (k in b.station)
  }

  /** The cache holds nothing of addresses that the store does not know. */
  ghost predicate Backed(b: Bus) {
    forall k :: k in b.cache ==> k.addr in b.functions
  }

  lemma {:induction false} UndisturbedStaysSound(b: Bus, run: seq<Op>)
    requires Sound(b) && forall op :: op in run ==> Undisturbed(op)
    ensures Sound(Final(b, run)) && NeverMisled(b, run)
  {
    if run != [] {
      var before, op := run[..|run| - 1], run[|run| - 1];
      UndisturbedStaysSound(b, before);
      assert op in run;
      if op.Set? {
        RetriedIs(Final(b, before), op.key, op.on, op.answers);
      }
    }
  }

  lemma {:induction false} BackedNeverMisloaded(b: Bus, run: seq<Op>, c: Bus)
    requires Backed(b) && b.functions.Keys == c.functions.Keys && forall op :: op in run ==> Undisturbed(op)
    ensures Backed(Final(b, run)) && Final(b, run).functions.Keys == CachelessFinal(c, run).functions.Keys
    ensures NeverMisloaded(b, run)
  {
    if run != [] {
      var before, op := run[..|run| - 1], run[|run| - 1];
      BackedNeverMisloaded(b, before, c);
      assert op in run;
      if op.Set? {
        RetriedIs(Final(b, before), op.key, op.on, op.answers);
      }
      MisloadedIsApart(b, c, before, op);
    }
  }

  lemma {:induction false} WithoutLoads(b: Bus, run: seq<Op>)
    requires forall op :: op in run ==> !op.Load?
    ensures NeverMisloaded(b, run)
  {
    if run != [] {
      assert run[|run| - 1] in run;
      WithoutLoads(b, run[..|run| - 1]);
    }
  }

  /**
   * So among our own commands, drives, loads and removals alone a sound cache is never observable, if it is backed at
   * first or nothing is loaded.
   */
  lemma UndisturbedRunsAgree(b: Bus, run: seq<Op>)
    requires Sound(b) && forall op :: op in run ==> Undisturbed(op)
    requires Backed(b) || forall op :: op in run ==> !op.Load?
    ensures AlwaysAlike(b, b, run)
  {
    UndisturbedStaysSound(b, run);
    if Backed(b) {
      BackedNeverMisloaded(b, run, b);
    } else {
      WithoutLoads(b, run);
    }
    SkippingIsSendingIff(b, b, run);
  }

  // ----- runs that go wrong, from an empty start -----

  const START := Bus(map[], map[], {})

  const YES := [Answer(Accepts, Accepts)]

  /** Another throttle switches off what we switched on: until that is reported, our next command is skipped. */
  lemma UnreportedThrottle(k: FnKey)
    ensures SkipsWrongly(Final(START, [Set(k, true, YES), Throttle(k, false)]), k, true)
  {
    var run := [Set(k, true, YES), Throttle(k, false)];
    SetFirst(k);
    LastOff([Set(k, true, YES)], Throttle(k, false));
    assert run == [Set(k, true, YES)] + [Throttle(k, false)];
    NextSkippedWronglyIff(START, run, k, true);
  }

  lemma SetFirst(k: FnKey)
    ensures var run := [Set(k, true, YES)];
      && CacheWord(START, run, k) == Some(true) && StoreWord(START, run, k) && StationWord(START, run, k)
      && Reaches(START, run, k)
  {
    var run := [Set(k, true, YES)];
    assert run[..0] == [];
    assert YES[0] in YES && GoesThrough(YES[0]);
    assert Obeys(Final(START, run[..0]), run[0], k);
  }

  /**
   * Reporting it while nobody watches the address does not help for good: the next subscriber brings the old value
   * back.
   */
  lemma SubscriptionRevivesOldValue(k: FnKey)
    requires k.fn <= MAX_SEEN_FUNCTION
    ensures var hidden := Report(k.addr, map[k.fn := false], false, false);
      var run := [Set(k, true, YES), Throttle(k, false), hidden, Subscribe(k.addr)];
      && !SkipsWrongly(Final(START, run[..3]), k, true)
      && TruthfulRun(START, run) && SkipsWrongly(Final(START, run), k, true)
  {
    var hidden := Report(k.addr, map[k.fn := false], false, false);
    var run := [Set(k, true, YES), Throttle(k, false), hidden, Subscribe(k.addr)];
    var r1 := [Set(k, true, YES)];
    var r2 := r1 + [Throttle(k, false)];
    var r3 := r2 + [hidden];
    SetFirst(k);
    LastOff(r1, Throttle(k, false));
    LastOff(r2, hidden);
    LastOff(r3, Subscribe(k.addr));
    assert run == r3 + [Subscribe(k.addr)] && run[..3] == r3;
    HistoryDecides(START, r2, k);
    assert k in SeenKeys(k.addr, map[k.fn := false]);
    assert TruthfulRun(START, r1) by { LastOff([], Set(k, true, YES)); }
    assert TruthfulRun(START, r2);
    assert Truthful(Final(START, r2), hidden);
    assert TruthfulRun(START, r3);
    NextSkippedWronglyIff(START, r3, k, true);
    NextSkippedWronglyIff(START, run, k, true);
  }

  /** An old vector in Redis misleads without anything being switched at all: loaded, subscribed to, and skipped. */
  lemma StaleLoadMisleads(k: FnKey, vector: seq<bool>)
    requires k.fn < |vector| && vector[k.fn] && k.fn <= MAX_DCC_FUNCTION
    ensures SkipsWrongly(Final(START, [Load(map[k.addr := vector]), Subscribe(k.addr)]), k, true)
  {
    var load := Load(map[k.addr := vector]);
    var run := [load, Subscribe(k.addr)];
    LastOff([], load);
    LastOff([load], Subscribe(k.addr));
    assert run == [load] + [Subscribe(k.addr)] && [load] == [] + [load];
    assert TakesOver(START, [], load, k.addr) && IsOn(load.found, k);
    assert StoreWord(START, [load], k) && Reaches(START, [load], k) && !StationWord(START, [load], k);
    NextSkippedWronglyIff(START, run, k, true);
  }

  /**
   * And a skipped command can matter although the station already has its value: the store does not get to know the
   * address, so that an old vector is still loaded, which a sent command would have prevented.
   */
  lemma SkipLetsLoadIn(k: FnKey, vector: seq<bool>)
    requires k.fn < |vector| && vector[k.fn] && k.fn <= MAX_SEEN_FUNCTION
    ensures var hidden := Report(k.addr, map[k.fn := false], false, false);
      var run := [hidden, Set(k, false, YES), Load(map[k.addr := vector])];
      && TruthfulRun(START, run) && NeverMisled(START, run)
      && IsOn(Final(START, run).functions, k) && !IsOn(CachelessFinal(START, run).functions, k)
  {
    var hidden, set0, load := Report(k.addr, map[k.fn := false], false, false), Set(k, false, YES),
      Load(map[k.addr := vector]);
    var run, r2 := [hidden, set0, load], [hidden, set0];
    FirstOf(START, hidden);
    LastOff([hidden], set0);
    LastOff(r2, load);
    assert r2 == [hidden] + [set0] && run == r2 + [load];
    CacheToldAt(map[], k.addr, map[k.fn := false], MAX_SEEN_FUNCTION + 1, k);
    var s1 := Final(START, [hidden]);
    assert s1 == Observed(START, k.addr, map[k.fn := false], false, false);
    assert Matches(s1, k, false) && s1.functions == map[] && s1.station == {};
    RetriedIs(s1, k, false, YES);
    assert Final(START, r2) == s1;
    LoadedAt(s1.functions, load.found, k);
    assert YES[0] in YES && GoesThrough(YES[0]);
    var c2 := CachelessFinal(START, r2);
    assert c2.functions == WithFunction(map[], k, false);
    LoadedAt(c2.functions, load.found, k);
    assert TruthfulRun(START, r2) && NeverMisled(START, r2);
  }

  lemma FirstOf(b: Bus, op: Op)
    ensures Final(b, [op]) == Step(b, op) && CachelessFinal(b, [op]) == CachelessStep(b, op)
    ensures (NeverMisled(b, [op]) <==> !Misled(b, op)) && (TruthfulRun(b, [op]) <==> Truthful(b, op))
  {
    assert [op][..0] == [];
    assert Final(b, []) == b && CachelessFinal(b, []) == b && NeverMisled(b, []) && TruthfulRun(b, []);
  }

  lemma LastOff(before: seq<Op>, op: Op)
    ensures var run := before + [op]; run[..|run| - 1] == before && run[|run| - 1] == op
  {
  }

  /**
   * A loco that is taken off the roster and put back: its functions are off at the station, but the store still has
   * them on.
   */
  lemma RetiredLocoMisleads(k: FnKey)
    requires k.fn <= MAX_DCC_FUNCTION
    ensures SkipsWrongly(Final(START, [Set(k, true, YES), Retire(k.addr, {k.fn}), Subscribe(k.addr)]), k, true)
  {
    var run := [Set(k, true, YES), Retire(k.addr, {k.fn}), Subscribe(k.addr)];
    var r1 := [Set(k, true, YES)];
    var r2 := r1 + [Retire(k.addr, {k.fn})];
    SetFirst(k);
    LastOff(r1, Retire(k.addr, {k.fn}));
    LastOff(r2, Subscribe(k.addr));
    assert run == r2 + [Subscribe(k.addr)];
    NextSkippedWronglyIff(START, run, k, true);
  }
}
