/** Function commands through the write-through cache that skips what the station already has. */
module FunctionCache {
  import opened Options

  datatype FnKey = FnKey(addr: nat, fn: nat)

  /** The station's reply to one SendFn; only SlotError is worth a second try. */
  datatype Reply = Accepts | SlotError | Refuses

  /** The replies to the first send of a command and to the one after revalidating the slot. */
  datatype Answer = Answer(first: Reply, second: Reply)

  predicate GoesThrough(a: Answer) {
    a.first.Accepts? || (a.first.SlotError? && a.second.Accepts?)
  }

  type Cache = map<FnKey, bool>

  /** The state store's function vectors, by address. */
  type Vectors = map<nat, seq<bool>>

  /**
   * cache is FunctionsCache, functions the state store, and station the functions that are on at the command station.
   */
  datatype Bus = Bus(cache: Cache, functions: Vectors, station: set<FnKey>)

  const MAX_DCC_FUNCTION := 31
  const MAX_SEEN_FUNCTION := 28

  function VectorOf(v: Vectors, addr: nat): seq<bool> {
    if addr in v then v[addr] else []
  }

  /** A function beyond the end of its vector counts as off. */
  predicate IsOn(v: Vectors, k: FnKey) {
    k.fn < |VectorOf(v, k.addr)| && VectorOf(v, k.addr)[k.fn]
  }

  /** The vector, long enough for a function and with that one set. */
  function Grown(f: seq<bool>, fn: nat, on: bool): (r: seq<bool>)
    ensures |r| == if |f| <= fn then fn + 1 else |f|
    ensures forall i :: 0 <= i < |r| ==> r[i] == if i == fn then on else i < |f| && f[i]
  {
    (if |f| <= fn then f + seq(fn + 1 - |f|, _ => false) else f)[fn := on]
  }

  /** LocoStateStore.SetFunction. */
  function WithFunction(v: Vectors, k: FnKey, on: bool): Vectors {
    v[k.addr := Grown(VectorOf(v, k.addr), k.fn, on)]
  }

  lemma OnlyThatFunction(v: Vectors, k: FnKey, on: bool, j: FnKey)
    ensures IsOn(WithFunction(v, k, on), j) == if j == k then on else IsOn(v, j)
    ensures |VectorOf(WithFunction(v, k, on), j.addr)|
         == if j.addr == k.addr && |VectorOf(v, j.addr)| <= k.fn then k.fn + 1 else |VectorOf(v, j.addr)|
  {
  }

  /** The station's functions with one switched. */
  function Switched(station: set<FnKey>, k: FnKey, on: bool): set<FnKey> {
    if on then station + {k} else station - {k}
  }

  /** checkFnStateMatches: cache and store agree that there is nothing to do. */
  predicate Matches(b: Bus, k: FnKey, on: bool) {
    k in b.cache && b.cache[k] == on && IsOn(b.functions, k) == on
  }

  /** The state after the station has accepted a command. */
  function Obeyed(b: Bus, k: FnKey, on: bool): Bus {
    Bus(b.cache[k := on], WithFunction(b.functions, k, on), Switched(b.station, k, on))
  }

  /** One command: skipped, sent and accepted, or sent and refused without a trace. */
  function Command(b: Bus, k: FnKey, on: bool, a: Answer): (Bus, bool) {
    if Matches(b, k, on) then (b, true)
    else if GoesThrough(a) then (Obeyed(b, k, on), true)
    else (b, false)
  }

  /** The attempts of setLocoFunctionWithRetry, one for each answer; no attempt at all counts as success. */
  function Retried(b: Bus, k: FnKey, on: bool, answers: seq<Answer>): (Bus, bool) {
    if answers == [] then (b, true) else
      var (b1, ok) := Command(b, k, on, answers[0]);
      if ok || |answers| == 1 then (b1, ok) else Retried(b1, k, on, answers[1..])
  }

  // ----- other writers of cache and store -----

  /** HandleSubscribe seeds the cache with the store's vector, functions 0 to 31. */
  function Seeded(b: Bus, addr: nat): Bus {
    b.(cache := SeededBelow(b.cache, b.functions, addr, MAX_DCC_FUNCTION + 1))
  }

  /** The cache after seeding the functions below n. */
  function SeededBelow(c: Cache, v: Vectors, addr: nat, n: nat): Cache {
    if n == 0 then c else
      var before := SeededBelow(c, v, addr, n - 1);
      if n - 1 < |VectorOf(v, addr)| then before[FnKey(addr, n - 1) := VectorOf(v, addr)[n - 1]] else before
  }

  lemma {:induction false} SeededAt(c: Cache, v: Vectors, addr: nat, n: nat, k: FnKey)
    ensures var r := SeededBelow(c, v, addr, n);
      if k.addr == addr && k.fn < n && k.fn < |VectorOf(v, addr)| then k in r && r[k] == IsOn(v, k)
      else (k in r <==> k in c) && (k in r ==> r[k] == c[k])
  {
    if n > 0 {
      SeededAt(c, v, addr, n - 1, k);
    }
  }

  lemma {:induction false} SeedEnds(c: Cache, v: Vectors, addr: nat, m: nat, n: nat)
    requires |VectorOf(v, addr)| <= m <= n
    ensures SeededBelow(c, v, addr, m) == SeededBelow(c, v, addr, n)
    decreases n
  {
    if m < n {
      SeedEnds(c, v, addr, m, n - 1);
    }
  }

  /** What a report of the bus says about some functions of an address; higher ones than 28 are not looked at. */
  type Sighting = map<nat, bool>

  function SeenKeys(addr: nat, seen: Sighting): (r: set<FnKey>)
    ensures forall k :: k in r <==> k.addr == addr && k.fn in seen && k.fn <= MAX_SEEN_FUNCTION
  {
    set fn | fn in seen && fn <= MAX_SEEN_FUNCTION :: FnKey(addr, fn)
  }

  /** An address that the store does not know gets an entry, with an empty vector. */
  function Entered(v: Vectors, addr: nat): Vectors {
    v[addr := VectorOf(v, addr)]
  }

  /** LoadMissingFromRedis: what Redis has counts for addresses without an entry only. */
  function Loaded(v: Vectors, found: Vectors): Vectors {
    found + v
  }

  function Found(redis: Vectors, addrs: seq<nat>): Vectors {
    map a | a in addrs && a in redis :: redis[a]
  }

  /** ApplyObservation, for the functions below n. */
  function StoreReported(v: Vectors, addr: nat, seen: Sighting, n: nat): Vectors {
    if n == 0 then Entered(v, addr) else
      var before := StoreReported(v, addr, seen, n - 1);
      if n - 1 in seen then WithFunction(before, FnKey(addr, n - 1), seen[n - 1]) else before
  }

  function CacheReported(c: Cache, addr: nat, seen: Sighting): Cache {
    CacheToldBelow(c, addr, seen, MAX_SEEN_FUNCTION + 1)
  }

  /** FunctionsCache.Set for the functions below n that the report mentions. */
  function CacheToldBelow(c: Cache, addr: nat, seen: Sighting, n: nat): Cache {
    if n == 0 then c else
      var before := CacheToldBelow(c, addr, seen, n - 1);
      if n - 1 in seen then before[FnKey(addr, n - 1) := seen[n - 1]] else before
  }

  lemma {:induction false} CacheToldAt(c: Cache, addr: nat, seen: Sighting, n: nat, k: FnKey)
    ensures var r := CacheToldBelow(c, addr, seen, n);
      if k.addr == addr && k.fn < n && k.fn in seen then k in r && r[k] == seen[k.fn]
      else (k in r <==> k in c) && (k in r ==> r[k] == c[k])
  {
    if n > 0 {
      CacheToldAt(c, addr, seen, n - 1, k);
    }
  }

  /** Whether the report tells the store anything new; motion stands for a change of speed or direction. */
  predicate News(v: Vectors, addr: nat, seen: Sighting, motion: bool) {
    motion || exists k :: k in SeenKeys(addr, seen) && IsOn(v, k) != seen[k.fn]
  }

  /**
   * applyObservation: with nobody watching the address only the cache is told; otherwise the cache is told news only.
   */
  function Observed(b: Bus, addr: nat, seen: Sighting, watched: bool, motion: bool): Bus {
    var cache := CacheReported(b.cache, addr, seen);
    if !watched then b.(cache := cache)
    else
      Bus(if News(b.functions, addr, seen, motion) then cache else b.cache,
          StoreReported(b.functions, addr, seen, MAX_SEEN_FUNCTION + 1), b.station)
  }

  function Cleared(c: Cache, addr: nat): Cache {
    map k | k in c && k.addr != addr :: c[k]
  }

  /** retireRemovedLoco: functions 0 to 31 are switched off, as far as the station agrees, past cache and store. */
  function Retired(b: Bus, addr: nat, agreed: set<nat>): Bus {
    b.(cache := Cleared(b.cache, addr), station := SwitchedOff(b.station, addr, agreed, MAX_DCC_FUNCTION + 1))
  }

  function SwitchedOff(station: set<FnKey>, addr: nat, agreed: set<nat>, n: nat): set<FnKey> {
    set k | k in station && !(k.addr == addr && k.fn in agreed && k.fn < n)
  }

  class Router {
    var cache: Cache
    var functions: Vectors
    var station: set<FnKey>

    function Value(): Bus
      reads this
    {
      Bus(cache, functions, station)
    }

    /** FunctionsCache.Stage. */
    method Stage(k: FnKey, on: bool) returns (previous: Option<bool>)
      modifies this`cache
      ensures previous == if k in old(cache) then Some(old(cache)[k]) else None
      ensures cache == old(cache)[k := on]
    {
      previous := if k in cache then Some(cache[k]) else None;
      cache := cache[k := on];
    }

    /** FunctionsCache.Rollback. */
    method Rollback(k: FnKey, previous: Option<bool>)
      modifies this`cache
      ensures cache == if previous.Some? then old(cache)[k := previous.value] else old(cache) - {k}
    {
      if previous.Some? {
        cache := cache[k := previous.value];
      } else {
        cache := cache - {k};
      }
    }

    method SendFn(k: FnKey, on: bool, reply: Reply)
      modifies this`station
      ensures station == if reply.Accepts? then Switched(old(station), k, on) else old(station)
    {
      if reply.Accepts? {
        station := if on then station + {k} else station - {k};
      }
    }

    /** setLocoFunction. */
    method SetLocoFunction(k: FnKey, on: bool, answer: Answer) returns (ok: bool)
      modifies this
      ensures (Value(), ok) == Command(old(Value()), k, on, answer)
    {
      if k in cache && cache[k] == on && IsOn(functions, k) == on {
        return true;
      }
      var previous := Stage(k, on);
      SendFn(k, on, answer.first);
      if !answer.first.Accepts? {
        if !answer.first.SlotError? {
          Rollback(k, previous);
          assert cache == old(cache);
          return false;
        }
        SendFn(k, on, answer.second);
        if !answer.second.Accepts? {
          Rollback(k, previous);
          assert cache == old(cache);
          return false;
        }
      }
      functions := WithFunction(functions, k, on);
      ok := true;
    }

    /** setLocoFunctionWithRetry: at most retry + 1 attempts. */
    method SetLocoFunctionWithRetry(k: FnKey, on: bool, retry: int, answers: seq<Answer>) returns (ok: bool)
      requires |answers| == if retry + 1 > 0 then retry + 1 else 0
      modifies this
      ensures (Value(), ok) == Retried(old(Value()), k, on, answers)
    {
      ok := true;
      var i := 0;
      while i < retry + 1
        invariant 0 <= i <= |answers|
        invariant i == 0 ==> ok && Value() == old(Value())
        invariant i > 0 ==> !ok
        invariant Retried(old(Value()), k, on, answers) ==
                  if i > 0 && i == |answers| then (Value(), false) else Retried(Value(), k, on, answers[i..])
      {
        assert answers[i..][1..] == answers[i + 1..];
        ok := SetLocoFunction(k, on, answers[i]);
        if ok {
          return;
        }
        i := i + 1;
      }
    }

    /** FunctionsCache.Seed with the store's vector, as on a subscription. */
    method Seed(addr: nat)
      modifies this`cache
      ensures Value() == Seeded(old(Value()), addr)
    {
      var f := VectorOf(functions, addr);
      var fn := 0;
      while fn < |f| && fn <= MAX_DCC_FUNCTION
        invariant 0 <= fn <= |f| && fn <= MAX_DCC_FUNCTION + 1
        invariant cache == SeededBelow(old(cache), functions, addr, fn)
      {
        cache := cache[FnKey(addr, fn) := f[fn]];
        fn := fn + 1;
      }
      if fn == |f| {
        SeedEnds(old(cache), functions, addr, fn, MAX_DCC_FUNCTION + 1);
      }
    }

    /** FunctionsCache.Set for every function that a report mentions. */
    method TellCache(addr: nat, seen: Sighting)
      modifies this`cache
      ensures cache == CacheReported(old(cache), addr, seen)
    {
      for fn := 0 to MAX_SEEN_FUNCTION + 1
        invariant cache == CacheToldBelow(old(cache), addr, seen, fn)
      {
        if fn in seen {
          cache := cache[FnKey(addr, fn) := seen[fn]];
        }
      }
    }

    /** LocoStateStore.entry, as every write of the store calls it. */
    method Enter(addr: nat)
      modifies this`functions
      ensures functions == Entered(old(functions), addr)
    {
      if addr !in functions {
        functions := functions[addr := []];
      } else {
        assert functions[addr := functions[addr]] == functions;
      }
    }

    /** LocoStateStore.LoadMissingFromRedis; a read that fails counts as nothing found. */
    method LoadMissingFromRedis(addrs: seq<nat>, redis: Vectors)
      modifies this`functions
      ensures functions == Loaded(old(functions), Found(redis, addrs))
    {
      ghost var v := functions;
      for i := 0 to |addrs|
        invariant functions == Loaded(v, Found(redis, addrs[..i]))
      {
        LoadOneMore(v, redis, addrs, i);
        if addrs[i] !in functions && addrs[i] in redis {
          functions := functions[addrs[i] := redis[addrs[i]]];
        }
      }
      assert addrs[..|addrs|] == addrs;
    }

    /** LocoStateStore.ApplyObservation, as far as functions are concerned. */
    method ApplyObservation(addr: nat, seen: Sighting, motion: bool) returns (changed: bool)
      modifies this`functions
      ensures functions == StoreReported(old(functions), addr, seen, MAX_SEEN_FUNCTION + 1)
      ensures changed == News(old(functions), addr, seen, motion)
    {
      changed := motion;
      ghost var v := functions;
      Enter(addr);
      for fn := 0 to MAX_SEEN_FUNCTION + 1
        invariant functions == StoreReported(v, addr, seen, fn)
        invariant changed <==> motion || exists k :: k in SeenKeys(addr, seen) && k.fn < fn && IsOn(v, k) != seen[k.fn]
      {
        if fn in seen {
          StoreReportedAt(v, addr, seen, fn, FnKey(addr, fn));
          assert FnKey(addr, fn) in SeenKeys(addr, seen);
          if IsOn(functions, FnKey(addr, fn)) != seen[fn] {
            changed := true;
          }
          functions := WithFunction(functions, FnKey(addr, fn), seen[fn]);
        }
      }
    }

    /** applyObservation of the state feed, for a loco on the roster. */
    method Observe(addr: nat, seen: Sighting, watched: bool, motion: bool)
      modifies this
      ensures Value() == Observed(old(Value()), addr, seen, watched, motion)
    {
      if !watched {
        TellCache(addr, seen);
        return;
      }
      var changed := ApplyObservation(addr, seen, motion);
      if !changed {
        return;
      }
      TellCache(addr, seen);
    }

    /** retireRemovedLoco; agreed are the functions whose command the station accepts. */
    method Retire(addr: nat, agreed: set<nat>)
      modifies this
      ensures Value() == Retired(old(Value()), addr, agreed)
    {
      for fn := 0 to MAX_DCC_FUNCTION + 1
        invariant station == SwitchedOff(old(station), addr, agreed, fn)
        invariant cache == old(cache) && functions == old(functions)
      {
        SendFn(FnKey(addr, fn), false, if fn in agreed then Accepts else Refuses);
      }
      cache := map k | k in cache && k.addr != addr :: cache[k];
    }
  }

  lemma LoadOneMore(v: Vectors, redis: Vectors, addrs: seq<nat>, i: nat)
    requires i < |addrs|
    ensures var before := Loaded(v, Found(redis, addrs[..i]));
      Loaded(v, Found(redis, addrs[..i + 1]))
        == if addrs[i] !in before && addrs[i] in redis then before[addrs[i] := redis[addrs[i]]] else before
  {
    var a, found := addrs[i], Found(redis, addrs[..i]);
    assert addrs[..i + 1] == addrs[..i] + [a];
    if a !in redis {
      assert Found(redis, addrs[..i + 1]) == found;
    } else {
      assert Found(redis, addrs[..i + 1]) == found[a := redis[a]];
      assert found[a := redis[a]] + v == if a in v then found + v else (found + v)[a := redis[a]];
    }
  }

  lemma LoadedAt(v: Vectors, found: Vectors, k: FnKey)
    ensures VectorOf(Loaded(v, found), k.addr) == if k.addr in v then v[k.addr] else VectorOf(found, k.addr)
    ensures IsOn(Loaded(v, found), k) == if k.addr in v then IsOn(v, k) else IsOn(found, k)
  {
  }

  lemma {:induction false} StoreReportedAt(v: Vectors, addr: nat, seen: Sighting, n: nat, k: FnKey)
    ensures IsOn(StoreReported(v, addr, seen, n), k)
         == if k.addr == addr && k.fn < n && k.fn in seen then seen[k.fn] else IsOn(v, k)
    ensures |VectorOf(StoreReported(v, addr, seen, n), k.addr)| > k.fn <==>
            |VectorOf(v, k.addr)| > k.fn || (k.addr == addr && exists fn :: k.fn <= fn < n && fn in seen)
    ensures StoreReported(v, addr, seen, n).Keys == v.Keys + {addr}
  {
    if n > 0 {
      StoreReportedAt(v, addr, seen, n - 1, k);
      if n - 1 in seen {
        OnlyThatFunction(StoreReported(v, addr, seen, n - 1), FnKey(addr, n - 1), seen[n - 1], k);
      }
    }
  }

  // ----- all or nothing -----

  /**
   * After any number of attempts either nothing has changed, or exactly this function has, everywhere alike; failure
   * is always the former.
   */
  lemma {:induction false} AllOrNothing(b: Bus, k: FnKey, on: bool, answers: seq<Answer>)
    ensures var (after, ok) := Retried(b, k, on, answers);
      && (!ok ==> after == b)
      && (ok && answers != [] ==> Matches(after, k, on))
      && (after == b || after == Obeyed(b, k, on))
    decreases |answers|
  {
    OnlyThatFunction(b.functions, k, on, k);
    if |answers| > 1 && !Command(b, k, on, answers[0]).1 {
      AllOrNothing(b, k, on, answers[1..]);
    }
  }

  /** Some attempt gets through, if it is sent. */
  predicate Heard(answers: seq<Answer>) {
    exists a :: a in answers && GoesThrough(a)
  }

  /** The attempts change something just when there is something to send and one of them gets through. */
  lemma {:induction false} RetriedIs(b: Bus, k: FnKey, on: bool, answers: seq<Answer>)
    ensures Retried(b, k, on, answers) ==
            if Matches(b, k, on) || answers == [] then (b, true)
            else if Heard(answers) then (Obeyed(b, k, on), true)
            else (b, false)
    decreases |answers|
  {
    if answers != [] {
      assert answers == [answers[0]] + answers[1..];
      if |answers| > 1 && !Command(b, k, on, answers[0]).1 {
        RetriedIs(b, k, on, answers[1..]);
      }
    }
  }

  /** Cache and store say the value already; a function that the store's vector does not reach is off. */
  predicate AlreadySo(b: Bus, k: FnKey, on: bool) {
    && k in b.cache && b.cache[k] == on
    && on == (k.addr in b.functions && k.fn < |b.functions[k.addr]| && b.functions[k.addr][k.fn])
  }

  /** The station says no: at once, or again after a slot error. */
  predicate SaysNo(a: Answer) {
    a.first.Refuses? || (a.first.SlotError? && !a.second.Accepts?)
  }

  /** It fails just when there is something to send and no attempt gets it through. */
  lemma RetriedFailsIff(b: Bus, k: FnKey, on: bool, answers: seq<Answer>)
    ensures !Retried(b, k, on, answers).1 <==>
            answers != [] && !AlreadySo(b, k, on) && forall a :: a in answers ==> SaysNo(a)
  {
    RetriedIs(b, k, on, answers);
  }
}
