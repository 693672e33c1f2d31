/**
 * The inbound handset coordinator of one command station: the idle sweep, and
 * the dirty flag that decides when a presence snapshot is built. Times are in
 * milliseconds.
 */
module Coordinator {
  import opened Options
  import PairingModel

  const DEFAULT_IDLE_EVICT := 60_000
  const DEFAULT_STICKY_IDLE_EVICT := 259_200_000
  const MAX_BRAKE_WINDOW := 60_000

  type Key = string

  datatype Policy = Policy(
    idleEvict: int, stickyIdleEvict: int, ipStickiness: bool,
    heartbeatTimeout: int, minBrakeWindow: int, sweepKeepsPairing: bool)

  const DEFAULT_POLICY := Policy(DEFAULT_IDLE_EVICT, DEFAULT_STICKY_IDLE_EVICT, false, 0, 0, false)

  datatype Pairing = Pairing(user: nat, brakeSecs: nat)

  datatype Client = Client(protocol: string, lastSeen: int, idleBraked: bool, session: Option<Pairing>,
      heartbeatMonitor: bool)

  type Registry = map<Key, Client>
  type Policies = map<string, Policy>

  function PolicyFor(policies: Policies, protocol: string): Policy {
    if protocol in policies then policies[protocol] else DEFAULT_POLICY
  }

  /** What a sweep does to the outside world on behalf of one client. */
  datatype Deed = Brake | EStop | Unpair | Drop

  // ----- one client under the sweep -----

  function BrakeAfter(session: Pairing, policy: Policy): int {
    var secs := PairingModel.NormaliseBrakeSecs(session.brakeSecs) * 1000;
    if policy.minBrakeWindow > secs then policy.minBrakeWindow else secs
  }

  function EvictWindow(cl: Client, policy: Policy): int {
    if cl.session.Some? && policy.ipStickiness then policy.stickyIdleEvict else policy.idleEvict
  }

  predicate BrakeDue(cl: Client, policy: Policy, now: int) {
    cl.session.Some? && now - cl.lastSeen >= BrakeAfter(cl.session.value, policy)
  }

  predicate HeartbeatLost(cl: Client, policy: Policy, now: int) {
    policy.heartbeatTimeout > 0 && cl.session.Some? && cl.heartbeatMonitor
        && now - cl.lastSeen >= policy.heartbeatTimeout
  }

  predicate Overdue(cl: Client, policy: Policy, now: int) {
    now - cl.lastSeen >= EvictWindow(cl, policy)
  }

  /** What is left of a client after a sweep. */
  function Swept(cl: Client, policy: Policy, now: int): Option<Client> {
    if HeartbeatLost(cl, policy, now) || Overdue(cl, policy, now) then None
    else Some(cl.(idleBraked := cl.idleBraked || BrakeDue(cl, policy, now)))
  }

  function BrakeDeeds(cl: Client, policy: Policy, now: int): seq<Deed> {
    if BrakeDue(cl, policy, now) && !cl.idleBraked then [Brake] else []
  }

  function EndDeeds(cl: Client, policy: Policy, now: int): seq<Deed> {
    if HeartbeatLost(cl, policy, now) then [EStop, Drop]
    else if !Overdue(cl, policy, now) then []
    else if cl.session.Some? && policy.sweepKeepsPairing then [Drop]
    else [Unpair, Drop]
  }

  /** What the sweep does for a client, in order. */
  function Deeds(cl: Client, policy: Policy, now: int): seq<Deed> {
    BrakeDeeds(cl, policy, now) + EndDeeds(cl, policy, now)
  }

  function SweptRegistry(reg: Registry, policies: Policies, now: int): Registry {
    map k | k in reg && Swept(reg[k], PolicyFor(policies, reg[k].protocol), now).Some? ::
      Swept(reg[k], PolicyFor(policies, reg[k].protocol), now).value
  }

  /** What has been done for each client so far, in order. */
  type Log = map<Key, seq<Deed>>

  function DeedsOf(log: Log, key: Key): seq<Deed> {
    if key in log then log[key] else []
  }

  function Add(log: Log, key: Key, deeds: seq<Deed>): (r: Log)
    ensures Extends(log, r, key, deeds)
  {
    log[key := DeedsOf(log, key) + deeds]
  }

  /** The later log records these deeds for this client and nothing else. */
  ghost predicate Extends(log: Log, later: Log, key: Key, deeds: seq<Deed>) {
    forall k :: DeedsOf(later, k) == if k == key then DeedsOf(log, k) + deeds else DeedsOf(log, k)
  }

  lemma ExtendsTwice(log: Log, mid: Log, later: Log, key: Key, a: seq<Deed>, b: seq<Deed>)
    requires Extends(log, mid, key, a) && Extends(mid, later, key, b)
    ensures Extends(log, later, key, a + b)
  {
    assert DeedsOf(log, key) + a + b == DeedsOf(log, key) + (a + b);
  }

  // ----- the published view -----

  /** What a snapshot shows of a client besides its times. */
  datatype Presence = Presence(user: Option<nat>, idleBraked: bool)

  function PresenceOf(cl: Client): Presence {
    Presence(if cl.session.Some? then Some(cl.session.value.user) else None, cl.idleBraked)
  }

  function ViewOf(reg: Registry): map<Key, Presence> {
    map k | k in reg :: PresenceOf(reg[k])
  }

  class Coordinator {
    const policies: Policies
    const publishMin: int
    const hasPublisher: bool
    var registry: Registry
    var dirty: bool
    var lastPub: Option<int>
    var built: map<Key, Presence> // the last snapshot built
    var log: Log

    constructor (policies: Policies, publishMin: int, hasPublisher: bool)
      ensures this.policies == policies && this.publishMin == publishMin && this.hasPublisher == hasPublisher
      ensures registry == map[] && built == map[] && log == map[] && lastPub == None && !dirty
    {
      this.policies, this.publishMin, this.hasPublisher := policies, publishMin, hasPublisher;
      registry, built, log, lastPub, dirty := map[], map[], map[], None, false;
    }

    /**
     * No change of membership, pairing or idle brake is missing from the last snapshot unless the dirty flag says so.
     */
    predicate Tracked()
      reads this
    {
      !dirty ==> built == ViewOf(registry)
    }

    /** Whether a publish at this time is suppressed, or there is nobody to publish to. */
    predicate Withheld(now: int)
      reads this
    {
      !hasPublisher || (lastPub.Some? && now - lastPub.value < publishMin)
    }

    method MarkDirty()
      modifies this`dirty
      ensures dirty
    {
      dirty := true;
    }

    method PublishSnapshotThrottled(now: int)
      modifies this`dirty, this`lastPub, this`built
      ensures old(Tracked()) ==> Tracked()
      ensures (built, dirty, lastPub) ==
              if old(Withheld(now)) then old((built, dirty, lastPub)) else (ViewOf(registry), false, Some(now))
    {
      if !hasPublisher {
        return;
      }
      if lastPub.Some? && now - lastPub.value < publishMin {
        return;
      }
      lastPub := Some(now);
      built := ViewOf(registry);
      dirty := false;
    }

    method PublishSnapshot()
      modifies this`dirty, this`built
      ensures old(Tracked()) ==> Tracked()
      ensures (built, dirty) == if hasPublisher then (ViewOf(registry), false) else old((built, dirty))
    {
      if !hasPublisher {
        return;
      }
      built := ViewOf(registry);
      dirty := false;
    }

    method PublishIfDirty(now: int)
      modifies this`dirty, this`lastPub, this`built
      ensures old(Tracked()) ==> Tracked()
      ensures (built, dirty, lastPub) ==
              if hasPublisher && old(dirty) then (ViewOf(registry), false, Some(now)) else old((built, dirty, lastPub))
    {
      if !hasPublisher || !dirty {
        return;
      }
      lastPub := Some(now);
      built := ViewOf(registry);
      dirty := false;
    }

    predicate PairedAndBraked(key: Key)
      reads this
    {
      key in registry && registry[key].session.Some? && registry[key].idleBraked
    }

    method NoteActivity(key: Key, now: int)
      modifies this`registry, this`dirty, this`lastPub, this`built
      ensures old(Tracked()) ==> Tracked()
      ensures registry == if key in old(registry) && old(registry)[key].session.Some?
                          then old(registry)[key := old(registry)[key].(idleBraked := false)]
                          else old(registry)
      ensures (built, dirty, lastPub) ==
              if old(Withheld(now)) then (old(built), old(dirty) || old(PairedAndBraked(key)), old(lastPub))
              else (ViewOf(registry), false, Some(now))
    {
      if key in registry && registry[key].session.Some? && registry[key].idleBraked {
        registry := registry[key := registry[key].(idleBraked := false)];
        MarkDirty();
      }
      PublishSnapshotThrottled(now);
    }

    /**
     * What a gateway does on a packet: it clears the idle-brake mark itself, so that the coordinator finds nothing to
     * flag. The change is kept track of if and only if something else was flagged or the publish is not withheld.
     */
    method NoteClientActivity(key: Key, now: int)
      modifies this`registry, this`dirty, this`lastPub, this`built
      ensures registry == if key in old(registry) && old(registry)[key].session.Some?
                          then old(registry)[key := old(registry)[key].(idleBraked := false)]
                          else old(registry)
      ensures (built, dirty, lastPub) ==
              if old(Withheld(now)) then old((built, dirty, lastPub)) else (ViewOf(registry), false, Some(now))
      ensures old(Tracked() && PairedAndBraked(key)) ==> (Tracked() <==> old(dirty) || !old(Withheld(now)))
      ensures old(Tracked() && !PairedAndBraked(key)) ==> Tracked()
    {
      ghost var before := ViewOf(registry);
      if key in registry && registry[key].session.Some? && registry[key].idleBraked {
        registry := registry[key := registry[key].(idleBraked := false)];
        assert ViewOf(registry)[key] != before[key];
      }
      NoteActivity(key, now);
    }

    method DropPresence(key: Key, now: int)
      modifies this`registry, this`dirty, this`lastPub, this`built, this`log
      ensures registry == old(registry) - {key}
      ensures (built, dirty, lastPub) ==
              if old(Withheld(now)) then (old(built), true, old(lastPub)) else (ViewOf(registry), false, Some(now))
      ensures Extends(old(log), log, key, [Drop])
      ensures Tracked()
    {
      registry := registry - {key};
      log := Add(log, key, [Drop]);
      MarkDirty();
      PublishSnapshotThrottled(now);
    }

    method EvictClient(key: Key, now: int)
      modifies this`registry, this`dirty, this`lastPub, this`built, this`log
      ensures registry == old(registry) - {key}
      ensures (built, dirty, lastPub) ==
              if old(Withheld(now)) then (old(built), true, old(lastPub)) else (ViewOf(registry), false, Some(now))
      ensures Extends(old(log), log, key, [Unpair, Drop])
      ensures Tracked()
    {
      log := Add(log, key, [Unpair]);
      ghost var mid := log;
      DropPresence(key, now);
      ExtendsTwice(old(log), mid, log, key, [Unpair], [Drop]);
      assert [Unpair] + [Drop] == [Unpair, Drop];
    }

    /** The first half of the sweep's loop body: the idle brake. */
    method BrakeIfIdle(key: Key, cl: Client, policy: Policy, now: int)
      requires key in registry && registry[key] == cl
      modifies this`registry, this`dirty, this`log
      ensures dirty == (old(dirty) || BrakeDeeds(cl, policy, now) != [])
      ensures BrakeDeeds(cl, policy, now) == [] ==> registry == old(registry)
      ensures registry == old(registry)[key := cl.(idleBraked := cl.idleBraked || BrakeDue(cl, policy, now))]
      ensures Extends(old(log), log, key, BrakeDeeds(cl, policy, now))
    {
      var idle := now - cl.lastSeen;
      if cl.session.Some? {
        if idle >= BrakeAfter(cl.session.value, policy) && !cl.idleBraked {
          log := Add(log, key, [Brake]);
          registry := registry[key := registry[key].(idleBraked := true)];
          MarkDirty();
        }
      }
    }

    /** The second half: heartbeat stop, drop or evict. */
    method RemoveIfSilent(key: Key, cl: Client, policy: Policy, now: int)
      modifies this`registry, this`dirty, this`lastPub, this`built, this`log
      ensures (built, dirty, lastPub) ==
              if EndDeeds(cl, policy, now) == [] then old((built, dirty, lastPub))
              else if old(Withheld(now)) then (old(built), true, old(lastPub))
              else (ViewOf(registry), false, Some(now))
      ensures registry == if Swept(cl, policy, now).Some? then old(registry) else old(registry) - {key}
      ensures Extends(old(log), log, key, EndDeeds(cl, policy, now))
    {
      var idle := now - cl.lastSeen;
      if policy.heartbeatTimeout > 0 && cl.session.Some? && cl.heartbeatMonitor && idle >= policy.heartbeatTimeout {
        log := Add(log, key, [EStop]);
        ghost var mid := log;
        DropPresence(key, now);
        ExtendsTwice(old(log), mid, log, key, [EStop], [Drop]);
        assert [EStop] + [Drop] == [EStop, Drop];
        return;
      }
      if idle >= EvictWindow(cl, policy) {
        if cl.session.Some? && policy.sweepKeepsPairing {
          DropPresence(key, now);
          return;
        }
        EvictClient(key, now);
      }
    }

    method SweepClient(key: Key, cl: Client, now: int)
      requires key in registry && registry[key] == cl
      modifies this`registry, this`dirty, this`lastPub, this`built, this`log
      ensures var deeds := Deeds(cl, PolicyFor(policies, cl.protocol), now);
        if deeds == [] then (registry, built, dirty) == old((registry, built, dirty)) else Tracked()
      ensures var left := Swept(cl, PolicyFor(policies, cl.protocol), now);
        registry == if left.Some? then old(registry)[key := left.value] else old(registry) - {key}
      ensures Extends(old(log), log, key, Deeds(cl, PolicyFor(policies, cl.protocol), now))
    {
      var policy := PolicyFor(policies, cl.protocol);
      BrakeIfIdle(key, cl, policy, now);
      ghost var mid := log;
      RemoveIfSilent(key, cl, policy, now);
      ExtendsTwice(old(log), mid, log, key, BrakeDeeds(cl, policy, now), EndDeeds(cl, policy, now));
    }

    /** sweep: every client of the registry once, in any order, then a snapshot if anything changed. */
    method Sweep(now: int)
      modifies this`registry, this`dirty, this`lastPub, this`built, this`log
      ensures registry == SweptRegistry(old(registry), policies, now)
      ensures Tracked() <==> old(Tracked()) || AnyDeed(old(registry), policies, now, {})
      ensures hasPublisher ==>
                (built == ViewOf(registry) <==> old(Tracked()) || AnyDeed(old(registry), policies, now, {}))
      ensures forall k :: DeedsOf(log, k) == DeedsOf(old(log), k) + DeedsFor(old(registry), policies, now, k)
    {
      var snapshot := registry;
      var todo := snapshot.Keys;
      HalfSweptEnds(snapshot, policies, now);
      while todo != {}
        invariant todo <= snapshot.Keys
        invariant if AnyDeed(snapshot, policies, now, todo) then Tracked()
          else (registry, built, dirty) == old((registry, built, dirty))
        invariant registry == HalfSwept(snapshot, policies, now, todo)
        invariant HalfLogged(old(log), log, snapshot, policies, now, todo)
      {
        var key :| key in todo;
        HalfSweptStep(snapshot, policies, now, todo, key);
        ghost var before := log;
        SweepClient(key, snapshot[key], now);
        DeedsStep(old(log), before, log, snapshot, policies, now, todo, key);
        AnyDeedStep(snapshot, policies, now, todo, key);
        todo := todo - {key};
      }
      PublishIfDirty(now);
    }
  }

  ghost predicate HalfLogged(log: Log, later: Log, reg: Registry, policies: Policies, now: int, todo: set<Key>) {
    forall k :: DeedsOf(later, k) == DeedsOf(log, k) + if k in todo then [] else DeedsFor(reg, policies, now, k)
  }

  lemma DeedsStep(log: Log, before: Log, later: Log, reg: Registry, policies: Policies, now: int,
      todo: set<Key>, key: Key)
    requires HalfLogged(log, before, reg, policies, now, todo) && key in todo && key in reg
    requires Extends(before, later, key, DeedsFor(reg, policies, now, key))
    ensures HalfLogged(log, later, reg, policies, now, todo - {key})
  {
  }

  lemma HalfSweptEnds(reg: Registry, policies: Policies, now: int)
    ensures HalfSwept(reg, policies, now, reg.Keys) == reg
    ensures HalfSwept(reg, policies, now, {}) == SweptRegistry(reg, policies, now)
  {
    assert HalfSwept(reg, policies, now, reg.Keys) == reg;
    assert HalfSwept(reg, policies, now, {}) == SweptRegistry(reg, policies, now);
  }

  lemma HalfSweptStep(reg: Registry, policies: Policies, now: int, todo: set<Key>, key: Key)
    requires key in todo && key in reg
    ensures var half := HalfSwept(reg, policies, now, todo);
      var left := Swept(reg[key], PolicyFor(policies, reg[key].protocol), now);
      && key in half && half[key] == reg[key]
      && HalfSwept(reg, policies, now, todo - {key}) == if left.Some? then half[key := left.value] else half - {key}
  {
    var half := HalfSwept(reg, policies, now, todo);
    var left := Swept(reg[key], PolicyFor(policies, reg[key].protocol), now);
    assert HalfSwept(reg, policies, now, todo - {key}) == if left.Some? then half[key := left.value] else half - {key};
  }

  /** The registry when the sweep has still to look at the keys in todo. */
  function HalfSwept(reg: Registry, policies: Policies, now: int, todo: set<Key>): Registry {
    map k | k in reg && (k in todo || Swept(reg[k], PolicyFor(policies, reg[k].protocol), now).Some?) ::
      if k in todo then reg[k] else Swept(reg[k], PolicyFor(policies, reg[k].protocol), now).value
  }

  /** The sweep brakes, stops or removes some client other than those still to do. */
  ghost predicate AnyDeed(reg: Registry, policies: Policies, now: int, todo: set<Key>) {
    exists k :: k in reg && k !in todo && DeedsFor(reg, policies, now, k) != []
  }

  lemma AnyDeedStep(reg: Registry, policies: Policies, now: int, todo: set<Key>, key: Key)
    requires key in reg && key in todo
    ensures AnyDeed(reg, policies, now, todo - {key})
       <==> AnyDeed(reg, policies, now, todo) || DeedsFor(reg, policies, now, key) != []
  {
    if AnyDeed(reg, policies, now, todo) {
      var k :| k in reg && k !in todo && DeedsFor(reg, policies, now, k) != [];
      assert k !in todo - {key};
    } else if DeedsFor(reg, policies, now, key) != [] {
      assert key !in todo - {key};
    } else {
      forall k | k in reg && k !in todo - {key} ensures DeedsFor(reg, policies, now, k) == [] {
        assert k == key || k !in todo;
      }
    }
  }

  function DeedsFor(reg: Registry, policies: Policies, now: int, k: Key): seq<Deed> {
    if k in reg then Deeds(reg[k], PolicyFor(policies, reg[k].protocol), now) else []
  }
}
