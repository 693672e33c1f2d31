/** What the idle sweep guarantees: completeness, one brake per idle period, and no silent drop. */
module SweepProofs {
  import opened Options
  import opened Coordinator

  /**
   * After a sweep every remaining client is inside its windows, a paired one past its brake window is marked, and
   * nothing else about it changed; and a client is gone just when one of its windows had passed.
   */
  lemma SweepComplete(reg: Registry, policies: Policies, now: int, k: Key)
    requires k in reg
    ensures var cl := reg[k];
      var policy := PolicyFor(policies, cl.protocol);
      var after := SweptRegistry(reg, policies, now);
      && (k in after <==> now - cl.lastSeen < EvictWindow(cl, policy) && !HeartbeatLost(cl, policy, now))
      && (k in after ==>
            && (BrakeDue(after[k], policy, now) ==> after[k].idleBraked)
            && after[k].(idleBraked := cl.idleBraked) == cl
            && (after[k].idleBraked && !cl.idleBraked ==> Brake in Deeds(cl, policy, now)))
  {
    var cl := reg[k];
    var policy := PolicyFor(policies, cl.protocol);
    if BrakeDue(cl, policy, now) && !cl.idleBraked {
      assert Deeds(cl, policy, now)[0] == Brake;
    }
  }

  /** The policy that a protocol has, or the default one. */
  predicate HasPolicy(policies: Policies, protocol: string, p: Policy) {
    if protocol in policies then p == policies[protocol] else p == Policy(60_000, 259_200_000, false, 0, 0, false)
  }

  /**
   * An unpaired client stays, as it is, while it has been silent for less than the eviction time of its protocol,
   * whatever the stickiness, and is then evicted; it is never braked or stopped.
   */
  lemma UnpairedSwept(reg: Registry, policies: Policies, now: int, k: Key, p: Policy)
    requires k in reg && reg[k].session.None? && HasPolicy(policies, reg[k].protocol, p)
    ensures var after, stays := SweptRegistry(reg, policies, now), now - reg[k].lastSeen < p.idleEvict;
      && (k in after <==> stays) && (stays ==> after[k] == reg[k])
      && DeedsFor(reg, policies, now, k) == if stays then [] else [Unpair, Drop]
  {
  }

  /**
   * A paired client is braked once it has been silent for its own brake time, within 6 to 60 seconds, and for the
   * protocol's minimum; it is stopped and dropped when its heartbeat is monitored and lost; and otherwise it stays
   * while it has been silent for less than the sticky or plain eviction time, to be dropped with or without its
   * pairing.
   */
  lemma PairedSwept(reg: Registry, policies: Policies, now: int, k: Key, p: Policy)
    requires k in reg && reg[k].session.Some? && HasPolicy(policies, reg[k].protocol, p)
    ensures var after, cl, idle := SweptRegistry(reg, policies, now), reg[k], now - reg[k].lastSeen;
      var secs := cl.session.value.brakeSecs;
      var asked := if secs <= 6 then 6_000 else if secs <= 60 then secs * 1_000 else 60_000;
      var idles := idle >= asked && idle >= p.minBrakeWindow;
      var lost := p.heartbeatTimeout > 0 && cl.heartbeatMonitor && idle >= p.heartbeatTimeout;
      var window := if p.ipStickiness then p.stickyIdleEvict else p.idleEvict;
      && (k in after <==> !lost && idle < window)
      && (k in after ==> after[k] == cl.(idleBraked := cl.idleBraked || idles))
      && DeedsFor(reg, policies, now, k) ==
         (if idles && !cl.idleBraked then [Brake] else [])
         + (if lost then [EStop, Drop]
            else if idle < window then []
            else if p.sweepKeepsPairing then [Drop]
            else [Unpair, Drop])
  {
  }

  /** A snapshot shows a client exactly while it is connected, with its pairing's user and its brake mark. */
  lemma ShownAsIs(reg: Registry, k: Key)
    ensures var v := ViewOf(reg);
      && (k in v <==> k in reg)
      && (k in reg ==>
            && v[k].idleBraked == reg[k].idleBraked
            && v[k].user == if reg[k].session.None? then None else Some(reg[k].session.value.user))
  {
  }

  // ----- no silent drop -----

  /** The policy lets every paired client meet its brake window before its eviction window. */
  predicate BrakesFirst(policy: Policy) {
    var window := if policy.ipStickiness then policy.stickyIdleEvict else policy.idleEvict;
    window >= MAX_BRAKE_WINDOW && window >= policy.minBrakeWindow
  }

  predicate Silent(cl: Client, policy: Policy, now: int) {
    && cl.session.Some? && Swept(cl, policy, now).None?
    && !cl.idleBraked && Brake !in Deeds(cl, policy, now) && EStop !in Deeds(cl, policy, now)
  }

  /** Exactly then no sweep drops a paired client that was neither braked before nor is braked or stopped by it. */
  lemma NeverDroppedSilentlyIff(policy: Policy)
    ensures BrakesFirst(policy) <==> forall cl, now :: !Silent(cl, policy, now)
  {
    if BrakesFirst(policy) {
      forall cl: Client, now: int ensures !Silent(cl, policy, now) {
        if cl.session.Some? && Swept(cl, policy, now).None? && !cl.idleBraked {
          if BrakeDue(cl, policy, now) {
            assert Deeds(cl, policy, now)[0] == Brake;
          } else {
            assert Deeds(cl, policy, now)[0] == EStop;
          }
        }
      }
    } else {
      var cl := Client("", 0, false, Some(Pairing(0, 60)), false);
      assert Silent(cl, policy, EvictWindow(cl, policy));
    }
  }

  // ----- one client's life -----

  /** What can happen to one client of the registry. */
  datatype Event =
    | SweepAt(now: int)
    | Note(now: int) // a packet: LastSeen moves and the activity is noted
    | Session(session: Option<Pairing>)
    | Monitor(on: bool)
    | Leave
    | Connect(protocol: string, now: int)

  function Live(cl: Option<Client>, e: Event, policies: Policies): Option<Client> {
    match e
    case SweepAt(now) => if cl.Some? then Swept(cl.value, PolicyFor(policies, cl.value.protocol), now) else None
    case Note(now) =>
      if cl.None? then None
      else Some(cl.value.(lastSeen := now, idleBraked := cl.value.idleBraked && cl.value.session.None?))
    case Session(session) => if cl.None? then None else Some(cl.value.(session := session))
    case Monitor(on) => if cl.None? then None else Some(cl.value.(heartbeatMonitor := on))
    case Leave => None
    case Connect(protocol, now) => if cl.Some? then cl else Some(Client(protocol, now, false, None, false))
  }

  function LiveTo(cl: Option<Client>, es: seq<Event>, policies: Policies): Option<Client> {
    if es == [] then cl else Live(LiveTo(cl, es[..|es| - 1], policies), es[|es| - 1], policies)
  }

  function EventDeeds(cl: Option<Client>, e: Event, policies: Policies): seq<Deed> {
    if e.SweepAt? && cl.Some? then Deeds(cl.value, PolicyFor(policies, cl.value.protocol), e.now) else []
  }

  function Brakes(cl: Option<Client>, es: seq<Event>, policies: Policies): nat {
    if es == [] then 0 else
      var before := es[..|es| - 1];
      Brakes(cl, before, policies) + if Brake in EventDeeds(LiveTo(cl, before, policies), es[|es| - 1], policies)
          then 1 else 0
  }

  /**
   * Between two activity notes, and while it stays connected, a client is braked at most once, and not at all when
   * already marked.
   */
  lemma {:induction false} BrakedAtMostOnce(cl: Option<Client>, es: seq<Event>, policies: Policies)
    requires forall e :: e in es ==> !e.Note? && !e.Connect?
    ensures Brakes(cl, es, policies) <= if cl.Some? && !cl.value.idleBraked then 1 else 0
    ensures var last := LiveTo(cl, es, policies);
      last.Some? ==> cl.Some? && (last.value.idleBraked <==> cl.value.idleBraked || Brakes(cl, es, policies) == 1)
  {
    if es != [] {
      var before, e := es[..|es| - 1], es[|es| - 1];
      BrakedAtMostOnce(cl, before, policies);
      var mid := LiveTo(cl, before, policies);
      if e.SweepAt? && mid.Some? {
        var policy := PolicyFor(policies, mid.value.protocol);
        if BrakeDue(mid.value, policy, e.now) && !mid.value.idleBraked {
          assert Deeds(mid.value, policy, e.now)[0] == Brake;
        }
      }
    }
  }

  /** Whether the sweeps braked or stopped the client since its last packet, or since it connected. */
  function Acted(es: seq<Event>, policies: Policies): bool {
    if es == [] then false else
      var before, e := es[..|es| - 1], es[|es| - 1];
      var mid := LiveTo(None, before, policies);
      if e.Note? || (e.Connect? && mid.None?) then false
      else Acted(before, policies) || Brake in EventDeeds(mid, e, policies) || EStop in EventDeeds(mid, e, policies)
  }

  /** Whether its last packet found it braked and, since it was not paired then, left the mark standing. */
  function Carried(es: seq<Event>, policies: Policies): bool {
    if es == [] then false else
      var before, e := es[..|es| - 1], es[|es| - 1];
      var mid := LiveTo(None, before, policies);
      if e.Note? then mid.Some? && mid.value.idleBraked && mid.value.session.None?
      else if e.Connect? && mid.None? then false
      else Carried(before, policies)
  }

  /**
   * A connected client is marked just when it was braked since its last packet, or carries an older mark; never both.
   */
  lemma {:induction false} MarkExplained(es: seq<Event>, policies: Policies)
    requires LiveTo(None, es, policies).Some?
    ensures LiveTo(None, es, policies).value.idleBraked <==> Acted(es, policies) || Carried(es, policies)
    ensures !(Acted(es, policies) && Carried(es, policies))
  {
    if es != [] {
      var before, e := es[..|es| - 1], es[|es| - 1];
      var mid := LiveTo(None, before, policies);
      if mid.Some? {
        MarkExplained(before, policies);
        if e.SweepAt? {
          SurvivingDeeds(mid.value, PolicyFor(policies, mid.value.protocol), e.now);
        }
      }
    }
  }

  /** The sweep brakes a client that it keeps just when that marks it, and never stops it. */
  lemma SurvivingDeeds(cl: Client, policy: Policy, now: int)
    ensures Brake in Deeds(cl, policy, now) <==> BrakeDue(cl, policy, now) && !cl.idleBraked
    ensures EStop in Deeds(cl, policy, now) <==> HeartbeatLost(cl, policy, now)
  {
    var deeds := Deeds(cl, policy, now);
    if BrakeDue(cl, policy, now) && !cl.idleBraked {
      assert deeds[0] == Brake;
    }
    if HeartbeatLost(cl, policy, now) {
      assert deeds[|deeds| - 2] == EStop;
    }
  }

  /**
   * Over every life of a client whose policy brakes first: a sweep that drops it while paired comes after, or brings,
   * a brake or stop since its last packet, if and only if that packet did not leave an old mark standing, or the
   * sweep stops it for its lost heartbeat.
   */
  lemma NeverDroppedUnbrakedIff(es: seq<Event>, now: int, policies: Policies)
    requires var cl := LiveTo(None, es, policies);
      cl.Some? && cl.value.session.Some? && BrakesFirst(PolicyFor(policies, cl.value.protocol))
          && Live(cl, SweepAt(now), policies).None?
    ensures var cl := LiveTo(None, es, policies).value;
      Acted(es + [SweepAt(now)], policies)
      <==> !Carried(es, policies) || HeartbeatLost(cl, PolicyFor(policies, cl.protocol), now)
  {
    var cl := LiveTo(None, es, policies).value;
    assert (es + [SweepAt(now)])[..|es|] == es;
    MarkExplained(es, policies);
    SurvivingDeeds(cl, PolicyFor(policies, cl.protocol), now);
  }

  /**
   * The failing case happens under the default policy: a handset is braked, unpaired, sends a packet, is paired
   * again, falls silent, and is evicted a minute later although nothing stopped the new user's locos.
   */
  lemma RepairedHandsetDroppedUnbraked(protocol: string)
    ensures var es := [Connect(protocol, 0), Session(Some(Pairing(1, 6))), SweepAt(6_000), Session(None), Note(7_000),
                       Session(Some(Pairing(2, 6)))];
      var cl := LiveTo(None, es, map[]);
      && BrakesFirst(DEFAULT_POLICY) && cl.Some? && cl.value.session == Some(Pairing(2, 6))
      && Live(cl, SweepAt(67_000), map[]).None? && Deeds(cl.value, DEFAULT_POLICY, 67_000) == [Unpair, Drop]
      && !Acted(es + [SweepAt(67_000)], map[])
  {
    var es := [Connect(protocol, 0), Session(Some(Pairing(1, 6))), SweepAt(6_000), Session(None), Note(7_000),
               Session(Some(Pairing(2, 6)))];
    var c1 := Client(protocol, 0, false, None, false);
    var c2 := c1.(session := Some(Pairing(1, 6)));
    var c3 := c2.(idleBraked := true);
    assert LiveTo(None, es[..1], map[]) == Some(c1) by { assert es[..1][..0] == []; }
    assert LiveTo(None, es[..2], map[]) == Some(c2) by { assert es[..2][..1] == es[..1]; }
    assert LiveTo(None, es[..3], map[]) == Some(c3) by { assert es[..3][..2] == es[..2]; }
    assert LiveTo(None, es[..4], map[]) == Some(c3.(session := None)) by { assert es[..4][..3] == es[..3]; }
    assert LiveTo(None, es[..5], map[]) == Some(c3.(session := None, lastSeen := 7_000))
        by { assert es[..5][..4] == es[..4]; }
    assert es[..6] == es && es[..|es| - 1] == es[..5];
    assert Carried(es[..5], map[]) by { assert es[..5][..4] == es[..4]; }
    NeverDroppedUnbrakedIff(es, 67_000, map[]);
  }
}
