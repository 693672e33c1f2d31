/** Emergency stops of several locos, as the daemon makes them one after the other. */
module EStop {
  import opened Options

  type Addr = nat
  type User = nat

  /** The cached state of a loco; sourced says that some source is recorded, and at is the time of the last change. */
  datatype Loco = Loco(speed: nat, forward: bool, user: User, sourced: bool, at: nat)

  /** The cache, and the locos that the station is really driving faster than speed step 1. */
  datatype State = State(store: map<Addr, Loco>, moving: set<Addr>)

  datatype Reply = Stopped | Superseded | Error

  function Snapshot(s: State, a: Addr): Loco {
    if a in s.store then s.store[a] else Loco(0, true, 0, false, 0)
  }

  predicate Unknown(l: Loco) {
    !l.sourced && l.at == 0 && l.speed == 0
  }

  predicate ShouldStop(s: State, a: Addr, movingOnly: bool) {
    var l := Snapshot(s, a);
    if Unknown(l) then !movingOnly
    else if movingOnly then l.speed > 1
    else l.speed != 0
  }

  /** SetSpeed to zero for a user, or SetSpeedPreservingUser. */
  function Zeroed(s: State, a: Addr, user: Option<User>, now: nat): State {
    var l := Snapshot(s, a);
    s.(store := s.store[a := Loco(0, l.forward, if user.Some? then user.value else l.user, true, now)])
  }

  /** What the station does on a stop command. */
  function Commanded(s: State, a: Addr, reply: Reply): State {
    if reply.Stopped? then s.(moving := s.moving - {a}) else s
  }

  /**
   * Which stops one operation makes: only for locos on a layout, only for moving ones; for whom; and the locos whose
   * dead-man functions go off when they are stopped.
   */
  datatype Rules = Rules(layout: Option<set<Addr>>, movingOnly: bool, user: Option<User>, deadMan: set<Addr>, now: nat)

  predicate Wanted(s: State, a: Addr, r: Rules) {
    (r.layout.Some? ==> a in r.layout.value) && ShouldStop(s, a, r.movingOnly)
  }

  function StopOne(s: State, a: Addr, reply: Reply, r: Rules): State {
    if !Wanted(s, a, r) then s
    else if reply.Stopped? then Zeroed(Commanded(s, a, reply), a, r.user, r.now)
    else s
  }

  datatype Outcome = Outcome(state: State, sent: seq<Addr>, affected: seq<Addr>, alerted: seq<Addr>)

  /** replies[i] is what the station would say to a stop of addrs[i]. */
  function StopAll(s: State, addrs: seq<Addr>, replies: seq<Reply>, r: Rules): Outcome
    requires |addrs| == |replies|
  {
    if addrs == [] then Outcome(s, [], [], []) else
      var n := |addrs| - 1;
      var before := StopAll(s, addrs[..n], replies[..n], r);
      var wanted := Wanted(before.state, addrs[n], r);
      Outcome(
        StopOne(before.state, addrs[n], replies[n], r),
        before.sent + (if wanted then [addrs[n]] else []),
        before.affected + (if wanted && replies[n].Stopped? then [addrs[n]] else []),
        before.alerted + if wanted && replies[n].Stopped? && addrs[n] in r.deadMan then [addrs[n]] else [])
  }

  /**
   * The radio stop of everything on the roster: no questions asked, and an error does not keep the cache from being
   * zeroed.
   */
  function StopEverything(s: State, addrs: seq<Addr>, replies: seq<Reply>, now: nat): State
    requires |addrs| == |replies|
  {
    if addrs == [] then s else
      var n := |addrs| - 1;
      var before := Commanded(StopEverything(s, addrs[..n], replies[..n], now), addrs[n], replies[n]);
      if replies[n].Superseded? then before else Zeroed(before, addrs[n], None, now)
  }

  class Daemon {
    var store: map<Addr, Loco>
    var moving: set<Addr>
    var sent: seq<Addr>
    var alerted: seq<Addr> // whose dead-man functions have been set off
    var audits: seq<seq<Addr>>

    function Value(): State
      reads this
    {
      State(store, moving)
    }

    /** emergencyStopLoco. */
    method EmergencyStopLoco(a: Addr, reply: Reply)
      modifies this`moving, this`sent
      ensures Value() == Commanded(old(Value()), a, reply)
      ensures sent == old(sent) + [a]
    {
      sent := sent + [a];
      if reply.Stopped? {
        moving := moving - {a};
      }
    }

    method ZeroSpeed(a: Addr, user: Option<User>, now: nat)
      modifies this`store
      ensures Value() == Zeroed(old(Value()), a, user, now)
    {
      var l := Snapshot(Value(), a);
      store := store[a := Loco(0, l.forward, if user.Some? then user.value else l.user, true, now)];
    }

    /** The loop of applyEmergencyStop and of applyEStopTarget. */
    method StopLoop(addrs: seq<Addr>, replies: seq<Reply>, r: Rules) returns (affected: seq<Addr>)
      requires |addrs| == |replies|
      modifies this`store, this`moving, this`sent, this`alerted
      ensures var o := StopAll(old(Value()), addrs, replies, r);
        Value() == o.state && sent == old(sent) + o.sent
        && affected == o.affected && alerted == old(alerted) + o.alerted
    {
      affected := [];
      for i := 0 to |addrs|
        invariant var o := StopAll(old(Value()), addrs[..i], replies[..i], r);
          Value() == o.state && sent == old(sent) + o.sent
          && affected == o.affected && alerted == old(alerted) + o.alerted
      {
        assert addrs[..i + 1][..i] == addrs[..i] && replies[..i + 1][..i] == replies[..i];
        var a := addrs[i];
        if (r.layout.Some? && a !in r.layout.value) || !ShouldStop(Value(), a, r.movingOnly) {
          continue;
        }
        EmergencyStopLoco(a, replies[i]);
        if !replies[i].Stopped? {
          continue;
        }
        affected := affected + [a];
        ZeroSpeed(a, r.user, r.now);
        if a in r.deadMan {
          alerted := alerted + [a];
        }
      }
      assert addrs[..|addrs|] == addrs && replies[..|addrs|] == replies;
    }

    /** Stops, and an audit record if there were any. */
    method ApplyStops(addrs: seq<Addr>, replies: seq<Reply>, r: Rules)
      requires |addrs| == |replies|
      modifies this
      ensures var o := StopAll(old(Value()), addrs, replies, r);
        Value() == o.state && sent == old(sent) + o.sent && alerted == old(alerted) + o.alerted
        && audits == if o.affected == [] then old(audits) else old(audits) + [o.affected]
    {
      var affected := StopLoop(addrs, replies, r);
      if |affected| == 0 {
        return;
      }
      audits := audits + [affected];
    }

    /** applyEStopAll. */
    method ApplyEStopAll(addrs: seq<Addr>, replies: seq<Reply>, now: nat)
      requires |addrs| == |replies|
      modifies this
      ensures Value() == StopEverything(old(Value()), addrs, replies, now)
      ensures sent == old(sent) + addrs && audits == old(audits) + [addrs] && alerted == old(alerted)
    {
      for i := 0 to |addrs|
        invariant Value() == StopEverything(old(Value()), addrs[..i], replies[..i], now)
        invariant sent == old(sent) + addrs[..i] && audits == old(audits) && alerted == old(alerted)
      {
        assert addrs[..i + 1][..i] == addrs[..i] && replies[..i + 1][..i] == replies[..i];
        EmergencyStopLoco(addrs[i], replies[i]);
        if replies[i].Superseded? {
          continue;
        }
        ZeroSpeed(addrs[i], None, now);
      }
      assert addrs[..|addrs|] == addrs && replies[..|addrs|] == replies;
      audits := audits + [addrs];
    }

    /** The brake for a handset that has gone idle: collect its locos, stop the moving ones. */
    method ApplyHandsetIdleBrake(user: User, subscribed: seq<Addr>, scope: seq<Addr>, replies: map<Addr, Reply>,
                                 deadMan: set<Addr>, now: nat)
      requires forall a :: a in subscribed || a in scope ==> a in replies
      modifies this
      // every target is slow afterwards, unless the station refused
      ensures forall a :: IsTarget(old(Value()), user, subscribed, scope, a) ==>
                Snapshot(Value(), a).speed <= 1 || !replies[a].Stopped?
      // those stopped are put down to the user, with speed zero and their direction
      ensures forall a :: IsTarget(old(Value()), user, subscribed, scope, a) && replies[a].Stopped?
                          && Snapshot(old(Value()), a).speed > 1 ==>
                Snapshot(Value(), a) == Standing(Snapshot(old(Value()), a), Some(user), now) && a !in moving
      // the commands sent are for the moving targets, one each
      ensures old(sent) <= sent && NoRepeats(sent[|old(sent)|..])
      ensures forall a :: a in sent[|old(sent)|..] <==>
                IsTarget(old(Value()), user, subscribed, scope, a) && Snapshot(old(Value()), a).speed > 1
      // the dead-man functions of those stopped go off, once each
      ensures old(alerted) <= alerted && NoRepeats(alerted[|old(alerted)|..])
      ensures forall a :: a in alerted[|old(alerted)|..] <==>
                a in sent[|old(sent)|..] && a in replies && replies[a].Stopped? && a in deadMan
      // and nothing else changes
      ensures forall a :: a !in sent[|old(sent)|..] || (a in replies && !replies[a].Stopped?) ==>
                Snapshot(Value(), a) == Snapshot(old(Value()), a) && (a in moving <==> a in old(moving))
    {
      var addrs := CollectHandsetDriveTargets(Value(), user, subscribed, scope);
      if |addrs| == 0 {
        return;
      }
      assert forall a :: a in addrs ==> a in replies;
      var rs := seq(|addrs|, i requires 0 <= i < |addrs| && addrs[i] in replies => replies[addrs[i]]);
      var r := Rules(None, true, Some(user), deadMan, now);
      ghost var s := Value();
      ApplyStops(addrs, rs, r);
      ghost var o := StopAll(s, addrs, rs, r);
      assert sent[|old(sent)|..] == o.sent && alerted[|old(alerted)|..] == o.alerted;
      OneStopEach(s, addrs, rs, r);
      forall a
        ensures a in o.alerted <==> a in o.sent && a in replies && replies[a].Stopped? && a in deadMan
        ensures a in addrs ==> Snapshot(Value(), a).speed <= 1 || !replies[a].Stopped?
        ensures a in addrs && replies[a].Stopped? && Snapshot(s, a).speed > 1 ==>
                  Snapshot(Value(), a) == Standing(Snapshot(s, a), Some(user), now) && a !in moving
        ensures a !in o.sent || (a in replies && !replies[a].Stopped?) ==>
                  Snapshot(Value(), a) == Snapshot(s, a) && (a in moving <==> a in s.moving)
      {
        if a in addrs {
          var i :| 0 <= i < |addrs| && addrs[i] == a;
          EachDecided(s, addrs, rs, r, i);
          EachListed(s, addrs, rs, r, i);
        } else {
          OthersUntouched(s, addrs, rs, r, a);
        }
      }
    }
  }

  // ----- targets of the idle brake -----

  predicate Controlled(s: State, user: User, a: Addr) {
    var l := Snapshot(s, a);
    !Unknown(l) && l.user == user && l.speed > 0
  }

  predicate IsTarget(s: State, user: User, subscribed: seq<Addr>, scope: seq<Addr>, a: Addr) {
    a in subscribed || (a in scope && a in s.store && s.store[a].user == user && s.store[a].speed > 0)
  }

  ghost predicate NoRepeats(list: seq<Addr>) {
    forall i, j :: 0 <= i < j < |list| ==> list[i] != list[j]
  }

  /** collectHandsetDriveTargets; scope is the roster for a handset allowed everything, else its list of addresses. */
  method CollectHandsetDriveTargets(s: State, user: User, subscribed: seq<Addr>, scope: seq<Addr>)
    returns (addrs: seq<Addr>)
    ensures NoRepeats(addrs)
    ensures forall a :: a in addrs <==> IsTarget(s, user, subscribed, scope, a)
  {
    addrs := [];
    var seen: set<Addr> := {};
    for i := 0 to |subscribed|
      invariant NoRepeats(addrs)
      invariant forall a :: a in seen <==> a in addrs
      invariant forall a :: a in addrs <==> a in subscribed[..i]
    {
      if subscribed[i] !in seen {
        seen := seen + {subscribed[i]};
        addrs := addrs + [subscribed[i]];
      }
    }
    for i := 0 to |scope|
      invariant NoRepeats(addrs)
      invariant forall a :: a in seen <==> a in addrs
      invariant forall a :: a in addrs <==> IsTarget(s, user, subscribed, scope[..i], a)
    {
      if Controlled(s, user, scope[i]) && scope[i] !in seen {
        seen := seen + {scope[i]};
        addrs := addrs + [scope[i]];
      }
    }
    assert scope[..|scope|] == scope;
  }

  // ----- what a round of stops does -----

  /** Locos that are not on the list are left alone. */
  lemma {:induction false} OthersUntouched(s: State, addrs: seq<Addr>, replies: seq<Reply>, r: Rules, a: Addr)
    requires |addrs| == |replies| && a !in addrs
    ensures var o := StopAll(s, addrs, replies, r);
      Snapshot(o.state, a) == Snapshot(s, a) && (a in o.state.moving <==> a in s.moving)
      && a !in o.sent && a !in o.affected && a !in o.alerted
  {
    if addrs != [] {
      var n := |addrs| - 1;
      OthersUntouched(s, addrs[..n], replies[..n], r, a);
    }
  }

  /**
   * The loco is on the layout asked for, and moves faster than step 1; or, when all are to be stopped, is not known to
   * stand: its speed is not zero, or nothing was ever recorded of it.
   */
  predicate ToStop(s: State, a: Addr, r: Rules) {
    var l := Snapshot(s, a);
    && (r.layout.None? || a in r.layout.value)
    && if r.movingOnly then l.speed > 1 else l.speed > 0 || (!l.sourced && l.at == 0)
  }

  /** The loco with speed zero, in the direction it had, under the given user or its own. */
  function Standing(l: Loco, user: Option<User>, now: nat): Loco {
    Loco(0, l.forward, if user.Some? then user.value else l.user, true, now)
  }

  /**
   * On a list without repeats each loco is judged by its state beforehand, and stopped if wanted and if the station
   * agrees.
   */
  lemma {:induction false} EachDecided(s: State, addrs: seq<Addr>, replies: seq<Reply>, r: Rules, i: nat)
    requires |addrs| == |replies| && i < |addrs| && NoRepeats(addrs)
    ensures var o, a := StopAll(s, addrs, replies, r), addrs[i];
      if ToStop(s, a, r) && replies[i].Stopped?
      then Snapshot(o.state, a) == Standing(Snapshot(s, a), r.user, r.now) && a !in o.state.moving
      else Snapshot(o.state, a) == Snapshot(s, a) && (a in o.state.moving <==> a in s.moving)
  {
    var n := |addrs| - 1;
    if i < n {
      EachDecided(s, addrs[..n], replies[..n], r, i);
      assert addrs[n] != addrs[i];
    } else {
      assert addrs[n] !in addrs[..n];
      OthersUntouched(s, addrs[..n], replies[..n], r, addrs[n]);
      WantedIff(s, StopAll(s, addrs[..n], replies[..n], r).state, addrs[n], r);
    }
  }

  lemma WantedIff(s: State, t: State, a: Addr, r: Rules)
    requires Snapshot(t, a) == Snapshot(s, a)
    ensures Wanted(t, a, r) <==> ToStop(s, a, r)
  {
  }

  /** It gets a command if wanted, counts as affected if the station agrees, and then its dead-man functions go off. */
  lemma {:induction false} EachListed(s: State, addrs: seq<Addr>, replies: seq<Reply>, r: Rules, i: nat)
    requires |addrs| == |replies| && i < |addrs| && NoRepeats(addrs)
    ensures var o, a := StopAll(s, addrs, replies, r), addrs[i];
      && (a in o.sent <==> ToStop(s, a, r))
      && (a in o.affected <==> ToStop(s, a, r) && replies[i].Stopped?)
      && (a in o.alerted <==> ToStop(s, a, r) && replies[i].Stopped? && a in r.deadMan)
  {
    var n := |addrs| - 1;
    if i < n {
      EachListed(s, addrs[..n], replies[..n], r, i);
      assert addrs[n] != addrs[i];
    } else {
      assert addrs[n] !in addrs[..n];
      OthersUntouched(s, addrs[..n], replies[..n], r, addrs[n]);
      WantedIff(s, StopAll(s, addrs[..n], replies[..n], r).state, addrs[n], r);
    }
  }

  /** On such a list exactly the wanted locos get a command, one each. */
  lemma {:induction false} OneStopEach(s: State, addrs: seq<Addr>, replies: seq<Reply>, r: Rules)
    requires |addrs| == |replies| && NoRepeats(addrs)
    ensures var o := StopAll(s, addrs, replies, r);
      && NoRepeats(o.sent) && NoRepeats(o.alerted)
      && (forall a :: a in o.sent <==> a in addrs && ToStop(s, a, r))
  {
    if addrs != [] {
      var n := |addrs| - 1;
      OneStopEach(s, addrs[..n], replies[..n], r);
      assert addrs[n] !in addrs[..n];
      OthersUntouched(s, addrs[..n], replies[..n], r, addrs[n]);
      assert addrs == addrs[..n] + [addrs[n]];
    }
  }

  /**
   * An idle brake repeated after one to which the station agreed throughout sends nothing, whatever it is then asked
   * to look at among the same locos.
   */
  lemma RepeatedBrakeIsQuiet(s: State, addrs: seq<Addr>, replies: seq<Reply>, r: Rules,
                             again: seq<Addr>, replies2: seq<Reply>, r2: Rules)
    requires |addrs| == |replies| && NoRepeats(addrs) && r.layout.None? && r.movingOnly
    requires |again| == |replies2| && NoRepeats(again) && r2.movingOnly
    requires forall reply :: reply in replies ==> reply.Stopped?
    requires forall a :: a in again ==> a in addrs
    ensures var t := StopAll(s, addrs, replies, r).state;
      StopAll(t, again, replies2, r2) == Outcome(t, [], [], [])
  {
    var t := StopAll(s, addrs, replies, r).state;
    forall a | a in again ensures !Wanted(t, a, r2) {
      var i :| 0 <= i < |addrs| && addrs[i] == a;
      EachDecided(s, addrs, replies, r, i);
      assert replies[i] in replies;
    }
    NothingWanted(t, again, replies2, r2);
  }

  ghost predicate AreTargets(s: State, user: User, subscribed: seq<Addr>, scope: seq<Addr>, addrs: seq<Addr>) {
    forall a :: a in addrs <==> IsTarget(s, user, subscribed, scope, a)
  }

  /** In particular the same idle brake, made twice over, sends nothing the second time. */
  lemma SecondIdleBrakeIsQuiet(s: State, user: User, subscribed: seq<Addr>, scope: seq<Addr>, deadMan: set<Addr>,
                               now: nat, later: nat, addrs: seq<Addr>, replies: seq<Reply>,
                               again: seq<Addr>, replies2: seq<Reply>)
    requires |addrs| == |replies| && NoRepeats(addrs) && AreTargets(s, user, subscribed, scope, addrs)
    requires |again| == |replies2| && NoRepeats(again)
    requires forall reply :: reply in replies ==> reply.Stopped?
    requires AreTargets(StopAll(s, addrs, replies, Rules(None, true, Some(user), deadMan, now)).state,
              user, subscribed, scope, again)
    ensures StopAll(StopAll(s, addrs, replies, Rules(None, true, Some(user), deadMan, now)).state, again, replies2,
                    Rules(None, true, Some(user), deadMan, later)).sent == []
  {
    var r, r2 := Rules(None, true, Some(user), deadMan, now), Rules(None, true, Some(user), deadMan, later);
    var t := StopAll(s, addrs, replies, r).state;
    forall a | a in again ensures a in addrs {
      if a !in addrs {
        OthersUntouched(s, addrs, replies, r, a);
      }
    }
    RepeatedBrakeIsQuiet(s, addrs, replies, r, again, replies2, r2);
  }

  lemma {:induction false} NothingWanted(s: State, addrs: seq<Addr>, replies: seq<Reply>, r: Rules)
    requires |addrs| == |replies| && forall a :: a in addrs ==> !Wanted(s, a, r)
    ensures StopAll(s, addrs, replies, r) == Outcome(s, [], [], [])
  {
    if addrs != [] {
      var n := |addrs| - 1;
      NothingWanted(s, addrs[..n], replies[..n], r);
      assert addrs[n] in addrs;
    }
  }

  // ----- is the cache to be trusted? -----

  /** No loco that the station is driving is cached as standing. */
  ghost predicate Honest(s: State) {
    forall a :: a in s.moving ==> Snapshot(s, a).speed > 1
  }

  /** Stops of chosen locos never make the cache lie, whatever the station replies. */
  lemma {:induction false} StopsKeepHonest(s: State, addrs: seq<Addr>, replies: seq<Reply>, r: Rules)
    requires |addrs| == |replies| && Honest(s)
    ensures Honest(StopAll(s, addrs, replies, r).state)
  {
    if addrs != [] {
      var n := |addrs| - 1;
      StopsKeepHonest(s, addrs[..n], replies[..n], r);
    }
  }

  lemma {:induction false} RadioStopOthers(s: State, addrs: seq<Addr>, replies: seq<Reply>, now: nat, a: Addr)
    requires |addrs| == |replies| && a !in addrs
    ensures var t := StopEverything(s, addrs, replies, now);
      Snapshot(t, a) == Snapshot(s, a) && (a in t.moving <==> a in s.moving)
  {
    if addrs != [] {
      var n := |addrs| - 1;
      RadioStopOthers(s, addrs[..n], replies[..n], now, a);
    }
  }

  lemma {:induction false} RadioStopEach(s: State, addrs: seq<Addr>, replies: seq<Reply>, now: nat, i: nat)
    requires |addrs| == |replies| && i < |addrs| && NoRepeats(addrs)
    ensures var t, a := StopEverything(s, addrs, replies, now), addrs[i];
      && Snapshot(t, a) == (if replies[i].Superseded? then Snapshot(s, a) else Standing(Snapshot(s, a), None, now))
      && (a in t.moving <==> a in s.moving && !replies[i].Stopped?)
  {
    var n := |addrs| - 1;
    if i < n {
      RadioStopEach(s, addrs[..n], replies[..n], now, i);
      assert addrs[n] != addrs[i];
    } else {
      assert addrs[n] !in addrs[..n];
      RadioStopOthers(s, addrs[..n], replies[..n], now, addrs[n]);
    }
  }

  /** The radio stop keeps the cache honest just when the station reports no error for a loco that is moving. */
  lemma RadioStopHonestIff(s: State, addrs: seq<Addr>, replies: seq<Reply>, now: nat)
    requires |addrs| == |replies| && NoRepeats(addrs) && Honest(s)
    ensures Honest(StopEverything(s, addrs, replies, now))
       <==> forall i :: 0 <= i < |addrs| && addrs[i] in s.moving ==> !replies[i].Error?
  {
    var t := StopEverything(s, addrs, replies, now);
    forall i | 0 <= i < |addrs|
      ensures addrs[i] in t.moving && Snapshot(t, addrs[i]).speed <= 1 <==> addrs[i] in s.moving && replies[i].Error?
    {
      RadioStopEach(s, addrs, replies, now, i);
    }
    forall a | a !in addrs ensures a in t.moving ==> Snapshot(t, a).speed > 1 {
      RadioStopOthers(s, addrs, replies, now, a);
    }
    forall a | a in addrs ensures exists i :: 0 <= i < |addrs| && addrs[i] == a {
    }
  }

  /** After such an error the loco runs on, and no brake for moving locos will send it another stop. */
  lemma FailedRadioStopHidesLoco(s: State, addrs: seq<Addr>, replies: seq<Reply>, now: nat, i: nat, r: Rules)
    requires |addrs| == |replies| && NoRepeats(addrs) && i < |addrs|
    requires addrs[i] in s.moving && replies[i].Error? && r.movingOnly
    ensures var t := StopEverything(s, addrs, replies, now);
      addrs[i] in t.moving && !ToStop(t, addrs[i], r)
  {
    RadioStopEach(s, addrs, replies, now, i);
  }
}
