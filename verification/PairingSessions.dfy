/** One live session per user, and the user index as the inverse of the session map. */
module PairingSessions {
  import opened Options
  import opened PairingKeys
  import opened PairingModel
  import opened PairingRuns

  // ----- every session is indexed, whatever the interleaving of scripts -----

  predicate Indexed(s: State, c: ClientKey)
    requires c in s.active
  {
    var slot := s.active[c];
    && slot.val.client == c
    && Alive(slot, s.now)
    && slot.val.who.user in s.byUser
    && s.byUser[slot.val.who.user].val == c
    && NoEarlier(s.byUser[slot.val.who.user].exp, slot.exp)
  }

  ghost predicate SessionsIndexed(s: State) {
    forall c :: c in s.active ==> Indexed(s, c)
  }

  ghost predicate OneSessionPerUser(s: State) {
    forall c, d :: c in s.active && d in s.active && s.active[c].val.who.user == s.active[d].val.who.user ==> c == d
  }

  lemma IndexedMeansOne(s: State)
    requires SessionsIndexed(s)
    ensures OneSessionPerUser(s)
  {
    forall c, d | c in s.active && d in s.active && s.active[c].val.who.user == s.active[d].val.who.user
      ensures c == d
    {
      assert Indexed(s, c) && Indexed(s, d);
    }
  }

  /**
   * One atomic step of either process. Pending stands for any pipeline on the three request families, DropIndex for
   * the delete with which a method cleans up an index entry that it has read earlier.
   */
  datatype Script =
    | Clock(d: nat)
    | Pending(req: map<string, Slot<Pending>>, reqByUser: map<User, Slot<string>>, dedup: Dedup)
    | RunComplete(reqId: string, payload: SessionJson, protocol: string, tag: string, ttl: Option<nat>)
    | RunUnpair(client: ClientKey, user: User)
    | RunTouch(client: ClientKey, seen: int, ttl: Option<nat>)
    | RunTouchBatch(clients: seq<ClientKey>, marks: seq<int>, ttl: Option<nat>)
    | RunRescope(client: ClientKey, scope: Scope)
    | DropIndex(user: User)

  predicate WellFormed(a: Script) {
    a.RunTouchBatch? ==> |a.clients| == |a.marks|
  }

  function RunScript(s: State, a: Script): State
    requires WellFormed(a)
  {
    match a
    case Clock(d) => Advance(s, d)
    case Pending(req, reqByUser, dedup) => s.(req := req, reqByUser := reqByUser, dedup := dedup)
    case RunComplete(reqId, payload, protocol, tag, ttl) => Complete(s, reqId, payload, protocol, tag, ttl).0
    case RunUnpair(client, user) => UnpairScript(s, client, user)
    case RunTouch(client, seen, ttl) => Touch(s, client, seen, ttl)
    case RunTouchBatch(clients, marks, ttl) => TouchEach(s, clients, marks, ttl)
    case RunRescope(client, scope) => Rescope(s, client, scope)
    case DropIndex(user) => s.(byUser := s.byUser - {user})
  }

  /** Whether a SET that carries over the remaining PTTL of this session finds one above zero. */
  predicate KeepsTtl(s: State, client: ClientKey) {
    client in s.active ==> Pttl(s.active[client], s.now) != 0
  }

  predicate Unpaired(s: State, user: User) {
    forall c :: c in s.active ==> s.active[c].val.who.user != user
  }

  predicate Timely(s: State, a: Script) {
    && (a.DropIndex? ==> Unpaired(s, a.user))
    && (a.RunRescope? ==> KeepsTtl(s, a.client))
    && (a.RunTouch? && a.ttl.None? ==> KeepsTtl(s, a.client))
    && (a.RunTouchBatch? && a.ttl.None? ==> forall i :: 0 <= i < |a.clients| ==> KeepsTtl(s, a.clients[i]))
  }

  lemma TouchKeepsIndexed(s: State, client: ClientKey, seen: int, ttl: Option<nat>)
    requires SessionsIndexed(s)
    requires ttl.None? ==> KeepsTtl(s, client)
    ensures SessionsIndexed(Touch(s, client, seen, ttl))
  {
    IndexedMeansOne(s);
    var t := Touch(s, client, seen, ttl);
    forall c | c in t.active ensures Indexed(t, c) {
      assert Indexed(s, c);
      if client in s.active {
        assert Indexed(s, client);
      }
    }
  }

  lemma {:induction false} TouchEachKeepsIndexed(s: State, clients: seq<ClientKey>, seen: seq<int>, ttl: Option<nat>)
    requires SessionsIndexed(s) && |clients| == |seen|
    requires ttl.None? ==> forall i :: 0 <= i < |clients| ==> KeepsTtl(s, clients[i])
    ensures var t := TouchEach(s, clients, seen, ttl);
      && SessionsIndexed(t) && t.now == s.now
      && (ttl.None? ==> forall c :: KeepsTtl(s, c) ==> KeepsTtl(t, c))
  {
    var n := |clients|;
    if n > 0 {
      TouchEachKeepsIndexed(s, clients[..n - 1], seen[..n - 1], ttl);
      var t := TouchEach(s, clients[..n - 1], seen[..n - 1], ttl);
      TouchKeepsIndexed(t, clients[n - 1], seen[n - 1], ttl);
      if ttl.None? {
        forall c | KeepsTtl(s, c) ensures KeepsTtl(Touch(t, clients[n - 1], seen[n - 1], ttl), c) {
          assert KeepsTtl(t, c);
        }
      }
    }
  }

  lemma ScriptKeepsIndexed(s: State, a: Script)
    requires SessionsIndexed(s) && WellFormed(a) && Timely(s, a)
    ensures SessionsIndexed(RunScript(s, a))
  {
    IndexedMeansOne(s);
    var t := RunScript(s, a);
    match a
    case RunTouch(client, seen, ttl) => TouchKeepsIndexed(s, client, seen, ttl);
    case RunTouchBatch(clients, marks, ttl) => TouchEachKeepsIndexed(s, clients, marks, ttl);
    case RunComplete(reqId, payload, protocol, tag, ttl) => CompleteKeepsIndexed(s, reqId, payload, protocol, tag, ttl);
    case Clock(d) => ClockKeepsIndexed(s, d);
    case _ =>
      forall c | c in t.active ensures Indexed(t, c) {
        assert Indexed(s, c);
      }
  }

  lemma ClockKeepsIndexed(s: State, d: nat)
    requires SessionsIndexed(s)
    ensures SessionsIndexed(Advance(s, d))
  {
    forall c | c in Advance(s, d).active ensures Indexed(Advance(s, d), c) {
      assert Indexed(s, c);
    }
  }

  lemma CompleteKeepsIndexed(s: State, reqId: string, j: SessionJson, protocol: string, tag: string, ttl: Option<nat>)
    requires SessionsIndexed(s)
    ensures SessionsIndexed(Complete(s, reqId, j, protocol, tag, ttl).0)
  {
    var t := Complete(s, reqId, j, protocol, tag, ttl).0;
    forall c | c in t.active ensures Indexed(t, c) {
      if c in s.active {
        assert Indexed(s, c);
      }
    }
  }

  ghost predicate TimelyRun(s: State, run: seq<Script>)
    decreases |run|
  {
    run != [] ==> WellFormed(run[0]) && Timely(s, run[0]) && TimelyRun(RunScript(s, run[0]), run[1..])
  }

  function AfterScripts(s: State, run: seq<Script>): State
    requires TimelyRun(s, run)
    decreases |run|
  {
    if run == [] then s else AfterScripts(RunScript(s, run[0]), run[1..])
  }

  /**
   * In every state that any interleaving of scripts and clock steps reaches, each live session is the one its user's
   * index names, and the index outlives it.
   */
  lemma {:induction false} EveryRunKeepsOneSession(s: State, run: seq<Script>)
    requires SessionsIndexed(s) && TimelyRun(s, run)
    ensures SessionsIndexed(AfterScripts(s, run)) && OneSessionPerUser(AfterScripts(s, run))
    decreases |run|
  {
    if run == [] {
      IndexedMeansOne(s);
    } else {
      ScriptKeepsIndexed(s, run[0]);
      EveryRunKeepsOneSession(RunScript(s, run[0]), run[1..]);
    }
  }

  /** The PTTL condition is exact: in a session's last millisecond the scripts strip its expiry and break the index. */
  lemma RescopeKeepsIndexedIff(s: State, client: ClientKey, scope: Scope, seen: int)
    requires SessionsIndexed(s) && client in s.active
    requires s.byUser[s.active[client].val.who.user].exp.Some?
    ensures SessionsIndexed(Rescope(s, client, scope)) <==> Pttl(s.active[client], s.now) != 0
    ensures SessionsIndexed(Touch(s, client, seen, None)) <==> Pttl(s.active[client], s.now) != 0
  {
    assert Indexed(s, client);
    if Pttl(s.active[client], s.now) != 0 {
      ScriptKeepsIndexed(s, RunRescope(client, scope));
      ScriptKeepsIndexed(s, RunTouch(client, seen, None));
    } else {
      assert !Indexed(Rescope(s, client, scope), client);
      assert !Indexed(Touch(s, client, seen, None), client);
    }
  }

  /** A late clean-up of an index entry is harmless just when its user has not been paired in the meantime. */
  lemma LateDeleteKeepsIndexedIff(s: State, user: User)
    requires SessionsIndexed(s)
    ensures SessionsIndexed(RunScript(s, DropIndex(user))) <==> Unpaired(s, user)
  {
    if Unpaired(s, user) {
      ScriptKeepsIndexed(s, DropIndex(user));
    } else {
      var c :| c in s.active && s.active[c].val.who.user == user;
      assert !Indexed(RunScript(s, DropIndex(user)), c);
    }
  }

  /**
   * And the meantime exists: if the user's pairing completes between the read that finds the entry stale and the
   * delete, the new session is left without an index entry, and its user counts as not paired.
   */
  lemma PairingBeforeLateDelete(s: State, reqId: string, j: SessionJson, protocol: string, tag: string, ttl: nat)
    requires SessionsIndexed(s) && reqId in s.req && Unpaired(s, j.who.user)
    ensures var paired := RunScript(s, RunComplete(reqId, j, protocol, tag, Some(ttl)));
      var t := RunScript(paired, DropIndex(j.who.user));
      && SessionsIndexed(paired) && !SessionsIndexed(t)
      && j.client in t.active && !CheckPaired(t, j.who.user).1
  {
    var paired := RunScript(s, RunComplete(reqId, j, protocol, tag, Some(ttl)));
    CompleteKeepsIndexed(s, reqId, j, protocol, tag, Some(ttl));
    assert j.client in paired.active && paired.active[j.client].val == j;
    LateDeleteKeepsIndexedIff(paired, j.who.user);
  }

  /**
   * What the strip of an expiry costs: one millisecond later the session is permanent, and its user counts as not
   * paired.
   */
  lemma LastMillisecondStrandsSession(s: State, client: ClientKey, scope: Scope)
    requires ExactIndex(s) && client in s.active
    requires Pttl(s.active[client], s.now) == 0
    ensures var t := Advance(Rescope(s, client, scope), 1);
      && client in t.active && t.active[client].exp.None?
      && t.active[client].val.who.user !in t.byUser
      && !CheckPaired(t, t.active[client].val.who.user).1
  {
    assert Inverse(s, client);
  }

  // ----- the index as exact inverse: the simple map from users to sessions -----

  predicate Inverse(s: State, c: ClientKey)
    requires c in s.active
  {
    var slot := s.active[c];
    && slot.val.client == c && c != ""
    && Alive(slot, s.now)
    && slot.val.who.user in s.byUser
    && s.byUser[slot.val.who.user] == Slot(c, slot.exp)
  }

  predicate Pointed(s: State, u: User)
    requires u in s.byUser
  {
    s.byUser[u].val in s.active && s.active[s.byUser[u].val].val.who.user == u
  }

  ghost predicate ExactIndex(s: State) {
    && (forall c :: c in s.active ==> Inverse(s, c))
    && (forall u :: u in s.byUser ==> Pointed(s, u))
  }

  /** The simple view: one user's session and its expiry, as Go decodes it. */
  function SessionOf(s: State, u: User): Option<Slot<Session>> {
    if u in s.byUser && s.byUser[u].val in s.active then
      var slot := s.active[s.byUser[u].val];
      Some(Slot(Decode(slot.val), slot.exp))
    else None
  }

  predicate Holds(cur: Option<Slot<Session>>, client: ClientKey) {
    cur.Some? && cur.value.val.client == client
  }

  /** What one operation does to user u's session, given only that session and the reply. */
  function NextSession(cur: Option<Slot<Session>>, u: User, now: int, op: Op, reply: Reply): Option<Slot<Session>> {
    match op
    case Tick(d) => if cur.Some? && Alive(cur.value, now + d) then cur else None
    case PairOp(_, _, _) =>
      if reply.Tried? && reply.pair.Paired? && reply.pair.session.who.user == u then
        Some(Slot(reply.pair.session, Some(now + 259_200_000))) // 72 hours
      else cur
    case TouchOp(client, seen, ttl) =>
      if Holds(cur, client) then
        Some(Slot(cur.value.val.(lastSeenAt := seen), if ttl > 0 then Some(now + ttl) else cur.value.exp))
      else cur
    case RescopeOp(client, scope) =>
      if Holds(cur, client) then Some(Slot(cur.value.val.(scope := scope), cur.value.exp)) else cur
    case UnpairOp(client) => if Holds(cur, client) then None else cur
    case UnpairAllOp(user) => if user == u then None else cur
    case _ => cur
  }

  /** The replies that concern sessions, read off the users' sessions alone. */
  ghost predicate SessionReply(s: State, op: Op, reply: Reply) {
    match op
    case CreateOp(ask, _) => reply == Created(AlreadyPaired) <==> SessionOf(s, ask.user).Some?
    case PairOp(_, client, _) =>
      reply.Tried? && reply.pair.Paired? ==>
        var cur := SessionOf(s, reply.pair.session.who.user);
        && reply.pair.session.client == client
        && reply.pair.evicted == if cur.Some? && !Holds(cur, client) then cur.value.val.client else ""
    case RescopeOp(client, scope) =>
      && reply.Rescoped?
      && (reply.updated.None? ==> forall u :: !Holds(SessionOf(s, u), client))
      && (reply.updated.Some? ==> exists u ::
            Holds(SessionOf(s, u), client) && reply.updated.value == SessionOf(s, u).value.val.(scope := scope))
    case ListOp(user) => reply == Listed(if SessionOf(s, user).Some? then [SessionOf(s, user).value.val] else [])
    case _ => true
  }

  /** A stored request that is open to this handset waits under the code. */
  predicate Answers(s: State, code: Code, client: ClientKey) {
    && ValidCode(code) && ReqId(code) in s.req
    && (var p := s.req[ReqId(code)].val; p.expected == "" || p.expected == client)
  }

  /** The caller's side, before the call: a handset that is about to pair is not paired to someone else. */
  predicate HandsetFree(s: State, op: Op) {
    op.PairOp? && Answers(s, op.code, op.client) ==>
      && op.client != ""
      && (op.client in s.active ==> s.active[op.client].val.who.user == s.req[ReqId(op.code)].val.who.user)
  }

  predicate TimelyOp(s: State, op: Op) {
    (op.RescopeOp? || (op.TouchOp? && op.ttl <= 0)) ==> KeepsTtl(s, op.client)
  }

  lemma DecodeEncode(x: Session, j: SessionJson, seen: int, scope: Scope)
    ensures Decode(Encode(x)) == x
    ensures Decode(TouchedJson(j, seen)) == Decode(j).(lastSeenAt := seen)
    ensures Decode(RescopedJson(j, scope)) == Decode(j).(scope := scope)
  {
  }

  // For each kind of step: it keeps the exact index, and moves every user's session as stated.

  lemma TickExact(s: State, d: nat)
    requires ExactIndex(s)
    ensures ExactIndex(Advance(s, d))
    ensures forall u :: SessionOf(Advance(s, d), u) == NextSession(SessionOf(s, u), u, s.now, Tick(d), Done)
  {
    var t := Advance(s, d);
    forall c | c in t.active ensures Inverse(t, c) {
      assert Inverse(s, c);
    }
    forall u | u in s.byUser ensures Pointed(s, u) && s.byUser[u].exp == s.active[s.byUser[u].val].exp {
      assert Pointed(s, u) && Inverse(s, s.byUser[u].val);
    }
  }

  lemma CheckPairedExact(s: State, user: User)
    requires ExactIndex(s)
    ensures CheckPaired(s, user) == (s, SessionOf(s, user).Some?)
  {
    if user in s.byUser {
      assert Pointed(s, user) && Inverse(s, s.byUser[user].val);
    }
  }

  lemma SameSessions(s: State, t: State)
    requires ExactIndex(s) && t.active == s.active && t.byUser == s.byUser && t.now == s.now
    ensures ExactIndex(t)
    ensures forall u :: SessionOf(t, u) == SessionOf(s, u)
  {
    forall c | c in t.active ensures Inverse(t, c) {
      assert Inverse(s, c);
    }
    forall u | u in t.byUser ensures Pointed(t, u) {
      assert Pointed(s, u);
    }
  }

  lemma CompleteKeepsExact(s: State, reqId: string, j: SessionJson, protocol: string, tag: string, ttl: nat)
    requires ExactIndex(s) && reqId in s.req && j.client != ""
    requires j.client in s.active ==> s.active[j.client].val.who.user == j.who.user
    ensures ExactIndex(Complete(s, reqId, j, protocol, tag, Some(ttl)).0)
  {
    var t := Complete(s, reqId, j, protocol, tag, Some(ttl)).0;
    forall c | c in t.active ensures Inverse(t, c) {
      if c != j.client {
        assert Inverse(s, c);
      }
    }
    forall v | v in t.byUser ensures Pointed(t, v) {
      if v != j.who.user {
        assert Pointed(s, v);
        assert Inverse(s, s.byUser[v].val);
        if j.who.user in s.byUser {
          assert Pointed(s, j.who.user);
        }
      }
    }
  }

  lemma CompleteOthers(s: State, reqId: string, j: SessionJson, protocol: string, tag: string, ttl: nat, v: User)
    requires ExactIndex(s) && reqId in s.req && v != j.who.user
    requires j.client in s.active ==> s.active[j.client].val.who.user == j.who.user
    ensures SessionOf(Complete(s, reqId, j, protocol, tag, Some(ttl)).0, v) == SessionOf(s, v)
  {
    if v in s.byUser {
      assert Pointed(s, v) && Inverse(s, s.byUser[v].val);
      if j.who.user in s.byUser {
        assert Pointed(s, j.who.user);
      }
    }
  }

  lemma CompleteExact(s: State, reqId: string, x: Session, protocol: string, tag: string)
    requires ExactIndex(s) && reqId in s.req && x.client != ""
    requires x.client in s.active ==> s.active[x.client].val.who.user == x.who.user
    ensures var (t, ok, evicted) := Complete(s, reqId, Encode(x), protocol, tag, Some(SESSION_TTL));
      var cur := SessionOf(s, x.who.user);
      && ok
      && ExactIndex(t)
      && (forall u ::
            SessionOf(t, u) == if u == x.who.user then Some(Slot(x, Some(s.now + SESSION_TTL))) else SessionOf(s, u))
      && evicted == if cur.Some? && !Holds(cur, x.client) then cur.value.val.client else ""
  {
    var t := Complete(s, reqId, Encode(x), protocol, tag, Some(SESSION_TTL)).0;
    CompleteKeepsExact(s, reqId, Encode(x), protocol, tag, SESSION_TTL);
    forall v | v != x.who.user ensures SessionOf(t, v) == SessionOf(s, v) {
      CompleteOthers(s, reqId, Encode(x), protocol, tag, SESSION_TTL, v);
    }
    DecodeEncode(x, Encode(x), 0, x.scope);
    if x.who.user in s.byUser {
      assert Pointed(s, x.who.user) && Inverse(s, s.byUser[x.who.user].val);
    }
  }

  /** A script that rewrites one session in place. */
  lemma RewriteExact(s: State, t: State, client: ClientKey, j: SessionJson, exp: Option<int>)
    requires ExactIndex(s) && client in s.active && t.now == s.now
    requires j.who == s.active[client].val.who && j.client == client && Alive(Slot(j, exp), s.now)
    requires t.active == s.active[client := Slot(j, exp)]
    requires t.byUser == s.byUser[j.who.user := Slot(client, exp)]
    ensures ExactIndex(t)
    ensures forall u :: SessionOf(t, u)
              == if Holds(SessionOf(s, u), client) then Some(Slot(Decode(j), exp)) else SessionOf(s, u)
  {
    assert Inverse(s, client);
    forall c | c in t.active ensures Inverse(t, c) {
      assert Inverse(s, c);
    }
    forall v ensures v in t.byUser ==> Pointed(t, v)
      ensures SessionOf(t, v) == if Holds(SessionOf(s, v), client) then Some(Slot(Decode(j), exp)) else SessionOf(s, v)
    {
      if v in s.byUser {
        assert Pointed(s, v) && Inverse(s, s.byUser[v].val);
      }
    }
  }

  lemma NobodyHolds(s: State, client: ClientKey)
    requires ExactIndex(s) && client !in s.active
    ensures forall u :: !Holds(SessionOf(s, u), client)
  {
    forall u ensures !Holds(SessionOf(s, u), client) {
      if u in s.byUser {
        assert Pointed(s, u) && Inverse(s, s.byUser[u].val);
      }
    }
  }

  /** The session of whoever holds a handset is the one stored for that handset. */
  lemma HeldSession(s: State, client: ClientKey)
    requires ExactIndex(s) && client in s.active
    ensures forall u :: Holds(SessionOf(s, u), client) ==>
              SessionOf(s, u) == Some(Slot(Decode(s.active[client].val), s.active[client].exp))
  {
    forall u | Holds(SessionOf(s, u), client)
      ensures SessionOf(s, u) == Some(Slot(Decode(s.active[client].val), s.active[client].exp))
    {
      assert Pointed(s, u) && Inverse(s, s.byUser[u].val);
    }
  }

  lemma TouchRewrites(s: State, client: ClientKey, seen: int, ttl: int)
    requires ExactIndex(s) && TimelyOp(s, TouchOp(client, seen, ttl)) && client in s.active
    ensures var t, j := Touch(s, client, seen, TtlArg(ttl)), TouchedJson(s.active[client].val, seen);
      var exp := if ttl > 0 then Some(s.now + ttl) else s.active[client].exp;
      && j.who == s.active[client].val.who && j.client == client && Alive(Slot(j, exp), s.now)
      && t.active == s.active[client := Slot(j, exp)]
      && t.byUser == s.byUser[j.who.user := Slot(client, exp)]
  {
    assert Inverse(s, client);
  }

  lemma TouchExact(s: State, client: ClientKey, seen: int, ttl: int)
    requires ExactIndex(s) && TimelyOp(s, TouchOp(client, seen, ttl))
    ensures var t := Touch(s, client, seen, TtlArg(ttl));
      && ExactIndex(t)
      && forall u :: SessionOf(t, u) == NextSession(SessionOf(s, u), u, s.now, TouchOp(client, seen, ttl), Done)
  {
    var t := Touch(s, client, seen, TtlArg(ttl));
    if client in s.active {
      var j := TouchedJson(s.active[client].val, seen);
      DecodeEncode(Decode(j), s.active[client].val, seen, Scope([], [], true));
      TouchRewrites(s, client, seen, ttl);
      RewriteExact(s, t, client, j, if ttl > 0 then Some(s.now + ttl) else s.active[client].exp);
      HeldSession(s, client);
    } else {
      NobodyHolds(s, client);
    }
  }

  lemma RescopeExact(s: State, client: ClientKey, scope: Scope)
    requires ExactIndex(s) && TimelyOp(s, RescopeOp(client, scope))
    ensures var (t, reply) := Step(s, RescopeOp(client, scope));
      && ExactIndex(t)
      && (forall u :: SessionOf(t, u) == NextSession(SessionOf(s, u), u, s.now, RescopeOp(client, scope), reply))
      && SessionReply(s, RescopeOp(client, scope), reply)
  {
    var t := Rescope(s, client, scope);
    if client in s.active {
      assert Inverse(s, client);
      var j := RescopedJson(s.active[client].val, scope);
      DecodeEncode(Decode(j), s.active[client].val, 0, scope);
      RewriteExact(s, t, client, j, t.active[client].exp);
      HeldSession(s, client);
      assert Holds(SessionOf(s, s.active[client].val.who.user), client);
    } else {
      NobodyHolds(s, client);
    }
  }

  lemma UnpairExact(s: State, client: ClientKey)
    requires ExactIndex(s)
    ensures var t := Unpair(s, client);
      && ExactIndex(t)
      && forall u :: SessionOf(t, u) == NextSession(SessionOf(s, u), u, s.now, UnpairOp(client), Done)
  {
    var t := Unpair(s, client);
    if client in s.active {
      assert Inverse(s, client);
    }
    forall c | c in t.active ensures Inverse(t, c) {
      assert Inverse(s, c);
    }
    forall v ensures v in t.byUser ==> Pointed(t, v)
      ensures SessionOf(t, v) == NextSession(SessionOf(s, v), v, s.now, UnpairOp(client), Done)
    {
      if v in s.byUser {
        assert Pointed(s, v) && Inverse(s, s.byUser[v].val);
      }
    }
  }

  lemma UnpairAllExact(s: State, user: User)
    requires ExactIndex(s)
    ensures var t := UnpairAll(s, user);
      && ExactIndex(t)
      && forall u :: SessionOf(t, u) == NextSession(SessionOf(s, u), u, s.now, UnpairAllOp(user), Done)
  {
    if user in s.byUser {
      assert Pointed(s, user) && Inverse(s, s.byUser[user].val);
      UnpairExact(s, s.byUser[user].val);
      forall u ensures Holds(SessionOf(s, u), s.byUser[user].val) <==> u == user {
        if u in s.byUser {
          assert Pointed(s, u) && Inverse(s, s.byUser[u].val);
        }
      }
    }
  }

  lemma ClearPendingFrame(s: State, user: User)
    ensures var t := ClearPending(s, user); t.active == s.active && t.byUser == s.byUser && t.now == s.now
  {
  }

  /**
   * Every store method, run at one instant, keeps the exact index, moves every user's session as the simple view says,
   * and replies as that view says.
   */
  lemma StepRefinesSessions(s: State, op: Op)
    requires ExactIndex(s) && HandsetFree(s, op) && TimelyOp(s, op)
    ensures var (t, reply) := Step(s, op);
      && ExactIndex(t)
      && (forall u :: SessionOf(t, u) == NextSession(SessionOf(s, u), u, s.now, op, reply))
      && SessionReply(s, op, reply)
  {
    match op
    case Tick(d) => TickExact(s, d);
    case CreateOp(ask, draws) =>
      CheckPairedExact(s, ask.user);
      ClearPendingFrame(s, ask.user);
      SameSessions(s, Step(s, op).0);
    case CancelOp(user) =>
      ClearPendingFrame(s, user);
      SameSessions(s, Step(s, op).0);
    case PairOp(code, client, at) =>
      if Pair(s, code, client, at).1.Paired? {
        var p := s.req[ReqId(code)].val;
        CompleteExact(s, ReqId(code), SessionFor(p, client, at), p.who.protocol, Label(code));
      }
    case TouchOp(client, seen, ttl) => TouchExact(s, client, seen, ttl);
    case RescopeOp(client, scope) => RescopeExact(s, client, scope);
    case UnpairOp(client) => UnpairExact(s, client);
    case UnpairAllOp(user) => UnpairAllExact(s, user);
    case ListOp(user) => CheckPairedExact(s, user);
  }

  /** The index lookups agree with a full scan of the sessions. */
  lemma IndexAgreesWithScan(s: State, u: User)
    requires ExactIndex(s)
    ensures SessionOf(s, u).None? <==> forall c :: c in s.active ==> s.active[c].val.who.user != u
    ensures forall c :: c in s.active && s.active[c].val.who.user == u ==>
                          SessionOf(s, u) == Some(Slot(Decode(s.active[c].val), s.active[c].exp))
  {
    forall c | c in s.active && s.active[c].val.who.user == u
      ensures SessionOf(s, u) == Some(Slot(Decode(s.active[c].val), s.active[c].exp))
    {
      assert Inverse(s, c);
    }
    if u in s.byUser {
      assert Pointed(s, u);
    }
  }

  ghost predicate CarefulRun(ops: seq<Op>) {
    forall i {:trigger ops[..i]} :: 0 <= i < |ops| ==>
        HandsetFree(Final(ops[..i]), ops[i]) && TimelyOp(Final(ops[..i]), ops[i])
  }

  lemma {:induction false} CarefulRunsKeepExactIndex(ops: seq<Op>)
    requires CarefulRun(ops)
    ensures ExactIndex(Final(ops))
  {
    if ops != [] {
      var n := |ops| - 1;
      forall i | 0 <= i < n ensures ops[..n][..i] == ops[..i] && ops[..n][i] == ops[i] {}
      assert CarefulRun(ops[..n]);
      CarefulRunsKeepExactIndex(ops[..n]);
      StepRefinesSessions(Final(ops[..n]), ops[n]);
    }
  }

  /** A completed pairing keeps the exact index just when the handset was free, or already that user's. */
  lemma PairKeepsExactIff(s: State, code: Code, client: ClientKey, at: int)
    requires ExactIndex(s) && client != ""
    ensures ExactIndex(Pair(s, code, client, at).0) <==> HandsetFree(s, PairOp(code, client, at))
  {
    if HandsetFree(s, PairOp(code, client, at)) {
      StepRefinesSessions(s, PairOp(code, client, at));
    } else {
      assert Inverse(s, client);
      assert !Pointed(Pair(s, code, client, at).0, s.active[client].val.who.user);
    }
  }

  /**
   * What goes wrong otherwise: the handset's previous user still counts as paired, sees the new user's session as
   * theirs, and ends it when unpairing.
   */
  lemma TakenHandsetMisleadsOwner(s: State, code: Code, client: ClientKey, at: int, owner: User)
    requires ExactIndex(s) && client in s.active && s.active[client].val.who.user == owner
    requires Pair(s, code, client, at).1.Paired? && Pair(s, code, client, at).1.session.who.user != owner
    ensures var (t, reply) := Pair(s, code, client, at);
      && CheckPaired(t, owner).1
      && ListByUser(t, owner).1 == [reply.session]
      && client !in UnpairAll(t, owner).active
  {
    assert Inverse(s, client);
    var session := SessionFor(s.req[ReqId(code)].val, client, at);
    DecodeEncode(session, Encode(session), 0, session.scope);
  }
}
