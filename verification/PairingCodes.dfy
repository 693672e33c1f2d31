/**
 * Pairing codes over whole runs: which typed codes succeed, for whom, and how
 * often, decided by the history of calls alone.
 */
module PairingCodes {
  import opened Options
  import opened PairingKeys
  import opened PairingModel
  import opened PairingRuns

  // ----- the invariant -----

  /** The code that a stored request stands for. */
  function CodeOf(w: Who): Code {
    if w.protocol == Z21 then Cvs(w.cv3, w.cv4) else Digits(w.digits)
  }

  /**
   * A stored request is named after its code, indexed under its user with the same expiry, and has its label reserved
   * for at least as long.
   */
  predicate Reserved(s: State, id: string)
    requires id in s.req
  {
    Named(id, s.req[id].val) && Placed(s, id) && Held(s.dedup, s.req[id])
  }

  predicate Named(id: string, p: Pending) {
    id == p.reqId == ReqId(CodeOf(p.who)) && ValidCode(CodeOf(p.who)) && p.who.protocol == Protocol(CodeOf(p.who))
  }

  predicate Placed(s: State, id: string)
    requires id in s.req
  {
    var p := s.req[id].val;
    && p.createdAt <= s.now && s.req[id].exp == Some(p.createdAt + REQ_TTL) && Alive(s.req[id], s.now)
    && p.who.user in s.reqByUser && s.reqByUser[p.who.user] == Slot(id, s.req[id].exp)
  }

  predicate Held(dedup: Dedup, r: Slot<Pending>) {
    && r.val.who.protocol in dedup
    && Label(CodeOf(r.val.who)) in dedup[r.val.who.protocol].val
    && NoEarlier(dedup[r.val.who.protocol].exp, r.exp)
  }

  predicate Requested(s: State, u: User)
    requires u in s.reqByUser
  {
    s.reqByUser[u].val in s.req && s.req[s.reqByUser[u].val].val.who.user == u
  }

  ghost predicate CodesReserved(s: State) {
    && (forall id :: id in s.req ==> Reserved(s, id))
    && (forall u :: u in s.reqByUser ==> Requested(s, u))
  }

  /** The simple view: one user's pending request, with its expiry. */
  function RequestOf(s: State, u: User): Option<Slot<Pending>> {
    if u in s.reqByUser && s.reqByUser[u].val in s.req then Some(s.req[s.reqByUser[u].val]) else None
  }

  /** What one operation does to user u's pending request. */
  function NextRequest(cur: Option<Slot<Pending>>, u: User, now: int, op: Op, reply: Reply): Option<Slot<Pending>> {
    match op
    case Tick(d) => if cur.Some? && Alive(cur.value, now + d) then cur else None
    case CreateOp(ask, _) =>
      if ask.user != u || !reply.Created? || reply.create.AlreadyPaired? then cur
      else if reply.create.NoFreeCode? then None
      else Some(Slot(WireFor(ask, reply.create.code, now), Some(now + REQ_TTL)))
    case CancelOp(user) => if user == u then None else cur
    case PairOp(_, _, _) => if reply.Tried? && reply.pair.Paired? && reply.pair.session.who.user == u then None else cur
    case _ => cur
  }

  /** User u's request is for this code and open to this handset. */
  predicate Matches(cur: Option<Slot<Pending>>, code: Code, client: ClientKey) {
    && cur.Some? && cur.value.val.reqId == ReqId(code)
    && (cur.value.val.expected == "" || cur.value.val.expected == client)
  }

  /** The user's index entry names a session that exists. */
  predicate PairedNow(s: State, u: User) {
    u in s.byUser && s.byUser[u].val != "" && s.byUser[u].val in s.active
  }

  /** The code's label is reserved, and not by the request that the user gives up by asking anew. */
  predicate TakenFor(s: State, u: User, d: Code) {
    && Label(d) in Members(s.dedup, Protocol(d))
    && !(RequestOf(s, u).Some? && RequestOf(s, u).value.val.reqId == ReqId(d))
  }

  /** The draw at i is the first whose label is not taken. */
  ghost predicate FirstUntaken(s: State, u: User, draws: seq<Code>, i: int) {
    0 <= i < |draws| && !TakenFor(s, u, draws[i]) && forall j :: 0 <= j < i ==> TakenFor(s, u, draws[j])
  }

  /** The reply to a request for a code: refused to a paired user, else the first draw not taken, if there is one. */
  ghost predicate IssuesFirst(s: State, u: User, draws: seq<Code>, reply: CreateReply) {
    && (reply.AlreadyPaired? <==> PairedNow(s, u))
    && (reply.NoFreeCode? <==> !PairedNow(s, u) && forall d :: d in draws ==> TakenFor(s, u, d))
    && (reply.Issued? ==> exists i :: FirstUntaken(s, u, draws, i) && draws[i] == reply.code)
  }

  lemma OnlyFirst(s: State, u: User, draws: seq<Code>, reply: CreateReply, i: int)
    requires IssuesFirst(s, u, draws, reply) && !PairedNow(s, u) && FirstUntaken(s, u, draws, i)
    ensures reply == Issued(draws[i])
  {
    assert draws[i] in draws && reply.Issued?;
    var k :| FirstUntaken(s, u, draws, k) && draws[k] == reply.code;
    assert k == i;
  }

  /** The brake window in seconds: at least 6, at most 60, otherwise as asked. */
  function BrakeSecsFor(asked: nat): nat {
    if asked > 60 then 60 else if asked > 6 then asked else 6
  }

  /** What a handset is told when it takes up a request. */
  predicate SessionOf(session: Session, p: Pending, client: ClientKey, at: int) {
    && session.pairedAt == session.lastSeenAt == at && session.client == client && session.scope == p.scope
    && session.who == p.who.(brakeSecs := BrakeSecsFor(p.who.brakeSecs))
  }

  /** The replies that concern codes, read off the users' requests and the reserved labels. */
  ghost predicate CodeReply(s: State, op: Op, reply: Reply) {
    match op
    case CreateOp(ask, draws) =>
      && reply.Created?
      && IssuesFirst(s, ask.user, draws, reply.create)
      && (reply.create.Issued? ==>
         forall u :: u != ask.user && RequestOf(s, u).Some? ==>
         RequestOf(s, u).value.val.reqId != ReqId(reply.create.code))
    case PairOp(code, client, at) =>
      && reply.Tried?
      && (reply.pair.InvalidCode? <==> !ValidCode(code))
      && (reply.pair.Paired? <==> ValidCode(code) && exists u :: Matches(RequestOf(s, u), code, client))
      && (reply.pair.Paired? ==>
            var u := reply.pair.session.who.user;
            && Matches(RequestOf(s, u), code, client)
            && SessionOf(reply.pair.session, RequestOf(s, u).value.val, client, at))
    case _ => true
  }

  lemma TickReserved(s: State, d: nat, id: string)
    requires id in s.req && Reserved(s, id) && id in Advance(s, d).req
    ensures Reserved(Advance(s, d), id)
  {
    var t := Advance(s, d);
    assert Placed(t, id);
    assert Held(t.dedup, s.req[id]);
  }

  lemma TickRequests(s: State, d: nat, u: User)
    requires u in s.reqByUser ==> Requested(s, u) && Placed(s, s.reqByUser[u].val)
    ensures var t := Advance(s, d);
      && (u in t.reqByUser ==> Requested(t, u))
      && RequestOf(t, u) == NextRequest(RequestOf(s, u), u, s.now, Tick(d), Done)
  {
  }

  lemma TickCodes(s: State, d: nat)
    requires CodesReserved(s)
    ensures CodesReserved(Advance(s, d))
    ensures forall u :: RequestOf(Advance(s, d), u) == NextRequest(RequestOf(s, u), u, s.now, Tick(d), Done)
  {
    var t := Advance(s, d);
    forall id | id in t.req ensures Reserved(t, id) {
      assert Reserved(s, id);
      TickReserved(s, d, id);
    }
    forall u ensures u in t.reqByUser ==> Requested(t, u)
      ensures RequestOf(t, u) == NextRequest(RequestOf(s, u), u, s.now, Tick(d), Done)
    {
      if u in s.reqByUser {
        assert Requested(s, u) && Reserved(s, s.reqByUser[u].val);
      }
      TickRequests(s, d, u);
    }
  }

  lemma SameCodes(s: State, t: State)
    requires CodesReserved(s)
    requires RequestsAlike(s, t)
    ensures CodesReserved(t)
    ensures forall u :: RequestOf(t, u) == RequestOf(s, u)
  {
    forall id | id in t.req ensures Reserved(t, id) {
      assert Reserved(s, id);
    }
    forall u | u in t.reqByUser ensures Requested(t, u) {
      assert Requested(s, u);
    }
  }

  lemma LabelsApart(i: string, p: Pending, j: string, q: Pending)
    requires Named(i, p) && Named(j, q) && i != j && p.who.protocol == q.who.protocol
    ensures Label(CodeOf(p.who)) != Label(CodeOf(q.who))
  {
  }

  lemma SRemKeepsOthers(m: Dedup, protocol: string, tag: string, r: Slot<Pending>)
    requires Held(m, r) && (r.val.who.protocol == protocol ==> Label(CodeOf(r.val.who)) != tag)
    ensures Held(SRem(m, protocol, tag), r)
  {
  }

  /** The requests left when one goes together with its index entry. */
  predicate Dropped(s: State, t: State, id: string) {
    && id in s.req && t.now == s.now
    && t.req == s.req - {id}
    && t.reqByUser == s.reqByUser - {s.req[id].val.who.user}
  }

  lemma DropKeepsPlaced(s: State, t: State, id: string, other: string)
    requires Dropped(s, t, id) && other in t.req && Placed(s, id) && Placed(s, other)
    ensures Placed(t, other)
  {
  }

  lemma DropRequests(s: State, t: State, id: string, u: User)
    requires Dropped(s, t, id) && Placed(s, id) && (u in s.reqByUser ==> Requested(s, u))
    ensures u in t.reqByUser ==> Requested(t, u)
    ensures RequestOf(t, u) == if u == s.req[id].val.who.user then None else RequestOf(s, u)
  {
  }

  /** Dropping one request together with its index entry and its label. */
  lemma DropCodes(s: State, t: State, id: string)
    requires CodesReserved(s) && Dropped(s, t, id)
    requires t.dedup == SRem(s.dedup, s.req[id].val.who.protocol, Label(CodeOf(s.req[id].val.who)))
    ensures CodesReserved(t)
    ensures forall u :: RequestOf(t, u) == if u == s.req[id].val.who.user then None else RequestOf(s, u)
  {
    assert Reserved(s, id);
    var w := s.req[id].val.who;
    forall other | other in t.req ensures Reserved(t, other) {
      assert Reserved(s, other);
      DropKeepsPlaced(s, t, id, other);
      if s.req[other].val.who.protocol == w.protocol {
        LabelsApart(other, s.req[other].val, id, s.req[id].val);
      }
      SRemKeepsOthers(s.dedup, w.protocol, Label(CodeOf(w)), s.req[other]);
    }
    forall u ensures u in t.reqByUser ==> Requested(t, u)
      ensures RequestOf(t, u) == if u == w.user then None else RequestOf(s, u)
    {
      DropRequests(s, t, id, u);
    }
  }

  lemma ClearCodes(s: State, user: User)
    requires CodesReserved(s)
    ensures CodesReserved(ClearPending(s, user))
    ensures forall u :: RequestOf(ClearPending(s, user), u) == if u == user then None else RequestOf(s, u)
  {
    var t := ClearPending(s, user);
    if user in s.reqByUser {
      assert Requested(s, user);
      var id := s.reqByUser[user].val;
      assert Reserved(s, id);
      DropCodes(s, t, id);
    }
  }

  /** A code whose label is free cannot name a live request. */
  lemma FreshCode(s: State, code: Code)
    requires CodesReserved(s) && Label(code) !in Members(s.dedup, Protocol(code))
    ensures ReqId(code) !in s.req
  {
    if ReqId(code) in s.req {
      assert Reserved(s, ReqId(code));
      ReqIdInjective(CodeOf(s.req[ReqId(code)].val.who), code);
    }
  }

  lemma PutHeld(m: Dedup, code: Code, exp: int, r: Slot<Pending>)
    requires Held(m, r) && (r.exp.Some? && r.exp.value <= exp)
    ensures Held(SetExpiry(SAdd(m, Protocol(code), Label(code)), Protocol(code), exp), r)
  {
  }

  lemma PutNew(s: State, ask: Ask, code: Code)
    requires ValidCode(code)
    ensures Reserved(PutPending(s, ask, code), ReqId(code))
  {
    assert CodeOf(WireFor(ask, code, s.now).who) == code;
  }

  lemma PutKeepsPlaced(s: State, ask: Ask, code: Code, id: string)
    requires id in s.req && id != ReqId(code) && Placed(s, id) && RequestOf(s, ask.user).None?
    ensures Placed(PutPending(s, ask, code), id)
  {
  }

  lemma PutRequests(s: State, ask: Ask, code: Code, u: User)
    requires u != ask.user && ReqId(code) !in s.req && (u in s.reqByUser ==> Requested(s, u))
    ensures var t := PutPending(s, ask, code);
      (u in t.reqByUser ==> Requested(t, u)) && RequestOf(t, u) == RequestOf(s, u)
  {
  }

  function Asked(s: State, ask: Ask, code: Code): Slot<Pending> {
    Slot(WireFor(ask, code, s.now), Some(s.now + REQ_TTL))
  }

  lemma PutKeepsReserved(s: State, ask: Ask, code: Code, id: string)
    requires CodesReserved(s) && RequestOf(s, ask.user).None? && id in s.req && id != ReqId(code)
    ensures Reserved(PutPending(s, ask, code), id)
  {
    assert Reserved(s, id);
    PutKeepsPlaced(s, ask, code, id);
    PutHeld(s.dedup, code, s.now + REQ_TTL + DEDUP_SLACK, s.req[id]);
  }

  /** Storing a request under a code whose label is free. */
  lemma PutCodes(s: State, ask: Ask, code: Code)
    requires CodesReserved(s) && ValidCode(code) && RequestOf(s, ask.user).None?
    requires Label(code) !in Members(s.dedup, Protocol(code))
    ensures var t := PutPending(s, ask, code);
      && CodesReserved(t)
      && forall u :: RequestOf(t, u) == if u == ask.user then Some(Asked(s, ask, code)) else RequestOf(s, u)
  {
    FreshCode(s, code);
    var t := PutPending(s, ask, code);
    forall id | id in t.req ensures Reserved(t, id) {
      if id == ReqId(code) {
        PutNew(s, ask, code);
      } else {
        PutKeepsReserved(s, ask, code, id);
      }
    }
    forall u ensures u in t.reqByUser ==> Requested(t, u)
      ensures RequestOf(t, u) == if u == ask.user then Some(Asked(s, ask, code)) else RequestOf(s, u)
    {
      if u != ask.user {
        assert u in s.reqByUser ==> Requested(s, u);
        PutRequests(s, ask, code, u);
      }
    }
  }

  lemma CheckPairedFrame(s: State, user: User)
    ensures RequestsAlike(s, CheckPaired(s, user).0)
  {
  }

  /** No user's live request carries a code whose label is free. */
  lemma FreshForAll(s: State, code: Code)
    requires CodesReserved(s) && Label(code) !in Members(s.dedup, Protocol(code))
    ensures forall u :: RequestOf(s, u).Some? ==> RequestOf(s, u).value.val.reqId != ReqId(code)
  {
    FreshCode(s, code);
    forall u | RequestOf(s, u).Some? ensures RequestOf(s, u).value.val.reqId != ReqId(code) {
      assert Reserved(s, s.reqByUser[u].val);
    }
  }

  lemma CreateCleared(s: State, ask: Ask, draws: seq<Code>) returns (s2: State)
    requires CodesReserved(s) && !CheckPaired(s, ask.user).1
    ensures CodesReserved(s2) && s2.now == s.now
    ensures s2 == ClearPending(CheckPaired(s, ask.user).0, ask.user)
    ensures forall u :: RequestOf(s2, u) == if u == ask.user then None else RequestOf(s, u)
  {
    var s1 := CheckPaired(s, ask.user).0;
    CheckPairedFrame(s, ask.user);
    SameCodes(s, s1);
    ClearCodes(s1, ask.user);
    s2 := ClearPending(s1, ask.user);
  }

  /** Clearing a user's request frees its own label and no other. */
  lemma ClearedLabels(s: State, user: User, d: Code)
    requires CodesReserved(s)
    ensures Label(d) in Members(ClearPending(s, user).dedup, Protocol(d)) <==> TakenFor(s, user, d)
  {
    if user in s.reqByUser {
      assert Requested(s, user) && Reserved(s, s.reqByUser[user].val);
      var c := CodeOf(s.req[s.reqByUser[user].val].val.who);
      ClearedDedup(s, user);
      LabelGone(s.dedup, c, d);
      assert RequestOf(s, user).value.val.reqId == ReqId(c);
    }
  }

  lemma ClearedDedup(s: State, user: User)
    requires user in s.reqByUser && s.reqByUser[user].val in s.req
    requires Named(s.reqByUser[user].val, s.req[s.reqByUser[user].val].val)
    ensures var c := CodeOf(s.req[s.reqByUser[user].val].val.who);
      ClearPending(s, user).dedup == SRem(s.dedup, Protocol(c), Label(c))
  {
  }

  lemma LabelGone(m: Dedup, c: Code, d: Code)
    ensures Label(d) in Members(SRem(m, Protocol(c), Label(c)), Protocol(d))
       <==> Label(d) in Members(m, Protocol(d)) && ReqId(d) != ReqId(c)
  {
    if ReqId(c) == ReqId(d) {
      ReqIdInjective(c, d);
    }
  }

  lemma {:induction false} FirstFreeAt(draws: seq<Code>, m: Dedup, c: Code)
    requires FirstFree(draws, m) == Some(c)
    ensures exists i :: 0 <= i < |draws| && draws[i] == c && Label(c) !in Members(m, Protocol(c))
                        && forall j :: 0 <= j < i ==> Label(draws[j]) in Members(m, Protocol(draws[j]))
  {
    if Label(draws[0]) in Members(m, Protocol(draws[0])) {
      FirstFreeAt(draws[1..], m, c);
      var i :| 0 <= i < |draws[1..]| && draws[1..][i] == c && Label(c) !in Members(m, Protocol(c))
               && forall j :: 0 <= j < i ==> Label(draws[1..][j]) in Members(m, Protocol(draws[1..][j]));
      assert draws[i + 1] == c;
      forall j | 0 <= j < i + 1 ensures Label(draws[j]) in Members(m, Protocol(draws[j])) {
        assert j > 0 ==> draws[j] == draws[1..][j - 1];
      }
    } else {
      assert draws[0] == c;
    }
  }

  /** The loop over the draws sees the labels that are taken for this user. */
  lemma CreateDraws(s: State, s2: State, ask: Ask, draws: seq<Code>)
    requires CodesReserved(s) && !PairedNow(s, ask.user)
    requires s2 == ClearPending(CheckPaired(s, ask.user).0, ask.user)
    ensures var free := FirstFree(draws, s2.dedup);
      && (free.None? <==> forall d :: d in draws ==> TakenFor(s, ask.user, d))
      && (free.Some? ==> exists i :: FirstUntaken(s, ask.user, draws, i) && draws[i] == free.value)
  {
    var s1, free := CheckPaired(s, ask.user).0, FirstFree(draws, s2.dedup);
    CheckPairedFrame(s, ask.user);
    SameCodes(s, s1);
    forall d ensures Label(d) in Members(s2.dedup, Protocol(d)) <==> TakenFor(s, ask.user, d) {
      ClearedLabels(s1, ask.user, d);
    }
    if free.Some? {
      FirstFreeAt(draws, s2.dedup, free.value);
      var i :| 0 <= i < |draws| && draws[i] == free.value
               && forall j :: 0 <= j < i ==> Label(draws[j]) in Members(s2.dedup, Protocol(draws[j]));
      assert FirstUntaken(s, ask.user, draws, i);
    }
  }

  lemma CreateReply(s: State, s2: State, ask: Ask, draws: seq<Code>, code: Code)
    requires CodesReserved(s2) && code in draws
    requires forall u :: RequestOf(s2, u) == if u == ask.user then None else RequestOf(s, u)
    requires Label(code) !in Members(s2.dedup, Protocol(code)) && !PairedNow(s, ask.user)
    requires exists i :: FirstUntaken(s, ask.user, draws, i) && draws[i] == code
    ensures CodeReply(s, CreateOp(ask, draws), Created(Issued(code)))
  {
    FreshForAll(s2, code);
    forall u | u != ask.user && RequestOf(s, u).Some? ensures RequestOf(s, u).value.val.reqId != ReqId(code) {
      assert RequestOf(s2, u) == RequestOf(s, u);
    }
  }

  lemma CreateWithCode(s: State, s2: State, ask: Ask, draws: seq<Code>, code: Code)
    requires CodesReserved(s2) && s2.now == s.now && ValidCode(code) && code in draws
    requires forall u :: RequestOf(s2, u) == if u == ask.user then None else RequestOf(s, u)
    requires Label(code) !in Members(s2.dedup, Protocol(code))
    ensures var t := PutPending(s2, ask, code);
      && CodesReserved(t)
      && forall u :: RequestOf(t, u)
           == NextRequest(RequestOf(s, u), u, s.now, CreateOp(ask, draws), Created(Issued(code)))
  {
    PutCodes(s2, ask, code);
  }

  lemma CreateCodes(s: State, ask: Ask, draws: seq<Code>)
    requires CodesReserved(s) && ValidDraws(CreateOp(ask, draws))
    ensures var (t, reply) := Create(s, ask, draws);
      && CodesReserved(t)
      && (forall u :: RequestOf(t, u) == NextRequest(RequestOf(s, u), u, s.now, CreateOp(ask, draws), Created(reply)))
      && CodeReply(s, CreateOp(ask, draws), Created(reply))
  {
    if CheckPaired(s, ask.user).1 {
      CheckPairedFrame(s, ask.user);
      SameCodes(s, CheckPaired(s, ask.user).0);
    } else {
      var s2 := CreateCleared(s, ask, draws);
      var free := FirstFree(draws, s2.dedup);
      CreateDraws(s, s2, ask, draws);
      if free.Some? {
        CreateReply(s, s2, ask, draws, free.value);
        CreateWithCode(s, s2, ask, draws, free.value);
        assert Create(s, ask, draws) == (PutPending(s2, ask, free.value), Issued(free.value));
      } else {
        assert Create(s, ask, draws) == (s2, NoFreeCode);
      }
    }
  }

  /** A typed code finds its request just when some user's request matches it. */
  lemma MatchesFound(s: State, code: Code, client: ClientKey)
    requires CodesReserved(s)
    ensures ReqId(code) in s.req && (var p := s.req[ReqId(code)].val; p.expected == "" || p.expected == client)
            <==> exists u :: Matches(RequestOf(s, u), code, client)
    ensures ReqId(code) in s.req ==> RequestOf(s, s.req[ReqId(code)].val.who.user) == Some(s.req[ReqId(code)])
  {
    if ReqId(code) in s.req {
      assert Reserved(s, ReqId(code));
      assert s.req[ReqId(code)].val.reqId == ReqId(code);
      if s.req[ReqId(code)].val.expected == "" || s.req[ReqId(code)].val.expected == client {
        assert Matches(RequestOf(s, s.req[ReqId(code)].val.who.user), code, client);
      }
    }
    forall u | Matches(RequestOf(s, u), code, client)
      ensures ReqId(code) in s.req && RequestOf(s, u) == Some(s.req[ReqId(code)])
    {
      assert Reserved(s, s.reqByUser[u].val);
    }
  }

  lemma PairReplies(s: State, code: Code, client: ClientKey, at: int)
    requires CodesReserved(s)
    ensures CodeReply(s, PairOp(code, client, at), Tried(Pair(s, code, client, at).1))
    ensures Pair(s, code, client, at).1.Paired? ==>
              ReqId(code) in s.req && Pair(s, code, client, at).1.session.who.user == s.req[ReqId(code)].val.who.user
  {
    MatchesFound(s, code, client);
    if Pair(s, code, client, at).1.Paired? {
      SessionIs(s.req[ReqId(code)].val, client, at);
    }
  }

  lemma PairCodes(s: State, code: Code, client: ClientKey, at: int)
    requires CodesReserved(s)
    ensures var (t, reply) := Pair(s, code, client, at);
      && CodesReserved(t)
      && (forall u :: RequestOf(t, u) == NextRequest(RequestOf(s, u), u, s.now, PairOp(code, client, at), Tried(reply)))
      && CodeReply(s, PairOp(code, client, at), Tried(reply))
  {
    var (t, reply) := Pair(s, code, client, at);
    PairReplies(s, code, client, at);
    if reply.Paired? {
      PairDrops(s, code, client, at);
      DropCodes(s, t, ReqId(code));
    }
  }

  lemma SessionIs(p: Pending, client: ClientKey, at: int)
    ensures SessionOf(SessionFor(p, client, at), p, client, at)
  {
  }

  lemma PairDrops(s: State, code: Code, client: ClientKey, at: int)
    requires CodesReserved(s) && Pair(s, code, client, at).1.Paired?
    ensures var t, id := Pair(s, code, client, at).0, ReqId(code);
      Dropped(s, t, id) && t.dedup == SRem(s.dedup, s.req[id].val.who.protocol, Label(CodeOf(s.req[id].val.who)))
  {
    assert Reserved(s, ReqId(code));
    ReqIdInjective(CodeOf(s.req[ReqId(code)].val.who), code);
  }

  /** The methods that leave requests alone. */
  lemma OthersKeepCodes(s: State, op: Op)
    requires CodesReserved(s)
    requires !op.Tick? && !op.CreateOp? && !op.CancelOp? && !op.PairOp?
    ensures CodesReserved(Step(s, op).0)
    ensures forall u :: RequestOf(Step(s, op).0, u) == RequestOf(s, u)
  {
    SessionsOnly(s, op);
    SameCodes(s, Step(s, op).0);
  }

  predicate RequestsAlike(s: State, t: State) {
    t.now == s.now && t.req == s.req && t.reqByUser == s.reqByUser && t.dedup == s.dedup
  }

  lemma UnpairFrame(s: State, client: ClientKey)
    ensures RequestsAlike(s, Unpair(s, client))
  {
  }

  lemma TouchFrame(s: State, client: ClientKey, seen: int, ttl: Option<nat>, scope: Scope)
    ensures RequestsAlike(s, Touch(s, client, seen, ttl)) && RequestsAlike(s, Rescope(s, client, scope))
  {
  }

  lemma SessionsOnly(s: State, op: Op)
    requires !op.Tick? && !op.CreateOp? && !op.CancelOp? && !op.PairOp?
    ensures RequestsAlike(s, Step(s, op).0)
  {
    match op
    case TouchOp(client, seen, ttl) => TouchFrame(s, client, seen, TtlArg(ttl), Scope([], [], true));
    case RescopeOp(client, scope) => TouchFrame(s, client, 0, None, scope);
    case UnpairOp(client) => UnpairFrame(s, client);
    case UnpairAllOp(user) => if user in s.byUser { UnpairFrame(s, s.byUser[user].val); }
    case ListOp(_) =>
  }

  /**
   * Every store method keeps the reservation invariant, moves every user's request as the simple view says, and
   * replies as that view says.
   */
  lemma StepRefinesCodes(s: State, op: Op)
    requires CodesReserved(s) && ValidDraws(op)
    ensures var (t, reply) := Step(s, op);
      && CodesReserved(t)
      && (forall u :: RequestOf(t, u) == NextRequest(RequestOf(s, u), u, s.now, op, reply))
      && CodeReply(s, op, reply)
  {
    var (t, reply) := Step(s, op);
    match op
    case Tick(d) => TickCodes(s, d);
    case CreateOp(ask, draws) => CreateCodes(s, ask, draws);
    case CancelOp(user) => ClearCodes(s, user);
    case PairOp(code, client, at) => PairCodes(s, code, client, at);
    case _ => OthersKeepCodes(s, op);
  }
}
