/** What the history of calls says about a typed code: the headline results of the pairing store. */
module PairingHistory {
  import opened Options
  import opened PairingKeys
  import opened PairingModel
  import opened PairingRuns
  import opened PairingCodes

  // ----- history -----

  /** The time of the last operation: only clock steps take any. */
  function Clock(ops: seq<Op>): int {
    if ops == [] then 0 else Clock(ops[..|ops| - 1]) + if ops[|ops| - 1].Tick? then ops[|ops| - 1].d else 0
  }

  datatype Ticket = Ticket(ask: Ask, code: Code, at: int)

  /** How one call changes the ticket that user u holds. */
  function NextTicket(cur: Option<Ticket>, u: User, now: int, op: Op, reply: Reply): Option<Ticket> {
    match op
    case CreateOp(ask, _) =>
      if ask.user != u || !reply.Created? || reply.create.AlreadyPaired? then cur
      else if reply.create.NoFreeCode? then None
      else Some(Ticket(ask, reply.create.code, now))
    case CancelOp(user) => if user == u then None else cur
    case PairOp(_, _, _) => if reply.Tried? && reply.pair.Paired? && reply.pair.session.who.user == u then None else cur
    case _ => cur
  }

  /**
   * The last code issued to u and since then neither cancelled, replaced nor completed; its age does not matter here.
   */
  function LatestTicket(ops: seq<Op>, u: User): Option<Ticket> {
    if ops == [] then None else
      var before := ops[..|ops| - 1];
      NextTicket(LatestTicket(before, u), u, Clock(before), ops[|ops| - 1], LastReply(ops))
  }

  ghost predicate HonestRun(ops: seq<Op>) {
    forall i :: 0 <= i < |ops| ==> ValidDraws(ops[i])
  }

  /** The stored request that a ticket still stands for at a given time. */
  function Live(tk: Option<Ticket>, now: int): Option<Slot<Pending>> {
    if tk.Some? && now <= tk.value.at + REQ_TTL then
      Some(Slot(WireFor(tk.value.ask, tk.value.code, tk.value.at), Some(tk.value.at + REQ_TTL)))
    else None
  }

  lemma StepKeepsTime(s: State, op: Op)
    ensures Step(s, op).0.now == s.now + if op.Tick? then op.d else 0
  {
    match op
    case Tick(_) =>
    case CreateOp(ask, draws) => CreateKeepsTime(s, ask, draws);
    case CancelOp(_) =>
    case PairOp(code, client, at) => PairKeepsTime(s, code, client, at);
    case _ => SessionsOnly(s, op);
  }

  lemma CreateKeepsTime(s: State, ask: Ask, draws: seq<Code>)
    ensures Create(s, ask, draws).0.now == s.now
  {
    assert ClearPending(CheckPaired(s, ask.user).0, ask.user).now == s.now;
  }

  lemma PairKeepsTime(s: State, code: Code, client: ClientKey, at: int)
    ensures Pair(s, code, client, at).0.now == s.now
  {
  }

  lemma TicketFollowsRequest(cur: Option<Ticket>, u: User, now: int, op: Op, reply: Reply)
    ensures NextRequest(Live(cur, now), u, now, op, reply)
              == Live(NextTicket(cur, u, now, op, reply), now + if op.Tick? then op.d else 0)
  {
  }

  lemma TicketStep(s: State, op: Op, u: User, cur: Option<Ticket>)
    requires CodesReserved(s) && ValidDraws(op) && RequestOf(s, u) == Live(cur, s.now)
    ensures var (t, reply) := Step(s, op);
      && CodesReserved(t) && t.now == s.now + (if op.Tick? then op.d else 0)
      && RequestOf(t, u) == Live(NextTicket(cur, u, s.now, op, reply), t.now)
  {
    StepRefinesCodes(s, op);
    StepKeepsTime(s, op);
    TicketFollowsRequest(cur, u, s.now, op, Step(s, op).1);
  }

  /** Over every run, Redis holds u's request just when u's latest ticket is at most five minutes old. */
  lemma {:induction false} HistoryDecidesRequests(ops: seq<Op>, u: User)
    requires HonestRun(ops)
    ensures CodesReserved(Final(ops)) && Final(ops).now == Clock(ops)
    ensures RequestOf(Final(ops), u) == Live(LatestTicket(ops, u), Clock(ops))
  {
    if ops != [] {
      var n := |ops| - 1;
      var before, op := ops[..n], ops[n];
      HistoryDecidesRequests(before, u);
      TicketStep(Final(before), op, u, LatestTicket(before, u));
    }
  }

  /**
   * The ticket that lets this handset pair with this code: the newest of its user, at most five minutes old, and meant
   * for any handset or for this one.
   */
  predicate Opens(ops: seq<Op>, u: User, code: Code, client: ClientKey) {
    var tk := LatestTicket(ops, u);
    && tk.Some? && tk.value.code == code
    && Clock(ops) <= tk.value.at + 300_000 // five minutes
    && (code.Cvs? || tk.value.ask.expected == "" || tk.value.ask.expected == client)
  }

  /** The session is for this code, and has the login, vehicles and brake window asked for. */
  predicate AsAsked(session: Session, ask: Ask, code: Code) {
    && session.scope == ask.scope && session.who.login == ask.login
    && session.who.brakeSecs == BrakeSecsFor(ask.brakeSecs)
    && session.who.user == ask.user && session.who.protocol == Protocol(code)
    && match code
       case Cvs(cv3, cv4) => session.who.cv3 == cv3 && session.who.cv4 == cv4 && session.who.digits == ""
       case Digits(digits) => session.who.cv3 == session.who.cv4 == 0 && session.who.digits == digits
  }

  lemma TicketSession(session: Session, tk: Ticket, client: ClientKey, at: int)
    requires SessionOf(session, WireFor(tk.ask, tk.code, tk.at), client, at)
    ensures AsAsked(session, tk.ask, tk.code)
  {
  }

  lemma OpensMatches(ops: seq<Op>, u: User, code: Code, client: ClientKey)
    requires HonestRun(ops)
    ensures Opens(ops, u, code, client) <==> Matches(RequestOf(Final(ops), u), code, client)
  {
    HistoryDecidesRequests(ops, u);
    if RequestOf(Final(ops), u).Some? && RequestOf(Final(ops), u).value.val.reqId == ReqId(code) {
      ReqIdInjective(LatestTicket(ops, u).value.code, code);
    }
  }

  lemma CreateIssuesFirst(s: State, ask: Ask, draws: seq<Code>)
    requires CodesReserved(s) && ValidDraws(CreateOp(ask, draws))
    ensures IssuesFirst(s, ask.user, draws, Create(s, ask, draws).1)
  {
    StepRefinesCodes(s, CreateOp(ask, draws));
  }

  /**
   * After any run a request for a code is refused to a paired user only, and gives up only when all drawn labels are
   * taken, the one that the user gives up not counted; otherwise it issues the first drawn code whose label is not.
   */
  lemma CreateRepliesIff(ops: seq<Op>, ask: Ask, draws: seq<Code>)
    requires HonestRun(ops) && ValidDraws(CreateOp(ask, draws))
    ensures var s, reply := Final(ops), Create(Final(ops), ask, draws).1;
      && (reply == AlreadyPaired <==> PairedNow(s, ask.user))
      && (reply == NoFreeCode <==> !PairedNow(s, ask.user) && forall d :: d in draws ==> TakenFor(s, ask.user, d))
      && forall i :: !PairedNow(s, ask.user) && FirstUntaken(s, ask.user, draws, i) ==> reply == Issued(draws[i])
  {
    HistoryDecidesRequests(ops, 0);
    var s, reply := Final(ops), Create(Final(ops), ask, draws).1;
    CreateIssuesFirst(s, ask, draws);
    forall i | !PairedNow(s, ask.user) && FirstUntaken(s, ask.user, draws, i) ensures reply == Issued(draws[i]) {
      OnlyFirst(s, ask.user, draws, reply, i);
    }
  }

  /**
   * After any run a typed code succeeds exactly when it opens some user's ticket; it then pairs that user as of now,
   * with the login, vehicles and brake window asked for.
   */
  lemma CodeSucceedsIff(ops: seq<Op>, code: Code, client: ClientKey, at: int)
    requires HonestRun(ops)
    ensures var reply := Pair(Final(ops), code, client, at).1;
      && (reply.Paired? <==> exists u :: Opens(ops, u, code, client))
      && (reply.Paired? ==>
            var u := reply.session.who.user;
            && Opens(ops, u, code, client)
            && AsAsked(reply.session, LatestTicket(ops, u).value.ask, code)
            && reply.session.client == client && reply.session.pairedAt == reply.session.lastSeenAt == at)
  {
    HistoryDecidesRequests(ops, 0);
    var reply := Pair(Final(ops), code, client, at).1;
    StepRefinesCodes(Final(ops), PairOp(code, client, at));
    if reply.Paired? {
      var u := reply.session.who.user;
      OpensMatches(ops, u, code, client);
      HistoryDecidesRequests(ops, u);
      TicketSession(reply.session, LatestTicket(ops, u).value, client, at);
    }
    forall u | Opens(ops, u, code, client) ensures reply.Paired? {
      OpensMatches(ops, u, code, client);
      assert Reserved(Final(ops), ReqId(code));
      ReqIdInjective(CodeOf(Final(ops).req[ReqId(code)].val.who), code);
    }
  }

  /** A fresh code never displaces a live one: no two users hold live tickets for the same code. */
  lemma OneOwnerPerCode(ops: seq<Op>, u: User, v: User)
    requires HonestRun(ops)
    requires Live(LatestTicket(ops, u), Clock(ops)).Some? && Live(LatestTicket(ops, v), Clock(ops)).Some?
    requires LatestTicket(ops, u).value.code == LatestTicket(ops, v).value.code
    ensures u == v
  {
    HistoryDecidesRequests(ops, u);
    HistoryDecidesRequests(ops, v);
    var s := Final(ops);
    assert Reserved(s, s.reqByUser[u].val) && Reserved(s, s.reqByUser[v].val);
  }

  // ----- a code works once -----

  /** No live request carries the code. */
  ghost predicate Dead(s: State, code: Code) {
    forall u :: RequestOf(s, u).Some? ==> RequestOf(s, u).value.val.reqId != ReqId(code)
  }

  lemma DeadStaysDead(s: State, op: Op, code: Code)
    requires CodesReserved(s) && ValidDraws(op) && Dead(s, code)
    requires Step(s, op).1 != Created(Issued(code))
    ensures Dead(Step(s, op).0, code)
  {
    StepRefinesCodes(s, op);
    var (t, reply) := Step(s, op);
    forall u | RequestOf(t, u).Some? ensures RequestOf(t, u).value.val.reqId != ReqId(code) {
      if reply.Created? && reply.create.Issued? && ReqId(reply.create.code) == ReqId(code) {
        ReqIdInjective(reply.create.code, code);
      }
    }
  }

  lemma {:induction false} DeadAfter(ops: seq<Op>, from: nat, code: Code)
    requires from <= |ops| && HonestRun(ops) && Dead(Final(ops[..from]), code)
    requires forall i {:trigger ops[..i]} :: from < i <= |ops| ==> LastReply(ops[..i]) != Created(Issued(code))
    ensures Dead(Final(ops), code)
  {
    if from == |ops| {
      assert ops[..from] == ops;
    } else {
      var before := ops[..|ops| - 1];
      assert before[..from] == ops[..from];
      forall i {:trigger before[..i]} | from < i <= |before| ensures LastReply(before[..i]) != Created(Issued(code)) {
        assert before[..i] == ops[..i];
      }
      DeadAfter(before, from, code);
      HistoryDecidesRequests(before, 0);
      assert ops[..|ops|] == ops;
      DeadStaysDead(Final(before), ops[|ops| - 1], code);
    }
  }

  lemma PairingKillsCode(s: State, code: Code, client: ClientKey, at: int)
    requires CodesReserved(s) && Pair(s, code, client, at).1.Paired?
    ensures Dead(Pair(s, code, client, at).0, code)
  {
    StepRefinesCodes(s, PairOp(code, client, at));
    var t := Pair(s, code, client, at).0;
    forall u | RequestOf(t, u).Some? ensures RequestOf(t, u).value.val.reqId != ReqId(code) {
      assert Reserved(t, t.reqByUser[u].val);
    }
  }

  lemma DeadCodeFails(s: State, code: Code, client: ClientKey, at: int)
    requires CodesReserved(s) && Dead(s, code)
    ensures !Pair(s, code, client, at).1.Paired?
  {
    MatchesFound(s, code, client);
  }

  lemma RunThroughPair(ops: seq<Op>, k: nat)
    requires k < |ops| && ops[k].PairOp?
    ensures Final(ops[..k + 1]) == Pair(Final(ops[..k]), ops[k].code, ops[k].client, ops[k].at).0
  {
    assert ops[..k + 1][..k] == ops[..k];
  }

  /** Once a code has paired a handset, it never pairs another until it is issued anew. */
  lemma CodeWorksOnce(ops: seq<Op>, first: nat, client: ClientKey, at: int)
    requires HonestRun(ops) && first < |ops| && ops[first].PairOp?
    requires Pair(Final(ops[..first]), ops[first].code, ops[first].client, ops[first].at).1.Paired?
    requires forall i {:trigger ops[..i]} :: first + 1 < i <= |ops| ==>
              LastReply(ops[..i]) != Created(Issued(ops[first].code))
    ensures !Pair(Final(ops), ops[first].code, client, at).1.Paired?
  {
    HistoryDecidesRequests(ops[..first], 0);
    PairingKillsCode(Final(ops[..first]), ops[first].code, ops[first].client, ops[first].at);
    RunThroughPair(ops, first);
    DeadAfter(ops, first + 1, ops[first].code);
    HistoryDecidesRequests(ops, 0);
    DeadCodeFails(Final(ops), ops[first].code, client, at);
  }
}
