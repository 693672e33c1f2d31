/** How long the dedup set keeps a label: over every run of store calls, exactly until its protocol falls silent. */
module PairingLabels {
  import opened Options
  import opened PairingKeys
  import opened PairingModel
  import opened PairingRuns
  import opened PairingCodes

  const RESERVATION := 330_000 // five and a half minutes

  /** The label is in its protocol's dedup set, which expires at a known time. */
  predicate Kept(s: State, code: Code) {
    Label(code) in Members(s.dedup, Protocol(code)) && s.dedup[Protocol(code)].exp.Some?
  }

  /** The label is reserved although no request carries the code. */
  predicate Orphaned(s: State, code: Code) {
    Kept(s, code) && ReqId(code) !in s.req
  }

  /** The call issues a code of this protocol, and so renews every reservation of it. */
  predicate Issues(s: State, op: Op, protocol: string) {
    var reply := Step(s, op).1;
    op.CreateOp? && reply.Created? && reply.create.Issued? && Protocol(reply.create.code) == protocol
  }

  /** The user's current request is for the code. */
  predicate Carries(s: State, user: User, code: Code) {
    RequestOf(s, user).Some? && RequestOf(s, user).value.val.reqId == ReqId(code)
  }

  /** The call gives the label back: it completes, cancels or replaces the request that carries the code. */
  predicate Returns(s: State, op: Op, code: Code) {
    match op
    case CreateOp(ask, _) => Carries(s, ask.user, code)
    case CancelOp(user) => Carries(s, user, code)
    case PairOp(tried, _, _) => ReqId(code) in s.req && tried == code
    case _ => false
  }

  /** When the dedup set of the protocol will expire after the call. */
  function NextExpiry(s: State, op: Op, protocol: string, exp: int): int {
    if Issues(s, op, protocol) then s.now + RESERVATION else exp
  }

  // ----- which labels a call takes and gives back -----

  predicate Taken(s: State, d: Code) {
    Label(d) in Members(s.dedup, Protocol(d))
  }

  predicate OutlivesTick(s: State, d: Code, ticks: nat) {
    Taken(s, d) && (s.dedup[Protocol(d)].exp.Some? ==> s.now + ticks <= s.dedup[Protocol(d)].exp.value)
  }

  /** Whether a label is reserved after a call, going by the requests and the label before it and by the reply. */
  predicate NextTaken(s: State, op: Op, reply: Reply, d: Code) {
    match op
    case Tick(ticks) => OutlivesTick(s, d, ticks)
    case CreateOp(ask, _) =>
      if reply == Created(AlreadyPaired) then Taken(s, d)
      else (Taken(s, d) && !Carries(s, ask.user, d)) || reply == Created(Issued(d))
    case CancelOp(user) => Taken(s, d) && !Carries(s, user, d)
    case PairOp(code, _, _) => Taken(s, d) && !(code == d && reply.Tried? && reply.pair.Paired?)
    case _ => Taken(s, d)
  }

  lemma PutTakes(s: State, ask: Ask, code: Code, d: Code)
    ensures Taken(PutPending(s, ask, code), d) <==> Taken(s, d) || code == d
  {
    if Protocol(code) == Protocol(d) && Label(code) == Label(d) {
      assert ReqId(code) == ReqId(d);
      ReqIdInjective(code, d);
    }
  }

  lemma ClearedTaken(s: State, user: User, d: Code)
    requires CodesReserved(s)
    ensures Taken(CheckPaired(s, user).0, d) == Taken(s, d)
    ensures Taken(ClearPending(CheckPaired(s, user).0, user), d) <==> Taken(s, d) && !Carries(s, user, d)
  {
    CheckPairedFrame(s, user);
    SameCodes(s, CheckPaired(s, user).0);
    ClearedLabels(CheckPaired(s, user).0, user, d);
  }

  lemma CreateMovesLabels(s: State, ask: Ask, draws: seq<Code>, d: Code)
    requires CodesReserved(s)
    ensures var (t, reply) := Create(s, ask, draws);
      Taken(t, d) <==> NextTaken(s, CreateOp(ask, draws), Created(reply), d)
  {
    var s1 := CheckPaired(s, ask.user).0;
    ClearedTaken(s, ask.user, d);
    if !CheckPaired(s, ask.user).1 {
      var s2 := ClearPending(s1, ask.user);
      var free := FirstFree(draws, s2.dedup);
      if free.Some? {
        PutTakes(s2, ask, free.value, d);
        assert Create(s, ask, draws) == (PutPending(s2, ask, free.value), Issued(free.value));
      } else {
        assert Create(s, ask, draws) == (s2, NoFreeCode);
      }
    } else {
      assert Create(s, ask, draws) == (s1, AlreadyPaired);
    }
  }

  lemma PairFrees(s: State, code: Code, client: ClientKey, at: int)
    requires CodesReserved(s)
    ensures var (t, reply) := Pair(s, code, client, at);
      t.dedup == if reply.Paired? then SRem(s.dedup, Protocol(code), Label(code)) else s.dedup
  {
    if Pair(s, code, client, at).1.Paired? {
      PairDrops(s, code, client, at);
      assert Reserved(s, ReqId(code));
      ReqIdInjective(CodeOf(s.req[ReqId(code)].val.who), code);
    }
  }

  lemma PairMovesLabels(s: State, code: Code, client: ClientKey, at: int, d: Code)
    requires CodesReserved(s)
    ensures var (t, reply) := Pair(s, code, client, at);
      Taken(t, d) <==> NextTaken(s, PairOp(code, client, at), Tried(reply), d)
  {
    PairFrees(s, code, client, at);
    if Pair(s, code, client, at).1.Paired? {
      LabelGone(s.dedup, code, d);
      if ReqId(code) == ReqId(d) {
        ReqIdInjective(code, d);
      }
    }
  }

  /**
   * Every method reserves and frees exactly the labels it should: it takes that of the code issued, and gives back
   * that of the request that is replaced, cancelled or completed; all others stay until their set expires.
   */
  lemma StepMovesLabels(s: State, op: Op, d: Code)
    requires CodesReserved(s)
    ensures var (t, reply) := Step(s, op); Taken(t, d) <==> NextTaken(s, op, reply, d)
  {
    match op
    case Tick(_) =>
    case CreateOp(ask, draws) => CreateMovesLabels(s, ask, draws, d);
    case CancelOp(user) => ClearedLabels(s, user, d);
    case PairOp(code, client, at) => PairMovesLabels(s, code, client, at, d);
    case _ => SessionsOnly(s, op);
  }

  // ----- one call -----

  /** The request under the code's name, if any, is an old one. */
  predicate NoNewRequest(s: State, t: State, code: Code) {
    ReqId(code) in t.req ==> ReqId(code) in s.req && t.req[ReqId(code)] == s.req[ReqId(code)]
  }

  /** The label stays, with its set's expiry, and no request takes its code. */
  predicate KeptUntil(s: State, t: State, code: Code, exp: int) {
    Kept(t, code) && t.dedup[Protocol(code)].exp == Some(exp) && NoNewRequest(s, t, code)
  }

  lemma SRemKeeps(m: Dedup, protocol: string, tag: string, code: Code)
    requires Label(code) in Members(m, Protocol(code)) && (protocol == Protocol(code) ==> tag != Label(code))
    ensures Label(code) in Members(SRem(m, protocol, tag), Protocol(code))
    ensures SRem(m, protocol, tag)[Protocol(code)].exp == m[Protocol(code)].exp
  {
  }

  lemma OtherLabel(id: string, p: Pending, code: Code)
    requires Named(id, p) && id != ReqId(code) && p.who.protocol == Protocol(code)
    ensures Label(CodeOf(p.who)) != Label(code)
  {
  }

  /** Taking away another request leaves the label. */
  lemma DropKeeps(s: State, t: State, id: string, code: Code)
    requires CodesReserved(s) && Kept(s, code) && id in s.req && id != ReqId(code)
    requires t.req == s.req - {id}
    requires t.dedup == SRem(s.dedup, s.req[id].val.who.protocol, Label(CodeOf(s.req[id].val.who)))
    ensures KeptUntil(s, t, code, s.dedup[Protocol(code)].exp.value)
  {
    assert Reserved(s, id);
    var w := s.req[id].val.who;
    if w.protocol == Protocol(code) {
      OtherLabel(id, s.req[id].val, code);
    }
    SRemKeeps(s.dedup, w.protocol, Label(CodeOf(w)), code);
  }

  /** Cancelling takes away the request, its index entry and its label. */
  lemma ClearsOne(s: State, user: User) returns (id: string)
    requires CodesReserved(s) && user in s.reqByUser
    ensures id in s.req && RequestOf(s, user) == Some(s.req[id]) && s.req[id].val.reqId == id
    ensures ClearPending(s, user).req == s.req - {id}
    ensures ClearPending(s, user).dedup == SRem(s.dedup, s.req[id].val.who.protocol, Label(CodeOf(s.req[id].val.who)))
  {
    id := s.reqByUser[user].val;
    assert Requested(s, user) && Reserved(s, id);
  }

  lemma ClearKeeps(s: State, user: User, code: Code)
    requires CodesReserved(s) && Kept(s, code) && !Carries(s, user, code)
    ensures KeptUntil(s, ClearPending(s, user), code, s.dedup[Protocol(code)].exp.value)
  {
    if user in s.reqByUser {
      var id := ClearsOne(s, user);
      DropKeeps(s, ClearPending(s, user), id, code);
    }
  }

  lemma PairKeeps(s: State, tried: Code, client: ClientKey, at: int, code: Code)
    requires CodesReserved(s) && Kept(s, code) && (ReqId(code) in s.req ==> tried != code)
    ensures KeptUntil(s, Pair(s, tried, client, at).0, code, s.dedup[Protocol(code)].exp.value)
  {
    if Pair(s, tried, client, at).1.Paired? {
      PairDrops(s, tried, client, at);
      if ReqId(tried) == ReqId(code) {
        ReqIdInjective(tried, code);
      }
      DropKeeps(s, Pair(s, tried, client, at).0, ReqId(tried), code);
    }
  }

  lemma PutKeeps(s: State, ask: Ask, issued: Code, code: Code)
    requires Kept(s, code) && Label(issued) !in Members(s.dedup, Protocol(issued))
    ensures issued != code
    ensures KeptUntil(s, PutPending(s, ask, issued), code,
                      if Protocol(issued) == Protocol(code) then s.now + RESERVATION
                          else s.dedup[Protocol(code)].exp.value)
  {
    if ReqId(issued) == ReqId(code) {
      ReqIdInjective(issued, code);
    }
  }

  /** The last step of a successful request: storing the first free code. */
  lemma CreateIssues(s: State, ask: Ask, draws: seq<Code>) returns (s2: State, issued: Code)
    requires CodesReserved(s) && Create(s, ask, draws).1.Issued?
    ensures s2 == ClearPending(CheckPaired(s, ask.user).0, ask.user)
    ensures Create(s, ask, draws) == (PutPending(s2, ask, issued), Issued(issued)) && s2.now == s.now
    ensures Label(issued) !in Members(s2.dedup, Protocol(issued))
  {
    s2 := ClearPending(CheckPaired(s, ask.user).0, ask.user);
    issued := FirstFree(draws, s2.dedup).value;
    ClearingTakesNoTime(s, ask.user);
  }

  lemma ClearingTakesNoTime(s: State, user: User)
    ensures CheckPaired(s, user).0.now == s.now && ClearPending(CheckPaired(s, user).0, user).now == s.now
  {
  }

  lemma CheckKeeps(s: State, user: User, code: Code)
    requires CodesReserved(s) && Kept(s, code)
    ensures var t := CheckPaired(s, user).0; CodesReserved(t) && t.dedup == s.dedup && t.req == s.req && t.now == s.now
    ensures forall u :: Carries(CheckPaired(s, user).0, u, code) == Carries(s, u, code)
  {
    CheckPairedFrame(s, user);
    SameCodes(s, CheckPaired(s, user).0);
  }

  lemma CreateKeeps(s: State, ask: Ask, draws: seq<Code>, code: Code)
    requires CodesReserved(s) && Kept(s, code) && !Carries(s, ask.user, code)
    ensures KeptUntil(s, Create(s, ask, draws).0, code,
                      NextExpiry(s, CreateOp(ask, draws), Protocol(code), s.dedup[Protocol(code)].exp.value))
    ensures Create(s, ask, draws).1 != Issued(code)
  {
    ClearedKeeps(s, ask.user, code);
    if Create(s, ask, draws).1.Issued? {
      var s2, issued := CreateIssues(s, ask, draws);
      IssueKeeps(s, s2, ask, issued, code);
    } else {
      CreateIssuesNot(s, ask, draws);
    }
  }

  lemma IssueKeeps(s: State, s2: State, ask: Ask, issued: Code, code: Code)
    requires Kept(s, code) && s2.now == s.now && KeptUntil(s, s2, code, s.dedup[Protocol(code)].exp.value)
    requires Label(issued) !in Members(s2.dedup, Protocol(issued))
    ensures issued != code
    ensures KeptUntil(s, PutPending(s2, ask, issued), code,
                      if Protocol(issued) == Protocol(code) then s.now + RESERVATION
                          else s.dedup[Protocol(code)].exp.value)
  {
    PutKeeps(s2, ask, issued, code);
  }

  lemma ClearedKeeps(s: State, user: User, code: Code)
    requires CodesReserved(s) && Kept(s, code) && !Carries(s, user, code)
    ensures KeptUntil(s, CheckPaired(s, user).0, code, s.dedup[Protocol(code)].exp.value)
    ensures KeptUntil(s, ClearPending(CheckPaired(s, user).0, user), code, s.dedup[Protocol(code)].exp.value)
  {
    CheckKeeps(s, user, code);
    ClearKeeps(CheckPaired(s, user).0, user, code);
  }

  lemma CreateIssuesNot(s: State, ask: Ask, draws: seq<Code>)
    requires !Create(s, ask, draws).1.Issued?
    ensures Create(s, ask, draws).0 == CheckPaired(s, ask.user).0
         || Create(s, ask, draws).0 == ClearPending(CheckPaired(s, ask.user).0, ask.user)
  {
  }

  lemma TickKeepsIff(s: State, d: nat, code: Code)
    requires Kept(s, code)
    ensures Kept(Advance(s, d), code) <==> s.now + d <= s.dedup[Protocol(code)].exp.value
    ensures Kept(Advance(s, d), code) ==> KeptUntil(s, Advance(s, d), code, s.dedup[Protocol(code)].exp.value)
    ensures NoNewRequest(s, Advance(s, d), code)
  {
  }

  /** One call keeps a label that it does not give back unless it is a wait beyond the expiry of the set. */
  lemma CallKeepsIff(s: State, op: Op, code: Code)
    requires CodesReserved(s) && ValidDraws(op) && Kept(s, code) && !Returns(s, op, code)
    ensures var t, exp := Step(s, op).0, s.dedup[Protocol(code)].exp.value;
      && (Kept(t, code) <==> t.now <= exp || !op.Tick?)
      && (Kept(t, code) ==> KeptUntil(s, t, code, NextExpiry(s, op, Protocol(code), exp)))
  {
    match op
    case Tick(d) => TickKeepsIff(s, d, code);
    case CreateOp(ask, draws) => CreateKeeps(s, ask, draws, code);
    case CancelOp(user) => ClearKeeps(s, user, code);
    case PairOp(tried, client, at) => PairKeeps(s, tried, client, at, code);
    case _ => SessionsOnly(s, op);
  }

  // ----- runs from any state -----

  function Reach(s: State, ops: seq<Op>): State {
    if ops == [] then s else Step(Reach(s, ops[..|ops| - 1]), ops[|ops| - 1]).0
  }

  /**
   * When the reservation runs out: five and a half minutes after the protocol's last issue, or as it stood at the
   * start.
   */
  function Deadline(s: State, ops: seq<Op>, protocol: string, start: int): int {
    if ops == [] then start else
      var before := ops[..|ops| - 1];
      NextExpiry(Reach(s, before), ops[|ops| - 1], protocol, Deadline(s, before, protocol, start))
  }

  /** At no point of the run has the deadline passed. */
  ghost predicate NeverQuiet(s: State, ops: seq<Op>, protocol: string, start: int) {
    forall i {:trigger ops[..i]} :: 0 <= i <= |ops| ==> Reach(s, ops[..i]).now <= Deadline(s, ops[..i], protocol, start)
  }

  ghost predicate AlwaysKept(s: State, ops: seq<Op>, code: Code) {
    forall i {:trigger ops[..i]} :: 0 <= i <= |ops| ==> Kept(Reach(s, ops[..i]), code)
  }

  /** The call at this place of the run draws valid codes and does not give the label back. */
  predicate Leaves(s: State, ops: seq<Op>, i: nat, code: Code)
    requires i < |ops|
  {
    ValidDraws(ops[i]) && !Returns(Reach(s, ops[..i]), ops[i], code)
  }

  ghost predicate NeverReturned(s: State, ops: seq<Op>, code: Code) {
    forall i :: 0 <= i < |ops| ==> Leaves(s, ops, i, code)
  }

  lemma SamePrefixes(ops: seq<Op>)
    requires ops != []
    ensures ops[..|ops|] == ops
    ensures forall i {:trigger ops[..i]} :: 0 <= i < |ops| ==> ops[..|ops| - 1][..i] == ops[..i]
    ensures forall i {:trigger ops[..|ops| - 1][..i]} :: 0 <= i < |ops| ==> ops[..|ops| - 1][..i] == ops[..i]
  {
  }

  lemma KeptParts(s: State, ops: seq<Op>, code: Code)
    requires ops != []
    ensures AlwaysKept(s, ops, code) <==> AlwaysKept(s, ops[..|ops| - 1], code) && Kept(Reach(s, ops), code)
  {
    SamePrefixes(ops);
  }

  lemma QuietParts(s: State, ops: seq<Op>, protocol: string, start: int)
    requires ops != []
    ensures NeverQuiet(s, ops, protocol, start) <==>
            NeverQuiet(s, ops[..|ops| - 1], protocol, start) && Reach(s, ops).now <= Deadline(s, ops, protocol, start)
  {
    SamePrefixes(ops);
  }

  lemma ReturnedParts(s: State, ops: seq<Op>, code: Code)
    requires ops != [] && NeverReturned(s, ops, code)
    ensures var before, op := ops[..|ops| - 1], ops[|ops| - 1];
      NeverReturned(s, before, code) && ValidDraws(op) && !Returns(Reach(s, before), op, code)
  {
    var n := |ops| - 1;
    var before := ops[..n];
    assert Leaves(s, ops, n, code);
    forall i | 0 <= i < |before| ensures Leaves(s, before, i, code) {
      assert Leaves(s, ops, i, code);
      assert before[..i] == ops[..i] && before[i] == ops[i];
    }
  }

  /** What is known of a label at the end of a run that has kept it so far. */
  ghost predicate Standing(s: State, ops: seq<Op>, code: Code, start: int) {
    var t := Reach(s, ops);
    && CodesReserved(t) && KeptUntil(s, t, code, Deadline(s, ops, Protocol(code), start))
    && t.now <= Deadline(s, ops, Protocol(code), start)
  }

  lemma StandingStep(s: State, before: seq<Op>, op: Op, code: Code, start: int)
    requires Standing(s, before, code, start) && ValidDraws(op) && !Returns(Reach(s, before), op, code)
    ensures var t, deadline := Step(Reach(s, before), op).0,
              NextExpiry(Reach(s, before), op, Protocol(code), Deadline(s, before, Protocol(code), start));
      && (Kept(t, code) <==> t.now <= deadline)
      && (Kept(t, code) ==> CodesReserved(t) && KeptUntil(s, t, code, deadline))
  {
    var r := Reach(s, before);
    StepRefinesCodes(r, op);
    CallKeepsIff(r, op, code);
    if !op.Tick? {
      OnlyTicksTakeTime(r, op);
    }
  }

  lemma OnlyTicksTakeTime(s: State, op: Op)
    requires !op.Tick?
    ensures Step(s, op).0.now == s.now
  {
    match op
    case CreateOp(ask, draws) => CreateTakesNoTime(s, ask, draws);
    case CancelOp(_) =>
    case PairOp(code, client, at) => PairTakesNoTime(s, code, client, at);
    case _ => SessionsOnly(s, op);
  }

  lemma CreateTakesNoTime(s: State, ask: Ask, draws: seq<Code>)
    ensures Create(s, ask, draws).0.now == s.now
  {
    ClearingTakesNoTime(s, ask.user);
  }

  lemma PairTakesNoTime(s: State, code: Code, client: ClientKey, at: int)
    ensures Pair(s, code, client, at).0.now == s.now
  {
  }

  /**
   * Over every run of calls that do not give it back, a label is kept throughout if and only if no more than five and
   * a half minutes ever pass without its protocol issuing a code.
   */
  lemma {:induction false} LabelKeptIff(s: State, ops: seq<Op>, code: Code)
    requires CodesReserved(s) && Kept(s, code) && s.now <= s.dedup[Protocol(code)].exp.value
    requires NeverReturned(s, ops, code)
    ensures var start := s.dedup[Protocol(code)].exp.value;
      && (AlwaysKept(s, ops, code) <==> NeverQuiet(s, ops, Protocol(code), start))
      && (AlwaysKept(s, ops, code) ==> Standing(s, ops, code, start))
  {
    var start := s.dedup[Protocol(code)].exp.value;
    if ops == [] {
      assert ops[..0] == [];
      assert forall i {:trigger ops[..i]} :: 0 <= i <= |ops| ==> ops[..i] == [];
    } else {
      var before, op := ops[..|ops| - 1], ops[|ops| - 1];
      KeptParts(s, ops, code);
      QuietParts(s, ops, Protocol(code), start);
      ReturnedParts(s, ops, code);
      LabelKeptIff(s, before, code);
      if AlwaysKept(s, before, code) {
        StandingStep(s, before, op, code, start);
      }
    }
  }

  // ----- abandoned codes -----

  /** Nobody gives back the label of a code that no request carries. */
  lemma {:induction false} OrphansAreNotReturned(s: State, ops: seq<Op>, code: Code)
    requires CodesReserved(s) && Orphaned(s, code) && s.now <= s.dedup[Protocol(code)].exp.value
    requires forall op :: op in ops ==> ValidDraws(op)
    requires forall i {:trigger ops[..i]} :: 0 <= i < |ops| ==> Kept(Reach(s, ops[..i]), code)
    ensures NeverReturned(s, ops, code)
  {
    forall i | 0 <= i < |ops| ensures Leaves(s, ops, i, code) {
      assert ops[i] in ops;
      OrphanAt(s, ops, code, i);
      NobodyCarries(Reach(s, ops[..i]), code);
    }
  }

  lemma NobodyCarries(t: State, code: Code)
    requires CodesReserved(t) && ReqId(code) !in t.req
    ensures forall u :: !Carries(t, u, code)
  {
    forall u ensures !Carries(t, u, code) {
      if u in t.reqByUser {
        assert Requested(t, u) && Reserved(t, t.reqByUser[u].val);
      }
    }
  }

  lemma {:induction false} OrphanAt(s: State, ops: seq<Op>, code: Code, i: nat)
    requires CodesReserved(s) && Orphaned(s, code) && i <= |ops|
    requires forall op :: op in ops ==> ValidDraws(op)
    requires forall j {:trigger ops[..j]} :: 0 <= j < i ==> Kept(Reach(s, ops[..j]), code)
    ensures CodesReserved(Reach(s, ops[..i])) && ReqId(code) !in Reach(s, ops[..i]).req
    decreases i
  {
    if i == 0 {
      assert ops[..0] == [];
    } else {
      OrphanAt(s, ops, code, i - 1);
      assert ops[i - 1] in ops && ops[..i][..i - 1] == ops[..i - 1];
      OrphanStep(Reach(s, ops[..i - 1]), ops[i - 1], code);
    }
  }

  /** No call takes the code of an orphaned label, whether or not the label goes. */
  lemma OrphanStep(r: State, op: Op, code: Code)
    requires CodesReserved(r) && Orphaned(r, code) && ValidDraws(op)
    ensures CodesReserved(Step(r, op).0) && ReqId(code) !in Step(r, op).0.req
  {
    StepRefinesCodes(r, op);
    NobodyCarries(r, code);
    if op.Tick? {
      TickKeepsIff(r, op.d, code);
    } else {
      CallKeepsIff(r, op, code);
    }
  }

  ghost predicate AlwaysOrphaned(s: State, ops: seq<Op>, code: Code) {
    forall i {:trigger ops[..i]} :: 0 <= i <= |ops| ==> Orphaned(Reach(s, ops[..i]), code)
  }

  /** Up to the first moment at which it is not kept. */
  lemma {:induction false} FirstLoss(s: State, ops: seq<Op>, code: Code) returns (n: nat)
    requires Kept(s, code) && !AlwaysKept(s, ops, code)
    ensures 0 < n <= |ops| && !Kept(Reach(s, ops[..n]), code)
    ensures forall i {:trigger ops[..i]} :: 0 <= i < n ==> Kept(Reach(s, ops[..i]), code)
  {
    n := 0;
    assert ops[..0] == [];
    while Kept(Reach(s, ops[..n]), code)
      invariant n <= |ops|
      invariant forall i {:trigger ops[..i]} :: 0 <= i < n ==> Kept(Reach(s, ops[..i]), code)
      decreases |ops| - n
    {
      if n == |ops| {
        assert AlwaysKept(s, ops, code);
      }
      n := n + 1;
    }
  }

  /**
   * The exact life of an abandoned label, over every run of every call: it stays reserved throughout if and only if
   * its protocol never goes more than five and a half minutes without issuing a code. On a busy station it is
   * never released.
   */
  lemma AbandonedLabelKeptIff(s: State, ops: seq<Op>, code: Code)
    requires CodesReserved(s) && Orphaned(s, code) && s.now <= s.dedup[Protocol(code)].exp.value
    requires forall op :: op in ops ==> ValidDraws(op)
    ensures AlwaysOrphaned(s, ops, code) <==> NeverQuiet(s, ops, Protocol(code), s.dedup[Protocol(code)].exp.value)
  {
    var start := s.dedup[Protocol(code)].exp.value;
    if AlwaysKept(s, ops, code) {
      OrphansAreNotReturned(s, ops, code);
      LabelKeptIff(s, ops, code);
      forall i {:trigger ops[..i]} | 0 <= i <= |ops| ensures Orphaned(Reach(s, ops[..i]), code) {
        OrphanAt(s, ops, code, i);
      }
    } else {
      var n := FirstLoss(s, ops, code);
      var cut := ops[..n];
      forall i {:trigger cut[..i]} | 0 <= i <= n ensures cut[..i] == ops[..i] {}
      OrphansAreNotReturned(s, cut, code);
      LabelKeptIff(s, cut, code);
      assert cut[..n] == cut;
      assert !NeverQuiet(s, cut, Protocol(code), start);
    }
  }

  /** The single step of that: after a new request of the protocol, a wait releases the label just when it is longer. */
  lemma OrphanSurvivesCreateIff(s: State, ask: Ask, draws: seq<Code>, d: nat, code: Code)
    requires CodesReserved(s) && Orphaned(s, code) && ValidDraws(CreateOp(ask, draws))
    requires Issues(s, CreateOp(ask, draws), Protocol(code))
    ensures Orphaned(Advance(Create(s, ask, draws).0, d), code) <==> d <= RESERVATION
    ensures Create(s, ask, draws).1 != Issued(code)
  {
    NobodyCarries(s, code);
    CreateKeeps(s, ask, draws, code);
    OnlyTicksTakeTime(s, CreateOp(ask, draws));
    TickKeepsIff(Create(s, ask, draws).0, d, code);
  }

  /**
   * Abandoned labels come about in every run: a code is issued, nobody completes, cancels or replaces its request,
   * its protocol keeps issuing codes, and after five minutes the request is gone but its label is not.
   */
  lemma AbandonedCodeOrphansLabel(s: State, ask: Ask, code: Code, ops: seq<Op>)
    requires CodesReserved(s) && ValidCode(code) && RequestOf(s, ask.user).None?
    requires Label(code) !in Members(s.dedup, Protocol(code))
    requires NeverReturned(PutPending(s, ask, code), ops, code)
    requires NeverQuiet(PutPending(s, ask, code), ops, Protocol(code), s.now + RESERVATION)
    ensures Kept(Reach(PutPending(s, ask, code), ops), code)
    ensures Orphaned(Reach(PutPending(s, ask, code), ops), code) <==>
              Reach(PutPending(s, ask, code), ops).now > s.now + REQ_TTL
  {
    var p := PutPending(s, ask, code);
    PutCodes(s, ask, code);
    PutStarts(s, ask, code);
    LabelKeptIff(p, ops, code);
    var t := Reach(p, ops);
    if ReqId(code) in t.req {
      assert Reserved(t, ReqId(code));
    } else {
      RequestWaits(p, ops, code);
    }
  }

  lemma PutStarts(s: State, ask: Ask, code: Code)
    ensures var p, id := PutPending(s, ask, code), ReqId(code);
      && Kept(p, code) && p.dedup[Protocol(code)].exp == Some(s.now + RESERVATION) && p.now == s.now
      && id in p.req && p.req[id].exp == Some(s.now + REQ_TTL)
  {
  }

  /** Until it expires, a request that nobody completes, cancels or replaces stays. */
  lemma {:induction false} RequestWaits(s: State, ops: seq<Op>, code: Code)
    requires CodesReserved(s) && ReqId(code) in s.req && s.req[ReqId(code)].exp.Some?
    requires NeverReturned(s, ops, code) && AlwaysKept(s, ops, code)
    ensures CodesReserved(Reach(s, ops))
    ensures Reach(s, ops).now <= s.req[ReqId(code)].exp.value ==>
              ReqId(code) in Reach(s, ops).req && Reach(s, ops).req[ReqId(code)] == s.req[ReqId(code)]
  {
    if ops != [] {
      var before, op := ops[..|ops| - 1], ops[|ops| - 1];
      KeptParts(s, ops, code);
      ReturnedParts(s, ops, code);
      RequestWaits(s, before, code);
      var r := Reach(s, before);
      StepRefinesCodes(r, op);
      TimeGoesOn(r, op);
      if ReqId(code) in r.req {
        CallKeepsRequest(r, op, code);
      }
    }
  }

  lemma TimeGoesOn(s: State, op: Op)
    ensures Step(s, op).0.now >= s.now
  {
    if !op.Tick? {
      OnlyTicksTakeTime(s, op);
    }
  }

  lemma ClearKeepsRequest(s: State, user: User, code: Code)
    requires CodesReserved(s) && ReqId(code) in s.req && !Carries(s, user, code)
    ensures ReqId(code) in ClearPending(s, user).req && ClearPending(s, user).req[ReqId(code)] == s.req[ReqId(code)]
  {
    if user in s.reqByUser {
      var id := ClearsOne(s, user);
    }
  }

  lemma CallKeepsRequest(s: State, op: Op, code: Code)
    requires CodesReserved(s) && ReqId(code) in s.req && Kept(s, code) && !Returns(s, op, code)
    ensures var t := Step(s, op).0;
      !(op.Tick? && !Alive(s.req[ReqId(code)], t.now)) ==>
          ReqId(code) in t.req && t.req[ReqId(code)] == s.req[ReqId(code)]
  {
    match op
    case Tick(d) =>
    case CreateOp(ask, draws) => CreateKeepsRequest(s, ask, draws, code);
    case CancelOp(user) => ClearKeepsRequest(s, user, code);
    case PairOp(tried, client, at) => PairKeepsRequest(s, tried, client, at, code);
    case _ =>
      SessionsOnly(s, op);
      assert Step(s, op).0.req == s.req;
  }

  lemma PairKeepsRequest(s: State, tried: Code, client: ClientKey, at: int, code: Code)
    requires CodesReserved(s) && ReqId(code) in s.req && tried != code
    ensures var t := Pair(s, tried, client, at).0; ReqId(code) in t.req && t.req[ReqId(code)] == s.req[ReqId(code)]
  {
    if Pair(s, tried, client, at).1.Paired? {
      PairDrops(s, tried, client, at);
      if ReqId(tried) == ReqId(code) {
        ReqIdInjective(tried, code);
      }
    }
  }

  lemma PutKeepsRequest(s: State, ask: Ask, issued: Code, code: Code)
    requires ReqId(code) in s.req && Kept(s, code) && Label(issued) !in Members(s.dedup, Protocol(issued))
    ensures var t := PutPending(s, ask, issued); ReqId(code) in t.req && t.req[ReqId(code)] == s.req[ReqId(code)]
  {
    if ReqId(issued) == ReqId(code) {
      ReqIdInjective(issued, code);
    }
  }

  lemma CreateKeepsRequest(s: State, ask: Ask, draws: seq<Code>, code: Code)
    requires CodesReserved(s) && ReqId(code) in s.req && Kept(s, code) && !Carries(s, ask.user, code)
    ensures var t := Create(s, ask, draws).0; ReqId(code) in t.req && t.req[ReqId(code)] == s.req[ReqId(code)]
  {
    CheckKeeps(s, ask.user, code);
    ClearKeepsRequest(CheckPaired(s, ask.user).0, ask.user, code);
    ClearedKeeps(s, ask.user, code);
    if Create(s, ask, draws).1.Issued? {
      var s2, issued := CreateIssues(s, ask, draws);
      PutKeepsRequest(s2, ask, issued, code);
    } else {
      CreateIssuesNot(s, ask, draws);
    }
  }
}
