/** Runs of the pairing store: sequences of whole method calls and clock steps. */
module PairingRuns {
  import opened Options
  import opened PairingKeys
  import opened PairingModel

  datatype Op =
    | Tick(d: nat)
    | CreateOp(ask: Ask, draws: seq<Code>)
    | CancelOp(user: User)
    | PairOp(code: Code, client: ClientKey, at: int)
    | TouchOp(client: ClientKey, seen: int, ttl: int)
    | RescopeOp(client: ClientKey, scope: Scope)
    | UnpairOp(client: ClientKey)
    | UnpairAllOp(user: User)
    | ListOp(user: User)

  datatype Reply =
    | Done
    | Created(create: CreateReply)
    | Tried(pair: PairReply)
    | Rescoped(updated: Option<Session>)
    | Listed(sessions: seq<Session>)

  function Step(s: State, op: Op): (State, Reply) {
    match op
    case Tick(d) => (Advance(s, d), Done)
    case CreateOp(ask, draws) => var (t, r) := Create(s, ask, draws); (t, Created(r))
    case CancelOp(user) => (ClearPending(s, user), Done)
    case PairOp(code, client, at) => var (t, r) := Pair(s, code, client, at); (t, Tried(r))
    case TouchOp(client, seen, ttl) => (Touch(s, client, seen, TtlArg(ttl)), Done)
    case RescopeOp(client, scope) =>
      var t := Rescope(s, client, scope);
      (t, Rescoped(if client in t.active then Some(Decode(t.active[client].val)) else None))
    case UnpairOp(client) => (Unpair(s, client), Done)
    case UnpairAllOp(user) => (UnpairAll(s, user), Done)
    case ListOp(user) => var (t, r) := ListByUser(s, user); (t, Listed(r))
  }

  /** Codes come from the generators, which only draw valid ones. */
  predicate ValidDraws(op: Op) {
    op.CreateOp? ==> forall d :: d in op.draws ==> ValidCode(d)
  }

  function Final(ops: seq<Op>): State {
    if ops == [] then EMPTY else Step(Final(ops[..|ops| - 1]), ops[|ops| - 1]).0
  }

  /** The reply to the last operation of a run. */
  function LastReply(ops: seq<Op>): Reply
    requires ops != []
  {
    Step(Final(ops[..|ops| - 1]), ops[|ops| - 1]).1
  }
}
