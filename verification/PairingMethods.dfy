/** One session per user, for whole methods run one at a time from the empty store, whoever pairs which handset. */
module PairingMethods {
  import opened Options
  import opened PairingKeys
  import opened PairingModel
  import opened PairingRuns
  import opened PairingSessions

  /** Keys that lose entries, and nothing else, keep every remaining session indexed. */
  lemma FewerSessions(s: State, t: State)
    requires SessionsIndexed(s) && t.now == s.now
    requires forall c :: c in t.active ==> c in s.active && t.active[c] == s.active[c]
    requires forall c :: c in t.active ==>
               var u := s.active[c].val.who.user; u in s.byUser ==> u in t.byUser && t.byUser[u] == s.byUser[u]
    ensures SessionsIndexed(t)
  {
    forall c | c in t.active ensures Indexed(t, c) {
      assert Indexed(s, c);
    }
  }

  lemma CreateKeepsIndexed(s: State, ask: Ask, draws: seq<Code>)
    requires SessionsIndexed(s)
    ensures SessionsIndexed(Create(s, ask, draws).0)
  {
    var s1 := CheckPaired(s, ask.user).0;
    CheckKeepsIndexed(s, ask.user);
    ClearPendingFrame(s1, ask.user);
    FewerSessions(s1, Create(s, ask, draws).0);
  }

  lemma CheckKeepsIndexed(s: State, user: User)
    requires SessionsIndexed(s)
    ensures SessionsIndexed(CheckPaired(s, user).0) && SessionsIndexed(ListByUser(s, user).0)
  {
    forall c | c in s.active ensures s.active[c].val.who.user == user ==> user in s.byUser && s.byUser[user].val == c {
      assert Indexed(s, c);
    }
    FewerSessions(s, CheckPaired(s, user).0);
    FewerSessions(s, ListByUser(s, user).0);
  }

  lemma UnpairKeepsIndexed(s: State, client: ClientKey)
    requires SessionsIndexed(s)
    ensures SessionsIndexed(Unpair(s, client))
  {
    if client in s.active {
      IndexedMeansOne(s);
      ScriptKeepsIndexed(s, RunUnpair(client, s.active[client].val.who.user));
    }
  }

  lemma PairKeepsIndexed(s: State, code: Code, client: ClientKey, at: int)
    requires SessionsIndexed(s)
    ensures SessionsIndexed(Pair(s, code, client, at).0)
  {
    if Pair(s, code, client, at).1.Paired? {
      var p := s.req[ReqId(code)].val;
      CompleteKeepsIndexed(s, ReqId(code), Encode(SessionFor(p, client, at)), p.who.protocol,
          Label(code), Some(SESSION_TTL));
    }
  }

  /**
   * Every method, its lazy index deletes included, keeps each session indexed, also when it takes over someone's
   * handset.
   */
  lemma MethodKeepsIndexed(s: State, op: Op)
    requires SessionsIndexed(s) && TimelyOp(s, op)
    ensures SessionsIndexed(Step(s, op).0)
  {
    match op
    case Tick(d) => ClockKeepsIndexed(s, d);
    case CreateOp(ask, draws) => CreateKeepsIndexed(s, ask, draws);
    case CancelOp(user) =>
      ClearPendingFrame(s, user);
      FewerSessions(s, ClearPending(s, user));
    case PairOp(code, client, at) => PairKeepsIndexed(s, code, client, at);
    case TouchOp(client, seen, ttl) => TouchKeepsIndexed(s, client, seen, TtlArg(ttl));
    case RescopeOp(client, scope) => ScriptKeepsIndexed(s, RunRescope(client, scope));
    case UnpairOp(client) => UnpairKeepsIndexed(s, client);
    case UnpairAllOp(user) =>
      if user in s.byUser {
        UnpairKeepsIndexed(s, s.byUser[user].val);
      }
    case ListOp(user) => CheckKeepsIndexed(s, user);
  }

  ghost predicate TimelyCalls(ops: seq<Op>) {
    forall i {:trigger ops[..i]} :: 0 <= i < |ops| ==> TimelyOp(Final(ops[..i]), ops[i])
  }

  /** So after any run of whole methods no user has two sessions, and each session's index entry outlives it. */
  lemma {:induction false} MethodRunsKeepOneSession(ops: seq<Op>)
    requires TimelyCalls(ops)
    ensures SessionsIndexed(Final(ops)) && OneSessionPerUser(Final(ops))
  {
    if ops != [] {
      var n := |ops| - 1;
      assert TimelyCalls(ops[..n]) by {
        forall i | 0 <= i < n ensures ops[..n][..i] == ops[..i] && ops[..n][i] == ops[i] {}
      }
      MethodRunsKeepOneSession(ops[..n]);
      MethodKeepsIndexed(Final(ops[..n]), ops[n]);
    }
    IndexedMeansOne(Final(ops));
  }

  // ----- stale index entries -----

  /** The later state is the earlier one, with at most the user's index entry gone. */
  predicate OnlyDrops(s: State, t: State, u: User) {
    t == s.(byUser := t.byUser) && (t.byUser == s.byUser || t.byUser == s.byUser - {u})
  }

  /** The user's index entry names a handset without a session. */
  predicate Stale(s: State, u: User) {
    u in s.byUser && s.byUser[u].val !in s.active
  }

  /** Asking for a code, and listing, delete the user's stale index entry and nothing else. */
  lemma StaleEntryGoes(s: State, u: User)
    ensures var t := CheckPaired(s, u).0;
      OnlyDrops(s, t, u) && (u in t.byUser <==> u in s.byUser && (!Stale(s, u) || s.byUser[u].val == ""))
    ensures var t := ListByUser(s, u).0;
      OnlyDrops(s, t, u) && (u in t.byUser <==> u in s.byUser && !Stale(s, u))
  {
  }

  /** Looking for the pending request deletes an index entry whose request is gone and nothing else. */
  lemma StaleRequestGoes(s: State, u: User)
    ensures var (t, p) := PendingOf(s, u);
      var found := u in s.reqByUser && s.reqByUser[u].val in s.req;
      && (p.Some? <==> found) && (found ==> t == s && p.value == s.req[s.reqByUser[u].val].val)
      && (!found ==> t == s.(reqByUser := t.reqByUser) && t.reqByUser == s.reqByUser - {u})
  {
  }
}
