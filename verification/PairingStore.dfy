/**
 * The pairing store as an object that changes Redis step by step, in the order
 * of the Lua scripts and Go methods. Every method is tied to the function of
 * the same operation in PairingModel.
 */
module PairingStore {
  import opened Options
  import opened PairingKeys
  import M = PairingModel

  class Store {
    var now: int
    var req: map<string, M.Slot<M.Pending>>
    var reqByUser: map<M.User, M.Slot<string>>
    var active: map<M.ClientKey, M.Slot<M.SessionJson>>
    var byUser: map<M.User, M.Slot<M.ClientKey>>
    var dedup: M.Dedup

    function View(): M.State
      reads this
    {
      M.State(now, req, reqByUser, active, byUser, dedup)
    }

    constructor ()
      ensures View() == M.EMPTY
    {
      now := 0;
      req, reqByUser, active, byUser, dedup := map[], map[], map[], map[], map[];
    }

    method AdvanceClock(d: nat)
      modifies this
      ensures View() == M.Advance(old(View()), d)
    {
      var s := M.Advance(View(), d);
      now, req, reqByUser, active, byUser, dedup := s.now, s.req, s.reqByUser, s.active, s.byUser, s.dedup;
    }

    // ----- scripts -----

    method CompleteScript(reqId: string, payload: M.SessionJson, protocol: string, tag: string, ttl: Option<nat>)
      returns (ok: bool, evicted: M.ClientKey)
      modifies this
      ensures (View(), ok, evicted) == M.Complete(old(View()), reqId, payload, protocol, tag, ttl)
    {
      var user, client := payload.who.user, payload.client;
      if reqId !in req {
        return false, "";
      }
      evicted := "";
      if user in byUser && byUser[user].val != client {
        evicted := byUser[user].val;
        active := active - {evicted};
      }
      active := active[client := M.Slot(payload, M.Px(now, ttl))];
      byUser := byUser[user := M.Slot(client, M.Px(now, ttl))];
      req := req - {reqId};
      reqByUser := reqByUser - {user};
      if protocol != "" && tag != "" {
        dedup := M.SRem(dedup, protocol, tag);
      }
      ok := true;
    }

    method UnpairScript(client: M.ClientKey, user: M.User)
      modifies this
      ensures View() == M.UnpairScript(old(View()), client, user)
    {
      if client !in active {
        return;
      }
      active := active - {client};
      if user in byUser && byUser[user].val == client {
        byUser := byUser - {user};
      }
    }

    method TouchScript(client: M.ClientKey, seen: int, ttl: Option<nat>)
      modifies this
      ensures View() == M.Touch(old(View()), client, seen, ttl)
    {
      if client !in active {
        return;
      }
      var slot := active[client];
      var j := M.TouchedJson(slot.val, seen);
      if ttl.Some? {
        active := active[client := M.Slot(j, Some(now + ttl.value))];
        byUser := byUser[j.who.user := M.Slot(j.client, Some(now + ttl.value))];
      } else {
        active := active[client := M.Slot(j, M.KeptExpiry(slot, now))];
      }
    }

    method TouchBatchScript(clients: seq<M.ClientKey>, seen: seq<int>, ttl: Option<nat>)
      requires |clients| == |seen|
      modifies this
      ensures View() == M.TouchEach(old(View()), clients, seen, ttl)
    {
      for i := 0 to |clients|
        invariant View() == M.TouchEach(old(View()), clients[..i], seen[..i], ttl)
      {
        assert clients[..i + 1][..i] == clients[..i] && seen[..i + 1][..i] == seen[..i];
        TouchScript(clients[i], seen[i], ttl);
      }
      assert clients[..|clients|] == clients && seen[..|seen|] == seen;
    }

    method RescopeScript(client: M.ClientKey, scope: M.Scope) returns (found: bool)
      modifies this
      ensures View() == M.Rescope(old(View()), client, scope)
      ensures found == (client in old(active))
    {
      if client !in active {
        return false;
      }
      var slot := active[client];
      active := active[client := M.Slot(M.RescopedJson(slot.val, scope), M.KeptExpiry(slot, now))];
      found := true;
    }

    // ----- store methods -----

    method RejectIfUserPaired(user: M.User) returns (paired: bool)
      modifies this
      ensures (View(), paired) == M.CheckPaired(old(View()), user)
    {
      if user !in byUser || byUser[user].val == "" {
        return false;
      }
      if byUser[user].val !in active {
        byUser := byUser - {user};
        return false;
      }
      return true;
    }

    method GetPendingByUser(user: M.User) returns (p: Option<M.Pending>)
      modifies this
      ensures (View(), p) == M.PendingOf(old(View()), user)
    {
      if user !in reqByUser {
        return None;
      }
      var reqId := reqByUser[user].val;
      if reqId !in req {
        reqByUser := reqByUser - {user};
        return None;
      }
      return Some(req[reqId].val);
    }

    method ClearUserPending(user: M.User)
      modifies this
      ensures View() == M.ClearPending(old(View()), user)
    {
      var p := GetPendingByUser(user);
      if p.None? {
        return;
      }
      var w := p.value.who;
      req := req - {p.value.reqId};
      reqByUser := reqByUser - {user};
      if w.protocol == Z21 && w.cv3 != 0 && w.cv4 != 0 {
        dedup := M.SRem(dedup, Z21, Label(Cvs(w.cv3, w.cv4)));
      }
      if w.protocol == WITHROTTLE && w.digits != "" {
        dedup := M.SRem(dedup, WITHROTTLE, Label(Digits(w.digits)));
      }
    }

    /** SADD for the code's label, then the pipeline that stores the request. */
    method ClaimCode(ask: M.Ask, code: Code)
      modifies this
      ensures View() == M.PutPending(old(View()), ask, code)
    {
      dedup := M.SAdd(dedup, Protocol(code), Label(code));
      var exp := now + M.REQ_TTL;
      req := req[ReqId(code) := M.Slot(M.WireFor(ask, code, now), Some(exp))];
      reqByUser := reqByUser[ask.user := M.Slot(ReqId(code), Some(exp))];
      dedup := M.SetExpiry(dedup, Protocol(code), exp + M.DEDUP_SLACK);
    }

    /** The retry loop over random codes; draws[i] is what the generator yields at attempt i. */
    method CreatePairingRequest(ask: M.Ask, draws: seq<Code>) returns (reply: M.CreateReply)
      requires |draws| == M.MAX_ATTEMPTS
      modifies this
      ensures (View(), reply) == M.Create(old(View()), ask, draws)
    {
      var paired := RejectIfUserPaired(ask.user);
      if paired {
        return M.AlreadyPaired;
      }
      ClearUserPending(ask.user);
      ghost var cleared := View();
      var attempt := 0;
      while attempt < M.MAX_ATTEMPTS
        invariant attempt <= M.MAX_ATTEMPTS
        invariant View() == cleared
        invariant M.FirstFree(draws, dedup) == M.FirstFree(draws[attempt..], dedup)
      {
        var code := draws[attempt];
        assert draws[attempt..][0] == code && draws[attempt..][1..] == draws[attempt + 1..];
        if Label(code) !in M.Members(dedup, Protocol(code)) {
          ClaimCode(ask, code);
          return M.Issued(code);
        }
        attempt := attempt + 1;
      }
      return M.NoFreeCode;
    }

    method PairVia(code: Code, client: M.ClientKey, at: int) returns (reply: M.PairReply)
      modifies this
      ensures (View(), reply) == M.Pair(old(View()), code, client, at)
    {
      if !ValidCode(code) {
        return M.InvalidCode;
      }
      if ReqId(code) !in req {
        return M.NoMatch;
      }
      var p := req[ReqId(code)].val;
      if p.expected != "" && p.expected != client {
        return M.NoMatch;
      }
      var session := M.SessionFor(p, client, at);
      var ok, evicted := CompleteScript(ReqId(code), M.Encode(session), p.who.protocol, Label(code),
          Some(M.SESSION_TTL));
      if !ok {
        return M.NoMatch;
      }
      return M.Paired(session, evicted);
    }

    method UpdateSessionScope(client: M.ClientKey, scope: M.Scope) returns (updated: Option<M.Session>)
      modifies this
      ensures View() == M.Rescope(old(View()), client, scope)
      ensures updated == if client in active then Some(M.Decode(active[client].val)) else None
    {
      var found := RescopeScript(client, scope);
      if !found || client !in active {
        return None;
      }
      return Some(M.Decode(active[client].val));
    }

    method Unpair(client: M.ClientKey)
      modifies this
      ensures View() == M.Unpair(old(View()), client)
    {
      if client !in active {
        return;
      }
      UnpairScript(client, active[client].val.who.user);
    }

    method UnpairAllForUser(user: M.User)
      modifies this
      ensures View() == M.UnpairAll(old(View()), user)
    {
      if user !in byUser {
        return;
      }
      Unpair(byUser[user].val);
    }

    method ListActiveByUser(user: M.User) returns (sessions: seq<M.Session>)
      modifies this
      ensures (View(), sessions) == M.ListByUser(old(View()), user)
    {
      if user !in byUser {
        return [];
      }
      var client := byUser[user].val;
      if client !in active {
        byUser := byUser - {user};
        return [];
      }
      return [M.Decode(active[client].val)];
    }
  }
}
