/** Touches by the daemon and scope updates by the server interleave on one session without losing either's writes. */
module SessionWrites {
  import opened Options
  import opened PairingModel

  datatype Write = Wait(d: nat) | Touched(seen: int, ttl: int) | Scoped(scope: Scope)

  function Apply(s: State, client: ClientKey, w: Write): State {
    match w
    case Wait(d) => Advance(s, d)
    case Touched(seen, ttl) => Touch(s, client, seen, TtlArg(ttl))
    case Scoped(scope) => Rescope(s, client, scope)
  }

  function After(s: State, client: ClientKey, ws: seq<Write>): State {
    if ws == [] then s else Apply(After(s, client, ws[..|ws| - 1]), client, ws[|ws| - 1])
  }

  /** The session does not expire along the way. */
  ghost predicate Survives(s: State, client: ClientKey, ws: seq<Write>) {
    client in After(s, client, ws).active && (ws != [] ==> Survives(s, client, ws[..|ws| - 1]))
  }

  // What the writes alone say the session must hold in the end.

  function LastSeen(ws: seq<Write>, initial: int): int {
    if ws == [] then initial
    else if ws[|ws| - 1].Touched? then ws[|ws| - 1].seen
    else LastSeen(ws[..|ws| - 1], initial)
  }

  function LastScope(ws: seq<Write>, initial: Scope): Scope {
    if ws == [] then initial
    else if ws[|ws| - 1].Scoped? then ws[|ws| - 1].scope
    else LastScope(ws[..|ws| - 1], initial)
  }

  function Elapsed(ws: seq<Write>): nat {
    if ws == [] then 0 else Elapsed(ws[..|ws| - 1]) + if ws[|ws| - 1].Wait? then ws[|ws| - 1].d else 0
  }

  /**
   * Only a touch with a positive TTL sets the expiry, and of the other writes only one in the session's last
   * millisecond takes it away.
   */
  function LastExpiry(ws: seq<Write>, now: int, initial: Option<int>): Option<int> {
    if ws == [] then initial else
      var w, before := ws[|ws| - 1], LastExpiry(ws[..|ws| - 1], now, initial);
      if w.Touched? && w.ttl > 0 then Some(now + Elapsed(ws) + w.ttl)
      else if !w.Wait? && before.Some? && before.value <= now + Elapsed(ws) then None
      else before
  }

  predicate NeverEmptyTable(j: SessionJson) {
    && !j.vehicles.EmptyObject? && j.vehicles != Items([])
    && !j.addrs.EmptyObject? && j.addrs != Items([])
  }

  lemma OneWrite(t: State, client: ClientKey, w: Write)
    requires client in t.active && client in Apply(t, client, w).active
    ensures var u := Apply(t, client, w);
      var before, after := t.active[client], u.active[client];
      && u.now == t.now + (if w.Wait? then w.d else 0)
      && Decode(after.val) == (match w
                               case Wait(_) => Decode(before.val)
                               case Touched(seen, _) => Decode(before.val).(lastSeenAt := seen)
                               case Scoped(scope) => Decode(before.val).(scope := scope))
      && after.exp == (if w.Touched? && w.ttl > 0 then Some(u.now + w.ttl)
                       else if !w.Wait? && before.exp.Some? && before.exp.value <= u.now then None
                       else before.exp)
      && (NeverEmptyTable(before.val) || !w.Wait? ==> NeverEmptyTable(after.val))
  {
  }

  /**
   * Whatever the interleaving, as long as the session lives: the last touch's time, the last update's scope (empty
   * lists included), the last TTL unless a write in the last millisecond removed it, and everything else as it was
   * paired.
   */
  lemma {:induction false} NoWriteLost(s: State, client: ClientKey, ws: seq<Write>)
    requires Survives(s, client, ws) && client in s.active
    ensures var t := After(s, client, ws);
      var first, last := s.active[client], t.active[client];
      && t.now == s.now + Elapsed(ws)
      && Decode(last.val) == Decode(first.val).(
                               lastSeenAt := LastSeen(ws, first.val.lastSeenAt),
                               scope := LastScope(ws, Decode(first.val).scope))
      && last.exp == LastExpiry(ws, s.now, first.exp)
      && (NeverEmptyTable(first.val) || (exists w :: w in ws && !w.Wait?) ==> NeverEmptyTable(last.val))
  {
    if ws != [] {
      NoWriteLost(s, client, ws[..|ws| - 1]);
      OneWrite(After(s, client, ws[..|ws| - 1]), client, ws[|ws| - 1]);
    }
  }
}
