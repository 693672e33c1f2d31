/**
 * The Redis side of handset pairing for one command station: the five key
 * families with their expiries, the JSON form of a session, and what each Lua
 * script, pipeline and store method does to them, as functions on values.
 */
module PairingModel {
  import opened Options
  import opened PairingKeys

  const REQ_TTL := 300_000 // 5 minutes, in milliseconds
  const DEDUP_SLACK := 30_000
  const SESSION_TTL := 259_200_000 // 72 hours
  const MAX_ATTEMPTS := 32

  type User = nat
  type ClientKey = string

  // ----- wire types -----

  /** The vehicles a pilot chose for a handset. */
  datatype Scope = Scope(vehicles: seq<string>, addrs: seq<nat>, all: bool)

  /** What a session inherits unchanged from its pending request. */
  datatype Who = Who(protocol: string, user: User, login: string, brakeSecs: nat, cv3: nat, cv4: nat, digits: string)

  datatype Pending = Pending(who: Who, reqId: string, scope: Scope, createdAt: int, expected: ClientKey)

  datatype Session = Session(who: Who, scope: Scope, pairedAt: int, lastSeenAt: int, client: ClientKey)

  /** A list field as it can stand in stored JSON: missing, null, `{}` (Lua's empty table) or an array. */
  datatype ListJson<+T> = Absent | Null | EmptyObject | Items(items: seq<T>)

  datatype SessionJson = SessionJson(
    who: Who, vehicles: ListJson<string>, addrs: ListJson<nat>, all: bool,
    pairedAt: int, lastSeenAt: int, client: ClientKey)

  /** Decoding in Go: a missing or null list is nil, and `{}` is first coerced to `[]`. */
  function DecodeList<T>(j: ListJson<T>): seq<T> {
    if j.Items? then j.items else []
  }

  /** Encoding in Go after append([]T(nil), s...), which leaves an empty copy nil. */
  function EncodeList<T>(s: seq<T>): ListJson<T> {
    if s == [] then Null else Items(s)
  }

  /** cjson.decode, drop_empty, cjson.encode: an empty table loses its field, null stays null. */
  function LuaRewrite<T>(j: ListJson<T>): ListJson<T> {
    if j.EmptyObject? || j == Items([]) then Absent else j
  }

  function Decode(j: SessionJson): Session {
    Session(j.who, Scope(DecodeList(j.vehicles), DecodeList(j.addrs), j.all), j.pairedAt, j.lastSeenAt, j.client)
  }

  function Encode(s: Session): SessionJson {
    SessionJson(s.who, EncodeList(s.scope.vehicles), EncodeList(s.scope.addrs), s.scope.all,
        s.pairedAt, s.lastSeenAt, s.client)
  }

  function NormaliseBrakeSecs(secs: nat): (r: nat)
    ensures 6 <= r <= 60
  {
    if secs < 6 then 6 else if secs > 60 then 60 else secs
  }

  // ----- keys with an expiry -----

  /** A stored value and the time its key expires, if it ever does. */
  datatype Slot<+V> = Slot(val: V, exp: Option<int>)

  /** Redis keeps a key through the millisecond of its expiry time. */
  predicate Alive<V>(s: Slot<V>, t: int) {
    s.exp.Some? ==> t <= s.exp.value
  }

  function Expire<K, V>(m: map<K, Slot<V>>, t: int): map<K, Slot<V>> {
    map k | k in m && Alive(m[k], t) :: m[k]
  }

  /** PTTL of a key that exists: -1 without expiry, and 0 in its last millisecond. */
  function Pttl<V>(s: Slot<V>, now: int): int {
    if s.exp.None? then -1 else s.exp.value - now
  }

  /** SET with the remaining PTTL, as the scripts do: without PX unless the PTTL is positive. */
  function KeptExpiry<V>(s: Slot<V>, now: int): Option<int> {
    if Pttl(s, now) > 0 then Some(now + Pttl(s, now)) else None
  }

  /** True when expiry a is no earlier than expiry b. */
  predicate NoEarlier(a: Option<int>, b: Option<int>) {
    a.Some? ==> b.Some? && b.value <= a.value
  }

  /** The expiry set by PX, or none for a script's empty TTL argument. */
  function Px(now: int, ttl: Option<nat>): Option<int> {
    if ttl.None? then None else Some(now + ttl.value)
  }

  datatype State = State(
    now: int,
    req: map<string, Slot<Pending>>, // by request identifier
    reqByUser: map<User, Slot<string>>,
    active: map<ClientKey, Slot<SessionJson>>,
    byUser: map<User, Slot<ClientKey>>,
    dedup: map<string, Slot<set<string>>>) // by protocol

  const EMPTY := State(0, map[], map[], map[], map[], map[])

  /** The clock moves on and every key whose time has passed disappears. */
  function Advance(s: State, d: nat): State {
    var t := s.now + d;
    State(t, Expire(s.req, t), Expire(s.reqByUser, t), Expire(s.active, t), Expire(s.byUser, t), Expire(s.dedup, t))
  }

  // ----- dedup sets -----

  type Dedup = map<string, Slot<set<string>>>

  function Members(m: Dedup, protocol: string): set<string> {
    if protocol in m then m[protocol].val else {}
  }

  /** SADD; a new set has no expiry yet. */
  function SAdd(m: Dedup, protocol: string, tag: string): Dedup {
    m[protocol := Slot(Members(m, protocol) + {tag}, if protocol in m then m[protocol].exp else None)]
  }

  /** SREM; Redis deletes a set that becomes empty. */
  function SRem(m: Dedup, protocol: string, tag: string): Dedup {
    if protocol !in m then m
    else if m[protocol].val - {tag} == {} then m - {protocol}
    else m[protocol := m[protocol].(val := m[protocol].val - {tag})]
  }

  function SetExpiry(m: Dedup, protocol: string, exp: int): Dedup {
    if protocol in m then m[protocol := m[protocol].(exp := Some(exp))] else m
  }

  // ----- Lua scripts -----

  /** completePairingScript. */
  function Complete(s: State, reqId: string, payload: SessionJson, protocol: string, tag: string, ttl: Option<nat>)
    : (State, bool, ClientKey)
  {
    var user, client := payload.who.user, payload.client;
    if reqId !in s.req then (s, false, "") else
      var evicted := if user in s.byUser && s.byUser[user].val != client then Some(s.byUser[user].val) else None;
      var kept := if evicted.Some? then s.active - {evicted.value} else s.active;
      (s.(active := kept[client := Slot(payload, Px(s.now, ttl))],
          byUser := s.byUser[user := Slot(client, Px(s.now, ttl))],
          req := s.req - {reqId},
          reqByUser := s.reqByUser - {user},
          dedup := if protocol != "" && tag != "" then SRem(s.dedup, protocol, tag) else s.dedup),
       true,
       if evicted.Some? then evicted.value else "")
  }

  /** unpairScript; user is the owner of the index key it is given. */
  function UnpairScript(s: State, client: ClientKey, user: User): State {
    if client !in s.active then s else
      s.(active := s.active - {client},
         byUser := if user in s.byUser && s.byUser[user].val == client then s.byUser - {user} else s.byUser)
  }

  function TouchedJson(j: SessionJson, seen: int): SessionJson {
    j.(lastSeenAt := seen, vehicles := LuaRewrite(j.vehicles), addrs := LuaRewrite(j.addrs))
  }

  /** touchSeenScript, and one round of touchSeenBatchScript. */
  function Touch(s: State, client: ClientKey, seen: int, ttl: Option<nat>): State {
    if client !in s.active then s else
      var slot := s.active[client];
      var j := TouchedJson(slot.val, seen);
      if ttl.Some? then
        s.(active := s.active[client := Slot(j, Px(s.now, ttl))],
           byUser := s.byUser[j.who.user := Slot(j.client, Px(s.now, ttl))])
      else
        s.(active := s.active[client := Slot(j, KeptExpiry(slot, s.now))])
  }

  /** touchSeenBatchScript: the rounds of its loop, one key after the other. */
  function TouchEach(s: State, clients: seq<ClientKey>, seen: seq<int>, ttl: Option<nat>): State
    requires |clients| == |seen|
  {
    var n := |clients|;
    if n == 0 then s else Touch(TouchEach(s, clients[..n - 1], seen[..n - 1], ttl), clients[n - 1], seen[n - 1], ttl)
  }

  function RescopedJson(j: SessionJson, scope: Scope): SessionJson {
    j.(vehicles := LuaRewrite(Items(scope.vehicles)), addrs := LuaRewrite(Items(scope.addrs)), all := scope.all)
  }

  /** updateSessionScopeScript. */
  function Rescope(s: State, client: ClientKey, scope: Scope): State {
    if client !in s.active then s else
      var slot := s.active[client];
      s.(active := s.active[client := Slot(RescopedJson(slot.val, scope), KeptExpiry(slot, s.now))])
  }

  // ----- store methods, each run at one instant -----

  /** rejectIfUserPaired: the new state and whether the user counts as paired. */
  function CheckPaired(s: State, user: User): (State, bool) {
    if user !in s.byUser || s.byUser[user].val == "" then (s, false)
    else if s.byUser[user].val in s.active then (s, true)
    else (s.(byUser := s.byUser - {user}), false)
  }

  /** GetPendingByUser: the new state and the request, if any. */
  function PendingOf(s: State, user: User): (State, Option<Pending>) {
    if user !in s.reqByUser then (s, None)
    else if s.reqByUser[user].val in s.req then (s, Some(s.req[s.reqByUser[user].val].val))
    else (s.(reqByUser := s.reqByUser - {user}), None)
  }

  /** clearUserPending, and so CancelPendingPairing. */
  function ClearPending(s: State, user: User): State {
    var (s1, p) := PendingOf(s, user);
    if p.None? then s1 else
      var w := p.value.who;
      var dedup1 :=
        if w.protocol == Z21 && w.cv3 != 0 && w.cv4 != 0 then SRem(s1.dedup, Z21, Label(Cvs(w.cv3, w.cv4)))
        else s1.dedup;
      var dedup2 :=
        if w.protocol == WITHROTTLE && w.digits != "" then SRem(dedup1, WITHROTTLE, Label(Digits(w.digits)))
        else dedup1;
      s1.(req := s1.req - {p.value.reqId}, reqByUser := s1.reqByUser - {user}, dedup := dedup2)
  }

  /** What the pilot asks for when requesting a code. */
  datatype Ask = Ask(user: User, login: string, scope: Scope, brakeSecs: nat, expected: ClientKey)

  function WireFor(ask: Ask, code: Code, now: int): Pending {
    Pending(
      Who(Protocol(code), ask.user, ask.login, NormaliseBrakeSecs(ask.brakeSecs),
          if code.Cvs? then code.cv3 else 0, if code.Cvs? then code.cv4 else 0,
          if code.Digits? then code.digits else ""),
      ReqId(code), ask.scope, now, if code.Digits? then ask.expected else "")
  }

  /** The SADD that claims a code and the pipeline that stores its request. */
  function PutPending(s: State, ask: Ask, code: Code): State {
    var exp := s.now + REQ_TTL;
    s.(req := s.req[ReqId(code) := Slot(WireFor(ask, code, s.now), Some(exp))],
       reqByUser := s.reqByUser[ask.user := Slot(ReqId(code), Some(exp))],
       dedup := SetExpiry(SAdd(s.dedup, Protocol(code), Label(code)), Protocol(code), exp + DEDUP_SLACK))
  }

  /** The first drawn code whose label is not yet in the dedup set. */
  function FirstFree(draws: seq<Code>, m: Dedup): (r: Option<Code>)
    ensures r.Some? ==> r.value in draws && Label(r.value) !in Members(m, Protocol(r.value))
    ensures r.None? ==> forall d :: d in draws ==> Label(d) in Members(m, Protocol(d))
  {
    if draws == [] then None
    else if Label(draws[0]) !in Members(m, Protocol(draws[0])) then Some(draws[0])
    else FirstFree(draws[1..], m)
  }

  datatype CreateReply = Issued(code: Code) | AlreadyPaired | NoFreeCode

  /** CreateZ21PairingRequest and CreateWithrottlePairingRequest; draws are the random codes, in order. */
  function Create(s: State, ask: Ask, draws: seq<Code>): (State, CreateReply) {
    var (s1, paired) := CheckPaired(s, ask.user);
    if paired then (s1, AlreadyPaired) else
      var s2 := ClearPending(s1, ask.user);
      var free := FirstFree(draws, s2.dedup);
      if free.None? then (s2, NoFreeCode) else (PutPending(s2, ask, free.value), Issued(free.value))
  }

  datatype PairReply = InvalidCode | NoMatch | Paired(session: Session, evicted: ClientKey)

  function SessionFor(p: Pending, client: ClientKey, at: int): Session {
    Session(p.who.(brakeSecs := NormaliseBrakeSecs(p.who.brakeSecs)), p.scope, at, at, client)
  }

  /** PairViaCV3CV4 and PairViaWithrottleCode, through CompletePairing. */
  function Pair(s: State, code: Code, client: ClientKey, at: int): (State, PairReply) {
    if !ValidCode(code) then (s, InvalidCode)
    else if ReqId(code) !in s.req then (s, NoMatch) else
      var p := s.req[ReqId(code)].val;
      if p.expected != "" && p.expected != client then (s, NoMatch) else
        var session := SessionFor(p, client, at);
        var (s1, ok, evicted) :=
            Complete(s, ReqId(code), Encode(session), p.who.protocol, Label(code), Some(SESSION_TTL));
        if ok then (s1, Paired(session, evicted)) else (s1, NoMatch)
  }

  /** TouchSeen's TTL argument: applied only when positive. */
  function TtlArg(ttl: int): Option<nat> {
    if ttl > 0 then Some(ttl) else None
  }

  /** Unpair. */
  function Unpair(s: State, client: ClientKey): State {
    if client !in s.active then s else UnpairScript(s, client, s.active[client].val.who.user)
  }

  /** UnpairAllForUser. */
  function UnpairAll(s: State, user: User): State {
    if user !in s.byUser then s else Unpair(s, s.byUser[user].val)
  }

  /** ListActiveByUser. */
  function ListByUser(s: State, user: User): (State, seq<Session>) {
    if user !in s.byUser then (s, [])
    else if s.byUser[user].val in s.active then (s, [Decode(s.active[s.byUser[user].val].val)])
    else (s.(byUser := s.byUser - {user}), [])
  }
}
