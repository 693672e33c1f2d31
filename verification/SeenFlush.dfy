/** The coordinator's batched last-seen flush, against touching one key at a time. */
module SeenFlush {
  import opened Options
  import opened Text
  import opened PairingModel
  import opened PairingSessions
  import PairingStore

  const DEFAULT_STICKY_IDLE := SESSION_TTL

  type Marks = map<ClientKey, int>

  /** ParseClientKey's protocol: what stands before the first colon, unless that is nothing. */
  function ProtocolOf(key: ClientKey): string {
    var i := IndexOf(key, ':');
    if i.Some? && i.value > 0 then key[..i.value] else ""
  }

  /** The sticky idle window of a protocol, in milliseconds. */
  type Policies = map<string, int>

  function StickyIdle(policies: Policies, protocol: string): int {
    if protocol in policies then policies[protocol] else DEFAULT_STICKY_IDLE
  }

  function TtlOf(policies: Policies, key: ClientKey): Option<nat> {
    TtlArg(StickyIdle(policies, ProtocolOf(key)))
  }

  // ----- the effect of a set of marks, in no order -----

  function TouchedSlot(slot: Slot<SessionJson>, seen: int, ttl: Option<nat>, now: int): Slot<SessionJson> {
    Slot(TouchedJson(slot.val, seen), if ttl.Some? then Px(now, ttl) else KeptExpiry(slot, now))
  }

  /** Whether the marks move this user's index entry. */
  predicate Renewed(s: State, marks: Marks, policies: Policies, u: User) {
    && u in s.byUser && s.byUser[u].val in marks && s.byUser[u].val in s.active
    && s.active[s.byUser[u].val].val.who.user == u
    && TtlOf(policies, s.byUser[u].val).Some?
  }

  function TouchAll(s: State, marks: Marks, policies: Policies): State {
    s.(active := map c | c in s.active ::
                   if c in marks then TouchedSlot(s.active[c], marks[c], TtlOf(policies, c), s.now) else s.active[c],
       byUser := map u | u in s.byUser ::
                   if Renewed(s, marks, policies, u)
                       then Slot(s.byUser[u].val, Px(s.now, TtlOf(policies, s.byUser[u].val)))
                   else s.byUser[u])
  }

  lemma TouchNothing(s: State, policies: Policies)
    ensures TouchAll(s, map[], policies) == s
  {
    var t := TouchAll(s, map[], policies);
    assert t.active == s.active && t.byUser == s.byUser;
  }

  lemma OneMoreRenewed(s: State, marks: Marks, policies: Policies, c: ClientKey, seen: int, u: User)
    requires c !in marks && (c in s.active ==> Indexed(s, c))
    ensures Renewed(s, marks[c := seen], policies, u) <==>
            Renewed(s, marks, policies, u)
            || (c in s.active && s.active[c].val.who.user == u && TtlOf(policies, c).Some?)
  {
  }

  lemma TouchMovesIndex(s: State, marks: Marks, policies: Policies, c: ClientKey, seen: int, u: User)
    requires c !in marks && u in s.byUser && (c in s.active ==> Indexed(s, c))
    ensures var t := Touch(TouchAll(s, marks, policies), c, seen, TtlOf(policies, c));
      u in t.byUser && t.byUser[u] == TouchAll(s, marks[c := seen], policies).byUser[u]
  {
    OneMoreRenewed(s, marks, policies, c, seen, u);
    var t0 := TouchAll(s, marks, policies);
    assert c in t0.active <==> c in s.active;
    assert c in s.active ==> t0.active[c] == s.active[c];
  }

  lemma TouchKeepsIndexKeys(s: State, marks: Marks, policies: Policies, c: ClientKey, seen: int)
    requires c !in marks && (c in s.active ==> Indexed(s, c))
    ensures Touch(TouchAll(s, marks, policies), c, seen, TtlOf(policies, c)).byUser.Keys == s.byUser.Keys
  {
  }

  lemma TouchIsSlot(t: State, c: ClientKey, seen: int, ttl: Option<nat>)
    ensures Touch(t, c, seen, ttl).active
              == if c in t.active then t.active[c := TouchedSlot(t.active[c], seen, ttl, t.now)] else t.active
  {
  }

  lemma OneMoreChanged<V>(m: map<ClientKey, V>, before: map<ClientKey, V>, after: map<ClientKey, V>, c: ClientKey, v: V)
    requires before.Keys == after.Keys == m.Keys
    requires forall k :: k in m && k != c ==> before[k] == after[k]
    requires c in m ==> after[c] == v
    ensures after == if c in before then before[c := v] else before
  {
  }

  lemma TouchMovesSession(s: State, marks: Marks, policies: Policies, c: ClientKey, seen: int)
    requires c !in marks
    ensures Touch(TouchAll(s, marks, policies), c, seen, TtlOf(policies, c)).active
              == TouchAll(s, marks[c := seen], policies).active
  {
    var t0 := TouchAll(s, marks, policies);
    TouchIsSlot(t0, c, seen, TtlOf(policies, c));
    if c in s.active {
      assert t0.active[c] == s.active[c];
      OneMoreChanged(s.active, t0.active, TouchAll(s, marks[c := seen], policies).active, c,
                     TouchedSlot(s.active[c], seen, TtlOf(policies, c), s.now));
    } else {
      assert TouchAll(s, marks[c := seen], policies).active == t0.active;
    }
  }

  lemma TouchMovesIndexes(s: State, marks: Marks, policies: Policies, c: ClientKey, seen: int)
    requires c !in marks && (c in s.active ==> Indexed(s, c))
    ensures Touch(TouchAll(s, marks, policies), c, seen, TtlOf(policies, c)).byUser
              == TouchAll(s, marks[c := seen], policies).byUser
  {
    var l, r := Touch(TouchAll(s, marks, policies), c, seen, TtlOf(policies, c)).byUser,
        TouchAll(s, marks[c := seen], policies).byUser;
    TouchKeepsIndexKeys(s, marks, policies, c, seen);
    forall u | u in s.byUser ensures u in l && l[u] == r[u] {
      TouchMovesIndex(s, marks, policies, c, seen, u);
    }
    assert l.Keys == r.Keys;
  }

  /** Touching one more key amounts to one more mark, because no two sessions share a user. */
  lemma TouchOneMore(s: State, marks: Marks, policies: Policies, c: ClientKey, seen: int)
    requires SessionsIndexed(s) && c !in marks
    ensures Touch(TouchAll(s, marks, policies), c, seen, TtlOf(policies, c)) == TouchAll(s, marks[c := seen], policies)
  {
    assert c in s.active ==> Indexed(s, c);
    TouchMovesSession(s, marks, policies, c, seen);
    TouchMovesIndexes(s, marks, policies, c, seen);
  }

  function OneByOne(s: State, order: seq<ClientKey>, marks: Marks, policies: Policies): State
    requires forall c :: c in order ==> c in marks
  {
    if order == [] then s else
      var c := order[|order| - 1];
      Touch(OneByOne(s, order[..|order| - 1], marks, policies), c, marks[c], TtlOf(policies, c))
  }

  ghost predicate Distinct<T>(xs: seq<T>) {
    forall i, j :: 0 <= i < j < |xs| ==> xs[i] != xs[j]
  }

  function KeySet(keys: seq<ClientKey>): set<ClientKey> {
    set c | c in keys
  }

  function Restrict(marks: Marks, keys: set<ClientKey>): Marks {
    map c | c in marks && c in keys :: marks[c]
  }

  /** Touching marked keys one at a time leaves the same state in whatever order. */
  lemma {:induction false} AnyOrder(s: State, order: seq<ClientKey>, marks: Marks, policies: Policies)
    requires SessionsIndexed(s) && Distinct(order)
    requires forall c :: c in order ==> c in marks
    ensures OneByOne(s, order, marks, policies) == TouchAll(s, Restrict(marks, KeySet(order)), policies)
  {
    if order == [] {
      assert Restrict(marks, KeySet(order)) == map[];
      TouchNothing(s, policies);
    } else {
      var before, c := order[..|order| - 1], order[|order| - 1];
      AnyOrder(s, before, marks, policies);
      RestrictLast(marks, order);
      TouchOneMore(s, Restrict(marks, KeySet(before)), policies, c, marks[c]);
    }
  }

  lemma RestrictLast(marks: Marks, order: seq<ClientKey>)
    requires order != [] && Distinct(order) && order[|order| - 1] in marks
    ensures var before, c := Restrict(marks, KeySet(order[..|order| - 1])), order[|order| - 1];
      c !in before && Restrict(marks, KeySet(order)) == before[c := marks[c]]
  {
  }

  /** Order does matter once two sessions share a user: the index follows whichever key is touched last. */
  lemma SharedUserMakesOrderMatter(s: State, c: ClientKey, d: ClientKey, seen: int, ttl: nat)
    requires c in s.active && d in s.active && c != d
    requires s.active[c].val.client == c && s.active[d].val.client == d
    requires s.active[c].val.who.user == s.active[d].val.who.user
    ensures Touch(Touch(s, c, seen, Some(ttl)), d, seen, Some(ttl))
         != Touch(Touch(s, d, seen, Some(ttl)), c, seen, Some(ttl))
  {
    var u := s.active[c].val.who.user;
    assert Touch(Touch(s, c, seen, Some(ttl)), d, seen, Some(ttl)).byUser[u].val == d;
  }

  // ----- the flush itself -----

  /** The keys of one protocol, to be written in one round trip. */
  datatype Bucket = Bucket(keys: seq<ClientKey>, seen: seq<int>)

  ghost predicate BucketOf(b: Bucket, protocol: string, marks: Marks) {
    && |b.keys| == |b.seen| && Distinct(b.keys)
    && forall i :: 0 <= i < |b.keys| ==>
       b.keys[i] in marks && b.seen[i] == marks[b.keys[i]] && ProtocolOf(b.keys[i]) == protocol
  }

  /** base with one more mark per key, in order. */
  function Marked(base: Marks, keys: seq<ClientKey>, seen: seq<int>): (r: Marks)
    requires |keys| == |seen|
    ensures r.Keys == base.Keys + KeySet(keys)
  {
    var n := |keys|;
    if n == 0 then base else Marked(base, keys[..n - 1], seen[..n - 1])[keys[n - 1] := seen[n - 1]]
  }

  lemma {:induction false} BatchIsMarks(s: State, base: Marks, keys: seq<ClientKey>, seen: seq<int>,
      ttl: Option<nat>, policies: Policies)
    requires SessionsIndexed(s) && |keys| == |seen| && Distinct(keys)
    requires forall c :: c in keys ==> c !in base && TtlOf(policies, c) == ttl
    ensures TouchEach(TouchAll(s, base, policies), keys, seen, ttl) == TouchAll(s, Marked(base, keys, seen), policies)
  {
    var n := |keys|;
    if n > 0 {
      BatchIsMarks(s, base, keys[..n - 1], seen[..n - 1], ttl, policies);
      TouchOneMore(s, Marked(base, keys[..n - 1], seen[..n - 1]), policies, keys[n - 1], seen[n - 1]);
    }
  }

  lemma {:induction false} MarkedAt(base: Marks, b: Bucket, protocol: string, marks: Marks, c: ClientKey)
    requires BucketOf(b, protocol, marks) && (c in base || c in b.keys)
    ensures c in Marked(base, b.keys, b.seen) && Marked(base, b.keys, b.seen)[c]
              == if c in b.keys then marks[c] else base[c]
    decreases |b.keys|
  {
    var n := |b.keys|;
    if n > 0 && c != b.keys[n - 1] {
      assert c in b.keys ==> c in b.keys[..n - 1];
      MarkedAt(base, Bucket(b.keys[..n - 1], b.seen[..n - 1]), protocol, marks, c);
    }
  }

  lemma BucketIsMarks(base: Marks, b: Bucket, protocol: string, marks: Marks)
    requires BucketOf(b, protocol, marks)
    ensures Marked(base, b.keys, b.seen) == base + Restrict(marks, KeySet(b.keys))
  {
    forall c | c in base || c in b.keys
      ensures c in Marked(base, b.keys, b.seen) && Marked(base, b.keys, b.seen)[c]
                == (base + Restrict(marks, KeySet(b.keys)))[c]
    {
      MarkedAt(base, b, protocol, marks, c);
    }
  }

  /** The marked keys whose protocol bucket reaches Redis. */
  function Flushed(marks: Marks, failing: set<string>): set<ClientKey> {
    set c | c in marks && ProtocolOf(c) !in failing
  }

  type Buckets = map<string, Bucket>

  /** The buckets hold exactly the given marked keys. */
  ghost predicate Grouped(buckets: Buckets, marks: Marks, keys: set<ClientKey>) {
    && (forall p :: p in buckets ==> BucketOf(buckets[p], p, marks))
    && (forall p, c :: p in buckets && c in buckets[p].keys ==> c in keys)
    && (forall c :: c in keys ==> ProtocolOf(c) in buckets && c in buckets[ProtocolOf(c)].keys)
  }

  function AddKey(buckets: Buckets, key: ClientKey, seen: int): Buckets {
    var protocol := ProtocolOf(key);
    var b := if protocol in buckets then buckets[protocol] else Bucket([], []);
    buckets[protocol := Bucket(b.keys + [key], b.seen + [seen])]
  }

  lemma AddKeyGrouped(buckets: Buckets, marks: Marks, keys: set<ClientKey>, key: ClientKey)
    requires Grouped(buckets, marks, keys) && key in marks && key !in keys
    ensures Grouped(AddKey(buckets, key, marks[key]), marks, keys + {key})
  {
    var more := AddKey(buckets, key, marks[key]);
    forall p | p in more ensures BucketOf(more[p], p, marks) {
      if p in buckets {
        assert BucketOf(buckets[p], p, marks);
        if p == ProtocolOf(key) {
          assert key !in buckets[p].keys;
        }
      }
    }
  }

  /** Of the marked keys, those flushed once only the protocols in todo are left. */
  function Done(marks: Marks, failing: set<string>, todo: set<string>): set<ClientKey> {
    set c | c in Flushed(marks, failing) && ProtocolOf(c) !in todo
  }

  lemma BucketKeys(marks: Marks, protocol: string, buckets: Buckets, c: ClientKey)
    requires Grouped(buckets, marks, marks.Keys) && protocol in buckets
    ensures c in buckets[protocol].keys <==> c in marks && ProtocolOf(c) == protocol
  {
    assert BucketOf(buckets[protocol], protocol, marks);
  }

  lemma OneBucketLess(marks: Marks, failing: set<string>, todo: set<string>, protocol: string, buckets: Buckets)
    requires Grouped(buckets, marks, marks.Keys) && protocol in todo && protocol in buckets
    ensures forall c :: c in buckets[protocol].keys ==>
              c in marks && ProtocolOf(c) == protocol && c !in Done(marks, failing, todo)
    ensures Done(marks, failing, todo - {protocol}) ==
            Done(marks, failing, todo) + if protocol in failing then {} else KeySet(buckets[protocol].keys)
    ensures forall c :: c in marks && ProtocolOf(c) == protocol ==> c in buckets[protocol].keys
  {
    forall c ensures c in buckets[protocol].keys <==> c in marks && ProtocolOf(c) == protocol {
      BucketKeys(marks, protocol, buckets, c);
    }
  }

  lemma RestrictMore(marks: Marks, xs: set<ClientKey>, ys: set<ClientKey>)
    ensures Restrict(marks, xs + ys) == Restrict(marks, xs) + Restrict(marks, ys)
    ensures Restrict(marks, xs + {}) == Restrict(marks, xs)
  {
  }

  lemma OneBucketWritten(s: State, marks: Marks, failing: set<string>, todo: set<string>, protocol: string,
                         buckets: Buckets, policies: Policies)
    requires SessionsIndexed(s) && Grouped(buckets, marks, marks.Keys)
    requires protocol in todo && protocol in buckets && protocol !in failing
    ensures |buckets[protocol].keys| == |buckets[protocol].seen|
    ensures TouchEach(TouchAll(s, Restrict(marks, Done(marks, failing, todo)), policies),
                      buckets[protocol].keys, buckets[protocol].seen, TtlArg(StickyIdle(policies, protocol)))
         == TouchAll(s, Restrict(marks, Done(marks, failing, todo - {protocol})), policies)
  {
    var b, base := buckets[protocol], Restrict(marks, Done(marks, failing, todo));
    assert BucketOf(b, protocol, marks);
    OneBucketLess(marks, failing, todo, protocol, buckets);
    RestrictMore(marks, Done(marks, failing, todo), KeySet(b.keys));
    BatchIsMarks(s, base, b.keys, b.seen, TtlArg(StickyIdle(policies, protocol)), policies);
    BucketIsMarks(base, b, protocol, marks);
  }

  lemma OneBucketFailed(marks: Marks, failing: set<string>, todo: set<string>, protocol: string, buckets: Buckets)
    requires Grouped(buckets, marks, marks.Keys) && protocol in todo && protocol in buckets && protocol in failing
    ensures Done(marks, failing, todo - {protocol}) == Done(marks, failing, todo)
  {
    OneBucketLess(marks, failing, todo, protocol, buckets);
  }

  function Failed(marks: Marks, failing: set<string>, todo: set<string>): set<ClientKey> {
    set c | c in marks && ProtocolOf(c) in failing && ProtocolOf(c) !in todo
  }

  lemma OneMoreFailed(marks: Marks, failing: set<string>, todo: set<string>, protocol: string, buckets: Buckets)
    requires Grouped(buckets, marks, marks.Keys) && protocol in todo && protocol in buckets
    ensures Failed(marks, failing, todo - {protocol})
         == Failed(marks, failing, todo) + if protocol in failing then KeySet(buckets[protocol].keys) else {}
  {
    forall c ensures c in buckets[protocol].keys <==> c in marks && ProtocolOf(c) == protocol {
      BucketKeys(marks, protocol, buckets, c);
    }
  }

  class Flusher {
    var dirty: Marks
    const store: PairingStore.Store
    const policies: Policies

    constructor (store: PairingStore.Store, policies: Policies)
      ensures this.store == store && this.policies == policies && dirty == map[]
    {
      this.store, this.policies := store, policies;
      dirty := map[];
    }

    /** Groups the marks into one bucket per protocol; the map is walked in any order. */
    method Group(marks: Marks) returns (buckets: Buckets)
      ensures Grouped(buckets, marks, marks.Keys)
    {
      buckets := map[];
      var left := marks.Keys;
      while left != {}
        invariant left <= marks.Keys && Grouped(buckets, marks, marks.Keys - left)
      {
        var key :| key in left;
        AddKeyGrouped(buckets, marks, marks.Keys - left, key);
        buckets := AddKey(buckets, key, marks[key]);
        assert marks.Keys - (left - {key}) == marks.Keys - left + {key};
        left := left - {key};
      }
      assert marks.Keys - left == marks.Keys;
    }

    /** Writes the buckets in any order and returns the keys of those that failed. */
    method Write(buckets: Buckets, ghost marks: Marks, failing: set<string>) returns (failed: set<ClientKey>)
      requires SessionsIndexed(store.View()) && Grouped(buckets, marks, marks.Keys)
      modifies store
      ensures store.View() == TouchAll(old(store.View()), Restrict(marks, Done(marks, failing, {})), policies)
      ensures failed == Failed(marks, failing, {})
    {
      ghost var before := store.View();
      var todo := buckets.Keys;
      failed := {};
      assert Restrict(marks, Done(marks, failing, todo)) == map[];
      TouchNothing(before, policies);
      while todo != {}
        invariant todo <= buckets.Keys
        invariant failed == Failed(marks, failing, todo)
        invariant store.View() == TouchAll(before, Restrict(marks, Done(marks, failing, todo)), policies)
      {
        var protocol :| protocol in todo;
        var b := buckets[protocol];
        OneMoreFailed(marks, failing, todo, protocol, buckets);
        if protocol in failing {
          OneBucketFailed(marks, failing, todo, protocol, buckets);
          failed := failed + KeySet(b.keys);
        } else {
          OneBucketWritten(before, marks, failing, todo, protocol, buckets, policies);
          store.TouchBatchScript(b.keys, b.seen, TtlArg(StickyIdle(policies, protocol)));
        }
        todo := todo - {protocol};
      }
    }

    /**
     * flushSeen. A bucket whose protocol is failing does not reach Redis; arrivals are
     * marks that other goroutines record while the batches are being written.
     */
    method Flush(failing: set<string>, arrivals: Marks)
      requires SessionsIndexed(store.View())
      modifies this, store
      ensures store.View() == TouchAll(old(store.View()), Restrict(old(dirty), Flushed(old(dirty), failing)), policies)
      ensures dirty == (old(dirty) + arrivals) - Flushed(old(dirty), failing)
    {
      var peeked := dirty;
      if peeked == map[] {
        TouchNothing(store.View(), policies);
        assert Restrict(peeked, Flushed(peeked, failing)) == map[];
        dirty := dirty + arrivals;
        return;
      }
      var buckets := Group(peeked);
      var failed := Write(buckets, peeked, failing);
      assert Done(peeked, failing, {}) == Flushed(peeked, failing) == peeked.Keys - failed;
      dirty := (dirty + arrivals) - (peeked.Keys - failed);
    }
  }

  // ----- what a flush does to one session -----

  /** The protocol of a key is what stands before its first colon. */
  lemma ProtocolIs(protocol: string, endpoint: string)
    requires ':' !in protocol && protocol != ""
    ensures ProtocolOf(protocol + ":" + endpoint) == protocol
    ensures ProtocolOf(":" + endpoint) == "" && ProtocolOf(protocol) == ""
  {
    var key := protocol + ":" + endpoint;
    assert key[|protocol|] == ':' && forall j :: 0 <= j < |protocol| ==> key[j] == protocol[j];
    assert IndexOf(key, ':') == Some(|protocol|);
    assert key[..|protocol|] == protocol;
    assert IndexOf(":" + endpoint, ':') == Some(0);
  }

  /**
   * A flush writes a marked session's time and renews its expiry by the sticky window of its protocol, 72 hours
   * without a policy; a window that is not positive leaves the expiry. A session that is not marked, or whose batch
   * fails, stays as it is, and what every session stands for is left alone.
   */
  lemma FlushedSession(s: State, marks: Marks, failing: set<string>, policies: Policies, c: ClientKey)
    requires SessionsIndexed(s) && c in s.active
    ensures var t := TouchAll(s, Restrict(marks, Flushed(marks, failing)), policies);
      var protocol := ProtocolOf(c);
      var window := if protocol in policies then policies[protocol] else 259_200_000;
      && c in t.active
      && if c !in marks || protocol in failing then t.active[c] == s.active[c]
         else
           && Decode(t.active[c].val) == Decode(s.active[c].val).(lastSeenAt := marks[c])
           && (window > 0 ==> t.active[c].exp == Some(s.now + window))
           && (window <= 0 && s.active[c].exp != Some(s.now) ==> t.active[c].exp == s.active[c].exp)
  {
    assert Indexed(s, c);
  }

  /** The index entry of a session moves along with it, and keeps naming it. */
  lemma FlushedIndex(s: State, marks: Marks, failing: set<string>, policies: Policies, c: ClientKey)
    requires SessionsIndexed(s) && c in s.active
    ensures var t := TouchAll(s, Restrict(marks, Flushed(marks, failing)), policies);
      var protocol, u := ProtocolOf(c), s.active[c].val.who.user;
      var window := if protocol in policies then policies[protocol] else 259_200_000;
      && u in s.byUser && u in t.byUser
      && t.byUser[u] == if c in marks && protocol !in failing && window > 0 then Slot(c, Some(s.now + window))
                        else s.byUser[u]
  {
    assert Indexed(s, c);
  }

  /**
   * What stays marked: exactly the failed buckets' keys, and new marks; but a mark that arrives for a key of a
   * successful bucket is cleared unseen.
   */
  lemma MarkKeptIff(marks: Marks, failing: set<string>, arrivals: Marks, key: ClientKey)
    ensures var left := (marks + arrivals) - Flushed(marks, failing);
      && (arrivals == map[] ==> (key in left <==> key in marks && ProtocolOf(key) in failing))
      && (key in arrivals ==> (key in left && left[key] == arrivals[key] <==>
            key !in marks || ProtocolOf(key) in failing))
  {
  }
}
