/** The data plane's table of requests that wait for the daemon's ack. */
module PendingAcks {
  import opened Options

  type Id = string

  datatype Result = Acked(ok: bool) | AckTimeout | OfflineError

  /** The ack timer of one request, with the id it will look up. */
  datatype Timer = Timer(promise: nat, id: Id)

  /** Requests are numbered by the promise they return; answers lists what each promise's resolver was called with. */
  datatype State = State(made: nat, pending: map<Id, nat>, timers: set<Timer>, answers: map<nat, seq<Result>>)

  const START := State(0, map[], {}, map[])

  datatype Event =
    | Send(id: Id, open: bool) // whether the socket is open
    | Ack(id: Id, ok: bool)
    | TimerFires(timer: Timer)
    | Close // handleClose; handleDispose treats the table the same way

  predicate Enabled(s: State, e: Event) {
    e.TimerFires? ==> e.timer in s.timers
  }

  function Answers(s: State, p: nat): seq<Result> {
    if p in s.answers then s.answers[p] else []
  }

  function Resolve(s: State, p: nat, r: Result): State {
    s.(answers := s.answers[p := Answers(s, p) + [r]])
  }

  /** The promises under the given ids. */
  function Promises(m: map<Id, nat>, ids: set<Id>): set<nat> {
    set i | i in ids && i in m :: m[i]
  }

  /** Every request under the given ids fails with an offline error. */
  function FailAll(s: State, ids: set<Id>): State {
    s.(answers := map p | p in s.answers.Keys + Promises(s.pending, ids) ::
         if p in Promises(s.pending, ids) then Answers(s, p) + [OfflineError] else Answers(s, p))
  }

  function Next(s: State, e: Event): State
    requires Enabled(s, e)
  {
    match e
    case Send(id, open) =>
      var p := s.made;
      var s1 := s.(made := p + 1);
      if !open then Resolve(s1, p, OfflineError)
      else s1.(pending := s.pending[id := p], timers := s.timers + {Timer(p, id)})
    case Ack(id, ok) =>
      if id !in s.pending then s else Resolve(s.(pending := s.pending - {id}), s.pending[id], Acked(ok))
    case TimerFires(t) =>
      var s1 := s.(timers := s.timers - {t});
      if t.id !in s.pending then s1 else Resolve(s1.(pending := s.pending - {t.id}), t.promise, AckTimeout)
    case Close => FailAll(s, s.pending.Keys).(pending := map[])
  }

  ghost predicate Injective(m: map<Id, nat>) {
    forall i, j :: i in m && j in m && m[i] == m[j] ==> i == j
  }

  lemma FailNone(s: State)
    ensures FailAll(s, {}) == s
  {
    assert FailAll(s, {}).answers == s.answers;
  }

  lemma FailOneMore(s: State, ids: set<Id>, id: Id)
    requires Injective(s.pending) && id in s.pending && id !in ids
    ensures Resolve(FailAll(s, ids), s.pending[id], OfflineError) == FailAll(s, ids + {id})
  {
    assert Promises(s.pending, ids + {id}) == Promises(s.pending, ids) + {s.pending[id]};
    assert s.pending[id] !in Promises(s.pending, ids);
    assert Resolve(FailAll(s, ids), s.pending[id], OfflineError).answers == FailAll(s, ids + {id}).answers;
  }

  class AckTable {
    var made: nat
    var pending: map<Id, nat>
    var timers: set<Timer>
    var answers: map<nat, seq<Result>>

    function View(): State
      reads this
    {
      State(made, pending, timers, answers)
    }

    constructor ()
      ensures View() == START
    {
      made, pending, timers, answers := 0, map[], {}, map[];
    }

    method CallResolver(p: nat, r: Result)
      modifies this`answers
      ensures View() == Resolve(old(View()), p, r)
    {
      answers := answers[p := (if p in answers then answers[p] else []) + [r]];
    }

    method SendRequest(id: Id, open: bool) returns (p: nat)
      modifies this
      ensures View() == Next(old(View()), Send(id, open)) && p == old(made)
    {
      p := made;
      made := made + 1;
      if !open {
        CallResolver(p, OfflineError);
        return;
      }
      pending := pending[id := p];
      timers := timers + {Timer(p, id)};
    }

    method OnAck(id: Id, ok: bool)
      modifies this
      ensures View() == Next(old(View()), Ack(id, ok))
    {
      if id !in pending {
        return;
      }
      var p := pending[id];
      pending := pending - {id};
      CallResolver(p, Acked(ok));
    }

    method OnAckTimer(t: Timer)
      requires t in timers
      modifies this
      ensures View() == Next(old(View()), TimerFires(t))
    {
      timers := timers - {t};
      if t.id in pending {
        pending := pending - {t.id};
        CallResolver(t.promise, AckTimeout);
      }
    }

    /** Fails every waiting request, in any order, then empties the table. */
    method OnClose()
      requires Injective(pending)
      modifies this
      ensures View() == Next(old(View()), Close)
    {
      var left := pending.Keys;
      ghost var before := View();
      FailNone(before);
      assert pending.Keys - left == {};
      while left != {}
        invariant left <= pending.Keys
        invariant View() == FailAll(before, pending.Keys - left)
      {
        var id :| id in left;
        FailOneMore(before, pending.Keys - left, id);
        CallResolver(pending[id], OfflineError);
        assert pending.Keys - (left - {id}) == pending.Keys - left + {id};
        left := left - {id};
      }
      assert pending.Keys - left == pending.Keys;
      pending := map[];
    }
  }

  // ----- runs -----

  predicate CanRun(s: State, es: seq<Event>)
    decreases |es|
  {
    es != [] ==> Enabled(s, es[0]) && CanRun(Next(s, es[0]), es[1..])
  }

  function After(s: State, es: seq<Event>): State
    requires CanRun(s, es)
    decreases |es|
  {
    if es == [] then s else After(Next(s, es[0]), es[1..])
  }

  /** The id is neither waiting for an ack nor still watched by an ack timer. */
  ghost predicate Fresh(s: State, id: Id) {
    id !in s.pending && forall t :: t in s.timers ==> t.id != id
  }

  ghost predicate FreshRun(s: State, es: seq<Event>)
    requires CanRun(s, es)
    decreases |es|
  {
    es != [] ==> (es[0].Send? && es[0].open ==> Fresh(s, es[0].id)) && FreshRun(Next(s, es[0]), es[1..])
  }

  predicate Waits(s: State, p: nat) {
    p in s.pending.Values
  }

  /** Every request made has been answered once or waits, never both. */
  ghost predicate Good(s: State) {
    forall p: nat :: p < s.made ==> |Answers(s, p)| == if Waits(s, p) then 0 else 1
  }

  /** All is good, only what was made is known, and whoever waits has its own timer and no other. */
  ghost predicate Settling(s: State) {
    && Injective(s.pending) && Good(s)
    && (forall p: nat :: p in s.answers || Waits(s, p) ==> p < s.made)
    && (forall t :: t in s.timers ==> t.promise < s.made)
    && (forall i :: i in s.pending ==> Timer(s.pending[i], i) in s.timers)
    && (forall t :: t in s.timers && t.id in s.pending ==> s.pending[t.id] == t.promise)
  }

  lemma SendSettles(s: State, id: Id, open: bool)
    requires Settling(s) && (open ==> Fresh(s, id))
    ensures Settling(Next(s, Send(id, open)))
  {
    var t := Next(s, Send(id, open));
    assert !Waits(s, s.made) && s.made !in s.answers;
    forall p: nat ensures Waits(t, p) <==> Waits(s, p) || (open && p == s.made) {
      if open && p == s.made {
        assert t.pending[id] == p;
      }
      if Waits(s, p) {
        var i :| i in s.pending && s.pending[i] == p;
        assert i in t.pending && t.pending[i] == p;
      }
      if Waits(t, p) {
        var i :| i in t.pending && t.pending[i] == p;
        assert (open && p == s.made) || (i in s.pending && s.pending[i] == p);
      }
    }
    forall p: nat ensures Answers(t, p) == if !open && p == s.made then [OfflineError] else Answers(s, p) {
    }
  }

  lemma RemoveSettles(s: State, id: Id, timers: set<Timer>, r: Result)
    requires Settling(s) && id in s.pending
    requires timers == s.timers || timers == s.timers - {Timer(s.pending[id], id)}
    ensures Settling(Resolve(s.(pending := s.pending - {id}, timers := timers), s.pending[id], r))
  {
    var t := Resolve(s.(pending := s.pending - {id}, timers := timers), s.pending[id], r);
    assert Waits(s, s.pending[id]);
    forall p: nat ensures Waits(t, p) <==> Waits(s, p) && p != s.pending[id] {
      if Waits(s, p) && p != s.pending[id] {
        var i :| i in s.pending && s.pending[i] == p;
        assert i in t.pending && t.pending[i] == p;
      }
      if Waits(t, p) {
        var i :| i in t.pending && t.pending[i] == p;
        assert i in s.pending && s.pending[i] == p;
      }
    }
  }

  lemma DropTimerSettles(s: State, t: Timer)
    requires Settling(s) && t.id !in s.pending
    ensures Settling(s.(timers := s.timers - {t}))
  {
    assert forall p :: Waits(s.(timers := s.timers - {t}), p) <==> Waits(s, p);
  }

  lemma CloseSettles(s: State)
    requires Settling(s)
    ensures Settling(Next(s, Close))
  {
    var t := Next(s, Close);
    var ps := Promises(s.pending, s.pending.Keys);
    forall p: nat ensures p in ps <==> Waits(s, p) {
      if Waits(s, p) {
        var i :| i in s.pending && s.pending[i] == p;
        assert i in s.pending.Keys;
      }
    }
    forall p: nat
      ensures !Waits(t, p)
      ensures Answers(t, p) == Answers(s, p) + if Waits(s, p) then [OfflineError] else []
    {
      assert t.pending == map[];
    }
  }

  lemma StepSettles(s: State, e: Event)
    requires Settling(s) && Enabled(s, e) && (e.Send? && e.open ==> Fresh(s, e.id))
    ensures Settling(Next(s, e))
  {
    match e
    case Send(id, open) => SendSettles(s, id, open);
    case Ack(id, ok) =>
      if id in s.pending {
        RemoveSettles(s, id, s.timers, Acked(ok));
      }
    case TimerFires(t) =>
      if t.id in s.pending {
        assert t == Timer(s.pending[t.id], t.id);
        RemoveSettles(s, t.id, s.timers - {t}, AckTimeout);
      } else {
        DropTimerSettles(s, t);
      }
    case Close => CloseSettles(s);
  }

  lemma {:induction false} RunSettles(s: State, es: seq<Event>)
    requires Settling(s) && CanRun(s, es) && FreshRun(s, es)
    ensures Settling(After(s, es))
    decreases |es|
  {
    if es != [] {
      StepSettles(s, es[0]);
      RunSettles(Next(s, es[0]), es[1..]);
    }
  }

  /**
   * In every run with fresh ids each request has been resolved exactly once or is still pending with a timer armed for
   * it, and once no timer is left nothing is pending.
   */
  lemma ResolvedExactlyOnce(es: seq<Event>, p: nat)
    requires CanRun(START, es) && FreshRun(START, es) && p < After(START, es).made
    ensures var s := After(START, es);
      && (if Waits(s, p) then Answers(s, p) == [] else |Answers(s, p)| == 1)
      && (Waits(s, p) ==> exists i :: Timer(p, i) in s.timers)
      && (s.timers == {} ==> s.pending == map[])
  {
    assert Settling(START);
    RunSettles(START, es);
    var s := After(START, es);
    if Waits(s, p) {
      var i :| i in s.pending && s.pending[i] == p;
      assert Timer(s.pending[i], i) in s.timers;
    }
    assert forall i :: i in s.pending ==> Timer(s.pending[i], i) in s.timers;
    assert s.timers == {} ==> s.pending.Keys == {};
  }

  // ----- which answer -----

  /** The first thing that happens to a request waiting under the id: its ack, its timer, or the end of the socket. */
  function Outcome(es: seq<Event>, id: Id): Option<Result> {
    if es == [] then None else
      match es[0]
      case Ack(i, ok) => if i == id then Some(Acked(ok)) else Outcome(es[1..], id)
      case TimerFires(t) => if t.id == id then Some(AckTimeout) else Outcome(es[1..], id)
      case Close => Some(OfflineError)
      case Send(_, _) => Outcome(es[1..], id)
  }

  /** A request that has been answered is left alone. */
  lemma AnsweredStep(s: State, e: Event, p: nat)
    requires Settling(s) && Enabled(s, e) && p < s.made && !Waits(s, p)
    ensures var t := Next(s, e); Answers(t, p) == Answers(s, p) && p < t.made && !Waits(t, p)
  {
    var t := Next(s, e);
    if e.Close? {
      assert t.pending == map[];
      assert p !in Promises(s.pending, s.pending.Keys);
    } else {
      forall i | i in t.pending ensures t.pending[i] != p {
        assert i in s.pending ==> s.pending[i] in s.pending.Values;
      }
      if (e.Ack? && e.id in s.pending) || (e.TimerFires? && e.timer.id in s.pending) {
        var i := if e.Ack? then e.id else e.timer.id;
        assert s.pending[i] in s.pending.Values;
      }
    }
  }

  lemma {:induction false} AnsweredStays(s: State, es: seq<Event>, p: nat)
    requires Settling(s) && CanRun(s, es) && FreshRun(s, es) && p < s.made && !Waits(s, p)
    ensures Answers(After(s, es), p) == Answers(s, p)
    decreases |es|
  {
    if es != [] {
      StepSettles(s, es[0]);
      AnsweredStep(s, es[0], p);
      AnsweredStays(Next(s, es[0]), es[1..], p);
    }
  }

  /** What one step does to a request that waits under the id. */
  lemma WaitingStep(s: State, e: Event, id: Id)
    requires Settling(s) && Enabled(s, e) && id in s.pending && (e.Send? && e.open ==> Fresh(s, e.id))
    ensures var t, p := Next(s, e), s.pending[id];
      match Outcome([e], id)
      case None => id in t.pending && t.pending[id] == p
      case Some(r) => Answers(t, p) == [r] && !Waits(t, p)
  {
    assert [e][1..] == [];
    var t, p := Next(s, e), s.pending[id];
    assert Waits(s, p);
    if e.Close? {
      assert p in Promises(s.pending, s.pending.Keys) && t.pending == map[];
    }
  }

  lemma {:induction false} WaitingFate(s: State, es: seq<Event>, id: Id)
    requires Settling(s) && CanRun(s, es) && FreshRun(s, es) && id in s.pending
    ensures var r := Outcome(es, id); Answers(After(s, es), s.pending[id]) == if r.None? then [] else [r.value]
    decreases |es|
  {
    assert Waits(s, s.pending[id]);
    if es != [] {
      assert [es[0]][1..] == [];
      StepSettles(s, es[0]);
      WaitingStep(s, es[0], id);
      if Outcome([es[0]], id).None? {
        WaitingFate(Next(s, es[0]), es[1..], id);
      } else {
        AnsweredStays(Next(s, es[0]), es[1..], s.pending[id]);
      }
    }
  }

  /**
   * In every run with fresh ids a request is answered by the first thing that concerns it, and by nothing after: at
   * once if the socket was not open, else by the ack of its id, with its verdict, by its timer or by the close.
   */
  lemma FirstAnswerCounts(before: seq<Event>, id: Id, open: bool, es: seq<Event>)
    requires CanRun(START, before) && FreshRun(START, before) && (open ==> Fresh(After(START, before), id))
    requires var n := Next(After(START, before), Send(id, open)); CanRun(n, es) && FreshRun(n, es)
    ensures var s := After(START, before);
      var r := if open then Outcome(es, id) else Some(OfflineError);
      Answers(After(Next(s, Send(id, open)), es), s.made) == if r.None? then [] else [r.value]
  {
    RunSettles(START, before);
    var s := After(START, before);
    var n := Next(s, Send(id, open));
    SendSettles(s, id, open);
    if open {
      WaitingFate(n, es, id);
    } else {
      assert s.made !in s.answers && !Waits(s, s.made);
      AnsweredStays(n, es, s.made);
    }
  }

  // ----- fresh ids are needed -----

  /** However things go on with fresh ids, every request will be answered once or wait. */
  ghost predicate StaysGood(s: State) {
    forall es :: CanRun(s, es) && FreshRun(s, es) ==> Good(After(s, es))
  }

  /** The request that waited under the id is forgotten at once. */
  lemma OverwritingLoses(s: State, id: Id)
    requires Settling(s) && id in s.pending
    ensures !Good(Next(s, Send(id, true)))
  {
    var n := Next(s, Send(id, true));
    var p := s.pending[id];
    assert Waits(s, p) && !Waits(n, p);
  }

  /** An old timer of the id takes the new request out of the table and answers its own promise again. */
  lemma OldTimerLoses(s: State, id: Id, t: Timer)
    requires Settling(s) && id !in s.pending && t in s.timers && t.id == id
    ensures !Good(Next(Next(s, Send(id, true)), TimerFires(t)))
  {
    var n := Next(s, Send(id, true));
    var m := Next(n, TimerFires(t));
    assert m.pending == s.pending;
    assert !Waits(s, s.made) && Answers(m, s.made) == [];
  }

  /**
   * After any run with fresh ids, a send on an open socket lets every later run with fresh ids answer each request once
   * or keep it waiting if and only if its own id was fresh.
   */
  lemma SendSettlesIff(before: seq<Event>, id: Id)
    requires CanRun(START, before) && FreshRun(START, before)
    ensures var s := After(START, before); StaysGood(Next(s, Send(id, true))) <==> Fresh(s, id)
  {
    RunSettles(START, before);
    var s := After(START, before);
    var n := Next(s, Send(id, true));
    if Fresh(s, id) {
      SendSettles(s, id, true);
      forall es | CanRun(n, es) && FreshRun(n, es) ensures Good(After(n, es)) {
        RunSettles(n, es);
      }
    } else if id in s.pending {
      OverwritingLoses(s, id);
      assert CanRun(n, []) && FreshRun(n, []) && After(n, []) == n;
    } else {
      var t :| t in s.timers && t.id == id;
      OldTimerLoses(s, id, t);
      var es := [TimerFires(t)];
      assert CanRun(Next(n, es[0]), es[1..]);
      assert CanRun(n, es) && FreshRun(n, es) && After(n, es) == Next(n, es[0]);
    }
  }

  /** With a reused id a request can be lost for good: neither resolved nor pending, and no timer left. */
  lemma ReusedIdLosesRequest(id: Id)
    ensures var es := [Send(id, true), Send(id, true), TimerFires(Timer(0, id)), TimerFires(Timer(1, id))];
      && CanRun(START, es)
      && var s := After(START, es);
         s.made == 2 && Answers(s, 1) == [] && s.pending == map[] && s.timers == {}
  {
    var es := [Send(id, true), Send(id, true), TimerFires(Timer(0, id)), TimerFires(Timer(1, id))];
    var s1 := Next(START, es[0]);
    var s2 := Next(s1, es[1]);
    var s3 := Next(s2, es[2]);
    var s4 := Next(s3, es[3]);
    assert CanRun(s4, []) && After(s4, []) == s4;
    assert CanRun(s3, es[3..]) && After(s3, es[3..]) == s4;
    assert CanRun(s2, es[2..]) && After(s2, es[2..]) == s4;
    assert CanRun(s1, es[1..]) && After(s1, es[1..]) == s4;
  }
}
