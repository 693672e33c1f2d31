/** One retry chain: the attempts that a single dispatch makes, and why they end. Times are in milliseconds. */
module RetryChain {
  import opened Options

  const BACKOFF := 200
  const TIMEOUT_RETRIES := 2
  const MAX_WAIT := 3_000
  const MAX_SENDS := 18 // 1 + MAX_WAIT / BACKOFF + TIMEOUT_RETRIES

  /** How a send resolves; Offline stands for dcc_bus_offline and control_offline. */
  datatype Result = Ok | AckTimeout | Offline | OtherError

  datatype Budget = Budget(timeoutsLeft: int, deadline: int)

  function NewBudget(now: int): Budget {
    Budget(TIMEOUT_RETRIES, now + MAX_WAIT)
  }

  /** nextDelay: the budget left for another attempt after BACKOFF, or None to give up. */
  function Retry(res: Result, b: Budget, now: int): Option<Budget> {
    match res
    case AckTimeout => if b.timeoutsLeft <= 0 then None else Some(b.(timeoutsLeft := b.timeoutsLeft - 1))
    case Offline => if now >= b.deadline then None else Some(b)
    case _ => None
  }

  /** What the closure of one dispatch carries along; sends counts its attempts so far. */
  datatype Chain<A> = Chain(args: A, budget: Budget, sends: nat)

  function Start<A>(args: A, now: int): Chain<A> {
    Chain(args, NewBudget(now), 1)
  }

  /** Bookkeeping of a chain whose next or current attempt is not before a given time. */
  predicate Sound<A>(c: Chain<A>, retries: nat, time: int) {
    var started := c.budget.deadline - MAX_WAIT;
    && 0 <= c.budget.timeoutsLeft <= TIMEOUT_RETRIES
    && started + BACKOFF * retries <= time
    && retries - (TIMEOUT_RETRIES - c.budget.timeoutsLeft) <= MAX_WAIT / BACKOFF
  }

  /** The attempt in flight was sent no earlier than its number of retries allows. */
  predicate InFlight<A>(c: Chain<A>, now: int) {
    c.sends >= 1 && Sound(c, c.sends - 1, now)
  }

  /** The chain waits for a timer that is due at the given time. */
  predicate Waiting<A>(c: Chain<A>, due: int) {
    c.sends >= 1 && Sound(c, c.sends, due)
  }

  lemma ChainsAreBounded<A>(c: Chain<A>, time: int)
    requires InFlight(c, time) || Waiting(c, time)
    ensures c.sends <= MAX_SENDS
    ensures Waiting(c, time) ==> c.sends < MAX_SENDS
  {
  }

  /**
   * A retry keeps the bookkeeping: an offline retry is only granted before the deadline, so there are at most 15 of
   * them.
   */
  lemma RetryKeepsSound<A>(c: Chain<A>, res: Result, sentAt: int, now: int)
    requires InFlight(c, sentAt) && sentAt <= now
    ensures Retry(res, c.budget, now).Some? ==> Waiting(c.(budget := Retry(res, c.budget, now).value), now + BACKOFF)
  {
  }

}

/** One chain on its own, over every sequence of answers and timers. */
module RetryBound {
  import opened RetryChain

  datatype Phase = Sent(at: int) | Armed(due: int) | Settled(res: Result)

  datatype Run<A> = Run(chain: Chain<A>, phase: Phase)

  /** A clock that never runs back, and timers that never fire early. */
  datatype Event = Resolved(res: Result, now: int) | Fired(now: int)

  predicate Possible<A>(r: Run<A>, e: Event) {
    match e
    case Resolved(_, now) => r.phase.Sent? && r.phase.at <= now
    case Fired(now) => r.phase.Armed? && r.phase.due <= now
  }

  function Next<A>(r: Run<A>, e: Event): Run<A>
    requires Possible(r, e)
  {
    match e
    case Resolved(res, now) =>
      var b := Retry(res, r.chain.budget, now);
      if b.None? then r.(phase := Settled(res)) else Run(r.chain.(budget := b.value), Armed(now + BACKOFF))
    case Fired(now) => Run(r.chain.(sends := r.chain.sends + 1), Sent(now))
  }

  predicate CanRun<A>(r: Run<A>, es: seq<Event>)
    decreases |es|
  {
    es != [] ==> Possible(r, es[0]) && CanRun(Next(r, es[0]), es[1..])
  }

  function After<A>(r: Run<A>, es: seq<Event>): Run<A>
    requires CanRun(r, es)
    decreases |es|
  {
    if es == [] then r else After(Next(r, es[0]), es[1..])
  }

  predicate Good<A>(r: Run<A>) {
    match r.phase
    case Sent(at) => InFlight(r.chain, at)
    case Armed(due) => Waiting(r.chain, due)
    case Settled(_) => r.chain.sends <= MAX_SENDS
  }

  lemma {:induction false} GoodAlways<A>(r: Run<A>, es: seq<Event>)
    requires Good(r) && CanRun(r, es)
    ensures Good(After(r, es))
    decreases |es|
  {
    if es != [] {
      match es[0]
      case Resolved(res, now) =>
        RetryKeepsSound(r.chain, res, r.phase.at, now);
        ChainsAreBounded(r.chain, r.phase.at);
        GoodAlways(Next(r, es[0]), es[1..]);
      case Fired(now) => GoodAlways(Next(r, es[0]), es[1..]);
    }
  }

  /** Whatever mix of timeouts and offline errors occurs, one dispatch makes at most 18 sends. */
  lemma EveryChainEnds<A>(args: A, now: int, es: seq<Event>)
    requires CanRun(Run(Start(args, now), Sent(now)), es)
    ensures After(Run(Start(args, now), Sent(now)), es).chain.sends <= MAX_SENDS
  {
    var r := Run(Start(args, now), Sent(now));
    GoodAlways(r, es);
    var last := After(r, es);
    if last.phase.Sent? {
      ChainsAreBounded(last.chain, last.phase.at);
    } else if last.phase.Armed? {
      ChainsAreBounded(last.chain, last.phase.due);
    }
  }

  function Timeouts(es: seq<Event>): nat {
    if es == [] then 0 else
      (if es[0].Resolved? && es[0].res.AckTimeout? then 1 else 0) + Timeouts(es[1..])
  }

  /** The budget is what the events so far have left of it. */
  lemma {:induction false} BudgetLeft<A>(r: Run<A>, es: seq<Event>)
    requires CanRun(r, es)
    ensures var t := After(r, es);
      && t.chain.args == r.chain.args && t.chain.budget.deadline == r.chain.budget.deadline
      && (!t.phase.Settled? ==> t.chain.budget.timeoutsLeft == r.chain.budget.timeoutsLeft - Timeouts(es))
    decreases |es|
  {
    if es != [] {
      BudgetLeft(Next(r, es[0]), es[1..]);
    }
  }

  /**
   * After any events, an answer is followed by another attempt 200 ms later if it is one of the first two timeouts, or
   * says offline within three seconds of the dispatch; otherwise the chain settles with it.
   */
  lemma RetriedIff<A>(args: A, start: int, es: seq<Event>, res: Result, now: int)
    requires CanRun(Run(Start(args, start), Sent(start)), es)
    requires Possible(After(Run(Start(args, start), Sent(start)), es), Resolved(res, now))
    ensures var r := After(Run(Start(args, start), Sent(start)), es);
      && r.chain.args == args
      && Next(r, Resolved(res, now)).phase ==
         if (res.AckTimeout? && Timeouts(es) < 2) || (res.Offline? && now < start + 3_000) then Armed(now + 200)
         else Settled(res)
  {
    BudgetLeft(Run(Start(args, start), Sent(start)), es);
  }

  /** k rounds in which the socket is offline at once and the timer fires on time. */
  function OfflineRounds(now: int, k: nat): seq<Event>
    decreases k
  {
    if k == 0 then [] else [Resolved(Offline, now), Fired(now + BACKOFF)] + OfflineRounds(now + BACKOFF, k - 1)
  }

  lemma {:induction false} OfflineRoundsRun<A>(r: Run<A>, now: int, k: nat, rest: seq<Event>)
    requires r.phase == Sent(now)
    requires k > 0 ==> now + BACKOFF * (k - 1) < r.chain.budget.deadline
    requires CanRun(Run(r.chain.(sends := r.chain.sends + k), Sent(now + BACKOFF * k)), rest)
    ensures CanRun(r, OfflineRounds(now, k) + rest)
    ensures After(r, OfflineRounds(now, k) + rest)
              == After(Run(r.chain.(sends := r.chain.sends + k), Sent(now + BACKOFF * k)), rest)
    decreases k
  {
    if k == 0 {
      assert OfflineRounds(now, k) + rest == rest;
    } else {
      var r1 := Next(r, Resolved(Offline, now));
      var r2 := Next(r1, Fired(now + BACKOFF));
      OfflineRoundsRun(r2, now + BACKOFF, k - 1, rest);
      var es := OfflineRounds(now, k) + rest;
      assert es[1..][1..] == OfflineRounds(now + BACKOFF, k - 1) + rest;
      assert es[1..][0] == Fired(now + BACKOFF);
    }
  }

  /** The bound is tight: fifteen offline rounds, then two timeouts. */
  lemma EighteenSendsHappen<A>(args: A)
    ensures exists es :: CanRun(Run(Start(args, 0), Sent(0)), es)
              && After(Run(Start(args, 0), Sent(0)), es).chain.sends == MAX_SENDS
  {
    var r := Run(Start(args, 0), Sent(0));
    var tail := [Resolved(AckTimeout, 3_000), Fired(3_200), Resolved(AckTimeout, 3_200), Fired(3_400)];
    var mid := Run(r.chain.(sends := 16), Sent(3_000));
    var m1 := Next(mid, tail[0]);
    var m2 := Next(m1, tail[1]);
    var m3 := Next(m2, tail[2]);
    var m4 := Next(m3, tail[3]);
    assert CanRun(m4, []);
    assert CanRun(m3, [tail[3]]) && After(m3, [tail[3]]) == m4;
    assert CanRun(m2, tail[2..]) && After(m2, tail[2..]) == m4;
    assert CanRun(m1, tail[1..]) && After(m1, tail[1..]) == m4;
    assert CanRun(mid, tail) && After(mid, tail) == m4;
    OfflineRoundsRun(r, 0, 15, tail);
  }
}
