/** One time budget shared by every step of an operation, and the loop that drives a libpq exchange under it. */
module Deadline {
  import opened Wrappers

  /**
   The monotonic clock, in milliseconds; any amount of time may pass between two readings. On a calm clock time passes
   only while somebody sleeps, and every wait ends at once.
   */
  class Clock {
    const calm: bool
    var now: int

    constructor (calm: bool)
      ensures this.calm == calm && now == 0
    {
      this.calm := calm;
      now := 0;
    }

    method Read() returns (t: int)
      modifies this`now
      ensures t == now >= old(now) && (calm ==> now == old(now))
    {
      var passed :| passed >= 0 && (calm ==> passed == 0);
      now := now + passed;
      return now;
    }

    /** Wait for readiness; at most the time allowed passes when nothing happens, and all of it. */
    method Wait(limit: int) returns (ready: bool)
      requires limit > 0
      modifies this`now
      ensures now >= old(now) && (!ready ==> now >= old(now) + limit)
      ensures calm ==> ready && now == old(now)
    {
      ready := *;
      ready := ready || calm;
      var passed :| passed >= 0 && (calm ==> passed == 0);
      now := now + if ready then passed else limit + passed;
    }

    method Sleep(duration: nat)
      modifies this`now
      ensures now >= old(now) + duration
    {
      var passed :| passed >= duration;
      now := now + passed;
    }
  }

  /** A caller's context; `deadline` is on the same clock. A cancellable one may be cancelled at any time. */
  datatype Context = Context(id: nat, deadline: Option<int>, cancellable: bool)

  /** The context ends nothing that happens now. */
  predicate Live(c: Context, now: int) { !c.cancellable && (c.deadline.Some? ==> now < c.deadline.value) }

  function Earlier(a: int, b: int): int { if a < b then a else b }

  /** The budget cannot outlast any of the contexts it includes. */
  function Limit(expires: int, contexts: seq<Context>): int {
    if contexts == [] then expires
    else
      var last := contexts[|contexts| - 1];
      var before := Limit(expires, contexts[..|contexts| - 1]);
      if last.deadline.Some? then Earlier(before, last.deadline.value) else before
  }

  lemma {:induction false} LimitBelow(expires: int, contexts: seq<Context>)
    ensures Limit(expires, contexts) <= expires
    ensures forall c :: c in contexts && c.deadline.Some? ==> Limit(expires, contexts) <= c.deadline.value
  {
    if contexts != [] { LimitBelow(expires, contexts[..|contexts| - 1]); }
  }

  /** Capping the budget by a deadline caps the limit by no more. */
  lemma {:induction false} LimitCapped(expires: int, deadline: int, contexts: seq<Context>)
    ensures Limit(Earlier(expires, deadline), contexts) >= Earlier(Limit(expires, contexts), deadline)
  {
    if contexts != [] { LimitCapped(expires, deadline, contexts[..|contexts| - 1]); }
  }

  /** One more context that is live leaves time, when there was some. */
  lemma LiveLeavesTime(expires: int, contexts: seq<Context>, c: Context, now: int)
    requires now < Limit(expires, contexts) && Live(c, now)
    ensures now < Limit(if c.deadline.Some? then Earlier(expires, c.deadline.value) else expires, contexts + [c])
  {
    assert (contexts + [c])[..|contexts|] == contexts;
    if c.deadline.Some? { LimitCapped(expires, c.deadline.value, contexts); }
  }

  class OperationBudget {
    const clock: Clock
    var expires: int
    var contexts: seq<Context>

    constructor (clock: Clock, timeout: nat, context: Option<Context>)
      modifies clock`now
      ensures this.clock == clock && clock.now >= old(clock.now)
      ensures expires <= clock.now + timeout
      ensures context.None? ==> old(clock.now) + timeout <= expires
      ensures contexts == if context.None? then [] else [context.value]
      ensures clock.calm ==> clock.now == old(clock.now)
      ensures clock.calm && context.None? ==> expires == clock.now + timeout
      ensures clock.calm && timeout > 0 && (context.Some? ==> Live(context.value, clock.now)) ==> clock.now < Limit(expires, contexts)
    {
      this.clock := clock;
      contexts := [];
      expires := 0;
      new;
      var t := clock.Read();
      expires := t + timeout;
      assert contexts == [];
      Include(context);
    }

    /** A context joins once, and its remaining time caps the budget. */
    method Include(context: Option<Context>)
      modifies this`expires, this`contexts, clock`now
      ensures clock.now >= old(clock.now) && expires <= old(expires)
      ensures contexts == if context.None? || context.value in old(contexts) then old(contexts) else old(contexts) + [context.value]
      ensures context.None? || context.value in old(contexts) ==> expires == old(expires) && clock.now == old(clock.now)
      ensures context.Some? ==> context.value in contexts
      ensures context.Some? && context.value !in old(contexts) && context.value.deadline.Some? ==>
                expires <= context.value.deadline.value && (expires == old(expires) || expires == context.value.deadline.value)
      ensures context.Some? && context.value.deadline.None? ==> expires == old(expires)
      ensures clock.calm ==> clock.now == old(clock.now)
      ensures clock.calm && old(clock.now < Limit(expires, contexts)) && (context.Some? ==> Live(context.value, clock.now))
              ==> clock.now < Limit(expires, contexts)
    {
      if context.Some? && clock.now < Limit(expires, contexts) && Live(context.value, clock.now) {
        LiveLeavesTime(expires, contexts, context.value, clock.now);
      }
      if context.Some? && context.value !in contexts {
        contexts := contexts + [context.value];
        var t := clock.Read();
        if context.value.deadline.Some? {
          expires := Earlier(expires, context.value.deadline.value);
        }
      }
    }

    /** None when the budget expired or a context was cancelled, which may happen at any time. */
    method Remaining() returns (left: Option<int>)
      modifies clock`now
      ensures clock.now >= old(clock.now)
      ensures left.Some? ==> left.value > 0 && clock.now + left.value == Limit(expires, contexts)
      ensures left.Some? ==> clock.now < expires && forall c :: c in contexts && c.deadline.Some? ==> clock.now < c.deadline.value
      ensures left.None? ==> contexts != [] || clock.now >= expires
      ensures left.None? ==> (exists c :: c in contexts && c.cancellable) || clock.now >= Limit(expires, contexts)
      ensures clock.calm ==> clock.now == old(clock.now)
    {
      var now := clock.Read();
      var remaining := expires - now;
      for i := 0 to |contexts|
        invariant remaining == Limit(expires, contexts[..i]) - now
      {
        assert contexts[..i + 1][..i] == contexts[..i];
        var cancelled: bool := *;
        if cancelled && contexts[i].cancellable { return None; }
        if contexts[i].deadline.Some? { remaining := Earlier(remaining, contexts[i].deadline.value - now); }
      }
      assert contexts[..|contexts|] == contexts;
      LimitBelow(expires, contexts);
      return if remaining <= 0 then None else Some(remaining);
    }
  }

  /** One wait for readiness: when it began and how long it was allowed to take. */
  datatype Waited = Waited(begin: int, limit: int)

  const POLL: int := 50

  predicate Bounded(w: Waited, expires: int) { 0 < w.limit <= POLL && w.begin + w.limit <= expires }

  /** No context can cancel it, no time passes, and some is left. */
  predicate Untroubled(budget: OperationBudget)
    reads budget, budget.clock
  {
    && budget.clock.calm && (forall c :: c in budget.contexts ==> !c.cancellable)
    && budget.clock.now < Limit(budget.expires, budget.contexts)
  }

  /**
   `consume`: drive an exchange that needs `steps` more wake-ups. The budget is checked right before anything is sent
   and around every wait; no wait can outlast the budget.
   */
  method Consume(budget: OperationBudget, steps: nat) returns (sentAt: Option<int>, done: bool, waits: seq<Waited>)
    modifies budget.clock`now
    ensures budget.clock.now >= old(budget.clock.now)
    ensures sentAt.Some? ==> old(budget.clock.now) <= sentAt.value < Limit(budget.expires, budget.contexts)
    ensures done ==> sentAt.Some? && |waits| >= steps
    ensures sentAt.None? ==> waits == []
    ensures forall w :: w in waits ==> Bounded(w, Limit(budget.expires, budget.contexts)) && w.begin >= old(budget.clock.now)
    ensures budget.clock.calm ==> budget.clock.now == old(budget.clock.now)
    ensures Untroubled(budget) ==> done
  {
    waits := [];
    sentAt := None;
    var left := budget.Remaining();
    if left.None? { return None, false, waits; }
    sentAt := Some(budget.clock.now);
    var needed := steps;
    while needed > 0
      invariant budget.clock.now >= old(budget.clock.now) && |waits| + needed >= steps
      invariant budget.clock.calm ==> budget.clock.now == old(budget.clock.now)
      invariant forall w :: w in waits ==> Bounded(w, Limit(budget.expires, budget.contexts)) && w.begin >= old(budget.clock.now)
      decreases needed, Limit(budget.expires, budget.contexts) - budget.clock.now
    {
      left := budget.Remaining();
      if left.None? { return sentAt, false, waits; }
      var limit := Earlier(left.value, POLL);
      waits := waits + [Waited(budget.clock.now, limit)];
      var ready := budget.clock.Wait(limit);
      left := budget.Remaining();
      if left.None? { return sentAt, false, waits; }
      if ready { needed := needed - 1; }
    }
    return sentAt, true, waits;
  }
}
