/** The claim's order and WHERE clause, stated on the stored columns alone. */
module OutboxOrder {
  import opened Wrappers
  import opened OutboxTables
  import opened OutboxProtocol

  /** The ORDER BY of a claim, and the order among opaque and among equal versions. */
  predicate Older(t: Tables, a: EventId, b: EventId) {
    && a in t.intents && b in t.intents
    && (t.intents[a].occurredAt < t.intents[b].occurredAt || (t.intents[a].occurredAt == t.intents[b].occurredAt && a < b))
  }

  /** Lower numbers come first, numbers before everything else; occurrence and event decide the rest. */
  predicate Sooner(a: EventId, x: Intent, b: EventId, y: Intent) {
    match (x.version, y.version)
    case (Number(m), Number(n)) => m < n || (m == n && (x.occurredAt < y.occurredAt || (x.occurredAt == y.occurredAt && a < b)))
    case (Number(_), _) => true
    case (_, Number(_)) => false
    case _ => x.occurredAt < y.occurredAt || (x.occurredAt == y.occurredAt && a < b)
  }

  /** `p` comes before `e` in the version order of their identity. */
  predicate Precedes(t: Tables, p: EventId, e: EventId) {
    && p in t.intents && e in t.intents && t.intents[p].identity == t.intents[e].identity
    && Sooner(p, t.intents[p], e, t.intents[e])
  }

  lemma BeforeIsPrecedes(t: Tables, p: EventId, e: EventId)
    ensures t.Before(p, e) <==> Precedes(t, p, e)
  {
  }

  lemma BeforeMeans(t: Tables)
    ensures forall p, e :: t.Before(p, e) <==> Precedes(t, p, e)
  {
    forall p, e ensures t.Before(p, e) <==> Precedes(t, p, e) { BeforeIsPrecedes(t, p, e); }
  }

  /** Without a state row, released for another try, or leased until a time that has passed. */
  predicate Unclaimed(states: States, e: EventId, now: Time) {
    e in states ==>
      var row := states[e];
      row.state == Retryable || (row.state == Leased && row.expires.Some? && row.expires.value <= now)
  }

  /** Leased to this owner until a time still to come. */
  predicate LiveLease(states: States, e: EventId, owner: string, now: Time) {
    && e in states && states[e].state == Leased && states[e].owner == Some(owner)
    && states[e].expires.Some? && now < states[e].expires.value
  }

  /** The row an accepted upsert leaves: a new lease, and one more attempt. */
  predicate NewLease(states: States, e: EventId, row: StateRow, owner: string, now: Time, duration: Time) {
    && row.state == Leased && row.owner == Some(owner) && row.acquired == Some(now) && row.expires == Some(now + duration)
    && row.failure == None
    && (if e in states
        then row.attempt == states[e].attempt + 1 && row.fingerprint == states[e].fingerprint && row.completedAt == states[e].completedAt
        else row.attempt == 1 && row.fingerprint == None && row.completedAt == None)
  }

  /** Unclaimed, with every predecessor completed. */
  ghost predicate Claimable(t: Tables, e: EventId, now: Time) {
    && e in t.intents && Unclaimed(t.states, e, now)
    && forall p :: Precedes(t, p, e) ==> p in t.states && t.states[p].state == Completed
  }

  lemma EligibleIsClaimable(t: Tables, e: EventId, now: Time)
    ensures t.Eligible(e, now) <==> Claimable(t, e, now)
  {
    forall p ensures t.Before(p, e) <==> Precedes(t, p, e) { BeforeIsPrecedes(t, p, e); }
  }

  ghost predicate Rising(t: Tables, rows: seq<EventId>) { forall i, j :: 0 <= i < j < |rows| ==> Older(t, rows[i], rows[j]) }

  /** The first rows of all claimable ones by occurrence and event, as many as the limit allows. */
  ghost predicate Selects(t: Tables, now: Time, limit: nat, rows: seq<EventId>) {
    && |rows| <= limit
    && (forall e :: e in rows ==> Claimable(t, e, now))
    && Rising(t, rows)
    && (forall e :: Claimable(t, e, now) && e !in rows ==> |rows| == limit && forall i :: 0 <= i < |rows| ==> Older(t, rows[i], e))
  }

  lemma FirstIsOldest(t: Tables, s: set<EventId>, e: EventId)
    requires s <= t.intents.Keys && e in s && e != FirstRow(t, s)
    ensures Older(t, FirstRow(t, s), e)
  {
    assert Earlier(t, FirstRow(t, s), e);
  }

  lemma OldestInFront(t: Tables, first: EventId, rest: seq<EventId>)
    requires Rising(t, rest) && forall e :: e in rest ==> Older(t, first, e)
    ensures Rising(t, [first] + rest)
  {
    var all := [first] + rest;
    forall i, j | 0 <= i < j < |all| ensures Older(t, all[i], all[j]) {
      assert all[j] == rest[j - 1] && rest[j - 1] in rest;
    }
  }

  lemma {:induction false} RowOrderRises(t: Tables, s: set<EventId>)
    requires s <= t.intents.Keys
    ensures Rising(t, RowOrder(t, s))
    decreases |s|
  {
    if s != {} {
      var first := FirstRow(t, s);
      RowOrderRises(t, s - {first});
      forall e | e in RowOrder(t, s - {first}) ensures Older(t, first, e) { FirstIsOldest(t, s, e); }
      OldestInFront(t, first, RowOrder(t, s - {first}));
    }
  }

  lemma FirstsAreOldest(t: Tables, all: seq<EventId>, m: nat, e: EventId)
    requires m <= |all| && Rising(t, all) && e in all
    ensures e in all[..m] || forall i :: 0 <= i < m ==> Older(t, all[i], e)
  {
    var k :| 0 <= k < |all| && all[k] == e;
    if k < m { assert all[..m][k] == e; }
  }

  /** What the claim statement returns. */
  lemma SelectionSelects(t: Tables, now: Time, limit: nat)
    ensures var all := RowOrder(t, t.EligibleSet(now)); Selects(t, now, limit, all[..if |all| < limit then |all| else limit])
  {
    var all := RowOrder(t, t.EligibleSet(now));
    RowOrderRises(t, t.EligibleSet(now));
    forall e ensures e in all <==> Claimable(t, e, now) {
      EligibleIsClaimable(t, e, now);
      assert e in all <==> e in t.EligibleSet(now);
    }
    FirstsSelect(t, now, limit, all);
  }

  lemma FirstsSelect(t: Tables, now: Time, limit: nat, all: seq<EventId>)
    requires Rising(t, all) && forall e :: e in all <==> Claimable(t, e, now)
    ensures Selects(t, now, limit, all[..if |all| < limit then |all| else limit])
  {
    var rows := all[..if |all| < limit then |all| else limit];
    forall e | e in all && e !in rows ensures |rows| == limit && forall i :: 0 <= i < |rows| ==> Older(t, rows[i], e) {
      FirstsAreOldest(t, all, |rows|, e);
    }
  }

  /** Of two free events of one identity without other predecessors, only the lower version can be claimed. */
  lemma LowerVersionFirst(t: Tables, a: EventId, b: EventId, m: int, n: int, now: Time)
    requires a in t.intents && b in t.intents && t.intents[a].identity == t.intents[b].identity && m < n
    requires t.intents[a].version == Number(m) && t.intents[b].version == Number(n)
    ensures t.Eligible(b, now) ==> a in t.states && t.states[a].state == Completed
  {
    EligibleIsClaimable(t, b, now);
    assert Precedes(t, a, b);
  }
}
