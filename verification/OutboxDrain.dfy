/** Progress: what a lone worker that claims and completes batch after batch achieves. */
module OutboxDrain {
  import opened OutboxTables
  import opened OutboxProtocol
  import opened OutboxSafety
  import opened OutboxOrder
  import Theorems = OutboxTheorems

  /** The least incomplete event of its identity. */
  ghost predicate Head(t: Tables, e: EventId) {
    e in t.intents && !t.Done(e) && forall p :: Precedes(t, p, e) ==> t.Done(p)
  }

  /** The rows a claim locks when nobody else is active. */
  ghost function Batch(w: World, now: Time, limit: nat): seq<EventId> {
    Lockable(w, RowOrder(w.tables, w.tables.EligibleSet(now)), {}, limit)
  }

  ghost function Constant(n: nat, now: Time): (times: seq<Time>)
    ensures |times| == n && forall i :: 0 <= i < n ==> times[i] == now
  {
    seq(n, _ => now)
  }

  /** `atomic_claim` run on its own: scan, lock and commit. */
  ghost function Claim(c: Config, w: World, owner: string, now: Time, limit: nat, duration: Time): World {
    var scanned := Step(c, w, Scan(0, owner, now, limit, duration));
    var held := Step(c, scanned, Lock(0, {}));
    Step(c, held, CommitClaim(0, Constant(|Batch(w, now, limit)|, now)))
  }

  /** `complete` for each claimed row, in order, acknowledging its exact version. */
  ghost function CompleteAll(c: Config, w: World, rows: seq<EventId>, owner: string, fingerprint: string, now: Time): World
  {
    if rows == [] || rows[|rows| - 1] !in w.tables.intents then w else
      var v := CompleteAll(c, w, rows[..|rows| - 1], owner, fingerprint, now);
      var e := rows[|rows| - 1];
      var read := Step(c, v, ReadLease(0, e, owner, w.tables.intents[e].version, fingerprint, now));
      Step(c, read, CommitCompletion(0, now))
  }

  ghost function Round(c: Config, w: World, owner: string, fingerprint: string, now: Time, limit: nat, duration: Time): World {
    CompleteAll(c, Claim(c, w, owner, now, limit, duration), Batch(w, now, limit), owner, fingerprint, now)
  }

  // --- What is claimable ---

  /** A row can be claimed exactly when it is a head that is pending, retryable or expired. */
  lemma ClaimableIsFreeHead(t: Tables, e: EventId, now: Time)
    ensures Claimable(t, e, now) <==> Head(t, e) && t.Free(e, now)
  {
  }

  lemma {:induction false} TakesFromFront(w: World, rows: seq<EventId>, limit: nat)
    requires w.txns == map[]
    ensures Lockable(w, rows, {}, limit) == rows[..if |rows| < limit then |rows| else limit]
    decreases |rows|
  {
    if rows != [] && limit > 0 {
      assert !w.Locked(rows[0]);
      TakesFromFront(w, rows[1..], limit - 1);
    }
  }

  lemma BatchMembers(w: World, now: Time, limit: nat)
    requires w.txns == map[] && limit >= 1
    ensures var rows := Batch(w, now, limit);
      && |rows| <= limit
      && (forall e :: e in rows ==> Claimable(w.tables, e, now))
      && (|rows| < limit ==> forall e :: Claimable(w.tables, e, now) ==> e in rows)
  {
    var t := w.tables;
    var all := RowOrder(t, t.EligibleSet(now));
    var rows := Batch(w, now, limit);
    TakesFromFront(w, all, limit);
    forall e ensures e in all <==> Claimable(t, e, now) {
      EligibleIsClaimable(t, e, now);
      assert e in all <==> e in t.EligibleSet(now);
    }
    assert |rows| < limit ==> rows == all;
  }

  /** A lone claim is nonempty exactly when some head is free, and takes at most one event of any identity. */
  lemma BatchShape(w: World, now: Time, limit: nat)
    requires w.txns == map[] && limit >= 1
    ensures var rows := Batch(w, now, limit); var t := w.tables;
      && (rows != [] <==> exists e :: Claimable(t, e, now))
      && (forall e :: e in rows ==> Claimable(t, e, now))
      && (forall i, j :: 0 <= i < j < |rows| ==> rows[i] != rows[j] && !Theorems.SameIdentity(t, rows[i], rows[j]))
  {
    var t := w.tables;
    var rows := Batch(w, now, limit);
    BatchMembers(w, now, limit);
    forall i, j | 0 <= i < j < |rows| ensures rows[i] != rows[j] && !Theorems.SameIdentity(t, rows[i], rows[j]) {
      assert rows[i] in rows && rows[j] in rows;
      if Theorems.SameIdentity(t, rows[i], rows[j]) { HeadIsUnique(t, rows[i], rows[j]); }
    }
    if rows != [] { assert Claimable(t, rows[0], now); }
  }

  lemma HeadIsUnique(t: Tables, a: EventId, b: EventId)
    requires Head(t, a) && Head(t, b) && t.intents[a].identity == t.intents[b].identity
    ensures a == b
  {
    assert !Precedes(t, a, b) && !Precedes(t, b, a);
  }

  // --- One round ---

  lemma GrantAllUnfold(w: World, rows: seq<EventId>, owner: string, times: seq<Time>, duration: Time, visible: set<EventId>)
    requires |rows| == |times| && rows != []
    ensures var n := |rows| - 1;
      GrantAll(w, rows, owner, times, duration, visible)
      == GrantOne(GrantAll(w, rows[..n], owner, times[..n], duration, visible), rows[n], owner, times[n], duration, visible)
  {
  }

  /** Claiming distinct free rows at one instant leases every one of them and touches no other row. */
  lemma {:induction false} GrantAllLeases(w: World, rows: seq<EventId>, owner: string, times: seq<Time>, now: Time, duration: Time, visible: set<EventId>)
    requires duration > 0 && |times| == |rows| && forall i :: 0 <= i < |times| ==> times[i] == now
    requires forall i, j :: 0 <= i < j < |rows| ==> rows[i] != rows[j]
    requires forall e :: e in rows ==> w.tables.Free(e, now)
    ensures var v := GrantAll(w, rows, owner, times, duration, visible);
      && (forall e :: e in rows ==> e in v.tables.states && v.tables.states[e].HeldBy(owner, now))
      && SameRowsExcept(w.tables.states, v.tables.states, rows)
  {
    if rows != [] {
      var n := |rows| - 1;
      GrantAllLeases(w, rows[..n], owner, times[..n], now, duration, visible);
      GrantAllUnfold(w, rows, owner, times, duration, visible);
      var u := GrantAll(w, rows[..n], owner, times[..n], duration, visible);
      var v := GrantAll(w, rows, owner, times, duration, visible);
      assert rows[n] !in rows[..n] && rows[n] in rows;
      assert w.tables.Free(rows[n], now) && u.tables.Free(rows[n], now);
      forall e | e in rows ensures e in v.tables.states && v.tables.states[e].HeldBy(owner, now) {
        assert e == rows[n] || e in rows[..n];
      }
    }
  }

  ghost predicate SameRowsExcept(s: States, t: States, rows: seq<EventId>) {
    forall e :: e !in rows ==> (e in t <==> e in s) && (e in s ==> t[e] == s[e])
  }

  /** The batch at hand is within the result byte limit. */
  ghost predicate Fits(c: Config, w: World, now: Time, limit: nat) {
    TotalSize(w.tables.intents, Batch(w, now, limit)) <= c.maxBytes
  }

  ghost function Held(w: World, owner: string, now: Time, limit: nat, duration: Time): World {
    w.(txns := map[0 := Holding(owner, duration, Batch(w, now, limit), w.tables.intents.Keys)], owners := w.owners + {owner})
  }

  lemma ClaimIsGrantAll(c: Config, w: World, owner: string, now: Time, limit: nat, duration: Time)
    requires Valid(c, w) && w.txns == map[] && limit >= 1 && duration > 0
    ensures var rows := Batch(w, now, limit); var held := Held(w, owner, now, limit, duration);
      && Claim(c, w, owner, now, limit, duration)
         == Drop(if Fits(c, w, now, limit) then GrantAll(held, rows, owner, Constant(|rows|, now), duration, w.tables.intents.Keys) else held, 0)
      && Valid(c, Claim(c, w, owner, now, limit, duration))
  {
    var rows := Batch(w, now, limit);
    var all := RowOrder(w.tables, w.tables.EligibleSet(now));
    var scanned := Step(c, w, Scan(0, owner, now, limit, duration));
    assert scanned == w.(txns := map[0 := Scanned(owner, duration, limit, all, w.tables.intents.Keys)], owners := w.owners + {owner});
    SameLockable(scanned, w, all, limit);
    var held := Step(c, scanned, Lock(0, {}));
    assert held == Held(w, owner, now, limit, duration);
    StepValid(c, w, Scan(0, owner, now, limit, duration));
    StepValid(c, scanned, Lock(0, {}));
    StepValid(c, held, CommitClaim(0, Constant(|rows|, now)));
  }

  /** A lone claim leases its whole batch when the batch is within the byte limit. */
  lemma FittingClaim(c: Config, w: World, owner: string, now: Time, limit: nat, duration: Time)
    requires Valid(c, w) && w.txns == map[] && limit >= 1 && duration > 0 && Fits(c, w, now, limit)
    ensures var v := Claim(c, w, owner, now, limit, duration); var rows := Batch(w, now, limit);
      && Valid(c, v) && v.txns == map[]
      && v.tables == w.tables.(states := UpsertAll(w.tables.states, rows, owner, Constant(|rows|, now), duration))
      && (forall e :: e in rows ==> e in v.tables.states && v.tables.states[e].HeldBy(owner, now))
      && SameRowsExcept(w.tables.states, v.tables.states, rows)
      && (forall e :: v.tables.Done(e) <==> w.tables.Done(e))
  {
    var rows := Batch(w, now, limit);
    var held := Held(w, owner, now, limit, duration);
    var visible := w.tables.intents.Keys;
    ClaimIsGrantAll(c, w, owner, now, limit, duration);
    BatchShape(w, now, limit);
    GrantAllLeases(held, rows, owner, Constant(|rows|, now), now, duration, visible);
    Theorems.GrantAllExtends(c, held, rows, owner, Constant(|rows|, now), duration, visible);
    GrantAllTables(held, rows, owner, Constant(|rows|, now), duration, visible);
    assert held.txns - {0} == map[];
  }

  /**
   A lone claim on a nonempty batch leases all of it if and only if the batch's own total is within the byte limit;
   otherwise it changes no table and no history. Every other row keeps its state.
   */
  lemma ClaimLeasesBatch(c: Config, w: World, owner: string, now: Time, limit: nat, duration: Time)
    requires Valid(c, w) && w.txns == map[] && limit >= 1 && duration > 0
    ensures var v := Claim(c, w, owner, now, limit, duration); var rows := Batch(w, now, limit);
      && Valid(c, v) && v.txns == map[]
      && SameRowsExcept(w.tables.states, v.tables.states, rows)
      && (forall e :: v.tables.Done(e) <==> w.tables.Done(e))
      && (Fits(c, w, now, limit) ==>
            v.tables == w.tables.(states := UpsertAll(w.tables.states, rows, owner, Constant(|rows|, now), duration)))
      && (!Fits(c, w, now, limit) ==> rows != [] && v.tables == w.tables && v.history == w.history)
      && (rows != [] ==>
            ((forall e :: e in rows ==> e in v.tables.states && v.tables.states[e].HeldBy(owner, now)) <==> Fits(c, w, now, limit)))
  {
    if Fits(c, w, now, limit) {
      FittingClaim(c, w, owner, now, limit, duration);
    } else {
      ClaimIsGrantAll(c, w, owner, now, limit, duration);
      BatchShape(w, now, limit);
      var rows := Batch(w, now, limit);
      assert rows[0] in rows && w.tables.Free(rows[0], now);
      assert Held(w, owner, now, limit, duration).txns - {0} == map[];
    }
  }

  lemma {:induction false} SameLockable(v: World, w: World, rows: seq<EventId>, limit: nat)
    requires forall e :: !v.Locked(e) && !w.Locked(e)
    ensures Lockable(v, rows, {}, limit) == Lockable(w, rows, {}, limit)
    decreases |rows|
  {
    if rows != [] && limit > 0 { SameLockable(v, w, rows[1..], limit - 1); }
  }

  /** On the state table, the world's grant loop is the claim method's upsert loop. */
  lemma {:induction false} GrantAllTables(w: World, rows: seq<EventId>, owner: string, times: seq<Time>, duration: Time, visible: set<EventId>)
    requires |rows| == |times|
    ensures GrantAll(w, rows, owner, times, duration, visible).tables
            == w.tables.(states := UpsertAll(w.tables.states, rows, owner, times, duration))
  {
    if rows != [] { GrantAllTables(w, rows[..|rows| - 1], owner, times[..|rows| - 1], duration, visible); }
  }

  lemma CompleteOne(c: Config, w: World, e: EventId, owner: string, fingerprint: string, now: Time)
    requires Valid(c, w) && w.txns == map[]
    requires e in w.tables.states && w.tables.states[e].HeldBy(owner, now)
    ensures e in w.tables.intents
    ensures var v := Step(c, Step(c, w, ReadLease(0, e, owner, w.tables.intents[e].version, fingerprint, now)), CommitCompletion(0, now));
      && Valid(c, v) && v.txns == map[] && v.tables.intents == w.tables.intents
      && v.tables.Done(e) && v.tables.states - {e} == w.tables.states - {e}
      && v.tables.states.Keys == w.tables.states.Keys
  {
    assert EventOk(c, w, e);
    var a := ReadLease(0, e, owner, w.tables.intents[e].version, fingerprint, now);
    var read := Step(c, w, a);
    assert !w.Locked(e);
    StepValid(c, w, a);
    StepValid(c, read, CommitCompletion(0, now));
    assert CheckpointOk(read.tables, w.tables.intents[e].partition);
    assert read.txns - {0} == map[];
  }

  lemma {:induction false} CompleteAllDone(c: Config, w: World, rows: seq<EventId>, owner: string, fingerprint: string, now: Time)
    requires Valid(c, w) && w.txns == map[]
    requires forall i, j :: 0 <= i < j < |rows| ==> rows[i] != rows[j]
    requires forall e :: e in rows ==> e in w.tables.states && w.tables.states[e].HeldBy(owner, now)
    ensures var v := CompleteAll(c, w, rows, owner, fingerprint, now);
      && Valid(c, v) && v.txns == map[] && v.tables.intents == w.tables.intents
      && (forall e :: e in rows ==> v.tables.Done(e))
      && SameRowsExcept(w.tables.states, v.tables.states, rows)
  {
    if rows != [] {
      var n := |rows| - 1;
      CompleteAllDone(c, w, rows[..n], owner, fingerprint, now);
      var v := CompleteAll(c, w, rows[..n], owner, fingerprint, now);
      assert EventOk(c, w, rows[n]);
      assert rows[n] !in rows[..n];
      CompleteOne(c, v, rows[n], owner, fingerprint, now);
      var u := CompleteAll(c, w, rows, owner, fingerprint, now);
      forall e | e in v.tables.states && e != rows[n] ensures e in u.tables.states && u.tables.states[e] == v.tables.states[e] {
        assert e in u.tables.states - {rows[n]} && (u.tables.states - {rows[n]})[e] == (v.tables.states - {rows[n]})[e];
      }
      forall e | e in rows ensures u.tables.Done(e) {
        assert e == rows[n] || e in rows[..n];
      }
    }
  }

  /** A round completes exactly its batch, if the batch is within the byte limit. */
  lemma RoundCompletesBatch(c: Config, w: World, owner: string, fingerprint: string, now: Time, limit: nat, duration: Time)
    requires Valid(c, w) && w.txns == map[] && limit >= 1 && duration > 0 && Fits(c, w, now, limit)
    ensures var v := Round(c, w, owner, fingerprint, now, limit, duration); var rows := Batch(w, now, limit);
      && Valid(c, v) && v.txns == map[] && v.tables.intents == w.tables.intents
      && v.tables.Incomplete() == w.tables.Incomplete() - (set e | e in rows)
      && |v.tables.Incomplete()| == |w.tables.Incomplete()| - |rows|
  {
    var rows := Batch(w, now, limit);
    FittingClaim(c, w, owner, now, limit, duration);
    BatchShape(w, now, limit);
    var u := Claim(c, w, owner, now, limit, duration);
    CompleteAllDone(c, u, rows, owner, fingerprint, now);
    BatchLeaves(w.tables, u.tables, CompleteAll(c, u, rows, owner, fingerprint, now).tables, rows);
  }

  lemma BatchLeaves(t: Tables, u: Tables, v: Tables, rows: seq<EventId>)
    requires t.intents == u.intents == v.intents
    requires forall i, j :: 0 <= i < j < |rows| ==> rows[i] != rows[j]
    requires forall e :: e in rows ==> e in t.intents && !t.Done(e) && v.Done(e)
    requires forall e :: u.Done(e) <==> t.Done(e)
    requires SameRowsExcept(u.states, v.states, rows)
    ensures v.Incomplete() == t.Incomplete() - (set e | e in rows)
    ensures |v.Incomplete()| == |t.Incomplete()| - |rows|
  {
    var s := set e | e in rows;
    forall e ensures e in v.Incomplete() <==> e in t.Incomplete() && e !in s { assert u.Done(e) <==> t.Done(e); }
    assert forall e :: e in s ==> e in rows && e in t.Incomplete();
    assert s <= t.Incomplete();
    Count(rows);
  }

  lemma {:induction false} Count(rows: seq<EventId>)
    requires forall i, j :: 0 <= i < j < |rows| ==> rows[i] != rows[j]
    ensures |set e | e in rows| == |rows|
  {
    if rows != [] {
      var n := |rows| - 1;
      Count(rows[..n]);
      assert (set e | e in rows) == (set e | e in rows[..n]) + {rows[n]};
    }
  }

  // --- Draining ---

  /** Claim and complete until a claim returns nothing or is refused for its size. */
  ghost function Drain(c: Config, w: World, owner: string, fingerprint: string, now: Time, limit: nat, duration: Time): (v: World)
    requires Valid(c, w) && w.txns == map[] && limit >= 1 && duration > 0
    ensures Valid(c, v) && v.txns == map[] && v.tables.intents == w.tables.intents
    ensures Batch(v, now, limit) == [] || !Fits(c, v, now, limit)
    decreases |w.tables.Incomplete()|
  {
    if Batch(w, now, limit) == [] || !Fits(c, w, now, limit) then w
    else
      RoundCompletesBatch(c, w, owner, fingerprint, now, limit, duration);
      Drain(c, Round(c, w, owner, fingerprint, now, limit, duration), owner, fingerprint, now, limit, duration)
  }

  /** Every incomplete event is at or behind a head. */
  lemma HeadOf(t: Tables, e: EventId) returns (h: EventId)
    requires e in t.intents && !t.Done(e)
    ensures Head(t, h) && (h == e || Precedes(t, h, e))
    decreases |set p | p in t.intents && Precedes(t, p, e)|
  {
    if p :| Precedes(t, p, e) && !t.Done(p) {
      var below := set q | q in t.intents && Precedes(t, q, p);
      var above := set q | q in t.intents && Precedes(t, q, e);
      assert p in above && p !in below && below <= above;
      Smaller(below, above, p);
      h := HeadOf(t, p);
    } else {
      h := e;
    }
  }

  lemma Smaller(a: set<EventId>, b: set<EventId>, x: EventId)
    requires a <= b && x in b && x !in a
    ensures |a| < |b|
  {
    assert |b| == |a| + |b - a|;
    assert x in b - a;
  }

  /** A head nobody can claim now: quarantined, or under a live lease. */
  ghost predicate Blocked(t: Tables, h: EventId, now: Time) {
    && Head(t, h) && h in t.states
    && (t.states[h].state.Quarantined?
        || (t.states[h].state.Leased? && t.states[h].expires.Some? && t.states[h].expires.value > now))
  }

  /**
   Draining stops with a batch over the byte limit, or with every remaining event at or behind a head that is
   quarantined or still leased.
   */
  lemma DrainLeavesOnlyBlocked(c: Config, w: World, owner: string, fingerprint: string, now: Time, limit: nat, duration: Time, e: EventId)
    requires Valid(c, w) && w.txns == map[] && limit >= 1 && duration > 0
    requires var t := Drain(c, w, owner, fingerprint, now, limit, duration).tables; e in t.intents && !t.Done(e)
    ensures var v := Drain(c, w, owner, fingerprint, now, limit, duration);
      if Fits(c, v, now, limit) then exists h :: Blocked(v.tables, h, now) && (h == e || Precedes(v.tables, h, e))
      else exists h :: h in Batch(v, now, limit) && Claimable(v.tables, h, now)
  {
    var v := Drain(c, w, owner, fingerprint, now, limit, duration);
    BatchShape(v, now, limit);
    if Fits(c, v, now, limit) {
      var h := HeadOf(v.tables, e);
      assert !Claimable(v.tables, h, now);
      assert EventOk(c, v, h);
      assert Blocked(v.tables, h, now);
    } else {
      var rows := Batch(v, now, limit);
      assert rows[0] in rows;
    }
  }
}
