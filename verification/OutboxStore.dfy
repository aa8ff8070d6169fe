/**
 The outbox port as its methods run when nothing interleaves: each method body follows the statements of the
 source in order over mutable tables, and its contract gives the new tables by the protocol's own functions.
 Clock readings are inputs; a rollback puts the tables back.
 */
module OutboxStore {
  import opened Wrappers
  import opened OutboxTables
  import opened OutboxProtocol
  import opened OutboxOrder
  import opened OutboxDrain
  import Sets

  datatype Error = InvalidArgument | ResultLimit | NotFound | LeaseLost | CheckpointConflict

  datatype Record = Record(event: EventId, row: StateRow)

  /** The records a claim returns: the rows whose upsert was accepted, in order. */
  function Acquired(states: States, rows: seq<EventId>, owner: string, times: seq<Time>, duration: Time): seq<Record>
    requires |rows| == |times|
  {
    if rows == [] then [] else
      var n := |rows| - 1;
      var before := UpsertAll(states, rows[..n], owner, times[..n], duration);
      var acquired := Upsert(before, rows[n], owner, times[n], duration);
      Acquired(states, rows[..n], owner, times[..n], duration)
      + if acquired.Some? then [Record(rows[n], acquired.value)] else []
  }

  /** Every selected row that is unclaimed when its turn comes is leased and returned, and no other row changes. */
  ghost predicate Leases(before: States, after: States, rows: seq<EventId>, owner: string, times: seq<Time>, duration: Time, records: seq<Record>)
  {
    && |times| == |rows| && SameRowsExcept(before, after, rows)
    && (forall r :: r in records ==> r.event in rows)
    && forall i :: 0 <= i < |rows| ==> LeasedOrKept(before, after, rows[i], owner, times[i], duration, records)
  }

  ghost predicate LeasedOrKept(before: States, after: States, e: EventId, owner: string, now: Time, duration: Time, records: seq<Record>) {
    if Unclaimed(before, e, now) then
      e in after && NewLease(before, e, after[e], owner, now, duration) && (forall row :: Record(e, row) in records <==> row == after[e])
    else
      e in before && e in after && after[e] == before[e] && forall row :: Record(e, row) !in records
  }

  lemma {:induction false} AcquiresUnclaimed(states: States, rows: seq<EventId>, owner: string, times: seq<Time>, duration: Time)
    requires |rows| == |times| && forall i, j :: 0 <= i < j < |rows| ==> rows[i] != rows[j]
    ensures Leases(states, UpsertAll(states, rows, owner, times, duration), rows, owner, times, duration, Acquired(states, rows, owner, times, duration))
  {
    if rows != [] {
      var n := |rows| - 1;
      AcquiresUnclaimed(states, rows[..n], owner, times[..n], duration);
      AcquiresLast(states, UpsertAll(states, rows[..n], owner, times[..n], duration), Acquired(states, rows[..n], owner, times[..n], duration),
                   rows[..n], times[..n], rows[n], owner, times[n], duration);
      assert rows == rows[..n] + [rows[n]] && times == times[..n] + [times[n]];
    }
  }

  /** The record of one upsert. */
  function Recorded(before: States, e: EventId, owner: string, now: Time, duration: Time): seq<Record> {
    var row := Upsert(before, e, owner, now, duration);
    if row.Some? then [Record(e, row.value)] else []
  }

  lemma LastLeased(states: States, before: States, records: seq<Record>, e: EventId, owner: string, now: Time, duration: Time)
    requires (e in before <==> e in states) && (e in states ==> before[e] == states[e]) && forall r :: r in records ==> r.event != e
    ensures LeasedOrKept(states, UpsertOne(before, e, owner, now, duration), e, owner, now, duration,
                         records + Recorded(before, e, owner, now, duration))
  {
  }

  lemma OthersLeased(states: States, before: States, records: seq<Record>, e: EventId, x: EventId, owner: string, now: Time, at: Time, duration: Time)
    requires x != e && LeasedOrKept(states, before, x, owner, at, duration, records)
    ensures LeasedOrKept(states, UpsertOne(before, e, owner, now, duration), x, owner, at, duration,
                         records + Recorded(before, e, owner, now, duration))
  {
  }

  lemma AcquiresLast(states: States, before: States, records: seq<Record>, init: seq<EventId>, ts: seq<Time>, e: EventId, owner: string,
                     now: Time, duration: Time)
    requires Leases(states, before, init, owner, ts, duration, records) && e !in init
    ensures Leases(states, UpsertOne(before, e, owner, now, duration), init + [e], owner, ts + [now], duration,
                   records + Recorded(before, e, owner, now, duration))
  {
    var after, more := UpsertOne(before, e, owner, now, duration), records + Recorded(before, e, owner, now, duration);
    LastLeased(states, before, records, e, owner, now, duration);
    forall i | 0 <= i < |init| ensures LeasedOrKept(states, after, init[i], owner, ts[i], duration, more) {
      OthersLeased(states, before, records, e, init[i], owner, now, ts[i], duration);
    }
  }

  /** A lone claim returns exactly the batch, in order. */
  lemma {:induction false} AcquiresWholeBatch(states: States, rows: seq<EventId>, owner: string, times: seq<Time>, now: Time, duration: Time)
    requires |rows| == |times| && forall i :: 0 <= i < |times| ==> times[i] == now
    requires forall i, j :: 0 <= i < j < |rows| ==> rows[i] != rows[j]
    requires forall e :: e in rows ==> e !in states || states[e].Reclaimable(now)
    ensures var r := Acquired(states, rows, owner, times, duration);
      && |r| == |rows| && (forall i :: 0 <= i < |rows| ==> r[i].event == rows[i])
      && SameRowsExcept(states, UpsertAll(states, rows, owner, times, duration), rows)
  {
    if rows != [] {
      var n := |rows| - 1;
      AcquiresWholeBatch(states, rows[..n], owner, times[..n], now, duration);
      var e := rows[n];
      assert e in rows && e !in rows[..n];
    }
  }

  lemma FirstIsUnique(t: Tables, s: set<EventId>, a: EventId, b: EventId)
    requires s <= t.intents.Keys && a in s && b in s
    requires forall e :: e in s ==> Earlier(t, a, e)
    requires forall e :: e in s ==> Earlier(t, b, e)
    ensures a == b
  {
    assert Earlier(t, a, b) && Earlier(t, b, a);
  }

  lemma RowOrderUnfold(t: Tables, s: set<EventId>, first: EventId, done: seq<EventId>)
    requires s <= t.intents.Keys && s != {} && first == FirstRow(t, s)
    ensures done + RowOrder(t, s) == (done + [first]) + RowOrder(t, s - {first})
  {
  }

  class PostgreSQLOutbox {
    const threshold: nat
    const maxBatch: int
    const maxBytes: nat
    var intents: map<EventId, Intent>
    var states: States
    var checkpoints: Checkpoints

    constructor (threshold: nat, maxBatch: int, maxBytes: nat)
      requires threshold >= 1 && maxBatch >= 1
      ensures intents == map[] && states == map[] && checkpoints == map[]
      ensures this.threshold == threshold && this.maxBatch == maxBatch && this.maxBytes == maxBytes
    {
      this.threshold, this.maxBatch, this.maxBytes := threshold, maxBatch, maxBytes;
      intents, states, checkpoints := map[], map[], map[];
    }

    function View(): Tables
      reads this
    {
      Tables(intents, states, checkpoints)
    }

    /** The rows the claim statement returns when no other transaction holds a lock. */
    ghost function Selected(now: Time, limit: nat): (rows: seq<EventId>)
      reads this
    {
      var all := RowOrder(View(), View().EligibleSet(now));
      all[..if |all| < limit then |all| else limit]
    }

    /** One pass for the ORDER BY: the earliest of the remaining rows. */
    method Earliest(s: set<EventId>) returns (first: EventId)
      requires s <= intents.Keys && s != {}
      ensures first == FirstRow(View(), s)
    {
      first := Sets.Choose(s);
      var rest := s - {first};
      while rest != {}
        invariant rest <= s && first in s
        invariant forall e :: e in s && e !in rest ==> Earlier(View(), first, e)
        decreases rest
      {
        var e := Sets.Choose(rest);
        if Earlier(View(), e, first) { first := e; }
        rest := rest - {e};
      }
      FirstIsUnique(View(), s, first, FirstRow(View(), s));
    }

    /** The claim SELECT: eligible rows ordered by occurrence and event, up to the limit. */
    method SelectRows(now: Time, limit: nat) returns (rows: seq<EventId>)
      ensures rows == Selected(now, limit) && Selects(View(), now, limit, rows)
    {
      SelectionSelects(View(), now, limit);
      rows := [];
      var remaining := View().EligibleSet(now);
      ghost var t := View();
      ghost var all := RowOrder(t, remaining);
      while |rows| < limit && remaining != {}
        invariant remaining <= intents.Keys && t == View()
        invariant all == rows + RowOrder(t, remaining)
        invariant |rows| <= limit
        decreases remaining
      {
        var first := Earliest(remaining);
        RowOrderUnfold(t, remaining, first, rows);
        rows := rows + [first];
        remaining := remaining - {first};
      }
    }

    /**
     `atomic_claim`. `clock(0)` is the reading before the scan and `clock(k + 1)` the one before the k-th upsert;
     with an explicit `now` the clock is constant.
     */
    method AtomicClaim(owner: string, limit: int, duration: Time, clock: nat -> Time) returns (r: Result<seq<Record>, Error>)
      modifies this
      ensures intents == old(intents) && checkpoints == old(checkpoints)
      ensures r == Err(InvalidArgument) <==> owner == "" || !(1 <= limit <= maxBatch) || duration <= 0
      ensures r.Err? ==> states == old(states)
      ensures 1 <= limit && r != Err(InvalidArgument) ==>
        var rows := old(Selected(clock(0), limit));
        var times := seq(|rows|, (k: nat) => clock(k + 1));
        if TotalSize(intents, rows) > maxBytes then r == Err(ResultLimit)
        else r == Ok(Acquired(old(states), rows, owner, times, duration))
             && states == UpsertAll(old(states), rows, owner, times, duration)
      ensures r.Ok? ==> exists rows ::
        && Selects(old(View()), clock(0), limit, rows) && TotalSize(intents, rows) <= maxBytes
        && Leases(old(states), states, rows, owner, seq(|rows|, (k: nat) => clock(k + 1)), duration, r.value)
    {
      if owner == "" || !(1 <= limit <= maxBatch) || duration <= 0 { return Err(InvalidArgument); }
      var rows := SelectRows(clock(0), limit);
      ghost var times := seq(|rows|, (k: nat) => clock(k + 1));
      ghost var before, t := states, View();
      r := UpsertRows(rows, owner, duration, clock, times);
      if r.Ok? {
        AcquiresUnclaimed(before, rows, owner, times, duration);
        assert Selects(t, clock(0), limit, rows);
      }
    }

    /** The upserts of one claim, in one transaction: too large a result undoes them all. */
    method UpsertRows(rows: seq<EventId>, owner: string, duration: Time, clock: nat -> Time, ghost times: seq<Time>)
      returns (r: Result<seq<Record>, Error>)
      requires |times| == |rows| && forall k :: 0 <= k < |rows| ==> times[k] == clock(k + 1)
      modifies this`states
      ensures if TotalSize(intents, rows) > maxBytes then r == Err(ResultLimit) && states == old(states)
              else r == Ok(Acquired(old(states), rows, owner, times, duration)) && states == UpsertAll(old(states), rows, owner, times, duration)
    {
      var before := states;
      var result: seq<Record> := [];
      var resultBytes := 0;
      var k := 0;
      assert rows[..0] == [] && times[..0] == [];
      while k < |rows|
        invariant 0 <= k <= |rows|
        invariant resultBytes == TotalSize(intents, rows[..k]) && resultBytes <= maxBytes
        invariant states == UpsertAll(before, rows[..k], owner, times[..k], duration)
        invariant result == Acquired(before, rows[..k], owner, times[..k], duration)
      {
        var e := rows[k];
        ClaimStep(intents, before, rows, k, owner, times, duration);
        resultBytes := resultBytes + if e in intents then intents[e].size else 0;
        if resultBytes > maxBytes {
          SizeGrows(intents, rows, k + 1);
          states := before;
          return Err(ResultLimit);
        }
        var acquired := Upsert(states, e, owner, clock(k + 1), duration);
        if acquired.Some? {
          states := states[e := acquired.value];
          result := result + [Record(e, acquired.value)];
        }
        k := k + 1;
      }
      assert rows[..|rows|] == rows && times[..|rows|] == times;
      return Ok(result);
    }

    /** `_leased`: the row of a live lease of `owner`, or why there is none. */
    method Leased(event: EventId, owner: string, now: Time) returns (r: Result<StateRow, Error>)
      ensures r == (if event !in intents then Err(NotFound)
                    else if LiveLease(states, event, owner, now) then Ok(states[event])
                    else Err(LeaseLost))
    {
      if event !in intents { return Err(NotFound); }
      if event !in states { return Err(LeaseLost); }
      var row := states[event];
      if !row.state.Leased? || row.owner != Some(owner) || row.expires.None? || row.expires.value <= now {
        return Err(LeaseLost);
      }
      return Ok(row);
    }

    /** `complete`: checkpoint first, then the state row; a lease that expires in between undoes the checkpoint. */
    method Complete(event: EventId, owner: string, acknowledged: Version, fingerprint: string, current: Time, later: Time)
      returns (r: Result<Checkpoint, Error>)
      modifies this
      ensures intents == old(intents)
      ensures r.Err? ==> states == old(states) && checkpoints == old(checkpoints)
      ensures r.Ok? <==> event in intents && LiveLease(old(states), event, owner, current)
                         && LiveLease(old(states), event, owner, later) && acknowledged == intents[event].version
      ensures r == Err(NotFound) <==> event !in intents
      ensures r == Err(CheckpointConflict) <==>
                (event in intents && LiveLease(old(states), event, owner, current) && acknowledged != intents[event].version)
      ensures r.Ok? ==>
        && states == old(states)[event := StateRow(Completed, old(states)[event].attempt, None, None, None, None, Some(fingerprint), Some(current))]
        && r.value == Checkpoint(
             (if intents[event].partition in old(checkpoints) then old(checkpoints)[intents[event].partition].revision else 0) + 1,
             event, acknowledged, fingerprint, current)
        && checkpoints == old(checkpoints)[intents[event].partition := r.value]
    {
      var leased := Leased(event, owner, current);
      if leased.Err? { return Err(leased.error); }
      var intent := intents[event];
      if acknowledged != intent.version { return Err(CheckpointConflict); }
      var before := checkpoints;
      var previous := View().Revision(intent.partition);
      var row := Checkpoint(previous + 1, event, intent.version, fingerprint, current);
      var saved := Advance(checkpoints, intent.partition, previous, row);
      if saved.None? { return Err(CheckpointConflict); }
      checkpoints := saved.value;
      if !states[event].HeldBy(owner, later) {
        checkpoints := before;
        return Err(LeaseLost);
      }
      states := states[event := CompletedRow(states[event], fingerprint, current)];
      return Ok(row);
    }

    /** `release`: back to retry below the threshold, otherwise to quarantine. */
    method Release(event: EventId, owner: string, failure: string, retryable: bool, current: Time, later: Time)
      returns (r: Result<Record, Error>)
      modifies this
      ensures intents == old(intents) && checkpoints == old(checkpoints)
      ensures r.Err? ==> states == old(states)
      ensures r == Err(NotFound) <==> event !in intents
      ensures r.Ok? <==> event in intents && LiveLease(old(states), event, owner, current) && LiveLease(old(states), event, owner, later)
      ensures r.Ok? ==>
        && states == old(states)[event := r.value.row] && r.value.event == event
        && var before, row := old(states)[event], r.value.row;
        && (row.state == Quarantined <==> !retryable || before.attempt >= threshold)
        && (row.state == Retryable <==> retryable && before.attempt < threshold)
        && row == StateRow(row.state, before.attempt, None, None, None, Some(failure), before.fingerprint, before.completedAt)
    {
      var leased := Leased(event, owner, current);
      if leased.Err? { return Err(leased.error); }
      var row := leased.value;
      var released := ReleasedRow(row, row.attempt, retryable, threshold, failure);
      if !states[event].HeldBy(owner, later) { return Err(LeaseLost); }
      states := states[event := released];
      return Ok(Record(event, released));
    }
  }

  /** One more row: its size, its upsert and its record. */
  lemma ClaimStep(intents: map<EventId, Intent>, states: States, rows: seq<EventId>, k: nat, owner: string, times: seq<Time>, duration: Time)
    requires k < |rows| == |times|
    ensures TotalSize(intents, rows[..k + 1]) == TotalSize(intents, rows[..k]) + if rows[k] in intents then intents[rows[k]].size else 0
    ensures var before := UpsertAll(states, rows[..k], owner, times[..k], duration);
      var acquired := Upsert(before, rows[k], owner, times[k], duration);
      && UpsertAll(states, rows[..k + 1], owner, times[..k + 1], duration) == (if acquired.Some? then before[rows[k] := acquired.value] else before)
      && Acquired(states, rows[..k + 1], owner, times[..k + 1], duration)
         == Acquired(states, rows[..k], owner, times[..k], duration) + if acquired.Some? then [Record(rows[k], acquired.value)] else []
  {
    assert rows[..k + 1][..k] == rows[..k] && times[..k + 1][..k] == times[..k];
  }

  lemma {:induction false} SizeGrows(intents: map<EventId, Intent>, rows: seq<EventId>, k: nat)
    requires k <= |rows|
    ensures TotalSize(intents, rows[..k]) <= TotalSize(intents, rows)
    decreases |rows|
  {
    if k == |rows| {
      assert rows[..k] == rows;
    } else {
      SizeGrows(intents, rows[..|rows| - 1], k);
      assert rows[..|rows| - 1][..k] == rows[..k];
    }
  }
}
