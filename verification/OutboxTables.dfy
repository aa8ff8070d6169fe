/**
 The outbox tables as one projection sees them, and the meaning of each SQL statement that reads or writes them.
 Only the intents that the fixed scope and spec select are kept; the state and checkpoint tables are keyed by that
 same scope, Resource and projection, so their keys reduce to the event and the partition.
 */
module OutboxTables {
  import opened Wrappers

  /** Event ids in the database's text order; timestamps in microseconds. */
  type EventId = int
  type Time = int

  /** A JSON source version: null, a number, or opaque text. */
  datatype Version = Null | Number(number: int) | Text(text: string)

  /** The immutable columns the protocol reads. `size` is the canonical JSON size of the whole intent. */
  datatype Intent = Intent(
    identity: Option<string>, version: Version, occurredAt: Time, partition: string, size: nat)

  datatype State = Leased | Completed | Retryable | Quarantined

  datatype StateRow = StateRow(
    state: State, attempt: int, owner: Option<string>, acquired: Option<Time>, expires: Option<Time>,
    failure: Option<string>, fingerprint: Option<string>, completedAt: Option<Time>)
  {
    /** The CHECK constraints of the state table. */
    predicate Check() {
      && attempt > 0
      && (if state.Leased? then
            owner.Some? && acquired.Some? && expires.Some? && expires.value > acquired.value
          else
            owner.None? && acquired.None? && expires.None?)
    }

    /** The lease test shared by `_leased` and by both final UPDATE statements. */
    predicate HeldBy(who: string, now: Time) {
      state.Leased? && owner == Some(who) && expires.Some? && expires.value > now
    }

    /** The rows a claim may take over. */
    predicate Reclaimable(now: Time) {
      state.Retryable? || (state.Leased? && expires.Some? && expires.value <= now)
    }
  }

  datatype Checkpoint = Checkpoint(
    revision: int, event: EventId, version: Version, fingerprint: string, advancedAt: Time)

  type States = map<EventId, StateRow>
  type Checkpoints = map<string, Checkpoint>

  datatype Tables = Tables(intents: map<EventId, Intent>, states: States, checkpoints: Checkpoints)
  {
    predicate Done(e: EventId) { e in states && states[e].state.Completed? }

    /** `order(p) < order(i)` for two intents of one source identity. */
    predicate Before(p: EventId, i: EventId)
    {
      && p in intents && i in intents
      && intents[p].identity == intents[i].identity
      && OrderKey(p, intents[p]).Less(OrderKey(i, intents[i]))
    }

    predicate Free(e: EventId, now: Time) { e !in states || states[e].Reclaimable(now) }

    /** The WHERE clause of the claim statement. */
    predicate Eligible(e: EventId, now: Time) {
      e in intents && Free(e, now) && forall p | p in intents && Before(p, e) :: Done(p)
    }

    /** What a claim's snapshot selects before locking, limiting and ordering. */
    function EligibleSet(now: Time): set<EventId> {
      set e | e in intents && Eligible(e, now)
    }

    /** Completed events of one partition. */
    function DoneIn(partition: string): set<EventId> {
      set e | e in states && e in intents && Done(e) && intents[e].partition == partition
    }

    function Incomplete(): set<EventId> { set e | e in intents && !Done(e) }

    /** `_read_checkpoint`: an absent row reads as revision zero. */
    function Revision(partition: string): int {
      if partition in checkpoints then checkpoints[partition].revision else 0
    }
  }

  /** The row value `order(alias)` builds; numeric versions come first, in numeric order. */
  datatype Key = Key(rank: int, number: int, occurredAt: Time, event: EventId)
  {
    predicate Less(other: Key) {
      || rank < other.rank
      || (rank == other.rank && number < other.number)
      || (rank == other.rank && number == other.number && occurredAt < other.occurredAt)
      || (rank == other.rank && number == other.number && occurredAt == other.occurredAt && event < other.event)
    }
  }

  function OrderKey(e: EventId, i: Intent): Key {
    match i.version
    case Number(n) => Key(0, n, i.occurredAt, e)
    case _ => Key(1, 0, i.occurredAt, e)
  }

  // --- Statements ---

  /** INSERT ... ON CONFLICT DO UPDATE ... WHERE of a claim; None when the WHERE clause rejects the conflicting row. */
  function Upsert(states: States, e: EventId, owner: string, now: Time, duration: Time): Option<StateRow> {
    if e !in states then
      Some(StateRow(Leased, 1, Some(owner), Some(now), Some(now + duration), None, None, None))
    else if states[e].Reclaimable(now) then
      Some(states[e].(state := Leased, attempt := states[e].attempt + 1, owner := Some(owner),
                      acquired := Some(now), expires := Some(now + duration), failure := None))
    else
      None
  }

  /** The claim loop: every locked row is upserted in turn, each with its own clock reading. */
  function UpsertAll(states: States, rows: seq<EventId>, owner: string, times: seq<Time>, duration: Time): States
    requires |rows| == |times|
    decreases |rows|
  {
    if rows == [] then states
    else
      var before := UpsertAll(states, rows[..|rows| - 1], owner, times[..|rows| - 1], duration);
      UpsertOne(before, rows[|rows| - 1], owner, times[|rows| - 1], duration)
  }

  function UpsertOne(states: States, e: EventId, owner: string, now: Time, duration: Time): States {
    match Upsert(states, e, owner, now, duration)
    case None => states
    case Some(row) => states[e := row]
  }

  function TotalSize(intents: map<EventId, Intent>, rows: seq<EventId>): nat {
    if rows == [] then 0
    else TotalSize(intents, rows[..|rows| - 1])
         + if rows[|rows| - 1] in intents then intents[rows[|rows| - 1]].size else 0
  }

  /** The compare-and-set on the checkpoint table; None when another completion moved the revision. */
  function Advance(checkpoints: Checkpoints, partition: string, previous: int, row: Checkpoint): Option<Checkpoints> {
    if partition !in checkpoints || checkpoints[partition].revision == previous
    then Some(checkpoints[partition := row])
    else None
  }

  function CompletedRow(row: StateRow, fingerprint: string, now: Time): StateRow {
    row.(state := Completed, owner := None, acquired := None, expires := None, failure := None,
         fingerprint := Some(fingerprint), completedAt := Some(now))
  }

  function ReleasedRow(row: StateRow, attempt: int, retryable: bool, threshold: int, failure: string): StateRow {
    row.(state := if retryable && attempt < threshold then Retryable else Quarantined,
         owner := None, acquired := None, expires := None, failure := Some(failure))
  }
}
