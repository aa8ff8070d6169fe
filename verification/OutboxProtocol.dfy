/**
 The lease protocol as a transition system. Every transaction of the adapter is split where other actors can
 interleave: a claim scans a snapshot, later locks some of those rows, later upserts and commits; a completion or
 a release locks its intent and rereads the lease, and later writes and commits. A transaction may abort anywhere.
 */
module OutboxProtocol {
  import opened Wrappers
  import opened OutboxTables
  import Sets

  datatype Config = Config(threshold: nat, maxBytes: nat)

  /** An open transaction. `visible` is the set of intents in the claim's snapshot. */
  datatype Txn =
    | Scanned(owner: string, duration: Time, limit: nat, eligible: seq<EventId>, visible: set<EventId>)
    | Holding(owner: string, duration: Time, rows: seq<EventId>, visible: set<EventId>)
    | Completing(event: EventId, owner: string, fingerprint: string, current: Time, previous: int)
    | Releasing(event: EventId, owner: string, attempt: int, retryable: bool, failure: string)
  {
    /** The intent rows locked FOR UPDATE. */
    function Locks(): set<EventId> {
      match this
      case Scanned(_, _, _, _, _) => {}
      case Holding(_, _, rows, _) => set e | e in rows
      case Completing(e, _, _, _, _) => {e}
      case Releasing(e, _, _, _, _) => {e}
    }

    function Candidates(): seq<EventId> {
      match this
      case Scanned(_, _, _, eligible, _) => eligible
      case Holding(_, _, rows, _) => rows
      case _ => []
    }

    predicate Claim() { Scanned? || Holding? }
  }

  /** What committed to one event. */
  datatype Entry =
    | Grant(owner: string, acquired: Time, expires: Time, attempt: int, visible: set<EventId>)
    | Finish(owner: string)
    | Release(owner: string, retry: bool)

  datatype World = World(
    tables: Tables, txns: map<int, Txn>, history: map<EventId, seq<Entry>>, owners: set<string>)
  {
    function Of(e: EventId): seq<Entry> { if e in history then history[e] else [] }

    function Record(e: EventId, x: Entry): map<EventId, seq<Entry>> { history[e := Of(e) + [x]] }

    ghost predicate Locked(e: EventId) { exists id :: id in txns && e in txns[id].Locks() }
  }

  const Start := World(Tables(map[], map[], map[]), map[], map[], {})

  datatype Action =
    | Append(event: EventId, intent: Intent)
    | Scan(id: int, owner: string, now: Time, limit: nat, duration: Time)
    | Lock(id: int, busy: set<EventId>)
    | CommitClaim(id: int, times: seq<Time>)
    | ReadLease(id: int, event: EventId, owner: string, version: Version, fingerprint: string, current: Time)
    | CommitCompletion(id: int, later: Time)
    | ReadFailure(id: int, event: EventId, owner: string, retryable: bool, failure: string, current: Time)
    | CommitRelease(id: int, later: Time)
    | Abort(id: int)

  // --- One step ---

  /** ORDER BY occurredAt, eventId over a finite set of intents. */
  ghost function RowOrder(t: Tables, s: set<EventId>): (rows: seq<EventId>)
    requires s <= t.intents.Keys
    ensures forall e :: e in rows <==> e in s
    ensures forall i, j :: 0 <= i < j < |rows| ==> rows[i] != rows[j]
    decreases |s|
  {
    if s == {} then [] else
      var first := FirstRow(t, s);
      [first] + RowOrder(t, s - {first})
  }

  predicate Earlier(t: Tables, a: EventId, b: EventId)
    requires a in t.intents && b in t.intents
  {
    t.intents[a].occurredAt < t.intents[b].occurredAt
    || (t.intents[a].occurredAt == t.intents[b].occurredAt && a <= b)
  }

  ghost function FirstRow(t: Tables, s: set<EventId>): (first: EventId)
    requires s <= t.intents.Keys && s != {}
    ensures first in s && forall e :: e in s ==> Earlier(t, first, e)
    decreases |s|
  {
    var e := Sets.Pick(s);
    assert forall x :: x in s ==> x == e || x in s - {e};
    if s == {e} then e else
      var rest := FirstRow(t, s - {e});
      if Earlier(t, e, rest) then e else rest
  }

  /** FOR UPDATE SKIP LOCKED under LIMIT: rows free at the moment of locking, in order, up to the limit. */
  ghost function Lockable(w: World, rows: seq<EventId>, busy: set<EventId>, limit: nat): (taken: seq<EventId>)
    ensures |taken| <= limit
    ensures forall e :: e in taken ==> e in rows && !w.Locked(e) && e !in busy
    ensures (forall i, j :: 0 <= i < j < |rows| ==> rows[i] != rows[j]) ==>
              forall i, j :: 0 <= i < j < |taken| ==> taken[i] != taken[j]
  {
    if rows == [] || limit == 0 then []
    else if w.Locked(rows[0]) || rows[0] in busy then Lockable(w, rows[1..], busy, limit)
    else [rows[0]] + Lockable(w, rows[1..], busy, limit - 1)
  }

  /** One iteration of the claim loop, together with its ledger entry. */
  function GrantOne(w: World, e: EventId, owner: string, now: Time, duration: Time, visible: set<EventId>): World {
    match Upsert(w.tables.states, e, owner, now, duration)
    case None => w
    case Some(row) =>
      w.(tables := w.tables.(states := w.tables.states[e := row]),
         history := w.Record(e, Grant(owner, now, now + duration, row.attempt, visible)))
  }

  function GrantAll(w: World, rows: seq<EventId>, owner: string, times: seq<Time>, duration: Time, visible: set<EventId>): World
    requires |rows| == |times|
  {
    if rows == [] then w
    else GrantOne(GrantAll(w, rows[..|rows| - 1], owner, times[..|rows| - 1], duration, visible),
                  rows[|rows| - 1], owner, times[|rows| - 1], duration, visible)
  }

  function Drop(w: World, id: int): World { w.(txns := w.txns - {id}) }

  function CommitClaimStep(c: Config, w: World, id: int, times: seq<Time>): World {
    if id in w.txns && w.txns[id].Holding? && |times| == |w.txns[id].rows| then
      var x := w.txns[id];
      if TotalSize(w.tables.intents, x.rows) > c.maxBytes then Drop(w, id)
      else Drop(GrantAll(w, x.rows, x.owner, times, x.duration, x.visible), id)
    else w
  }

  ghost function ReadLeaseStep(w: World, a: Action): World
    requires a.ReadLease?
  {
    var t := w.tables;
    if a.id !in w.txns && a.event in t.intents && !w.Locked(a.event)
       && a.event in t.states && t.states[a.event].HeldBy(a.owner, a.current)
       && a.version == t.intents[a.event].version
    then w.(txns := w.txns[a.id := Completing(a.event, a.owner, a.fingerprint, a.current,
                                              t.Revision(t.intents[a.event].partition))])
    else w
  }

  function CommitCompletionStep(w: World, id: int, later: Time): World {
    if id in w.txns && w.txns[id].Completing? then
      var x := w.txns[id];
      var t := w.tables;
      if x.event in t.intents && x.event in t.states && t.states[x.event].HeldBy(x.owner, later) then
        var i := t.intents[x.event];
        var saved := Advance(t.checkpoints, i.partition, x.previous,
                             Checkpoint(x.previous + 1, x.event, i.version, x.fingerprint, x.current));
        if saved.Some? then
          Drop(w.(tables := t.(states := t.states[x.event := CompletedRow(t.states[x.event], x.fingerprint, x.current)],
                               checkpoints := saved.value),
                  history := w.Record(x.event, Finish(x.owner))), id)
        else Drop(w, id)
      else Drop(w, id)
    else w
  }

  ghost function ReadFailureStep(w: World, a: Action): World
    requires a.ReadFailure?
  {
    var t := w.tables;
    if a.id !in w.txns && a.event in t.intents && !w.Locked(a.event)
       && a.event in t.states && t.states[a.event].HeldBy(a.owner, a.current)
    then w.(txns := w.txns[a.id := Releasing(a.event, a.owner, t.states[a.event].attempt, a.retryable, a.failure)])
    else w
  }

  function CommitReleaseStep(c: Config, w: World, id: int, later: Time): World {
    if id in w.txns && w.txns[id].Releasing? then
      var x := w.txns[id];
      var t := w.tables;
      if x.event in t.states && t.states[x.event].HeldBy(x.owner, later) then
        var row := ReleasedRow(t.states[x.event], x.attempt, x.retryable, c.threshold, x.failure);
        Drop(w.(tables := t.(states := t.states[x.event := row]),
                history := w.Record(x.event, Release(x.owner, row.state.Retryable?))), id)
      else Drop(w, id)
    else w
  }

  ghost function Step(c: Config, w: World, a: Action): World {
    match a
    case Append(e, i) =>
      if e in w.tables.intents then w
      else w.(tables := w.tables.(intents := w.tables.intents[e := i]))
    case Scan(id, owner, now, limit, duration) =>
      if id in w.txns || limit == 0 || duration <= 0 then w
      else
        var rows := RowOrder(w.tables, w.tables.EligibleSet(now));
        w.(txns := w.txns[id := Scanned(owner, duration, limit, rows, w.tables.intents.Keys)],
           owners := w.owners + {owner})
    case Lock(id, busy) =>
      if id in w.txns && w.txns[id].Scanned? then
        var x := w.txns[id];
        w.(txns := w.txns[id := Holding(x.owner, x.duration, Lockable(w, x.eligible, busy, x.limit), x.visible)])
      else w
    case CommitClaim(id, times) => CommitClaimStep(c, w, id, times)
    case ReadLease(_, _, _, _, _, _) => ReadLeaseStep(w, a)
    case CommitCompletion(id, later) => CommitCompletionStep(w, id, later)
    case ReadFailure(_, _, _, _, _, _) => ReadFailureStep(w, a)
    case CommitRelease(id, later) => CommitReleaseStep(c, w, id, later)
    case Abort(id) => Drop(w, id)
  }

  ghost function Run(c: Config, actions: seq<Action>): World {
    if actions == [] then Start
    else Step(c, Run(c, actions[..|actions| - 1]), actions[|actions| - 1])
  }

  // --- The ledger of one event ---

  function Grants(h: seq<Entry>): nat {
    if h == [] then 0 else Grants(h[..|h| - 1]) + if h[|h| - 1].Grant? then 1 else 0
  }

  function Releases(h: seq<Entry>): nat {
    if h == [] then 0 else Releases(h[..|h| - 1]) + if h[|h| - 1].Release? then 1 else 0
  }

  /** Whether `x` may follow the ledger `h`. */
  predicate MayFollow(h: seq<Entry>, x: Entry, threshold: nat) {
    match x
    case Grant(_, acquired, expires, attempt, _) =>
      && acquired < expires && attempt == Grants(h) + 1
      && (h == []
          || (h[|h| - 1].Grant? && h[|h| - 1].expires <= acquired)
          || (h[|h| - 1].Release? && h[|h| - 1].retry))
    case Finish(owner) => h != [] && h[|h| - 1].Grant? && h[|h| - 1].owner == owner
    case Release(owner, retry) =>
      h != [] && h[|h| - 1].Grant? && h[|h| - 1].owner == owner && (retry ==> Grants(h) < threshold)
  }

  predicate Legal(h: seq<Entry>, threshold: nat) {
    h == [] || (Legal(h[..|h| - 1], threshold) && MayFollow(h[..|h| - 1], h[|h| - 1], threshold))
  }

  /** The state row an event has after its ledger. */
  predicate RowMatches(row: StateRow, h: seq<Entry>) {
    && h != [] && row.attempt == Grants(h)
    && match h[|h| - 1]
       case Grant(owner, acquired, expires, _, _) =>
         row.state.Leased? && row.owner == Some(owner) && row.acquired == Some(acquired) && row.expires == Some(expires)
       case Finish(_) => row.state.Completed?
       case Release(_, retry) => row.state == if retry then Retryable else Quarantined
  }

  // --- What every reachable world satisfies ---

  /** An event has a state row exactly when its ledger is nonempty, and the two agree. */
  predicate EventOk(c: Config, w: World, e: EventId) {
    if e in w.tables.states then
      && e in w.tables.intents && w.tables.states[e].Check()
      && Legal(w.Of(e), c.threshold) && RowMatches(w.tables.states[e], w.Of(e))
    else w.Of(e) == []
  }

  ghost predicate StatesOk(c: Config, w: World) { forall e :: EventOk(c, w, e) }

  ghost predicate CheckpointOk(t: Tables, p: string) {
    && t.Revision(p) == |t.DoneIn(p)|
    && (p in t.checkpoints ==>
          var cp := t.checkpoints[p];
          && cp.revision > 0
          && cp.event in t.DoneIn(p)
          && t.states[cp.event].fingerprint == Some(cp.fingerprint)
          && t.states[cp.event].completedAt == Some(cp.advancedAt)
          && t.intents[cp.event].version == cp.version)
  }

  ghost predicate CheckpointsOk(t: Tables) { forall p :: CheckpointOk(t, p) }

  /** `visible` predecessors of `e` are complete. */
  ghost predicate Cleared(t: Tables, visible: set<EventId>, e: EventId) {
    forall p :: p in visible && t.Before(p, e) ==> t.Done(p)
  }

  ghost predicate TxnOk(w: World, x: Txn) {
    var t := w.tables;
    match x
    case Completing(e, owner, _, _, previous) =>
      && e in t.intents && e in t.states && t.states[e].state.Leased? && t.states[e].owner == Some(owner)
      && 0 <= previous <= t.Revision(t.intents[e].partition)
    case Releasing(e, owner, attempt, _, _) =>
      e in t.intents && e in t.states && t.states[e].state.Leased? && t.states[e].owner == Some(owner) && t.states[e].attempt == attempt
    case _ =>
      && x.duration > 0 && x.visible <= t.intents.Keys
      && (forall i, j :: 0 <= i < j < |x.Candidates()| ==> x.Candidates()[i] != x.Candidates()[j])
      && (forall e :: e in x.Candidates() ==> e in t.intents && Cleared(t, x.visible, e))
  }

  ghost predicate TxnsOk(w: World) {
    && (forall id :: id in w.txns ==> TxnOk(w, w.txns[id]))
    && (forall a, b :: a in w.txns && b in w.txns && a != b ==> w.txns[a].Locks() !! w.txns[b].Locks())
  }

  ghost predicate LedgerCleared(t: Tables, h: seq<Entry>, e: EventId) {
    forall k :: 0 <= k < |h| && h[k].Grant? ==> h[k].visible <= t.intents.Keys && Cleared(t, h[k].visible, e)
  }

  ghost predicate GrantsOk(w: World) { forall e :: LedgerCleared(w.tables, w.Of(e), e) }

  ghost predicate Valid(c: Config, w: World) {
    StatesOk(c, w) && CheckpointsOk(w.tables) && TxnsOk(w) && GrantsOk(w)
  }
}
