/**
 Idempotent evidence appends: a replay table claimed by INSERT .. ON CONFLICT DO NOTHING, rows inserted one by one
 inside a savepoint, and the result stored with the key. Transactions interleave statement by statement.
 */
module EvidenceAppend {
  import opened Wrappers

  type Key = string

  type Fingerprint = string

  type Record = string

  type TxnId = nat

  /** A stored row: the replay key it came under, its content and what the server added when inserting it. */
  datatype Row = Row(key: Option<Key>, record: Record, stamp: nat)

  datatype Entry = Entry(fingerprint: Fingerprint, result: Option<seq<Row>>)

  /** A batch; its records are determined by its request fingerprint. */
  datatype Request = Request(key: Option<Key>, fingerprint: Fingerprint)

  /** What one transaction has done so far. */
  datatype Overlay = Overlay(rows: seq<Row>, replay: map<Key, Entry>)

  datatype Phase =
    | Ready
    | Appending(saved: Overlay, request: Request, done: seq<Row>)

  datatype Txn = Txn(overlay: Overlay, phase: Phase)

  datatype World = World(rows: seq<Row>, replay: map<Key, Entry>, open: map<TxnId, Txn>)

  datatype Response =
    | Inserted(rows: seq<Row>)
    | Replayed(rows: seq<Row>)
    | Conflict
    | Failed

  /** One statement of a transaction. */
  datatype Action =
    | Begin(t: TxnId)
    | Claim(t: TxnId, request: Request)
    | Insert(t: TxnId, stamp: nat)
    | Finish(t: TxnId)
    | Fail(t: TxnId)
    | Commit(t: TxnId)
    | Abort(t: TxnId)

  // --- One session's view: the method and what it computes ---

  /** What a transaction sees: committed entries and its own. */
  function Visible(committed: map<Key, Entry>, overlay: Overlay): map<Key, Entry> { committed + overlay.replay }

  /** The answer to a batch whose key is already there. */
  function Known(entry: Entry, request: Request): Response {
    if entry.result.None? || entry.fingerprint != request.fingerprint then Conflict else Replayed(entry.result.value)
  }

  function Stamped(key: Option<Key>, records: seq<Record>, stamps: seq<nat>): (rows: seq<Row>)
    requires |records| == |stamps|
    ensures |rows| == |records|
  {
    seq(|records|, (i: nat) requires i < |records| => Row(key, records[i], stamps[i]))
  }

  function WithBatch(overlay: Overlay, request: Request, rows: seq<Row>): Overlay {
    Overlay(overlay.rows + rows,
            if request.key.None? then overlay.replay else overlay.replay[request.key.value := Entry(request.fingerprint, Some(rows))])
  }

  class AppendSession {
    const content: Fingerprint -> seq<Record>
    const maxBytes: nat
    const size: seq<Row> -> nat
    var overlay: Overlay

    constructor (content: Fingerprint -> seq<Record>, maxBytes: nat, size: seq<Row> -> nat, overlay: Overlay)
      ensures this.content == content && this.maxBytes == maxBytes && this.size == size && this.overlay == overlay
    { this.content, this.maxBytes, this.size, this.overlay := content, maxBytes, size, overlay; }

    /**
     `_execute_append`. Row `i` is inserted with `stamps[i]`, or fails (deadline, constraint, lost connection) when that
     is None. Every failure leaves the savepoint.
     */
    method ExecuteAppend(committed: map<Key, Entry>, request: Request, stamps: seq<Option<nat>>) returns (r: Response)
      requires |stamps| == |content(request.fingerprint)|
      modifies this
      ensures var seen := Visible(committed, old(overlay));
        && (request.key.Some? && request.key.value in seen ==>
              r == Known(seen[request.key.value], request) && overlay == old(overlay))
        && (!(request.key.Some? && request.key.value in seen) ==>
              if (forall i :: 0 <= i < |stamps| ==> stamps[i].Some?) && size(AllStamped(request, stamps)) <= maxBytes
              then r == Inserted(AllStamped(request, stamps)) && overlay == WithBatch(old(overlay), request, r.rows)
              else r == Failed && overlay == old(overlay))
    {
      var savepoint := overlay;
      if request.key.Some? {
        var key := request.key.value;
        var seen := Visible(committed, overlay);
        if key in seen {
          return Known(seen[key], request);
        }
        overlay := Overlay(overlay.rows, overlay.replay[key := Entry(request.fingerprint, None)]);
      }
      var records := content(request.fingerprint);
      var rows: seq<Row> := [];
      for i := 0 to |records|
        invariant |rows| == i
        invariant forall k :: 0 <= k < i ==> stamps[k].Some? && rows[k] == Row(request.key, records[k], stamps[k].value)
        invariant overlay.rows == savepoint.rows + rows
        invariant overlay.replay == if request.key.None? then savepoint.replay
                                    else savepoint.replay[request.key.value := Entry(request.fingerprint, None)]
      {
        if stamps[i].None? {
          overlay := savepoint;
          return Failed;
        }
        var row := Row(request.key, records[i], stamps[i].value);
        overlay := overlay.(rows := overlay.rows + [row]);
        rows := rows + [row];
      }
      assert rows == AllStamped(request, stamps);
      if size(rows) > maxBytes {
        overlay := savepoint;
        return Failed;
      }
      if request.key.Some? {
        overlay := overlay.(replay := overlay.replay[request.key.value := Entry(request.fingerprint, Some(rows))]);
      }
      return Inserted(rows);
    }

    function AllStamped(request: Request, stamps: seq<Option<nat>>): seq<Row>
      requires |stamps| == |content(request.fingerprint)|
    {
      Stamped(request.key, content(request.fingerprint), seq(|stamps|, (i: nat) requires i < |stamps| => if stamps[i].Some? then stamps[i].value else 0))
    }
  }

  // --- Interleaved transactions ---

  /** Another transaction has inserted the key and not ended: the INSERT waits. */
  predicate HeldByOther(w: World, t: TxnId, key: Key) {
    exists u :: u in w.open && u != t && key in w.open[u].overlay.replay
  }

  predicate CanClaim(w: World, t: TxnId, request: Request) {
    t in w.open && w.open[t].phase == Ready && (request.key.None? || !HeldByOther(w, t, request.key.value))
  }

  predicate Enabled(content: Fingerprint -> seq<Record>, w: World, a: Action) {
    match a
    case Begin(t) => t !in w.open
    case Claim(t, request) => CanClaim(w, t, request)
    case Insert(t, _) => Inserting(content, w, t)
    case Finish(t) => Complete(content, w, t)
    case Fail(t) => t in w.open && w.open[t].phase.Appending?
    case Commit(t) => t in w.open && w.open[t].phase == Ready
    case Abort(t) => t in w.open
  }

  predicate Inserting(content: Fingerprint -> seq<Record>, w: World, t: TxnId) {
    t in w.open && w.open[t].phase.Appending? && |w.open[t].phase.done| < |content(w.open[t].phase.request.fingerprint)|
  }

  predicate Complete(content: Fingerprint -> seq<Record>, w: World, t: TxnId) {
    t in w.open && w.open[t].phase.Appending? && |w.open[t].phase.done| == |content(w.open[t].phase.request.fingerprint)|
  }

  predicate Replays(w: World, t: TxnId, request: Request)
    requires t in w.open
  {
    request.key.Some? && request.key.value in Visible(w.replay, w.open[t].overlay)
  }

  /** A batch starts: the savepoint is set and its key, if any, is inserted without a result. */
  function Started(x: Txn, request: Request): Txn {
    var overlay := if request.key.None? then x.overlay
                   else x.overlay.(replay := x.overlay.replay[request.key.value := Entry(request.fingerprint, None)]);
    Txn(overlay, Appending(x.overlay, request, []))
  }

  function InsertedOne(content: Fingerprint -> seq<Record>, x: Txn, stamp: nat): Txn
    requires x.phase.Appending? && |x.phase.done| < |content(x.phase.request.fingerprint)|
  {
    var row := Row(x.phase.request.key, content(x.phase.request.fingerprint)[|x.phase.done|], stamp);
    Txn(x.overlay.(rows := x.overlay.rows + [row]), x.phase.(done := x.phase.done + [row]))
  }

  function Finished(x: Txn): Txn
    requires x.phase.Appending?
  {
    Txn(Overlay(x.overlay.rows, WithBatch(x.phase.saved, x.phase.request, x.phase.done).replay), Ready)
  }

  function Step(content: Fingerprint -> seq<Record>, w: World, a: Action): World
    requires Enabled(content, w, a)
  {
    match a
    case Begin(t) => w.(open := w.open[t := Txn(Overlay([], map[]), Ready)])
    case Claim(t, request) => if Replays(w, t, request) then w else w.(open := w.open[t := Started(w.open[t], request)])
    case Insert(t, stamp) => w.(open := w.open[t := InsertedOne(content, w.open[t], stamp)])
    case Finish(t) => w.(open := w.open[t := Finished(w.open[t])])
    case Fail(t) => w.(open := w.open[t := Txn(w.open[t].phase.saved, Ready)])
    case Commit(t) =>
      World(w.rows + w.open[t].overlay.rows, w.replay + w.open[t].overlay.replay, w.open - {t})
    case Abort(t) => w.(open := w.open - {t})
  }

  /** What the caller is told at once; a batch that starts is answered when it ends. */
  function Answer(w: World, a: Action): Option<Response>
    requires a.Claim? ==> a.t in w.open
    requires a.Finish? ==> a.t in w.open && w.open[a.t].phase.Appending?
  {
    match a
    case Claim(t, request) =>
      if Replays(w, t, request) then Some(Known(Visible(w.replay, w.open[t].overlay)[request.key.value], request)) else None
    case Finish(t) => Some(Inserted(w.open[t].phase.done))
    case Fail(t) => Some(Failed)
    case _ => None
  }

  /** `after` is reached from `before` by these statements. */
  predicate Run(content: Fingerprint -> seq<Record>, before: World, actions: seq<Action>, after: World)
    decreases |actions|
  {
    if actions == [] then after == before
    else Enabled(content, before, actions[0]) && Run(content, Step(content, before, actions[0]), actions[1..], after)
  }

  const START: World := World([], map[], map[])

  // --- The invariant ---

  /** The rows inserted under a key, in order. */
  function Under(rows: seq<Row>, key: Key): seq<Row> {
    if rows == [] then [] else
      var last := rows[|rows| - 1];
      Under(rows[..|rows| - 1], key) + if last.key == Some(key) then [last] else []
  }

  function Records(rows: seq<Row>): (records: seq<Record>)
    ensures |records| == |rows|
  {
    seq(|rows|, (i: nat) requires i < |rows| => rows[i].record)
  }

  /** A finished entry: its result is exactly the rows inserted under its key, and exactly its request's records. */
  ghost predicate Sound(content: Fingerprint -> seq<Record>, rows: seq<Row>, key: Key, entry: Entry) {
    && entry.result.Some?
    && Under(rows, key) == entry.result.value
    && Records(entry.result.value) == content(entry.fingerprint)
  }

  /** Every key stands for its rows; rows under an absent key do not exist. */
  ghost predicate Accounted(content: Fingerprint -> seq<Record>, rows: seq<Row>, replay: map<Key, Entry>) {
    && (forall k :: k in replay ==> Sound(content, rows, k, replay[k]))
    && (forall k :: k !in replay ==> Under(rows, k) == [])
  }

  /** A batch in progress has added its key, without a result, and the rows so far to the savepoint. */
  ghost predicate MidBatch(content: Fingerprint -> seq<Record>, x: Txn)
    requires x.phase.Appending?
  {
    var saved, request, done := x.phase.saved, x.phase.request, x.phase.done;
    && Accounted(content, saved.rows, saved.replay)
    && x.overlay.rows == saved.rows + done
    && (forall r :: r in done ==> r.key == request.key)
    && Records(done) <= content(request.fingerprint)
    && (request.key.None? ==> x.overlay.replay == saved.replay)
    && (request.key.Some? ==>
          request.key.value !in saved.replay && x.overlay.replay == saved.replay[request.key.value := Entry(request.fingerprint, None)])
  }

  ghost predicate ValidTxn(content: Fingerprint -> seq<Record>, x: Txn) {
    if x.phase.Ready? then Accounted(content, x.overlay.rows, x.overlay.replay) else MidBatch(content, x)
  }

  ghost predicate Valid(content: Fingerprint -> seq<Record>, w: World) {
    && Accounted(content, w.rows, w.replay)
    && (forall t :: t in w.open ==> ValidTxn(content, w.open[t]))
    && (forall t, k :: t in w.open && k in w.open[t].overlay.replay ==> k !in w.replay)
    && (forall t, u, k :: t in w.open && u in w.open && t != u && k in w.open[t].overlay.replay ==> k !in w.open[u].overlay.replay)
  }

  lemma {:induction false} UnderAppend(rows: seq<Row>, more: seq<Row>, key: Key)
    ensures Under(rows + more, key) == Under(rows, key) + Under(more, key)
  {
    if more == [] {
      assert rows + more == rows;
    } else {
      var n := |more| - 1;
      UnderAppend(rows, more[..n], key);
      assert (rows + more)[..|rows| + n] == rows + more[..n];
    }
  }

  lemma {:induction false} UnderOwn(rows: seq<Row>, key: Option<Key>, k: Key)
    requires forall r :: r in rows ==> r.key == key
    ensures Under(rows, k) == if key == Some(k) then rows else []
  {
    if rows != [] {
      var n := |rows| - 1;
      UnderOwn(rows[..n], key, k);
      assert rows[n] in rows && rows == rows[..n] + [rows[n]];
    }
  }

  /** A transaction's rows and keys join the store. */
  lemma Joined(content: Fingerprint -> seq<Record>, rows: seq<Row>, replay: map<Key, Entry>, o: Overlay)
    requires Accounted(content, rows, replay) && Accounted(content, o.rows, o.replay)
    requires forall k :: k in o.replay ==> k !in replay
    ensures Accounted(content, rows + o.rows, replay + o.replay)
  {
    forall k | k in replay + o.replay ensures Sound(content, rows + o.rows, k, (replay + o.replay)[k]) {
      JoinedKey(content, rows, replay, o, k);
    }
    forall k | k !in replay + o.replay ensures Under(rows + o.rows, k) == [] {
      assert Under(rows, k) == [] && Under(o.rows, k) == [];
      UnderAppend(rows, o.rows, k);
    }
  }

  lemma JoinedKey(content: Fingerprint -> seq<Record>, rows: seq<Row>, replay: map<Key, Entry>, o: Overlay, k: Key)
    requires Accounted(content, rows, replay) && Accounted(content, o.rows, o.replay)
    requires forall k :: k in o.replay ==> k !in replay
    requires k in replay + o.replay
    ensures Sound(content, rows + o.rows, k, (replay + o.replay)[k])
  {
    UnderAppend(rows, o.rows, k);
    if k in o.replay {
      assert Under(rows, k) == [] && Sound(content, o.rows, k, o.replay[k]);
    } else {
      assert Under(o.rows, k) == [] && Sound(content, rows, k, replay[k]);
    }
  }

  lemma StartedIsValid(content: Fingerprint -> seq<Record>, x: Txn, request: Request)
    requires x.phase.Ready? && ValidTxn(content, x) && (request.key.Some? ==> request.key.value !in x.overlay.replay)
    ensures ValidTxn(content, Started(x, request))
  {
    assert x.overlay.rows + [] == x.overlay.rows;
  }

  lemma InsertedOneIsValid(content: Fingerprint -> seq<Record>, x: Txn, stamp: nat)
    requires x.phase.Appending? && ValidTxn(content, x) && |x.phase.done| < |content(x.phase.request.fingerprint)|
    ensures ValidTxn(content, InsertedOne(content, x, stamp))
  {
    var y := InsertedOne(content, x, stamp);
    var records := content(x.phase.request.fingerprint);
    assert y.overlay.rows == x.phase.saved.rows + y.phase.done;
    assert Records(y.phase.done) == Records(x.phase.done) + [records[|x.phase.done|]];
  }

  /** What a batch adds: its rows and, if it has a key, the key with those rows as result. */
  function Batch(request: Request, rows: seq<Row>): Overlay {
    Overlay(rows, if request.key.None? then map[] else map[request.key.value := Entry(request.fingerprint, Some(rows))])
  }

  lemma BatchAccounted(content: Fingerprint -> seq<Record>, request: Request, rows: seq<Row>)
    requires (forall r :: r in rows ==> r.key == request.key) && Records(rows) == content(request.fingerprint)
    ensures Accounted(content, rows, Batch(request, rows).replay)
  {
    forall k ensures Under(rows, k) == if request.key == Some(k) then rows else [] { UnderOwn(rows, request.key, k); }
  }

  lemma BatchJoins(saved: Overlay, request: Request, rows: seq<Row>)
    ensures saved.replay + Batch(request, rows).replay == WithBatch(saved, request, rows).replay
  {
  }

  lemma FinishedIsValid(content: Fingerprint -> seq<Record>, x: Txn)
    requires x.phase.Appending? && ValidTxn(content, x) && |x.phase.done| == |content(x.phase.request.fingerprint)|
    ensures ValidTxn(content, Finished(x))
    ensures Finished(x).overlay == WithBatch(x.phase.saved, x.phase.request, x.phase.done)
  {
    var saved, request, done := x.phase.saved, x.phase.request, x.phase.done;
    assert Records(done) == content(request.fingerprint);
    BatchAccounted(content, request, done);
    BatchJoins(saved, request, done);
    Joined(content, saved.rows, saved.replay, Batch(request, done));
  }

  /** Replacing one valid transaction keeps the world valid, if it adds at most a key nobody has. */
  lemma Replaced(content: Fingerprint -> seq<Record>, w: World, t: TxnId, y: Txn)
    requires Valid(content, w) && t in w.open && ValidTxn(content, y)
    requires forall k :: k in y.overlay.replay && k !in w.open[t].overlay.replay ==> k !in w.replay && !HeldByOther(w, t, k)
    ensures Valid(content, w.(open := w.open[t := y]))
  {
  }

  lemma SavedKeysAreOwn(content: Fingerprint -> seq<Record>, w: World, t: TxnId)
    requires Valid(content, w) && t in w.open && w.open[t].phase.Appending?
    ensures forall k :: k in w.open[t].phase.saved.replay ==> k in w.open[t].overlay.replay
    ensures ValidTxn(content, w.open[t])
  {
    assert ValidTxn(content, w.open[t]);
  }

  lemma StepValid(content: Fingerprint -> seq<Record>, w: World, a: Action)
    requires Valid(content, w) && Enabled(content, w, a)
    ensures Valid(content, Step(content, w, a))
  {
    match a
    case Begin(t) =>
    case Claim(t, request) =>
      assert ValidTxn(content, w.open[t]);
      if !Replays(w, t, request) {
        StartedIsValid(content, w.open[t], request);
        Replaced(content, w, t, Started(w.open[t], request));
      }
    case Insert(t, stamp) =>
      assert ValidTxn(content, w.open[t]);
      InsertedOneIsValid(content, w.open[t], stamp);
      Replaced(content, w, t, InsertedOne(content, w.open[t], stamp));
    case Finish(t) =>
      SavedKeysAreOwn(content, w, t);
      FinishedIsValid(content, w.open[t]);
      Replaced(content, w, t, Finished(w.open[t]));
    case Fail(t) =>
      SavedKeysAreOwn(content, w, t);
      Replaced(content, w, t, Txn(w.open[t].phase.saved, Ready));
    case Commit(t) =>
      assert ValidTxn(content, w.open[t]);
      Joined(content, w.rows, w.replay, w.open[t].overlay);
    case Abort(t) =>
  }

  lemma {:induction false} RunValid(content: Fingerprint -> seq<Record>, before: World, actions: seq<Action>, after: World)
    requires Valid(content, before) && Run(content, before, actions, after)
    ensures Valid(content, after)
    decreases |actions|
  {
    if actions != [] {
      StepValid(content, before, actions[0]);
      RunValid(content, Step(content, before, actions[0]), actions[1..], after);
    }
  }

  // --- Theorems ---

  /**
   Exactly once: in every run, a committed key has a result, and that result is precisely the rows ever inserted under
   the key, in the order of the request's records.
   */
  lemma CommittedExactlyOnce(content: Fingerprint -> seq<Record>, actions: seq<Action>, w: World, key: Key)
    requires Run(content, START, actions, w)
    ensures key in w.replay ==>
              && w.replay[key].result.Some?
              && Under(w.rows, key) == w.replay[key].result.value
              && Records(Under(w.rows, key)) == content(w.replay[key].fingerprint)
    ensures key !in w.replay ==> Under(w.rows, key) == []
  {
    assert Valid(content, START);
    RunValid(content, START, actions, w);
    if key in w.replay { assert Sound(content, w.rows, key, w.replay[key]); }
  }

  /** A committed entry and its rows never change again. */
  lemma {:induction false} CommittedForever(content: Fingerprint -> seq<Record>, before: World, actions: seq<Action>, after: World, key: Key)
    requires Valid(content, before) && Run(content, before, actions, after) && key in before.replay
    ensures key in after.replay && after.replay[key] == before.replay[key]
    ensures Under(after.rows, key) == Under(before.rows, key)
    decreases |actions|
  {
    if actions != [] {
      var next := Step(content, before, actions[0]);
      StepValid(content, before, actions[0]);
      if actions[0].Commit? {
        var o := before.open[actions[0].t].overlay;
        assert ValidTxn(content, before.open[actions[0].t]) && key !in o.replay;
        UnderAppend(before.rows, o.rows, key);
      }
      CommittedForever(content, next, actions[1..], after, key);
    }
  }

  /**
   Once a key is committed, every later batch under it, in any transaction and after any run, changes nothing: it gets
   the stored result when its fingerprint is the same and a conflict otherwise.
   */
  lemma LaterBatchesReplay(content: Fingerprint -> seq<Record>, before: World, actions: seq<Action>, after: World, t: TxnId, request: Request)
    requires Valid(content, before) && Run(content, before, actions, after)
    requires request.key.Some? && request.key.value in before.replay && CanClaim(after, t, request)
    ensures before.replay[request.key.value].result.Some?
    ensures Step(content, after, Claim(t, request)) == after
    ensures var entry := before.replay[request.key.value];
      Answer(after, Claim(t, request))
      == Some(if entry.fingerprint == request.fingerprint then Replayed(entry.result.value) else Conflict)
  {
    var key := request.key.value;
    CommittedForever(content, before, actions, after, key);
    RunValid(content, before, actions, after);
    assert Sound(content, before.rows, key, before.replay[key]);
    assert key !in after.open[t].overlay.replay;
  }

  /** Whatever a replay returns are the records of the replayed request itself, inserted earlier. */
  lemma ReplaysReturnTheRequestsRecords(content: Fingerprint -> seq<Record>, actions: seq<Action>, w: World, t: TxnId, request: Request)
    requires Run(content, START, actions, w) && CanClaim(w, t, request) && Replays(w, t, request)
    ensures Step(content, w, Claim(t, request)) == w
    ensures var r := Answer(w, Claim(t, request));
      r.Some? && (r.value.Replayed? || r.value.Conflict?) && (r.value.Replayed? ==> Records(r.value.rows) == content(request.fingerprint))
    ensures Answer(w, Claim(t, request)).value.Conflict? <==>
              Visible(w.replay, w.open[t].overlay)[request.key.value].fingerprint != request.fingerprint
  {
    assert Valid(content, START);
    RunValid(content, START, actions, w);
    assert ValidTxn(content, w.open[t]);
    var key, o := request.key.value, w.open[t].overlay;
    if key in o.replay {
      assert Sound(content, o.rows, key, o.replay[key]);
    } else {
      assert Sound(content, w.rows, key, w.replay[key]);
    }
  }

  /** Statements of other transactions, and this batch's own inserts. */
  predicate During(t: TxnId, actions: seq<Action>) {
    forall i :: 0 <= i < |actions| ==> actions[i].t != t || actions[i].Insert?
  }

  lemma {:induction false} SavepointStays(content: Fingerprint -> seq<Record>, before: World, actions: seq<Action>, after: World, t: TxnId)
    requires Run(content, before, actions, after) && During(t, actions)
    requires t in before.open && before.open[t].phase.Appending?
    ensures t in after.open && after.open[t].phase.Appending?
    ensures after.open[t].phase.saved == before.open[t].phase.saved && after.open[t].phase.request == before.open[t].phase.request
    decreases |actions|
  {
    if actions != [] {
      assert actions[0].t != t || actions[0].Insert?;
      assert forall i :: 0 <= i < |actions[1..]| ==> actions[1..][i] == actions[i + 1];
      SavepointStays(content, Step(content, before, actions[0]), actions[1..], after, t);
    }
  }

  /** A failed batch leaves neither rows nor key in its transaction, whatever ran in between. */
  lemma FailedBatchLeavesNothing(content: Fingerprint -> seq<Record>, before: World, request: Request, t: TxnId,
                                 actions: seq<Action>, failing: World)
    requires CanClaim(before, t, request) && !Replays(before, t, request) && During(t, actions)
    requires Run(content, Step(content, before, Claim(t, request)), actions, failing)
    ensures Enabled(content, failing, Fail(t))
    ensures Step(content, failing, Fail(t)).open[t] == before.open[t]
  {
    SavepointStays(content, Step(content, before, Claim(t, request)), actions, failing, t);
  }

  /** Rolling back the transaction leaves the store as it was and the key free. */
  lemma AbortLeavesNothing(content: Fingerprint -> seq<Record>, actions: seq<Action>, w: World, t: TxnId, key: Key)
    requires Run(content, START, actions, w) && t in w.open && key in w.open[t].overlay.replay
    ensures var after := Step(content, w, Abort(t));
      after.rows == w.rows && after.replay == w.replay && key !in after.replay && forall u :: !HeldByOther(after, u, key)
  {
    assert Valid(content, START);
    RunValid(content, START, actions, w);
  }

  // --- The method is a run of these statements ---

  function Inserts(t: TxnId, stamps: seq<nat>): (actions: seq<Action>)
    ensures |actions| == |stamps|
  {
    seq(|stamps|, (i: nat) requires i < |stamps| => Insert(t, stamps[i]))
  }

  /** The statements of one batch, run without interruption, do to the transaction what the method does to its overlay. */
  lemma BatchRuns(content: Fingerprint -> seq<Record>, w: World, t: TxnId, request: Request, stamps: seq<nat>) returns (after: World)
    requires Valid(content, w) && CanClaim(w, t, request) && !Replays(w, t, request)
    requires |stamps| == |content(request.fingerprint)|
    ensures Run(content, Step(content, w, Claim(t, request)), Inserts(t, stamps), after)
    ensures Complete(content, after, t)
    ensures var rows := Stamped(request.key, content(request.fingerprint), stamps);
      && Answer(after, Finish(t)) == Some(Inserted(rows))
      && Step(content, after, Finish(t)) == w.(open := w.open[t := Txn(WithBatch(w.open[t].overlay, request, rows), Ready)])
  {
    var started := Step(content, w, Claim(t, request));
    after := InsertsRun(content, started, t, request, stamps, 0);
    assert Inserts(t, stamps)[0..] == Inserts(t, stamps);
    var done := after.open[t].phase.done;
    assert done == Stamped(request.key, content(request.fingerprint), stamps);
  }

  lemma {:induction false} InsertsRun(content: Fingerprint -> seq<Record>, w: World, t: TxnId, request: Request, stamps: seq<nat>, n: nat)
    returns (after: World)
    requires t in w.open && w.open[t].phase.Appending? && w.open[t].phase.request == request
    requires |stamps| == |content(request.fingerprint)| && n <= |stamps|
    requires w.open[t].phase.done == Stamped(request.key, content(request.fingerprint), stamps)[..n]
    requires w.open[t].overlay.rows == w.open[t].phase.saved.rows + w.open[t].phase.done
    ensures Run(content, w, Inserts(t, stamps)[n..], after)
    ensures t in after.open
    ensures var rows := Stamped(request.key, content(request.fingerprint), stamps);
      var x := w.open[t];
      after == w.(open := w.open[t := Txn(Overlay(x.phase.saved.rows + rows, x.overlay.replay), x.phase.(done := rows))])
    decreases |stamps| - n
  {
    var rows := Stamped(request.key, content(request.fingerprint), stamps);
    var actions := Inserts(t, stamps)[n..];
    if n == |stamps| {
      after := w;
      assert rows[..n] == rows;
      assert w.open[t := w.open[t]] == w.open;
    } else {
      assert actions[0] == Insert(t, stamps[n]) && actions[1..] == Inserts(t, stamps)[n + 1..];
      var next := Step(content, w, actions[0]);
      assert rows[..n + 1] == rows[..n] + [rows[n]];
      after := InsertsRun(content, next, t, request, stamps, n + 1);
    }
  }
}
