/** What holds after every run of the lease protocol, however its transactions interleave. */
module OutboxSafety {
  import opened Wrappers
  import opened OutboxTables
  import opened OutboxProtocol

  // --- Every step keeps the invariant ---

  /** Opening, replacing or closing transactions leaves the tables and ledgers as they are. */
  lemma SameTablesValid(c: Config, w: World, v: World)
    requires Valid(c, w) && v.tables == w.tables && v.history == w.history && TxnsOk(v)
    ensures Valid(c, v)
  {
    forall e ensures EventOk(c, v, e) && LedgerCleared(v.tables, v.Of(e), e) {
      assert EventOk(c, w, e) && LedgerCleared(w.tables, w.Of(e), e);
      assert v.Of(e) == w.Of(e);
    }
  }

  lemma DropValid(c: Config, w: World, id: int)
    requires Valid(c, w)
    ensures Valid(c, Drop(w, id))
  {
    var v := Drop(w, id);
    forall x | x in v.txns ensures TxnOk(v, v.txns[x]) { assert TxnOk(w, w.txns[x]); }
    SameTablesValid(c, w, v);
  }

  /** Adding one transaction that holds only unlocked intents. */
  lemma AddTxnValid(c: Config, w: World, id: int, x: Txn, owners: set<string>)
    requires Valid(c, w) && TxnOk(w, x)
    requires forall k :: k in w.txns && k != id ==> x.Locks() !! w.txns[k].Locks()
    ensures Valid(c, w.(txns := w.txns[id := x], owners := owners))
  {
    var v := w.(txns := w.txns[id := x], owners := owners);
    forall k | k in v.txns ensures TxnOk(v, v.txns[k]) {
      if k != id { assert TxnOk(w, w.txns[k]); }
    }
    SameTablesValid(c, w, v);
  }

  /** Writing one locked row together with a ledger entry that may follow. */
  lemma WriteRowValid(c: Config, w: World, v: World, id: int, e: EventId, row: StateRow, x: Entry)
    requires Valid(c, w) && id in w.txns && e in w.txns[id].Locks() && e in w.tables.intents
    requires v.txns == w.txns || v.txns == w.txns - {id}
    requires v.txns == w.txns ==> w.txns[id].Claim()
    requires v.tables.states == w.tables.states[e := row] && v.tables.intents == w.tables.intents
    requires v.history == w.Record(e, x)
    requires row.Check() && RowMatches(row, w.Of(e) + [x]) && MayFollow(w.Of(e), x, c.threshold)
    requires x.Grant? ==> x.visible <= w.tables.intents.Keys && Cleared(w.tables, x.visible, e)
    requires CheckpointsOk(v.tables)
    requires forall d :: w.tables.Done(d) ==> v.tables.Done(d)
    requires forall p :: w.tables.Revision(p) <= v.tables.Revision(p)
    ensures Valid(c, v)
  {
    var h := w.Of(e);
    assert v.Of(e) == h + [x] && (h + [x])[..|h|] == h;
    forall k ensures EventOk(c, v, k) && LedgerCleared(v.tables, v.Of(k), k) {
      assert EventOk(c, w, k) && LedgerCleared(w.tables, w.Of(k), k);
      if k != e { assert v.Of(k) == w.Of(k); }
    }
    forall k | k in v.txns ensures TxnOk(v, v.txns[k]) {
      assert TxnOk(w, w.txns[k]);
      assert k != id ==> e !in w.txns[k].Locks();
    }
  }

  lemma AppendValid(c: Config, w: World, e: EventId, i: Intent)
    requires Valid(c, w)
    ensures Valid(c, Step(c, w, Append(e, i)))
  {
    var v := Step(c, w, Append(e, i));
    if e !in w.tables.intents {
      assert EventOk(c, w, e);
      forall k ensures EventOk(c, v, k) && LedgerCleared(v.tables, v.Of(k), k) {
        assert EventOk(c, w, k) && LedgerCleared(w.tables, w.Of(k), k);
        assert v.Of(k) == w.Of(k);
      }
      forall p ensures CheckpointOk(v.tables, p) {
        assert CheckpointOk(w.tables, p);
        forall k | k in w.tables.states ensures k in w.tables.intents { assert EventOk(c, w, k); }
        assert v.tables.DoneIn(p) == w.tables.DoneIn(p);
      }
      forall id | id in v.txns ensures TxnOk(v, v.txns[id]) { assert TxnOk(w, w.txns[id]); }
    }
  }

  lemma ScanValid(c: Config, w: World, a: Action)
    requires Valid(c, w) && a.Scan?
    ensures Valid(c, Step(c, w, a))
  {
    if !(a.id in w.txns || a.limit == 0 || a.duration <= 0) {
      var rows := RowOrder(w.tables, w.tables.EligibleSet(a.now));
      AddTxnValid(c, w, a.id, Scanned(a.owner, a.duration, a.limit, rows, w.tables.intents.Keys), w.owners + {a.owner});
    }
  }

  lemma LockValid(c: Config, w: World, a: Action)
    requires Valid(c, w) && a.Lock?
    ensures Valid(c, Step(c, w, a))
  {
    if a.id in w.txns && w.txns[a.id].Scanned? {
      var x := w.txns[a.id];
      var rows := Lockable(w, x.eligible, a.busy, x.limit);
      assert TxnOk(w, x);
      assert forall e :: e in rows ==> e in x.Candidates();
      var y := Holding(x.owner, x.duration, rows, x.visible);
      assert y.Candidates() == rows && x.Candidates() == x.eligible;
      AddTxnValid(c, w, a.id, y, w.owners);
      assert Step(c, w, a) == w.(txns := w.txns[a.id := y], owners := w.owners);
    }
  }

  /** Changing the row of one event to a row that is not COMPLETED, when it was not before. */
  lemma OpenRowKeepsCheckpoints(t: Tables, e: EventId, row: StateRow)
    requires CheckpointsOk(t) && !t.Done(e) && !row.state.Completed?
    ensures CheckpointsOk(t.(states := t.states[e := row]))
    ensures forall d :: t.(states := t.states[e := row]).Done(d) <==> t.Done(d)
  {
    var u := t.(states := t.states[e := row]);
    forall p ensures CheckpointOk(u, p) {
      assert CheckpointOk(t, p);
      assert u.DoneIn(p) == t.DoneIn(p);
    }
  }

  lemma GrantsPush(h: seq<Entry>, x: Entry)
    ensures Grants(h + [x]) == Grants(h) + if x.Grant? then 1 else 0
    ensures Releases(h + [x]) == Releases(h) + if x.Release? then 1 else 0
  {
    assert (h + [x])[..|h|] == h;
  }

  lemma GrantOneValid(c: Config, w: World, id: int, e: EventId, now: Time)
    requires Valid(c, w) && id in w.txns && w.txns[id].Holding? && e in w.txns[id].rows
    ensures var x := w.txns[id]; Valid(c, GrantOne(w, e, x.owner, now, x.duration, x.visible))
  {
    var x := w.txns[id];
    assert TxnOk(w, x) && e in x.Candidates() && EventOk(c, w, e);
    var upserted := Upsert(w.tables.states, e, x.owner, now, x.duration);
    if upserted.Some? {
      OpenRowKeepsCheckpoints(w.tables, e, upserted.value);
      var entry := Grant(x.owner, now, now + x.duration, upserted.value.attempt, x.visible);
      GrantsPush(w.Of(e), entry);
      WriteRowValid(c, w, GrantOne(w, e, x.owner, now, x.duration, x.visible), id, e, upserted.value, entry);
    }
  }

  lemma GrantAllValid(c: Config, w: World, id: int, rows: seq<EventId>, times: seq<Time>)
    requires Valid(c, w) && id in w.txns && w.txns[id].Holding? && |rows| == |times|
    requires forall e :: e in rows ==> e in w.txns[id].rows
    ensures var x := w.txns[id]; var v := GrantAll(w, rows, x.owner, times, x.duration, x.visible);
            Valid(c, v) && v.txns == w.txns
  {
    if rows != [] {
      var x := w.txns[id];
      var n := |rows| - 1;
      GrantAllValid(c, w, id, rows[..n], times[..n]);
      var u := GrantAll(w, rows[..n], x.owner, times[..n], x.duration, x.visible);
      GrantOneValid(c, u, id, rows[n], times[n]);
    }
  }

  lemma CommitClaimValid(c: Config, w: World, id: int, times: seq<Time>)
    requires Valid(c, w)
    ensures Valid(c, CommitClaimStep(c, w, id, times))
  {
    if id in w.txns && w.txns[id].Holding? && |times| == |w.txns[id].rows| {
      var x := w.txns[id];
      GrantAllValid(c, w, id, x.rows, times);
      DropValid(c, w, id);
      DropValid(c, GrantAll(w, x.rows, x.owner, times, x.duration, x.visible), id);
    }
  }

  lemma ReadValid(c: Config, w: World, a: Action)
    requires Valid(c, w) && (a.ReadLease? || a.ReadFailure?)
    ensures Valid(c, Step(c, w, a))
  {
    var t := w.tables;
    if a.id !in w.txns && a.event in t.intents && !w.Locked(a.event)
       && a.event in t.states && t.states[a.event].HeldBy(a.owner, a.current)
    {
      var p := t.intents[a.event].partition;
      assert CheckpointOk(t, p);
      if a.ReadLease? {
        AddTxnValid(c, w, a.id, Completing(a.event, a.owner, a.fingerprint, a.current, t.Revision(p)), w.owners);
      } else {
        AddTxnValid(c, w, a.id, Releasing(a.event, a.owner, t.states[a.event].attempt, a.retryable, a.failure), w.owners);
      }
    }
  }

  /** Completing `e` adds exactly `e` to the completed set of its partition, in step with the revision. */
  lemma CompletionKeepsCheckpoints(t: Tables, u: Tables, e: EventId, row: StateRow, cp: Checkpoint)
    requires CheckpointsOk(t) && e in t.intents && !t.Done(e) && row.state.Completed?
    requires cp.event == e && cp.revision == t.Revision(t.intents[e].partition) + 1
    requires row.fingerprint == Some(cp.fingerprint) && row.completedAt == Some(cp.advancedAt)
    requires cp.version == t.intents[e].version
    requires u == t.(states := t.states[e := row], checkpoints := t.checkpoints[t.intents[e].partition := cp])
    ensures CheckpointsOk(u)
    ensures forall d :: u.Done(d) <==> t.Done(d) || d == e
  {
    forall p ensures CheckpointOk(u, p) {
      assert CheckpointOk(t, p);
      if p == t.intents[e].partition {
        assert u.DoneIn(p) == t.DoneIn(p) + {e};
      } else {
        assert u.DoneIn(p) == t.DoneIn(p);
      }
    }
  }

  lemma CommitCompletionValid(c: Config, w: World, id: int, later: Time)
    requires Valid(c, w)
    ensures Valid(c, CommitCompletionStep(w, id, later))
  {
    DropValid(c, w, id);
    if id in w.txns && w.txns[id].Completing? {
      var x := w.txns[id];
      var t := w.tables;
      assert TxnOk(w, x) && EventOk(c, w, x.event);
      var i := t.intents[x.event];
      var cp := Checkpoint(x.previous + 1, x.event, i.version, x.fingerprint, x.current);
      var saved := Advance(t.checkpoints, i.partition, x.previous, cp);
      if t.states[x.event].HeldBy(x.owner, later) && saved.Some? {
        var row := CompletedRow(t.states[x.event], x.fingerprint, x.current);
        var u := t.(states := t.states[x.event := row], checkpoints := saved.value);
        CompletionKeepsCheckpoints(t, u, x.event, row, cp);
        GrantsPush(w.Of(x.event), Finish(x.owner));
        WriteRowValid(c, w, CommitCompletionStep(w, id, later), id, x.event, row, Finish(x.owner));
      }
    }
  }

  lemma CommitReleaseValid(c: Config, w: World, id: int, later: Time)
    requires Valid(c, w)
    ensures Valid(c, CommitReleaseStep(c, w, id, later))
  {
    DropValid(c, w, id);
    if id in w.txns && w.txns[id].Releasing? {
      var x := w.txns[id];
      var t := w.tables;
      assert TxnOk(w, x) && EventOk(c, w, x.event);
      if t.states[x.event].HeldBy(x.owner, later) {
        var row := ReleasedRow(t.states[x.event], x.attempt, x.retryable, c.threshold, x.failure);
        OpenRowKeepsCheckpoints(t, x.event, row);
        var entry := Release(x.owner, row.state.Retryable?);
        GrantsPush(w.Of(x.event), entry);
        WriteRowValid(c, w, CommitReleaseStep(c, w, id, later), id, x.event, row, entry);
      }
    }
  }

  lemma StepValid(c: Config, w: World, a: Action)
    requires Valid(c, w)
    ensures Valid(c, Step(c, w, a))
  {
    match a
    case Append(e, i) => AppendValid(c, w, e, i);
    case Scan(_, _, _, _, _) => ScanValid(c, w, a);
    case Lock(_, _) => LockValid(c, w, a);
    case CommitClaim(id, times) => CommitClaimValid(c, w, id, times);
    case ReadLease(_, _, _, _, _, _) => ReadValid(c, w, a);
    case CommitCompletion(id, later) => CommitCompletionValid(c, w, id, later);
    case ReadFailure(_, _, _, _, _, _) => ReadValid(c, w, a);
    case CommitRelease(id, later) => CommitReleaseValid(c, w, id, later);
    case Abort(id) => DropValid(c, w, id);
  }

  lemma {:induction false} RunValid(c: Config, actions: seq<Action>)
    ensures Valid(c, Run(c, actions))
  {
    if actions == [] {
      forall p ensures CheckpointOk(Start.tables, p) { assert Start.tables.DoneIn(p) == {}; }
    } else {
      RunValid(c, actions[..|actions| - 1]);
      StepValid(c, Run(c, actions[..|actions| - 1]), actions[|actions| - 1]);
    }
  }
}
