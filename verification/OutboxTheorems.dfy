/** The guarantees of the outbox, each over every run of the lease protocol. */
module OutboxTheorems {
  import opened Wrappers
  import opened OutboxTables
  import opened OutboxProtocol
  import opened OutboxSafety
  import opened OutboxOrder

  // --- Checkpoints and constraints ---

  /** Checkpoint revision equals the number of completed events, and the checkpoint row describes one of them. */
  lemma CheckpointCountsCompletions(c: Config, actions: seq<Action>, p: string)
    ensures var t := Run(c, actions).tables;
            && t.Revision(p) == |t.DoneIn(p)|
            && (p in t.checkpoints <==> t.DoneIn(p) != {})
            && (p in t.checkpoints ==>
                  var cp := t.checkpoints[p];
                  && cp.event in t.DoneIn(p)
                  && t.states[cp.event].fingerprint == Some(cp.fingerprint)
                  && t.states[cp.event].completedAt == Some(cp.advancedAt)
                  && t.intents[cp.event].version == cp.version)
  {
    RunValid(c, actions);
    assert CheckpointOk(Run(c, actions).tables, p);
  }

  /** The CHECK constraints of both tables hold in every run, and every state row belongs to an appended intent. */
  lemma ConstraintsHold(c: Config, actions: seq<Action>, e: EventId, p: string)
    ensures var t := Run(c, actions).tables;
            && (e in t.states ==> e in t.intents && t.states[e].Check())
            && (p in t.checkpoints ==> t.checkpoints[p].revision > 0)
  {
    RunValid(c, actions);
    assert EventOk(c, Run(c, actions), e);
    assert CheckpointOk(Run(c, actions).tables, p);
  }

  /**
   A completion takes effect exactly when its lease has not expired by the final UPDATE and no other completion
   moved the checkpoint of its partition since it was read; otherwise neither table changes.
   */
  lemma CompletionIsAllOrNothing(c: Config, actions: seq<Action>, id: int, later: Time)
    requires var w := Run(c, actions); id in w.txns && w.txns[id].Completing?
    ensures var w := Run(c, actions); var v := Step(c, w, CommitCompletion(id, later));
            var x := w.txns[id]; var t := w.tables;
            && x.event in t.intents && x.event in t.states && t.states[x.event].expires.Some?
            && var p := t.intents[x.event].partition;
            if t.states[x.event].expires.value > later && t.Revision(p) == x.previous then
              && v.tables.Done(x.event) && v.tables.Revision(p) == t.Revision(p) + 1
              && v.tables.checkpoints[p].event == x.event
              && v.tables.states[x.event].fingerprint == Some(x.fingerprint)
              && v.tables.states - {x.event} == t.states - {x.event}
              && v.tables.checkpoints - {p} == t.checkpoints - {p}
            else v.tables == t
  {
    RunValid(c, actions);
    var w := Run(c, actions);
    var x := w.txns[id];
    assert TxnOk(w, x) && EventOk(c, w, x.event);
    assert CheckpointOk(w.tables, w.tables.intents[x.event].partition);
  }

  /**
   A release by the live owner sends the row back to retry exactly if the caller asked for it and the threshold is not
   reached, and quarantines it otherwise; without a live lease at both readings it changes no table.
   */
  lemma ReleaseOutcome(c: Config, actions: seq<Action>, a: Action, later: Time)
    requires a.ReadFailure? && a.id !in Run(c, actions).txns
    ensures var w := Run(c, actions); var t := w.tables; var u := Step(c, Step(c, w, a), CommitRelease(a.id, later)).tables;
      if a.event in t.intents && !w.Locked(a.event) && LiveLease(t.states, a.event, a.owner, a.current) && LiveLease(t.states, a.event, a.owner, later) then
        && a.event in u.states && u.intents == t.intents && u.checkpoints == t.checkpoints && u.states - {a.event} == t.states - {a.event}
        && u.states[a.event].state == (if a.retryable && Grants(w.Of(a.event)) < c.threshold then Retryable else Quarantined)
        && u.states[a.event].failure == Some(a.failure) && u.states[a.event].attempt == Grants(w.Of(a.event))
      else u == t
  {
    RunValid(c, actions);
    assert EventOk(c, Run(c, actions), a.event);
  }

  /** A completion takes effect exactly for the live owner at both readings who names the event's own version. */
  lemma CompletionOutcome(c: Config, actions: seq<Action>, a: Action, later: Time)
    requires a.ReadLease? && a.id !in Run(c, actions).txns
    ensures var w := Run(c, actions); var t := w.tables; var u := Step(c, Step(c, w, a), CommitCompletion(a.id, later)).tables;
      if a.event in t.intents && !w.Locked(a.event) && a.version == t.intents[a.event].version
         && LiveLease(t.states, a.event, a.owner, a.current) && LiveLease(t.states, a.event, a.owner, later) then
        && u.Done(a.event) && u.intents == t.intents && u.states - {a.event} == t.states - {a.event}
        && u.states[a.event].fingerprint == Some(a.fingerprint) && u.states[a.event].completedAt == Some(a.current)
        && u.states[a.event].failure == None && u.states[a.event].attempt == t.states[a.event].attempt
      else u == t
  {
    RunValid(c, actions);
    var t := Run(c, actions).tables;
    assert EventOk(c, Run(c, actions), a.event);
    if a.event in t.intents { assert CheckpointOk(t, t.intents[a.event].partition); }
  }

  // --- Ledgers ---

  lemma {:induction false} LegalPrefix(h: seq<Entry>, k: nat, threshold: nat)
    requires Legal(h, threshold) && k <= |h|
    ensures Legal(h[..k], threshold)
    ensures k < |h| ==> MayFollow(h[..k], h[k], threshold)
  {
    if k == |h| {
      assert h[..k] == h;
    } else if k < |h| - 1 {
      LegalPrefix(h[..|h| - 1], k, threshold);
      assert h[..|h| - 1][..k] == h[..k];
    }
  }

  /** Every grant carries its own number, so `attempt` counts grants. */
  lemma {:induction false} GrantNumber(h: seq<Entry>, k: nat, threshold: nat)
    requires Legal(h, threshold) && k < |h| && h[k].Grant?
    ensures h[k].attempt == Grants(h[..k]) + 1 && h[k].acquired < h[k].expires
  {
    LegalPrefix(h, k, threshold);
  }

  /** Grants with no release between them lease disjoint intervals, whatever the clocks do. */
  lemma {:induction false} LeasesDisjoint(h: seq<Entry>, i: nat, j: nat, threshold: nat)
    requires Legal(h, threshold) && i < j < |h| && h[i].Grant? && h[j].Grant?
    requires forall k :: i < k < j ==> !h[k].Release?
    ensures h[i].expires <= h[j].acquired
    decreases j
  {
    LegalPrefix(h, j, threshold);
    assert h[..j][j - 1] == h[j - 1];
    if i < j - 1 {
      LeasesDisjoint(h, i, j - 1, threshold);
      LegalPrefix(h, j - 1, threshold);
    }
  }

  /** Nothing follows a completion or a quarantine. */
  lemma {:induction false} NothingFollows(h: seq<Entry>, k: nat, threshold: nat)
    requires Legal(h, threshold) && k < |h|
    requires h[k].Finish? || (h[k].Release? && !h[k].retry)
    ensures k == |h| - 1
  {
    if k < |h| - 1 {
      LegalPrefix(h, k + 1, threshold);
    }
  }

  lemma {:induction false} ReleasesBehindGrants(h: seq<Entry>, threshold: nat)
    requires Legal(h, threshold)
    ensures Releases(h) <= Grants(h)
    ensures h != [] && h[|h| - 1].Grant? ==> Releases(h) < Grants(h)
    ensures threshold > 0 ==> Releases(h) <= threshold
    ensures threshold > 0 && !(h != [] && h[|h| - 1].Release? && !h[|h| - 1].retry) ==> Releases(h) < threshold
  {
    if h != [] {
      ReleasesBehindGrants(h[..|h| - 1], threshold);
    }
  }

  /** Lease exclusivity, attempt counting and the end of a ledger, for every event of every run. */
  lemma LeaseExclusivity(c: Config, actions: seq<Action>, e: EventId)
    ensures var w := Run(c, actions); var h := w.Of(e);
      && (forall i, j :: 0 <= i < j < |h| && h[i].Grant? && h[j].Grant? ==>
            h[i].expires <= h[j].acquired || exists k :: i < k < j && h[k].Release?)
      && (forall i :: 0 <= i < |h| && h[i].Finish? ==> i == |h| - 1)
      && (forall k :: 0 <= k < |h| && h[k].Grant? ==>
            h[k].attempt == Grants(h[..k]) + 1 && h[k].acquired < h[k].expires)
      && (e in w.tables.states <==> h != [])
      && (e in w.tables.states ==> w.tables.states[e].attempt == Grants(h))
  {
    RunValid(c, actions);
    var w := Run(c, actions);
    var h := w.Of(e);
    assert EventOk(c, w, e);
    forall i, j | 0 <= i < j < |h| && h[i].Grant? && h[j].Grant?
      ensures h[i].expires <= h[j].acquired || exists k :: i < k < j && h[k].Release?
    {
      if forall k :: i < k < j ==> !h[k].Release? { LeasesDisjoint(h, i, j, c.threshold); }
    }
    forall i | 0 <= i < |h| && h[i].Finish? ensures i == |h| - 1 { NothingFollows(h, i, c.threshold); }
    forall k | 0 <= k < |h| && h[k].Grant?
      ensures h[k].attempt == Grants(h[..k]) + 1 && h[k].acquired < h[k].expires
    {
      GrantNumber(h, k, c.threshold);
    }
  }

  /** The failure bound: one event is released at most `threshold` times, and a retryable row is below it. */
  lemma ReleaseBound(c: Config, actions: seq<Action>, e: EventId)
    requires c.threshold >= 1
    ensures var w := Run(c, actions);
      && Releases(w.Of(e)) <= c.threshold
      && (e in w.tables.states && w.tables.states[e].state.Retryable? ==>
            w.tables.states[e].attempt < c.threshold && Releases(w.Of(e)) < c.threshold)
  {
    RunValid(c, actions);
    var w := Run(c, actions);
    var h := w.Of(e);
    assert EventOk(c, w, e);
    ReleasesBehindGrants(h, c.threshold);
    if h != [] { GrantsPush(h[..|h| - 1], h[|h| - 1]); assert h[..|h| - 1] + [h[|h| - 1]] == h; }
  }

  /** Without any assumption on appends, a grant follows the completion of every predecessor its snapshot saw. */
  lemma GrantsWaitForVisiblePredecessors(c: Config, actions: seq<Action>, e: EventId, k: nat, p: EventId)
    requires var w := Run(c, actions);
             k < |w.Of(e)| && w.Of(e)[k].Grant? && p in w.Of(e)[k].visible && Precedes(w.tables, p, e)
    ensures Run(c, actions).tables.Done(p)
  {
    RunValid(c, actions);
    var w := Run(c, actions);
    BeforeMeans(w.tables);
    assert LedgerCleared(w.tables, w.Of(e), e);
    assert Cleared(w.tables, w.Of(e)[k].visible, e);
  }

  /** Of two numbered versions of one identity, the higher is granted only after the lower one its snapshot saw is completed. */
  lemma LowerVersionsFirst(c: Config, actions: seq<Action>, a: EventId, b: EventId, m: int, n: int, k: nat)
    requires var w := Run(c, actions); var t := w.tables;
      && a in t.intents && b in t.intents && t.intents[a].identity == t.intents[b].identity
      && t.intents[a].version == Number(m) && t.intents[b].version == Number(n) && m < n
      && k < |w.Of(b)| && w.Of(b)[k].Grant? && a in w.Of(b)[k].visible
    ensures var t := Run(c, actions).tables; a in t.states && t.states[a].state == Completed
  {
    GrantsWaitForVisiblePredecessors(c, actions, b, k, a);
  }

  /** The same for an event without a numbered version after every numbered one, and for opaque versions by time and id. */
  lemma OpaqueVersionsLast(c: Config, actions: seq<Action>, a: EventId, b: EventId, k: nat)
    requires var w := Run(c, actions); var t := w.tables;
      && a in t.intents && b in t.intents && t.intents[a].identity == t.intents[b].identity && !t.intents[b].version.Number?
      && (t.intents[a].version.Number? || t.intents[a].occurredAt < t.intents[b].occurredAt
          || (t.intents[a].occurredAt == t.intents[b].occurredAt && a < b))
      && k < |w.Of(b)| && w.Of(b)[k].Grant? && a in w.Of(b)[k].visible
    ensures var t := Run(c, actions).tables; a in t.states && t.states[a].state == Completed
  {
    GrantsWaitForVisiblePredecessors(c, actions, b, k, a);
  }

  // --- What a snapshot saw ---

  /** Some claim of this owner scanned when exactly these intents were there. */
  ghost predicate Snapshot(c: Config, actions: seq<Action>, owner: string, visible: set<EventId>) {
    exists i :: 0 <= i < |actions| && ScannedAt(c, actions, i, owner, visible)
  }

  ghost predicate ScannedAt(c: Config, actions: seq<Action>, i: nat, owner: string, visible: set<EventId>)
    requires i < |actions|
  {
    actions[i].Scan? && actions[i].owner == owner && visible == Run(c, actions[..i]).tables.intents.Keys
  }

  ghost predicate EntrySaw(c: Config, actions: seq<Action>, x: Entry) { x.Grant? ==> Snapshot(c, actions, x.owner, x.visible) }

  ghost predicate TxnSaw(c: Config, actions: seq<Action>, x: Txn) { x.Claim() ==> Snapshot(c, actions, x.owner, x.visible) }

  /** Every open claim and every grant goes back to a scan. */
  ghost predicate WorldSaw(c: Config, actions: seq<Action>, w: World) {
    && (forall id :: id in w.txns ==> TxnSaw(c, actions, w.txns[id]))
    && (forall e, k :: 0 <= k < |w.Of(e)| ==> EntrySaw(c, actions, w.Of(e)[k]))
  }

  lemma SnapshotStays(c: Config, actions: seq<Action>, a: Action, owner: string, visible: set<EventId>)
    requires Snapshot(c, actions, owner, visible)
    ensures Snapshot(c, actions + [a], owner, visible)
  {
    var i :| 0 <= i < |actions| && ScannedAt(c, actions, i, owner, visible);
    assert (actions + [a])[..i] == actions[..i];
    assert ScannedAt(c, actions + [a], i, owner, visible);
  }

  lemma WorldStays(c: Config, actions: seq<Action>, a: Action, w: World)
    requires WorldSaw(c, actions, w)
    ensures WorldSaw(c, actions + [a], w)
  {
    forall id | id in w.txns ensures TxnSaw(c, actions + [a], w.txns[id]) {
      var x := w.txns[id];
      assert TxnSaw(c, actions, x);
      if x.Claim() { SnapshotStays(c, actions, a, x.owner, x.visible); }
    }
    forall e, k | 0 <= k < |w.Of(e)| ensures EntrySaw(c, actions + [a], w.Of(e)[k]) {
      var x := w.Of(e)[k];
      assert EntrySaw(c, actions, x);
      if x.Grant? { SnapshotStays(c, actions, a, x.owner, x.visible); }
    }
  }

  lemma GrantOneSaw(c: Config, actions: seq<Action>, w: World, e: EventId, owner: string, now: Time, duration: Time, visible: set<EventId>)
    requires WorldSaw(c, actions, w) && Snapshot(c, actions, owner, visible)
    ensures WorldSaw(c, actions, GrantOne(w, e, owner, now, duration, visible))
  {
    var v := GrantOne(w, e, owner, now, duration, visible);
    forall x, k | 0 <= k < |v.Of(x)| ensures EntrySaw(c, actions, v.Of(x)[k]) {
      if k < |w.Of(x)| { assert v.Of(x)[k] == w.Of(x)[k] && EntrySaw(c, actions, w.Of(x)[k]); }
    }
  }

  lemma {:induction false} GrantAllSaw(c: Config, actions: seq<Action>, w: World, rows: seq<EventId>, owner: string, times: seq<Time>,
                                       duration: Time, visible: set<EventId>)
    requires |rows| == |times| && WorldSaw(c, actions, w) && Snapshot(c, actions, owner, visible)
    ensures WorldSaw(c, actions, GrantAll(w, rows, owner, times, duration, visible))
  {
    if rows != [] {
      var n := |rows| - 1;
      GrantAllSaw(c, actions, w, rows[..n], owner, times[..n], duration, visible);
      GrantOneSaw(c, actions, GrantAll(w, rows[..n], owner, times[..n], duration, visible), rows[n], owner, times[n], duration, visible);
    }
  }

  lemma ScanSaw(c: Config, actions: seq<Action>, a: Action)
    requires a.Scan? && WorldSaw(c, actions + [a], Run(c, actions))
    ensures WorldSaw(c, actions + [a], Step(c, Run(c, actions), a))
  {
    var w, all := Run(c, actions), actions + [a];
    var v := Step(c, w, a);
    assert all[..|actions|] == actions;
    assert ScannedAt(c, all, |actions|, a.owner, w.tables.intents.Keys);
    forall id | id in v.txns ensures TxnSaw(c, all, v.txns[id]) { if id in w.txns { assert TxnSaw(c, all, w.txns[id]); } }
    assert forall e :: v.Of(e) == w.Of(e);
  }

  lemma SettleSaw(c: Config, actions: seq<Action>, w: World, a: Action)
    requires (a.CommitCompletion? || a.CommitRelease?) && WorldSaw(c, actions, w)
    ensures WorldSaw(c, actions, Step(c, w, a))
  {
    var v := Step(c, w, a);
    assert forall id :: id in v.txns ==> id in w.txns && v.txns[id] == w.txns[id];
    forall e, k | 0 <= k < |v.Of(e)| ensures EntrySaw(c, actions, v.Of(e)[k]) {
      if k < |w.Of(e)| { assert v.Of(e)[k] == w.Of(e)[k]; }
    }
  }

  lemma QuietSaw(c: Config, actions: seq<Action>, w: World, a: Action)
    requires (a.Append? || a.Lock? || a.ReadLease? || a.ReadFailure? || a.Abort?) && WorldSaw(c, actions, w)
    ensures WorldSaw(c, actions, Step(c, w, a))
  {
    var v := Step(c, w, a);
    assert forall e :: v.Of(e) == w.Of(e);
    forall id | id in v.txns ensures TxnSaw(c, actions, v.txns[id]) { if id in w.txns { assert TxnSaw(c, actions, w.txns[id]); } }
  }

  lemma StepSaw(c: Config, actions: seq<Action>, a: Action)
    requires WorldSaw(c, actions, Run(c, actions))
    ensures WorldSaw(c, actions + [a], Step(c, Run(c, actions), a))
  {
    var w := Run(c, actions);
    WorldStays(c, actions, a, w);
    if a.Scan? {
      ScanSaw(c, actions, a);
    } else if a.CommitCompletion? || a.CommitRelease? {
      SettleSaw(c, actions + [a], w, a);
    } else if a.CommitClaim? {
      if a.id in w.txns && w.txns[a.id].Holding? && |a.times| == |w.txns[a.id].rows| {
        var x := w.txns[a.id];
        assert TxnSaw(c, actions + [a], x);
        GrantAllSaw(c, actions + [a], w, x.rows, x.owner, a.times, x.duration, x.visible);
        ClaimSaw(c, actions + [a], w, a);
      }
    } else {
      QuietSaw(c, actions + [a], w, a);
    }
  }

  lemma ClaimSaw(c: Config, actions: seq<Action>, w: World, a: Action)
    requires a.CommitClaim? && a.id in w.txns && w.txns[a.id].Holding? && |a.times| == |w.txns[a.id].rows| && WorldSaw(c, actions, w)
    requires var x := w.txns[a.id]; WorldSaw(c, actions, GrantAll(w, x.rows, x.owner, a.times, x.duration, x.visible))
    ensures WorldSaw(c, actions, Step(c, w, a))
  {
    var x := w.txns[a.id];
    var u := GrantAll(w, x.rows, x.owner, a.times, x.duration, x.visible);
    assert forall e :: Drop(u, a.id).Of(e) == u.Of(e) && Drop(w, a.id).Of(e) == w.Of(e);
  }

  lemma {:induction false} RunSaw(c: Config, actions: seq<Action>)
    ensures WorldSaw(c, actions, Run(c, actions))
  {
    if actions != [] {
      var n := |actions| - 1;
      RunSaw(c, actions[..n]);
      StepSaw(c, actions[..n], actions[n]);
      assert actions == actions[..n] + [actions[n]];
    }
  }

  /**
   Every grant goes back to a scan by its owner, and every predecessor that had been appended by then, whether the scan
   noticed it or not, is completed.
   */
  lemma GrantsWaitForAppendedPredecessors(c: Config, actions: seq<Action>, e: EventId, k: nat)
    requires k < |Run(c, actions).Of(e)| && Run(c, actions).Of(e)[k].Grant?
    ensures exists i :: 0 <= i < |actions| && actions[i].Scan? && actions[i].owner == Run(c, actions).Of(e)[k].owner
              && forall p :: p in Run(c, actions[..i]).tables.intents && Precedes(Run(c, actions).tables, p, e) ==> Run(c, actions).tables.Done(p)
  {
    RunSaw(c, actions);
    var x := Run(c, actions).Of(e)[k];
    assert EntrySaw(c, actions, x);
    var i :| 0 <= i < |actions| && ScannedAt(c, actions, i, x.owner, x.visible);
    forall p | p in Run(c, actions[..i]).tables.intents && Precedes(Run(c, actions).tables, p, e) ensures Run(c, actions).tables.Done(p) {
      GrantsWaitForVisiblePredecessors(c, actions, e, k, p);
    }
  }

  // --- What a run never undoes ---

  ghost predicate Extends(w: World, v: World) {
    && w.tables.intents.Keys <= v.tables.intents.Keys
    && (forall e :: e in w.tables.intents ==> v.tables.intents[e] == w.tables.intents[e])
    && (forall e :: w.Of(e) <= v.Of(e))
    && (forall e :: e in w.tables.states ==> e in v.tables.states)
    && (forall e :: e in w.tables.states && w.tables.states[e].state in {Completed, Quarantined} ==>
          v.tables.states[e] == w.tables.states[e])
  }

  lemma GrantAllExtends(c: Config, w: World, rows: seq<EventId>, owner: string, times: seq<Time>, duration: Time, visible: set<EventId>)
    requires |rows| == |times|
    ensures var v := GrantAll(w, rows, owner, times, duration, visible);
      && Extends(w, v) && v.tables.intents == w.tables.intents && v.tables.checkpoints == w.tables.checkpoints
      && v.txns == w.txns && v.owners == w.owners
      && (forall e :: e in v.tables.states && e !in w.tables.states ==> e in rows)
      && (forall e :: v.tables.Done(e) <==> w.tables.Done(e))
  {
    if rows != [] {
      var n := |rows| - 1;
      GrantAllExtends(c, w, rows[..n], owner, times[..n], duration, visible);
    }
  }

  lemma SameExtends(w: World, v: World)
    requires v.tables == w.tables && v.history == w.history
    ensures Extends(w, v)
  {
    assert forall e :: v.Of(e) == w.Of(e);
  }

  lemma SettledExtends(w: World, v: World, e: EventId, row: StateRow, x: Entry)
    requires v.tables.intents == w.tables.intents && e in w.tables.states && w.tables.states[e].state.Leased?
    requires v.tables.states == w.tables.states[e := row] && v.history == w.Record(e, x)
    ensures Extends(w, v)
  {
    forall k ensures w.Of(k) <= v.Of(k) {
      if k == e { assert v.Of(e) == w.Of(e) + [x]; } else { assert v.Of(k) == w.Of(k); }
    }
  }

  lemma CompletionExtends(c: Config, w: World, id: int, later: Time)
    requires id in w.txns && w.txns[id].Completing?
    ensures Extends(w, CommitCompletionStep(w, id, later))
  {
    var x, t, v := w.txns[id], w.tables, CommitCompletionStep(w, id, later);
    if x.event in t.intents && x.event in t.states && t.states[x.event].HeldBy(x.owner, later) {
      var i := t.intents[x.event];
      var saved := Advance(t.checkpoints, i.partition, x.previous,
                           Checkpoint(x.previous + 1, x.event, i.version, x.fingerprint, x.current));
      if saved.Some? {
        SettledExtends(w, v, x.event, CompletedRow(t.states[x.event], x.fingerprint, x.current), Finish(x.owner));
      } else {
        SameExtends(w, v);
      }
    } else {
      SameExtends(w, v);
    }
  }

  lemma ReleaseExtends(c: Config, w: World, id: int, later: Time)
    requires id in w.txns && w.txns[id].Releasing?
    ensures Extends(w, CommitReleaseStep(c, w, id, later))
  {
    var x, t, v := w.txns[id], w.tables, CommitReleaseStep(c, w, id, later);
    if x.event in t.states && t.states[x.event].HeldBy(x.owner, later) {
      var row := ReleasedRow(t.states[x.event], x.attempt, x.retryable, c.threshold, x.failure);
      SettledExtends(w, v, x.event, row, Release(x.owner, row.state.Retryable?));
    } else {
      SameExtends(w, v);
    }
  }

  /** Settling one leased event changes its row and ledger only. */
  lemma SettlementExtends(c: Config, w: World, a: Action)
    requires a.CommitCompletion? || a.CommitRelease?
    ensures Extends(w, Step(c, w, a))
  {
    if a.id !in w.txns {
      SameExtends(w, Step(c, w, a));
    } else if a.CommitCompletion? && w.txns[a.id].Completing? {
      CompletionExtends(c, w, a.id, a.later);
    } else if a.CommitRelease? && w.txns[a.id].Releasing? {
      ReleaseExtends(c, w, a.id, a.later);
    } else {
      SameExtends(w, Step(c, w, a));
    }
  }

  lemma StepExtends(c: Config, w: World, a: Action)
    requires Valid(c, w)
    ensures Extends(w, Step(c, w, a))
  {
    if a.CommitCompletion? || a.CommitRelease? {
      SettlementExtends(c, w, a);
    } else if a.CommitClaim? {
      if a.id in w.txns && w.txns[a.id].Holding? && |a.times| == |w.txns[a.id].rows| {
        var x := w.txns[a.id];
        GrantAllExtends(c, w, x.rows, x.owner, a.times, x.duration, x.visible);
      }
    } else {
      assert Step(c, w, a).history == w.history && Step(c, w, a).tables.states == w.tables.states;
    }
  }

  lemma {:induction false} RunExtends(c: Config, actions: seq<Action>, more: seq<Action>)
    ensures Extends(Run(c, actions), Run(c, actions + more))
    decreases |more|
  {
    if more == [] {
      assert actions + more == actions;
    } else {
      var n := |more| - 1;
      var sofar := actions + more[..n];
      RunExtends(c, actions, more[..n]);
      RunValid(c, sofar);
      assert actions + more == sofar + [more[n]];
      RunSnoc(c, sofar, more[n]);
      StepExtends(c, Run(c, sofar), more[n]);
      ExtendsTwice(Run(c, actions), Run(c, sofar), Run(c, actions + more));
    }
  }

  lemma RunSnoc(c: Config, actions: seq<Action>, a: Action)
    ensures Run(c, actions + [a]) == Step(c, Run(c, actions), a)
  {
    assert (actions + [a])[..|actions|] == actions;
  }

  lemma ExtendsTwice(u: World, v: World, w: World)
    requires Extends(u, v) && Extends(v, w)
    ensures Extends(u, w)
  {
  }

  // --- In-order appends ---

  /** Each identity's intents are appended in increasing order. */
  ghost predicate InOrder(w: World, a: Action) {
    a.Append? ==> forall x :: x in w.tables.intents && w.tables.intents[x].identity == a.intent.identity ==>
      Sooner(x, w.tables.intents[x], a.event, a.intent)
  }

  ghost predicate RunInOrder(c: Config, actions: seq<Action>) {
    actions == [] ||
    (RunInOrder(c, actions[..|actions| - 1]) && InOrder(Run(c, actions[..|actions| - 1]), actions[|actions| - 1]))
  }

  predicate SameIdentity(t: Tables, a: EventId, b: EventId) {
    a in t.intents && b in t.intents && t.intents[a].identity == t.intents[b].identity
  }

  /** Nothing precedes `e` in its identity except completed events. */
  ghost predicate Ready(t: Tables, e: EventId) { Cleared(t, t.intents.Keys, e) }

  ghost predicate Ordered(w: World) {
    && (forall e :: e in w.tables.states ==> Ready(w.tables, e))
    && (forall id, e :: Candidate(w, id, e) ==> Ready(w.tables, e))
  }

  predicate Candidate(w: World, id: int, e: EventId) { id in w.txns && e in w.txns[id].Candidates() }

  /** Where the state rows and the claim candidates after a step come from. */
  ghost predicate RowsComeFrom(w: World, v: World, a: Action) {
    && (forall e :: e in v.tables.states && e !in w.tables.states ==>
          a.CommitClaim? && Candidate(w, a.id, e))
    && (forall id, e :: Candidate(v, id, e) ==> Candidate(w, id, e) || (a.Scan? && w.tables.Eligible(e, a.now)))
    && (v.tables.intents == w.tables.intents || (a.Append? && v.tables.intents == w.tables.intents[a.event := a.intent]))
  }

  lemma ClaimRows(c: Config, w: World, id: int, times: seq<Time>)
    requires id in w.txns && w.txns[id].Holding? && |times| == |w.txns[id].rows|
    ensures RowsComeFrom(w, CommitClaimStep(c, w, id, times), CommitClaim(id, times))
  {
    var x := w.txns[id];
    GrantAllExtends(c, w, x.rows, x.owner, times, x.duration, x.visible);
    assert x.Candidates() == x.rows;
  }

  lemma ScanRows(c: Config, w: World, a: Action)
    requires a.Scan? || a.Lock?
    ensures RowsComeFrom(w, Step(c, w, a), a)
  {
    if a.Scan? {
      assert forall e :: e in RowOrder(w.tables, w.tables.EligibleSet(a.now)) ==> w.tables.Eligible(e, a.now);
    } else if a.id in w.txns && w.txns[a.id].Scanned? {
      var x := w.txns[a.id];
      var rows := Lockable(w, x.eligible, a.busy, x.limit);
      assert x.Candidates() == x.eligible;
      assert Step(c, w, a).txns == w.txns[a.id := Holding(x.owner, x.duration, rows, x.visible)];
      assert Holding(x.owner, x.duration, rows, x.visible).Candidates() == rows;
    }
  }

  lemma StepRows(c: Config, w: World, a: Action)
    requires Valid(c, w)
    ensures RowsComeFrom(w, Step(c, w, a), a)
  {
    match a
    case Scan(_, _, _, _, _) => ScanRows(c, w, a);
    case Lock(_, _) => ScanRows(c, w, a);
    case CommitClaim(id, times) =>
      if id in w.txns && w.txns[id].Holding? && |times| == |w.txns[id].rows| { ClaimRows(c, w, id, times); }
    case CommitCompletion(id, _) => if id in w.txns { assert TxnOk(w, w.txns[id]); }
    case CommitRelease(id, _) => if id in w.txns { assert TxnOk(w, w.txns[id]); }
    case _ => OtherRows(c, w, a);
  }

  ghost predicate KeptOrIdle(w: World, v: World, id: int) {
    id in v.txns ==> (id in w.txns && v.txns[id] == w.txns[id]) || v.txns[id].Candidates() == []
  }

  lemma OtherRows(c: Config, w: World, a: Action)
    requires a.Append? || a.ReadLease? || a.ReadFailure? || a.Abort?
    ensures RowsComeFrom(w, Step(c, w, a), a)
  {
    var v := Step(c, w, a);
    assert forall id :: KeptOrIdle(w, v, id);
  }

  lemma OrderedFrom(c: Config, w: World, v: World, a: Action)
    requires Valid(c, w) && Valid(c, v) && Ordered(w) && InOrder(w, a)
    requires Extends(w, v) && RowsComeFrom(w, v, a)
    ensures Ordered(v)
  {
    BeforeMeans(v.tables);
    forall e, p | e in w.tables.intents && Ready(w.tables, e) && v.tables.Before(p, e) ensures v.tables.Done(p) {
      assert w.tables.Before(p, e);
    }
    forall e | e in v.tables.states ensures Ready(v.tables, e) {
      assert EventOk(c, w, e);
      if e !in w.tables.states { assert TxnOk(w, w.txns[a.id]); }
      assert e in w.tables.intents && Ready(w.tables, e);
    }
    forall id, e | Candidate(v, id, e) ensures Ready(v.tables, e) {
      if Candidate(w, id, e) {
        assert TxnOk(w, w.txns[id]) && w.txns[id].Claim();
      } else {
        assert w.tables.Eligible(e, a.now);
        assert Ready(w.tables, e);
      }
    }
  }

  lemma StepOrdered(c: Config, w: World, a: Action)
    requires Valid(c, w) && Ordered(w) && InOrder(w, a)
    ensures Ordered(Step(c, w, a))
  {
    StepValid(c, w, a);
    StepExtends(c, w, a);
    StepRows(c, w, a);
    OrderedFrom(c, w, Step(c, w, a), a);
  }

  lemma {:induction false} RunOrdered(c: Config, actions: seq<Action>)
    requires RunInOrder(c, actions)
    ensures Ordered(Run(c, actions))
  {
    if actions != [] {
      var n := |actions| - 1;
      RunOrdered(c, actions[..n]);
      RunValid(c, actions[..n]);
      StepOrdered(c, Run(c, actions[..n]), actions[n]);
    }
  }

  /**
   With in-order appends the completed events of an identity are a prefix of its version order, every event that
   has a state row comes directly after that prefix or inside it, and at most one incomplete event has a row.
   */
  lemma CompletedPrefix(c: Config, actions: seq<Action>, a: EventId, b: EventId)
    requires RunInOrder(c, actions)
    ensures var t := Run(c, actions).tables;
      && (Precedes(t, a, b) && b in t.states ==> t.Done(a))
      && (Precedes(t, a, b) && !t.Done(a) ==> b !in t.states)
      && (a in t.states && !t.Done(a) && b in t.states && !t.Done(b) && SameIdentity(t, a, b) ==> a == b)
  {
    RunOrdered(c, actions);
    RunValid(c, actions);
    var w := Run(c, actions);
    BeforeMeans(w.tables);
    assert EventOk(c, w, a) && EventOk(c, w, b);
    if a in w.tables.states && b in w.tables.states {
      assert Ready(w.tables, a) && Ready(w.tables, b);
    }
  }

  /** A quarantined row is final, and with in-order appends no later event of its identity is ever granted. */
  lemma QuarantineIsFinal(c: Config, actions: seq<Action>, more: seq<Action>, e: EventId, i: EventId)
    requires var t := Run(c, actions).tables; e in t.states && t.states[e].state.Quarantined?
    requires RunInOrder(c, actions + more) && Precedes(Run(c, actions + more).tables, e, i)
    ensures var t := Run(c, actions + more).tables; e in t.states && t.states[e] == Run(c, actions).tables.states[e]
    ensures Grants(Run(c, actions + more).Of(i)) == 0
  {
    RunExtends(c, actions, more);
    CompletedPrefix(c, actions + more, e, i);
    RunValid(c, actions + more);
    assert EventOk(c, Run(c, actions + more), i);
  }

  /** Events of one partition belong to one identity. */
  ghost predicate OneIdentityPerPartition(t: Tables) {
    forall a, b :: a in t.intents && b in t.intents && t.intents[a].partition == t.intents[b].partition ==>
      t.intents[a].identity == t.intents[b].identity
  }

  ghost predicate NamesGreatest(t: Tables) {
    forall p, d :: p in t.checkpoints && d in t.DoneIn(p) ==>
      d == t.checkpoints[p].event || Precedes(t, d, t.checkpoints[p].event)
  }

  /** The checkpoint table moves only together with the completion of the event it then names. */
  ghost predicate CheckpointsComeFrom(w: World, v: World, e: EventId) {
    || (v.tables.checkpoints == w.tables.checkpoints && forall d :: v.tables.Done(d) <==> w.tables.Done(d))
    || (&& e in w.tables.states && e in w.tables.intents && !w.tables.Done(e)
        && (forall d :: v.tables.Done(d) <==> w.tables.Done(d) || d == e)
        && var p := w.tables.intents[e].partition;
           && p in v.tables.checkpoints && v.tables.checkpoints[p].event == e
           && v.tables.checkpoints - {p} == w.tables.checkpoints - {p})
  }

  lemma StepCheckpoints(c: Config, w: World, a: Action) returns (e: EventId)
    requires Valid(c, w)
    ensures CheckpointsComeFrom(w, Step(c, w, a), e)
  {
    e := 0;
    match a
    case CommitClaim(id, times) =>
      if id in w.txns && w.txns[id].Holding? && |times| == |w.txns[id].rows| {
        var x := w.txns[id];
        GrantAllExtends(c, w, x.rows, x.owner, times, x.duration, x.visible);
      }
    case CommitCompletion(id, _) =>
      if id in w.txns && w.txns[id].Completing? {
        assert TxnOk(w, w.txns[id]);
        e := w.txns[id].event;
      }
    case CommitRelease(id, _) => if id in w.txns { assert TxnOk(w, w.txns[id]); }
    case _ =>
  }

  lemma NamesGreatestFrom(c: Config, w: World, v: World, e: EventId)
    requires Valid(c, w) && Ordered(w) && NamesGreatest(w.tables)
    requires Extends(w, v) && CheckpointsComeFrom(w, v, e) && OneIdentityPerPartition(v.tables)
    ensures NamesGreatest(v.tables)
  {
    BeforeMeans(w.tables);
    BeforeMeans(v.tables);
    forall p, d | p in v.tables.checkpoints && d in v.tables.DoneIn(p)
      ensures d == v.tables.checkpoints[p].event || v.tables.Before(d, v.tables.checkpoints[p].event)
    {
      assert EventOk(c, w, d) && EventOk(c, w, e) && CheckpointOk(w.tables, p);
      if w.tables.Done(d) {
        assert d in w.tables.DoneIn(p) && Ready(w.tables, d);
        if p in w.tables.checkpoints && v.tables.checkpoints[p] == w.tables.checkpoints[p] {
          assert d == w.tables.checkpoints[p].event || w.tables.Before(d, w.tables.checkpoints[p].event);
        } else {
          assert p in v.tables.checkpoints && (p in w.tables.checkpoints - {w.tables.intents[e].partition} <==> p in v.tables.checkpoints - {w.tables.intents[e].partition});
          assert !w.tables.Before(e, d);
        }
      }
    }
  }

  lemma StepNamesGreatest(c: Config, w: World, a: Action)
    requires Valid(c, w) && Ordered(w) && NamesGreatest(w.tables)
    requires OneIdentityPerPartition(Step(c, w, a).tables)
    ensures NamesGreatest(Step(c, w, a).tables)
  {
    StepExtends(c, w, a);
    var e := StepCheckpoints(c, w, a);
    NamesGreatestFrom(c, w, Step(c, w, a), e);
  }

  lemma {:induction false} RunNamesGreatest(c: Config, actions: seq<Action>)
    requires RunInOrder(c, actions) && OneIdentityPerPartition(Run(c, actions).tables)
    ensures NamesGreatest(Run(c, actions).tables)
  {
    if actions != [] {
      var n := |actions| - 1;
      var w := Run(c, actions[..n]);
      RunValid(c, actions[..n]);
      RunOrdered(c, actions[..n]);
      StepExtends(c, w, actions[n]);
      assert OneIdentityPerPartition(w.tables);
      RunNamesGreatest(c, actions[..n]);
      StepNamesGreatest(c, w, actions[n]);
    }
  }

  // --- Owner strings that are never reused ---

  ghost predicate FreshOwner(w: World, a: Action) { a.Scan? ==> a.owner !in w.owners }

  ghost predicate RunFreshOwners(c: Config, actions: seq<Action>) {
    actions == [] ||
    (RunFreshOwners(c, actions[..|actions| - 1]) && FreshOwner(Run(c, actions[..|actions| - 1]), actions[|actions| - 1]))
  }

  predicate GrantedBy(h: seq<Entry>, owner: string) { exists k :: 0 <= k < |h| && h[k].Grant? && h[k].owner == owner }

  predicate DistinctOwners(h: seq<Entry>) {
    forall i, j :: 0 <= i < j < |h| && h[i].Grant? && h[j].Grant? ==> h[i].owner != h[j].owner
  }

  ghost predicate OwnersOk(w: World) {
    && (forall id :: id in w.txns && w.txns[id].Claim() ==> w.txns[id].owner in w.owners)
    && (forall a, b :: a in w.txns && b in w.txns && a != b && w.txns[a].Claim() && w.txns[b].Claim() ==>
          w.txns[a].owner != w.txns[b].owner)
    && (forall e, id :: id in w.txns && w.txns[id].Claim() ==> !GrantedBy(w.Of(e), w.txns[id].owner))
    && (forall e, k :: 0 <= k < |w.Of(e)| && w.Of(e)[k].Grant? ==> w.Of(e)[k].owner in w.owners)
    && (forall e :: DistinctOwners(w.Of(e)))
  }

  /** A claim of distinct rows adds at most one grant to any ledger. */
  lemma GrantAllOnce(w: World, rows: seq<EventId>, owner: string, times: seq<Time>, duration: Time, visible: set<EventId>, e: EventId)
    requires |rows| == |times| && forall i, j :: 0 <= i < j < |rows| ==> rows[i] != rows[j]
    ensures var h := GrantAll(w, rows, owner, times, duration, visible).Of(e);
      h == w.Of(e) || (e in rows && |h| == |w.Of(e)| + 1 && h[..|w.Of(e)|] == w.Of(e)
                       && h[|w.Of(e)|].Grant? && h[|w.Of(e)|].owner == owner)
  {
    if rows != [] {
      var n := |rows| - 1;
      GrantAllOnce(w, rows[..n], owner, times[..n], duration, visible, e);
    }
  }

  /** How ledgers, open claims and used owner strings change in a step; `grantor` is the owner committing a claim. */
  ghost predicate LedgersComeFrom(w: World, v: World, a: Action, grantor: Option<string>) {
    && (forall e :: v.Of(e) == w.Of(e)
          || (|v.Of(e)| == |w.Of(e)| + 1 && v.Of(e)[..|w.Of(e)|] == w.Of(e)
              && (v.Of(e)[|w.Of(e)|].Grant? ==> grantor == Some(v.Of(e)[|w.Of(e)|].owner))))
    && w.owners <= v.owners
    && (forall id :: id in v.txns && v.txns[id].Claim() ==>
          || (id in w.txns && w.txns[id].Claim() && w.txns[id].owner == v.txns[id].owner && grantor != Some(v.txns[id].owner))
          || (a.Scan? && id == a.id && id !in w.txns && v.txns[id].owner == a.owner && a.owner in v.owners))
    && (grantor.Some? ==> grantor.value in w.owners && forall e :: !GrantedBy(w.Of(e), grantor.value))
  }

  lemma ClaimLedgers(c: Config, w: World, a: Action)
    requires Valid(c, w) && OwnersOk(w)
    requires a.CommitClaim? && a.id in w.txns && w.txns[a.id].Holding? && |a.times| == |w.txns[a.id].rows|
    ensures LedgersComeFrom(w, Step(c, w, a), a, Some(w.txns[a.id].owner))
  {
    var x := w.txns[a.id];
    assert TxnOk(w, x) && x.Candidates() == x.rows && x.Claim();
    var u := GrantAll(w, x.rows, x.owner, a.times, x.duration, x.visible);
    GrantAllExtends(c, w, x.rows, x.owner, a.times, x.duration, x.visible);
    forall e ensures u.Of(e) == w.Of(e) || (|u.Of(e)| == |w.Of(e)| + 1 && u.Of(e)[..|w.Of(e)|] == w.Of(e)
                       && u.Of(e)[|w.Of(e)|].Grant? && u.Of(e)[|w.Of(e)|].owner == x.owner) {
      GrantAllOnce(w, x.rows, x.owner, a.times, x.duration, x.visible, e);
    }
    var v := Step(c, w, a);
    assert v == Drop(w, a.id) || v == Drop(u, a.id);
    assert forall e :: Drop(u, a.id).Of(e) == u.Of(e);
    assert forall e :: Drop(w, a.id).Of(e) == w.Of(e);
  }

  lemma SettlementLedgers(c: Config, w: World, a: Action)
    requires OwnersOk(w) && (a.CommitCompletion? || a.CommitRelease?)
    ensures LedgersComeFrom(w, Step(c, w, a), a, None)
  {
    var v := Step(c, w, a);
    assert forall id :: id in v.txns ==> id in w.txns && v.txns[id] == w.txns[id];
    if v.history == w.history {
      SameLedgers(w, v, a);
    } else {
      var e := w.txns[a.id].event;
      assert v.Of(e)[..|w.Of(e)|] == w.Of(e);
      assert forall k :: k != e ==> v.Of(k) == w.Of(k);
    }
  }

  lemma SameLedgers(w: World, v: World, a: Action)
    requires v.history == w.history && w.owners <= v.owners && forall id :: id in v.txns ==> id in w.txns && v.txns[id] == w.txns[id]
    ensures LedgersComeFrom(w, v, a, None)
  {
    assert forall k :: v.Of(k) == w.Of(k);
  }

  lemma OpeningLedgers(c: Config, w: World, a: Action)
    requires OwnersOk(w) && !a.CommitClaim? && !a.CommitCompletion? && !a.CommitRelease?
    ensures LedgersComeFrom(w, Step(c, w, a), a, None)
  {
    assert Step(c, w, a).history == w.history;
    assert forall k :: Step(c, w, a).Of(k) == w.Of(k);
  }

  lemma StepLedgers(c: Config, w: World, a: Action) returns (grantor: Option<string>)
    requires Valid(c, w) && OwnersOk(w)
    ensures LedgersComeFrom(w, Step(c, w, a), a, grantor)
  {
    grantor := None;
    if a.CommitCompletion? || a.CommitRelease? {
      SettlementLedgers(c, w, a);
    } else if !a.CommitClaim? {
      OpeningLedgers(c, w, a);
    } else if a.id in w.txns && w.txns[a.id].Holding? && |a.times| == |w.txns[a.id].rows| {
      ClaimLedgers(c, w, a);
      grantor := Some(w.txns[a.id].owner);
    } else {
      assert Step(c, w, a) == w;
    }
  }

  lemma OwnersFrom(w: World, v: World, a: Action, grantor: Option<string>)
    requires OwnersOk(w) && FreshOwner(w, a) && LedgersComeFrom(w, v, a, grantor)
    ensures OwnersOk(v)
  {
    forall e ensures DistinctOwners(v.Of(e)) {
      assert DistinctOwners(w.Of(e));
      assert v.Of(e) == w.Of(e) || forall k :: 0 <= k < |w.Of(e)| ==> v.Of(e)[k] == w.Of(e)[k];
    }
    forall e, k | 0 <= k < |v.Of(e)| && v.Of(e)[k].Grant? ensures v.Of(e)[k].owner in v.owners {
      if k < |w.Of(e)| { assert v.Of(e)[k] == w.Of(e)[k]; }
    }
    forall e, id | id in v.txns && v.txns[id].Claim() ensures !GrantedBy(v.Of(e), v.txns[id].owner) {
      forall k | 0 <= k < |v.Of(e)| && v.Of(e)[k].Grant? ensures v.Of(e)[k].owner != v.txns[id].owner {
        if k < |w.Of(e)| { assert v.Of(e)[k] == w.Of(e)[k]; }
      }
    }
  }

  lemma StepOwners(c: Config, w: World, a: Action)
    requires Valid(c, w) && OwnersOk(w) && FreshOwner(w, a)
    ensures OwnersOk(Step(c, w, a))
  {
    var grantor := StepLedgers(c, w, a);
    OwnersFrom(w, Step(c, w, a), a, grantor);
  }

  lemma {:induction false} RunOwners(c: Config, actions: seq<Action>)
    requires RunFreshOwners(c, actions)
    ensures OwnersOk(Run(c, actions))
  {
    if actions != [] {
      var n := |actions| - 1;
      RunOwners(c, actions[..n]);
      RunValid(c, actions[..n]);
      StepOwners(c, Run(c, actions[..n]), actions[n]);
    }
  }

  /** A successful completion or release carries the owner of the grant just before it; if no owner string is reused, no other grant has it. */
  lemma OnlyTheLatestGrantSettles(c: Config, actions: seq<Action>, e: EventId, k: nat)
    requires var h := Run(c, actions).Of(e); k < |h| && !h[k].Grant?
    ensures var h := Run(c, actions).Of(e);
      k > 0 && h[k - 1].Grant? && h[k - 1].owner == h[k].owner
    ensures RunFreshOwners(c, actions) ==>
      var h := Run(c, actions).Of(e);
      forall j :: 0 <= j < |h| && h[j].Grant? && h[j].owner == h[k].owner ==> j == k - 1
  {
    RunValid(c, actions);
    var w := Run(c, actions);
    assert EventOk(c, w, e);
    LegalPrefix(w.Of(e), k, c.threshold);
    if RunFreshOwners(c, actions) {
      RunOwners(c, actions);
      assert DistinctOwners(w.Of(e));
    }
  }
}
