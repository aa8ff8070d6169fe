/**
 One Adapter session: its connection, transaction, shared budget and commit outcome, against a pool, a server and a
 network that may fail at every step.
 */
module Session {
  import opened Wrappers
  import opened Deadline

  datatype Command = Begin | Statement | RollbackTo | Commit | Rollback

  /** What this session sent, with the budget's limit at that moment, and what the server did about COMMIT. */
  datatype Event = Dispatched(command: Command, at: int, limit: int) | Committed

  class Server {
    /** A willing server refuses nothing. */
    const willing: bool
    var log: seq<Event>

    constructor (willing: bool)
      ensures log == [] && this.willing == willing
    { log, this.willing := [], willing; }
  }

  predicate CommitSent(log: seq<Event>) { exists i :: 0 <= i < |log| && IsCommit(log[i]) }

  predicate IsCommit(e: Event) { e.Dispatched? && e.command == Commit }

  predicate DidCommit(log: seq<Event>) { Committed in log }

  /** The last thing that happened, since `before`, is that the server committed. */
  predicate NewlyCommitted(before: seq<Event>, after: seq<Event>) {
    before <= after && |after| > |before| && after[|after| - 1] == Committed
  }

  /** Since `before` no COMMIT was sent and nothing committed. */
  predicate Quiet(before: seq<Event>, after: seq<Event>) {
    before <= after && forall i :: |before| <= i < |after| ==> !IsCommit(after[i]) && after[i] != Committed
  }

  predicate IsBegin(e: Event) { e.Dispatched? && e.command == Begin }

  /** What happened from the last BEGIN on; everything, when none was sent. */
  function SinceBegin(log: seq<Event>): seq<Event> {
    if log == [] then []
    else
      var last := log[|log| - 1];
      if IsBegin(last) then [last] else SinceBegin(log[..|log| - 1]) + [last]
  }

  /** Nothing is sent once the budget has run out. */
  predicate InTime(log: seq<Event>) { forall e :: e in log && e.Dispatched? ==> e.at < e.limit }

  datatype Status = Idle | InTrans | InError | Gone

  /** A reply, an error response that leaves the exchange complete, or no known outcome. */
  datatype Reply = Done | Refused | Lost(timeout: bool)

  class Connection {
    var status: Status
    var closed: bool

    constructor ()
      ensures !closed && status == Idle
    { status, closed := Idle, false; }

    /** `DeadlineConnection.wait`: an incomplete exchange, or an error after the deadline, discards the transport. */
    method Exchange(command: Command, budget: OperationBudget, server: Server) returns (reply: Reply)
      requires status != Gone && !closed
      modifies this`status, budget.clock`now, server`log
      ensures budget.clock.now >= old(budget.clock.now)
      ensures Sent(command, old(server.log), server.log)
      ensures DidCommit(server.log) ==> DidCommit(old(server.log)) || (command == Commit && old(status) == InTrans)
      ensures reply.Done? && command == Commit && old(status) == InTrans ==> NewlyCommitted(old(server.log), server.log)
      ensures reply.Lost? ==> status == Gone
      ensures reply.Done? ==> status == After(command, old(status))
      ensures !reply.Lost? ==> old(server.log) < server.log
      ensures budget.clock.calm ==> budget.clock.now == old(budget.clock.now)
      ensures Untroubled(budget) && server.willing ==> reply.Done?
      ensures reply.Refused? ==> status == Gone || status == AfterError(command, old(status))
    {
      var steps: nat :| true;
      var sentAt, done, waits := Consume(budget, steps);
      if sentAt.None? {
        status := Gone;
        return Lost(true);
      }
      LimitBelow(budget.expires, budget.contexts);
      server.log := server.log + [Dispatched(command, sentAt.value, Limit(budget.expires, budget.contexts))];
      var received, accepted: bool := *, *;
      accepted := accepted || server.willing;
      if (done || received) && accepted && command == Commit && status == InTrans {
        server.log := server.log + [Committed];
      }
      if !done {
        status := Gone;
        var timeout: bool := *;
        return Lost(timeout);
      }
      if accepted {
        status := After(command, status);
        return Done;
      }
      var left := budget.Remaining();
      status := if left.None? then Gone else AfterError(command, status);
      return Refused;
    }

    /** psycopg's `commit` and `rollback`: nothing is sent outside a transaction, a closed connection raises. */
    method Finish(command: Command, budget: OperationBudget, server: Server) returns (reply: Reply)
      requires command == Commit || command == Rollback
      modifies this`status, budget.clock`now, server`log
      ensures budget.clock.now >= old(budget.clock.now)
      ensures Sent(command, old(server.log), server.log)
      ensures DidCommit(server.log) ==> DidCommit(old(server.log)) || (command == Commit && old(status) == InTrans)
      ensures reply.Done? && command == Commit && old(status) == InTrans ==> NewlyCommitted(old(server.log), server.log)
      ensures reply.Done? ==> status == Idle && old(status) != Gone
      ensures reply.Done? && old(status) != Idle ==> server.log != old(server.log)
      ensures budget.clock.calm ==> budget.clock.now == old(budget.clock.now)
      ensures Untroubled(budget) && server.willing && !old(closed) && old(status) == InTrans ==> reply.Done?
    {
      if closed || status == Gone { return Lost(false); }
      if status == Idle { return Done; }
      reply := Exchange(command, budget, server);
    }

    method Close()
      modifies this
      ensures closed && status == Gone
    { closed, status := true, Gone; }
  }

  /** The log grew by at most one dispatch of this command, in time, and the server's commit. */
  ghost predicate Sent(command: Command, before: seq<Event>, after: seq<Event>) {
    || after == before
    || (exists at, limit :: at < limit && GrewBy(before, after, Dispatched(command, at, limit)))
  }

  predicate GrewBy(before: seq<Event>, after: seq<Event>, e: Event) {
    after == before + [e] || (IsCommit(e) && after == before + [e, Committed])
  }

  function After(command: Command, status: Status): Status {
    match command
    case Begin => InTrans
    case Statement => status
    case RollbackTo => InTrans
    case Commit => Idle
    case Rollback => Idle
  }

  function AfterError(command: Command, status: Status): Status {
    match command
    case Begin => status
    case Statement => InError
    case RollbackTo => InError
    case Commit => Idle
    case Rollback => status
  }

  lemma SentKeeps(command: Command, before: seq<Event>, after: seq<Event>)
    requires Sent(command, before, after)
    ensures before <= after && (InTime(before) ==> InTime(after))
    ensures command != Commit ==> Quiet(before, after)
    ensures command == Begin && before != after ==> SinceBegin(after) == after[|before|..]
  {
    if after != before {
      var at, limit :| at < limit && GrewBy(before, after, Dispatched(command, at, limit));
      assert before == after[..|before|];
      if command == Begin { assert after == before + [Dispatched(command, at, limit)] && SinceBegin(after) == [Dispatched(command, at, limit)]; }
    }
  }

  predicate Sends(e: Event, command: Command) { e.Dispatched? && e.command == command }

  lemma SentOne(command: Command, before: seq<Event>, after: seq<Event>)
    requires Sent(command, before, after) && command != Commit && before != after
    ensures |after| == |before| + 1 && after[..|before|] == before && Sends(after[|before|], command)
  {
    var at, limit :| at < limit && GrewBy(before, after, Dispatched(command, at, limit));
    assert after == before + [Dispatched(command, at, limit)];
  }

  // --- What a request sends ---

  /** A valid request compiles to some statements; its result fits the byte limit or not; an append runs under a savepoint. */
  datatype Request = Request(statements: nat, savepoint: bool, valid: bool, fits: bool)

  predicate Statements(events: seq<Event>) { forall i :: 0 <= i < |events| ==> Sends(events[i], Statement) }

  /** The statements of a request in order, all of them if it returned; after a failed one perhaps back to its savepoint. */
  predicate Ran(events: seq<Event>, request: Request, r: Outcome) {
    if r.Returned? then request.valid && request.fits && |events| == request.statements && Statements(events)
    else
      || (|events| <= (if request.valid then request.statements else 0) && Statements(events))
      || (request.valid && request.savepoint && 2 <= |events| <= request.statements + 1 && Statements(events[..|events| - 1]) && Sends(events[|events| - 1], RollbackTo))
  }

  /** COMMIT as far as it got. */
  predicate CommitPart(events: seq<Event>, r: Outcome) {
    match r
    case CommitOutcome(KnownNotCommitted) => events == []
    case CommitOutcome(UnknownCommit) => events == [] || (|events| <= 2 && IsCommit(events[0]) && (|events| == 2 ==> events[1] == Committed))
    case _ => |events| == 2 && IsCommit(events[0]) && events[1] == Committed
  }

  /** A call out of turn sends nothing and says so, unless its time is up; no other call says so. */
  predicate OutOfTurn(wrong: bool, r: Outcome, before: seq<Event>, after: seq<Event>) {
    (wrong ==> (r.BadState? || r.TimedOut?) && after == before) && (r.BadState? ==> wrong)
  }

  /** A request in a transaction of its own: BEGIN, its statements, COMMIT; nothing after the step that failed. */
  predicate RanAlone(events: seq<Event>, request: Request, r: Outcome) {
    if r.Returned? || r.CommitOutcome? then
      && request.valid && request.fits && |events| > request.statements && Sends(events[0], Begin)
      && Statements(events[1..request.statements + 1]) && CommitPart(events[request.statements + 1..], r)
    else events == [] || (Sends(events[0], Begin) && Ran(events[1..], request, r))
  }

  /** COMMIT was dispatched: what follows BEGIN now includes it, and the server's commit when it came. */
  lemma CommitSince(before: seq<Event>, after: seq<Event>)
    requires Sent(Commit, before, after)
    ensures before != after ==> CommitSent(SinceBegin(after))
    ensures CommitSent(SinceBegin(before)) ==> CommitSent(SinceBegin(after))
    ensures DidCommit(SinceBegin(after)) <==> DidCommit(SinceBegin(before)) || NewlyCommitted(before, after)
  {
    if after != before {
      var at, limit :| at < limit && GrewBy(before, after, Dispatched(Commit, at, limit));
      var e := Dispatched(Commit, at, limit);
      CommitAppended(before, e);
      if after != before + [e] {
        CommittedAppended(before + [e]);
        assert before + [e, Committed] == before + [e] + [Committed];
      }
    }
  }

  lemma CommitAppended(log: seq<Event>, e: Event)
    requires IsCommit(e)
    ensures CommitSent(SinceBegin(log + [e])) && (DidCommit(SinceBegin(log + [e])) <==> DidCommit(SinceBegin(log)))
  {
    SinceAppended(log, e);
    assert IsCommit(SinceBegin(log + [e])[|SinceBegin(log)|]);
  }

  lemma CommittedAppended(log: seq<Event>)
    ensures DidCommit(SinceBegin(log + [Committed])) && (CommitSent(SinceBegin(log)) ==> CommitSent(SinceBegin(log + [Committed])))
  {
    SinceAppended(log, Committed);
    if CommitSent(SinceBegin(log)) {
      var i :| 0 <= i < |SinceBegin(log)| && IsCommit(SinceBegin(log)[i]);
      assert IsCommit(SinceBegin(log + [Committed])[i]);
    }
  }

  lemma {:induction false} SinceIsPart(log: seq<Event>)
    ensures CommitSent(SinceBegin(log)) ==> CommitSent(log)
  {
    if log != [] && CommitSent(SinceBegin(log)) {
      var n := |log| - 1;
      var i :| 0 <= i < |SinceBegin(log)| && IsCommit(SinceBegin(log)[i]);
      if IsCommit(log[n]) {
      } else {
        assert !IsBegin(log[n]) && i < |SinceBegin(log[..n])| && IsCommit(SinceBegin(log[..n])[i]);
        SinceIsPart(log[..n]);
        var k :| 0 <= k < n && IsCommit(log[..n][k]);
        assert IsCommit(log[k]);
      }
    }
  }

  lemma SinceAppended(log: seq<Event>, e: Event)
    requires !IsBegin(e)
    ensures SinceBegin(log + [e]) == SinceBegin(log) + [e]
  {
    assert (log + [e])[..|log|] == log;
  }

  /** Quiet steps leave what is known about the last transaction, or begin another. */
  lemma {:induction false} QuietSince(before: seq<Event>, after: seq<Event>)
    requires Quiet(before, after)
    ensures var s, t := SinceBegin(before), SinceBegin(after);
      (CommitSent(t) == CommitSent(s) && DidCommit(t) == DidCommit(s)) || (!CommitSent(t) && !DidCommit(t))
    decreases |after|
  {
    if before == after {
    } else {
      var n := |after| - 1;
      var e, shorter := after[n], after[..n];
      assert before <= shorter && after == shorter + [e];
      QuietSince(before, shorter);
      if !IsBegin(e) {
        SinceAppended(shorter, e);
        OneQuiet(SinceBegin(shorter), e);
      }
    }
  }

  lemma OneQuiet(log: seq<Event>, e: Event)
    requires !IsCommit(e) && e != Committed
    ensures CommitSent(log + [e]) == CommitSent(log) && DidCommit(log + [e]) == DidCommit(log)
  {
    QuietKeeps(log, log + [e]);
  }

  lemma QuietKeeps(before: seq<Event>, after: seq<Event>)
    requires Quiet(before, after)
    ensures (CommitSent(after) <==> CommitSent(before)) && (DidCommit(after) <==> DidCommit(before))
  {
    if CommitSent(before) {
      var i :| 0 <= i < |before| && IsCommit(before[i]);
      assert IsCommit(after[i]);
    }
    if CommitSent(after) {
      var i :| 0 <= i < |after| && IsCommit(after[i]);
      assert i < |before| && IsCommit(before[i]);
    }
    if DidCommit(after) {
      var i :| 0 <= i < |after| && after[i] == Committed;
      assert i < |before| && before[i] == Committed;
    }
  }

  datatype Acquired = Connected | PoolTimeout | PoolError

  class ConnectionPool {
    /** A reliable pool hands out and takes back every connection. */
    const reliable: bool
    /** Acquired and not returned. */
    var out: set<Connection>
    var acquired: nat
    var returned: nat

    constructor (reliable: bool)
      ensures out == {} && acquired == 0 && returned == 0 && this.reliable == reliable
    {
      this.reliable := reliable;
      out, acquired, returned := {}, 0, 0;
    }

    /** A connection outside any transaction, a timeout (`PoolTimeout`), or another failure. */
    method GetConn(timeout: int, clock: Clock) returns (r: Acquired, c: Connection?)
      requires timeout > 0
      modifies this`out, this`acquired, clock`now
      ensures clock.now >= old(clock.now)
      ensures r == Connected <==> c != null
      ensures r == Connected ==> fresh(c) && c.status == Idle && !c.closed
                                 && out == old(out) + {c} && acquired == old(acquired) + 1 && returned == old(returned)
      ensures r != Connected ==> out == old(out) && acquired == old(acquired) && returned == old(returned)
      ensures r == PoolTimeout ==> clock.now >= old(clock.now) + timeout
      ensures clock.calm ==> clock.now == old(clock.now) && (reliable ==> r == Connected)
    {
      var ready := clock.Wait(timeout);
      if !ready { return PoolTimeout, null; }
      var broken: bool := *;
      if broken && !reliable { return PoolError, null; }
      c := new Connection();
      out, acquired := out + {c}, acquired + 1;
      r := Connected;
    }

    /** A connection comes back once, outside any transaction or closed. The call may still report a failure. */
    method PutConn(c: Connection) returns (ok: bool)
      requires c in out && (c.closed || c.status == Idle)
      modifies this`out, this`returned
      ensures out == old(out) - {c} && returned == old(returned) + 1 && acquired == old(acquired)
      ensures reliable ==> ok
    {
      out, returned := out - {c}, returned + 1;
      ok := *;
      ok := ok || reliable;
    }
  }

  datatype CommitState = KnownNotCommitted | UnknownCommit | KnownCommitted

  datatype Outcome =
    | Returned
    | TimedOut
    | CommitOutcome(state: CommitState)
    | BadState
    | Failed

  /**
   What the commit state and an open transaction say about the log. The state is never reset: KnownCommitted may stem
   from an earlier transaction than the last one begun, but once that one sent COMMIT it speaks of it.
   */
  ghost predicate HonestAbout(state: CommitState, open: bool, log: seq<Event>) {
    && (state == KnownNotCommitted ==> !CommitSent(log))
    && (state == KnownCommitted ==> DidCommit(log))
    && (open ==> !CommitSent(SinceBegin(log)))
    && (DidCommit(SinceBegin(log)) ==> CommitSent(SinceBegin(log)))
    && (state == KnownCommitted && CommitSent(SinceBegin(log)) ==> DidCommit(SinceBegin(log)))
  }

  lemma QuietHonest(state: CommitState, open: bool, before: seq<Event>, after: seq<Event>)
    requires HonestAbout(state, open, before) && Quiet(before, after)
    ensures HonestAbout(state, open, after)
  {
    QuietKeeps(before, after);
    QuietSince(before, after);
  }

  lemma BegunHonest(state: CommitState, before: seq<Event>, after: seq<Event>)
    requires HonestAbout(state, false, before) && Quiet(before, after) && SinceBegin(after) == after[|before|..]
    ensures HonestAbout(state, true, after)
  {
    QuietHonest(state, false, before, after);
  }

  lemma CommitHonest(state: CommitState, before: seq<Event>, after: seq<Event>)
    requires HonestAbout(state, true, before) && Sent(Commit, before, after)
    ensures HonestAbout(UnknownCommit, false, after)
    ensures NewlyCommitted(before, after) ==> HonestAbout(KnownCommitted, false, after) && DidCommit(SinceBegin(after))
  {
    CommitSince(before, after);
  }

  /** A report about the last transaction begun is false. */
  predicate FalseReport(r: Outcome, log: seq<Event>) {
    || (r == CommitOutcome(KnownCommitted) && !DidCommit(SinceBegin(log)))
    || (r == CommitOutcome(KnownNotCommitted) && CommitSent(SinceBegin(log)))
  }

  /** What one request or commit tells its caller is true of what happened since `before`. */
  predicate TrueSince(r: Outcome, before: seq<Event>, after: seq<Event>) {
    if r.Returned? || r == CommitOutcome(KnownCommitted) then NewlyCommitted(before, after)
    else if r == CommitOutcome(UnknownCommit) then before <= after
    else Quiet(before, after)
  }

  lemma MoreStatements(before: seq<Event>, sofar: seq<Event>, after: seq<Event>)
    requires |before| <= |sofar| && Statements(sofar[|before|..]) && Sent(Statement, sofar, after)
    ensures |after| >= |before| && Statements(after[|before|..]) && |after| <= |sofar| + 1
    ensures after != sofar ==> |after| == |sofar| + 1
  {
    if after != sofar {
      SentOne(Statement, sofar, after);
      assert after[|before|..] == sofar[|before|..] + [after[|sofar|]];
    }
  }

  lemma Undone(before: seq<Event>, sofar: seq<Event>, after: seq<Event>)
    requires |before| <= |sofar| && Statements(sofar[|before|..]) && Sent(RollbackTo, sofar, after)
    ensures |after| >= |before|
    ensures var events := after[|before|..];
      after == sofar || (|after| == |sofar| + 1 && Statements(events[..|events| - 1]) && Sends(events[|events| - 1], RollbackTo))
  {
    if after != sofar {
      SentOne(RollbackTo, sofar, after);
      assert after[|before|..] == sofar[|before|..] + [after[|sofar|]];
    }
  }

  lemma CommitParts(before: seq<Event>, after: seq<Event>)
    requires Sent(Commit, before, after)
    ensures before <= after && CommitPart(after[|before|..], CommitOutcome(UnknownCommit))
    ensures NewlyCommitted(before, after) ==> CommitPart(after[|before|..], Returned)
  {
    if after != before {
      var at, limit :| at < limit && GrewBy(before, after, Dispatched(Commit, at, limit));
      assert IsCommit(Dispatched(Commit, at, limit));
    }
  }

  lemma CommitTold(state: CommitState, before: seq<Event>, after: seq<Event>)
    requires HonestAbout(state, true, before) && Sent(Commit, before, after) && InTime(before)
    ensures before <= after && InTime(after) && HonestAbout(UnknownCommit, false, after)
    ensures CommitPart(after[|before|..], CommitOutcome(UnknownCommit))
    ensures NewlyCommitted(before, after) ==>
              HonestAbout(KnownCommitted, false, after) && DidCommit(SinceBegin(after)) && CommitPart(after[|before|..], Returned)
  {
    SentKeeps(Commit, before, after);
    CommitHonest(state, before, after);
    CommitParts(before, after);
  }

  lemma AloneFailed(before: seq<Event>, begun: seq<Event>, after: seq<Event>, request: Request, r: Outcome)
    requires before <= begun <= after && |begun| == |before| + 1 && Sends(begun[|before|], Begin)
    requires Ran(after[|begun|..], request, r) && !r.Returned? && !r.CommitOutcome?
    ensures RanAlone(after[|before|..], request, r)
  {
    assert after[|before|..][1..] == after[|begun|..];
  }

  lemma AloneCommitted(before: seq<Event>, begun: seq<Event>, done: seq<Event>, after: seq<Event>, request: Request, r: Outcome)
    requires before <= begun <= done <= after && |begun| == |before| + 1 && Sends(begun[|before|], Begin)
    requires Ran(done[|begun|..], request, Returned) && CommitPart(after[|done|..], r) && (r.Returned? || r.CommitOutcome?)
    ensures RanAlone(after[|before|..], request, r)
  {
    var events := after[|before|..];
    assert events[1..request.statements + 1] == done[|begun|..] && events[request.statements + 1..] == after[|done|..];
  }

  class PostgreSQLAdapterSession {
    const pool: ConnectionPool
    const server: Server
    const clock: Clock
    const transactional: bool
    const acquireTimeout: nat
    const operationTimeout: nat
    var connection: Connection?
    var begun: bool
    var closed: bool
    var budget: OperationBudget?
    var commitState: CommitState

    /** The connection and budget belong to the session. */
    ghost predicate Owned()
      reads this, budget
    {
      budget != null ==> budget.clock == clock
    }

    /** What holds between calls. */
    ghost predicate Valid()
      reads this, pool, server, connection, budget
    {
      Held() && Honest() && (connection != null ==> transactional && !closed)
    }

    ghost predicate Honest()
      reads this, server
    {
      HonestAbout(commitState, connection != null, server.log)
    }

    /** Nothing around the session fails or takes time, and its budget has time left. */
    predicate Untouched()
      reads this, clock, budget
    {
      && clock.calm && pool.reliable && server.willing && acquireTimeout > 0
      && (if budget == null then operationTimeout > 0 else budget.clock == clock && Untroubled(budget) && budget.expires <= clock.now + operationTimeout)
    }

    constructor (pool: ConnectionPool, server: Server, clock: Clock, transactional: bool, acquireTimeout: nat, operationTimeout: nat)
      requires pool.out == {} && pool.acquired == 0 && pool.returned == 0 && server.log == []
      ensures Valid() && connection == null && budget == null && !closed
      ensures this.pool == pool && this.server == server && this.clock == clock && this.transactional == transactional
    {
      this.pool, this.server, this.clock := pool, server, clock;
      this.transactional, this.acquireTimeout, this.operationTimeout := transactional, acquireTimeout, operationTimeout;
      connection, begun, closed, budget := null, false, false, null;
      commitState := KnownNotCommitted;
    }

    /** `_get_budget` and the first check of `_guard`: the shared budget, or None when it has run out or a context ended it. */
    method Guard(context: Option<Context>) returns (b: Option<OperationBudget>)
      requires Owned()
      modifies this`budget, budget, clock`now
      ensures Owned() && budget != null && (old(budget) != null ==> budget == old(budget)) && (old(budget) == null ==> fresh(budget))
      ensures b.Some? ==> b.value == budget && clock.now < budget.expires
      ensures b.None? ==> budget.contexts != [] || clock.now >= budget.expires
      ensures old(budget) != null ==> budget.expires <= old(if budget != null then budget.expires else 0)
      ensures context.None? && old(budget) != null ==> budget.contexts == old(if budget != null then budget.contexts else [])
      ensures old(Untouched()) && (context.Some? ==> Live(context.value, old(clock.now))) ==> b.Some? && Untouched()
      ensures clock.now >= old(clock.now)
    {
      if budget == null {
        budget := new OperationBudget(clock, operationTimeout, context);
      }
      budget.Include(context);
      var left := budget.Remaining();
      return if left.None? then None else Some(budget);
    }

    /** `_release`. */
    method Release(discard: bool) returns (ok: bool)
      requires connection != null ==> connection in pool.out && (discard || connection.status == Idle)
      modifies this`connection, this`begun, pool`out, pool`returned, connection
      ensures connection == null && !begun
      ensures pool.acquired == old(pool.acquired)
      ensures old(connection) == null ==> ok && pool.out == old(pool.out) && pool.returned == old(pool.returned)
      ensures old(connection) != null ==> pool.out == old(pool.out) - {old(connection)} && pool.returned == old(pool.returned) + 1
      ensures pool.reliable ==> ok
    {
      var c := connection;
      connection, begun := null, false;
      if c == null { return true; }
      if discard { c.Close(); }
      ok := pool.PutConn(c);
    }

    /** `_acquire_begin`: a connection inside a new transaction, or none at all. */
    method AcquireBegin(b: OperationBudget) returns (r: Outcome)
      requires Valid() && connection == null && b == budget
      modifies this`connection, this`begun, pool`out, pool`acquired, pool`returned, server`log, clock`now
      ensures Held() && Honest() && Quiet(old(server.log), server.log)
      ensures r.Returned? || r.TimedOut? || r.Failed?
      ensures r.Returned? <==> connection != null
      ensures connection != null ==> fresh(connection) && connection.status == InTrans
      ensures r.Returned? ==> SinceBegin(server.log) == server.log[|old(server.log)|..]
      ensures Sent(Begin, old(server.log), server.log) && (r.Returned? ==> server.log != old(server.log))
      ensures old(Untouched()) ==> r.Returned? && Untouched()
    {
      var left := b.Remaining();
      if left.None? { return TimedOut; }
      var acquireEnd := clock.now + Earlier(acquireTimeout, left.value);
      var c: Connection? := null;
      while c == null
        invariant Owned() && connection == null && !begun
        invariant pool.out == if c == null then {} else {c}
        invariant pool.acquired == pool.returned + if c == null then 0 else 1
        invariant c != null ==> fresh(c) && c.status == Idle && !c.closed
        invariant old(Untouched()) ==> Untouched() && acquireEnd > clock.now
        modifies pool`out, pool`acquired, clock`now
        decreases c == null, acquireEnd - clock.now
      {
        left := b.Remaining();
        if left.None? { return TimedOut; }
        var wait := Earlier(acquireEnd - clock.now, left.value);
        if wait <= 0 { return TimedOut; }
        var got: Acquired;
        got, c := pool.GetConn(Earlier(wait, POLL), clock);
        if got == PoolError { return Failed; }
      }
      connection := c;
      r := StartTransaction(b);
      if r.Returned? {
        BegunHonest(commitState, old(server.log), server.log);
      } else {
        QuietHonest(commitState, false, old(server.log), server.log);
        var ignored := Release(true);
      }
    }

    /** BEGIN on the acquired connection, between two checks of the budget. */
    method StartTransaction(b: OperationBudget) returns (r: Outcome)
      requires Owned() && b == budget && connection != null && connection.status == Idle && !connection.closed && InTime(server.log)
      modifies this`begun, connection`status, server`log, clock`now
      ensures r.Returned? || r.TimedOut? || r.Failed?
      ensures r.Returned? ==> begun && connection.status == InTrans
      ensures !r.Returned? ==> begun == old(begun)
      ensures InTime(server.log) && Quiet(old(server.log), server.log)
      ensures r.Returned? ==> SinceBegin(server.log) == server.log[|old(server.log)|..]
      ensures Sent(Begin, old(server.log), server.log) && (r.Returned? ==> server.log != old(server.log))
      ensures old(Untouched()) ==> r.Returned? && Untouched()
    {
      var left := b.Remaining();
      if left.None? { return TimedOut; }
      var reply := connection.Exchange(Begin, b, server);
      SentKeeps(Begin, old(server.log), server.log);
      if !reply.Done? { return if reply == Lost(true) then TimedOut else Failed; }
      left := b.Remaining();
      if left.None? { return TimedOut; }
      begun := true;
      return Returned;
    }

    /** The connection is held inside a transaction or not at all; every acquired one is otherwise back in the pool. */
    ghost predicate Held()
      reads this, pool, server, connection, budget
    {
      && Owned()
      && pool.out == (if connection == null then {} else {connection})
      && pool.acquired == pool.returned + (if connection == null then 0 else 1)
      && (begun <==> connection != null)
      && (connection != null ==> connection.status != Idle && !connection.closed)
      && InTime(server.log)
    }

    /** The session keeps its budget, and holds no connection it did not hold or acquire. */
    twostate predicate Kept(b: OperationBudget?, c: Connection?)
      reads this, server
    {
      && old(server.log) <= server.log
      && (budget == b || (b == null && fresh(budget))) && (connection == c || connection == null || fresh(connection))
    }

    /** `begin`. */
    method BeginTransaction() returns (r: Outcome)
      requires Valid()
      modifies this`connection, this`begun, this`budget, budget, pool, server, clock
      ensures Valid() && Kept(old(budget), old(connection)) && Quiet(old(server.log), server.log)
      ensures r.Returned? ==> begun && fresh(connection) && connection.status == InTrans
      ensures r.Returned? ==> SinceBegin(server.log) == server.log[|old(server.log)|..]
      ensures !r.Returned? ==> connection == old(connection)
      ensures Sent(Begin, old(server.log), server.log) && (r.Returned? ==> server.log != old(server.log))
      ensures OutOfTurn(old(closed || !transactional || begun), r, old(server.log), server.log)
      ensures !r.CommitOutcome?
      ensures old(Untouched()) && !closed && transactional && !old(begun) ==> r.Returned? && Untouched()
    {
      var b := Guard(None);
      if b.None? { return TimedOut; }
      if closed || !transactional || begun { return BadState; }
      r := AcquireBegin(b.value);
    }

    /** Some statements inside the transaction; a failed one may be undone by its savepoint. */
    method Perform(b: OperationBudget, request: Request) returns (r: Outcome)
      requires Held() && Honest() && connection != null && b == budget
      modifies connection`status, server`log, clock`now
      ensures Held() && Honest() && Quiet(old(server.log), server.log)
      ensures r.Returned? || r.TimedOut? || r.Failed?
      ensures Ran(server.log[|old(server.log)|..], request, r)
      ensures old(Untouched()) && old(connection.status) == InTrans ==>
                Untouched() && connection.status == InTrans && (r.Returned? <==> request.valid && request.fits)
    {
      ghost var before := server.log;
      if !request.valid { return Failed; }
      for i := 0 to request.statements
        invariant old(Untouched()) && old(connection.status) == InTrans ==> Untouched() && connection.status == InTrans
        invariant Held() && Honest() && Quiet(before, server.log)
        invariant |server.log| == |before| + i && Statements(server.log[|before|..])
      {
        if connection.status == Gone { return Failed; }
        ghost var sofar := server.log;
        var reply := SendQuietly(Statement, b);
        MoreStatements(before, sofar, server.log);
        if reply == Lost(true) { return TimedOut; }
        if !reply.Done? {
          if request.savepoint && connection.status == InError {
            sofar := server.log;
            var undone := SendQuietly(RollbackTo, b);
            Undone(before, sofar, server.log);
          }
          return Failed;
        }
      }
      return if request.fits then Returned else Failed;
    }

    /** A command inside the transaction. */
    method SendQuietly(command: Command, b: OperationBudget) returns (reply: Reply)
      requires Held() && Honest() && connection != null && b == budget && connection.status != Gone
      requires command == Statement || command == RollbackTo
      modifies connection`status, server`log, clock`now
      ensures Held() && Honest() && Quiet(old(server.log), server.log)
      ensures Sent(command, old(server.log), server.log) && (!reply.Lost? ==> server.log != old(server.log))
      ensures connection.status == InError ==> !reply.Lost?
      ensures old(Untouched()) ==> reply.Done? && Untouched() && connection.status == After(command, old(connection.status))
    {
      reply := connection.Exchange(command, b, server);
      SentKeeps(command, old(server.log), server.log);
      QuietHonest(commitState, true, old(server.log), server.log);
    }

    /** `_commit`. */
    method CommitNow(b: OperationBudget) returns (r: Outcome)
      requires Held() && Honest() && connection != null && b == budget
      modifies this`connection, this`begun, this`commitState, pool`out, pool`returned, connection, server`log, clock`now
      ensures Held() && Honest() && connection == null
      ensures r.Returned? || r.CommitOutcome?
      ensures TrueSince(r, old(server.log), server.log) && !FalseReport(r, server.log)
      ensures r.Returned? ==> DidCommit(SinceBegin(server.log)) && commitState == KnownCommitted
      ensures old(server.log) <= server.log && CommitPart(server.log[|old(server.log)|..], r)
      ensures old(Untouched()) && old(connection.status) == InTrans ==> r.Returned? && Untouched()
    {
      var left := b.Remaining();
      if left.None? || connection.status == InError {
        var ignored := Release(true);
        return CommitOutcome(KnownNotCommitted);
      }
      var reply := DispatchCommit(b);
      if !reply.Done? {
        var ignored := Release(true);
        return CommitOutcome(UnknownCommit);
      }
      commitState := KnownCommitted;
      left := b.Remaining();
      if left.None? {
        var ignored := Release(true);
        return CommitOutcome(KnownCommitted);
      }
      var ok := Release(false);
      return if ok then Returned else CommitOutcome(KnownCommitted);
    }

    /** COMMIT of a transaction that is not known to have failed; from here on its outcome may be unknown. */
    method DispatchCommit(b: OperationBudget) returns (reply: Reply)
      requires Held() && Honest() && connection != null && b == budget && connection.status != InError
      modifies this`commitState, connection`status, server`log, clock`now
      ensures Owned() && InTime(server.log) && commitState == UnknownCommit
      ensures old(server.log) <= server.log && HonestAbout(UnknownCommit, false, server.log)
      ensures CommitPart(server.log[|old(server.log)|..], CommitOutcome(UnknownCommit))
      ensures reply.Done? ==>
        && connection.status == Idle && NewlyCommitted(old(server.log), server.log) && DidCommit(SinceBegin(server.log))
        && HonestAbout(KnownCommitted, false, server.log) && CommitPart(server.log[|old(server.log)|..], Returned)
      ensures old(Untouched()) && old(connection.status) == InTrans ==> reply.Done? && Untouched()
    {
      commitState := UnknownCommit;
      reply := connection.Finish(Commit, b, server);
      CommitTold(old(commitState), old(server.log), server.log);
    }

    /**
     `commit`. Admitted, it reports what happened. Otherwise the transaction is abandoned and the report is the commit
     state as it stands: false exactly when that is KnownCommitted and no COMMIT was sent since the last BEGIN, because
     the state then stems from an earlier transaction.
     */
    method CommitTransaction() returns (r: Outcome, ghost admitted: bool)
      requires Valid()
      modifies this`connection, this`begun, this`budget, this`commitState, budget, pool, connection, server, clock
      ensures Valid() && Kept(old(budget), old(connection)) && connection == null && budget != null
      ensures !admitted ==> budget.contexts != [] || clock.now >= budget.expires
      ensures old(budget) != null && old(clock.now >= (if budget != null then budget.expires else 0)) ==> !admitted
      ensures !admitted ==> r == CommitOutcome(old(commitState)) && server.log == old(server.log)
      ensures admitted ==> TrueSince(r, old(server.log), server.log)
      ensures r.Returned? || r.CommitOutcome? ==> admitted ==> CommitPart(server.log[|old(server.log)|..], r)
      ensures r.Returned? ==> admitted && DidCommit(SinceBegin(server.log))
      ensures admitted ==> OutOfTurn(old(closed || !transactional || !begun), r, old(server.log), server.log)
      ensures FalseReport(r, server.log)
              <==> !admitted && old(commitState) == KnownCommitted && !CommitSent(SinceBegin(old(server.log)))
      ensures old(Untouched()) && !closed && transactional && old(connection != null && connection.status == InTrans)
              ==> r.Returned? && commitState == KnownCommitted && Untouched()
    {
      var b := Guard(None);
      admitted := b.Some?;
      if b.None? {
        SinceIsPart(server.log);
        var ignored := Release(true);
        return CommitOutcome(commitState), admitted;
      }
      if closed || !transactional || !begun || connection == null { return BadState, admitted; }
      r := CommitNow(b.value);
    }

    /** `rollback`: the connection is back in the pool whatever happens, even on a call out of turn. */
    method RollbackTransaction() returns (r: Outcome)
      requires Valid()
      modifies this`connection, this`begun, this`budget, budget, pool, connection, server, clock
      ensures Valid() && Kept(old(budget), old(connection)) && connection == null && !r.CommitOutcome?
      ensures Quiet(old(server.log), server.log)
      ensures Sent(Rollback, old(server.log), server.log) && (r.Returned? ==> server.log != old(server.log))
      ensures OutOfTurn(old(closed || !transactional || !begun), r, old(server.log), server.log)
    {
      var b := Guard(None);
      if b.None? || closed || !transactional || !begun || connection == null {
        var ignored := Release(true);
        return if b.None? then TimedOut else BadState;
      }
      r := Undo(b.value);
    }

    /** ROLLBACK, and the connection goes back; closed when its transaction could not be ended. */
    method Undo(b: OperationBudget) returns (r: Outcome)
      requires Held() && Honest() && connection != null && b == budget
      modifies this`connection, this`begun, pool`out, pool`returned, connection, server`log, clock`now
      ensures Held() && Honest() && connection == null && !r.CommitOutcome? && !r.BadState?
      ensures Quiet(old(server.log), server.log)
      ensures Sent(Rollback, old(server.log), server.log) && (r.Returned? ==> server.log != old(server.log))
    {
      var reply := connection.Finish(Rollback, b, server);
      SentKeeps(Rollback, old(server.log), server.log);
      QuietHonest(commitState, true, old(server.log), server.log);
      if !reply.Done? {
        var ignored := Release(true);
        return if reply == Lost(true) then TimedOut else Failed;
      }
      var ok := Release(false);
      return if ok then Returned else Failed;
    }

    /** `close`: afterwards nothing is held, whatever failed. A timeout is not reported. */
    method CloseSession() returns (r: Outcome)
      requires Valid()
      modifies this`connection, this`begun, this`budget, this`closed, budget, pool, connection, server, clock
      ensures Valid() && Kept(old(budget), old(connection)) && connection == null && closed
      ensures pool.out == {} && pool.returned == pool.acquired && !r.CommitOutcome?
      ensures Quiet(old(server.log), server.log) && Sent(Rollback, old(server.log), server.log)
    {
      r := Returned;
      if !closed && connection != null {
        var b := Guard(None);
        if b.None? {
          var ok := Release(true);
          r := if ok then Returned else Failed;
        } else {
          r := Undo(b.value);
          if r.TimedOut? { r := Returned; }
        }
      }
      closed := true;
    }

    /** `execute`: in the open transaction, or in one of its own that it commits. */
    method Execute(context: Context, request: Request) returns (r: Outcome)
      requires Valid()
      modifies this`connection, this`begun, this`budget, this`commitState, budget, pool, connection, server, clock
      ensures Valid() && Kept(old(budget), old(connection))
      ensures transactional ==> connection == old(connection) && Quiet(old(server.log), server.log) && !r.CommitOutcome?
      ensures !transactional ==> connection == null && TrueSince(r, old(server.log), server.log)
      ensures OutOfTurn(old(closed || (transactional && !begun)), r, old(server.log), server.log)
      ensures var events := server.log[|old(server.log)|..];
        if transactional then Ran(events, request, r) else RanAlone(events, request, r)
      ensures old(Untouched()) && !closed && Live(context, old(clock.now)) && (transactional ==> old(connection != null && connection.status == InTrans)) ==>
                Untouched() && (r.Returned? <==> request.valid && request.fits)
    {
      var b := Guard(Some(context));
      if b.None? { return TimedOut; }
      if closed || (transactional && !begun) { return BadState; }
      if transactional {
        r := Perform(b.value, request);
      } else {
        r := ExecuteAlone(b.value, request);
      }
    }

    /** A transaction of its own for one request. */
    method ExecuteAlone(b: OperationBudget, request: Request) returns (r: Outcome)
      requires Valid() && connection == null && b == budget
      modifies this`connection, this`begun, this`commitState, pool, server, clock
      ensures Held() && Honest() && connection == null && !r.BadState?
      ensures TrueSince(r, old(server.log), server.log)
      ensures RanAlone(server.log[|old(server.log)|..], request, r)
      ensures old(Untouched()) ==> Untouched() && (r.Returned? <==> request.valid && request.fits)
    {
      ghost var before := server.log;
      r := AcquireBegin(b);
      if server.log != before { SentOne(Begin, before, server.log); }
      if !r.Returned? { return; }
      ghost var begunLog := server.log;
      r := Perform(b, request);
      if r.Returned? {
        ghost var done := server.log;
        r := CommitNow(b);
        AloneCommitted(before, begunLog, done, server.log, request, r);
      } else {
        AloneFailed(before, begunLog, server.log, request, r);
        var ignored := Release(true);
      }
    }
  }

  // --- Whole sessions ---

  datatype Call =
    | BeginCall
    | ExecuteCall(context: Context, request: Request)
    | CommitCall
    | RollbackCall
    | CloseCall

  /** One call of a run: what was known before it, whether a commit was admitted, and what it returned. */
  datatype Record = Record(call: Call, state: CommitState, admitted: bool, before: seq<Event>, outcome: Outcome, after: seq<Event>)

  /** What the call told its caller, set against the log. */
  ghost predicate Honestly(transactional: bool, c: Record) {
    c.before <= c.after &&
    match c.call
    case CommitCall =>
      && (c.admitted ==> TrueSince(c.outcome, c.before, c.after))
      && (c.admitted && (c.outcome.Returned? || c.outcome.CommitOutcome?) ==> CommitPart(c.after[|c.before|..], c.outcome))
      && (!c.admitted ==> c.outcome == CommitOutcome(c.state) && c.after == c.before)
      && (c.outcome.Returned? ==> DidCommit(SinceBegin(c.after)))
      && (FalseReport(c.outcome, c.after) <==> !c.admitted && c.state == KnownCommitted && !CommitSent(SinceBegin(c.before)))
    case ExecuteCall(_, request) =>
      if transactional then
        !c.outcome.CommitOutcome? && Quiet(c.before, c.after) && Ran(c.after[|c.before|..], request, c.outcome)
      else
        TrueSince(c.outcome, c.before, c.after) && RanAlone(c.after[|c.before|..], request, c.outcome)
    case BeginCall => Answered(c, Begin)
    case RollbackCall => Answered(c, Rollback)
    case CloseCall => !c.outcome.CommitOutcome? && Sent(Rollback, c.before, c.after)
  }

  /** At most this command was sent, and it was if the call returned. */
  ghost predicate Answered(c: Record, command: Command) {
    !c.outcome.CommitOutcome? && Quiet(c.before, c.after) && Sent(command, c.before, c.after) && (c.outcome.Returned? ==> c.after != c.before)
  }

  /** The calls follow each other, from the first log to the last. */
  predicate Linked(records: seq<Record>, first: seq<Event>, last: seq<Event>) {
    && (if records == [] then first == last else records[0].before == first && records[|records| - 1].after == last)
    && forall i :: 0 < i < |records| ==> records[i].before == records[i - 1].after
  }

  method Answer(session: PostgreSQLAdapterSession, call: Call) returns (r: Outcome, ghost record: Record)
    requires session.Valid()
    modifies session, session.budget, session.pool, session.connection, session.server, session.clock
    ensures session.Valid() && session.Kept(old(session.budget), old(session.connection))
    ensures record.call == call && record.outcome == r && Honestly(session.transactional, record)
    ensures record.before == old(session.server.log) && record.after == session.server.log
  {
    ghost var admitted, state, before := true, session.commitState, session.server.log;
    match call {
      case BeginCall => r := session.BeginTransaction();
      case ExecuteCall(context, request) => r := session.Execute(context, request);
      case CommitCall => r, admitted := session.CommitTransaction();
      case RollbackCall => r := session.RollbackTransaction();
      case CloseCall => r := session.CloseSession();
    }
    record := Record(call, state, admitted, before, r, session.server.log);
  }

  /**
   Any calls in any order, then close. Every acquired connection has gone back exactly once, each command was sent
   within the budget, and of every call it is known, against the log of what was sent, which reports are true.
   */
  method UseSession(session: PostgreSQLAdapterSession, calls: seq<Call>) returns (outcomes: seq<Outcome>, ghost records: seq<Record>)
    requires session.Valid() && session.connection == null && session.budget == null && !session.closed
    modifies session, session.pool, session.server, session.clock
    ensures |outcomes| == |calls| && session.closed && session.connection == null
    ensures session.pool.out == {} && session.pool.returned == session.pool.acquired
    ensures InTime(session.server.log) && session.Honest()
    ensures |records| == |calls|
    ensures forall i :: 0 <= i < |calls| ==>
              records[i].call == calls[i] && records[i].outcome == outcomes[i] && Honestly(session.transactional, records[i])
    ensures exists last :: Linked(records, old(session.server.log), last) && Quiet(last, session.server.log)
  {
    outcomes, records := [], [];
    for i := 0 to |calls|
      invariant |outcomes| == |records| == i
      invariant session.Valid()
      invariant (session.budget == null || fresh(session.budget)) && (session.connection == null || fresh(session.connection))
      invariant forall k :: 0 <= k < i ==>
                  records[k].call == calls[k] && records[k].outcome == outcomes[k] && Honestly(session.transactional, records[k])
      invariant Linked(records, old(session.server.log), session.server.log)
    {
      var r, record := Answer(session, calls[i]);
      outcomes, records := outcomes + [r], records + [record];
    }
    ghost var last := session.server.log;
    var ignored := session.CloseSession();
    assert Linked(records, old(session.server.log), last);
  }

  /** A session that begins, commits and begins again while nothing fails: the state is still that of the first commit. */
  method BeginAgain(session: PostgreSQLAdapterSession)
    requires session.Valid() && session.connection == null && session.budget == null && !session.closed
    requires session.transactional && session.Untouched()
    modifies session, session.pool, session.server, session.clock
    ensures session.Valid() && session.connection != null && fresh(session.connection) && session.budget != null && fresh(session.budget)
    ensures session.Untouched() && session.commitState == KnownCommitted && !CommitSent(SinceBegin(session.server.log))
  {
    var first := session.BeginTransaction();
    var done, admitted := session.CommitTransaction();
    var second := session.BeginTransaction();
  }

  /**
   The input on which a report is false. Nothing fails: a session begins, commits, begins again and is slow. Its second
   commit is not admitted, reports KnownCommitted, and no COMMIT was sent for the second transaction.
   */
  method CommitTwice(session: PostgreSQLAdapterSession) returns (r: Outcome)
    requires session.Valid() && session.connection == null && session.budget == null && !session.closed
    requires session.transactional && session.Untouched()
    modifies session, session.pool, session.server, session.clock
    ensures r == CommitOutcome(KnownCommitted)
    ensures !CommitSent(SinceBegin(session.server.log)) && FalseReport(r, session.server.log)
  {
    BeginAgain(session);
    session.clock.Sleep(session.operationTimeout);
    ghost var admitted;
    r, admitted := session.CommitTransaction();
  }
}
