# Verified model of the PostgreSQL storage adapter

This project models the parts of the adapter whose guarantees span many functions, and proves them with Dafny 4.11.
PostgreSQL is a small abstract store: tables as maps, row locks, one snapshot per statement, savepoints and rollback.
`dafny verify dfyconfig.toml` checks everything.

**Durable outbox** (`OutboxTables`, `OutboxProtocol`, `OutboxOrder`, `OutboxSafety`, `OutboxTheorems`, `OutboxDrain`,
`OutboxStore`). Workers claim events from a snapshot that may be stale, lock the intent rows that are free, recheck
each row in a conditional upsert, and later complete with a checkpoint compare-and-set or release. The protocol is a
transition system over these half-steps; any other actor may run between any two of them. Each event has a history of
grants, releases and completions, and the theorems are about these histories in all runs. `OutboxOrder` states the
order of versions and what may be claimed on the stored columns, and the theorems speak in its terms. `OutboxStore` is
the same port as methods over mutable tables, tied to the protocol's own functions.

**Query compiler** (`SqlSyntax`, `ParserFacts`, `ExpressionCompiler`, `CompilerCorrectness`, `CompiledQuery`,
`SqlMeaning`, `ExpressionMeaning`, `TokenShape`, `ParsedShape`, `GroupsExact`, `SortingExact`, `JsonPointer`). The
compiler prints tokens and positional values. `SqlSyntax` reads tokens back as PostgreSQL's grammar does,
independently of the printer: `a_expr` and, inside position(), `b_expr`, with the operator precedence of section 4.1.6
of the PostgreSQL documentation, which decides only between two possible continuations, so that NOT may start any
operand and takes all that binds tighter than itself. The main theorem is that reading undoes printing, values
included. It holds for well-sorted expressions: an operand printed bare must bind tighter than the place it is printed
in, or be a negation where a right operand starts. The compiler does not check this. `SqlMeaning` evaluates trees for
a row as the database does, `ExpressionMeaning` says what an expression means without any SQL, and the executed text
has that meaning. `TokenShape` and `ParsedShape` show what any reading can make of any tokens, `GroupsExact` how
groups in parentheses are read, and `SortingExact` concludes that the sorting is exact: an expression with sorted
operands reads back if and only if it is sorted itself.

**Live-keyset pages** (`SortKeys`, `Keyset`, `KeysetExact`, `OrderBy`, `ScopedQuery`, `Pagination`, `PagedQuery`). The
cursor condition is built as text, read back as a tree, evaluated under three-valued logic, and shown to be the order
of the ORDER BY. `KeysetExact` says for which order expressions it reads back. Pagination then runs over an arbitrary
sequence of table states, one per page. `ScopedQuery` joins tenant and scope, filter and cursor into the whole WHERE
clause, with the scope markers that are replaced only at execution, and `PagedQuery` runs a whole scan with these
executed texts.

**Traversal** (`Traversal`). The edge rows and the recursive query, run as PostgreSQL runs it, against the set of
simple paths. The query recognises visited vertices by one text, Collection name, separator and id; the rows are the
paths that repeat no such text, and those are the vertex-simple paths when the texts tell the vertices apart. ORDER
BY, LIMIT and the cut to the page follow, under any collation.

**Session and deadline** (`Deadline`, `Session`). Connection, transaction, shared budget and commit outcome as
objects. The network, the server, the pool and the clock are free to behave in any way at every step. A log records
what was sent and whether the server committed; what each call reports, and the statements it is for, are compared
with the log since that call or since its BEGIN.

**Evidence replay** (`EvidenceAppend`). The append method with its savepoint, and the same statements interleaved with
those of other transactions.

**Schema registry** (`SchemaHistory`, `SchemaStore`). The history of publications and deprecations over any run, and
the stored row: a checksummed JSON envelope that the reader rebuilds and compares with Python's equality, for which
truth values and reals are numbers.

**Versioned writes** (`PutModes`, `PutRefinement`). The statements of the put modes with a small executor for INSERT,
ON CONFLICT and UPDATE over uniform rows, against one reference operation on the record under a key.

**Projection target** (`VersionedTarget`). The receiving half of a projection, where at-least-once delivery is
harmless.

`Wrappers`, `Sets` and `Sequences` are shared helpers.

What is assumed: the digest of a projection target is free of collisions; two requests with one fingerprint carry the
same records; semantic versions are totally ordered and stand for themselves; documents with one fingerprint are
equal; `validate_schema`, `classify_compatibility`, the time-zone check and the digest of the registry are arbitrary
functions; a column's values are totally ordered and stand for their rank, numbers for themselves; division, casts,
JSON, text search and geography are functions of the database. Time and every input from outside are parameters or
free choices.

Facts about the code that the proofs brought out:

- An operand looser than the place it is printed in is printed without parentheses all the same, and the expression
  then never reads back: boolean combinations and two-sided timestamp ranges where a value is expected, negations at
  the left of an operator or under isNull, in and documentPath or as the searched text of `contains`, text `contains`
  under another operator, json `contains` and full-text search under arithmetic. A negation at the right of an
  operator or as a bound of a range does read back, and so does a text `contains` as searched text or under isNull.
  This is `SortingExact.ReadsBackIffSorted`; `CompiledQuery.ConjunctionUnderComparison`,
  `CompiledQuery.NegationUnderComparison` and `CompiledQuery.TextContainsUnderComparison` show two different readings
  and none at all. As sort keys, the looser ones break some later page: `OrderBy.PagesReadBackIffSortable`.
- A layout with a required immutable field outside the identity cannot be written with an expected version: the field
  must be given and may not be assigned. A version-checked put also keeps omitted nullable fields, where the
  unconditional one sets them to NULL.
- An unconditional put on a layout without mutable fields succeeds on an existing record and does not advance its
  version (`PutRefinement.PutOnExistingRecord`).
- A transactional session that begins again after a commit may report the first transaction's outcome for the second,
  because `commit_state` is never reset: exactly when the second commit is not admitted before its COMMIT is sent
  (`Session.PostgreSQLAdapterSession.CommitTransaction`; `Session.CommitTwice` does it).
- One intent larger than the byte limit stops every claim whose batch holds it, since the whole batch is rolled back;
  a worker then makes no progress until the batch changes (`OutboxDrain.ClaimLeasesBatch`).
- A literal bound bare under the key of one of the compiler's markers never arrives: it is replaced, or the execution
  raises where a scope value is missing or the marker is malformed. One bound for a json or bytes field always arrives
  (`CompiledQuery.LiteralArrives`).
- A candidate of `in` or a value sought by `contains` beside a json or bytes field has every value in it wrapped for
  that field; beside a json field that includes the path of a document path, which is then no array of texts
  (`ExpressionMeaning.AdaptedValuesChange`, `ExpressionMeaning.SoughtPathIsWrapped`).
- A stored registry row whose payload carries `true` or `1.0` for the revision 1 is accepted, although it would never
  be written (`SchemaStore.AcceptedIsStoredIff`, `SchemaStore.TrueIsAcceptedForOne`); the next change writes the exact
  row.
- A traversal whose path budget is smaller than its page returns one path more than the budget when there are more
  (`Traversal.Paths`).
- A sort term that names the base by a suffix of its name makes an identity field appear twice in the order, which is
  harmless (`OrderBy.SuffixOrdersTwice`).
- A stray `~` in a JSON Pointer segment is accepted and stands for itself, so distinct pointers can name one path;
  reading is faithful exactly on well-formed segments.

## Model

The main results come first, then the operations and the steps the results rest on.

| member | source | states |
|---|---|---|
| OutboxTheorems.CompletedPrefix | src/meridian_storage/adapters/postgresql/projection/outbox.py:220-300 | With in-order appends, for any interleaving of appends, two-phase claims, completions, releases, expiries and rollbacks: if an event has a state row, every earlier event of its identity is COMPLETED, so the completed events are a prefix and at most one more event has a row. Earlier means: the lower number, numbers before null and text, and otherwise the older occurrence, then the smaller event id |
| OutboxTheorems.LeaseExclusivity | src/meridian_storage/adapters/postgresql/projection/outbox.py:236-300 | For every event of every run: the leases of two grants do not overlap unless a release lies between them, nothing follows a completion, grants are numbered 1, 2, ... and the row's `attempt` is the number of grants |
| OutboxTheorems.OnlyTheLatestGrantSettles | src/meridian_storage/adapters/postgresql/projection/outbox.py:331-338 | If owner strings are never reused, every successful completion or release comes from the owner of the latest grant, even when the claim was made from a stale snapshot |
| OutboxTheorems.CheckpointCountsCompletions | src/meridian_storage/adapters/postgresql/projection/outbox.py:372-397 | In every run, also when completions interleave between the checkpoint read and its compare-and-set, the revision of a partition is the number of its COMPLETED events |
| OutboxTheorems.RunExtends | src/meridian_storage/adapters/postgresql/projection/outbox.py:283-294 | No continuation of a run removes an intent, rewrites a completed or quarantined row, or takes back an entry of an event's history |
| OutboxTheorems.QuarantineIsFinal | src/meridian_storage/adapters/postgresql/projection/outbox.py:434-446 | With in-order appends, a quarantined row never changes again and no event after it in its identity is ever granted |
| OutboxDrain.ClaimLeasesBatch | src/meridian_storage/adapters/postgresql/projection/outbox.py:260-300 | A lone claim leases exactly its batch to the owner and changes no other row if the batch's own total fits the byte limit; otherwise neither tables nor histories change. It leases a batch that is not empty if and only if it fits |
| OutboxDrain.DrainLeavesOnlyBlocked | src/meridian_storage/adapters/postgresql/projection/outbox.py:220-242 | After draining, either every incomplete event is at or behind a head that is quarantined or under a live lease, or a claimable batch is over the byte limit |
| CompiledQuery.ExecutedTextMeansTree | src/meridian_storage/adapters/postgresql/query/__init__.py:37-307 | For every well-sorted expression, reading the emitted text as PostgreSQL's grammar does, with the bound values in order, gives back exactly the expression's tree, every value decoded and in its own place; the statement is executed exactly if every value can be bound |
| ExpressionMeaning.ExecutedTextHasMeaning | src/meridian_storage/adapters/postgresql/query/__init__.py:37-307 | For every well-sorted expression, scope and row, the executed text evaluates to what the expression means: comparisons and arithmetic as their names say, three-valued logic, membership, ranges, null tests and aggregates, each literal bound for the field beside it |
| SortingExact.ReadsBackIffSorted | src/meridian_storage/adapters/postgresql/query/__init__.py:37-266 | For every expression whose printed operands are sorted, its text is read as its tree if and only if it is sorted itself: every operand printed bare binds tightly enough for its place, or is a negation where a right operand or a range bound starts. The operands themselves may be as loose as they like |
| SortingExact.SortedIffAllReadBack | src/meridian_storage/adapters/postgresql/query/__init__.py:37-266 | Every expression that compiles is sorted if and only if it and everything printed within it read back |
| JsonPointer.PointerRoundTrip | src/meridian_storage/adapters/postgresql/query/__init__.py:202-213 | Splitting on the slash and the two sequential replacements invert escape-and-join on every nonempty list of segments |
| Keyset.KeysetHolds | src/meridian_storage/adapters/postgresql/query/__init__.py:648-703 | Under three-valued logic the cursor condition is true exactly on rows strictly after the cursor in the ORDER BY order and false, never unknown, elsewhere, for every direction, null placement and cursor with nulls |
| KeysetExact.PageReadsBackIffTight | src/meridian_storage/adapters/postgresql/query/__init__.py:454-455 | For every order of sorted expressions and every cursor: a later page reads back if and only if each expression its condition prints is tight enough, level 5 beside a NULL and level 4 beside a value; the last one is not printed beside a NULL that sorts last |
| OrderBy.PagesReadBackIffSortable | src/meridian_storage/adapters/postgresql/query/__init__.py:591-616 | Later pages of a request read back under every cursor if and only if its terms are sortable |
| ScopedQuery.PageStaysInScope | src/meridian_storage/adapters/postgresql/query/__init__.py:431-475 | For every filter, order and cursor, the executed WHERE text of a page is true exactly for rows of the request's own tenant and scope for which the filter means true and whose sort key, by the meaning of the order's expressions, comes strictly after the cursor |
| Pagination.FinishedScanReturnsStableRowsOnce | src/meridian_storage/adapters/postgresql/query/__init__.py:355-397 | For any such states, a finished scan returns every row present with an unchanged key in all of them exactly once |
| PagedQuery.FinishedQueriesReturnMatchingRowsOnce | src/meridian_storage/adapters/postgresql/query/__init__.py:355-475 | A finished scan by queries, whatever happens to the table between pages: a record that kept its key and matched throughout is returned exactly once, and all that is returned matched the scope and filter at some page |
| Traversal.Traverse | src/meridian_storage/adapters/postgresql/query/__init__.py:774-791 | The work-table iteration ends, and its rows are exactly one per simple edge path from the start with a depth between the bounds, each with its end, visited keys and relation references |
| Traversal.Paths | src/meridian_storage/adapters/postgresql/query/__init__.py:774-803 | The rows returned are the first of all simple paths between the depth bounds by depth, Collection and id, as many as the page size and one more than the path budget allow; they exceed the budget if and only if it is smaller than the page and there are more paths than it |
| Traversal.RowsFollowRelations | src/meridian_storage/adapters/postgresql/query/__init__.py:742-768 | Consecutive vertices of every returned path are the ends of a stored row of the named relation, taken along it going out, against it coming in, and either way in both directions or in an undirected relation |
| Traversal.KeysAreExactIff | src/meridian_storage/adapters/postgresql/query/__init__.py:778-786 | Keys tell the vertices of some Collections apart if and only if no name extends another by the separator and more text |
| Session.UseSession | src/meridian_storage/adapters/postgresql/transactions/__init__.py:46-245 | Any calls in any order, also on a session begun again, then close: every acquired connection went back exactly once, every command was sent within the budget, and each call's outcome is compared with the log since that call or since its BEGIN: what was sent is what the call is for, and all reports are true, but for commits that are not admitted, which are false exactly under the condition of CommitTransaction |
| Session.PostgreSQLAdapterSession.CommitTransaction | src/meridian_storage/adapters/postgresql/transactions/__init__.py:204-216 | Admitted, every report is true of what the server did in this call. Not admitted, the report is the commit state as it stands; it is false about the last transaction begun if and only if that state is KNOWN_COMMITTED and no COMMIT was sent since the last BEGIN |
| Session.CommitTwice | src/meridian_storage/adapters/postgresql/transactions/__init__.py:204-216 | The input on which a report is false: nothing fails, a session begins, commits, begins again and runs out of time; the second commit reports KNOWN_COMMITTED and no COMMIT was sent for the second transaction |
| Deadline.Consume | src/meridian_storage/adapters/postgresql/_deadline.py:61-85 | Nothing is sent once the budget has run out, every wait is positive, at most 50 ms and ends within the budget, and the loop ends |
| EvidenceAppend.CommittedExactlyOnce | src/meridian_storage/adapters/postgresql/transactions/__init__.py:392-453 | In every run of interleaved transactions with failures and rollbacks, a committed key has a result, which is exactly the rows ever inserted under it, in the order of the request's records |
| EvidenceAppend.LaterBatchesReplay | src/meridian_storage/adapters/postgresql/transactions/__init__.py:401-419 | Once a key is committed, every later batch under it in any transaction after any run changes nothing and gets the stored result for the same fingerprint, a conflict for another |
| EvidenceAppend.FailedBatchLeavesNothing | src/meridian_storage/adapters/postgresql/transactions/__init__.py:390-392 | A batch that fails leaves its transaction as it was before the batch, whatever ran in between |
| SchemaHistory.HistoryIsAppendOnly | src/meridian_storage/adapters/postgresql/schema_registry.py:398-516 | Over any publications and deprecations, failures included, a published document and its time never change, deprecation is permanent and nothing is removed |
| SchemaHistory.HistoryIsCompatible | src/meridian_storage/adapters/postgresql/schema_registry.py:431-436 | Any two consecutive versions of a schema are compatible unless a step that took effect published the later one with breaking changes allowed |
| SchemaHistory.OneChangePerExpectedRevision | src/meridian_storage/adapters/postgresql/schema_registry.py:388-396 | Of two changes expecting the same revision at most one takes effect |
| SchemaHistory.PublishedStaysPublished | src/meridian_storage/adapters/postgresql/schema_registry.py:398-463 | Over any run after a publication that answered without error: publishing the same document again, with an acceptable revision, changes nothing and answers its entry, and another document under its reference conflicts |
| SchemaStore.PostgreSQLSchemaRepository.ReadRow | src/meridian_storage/adapters/postgresql/schema_registry.py:326-371 | A row is accepted for a snapshot if and only if its column, its payload under Python's equality and the digest of that payload are the snapshot's; otherwise it is refused |
| SchemaStore.AcceptedIsStoredIff | src/meridian_storage/adapters/postgresql/schema_registry.py:360-371 | An accepted row is exactly the row that would be stored for the snapshot read from it if and only if the revision inside its payload is an integer |
| PutRefinement.PutRefines | src/meridian_storage/adapters/postgresql/query/dml.py:154-281 | For every layout, table, scope and accepted input, executing the compiled statement equals one reference operation on the record under the key |
| PutRefinement.OneCheckedPutPerVersion | src/meridian_storage/adapters/postgresql/query/dml.py:191-217 | Of several puts on one record expecting the same version, with any puts between them, at most one succeeds |
| PutRefinement.CheckedPutCompilesIff | src/meridian_storage/adapters/postgresql/query/dml.py:191-198 | A version-checked put compiles exactly when the plain upsert does, every given field besides the identity is mutable, and there is one |
| PutRefinement.PutOnExistingRecord | src/meridian_storage/adapters/postgresql/query/dml.py:218-281 | An unconditional update or upsert of an existing record succeeds; it changes nothing, not even the version, if and only if the layout has no mutable field, and otherwise raises the version by one |
| VersionedTarget.ReplayConverges | examples/versioned_target.py:51-103 | Two hosts that received the same source versions, in any order and with any repetition, have the same target and see the same rows |
| OutboxTheorems.GrantsWaitForVisiblePredecessors | src/meridian_storage/adapters/postgresql/projection/outbox.py:236-258 | Without any assumption on appends, a granted event has every earlier event its snapshot saw COMPLETED, in the same order on the stored columns |
| OutboxTheorems.LowerVersionsFirst | src/meridian_storage/adapters/postgresql/projection/outbox.py:220-244 | Of two numbered versions of one identity, the higher is granted only after the lower one its snapshot saw is COMPLETED |
| OutboxTheorems.OpaqueVersionsLast | src/meridian_storage/adapters/postgresql/projection/outbox.py:220-244 | A version that is null or text waits for every number its snapshot saw, and for every older occurrence or smaller event id among its like |
| OutboxTheorems.GrantsWaitForAppendedPredecessors | src/meridian_storage/adapters/postgresql/projection/outbox.py:236-268 | Every grant goes back to a scan by its owner, and every earlier event that had been appended by then is COMPLETED |
| OutboxTheorems.CompletionIsAllOrNothing | src/meridian_storage/adapters/postgresql/projection/outbox.py:362-412 | A completion either writes the checkpoint and the row together or changes neither table |
| OutboxTheorems.CompletionOutcome | src/meridian_storage/adapters/postgresql/projection/outbox.py:351-412 | A completion takes effect exactly for the owner of a live lease, at both readings of the clock, who names the event's own version; otherwise no table changes |
| OutboxTheorems.ReleaseOutcome | src/meridian_storage/adapters/postgresql/projection/outbox.py:423-447 | A release by the owner of a live lease makes the row RETRYABLE exactly if the caller asked for it and the event was granted fewer times than the threshold, and QUARANTINED otherwise; without a live lease no table changes |
| OutboxTheorems.RunNamesGreatest | src/meridian_storage/adapters/postgresql/projection/outbox.py:372-397 | With in-order appends and one identity per partition, the checkpoint names the greatest completed event |
| OutboxTheorems.ReleaseBound | src/meridian_storage/adapters/postgresql/projection/outbox.py:434-446 | No event is released more often than the threshold, and a RETRYABLE row has an attempt below it |
| OutboxTheorems.ConstraintsHold | src/meridian_storage/adapters/postgresql/projection/_storage.py:88-103 | The CHECK constraints on state, owner, times and attempt, and on the checkpoint revision, hold for every row after every step of every run |
| OutboxSafety.StepValid | src/meridian_storage/adapters/postgresql/projection/outbox.py:204-447 | Every step of every actor keeps the whole protocol invariant: rows match their histories, checkpoints count completions, open transactions hold what they locked, granted events were cleared |
| OutboxDrain.BatchShape | src/meridian_storage/adapters/postgresql/projection/outbox.py:236-258 | A claim's batch is nonempty exactly when some identity's head is free (and the limit is positive), holds only free heads, and at most one event per identity |
| OutboxDrain.RoundCompletesBatch | src/meridian_storage/adapters/postgresql/projection/outbox.py:351-412 | Claiming and completing a batch that fits the byte limit completes exactly that batch, so the number of incomplete events falls by its length |
| OutboxDrain.Drain | src/meridian_storage/adapters/postgresql/projection/outbox.py:204-300 | Claim-then-complete terminates without a byte hypothesis and loses no intent; it ends with no batch left to claim or with a batch over the byte limit |
| OutboxStore.PostgreSQLOutbox.AtomicClaim | src/meridian_storage/adapters/postgresql/projection/outbox.py:204-300 | The claim method: argument errors, the byte limit that rolls everything back, and otherwise every selected row that is unclaimed when its turn comes is leased with one more attempt and returned, and no other row changes |
| OutboxStore.PostgreSQLOutbox.SelectRows | src/meridian_storage/adapters/postgresql/projection/outbox.py:236-272 | The rows selected are the first of the claimable ones by occurrence and event id, as many as the limit allows; claimable means pending, retryable or expired, with every earlier event of the identity COMPLETED |
| OutboxStore.PostgreSQLOutbox.Leased | src/meridian_storage/adapters/postgresql/projection/outbox.py:331-338 | The lease check: not found, lost, or the row of the live lease of this owner |
| OutboxStore.PostgreSQLOutbox.Complete | src/meridian_storage/adapters/postgresql/projection/outbox.py:362-412 | The complete method: succeeds exactly for the live owner with the exact source version, raises the partition's revision by one, completes the row, and otherwise changes nothing |
| OutboxStore.PostgreSQLOutbox.Release | src/meridian_storage/adapters/postgresql/projection/outbox.py:423-447 | The release method: succeeds exactly for the live owner; QUARANTINED exactly if no retry was asked for or the attempt has reached the threshold, RETRYABLE otherwise |
| ExpressionMeaning.TreeIsMeaning | src/meridian_storage/adapters/postgresql/query/__init__.py:37-266 | The same of the operator tree, for every expression that compiles and any binding of its literals |
| ExpressionMeaning.CompilesIff | src/meridian_storage/adapters/postgresql/query/__init__.py:37-266 | An expression compiles exactly if no unbound parameter, empty candidate or field list, percentile, pointer without a leading slash, or value that is no base64url text for a bytes field is in it |
| ExpressionMeaning.Base64UrlIff | src/meridian_storage/adapters/postgresql/query/_values.py:18-37 | A text is accepted as bytes exactly if it is letters, digits, minus and underscore, then at most two signs of padding, with no lone character in the last group |
| ParsedShape.ParseShape | src/meridian_storage/adapters/postgresql/query/__init__.py:37-266 | Whatever is read, at any level, in either grammar and from any tokens, is a stretch with balanced parentheses, and takes exactly the values of its own placeholders, in order |
| ParsedShape.TailGrows | src/meridian_storage/adapters/postgresql/query/__init__.py:37-266 | What has been read stays, as it is, the leftmost part of all that is read after it, and an operator that binds within the level is always taken |
| CompilerCorrectness.StatementReads | src/meridian_storage/adapters/postgresql/query/__init__.py:37-266 | The same at each expression's own precedence level and under any change of the values, for every expression kind |
| CompilerCorrectness.ConjunctionReads | src/meridian_storage/adapters/postgresql/query/_sql.py:33-40 | `conjunction` of any statements reads as the conjunction of their trees, TRUE when empty, whatever precedence the parts have |
| CompilerCorrectness.DisjunctionReads | src/meridian_storage/adapters/postgresql/query/_sql.py:43-50 | `disjunction` of any statements reads as the disjunction of their trees, FALSE when empty |
| CompiledQuery.Bind | src/meridian_storage/adapters/postgresql/transactions/__init__.py:465-494 | Binding fails exactly when a name, a scope value of the request or a sound marker is missing, and otherwise gives every named value, scope markers replaced and wrappers decoded, in order |
| CompiledQuery.RenameUndone | src/meridian_storage/adapters/postgresql/query/__init__.py:820-839 | Renaming the values p0, p1, ... and looking them up again delivers every value decoded in its original position, exactly if each can be bound |
| CompiledQuery.LiteralArrives | src/meridian_storage/adapters/postgresql/query/_values.py:68-100 | A literal compared with a field compiles unless it is bound for bytes and no base64url text; the statement is then executed and read with that literal, wrapped for json and bytes fields, if and only if it is not bound bare under a key of the compiler's markers |
| ExpressionMeaning.LiteralIsCompared | src/meridian_storage/adapters/postgresql/query/_values.py:68-100 | What arrives is compared: the executed condition is the named comparison of the field's value and the literal, wrapped for json and bytes fields |
| ExpressionMeaning.AdaptedValuesChange | src/meridian_storage/adapters/postgresql/query/__init__.py:132-176 | Adapting a candidate or a sought value to a json or bytes field changes what it is executed with exactly if it binds any value, whatever that value is for |
| ExpressionMeaning.SoughtPathIsWrapped | src/meridian_storage/adapters/postgresql/query/__init__.py:132-139 | So a document path sought in a json field is executed with its path wrapped as JSON |
| CompiledQuery.ConjunctionUnderComparison | src/meridian_storage/adapters/postgresql/query/__init__.py:65-72 | Where sorting fails: a conjunction compared with a field is read as a conjunction whose last part is the comparison |
| CompiledQuery.NegationUnderComparison | src/meridian_storage/adapters/postgresql/query/__init__.py:57-110 | Where sorting fails: a negation at the left of a comparison is read as the negation of the comparison; at the right of one it reads back |
| CompiledQuery.TextContainsUnderComparison | src/meridian_storage/adapters/postgresql/query/__init__.py:140-149 | Where sorting fails: a text `contains` under any comparison is not readable at all, because comparisons do not associate |
| JsonPointer.TwoPassesAreOne | src/meridian_storage/adapters/postgresql/query/__init__.py:207-209 | The two sequential replacements equal one left-to-right decoding of every text |
| JsonPointer.SegmentIsFaithful | src/meridian_storage/adapters/postgresql/query/__init__.py:207-209 | Decoding a segment loses nothing exactly when the segment is well formed (section 3 of RFC 6901) |
| Keyset.CompileKeyset | src/meridian_storage/adapters/postgresql/query/__init__.py:644-665 | The nested loops build the disjunction over columns of equal-so-far-and-then-after, and refuse a cursor of another length |
| Keyset.KeysetReads | src/meridian_storage/adapters/postgresql/query/__init__.py:648-703 | The text of the cursor condition reads as its tree whenever each expression it prints reads at the level this cursor value leaves room for |
| Keyset.NarrowedSelectsLaterRows | src/meridian_storage/adapters/postgresql/query/__init__.py:454-455 | The whole WHERE text of a later page holds exactly for the rows that match the original condition and come strictly after the cursor |
| SortKeys.BeforeIsTransitive | src/meridian_storage/adapters/postgresql/query/__init__.py:456-459 | The lexicographic order with directions and null placement is transitive |
| SortKeys.BeforeIsTotal | src/meridian_storage/adapters/postgresql/query/__init__.py:456-459 | Two different keys are ordered one way or the other |
| OrderBy.Order | src/meridian_storage/adapters/postgresql/query/__init__.py:591-616 | The order is every requested term in turn, then exactly the identity columns of the base that no term names; it fails exactly when a term does not compile |
| OrderBy.CanonicalIff | src/meridian_storage/adapters/postgresql/query/__init__.py:283-292 | A name stands for the resource of that name, or else for the only one it follows a colon or a dot in |
| OrderBy.FieldTermsAreColumns | src/meridian_storage/adapters/postgresql/query/__init__.py:267-281 | A term that is a field orders by that column under the alias of its resource, and is refused exactly if the resource has no such field |
| OrderBy.OrderCoversIdentity | src/meridian_storage/adapters/postgresql/query/__init__.py:607-616 | Every identity column takes part in the order, whatever was requested; one that was not comes after the requested terms, ascending with NULL last |
| OrderBy.SuffixOrdersTwice | src/meridian_storage/adapters/postgresql/query/__init__.py:601-616 | An identity field that only terms with a suffix of the base's name ask for is ordered twice: by the term and again at the end |
| OrderBy.KeysDetermineIdentity | src/meridian_storage/adapters/postgresql/query/__init__.py:601-616 | Rows with equal sort keys have the same identity, so the order is total on distinct records |
| OrderBy.LaterPageSelects | src/meridian_storage/adapters/postgresql/query/__init__.py:449-492 | From requested terms and filter to truth: the executed text of a later page selects exactly the matching rows after the cursor |
| OrderBy.LooseOrderMisread | src/meridian_storage/adapters/postgresql/query/__init__.py:667-703 | Where it fails: ordering by a conjunction, the null test of the cursor condition takes only its last part |
| Pagination.NormalizeResult | src/meridian_storage/adapters/postgresql/query/__init__.py:365-382 | One row beyond the page size means more; the page is cut to its size and the cursor is the last returned key |
| Pagination.ScanIncreases | src/meridian_storage/adapters/postgresql/query/__init__.py:355-397 | For any table states seen by successive pages, returned sort keys strictly increase over the whole scan |
| Pagination.ReturnedRowsExisted | src/meridian_storage/adapters/postgresql/query/__init__.py:449-492 | Every returned row was in the state some page of the scan read |
| Pagination.UnchangingTableIsListed | src/meridian_storage/adapters/postgresql/query/__init__.py:449-492 | On an unchanging table the pages concatenate to the full sorted result, and the scan is finished once its pages could hold all rows |
| Pagination.ScanTerminates | src/meridian_storage/adapters/postgresql/query/__init__.py:367-371 | A scan of an unchanging table ends within as many pages as there are rows (one page for none) |
| ScopedQuery.ScopePredicate | src/meridian_storage/adapters/postgresql/query/__init__.py:505-514 | The loop joins one equality per scope column, each with its scope marker |
| ScopedQuery.ScopeHolds | src/meridian_storage/adapters/postgresql/transactions/__init__.py:465-494 | With the markers replaced, the scope predicate is true exactly on rows whose scope columns hold the values the request gives for them |
| ScopedQuery.InScopeIsBelongs | src/meridian_storage/adapters/postgresql/transactions/__init__.py:479-494 | These values are the request's tenant for the tenant column and its scope entry for every scope column |
| PagedQuery.PageSelects | src/meridian_storage/adapters/postgresql/query/__init__.py:431-475 | On every table state, the executed text of a first or later page is true of exactly the records of the request's scope for which the filter means true and that come after the cursor |
| PagedQuery.QueryScanIsScan | src/meridian_storage/adapters/postgresql/query/__init__.py:355-475 | Scanning with compiled queries, one per table state, is the scan over the matching records, page by page |
| Traversal.GatherEdges | src/meridian_storage/adapters/postgresql/query/__init__.py:727-768 | The edge rows are exactly the relations' rows, one Collection after another, each followed as the direction says, undirected ones both ways; a Collection that is no relation or an empty list is refused |
| Traversal.EdgeRowsAreUsable | src/meridian_storage/adapters/postgresql/query/__init__.py:742-768 | An edge is among these rows if and only if a row of some relation has its ends: from source to target going out, from target to source coming in, either way in both directions or in an undirected relation |
| Traversal.JoinKeepsPathsSimple | src/meridian_storage/adapters/postgresql/query/__init__.py:781-787 | The join condition holds exactly when the longer path is simple and not too deep, and makes that path's row |
| Traversal.SimplePathsVisitVerticesOnce | src/meridian_storage/adapters/postgresql/query/__init__.py:782-786 | When no Collection name in use extends another by the separator, never repeating a key is never repeating a vertex |
| Traversal.SimplePathsAreShort | src/meridian_storage/adapters/postgresql/query/__init__.py:774-791 | A simple path has at most as many edges as there are, so cycles cannot keep the recursion going |
| Deadline.OperationBudget.Include | src/meridian_storage/adapters/postgresql/_deadline.py:27-32 | A context joins once, caps the budget by its own deadline and does nothing else to it |
| Deadline.OperationBudget.Remaining | src/meridian_storage/adapters/postgresql/_deadline.py:34-44 | What is left is positive and ends no later than the budget and every context |
| Session.Connection.Exchange | src/meridian_storage/adapters/postgresql/_deadline.py:91-123 | One exchange: at most one command is sent, in time; an incomplete exchange or an error after the deadline discards the transport; a confirmed COMMIT of an open transaction is a commit on the server |
| Session.PostgreSQLAdapterSession.AcquireBegin | src/meridian_storage/adapters/postgresql/transactions/__init__.py:90-111 | Either a connection inside a new transaction, or none and nothing left out of the pool |
| Session.PostgreSQLAdapterSession.CommitNow | src/meridian_storage/adapters/postgresql/transactions/__init__.py:158-202 | Every report is true: success or KNOWN_COMMITTED means the server has just committed, KNOWN_NOT_COMMITTED means no COMMIT was sent since the last BEGIN; the connection goes back in every case |
| Session.PostgreSQLAdapterSession.RollbackTransaction | src/meridian_storage/adapters/postgresql/transactions/__init__.py:218-228 | Whatever fails, even on a call out of turn, no connection is held afterwards and no COMMIT was sent |
| Session.PostgreSQLAdapterSession.CloseSession | src/meridian_storage/adapters/postgresql/transactions/__init__.py:230-245 | Afterwards nothing is held and every acquired connection has gone back |
| Session.PostgreSQLAdapterSession.Execute | src/meridian_storage/adapters/postgresql/transactions/__init__.py:123-143 | In a transactional session a request that returned sent exactly its statements, in order, and no COMMIT; in a session without transactions it sent BEGIN, its statements and COMMIT, and the server committed. A request that failed sent a prefix of them, perhaps with a return to its savepoint, and every known outcome is true. Undisturbed, a request returns exactly if it is valid and its result fits |
| EvidenceAppend.AppendSession.ExecuteAppend | src/meridian_storage/adapters/postgresql/transactions/__init__.py:389-453 | A known key replays or conflicts without change; otherwise all rows go in, in order, with the key and its result, or a failure or too large a result leaves nothing |
| EvidenceAppend.ReplaysReturnTheRequestsRecords | src/meridian_storage/adapters/postgresql/transactions/__init__.py:401-419 | A replay returns rows that carry the replayed request's own records; it conflicts exactly when the fingerprint differs |
| EvidenceAppend.AbortLeavesNothing | src/meridian_storage/adapters/postgresql/transactions/__init__.py:390-392 | Rolling back the outer transaction leaves the store unchanged and the key free |
| EvidenceAppend.CommittedForever | src/meridian_storage/adapters/postgresql/transactions/__init__.py:393-400 | A committed entry and its rows never change again |
| EvidenceAppend.StepValid | src/meridian_storage/adapters/postgresql/transactions/__init__.py:392-453 | Every statement of every transaction keeps the accounting of keys and rows |
| EvidenceAppend.BatchRuns | src/meridian_storage/adapters/postgresql/transactions/__init__.py:420-453 | The statements of one batch do to the transaction exactly what the method does |
| SchemaHistory.RevisionCountsChanges | src/meridian_storage/adapters/postgresql/schema_registry.py:388-396 | The revision grows by exactly the number of effective steps, and every snapshot stays sorted and well formed |
| SchemaHistory.PublishShape | src/meridian_storage/adapters/postgresql/schema_registry.py:437-443 | A publication inserts one entry at its place in the order and keeps all others |
| SchemaHistory.DeprecatedStaysDeprecated | src/meridian_storage/adapters/postgresql/schema_registry.py:482-516 | Over any run after a deprecation that answered without error, its entry is in the history, deprecated |
| SchemaHistory.AnswersAreOwn | src/meridian_storage/adapters/postgresql/schema_registry.py:398-516 | An answer without error carries the caller's own document or reference, and its entry is in the history then, deprecated after a deprecation |
| SchemaHistory.RepublishingAnswersTheEntry | src/meridian_storage/adapters/postgresql/schema_registry.py:413-416 | Publishing a document that is in the history changes nothing and answers its entry |
| SchemaHistory.UsedVersionsConflict | src/meridian_storage/adapters/postgresql/schema_registry.py:413-431 | Another document under a used reference, or with a version that is not above all versions of its schema, conflicts and changes nothing |
| SchemaHistory.NewVersionIsPublished | src/meridian_storage/adapters/postgresql/schema_registry.py:423-446 | A version above all others of its schema is published and added, unless it breaks the greatest of them and that is not allowed |
| SchemaHistory.DeprecationAnswersTheEntry | src/meridian_storage/adapters/postgresql/schema_registry.py:482-516 | A deprecation answers the entry of its reference, deprecated, keeps all others, and fails only if there is no such entry |
| SchemaHistory.RefusedUnlessAdmitted | src/meridian_storage/adapters/postgresql/schema_registry.py:388-411 | A call with a foreign catalog, an invalid document or a revision that is not the registry's fails with that error and changes nothing |
| SchemaStore.TrueIsAcceptedForOne | src/meridian_storage/adapters/postgresql/schema_registry.py:328-371 | Where it is not: a row of revision 1 with `true` as the revision in the payload is accepted, and no snapshot is stored as that row |
| SchemaStore.AcceptedForOne | src/meridian_storage/adapters/postgresql/schema_registry.py:360-371 | A row is accepted for one snapshot only |
| SchemaStore.PostgreSQLSchemaRepository.ReadForUpdate | src/meridian_storage/adapters/postgresql/schema_registry.py:304-323 | The locked read inserts the empty registry first and otherwise leaves the row |
| SchemaStore.PostgreSQLSchemaRepository.PublishSchema | src/meridian_storage/adapters/postgresql/schema_registry.py:398-444 | The method does to the stored row exactly what the history's publication does to its snapshot; on an error, or on a corrupt row, the row stays |
| SchemaStore.PostgreSQLSchemaRepository.DeprecateSchema | src/meridian_storage/adapters/postgresql/schema_registry.py:482-516 | The same for deprecation |
| SchemaStore.PostgreSQLSchemaRepository.ListSchemaVersions | src/meridian_storage/adapters/postgresql/schema_registry.py:450-463 | Exactly the schema's entries, deprecated ones on request, in version order |
| SchemaStore.PostgreSQLSchemaRepository.GetSchema | src/meridian_storage/adapters/postgresql/schema_registry.py:465-480 | The exact version or, without one, the greatest; without deprecated ones the greatest published; not found only if there is none |
| SchemaStore.StoredIsInjective | src/meridian_storage/adapters/postgresql/schema_registry.py:373-386 | Different snapshots are stored as different rows |
| SchemaStore.ReferencesAreDistinct | src/meridian_storage/adapters/postgresql/schema_registry.py:225-228 | The explicit references keep every namespace and name apart |
| SchemaStore.DisplayIdsCollide | src/meridian_storage/adapters/postgresql/schema_registry.py:225-228 | The display id alone does not: dotted names can share one |
| PutModes.CompilePut | src/meridian_storage/adapters/postgresql/query/dml.py:154-281 | The loops build the statement of each mode, and the put is refused exactly when its data, scope or changes are not acceptable |
| PutRefinement.UpsertIsInsertOrUpdate | src/meridian_storage/adapters/postgresql/query/dml.py:218-281 | An unconditional upsert is if_absent on an absent identity and update on a present one, on every table |
| PutRefinement.PutKeepsOthers | src/meridian_storage/adapters/postgresql/query/dml.py:199-216 | No record outside the scoped identity changes, and every record stays filed under its key |
| PutRefinement.PlainPutCompilesIff | src/meridian_storage/adapters/postgresql/query/dml.py:154-190 | Any other put compiles exactly when the context has a tenant and exactly the configured scope keys, only known fields are given, NULL only for nullable ones, and every field that is not nullable is given |
| PutRefinement.RequiredImmutableFieldBlocksCheckedPuts | src/meridian_storage/adapters/postgresql/query/dml.py:389-408 | A layout with a required immutable field outside the identity accepts no version-checked put |
| PutRefinement.CallKeepsVersions | src/meridian_storage/adapters/postgresql/query/dml.py:229-231 | No put lowers a record's version, and a version-checked one raises it by one |
| VersionedTarget.TargetIsDeliveredSet | examples/versioned_target.py:51-79 | The target holds exactly one row per delivered source key and version, with that version's content |
| VersionedTarget.LatestVisible | examples/versioned_target.py:84-103 | The result is sorted by key and holds exactly the first row of the highest version of every source, if it is not deleted and matches |
| VersionedTarget.NewestDeliveryDecides | examples/versioned_target.py:51-103 | A source is visible exactly if its newest delivered version is neither flagged nor removed and matches, and then as that version |
| VersionedTarget.VisibleWasDelivered | examples/versioned_target.py:51-103 | What is visible is the newest delivered version of its source |

## Left out

- CompiledQuery.ExecutedTextMeansTree: the `prefix` and `modulo` printers are not part of it, because their escaping and `%` handling depend on driver and server string rules; field resolution of expressions is not modelled, and reading leaves out prefix signs of other operators, rows and tests the compiler never prints.
- Traversal.Traverse: parameters are not traced to their placeholders there; refusals that depend on the plan, the Registry and the bounds of the budget are not modelled.
- Pagination.FinishedScanReturnsStableRowsOnce: for join-free scans; one-to-many joins and sort keys that do not survive result normalisation (bytes, durations, points, JSON) are outside it, and the signing of the cursor and its checks against plan, schemas and scope are opaque.
- Deadline.OperationBudget.Remaining: one call reads the clock once, where the code reads it again for each context; cancellation of a context may happen at any check.
- Session.UseSession: calls come one after another; the lock against other threads is not modelled, closing a connection does not raise, and a connection handed to `putconn` counts as returned even when that call reports an error.
- Session.PostgreSQLAdapterSession.AcquireBegin: the pool's own connection check is not modelled, and a pooled connection is a new object each time.
- EvidenceAppend.AppendSession.ExecuteAppend: how the replay key is derived from the request and its context, and the refusal of `requireAtomic` outside a transaction, are not modelled.
- SchemaStore.PostgreSQLSchemaRepository.ReadRow: definitions are opaque texts, read as they are stored, and versions stand for their texts; the digest is defined on every JSON value, where one that refuses reals would also refuse those rows; the migration check of the metadata tables is not modelled.
- PutModes.CompilePut: opaque string versions, relation endpoint checks, and the encoding of values by field type are not modelled; tables have no secondary unique index.
- OutboxStore.PostgreSQLOutbox.AtomicClaim: `lag`, `get` and the row decoding are not modelled; the rows taken FOR UPDATE SKIP LOCKED are locked in one step.
- Patch, delete and structured get statements, the claim statement of the DML compiler: each would add a member settled by reading it.
- Migrations, physical fingerprints, settings parsing, TLS and pool configuration, probes, error mapping, descriptors and conformance hosts: text, constants and plumbing.
