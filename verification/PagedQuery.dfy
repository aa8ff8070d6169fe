/**
 A whole scan by queries: every page executes its own compiled WHERE text on the table as it is then. The rows that
 text is true of are the rows the scan is defined by, so the scan's guarantees hold of the compiled queries.
 */
module PagedQuery {
  import opened Wrappers
  import opened SqlSyntax
  import opened ParserFacts
  import opened ExpressionCompiler
  import opened CompiledQuery
  import opened ExpressionMeaning
  import opened SortKeys
  import opened SqlMeaning
  import opened Keyset
  import opened OrderBy
  import opened ScopedQuery
  import opened Pagination

  /** A listing request, compiled: its order, the scope keys of its base, its filter, and the caller's context. */
  datatype Query = Query(targets: Targets, terms: seq<Term>, order: seq<OrderItem>, keys: seq<string>, filter: Option<Expr>, context: Context)

  ghost predicate ValidQuery(q: Query) {
    && ValidTargets(q.targets) && IsOrder(q.targets, q.terms, q.order) && Sortable(q.targets, q.terms)
    && (q.filter.Some? ==> Compile(q.filter.value).Some? && WellSorted(q.filter.value))
    && Scoped(q.context, q.keys)
    && AllBind(q.context, Where(q, None).parameters)
  }

  function Bindings(q: Query): Value -> Value { Decoder(q.context) }

  /** The expressions a row is sorted by. */
  function SortedBy(q: Query): seq<Expr>
    requires ValidTargets(q.targets)
  {
    OrderExprs(q.targets, q.terms, q.order)
  }

  // --- Tables ---

  /** The rows of a table state under their sort keys. */
  type Table = map<Key, Row>

  /** How a key goes into a cursor and comes back as bound values. */
  type CursorCodec = Key -> seq<Value>

  /** Every row stands under its own sort key. */
  ghost predicate Faithful(q: Query, table: Table)
    requires ValidTargets(q.targets)
  {
    forall k :: k in table ==> |k| == |q.order| && TextsAreCells(table[k]) && Meanings(SortedBy(q), table[k], Bindings(q)) == k
  }

  /** Bound as a cursor, the key's values mean the key again, on every row of the table. */
  ghost predicate Carries(q: Query, table: Table, codec: CursorCodec, c: Key) {
    && |codec(c)| == |c| == |q.order| && (forall k :: k in table ==> MeansKey(q, table[k], codec(c), c))
    && AllBind(q.context, Where(q, Some(codec(c))).parameters)
  }

  ghost predicate MeansKey(q: Query, row: Row, values: seq<Value>, key: Key)
    requires |values| == |key|
  {
    forall i :: 0 <= i < |key| ==> StandsFor(row, q.context, values[i], key[i])
  }

  /** The row is in the request's tenant and scope and meets the filter. */
  ghost predicate Matches(q: Query, row: Row) {
    && Belongs(row, q.context, "t0", q.keys)
    && (q.filter.Some? ==> IsTrue(Meaning(q.filter.value, row, Bindings(q))))
  }

  ghost function Matching(q: Query, table: Table): set<Key> { set k | k in table && Matches(q, table[k]) }

  // --- One page ---

  /** The WHERE clause of one page. */
  function Where(q: Query, cursor: Option<seq<Value>>): BoundStatement
    requires cursor.Some? ==> |cursor.value| == |q.order|
  {
    var selection := Selection("t0", ScopeColumns(q.keys), if q.filter.None? then None else Compile(q.filter.value));
    if cursor.None? then selection else Narrowed(selection, q.order, cursor.value)
  }

  /** The executed text as the server reads it, with the values bound to it. */
  function Executed(q: Query, cursor: Option<seq<Value>>): Parsed<Sql>
    requires cursor.Some? ==> |cursor.value| == |q.order|
  {
    var e := Seal(Where(q, cursor));
    var values := BoundValues(e, q.context);
    if values.None? then Fail else ParseAll(e.command, values.value)
  }

  lemma ExecutedReads(q: Query, cursor: Option<seq<Value>>)
    requires (cursor.Some? ==> |cursor.value| == |q.order|) && AllBind(q.context, Where(q, cursor).parameters)
    ensures Executed(q, cursor) == ParseAll(Where(q, cursor).command, MapValues(Bindings(q), Where(q, cursor).parameters))
  {
    RenameUndone(Where(q, cursor), q.context);
  }

  /** The rows of which the executed text is true; none if it cannot be read. */
  ghost function Selected(q: Query, table: Table, cursor: Option<seq<Value>>): set<Key>
    requires cursor.Some? ==> |cursor.value| == |q.order|
  {
    var r := Executed(q, cursor);
    if r.Fail? then {} else set k | k in table && Holds(r.node, table[k]) == True
  }

  function Encoded(codec: CursorCodec, cursor: Option<Key>): Option<seq<Value>> {
    if cursor.None? then None else Some(codec(cursor.value))
  }

  function FilterTree(q: Query): Option<Sql> { if q.filter.None? then None else Some(Tree(q.filter.value)) }

  lemma FirstPageReads(q: Query)
    requires ValidQuery(q)
    ensures Executed(q, None) == Got(MapTree(Bindings(q), SelectionTree("t0", ScopeColumns(q.keys), FilterTree(q))), [], [])
  {
    var f, b, t := Bindings(q), Where(q, None), SelectionTree("t0", ScopeColumns(q.keys), FilterTree(q));
    SelectionReads("t0", ScopeColumns(q.keys), q.filter, f);
    ExecutedReads(q, None);
    var ps := MapValues(f, b.parameters);
    Reads(9, b.command, ps, MapTree(f, t), [], []);
    assert b.command + [] == b.command && ps + [] == ps;
  }

  lemma FirstPageHolds(q: Query, row: Row)
    requires ValidQuery(q) && TextsAreCells(row)
    ensures Executed(q, None).Got?
    ensures Holds(Executed(q, None).node, row) == True <==> Matches(q, row)
  {
    FirstPageReads(q);
    if q.filter.Some? { FilterMeans(q.filter.value, row, Bindings(q)); }
    InScopeIsBelongs(row, q.context, "t0", q.keys);
    SelectionHolds(row, q.context, "t0", ScopeColumns(q.keys), FilterTree(q));
  }

  lemma FirstPageSelects(q: Query, table: Table)
    requires ValidQuery(q) && Faithful(q, table)
    ensures Selected(q, table, None) == Matching(q, table)
  {
    forall k | k in table
      ensures Executed(q, None).Got?
      ensures Holds(Executed(q, None).node, table[k]) == True <==> Matches(q, table[k])
    {
      FirstPageHolds(q, table[k]);
    }
  }

  lemma LaterPageHolds(q: Query, row: Row, cursor: seq<Value>, c: Key, k: Key)
    requires ValidQuery(q) && TextsAreCells(row) && k == Meanings(SortedBy(q), row, Bindings(q))
    requires |c| == |cursor| == |k| == |q.order| && MeansKey(q, row, cursor, c) && AllBind(q.context, Where(q, Some(cursor)).parameters)
    ensures Executed(q, Some(cursor)).Got?
    ensures Holds(Executed(q, Some(cursor)).node, row) == True <==> Matches(q, row) && Before(SortsOf(q.order), c, k)
  {
    ExecutedReads(q, Some(cursor));
    PageStaysInScope(q.targets, q.terms, q.order, q.keys, q.filter, cursor, q.context, row, c, k);
  }

  /** A cursor this table can be asked about. */
  ghost predicate Askable(q: Query, table: Table, codec: CursorCodec, cursor: Option<Key>)
    requires ValidTargets(q.targets)
  {
    Faithful(q, table) && (cursor.Some? ==> Carries(q, table, codec, cursor.value))
  }

  lemma NextPageHolds(q: Query, table: Table, codec: CursorCodec, cursor: Key, k: Key)
    requires ValidQuery(q) && Faithful(q, table) && Carries(q, table, codec, cursor) && k in table
    ensures Executed(q, Some(codec(cursor))).Got? && |k| == |q.order|
    ensures Holds(Executed(q, Some(codec(cursor))).node, table[k]) == True <==> Matches(q, table[k]) && Before(SortsOf(q.order), cursor, k)
  {
    LaterPageHolds(q, table[k], codec(cursor), cursor, k);
  }

  lemma MatchingKeys(q: Query, table: Table)
    requires ValidTargets(q.targets) && Faithful(q, table)
    ensures AllKeys(SortsOf(q.order), Matching(q, table))
  {
  }

  lemma NextPageSelects(q: Query, table: Table, codec: CursorCodec, cursor: Key)
    requires ValidQuery(q) && Faithful(q, table) && Carries(q, table, codec, cursor)
    ensures AllKeys(SortsOf(q.order), Matching(q, table))
    ensures Selected(q, table, Some(codec(cursor))) == Pagination.Later(SortsOf(q.order), Matching(q, table), Some(cursor))
  {
    MatchingKeys(q, table);
    var selected, later := Selected(q, table, Some(codec(cursor))), Pagination.Later(SortsOf(q.order), Matching(q, table), Some(cursor));
    forall k ensures k in selected <==> k in later {
      if k in table { NextPageHolds(q, table, codec, cursor, k); }
    }
  }

  /** The executed text of a page is true of exactly the matching rows after the cursor. */
  lemma PageSelects(q: Query, table: Table, codec: CursorCodec, cursor: Option<Key>)
    requires ValidQuery(q) && Askable(q, table, codec, cursor)
    ensures AllKeys(SortsOf(q.order), Matching(q, table))
    ensures Selected(q, table, Encoded(codec, cursor)) == Pagination.Later(SortsOf(q.order), Matching(q, table), cursor)
  {
    if cursor.None? {
      FirstPageSelects(q, table);
    } else {
      NextPageSelects(q, table, codec, cursor.value);
    }
  }

  // --- Scans ---

  /** What ORDER BY and LIMIT size + 1 return of some rows, normalised. */
  ghost function Cut(sorts: seq<Sort>, keys: set<Key>, size: nat): (page: Page)
    requires AllKeys(sorts, keys)
    ensures page.cursor.Some? ==> page.cursor.value in keys
  {
    var found := Listing(sorts, keys);
    var page := Normalized(found[..Pagination.Min(|found|, size + 1)], size);
    assert forall k :: k in page.rows ==> k in found;
    page
  }

  ghost function ExecutedPage(q: Query, table: Table, codec: CursorCodec, cursor: Option<Key>, size: nat): (page: Page)
    requires ValidQuery(q) && Askable(q, table, codec, cursor)
    ensures page.cursor.Some? ==> page.cursor.value in table
  {
    PageSelects(q, table, codec, cursor);
    Cut(SortsOf(q.order), Selected(q, table, Encoded(codec, cursor)), size)
  }

  lemma ExecutedPageIsPage(q: Query, table: Table, codec: CursorCodec, cursor: Option<Key>, size: nat)
    requires ValidQuery(q) && Askable(q, table, codec, cursor) && size > 0
    ensures AllKeys(SortsOf(q.order), Matching(q, table))
    ensures ExecutedPage(q, table, codec, cursor, size) == PageOf(SortsOf(q.order), Matching(q, table), cursor, size)
  {
    PageSelects(q, table, codec, cursor);
  }

  /** The key is in some state. */
  ghost predicate Seen(tables: seq<Table>, k: Key) { exists i :: 0 <= i < |tables| && k in tables[i] }

  /** Every state is faithful, and every key of one can be asked about in all. */
  ghost predicate FaithfulTables(q: Query, tables: seq<Table>, codec: CursorCodec)
    requires ValidTargets(q.targets)
  {
    forall i :: 0 <= i < |tables| ==> Faithful(q, tables[i]) && forall c :: Seen(tables, c) ==> Carries(q, tables[i], codec, c)
  }

  lemma FewerTables(q: Query, tables: seq<Table>, codec: CursorCodec, n: nat)
    requires ValidTargets(q.targets) && FaithfulTables(q, tables, codec) && n <= |tables|
    ensures FaithfulTables(q, tables[..n], codec)
    ensures forall c :: Seen(tables[..n], c) ==> Seen(tables, c)
  {
    forall c | Seen(tables[..n], c) ensures Seen(tables, c) {
      var i :| 0 <= i < n && c in tables[..n][i];
      assert c in tables[i];
    }
  }

  /** One executed query per table state, each from the cursor of the page before. */
  ghost function QueryScan(q: Query, tables: seq<Table>, codec: CursorCodec, size: nat): (s: Scan)
    requires ValidQuery(q) && FaithfulTables(q, tables, codec) && tables != [] && size > 0
    ensures s.cursor.Some? ==> Seen(tables, s.cursor.value)
  {
    var n := |tables| - 1;
    if n == 0 then
      var page := ExecutedPage(q, tables[0], codec, None, size);
      Scan(page.rows, page.cursor)
    else
      FewerTables(q, tables, codec, n);
      var before := QueryScan(q, tables[..n], codec, size);
      if before.cursor.None? then before
      else
        var page := ExecutedPage(q, tables[n], codec, before.cursor, size);
        Scan(before.rows + page.rows, page.cursor)
  }

  ghost function MatchingStates(q: Query, tables: seq<Table>): (states: seq<set<Key>>)
    ensures |states| == |tables| && forall i :: 0 <= i < |tables| ==> states[i] == Matching(q, tables[i])
  {
    if tables == [] then [] else MatchingStates(q, tables[..|tables| - 1]) + [Matching(q, tables[|tables| - 1])]
  }

  lemma MatchingStatesValid(q: Query, tables: seq<Table>, codec: CursorCodec)
    requires ValidQuery(q) && FaithfulTables(q, tables, codec)
    ensures States(SortsOf(q.order), MatchingStates(q, tables))
  {
    forall i | 0 <= i < |tables| ensures AllKeys(SortsOf(q.order), MatchingStates(q, tables)[i]) {
      assert Faithful(q, tables[i]);
    }
  }

  /** The scan the compiled queries perform is the scan over the matching rows. */
  lemma {:induction false} QueryScanIsScan(q: Query, tables: seq<Table>, codec: CursorCodec, size: nat)
    requires ValidQuery(q) && FaithfulTables(q, tables, codec) && tables != [] && size > 0
    ensures States(SortsOf(q.order), MatchingStates(q, tables))
    ensures QueryScan(q, tables, codec, size) == Scanned(SortsOf(q.order), MatchingStates(q, tables), size)
    decreases |tables|
  {
    MatchingStatesValid(q, tables, codec);
    var n := |tables| - 1;
    if n == 0 {
      ExecutedPageIsPage(q, tables[0], codec, None, size);
    } else {
      FewerTables(q, tables, codec, n);
      QueryScanIsScan(q, tables[..n], codec, size);
      var before := QueryScan(q, tables[..n], codec, size);
      assert MatchingStates(q, tables)[..n] == MatchingStates(q, tables[..n]);
      if before.cursor.Some? { ExecutedPageIsPage(q, tables[n], codec, before.cursor, size); }
    }
  }

  /** No query ran after the scan was finished. */
  ghost predicate QueriesUseAll(q: Query, tables: seq<Table>, codec: CursorCodec, size: nat)
    requires ValidQuery(q) && FaithfulTables(q, tables, codec) && tables != [] && size > 0
  {
    FewerTables(q, tables, codec, |tables| - 1);
    |tables| == 1 || QueryScan(q, tables[..|tables| - 1], codec, size).cursor.Some?
  }

  ghost predicate ExactlyOnce(rows: seq<Key>, k: Key) {
    exists i :: 0 <= i < |rows| && rows[i] == k && forall j :: 0 <= j < |rows| && rows[j] == k ==> j == i
  }

  /** The record with this key is there and matches. */
  ghost predicate MatchesIn(q: Query, table: Table, k: Key) { k in table && Matches(q, table[k]) }

  /**
   A finished scan by queries, over any changes of the table between pages: a record that kept its key and matched
   throughout is returned exactly once, and whatever was returned was in the caller's scope and matched at some page.
   */
  lemma FinishedQueriesReturnMatchingRowsOnce(q: Query, tables: seq<Table>, codec: CursorCodec, size: nat, k: Key)
    requires ValidQuery(q) && FaithfulTables(q, tables, codec) && tables != [] && size > 0
    requires QueriesUseAll(q, tables, codec, size) && QueryScan(q, tables, codec, size).cursor.None?
    ensures var rows := QueryScan(q, tables, codec, size).rows;
      && (k in rows ==> exists i :: 0 <= i < |tables| && MatchesIn(q, tables[i], k))
      && ((forall i :: 0 <= i < |tables| ==> MatchesIn(q, tables[i], k)) ==> ExactlyOnce(rows, k))
  {
    QueryScanIsScan(q, tables, codec, size);
    AllUsed(q, tables, codec, size);
    ScanReturnsOnce(SortsOf(q.order), MatchingStates(q, tables), size, k);
    StatesMatch(q, tables, k);
  }

  lemma StatesMatch(q: Query, tables: seq<Table>, k: Key)
    ensures (exists i :: 0 <= i < |tables| && k in MatchingStates(q, tables)[i]) ==> exists i :: 0 <= i < |tables| && MatchesIn(q, tables[i], k)
    ensures (forall i :: 0 <= i < |tables| ==> MatchesIn(q, tables[i], k)) ==> forall i :: 0 <= i < |tables| ==> k in MatchingStates(q, tables)[i]
  {
    var states := MatchingStates(q, tables);
    forall i | 0 <= i < |tables| ensures k in states[i] <==> MatchesIn(q, tables[i], k) {}
    if exists i :: 0 <= i < |tables| && k in states[i] {
      var i :| 0 <= i < |tables| && k in states[i];
      assert MatchesIn(q, tables[i], k);
    }
  }

  lemma ScanReturnsOnce(sorts: seq<Sort>, states: seq<set<Key>>, size: nat, k: Key)
    requires States(sorts, states) && states != [] && size > 0 && UsesAll(sorts, states, size) && Scanned(sorts, states, size).cursor.None?
    ensures k in Scanned(sorts, states, size).rows ==> exists i :: 0 <= i < |states| && k in states[i]
    ensures (forall i :: 0 <= i < |states| ==> k in states[i]) ==> ExactlyOnce(Scanned(sorts, states, size).rows, k)
  {
    if k in Scanned(sorts, states, size).rows { ReturnedRowsExisted(sorts, states, size, k); }
    if forall i :: 0 <= i < |states| ==> k in states[i] { FinishedScanReturnsStableRowsOnce(sorts, states, size, k); }
  }

  lemma AllUsed(q: Query, tables: seq<Table>, codec: CursorCodec, size: nat)
    requires ValidQuery(q) && FaithfulTables(q, tables, codec) && tables != [] && size > 0 && QueriesUseAll(q, tables, codec, size)
    ensures States(SortsOf(q.order), MatchingStates(q, tables)) && UsesAll(SortsOf(q.order), MatchingStates(q, tables), size)
  {
    MatchingStatesValid(q, tables, codec);
    var n := |tables| - 1;
    if n > 0 {
      FewerTables(q, tables, codec, n);
      QueryScanIsScan(q, tables[..n], codec, size);
      assert MatchingStates(q, tables)[..n] == MatchingStates(q, tables[..n]);
    }
  }
}
