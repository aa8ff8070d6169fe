/**
 Live-keyset pagination: each page reads the table as it is at that moment, and the cursor is the key of the last row
 returned. A table state is the set of keys of the rows that match the filter (distinct rows have distinct keys).
 */
module Pagination {
  import opened Wrappers
  import opened SortKeys

  datatype Page = Page(rows: seq<Key>, cursor: Option<Key>)

  function Min(a: nat, b: nat): nat { if a < b then a else b }

  /** `normalize_result`: one row beyond the page size means there is more; the cursor is the last returned key. */
  method NormalizeResult(raw: seq<Key>, size: nat) returns (page: Page)
    ensures page.rows == raw[..Min(|raw|, size)]
    ensures page.cursor.Some? <==> size > 0 && |raw| > size
    ensures page.cursor.Some? ==> page.rows != [] && page.cursor.value == page.rows[|page.rows| - 1]
    ensures page == Normalized(raw, size)
  {
    var more := |raw| > size;
    var rows := raw[..Min(|raw|, size)];
    var cursor: Option<Key> := None;
    if more && rows != [] { cursor := Some(rows[|rows| - 1]); }
    return Page(rows, cursor);
  }

  function Normalized(raw: seq<Key>, size: nat): Page {
    var rows := raw[..Min(|raw|, size)];
    Page(rows, if |raw| > size && rows != [] then Some(rows[|rows| - 1]) else None)
  }

  /** The rows strictly after the cursor; all of them on the first page. */
  ghost function Later(sorts: seq<Sort>, state: set<Key>, cursor: Option<Key>): set<Key>
    requires AllKeys(sorts, state) && (cursor.Some? ==> |cursor.value| == |sorts|)
  {
    set k | k in state && (cursor.None? || Before(sorts, cursor.value, k))
  }

  /** What ORDER BY and LIMIT size + 1 return, normalised. */
  ghost function PageOf(sorts: seq<Sort>, state: set<Key>, cursor: Option<Key>, size: nat): Page
    requires AllKeys(sorts, state) && (cursor.Some? ==> |cursor.value| == |sorts|)
  {
    var found := Listing(sorts, Later(sorts, state, cursor));
    Normalized(found[..Min(|found|, size + 1)], size)
  }

  /** The rows of all pages so far; no cursor means the scan is finished. */
  datatype Scan = Scan(rows: seq<Key>, cursor: Option<Key>)

  ghost predicate States(sorts: seq<Sort>, states: seq<set<Key>>) {
    forall i :: 0 <= i < |states| ==> AllKeys(sorts, states[i])
  }

  /** One page per state, each from the cursor before it; a finished scan asks no more. */
  ghost function Scanned(sorts: seq<Sort>, states: seq<set<Key>>, size: nat): (s: Scan)
    requires States(sorts, states) && states != [] && size > 0
    ensures s.cursor.Some? ==> |s.cursor.value| == |sorts|
  {
    var n := |states| - 1;
    assert AllKeys(sorts, states[n]);
    if n == 0 then
      var page := PageOf(sorts, states[0], None, size);
      PageFacts(sorts, states[0], None, size);
      Scan(page.rows, page.cursor)
    else
      var before := Scanned(sorts, states[..n], size);
      if before.cursor.None? then before
      else
        var page := PageOf(sorts, states[n], before.cursor, size);
        PageFacts(sorts, states[n], before.cursor, size);
        Scan(before.rows + page.rows, page.cursor)
  }

  /** A page lists the first rows after the cursor: nothing between the cursor and the last row is left out. */
  ghost predicate GoodPage(sorts: seq<Sort>, state: set<Key>, cursor: Option<Key>, size: nat, page: Page)
    requires AllKeys(sorts, state) && (cursor.Some? ==> |cursor.value| == |sorts|)
  {
    var later := Later(sorts, state, cursor);
    && Increasing(sorts, page.rows)
    && (forall k :: k in page.rows ==> k in later)
    && (page.cursor.None? ==> forall k :: k in later ==> k in page.rows)
    && (page.cursor.Some? ==>
          && |page.rows| == size > 0
          && page.cursor.value == page.rows[size - 1]
          && |page.cursor.value| == |sorts|
          && (forall k :: k in later && !Before(sorts, page.cursor.value, k) ==> k in page.rows)
          && (exists k :: k in later && Before(sorts, page.cursor.value, k)))
  }

  lemma PrefixIncreases(sorts: seq<Sort>, s: seq<Key>, n: nat)
    requires Increasing(sorts, s) && n <= |s|
    ensures Increasing(sorts, s[..n])
  {
    forall k | k in s[..n] ensures |k| == |sorts| { assert k in s; }
  }

  lemma PageFacts(sorts: seq<Sort>, state: set<Key>, cursor: Option<Key>, size: nat)
    requires AllKeys(sorts, state) && (cursor.Some? ==> |cursor.value| == |sorts|) && size > 0
    ensures GoodPage(sorts, state, cursor, size, PageOf(sorts, state, cursor, size))
  {
    var found := Listing(sorts, Later(sorts, state, cursor));
    if |found| > size { FullPage(sorts, state, cursor, size, found); } else { LastPartPage(sorts, state, cursor, size, found); }
  }

  lemma LastPartPage(sorts: seq<Sort>, state: set<Key>, cursor: Option<Key>, size: nat, found: seq<Key>)
    requires AllKeys(sorts, state) && (cursor.Some? ==> |cursor.value| == |sorts|)
    requires Lists(sorts, Later(sorts, state, cursor), found) && |found| <= size
    ensures GoodPage(sorts, state, cursor, size, Normalized(found[..Min(|found|, size + 1)], size))
  {
    assert found[..|found|] == found;
  }

  lemma FullPage(sorts: seq<Sort>, state: set<Key>, cursor: Option<Key>, size: nat, found: seq<Key>)
    requires AllKeys(sorts, state) && (cursor.Some? ==> |cursor.value| == |sorts|)
    requires Lists(sorts, Later(sorts, state, cursor), found) && 0 < size < |found|
    ensures GoodPage(sorts, state, cursor, size, Normalized(found[..Min(|found|, size + 1)], size))
  {
    var rows := found[..size];
    assert found[..size + 1][..size] == rows;
    assert Normalized(found[..Min(|found|, size + 1)], size) == Page(rows, Some(found[size - 1]));
    PrefixIncreases(sorts, found, size);
    forall k | k in rows ensures k in Later(sorts, state, cursor) { assert k in found; }
    CutFacts(sorts, Later(sorts, state, cursor), found, size);
  }

  lemma CutFacts(sorts: seq<Sort>, later: set<Key>, found: seq<Key>, size: nat)
    requires AllKeys(sorts, later) && Lists(sorts, later, found) && 0 < size < |found|
    ensures |found[size - 1]| == |sorts|
    ensures forall k :: k in later && !Before(sorts, found[size - 1], k) ==> k in found[..size]
    ensures found[size] in later && Before(sorts, found[size - 1], found[size])
  {
    assert found[size - 1] in found && found[size] in found;
    forall k | k in later && !Before(sorts, found[size - 1], k) ensures k in found[..size] {
      assert k in found;
      var i :| 0 <= i < |found| && found[i] == k;
      assert i < size;
      assert found[..size][i] == k;
    }
  }

  /** The scan before the last state's page. */
  ghost function Previous(sorts: seq<Sort>, states: seq<set<Key>>, size: nat): (s: Scan)
    requires States(sorts, states) && states != [] && size > 0
    ensures s.cursor.Some? ==> |s.cursor.value| == |sorts|
  {
    if |states| == 1 then Scan([], None) else Scanned(sorts, states[..|states| - 1], size)
  }

  /** The last state's page and what it adds. */
  lemma LastPage(sorts: seq<Sort>, states: seq<set<Key>>, size: nat) returns (page: Page)
    requires States(sorts, states) && states != [] && size > 0 && UsesAll(sorts, states, size)
    ensures AllKeys(sorts, states[|states| - 1])
    ensures GoodPage(sorts, states[|states| - 1], Previous(sorts, states, size).cursor, size, page)
    ensures Scanned(sorts, states, size) == Scan(Previous(sorts, states, size).rows + page.rows, page.cursor)
  {
    var state, cursor := states[|states| - 1], Previous(sorts, states, size).cursor;
    assert AllKeys(sorts, states[|states| - 1]);
    page := PageOf(sorts, state, cursor, size);
    PageFacts(sorts, state, cursor, size);
  }

  /** The scan used every state given: it was not finished before the last. */
  ghost predicate UsesAll(sorts: seq<Sort>, states: seq<set<Key>>, size: nat)
    requires States(sorts, states) && states != [] && size > 0
  {
    |states| == 1 || Scanned(sorts, states[..|states| - 1], size).cursor.Some?
  }

  /** An unfinished scan was never finished earlier. */
  lemma UnfinishedUsesAll(sorts: seq<Sort>, states: seq<set<Key>>, size: nat)
    requires States(sorts, states) && states != [] && size > 0 && Scanned(sorts, states, size).cursor.Some?
    ensures UsesAll(sorts, states, size)
  {
  }

  // --- Any sequence of table states ---

  /** What every unfinished or finished scan keeps. */
  ghost predicate GoodScan(sorts: seq<Sort>, s: Scan) {
    && Increasing(sorts, s.rows)
    && (s.cursor.Some? ==> s.rows != [] && s.cursor.value == s.rows[|s.rows| - 1])
  }

  lemma AllBefore(sorts: seq<Sort>, rows: seq<Key>, last: Key, k: Key)
    requires Increasing(sorts, rows) && rows != [] && last == rows[|rows| - 1] && |k| == |last| == |sorts| && Before(sorts, last, k)
    ensures forall i :: 0 <= i < |rows| ==> |rows[i]| == |sorts| && Before(sorts, rows[i], k)
  {
    forall i | 0 <= i < |rows| ensures |rows[i]| == |sorts| && Before(sorts, rows[i], k) {
      assert rows[i] in rows;
      if i < |rows| - 1 { BeforeIsTransitive(sorts, rows[i], last, k); }
    }
  }

  lemma Continued(sorts: seq<Sort>, rows: seq<Key>, cursor: Key, more: seq<Key>)
    requires Increasing(sorts, rows) && rows != [] && cursor == rows[|rows| - 1] && Increasing(sorts, more)
    requires forall k :: k in more ==> |k| == |cursor| == |sorts| && Before(sorts, cursor, k)
    ensures Increasing(sorts, rows + more)
  {
    var all := rows + more;
    forall i, j | 0 <= i < j < |all| ensures |all[i]| == |all[j]| == |sorts| && Before(sorts, all[i], all[j]) {
      if j >= |rows| {
        assert more[j - |rows|] in more;
        AllBefore(sorts, rows, cursor, more[j - |rows|]);
        if i >= |rows| { assert more[i - |rows|] in more; }
      } else {
        assert rows[i] in rows && rows[j] in rows;
      }
    }
  }

  /** Returned sort keys strictly increase over the whole scan, whatever happens to the table between pages. */
  lemma {:induction false} ScanIncreases(sorts: seq<Sort>, states: seq<set<Key>>, size: nat)
    requires States(sorts, states) && states != [] && size > 0
    ensures GoodScan(sorts, Scanned(sorts, states, size))
  {
    var n := |states| - 1;
    if n > 0 { ScanIncreases(sorts, states[..n], size); }
    if UsesAll(sorts, states, size) {
      var page := LastPage(sorts, states, size);
      PageIncreases(sorts, Previous(sorts, states, size), states[n], size, page);
    }
  }

  lemma PageIncreases(sorts: seq<Sort>, before: Scan, state: set<Key>, size: nat, page: Page)
    requires GoodScan(sorts, before) && (before.cursor.Some? ==> |before.cursor.value| == |sorts|) && AllKeys(sorts, state)
    requires before.cursor.None? ==> before.rows == []
    requires GoodPage(sorts, state, before.cursor, size, page)
    ensures GoodScan(sorts, Scan(before.rows + page.rows, page.cursor))
  {
    if before.cursor.Some? {
      Continued(sorts, before.rows, before.cursor.value, page.rows);
    } else {
      assert before.rows + page.rows == page.rows;
    }
  }

  /** Up to the cursor, a scan has returned every row that was there all along; once finished, all of them. */
  lemma {:induction false} StableRowsReturned(sorts: seq<Sort>, states: seq<set<Key>>, size: nat, k: Key)
    requires States(sorts, states) && states != [] && size > 0 && UsesAll(sorts, states, size)
    requires forall i :: 0 <= i < |states| ==> k in states[i]
    ensures |k| == |sorts|
    ensures var s := Scanned(sorts, states, size); s.cursor.None? || !Before(sorts, s.cursor.value, k) ==> k in s.rows
  {
    var n := |states| - 1;
    var page := LastPage(sorts, states, size);
    assert k in states[n];
    if n > 0 {
      UnfinishedUsesAll(sorts, states[..n], size);
      StableRowsReturned(sorts, states[..n], size, k);
    }
  }

  /** Every returned row was in the state its page read. */
  lemma {:induction false} ReturnedRowsExisted(sorts: seq<Sort>, states: seq<set<Key>>, size: nat, k: Key)
    requires States(sorts, states) && states != [] && size > 0 && k in Scanned(sorts, states, size).rows
    ensures exists i :: 0 <= i < |states| && k in states[i]
  {
    var n := |states| - 1;
    if n > 0 && k in Previous(sorts, states, size).rows {
      ReturnedRowsExisted(sorts, states[..n], size, k);
      var i :| 0 <= i < n && k in states[..n][i];
      assert k in states[i];
    } else if UsesAll(sorts, states, size) {
      var page := LastPage(sorts, states, size);
    }
  }

  lemma OnceInIncreasing(sorts: seq<Sort>, s: seq<Key>, i: nat, j: nat)
    requires Increasing(sorts, s) && i < |s| && j < |s| && s[i] == s[j]
    ensures i == j
  {
    assert s[i] in s;
    BeforeIsIrreflexive(sorts, s[i]);
  }

  /**
   Live pagination: for any states seen by successive pages, a finished scan returns every row present with an
   unchanged key in all of them exactly once, and no row twice.
   */
  lemma FinishedScanReturnsStableRowsOnce(sorts: seq<Sort>, states: seq<set<Key>>, size: nat, k: Key)
    requires States(sorts, states) && states != [] && size > 0 && UsesAll(sorts, states, size)
    requires Scanned(sorts, states, size).cursor.None?
    requires forall i :: 0 <= i < |states| ==> k in states[i]
    ensures var rows := Scanned(sorts, states, size).rows;
      exists i :: 0 <= i < |rows| && rows[i] == k && forall j :: 0 <= j < |rows| && rows[j] == k ==> j == i
  {
    var rows := Scanned(sorts, states, size).rows;
    StableRowsReturned(sorts, states, size, k);
    ScanIncreases(sorts, states, size);
    var i :| 0 <= i < |rows| && rows[i] == k;
    forall j | 0 <= j < |rows| && rows[j] == k ensures j == i { OnceInIncreasing(sorts, rows, i, j); }
  }

  // --- An unchanging table ---

  function Times(n: nat, size: nat): nat { if n == 0 then 0 else Times(n - 1, size) + size }

  ghost predicate Unchanging(state: set<Key>, states: seq<set<Key>>) {
    forall i :: 0 <= i < |states| ==> states[i] == state
  }

  lemma {:induction false} ElementsOf(s: seq<Key>, sorts: seq<Sort>, state: set<Key>)
    requires Increasing(sorts, s) && forall k :: k in s ==> k in state
    ensures |s| <= |state|
  {
    if s != [] {
      var n := |s| - 1;
      var last := s[n];
      assert last in s;
      PrefixIncreases(sorts, s, n);
      forall k | k in s[..n] ensures k in state - {last} {
        var i :| 0 <= i < n && s[i] == k;
        if k == last { OnceInIncreasing(sorts, s, i, n); }
      }
      ElementsOf(s[..n], sorts, state - {last});
    }
  }

  /** Every page before the last is full. */
  lemma {:induction false} FullPages(sorts: seq<Sort>, states: seq<set<Key>>, size: nat)
    requires States(sorts, states) && states != [] && size > 0 && Scanned(sorts, states, size).cursor.Some?
    ensures |Scanned(sorts, states, size).rows| == Times(|states|, size)
  {
    UnfinishedUsesAll(sorts, states, size);
    var page := LastPage(sorts, states, size);
    if |states| > 1 { FullPages(sorts, states[..|states| - 1], size); }
  }

  /** An unfinished scan has at least one row still to return. */
  lemma UnfinishedHasMore(sorts: seq<Sort>, state: set<Key>, states: seq<set<Key>>, size: nat)
    requires States(sorts, states) && states != [] && size > 0 && Unchanging(state, states)
    requires Scanned(sorts, states, size).cursor.Some?
    ensures Times(|states|, size) < |state|
  {
    var s := Scanned(sorts, states, size);
    FullPages(sorts, states, size);
    ScanIncreases(sorts, states, size);
    UnfinishedUsesAll(sorts, states, size);
    var page := LastPage(sorts, states, size);
    var k :| k in state && |k| == |sorts| && Before(sorts, s.cursor.value, k);
    forall x | x in s.rows ensures x in state {
      ReturnedRowsExisted(sorts, states, size, x);
    }
    OneMore(sorts, state, s, k);
  }

  lemma OneMore(sorts: seq<Sort>, state: set<Key>, s: Scan, k: Key)
    requires GoodScan(sorts, s) && s.cursor.Some? && |k| == |s.cursor.value| == |sorts| && Before(sorts, s.cursor.value, k)
    requires k in state && forall x :: x in s.rows ==> x in state
    ensures |s.rows| < |state|
  {
    Continued(sorts, s.rows, s.cursor.value, [k]);
    ElementsOf(s.rows + [k], sorts, state);
  }

  /** On an unchanging table the pages concatenate to the full sorted result, and the scan ends with the last full page. */
  lemma UnchangingTableIsListed(sorts: seq<Sort>, state: set<Key>, states: seq<set<Key>>, size: nat)
    requires AllKeys(sorts, state) && States(sorts, states) && states != [] && size > 0
    requires Unchanging(state, states) && UsesAll(sorts, states, size)
    ensures var s := Scanned(sorts, states, size);
      && (s.cursor.None? ==> s.rows == Listing(sorts, state))
      && (|state| <= Times(|states|, size) ==> s.cursor.None?)
  {
    var s := Scanned(sorts, states, size);
    if s.cursor.Some? {
      UnfinishedHasMore(sorts, state, states, size);
    } else {
      ScanIncreases(sorts, states, size);
      forall k ensures k in s.rows <==> k in Listing(sorts, state) {
        if k in s.rows {
          ReturnedRowsExisted(sorts, states, size, k);
          var i :| 0 <= i < |states| && k in states[i];
        }
        if k in state { StableRowsReturned(sorts, states, size, k); }
      }
      IncreasingIsUnique(sorts, s.rows, Listing(sorts, state));
    }
  }

  lemma {:induction false} TimesGrows(n: nat, size: nat)
    requires size > 0
    ensures Times(n, size) >= n
  {
    if n > 0 { TimesGrows(n - 1, size); }
  }

  /** The scan of an unchanging table ends: no more pages than it has rows, one if it has none. */
  lemma ScanTerminates(sorts: seq<Sort>, state: set<Key>, states: seq<set<Key>>, size: nat)
    requires AllKeys(sorts, state) && States(sorts, states) && states != [] && size > 0 && Unchanging(state, states)
    requires |states| >= |state|
    ensures Scanned(sorts, states, size).cursor.None?
  {
    TimesGrows(|states|, size);
    if Scanned(sorts, states, size).cursor.Some? { UnfinishedHasMore(sorts, state, states, size); }
  }
}
