/**
 The receiving half of a projection: versioned upserts and their reduction. Delivery is at least once and in any
 order; what is finally visible depends only on which source versions were delivered.
 */
module VersionedTarget {
  import Sets

  /** SHA-256 hex digests have one length, so their text order is the order of the numbers they spell. */
  type Digest = nat

  datatype Row = Row(id: Digest, sourceKey: Digest, sourceVersion: int, deleted: bool, document: string)

  /** What the source holds at one version: its own tombstone flag, how it changed, and its document. */
  datatype Content = Content(flagged: bool, removed: bool, document: string)

  datatype Delivery = Delivery(sourceKey: Digest, version: int)

  type Target = map<Digest, Row>

  /** `digest` of a key and version, assumed free of collisions where that matters. */
  ghost predicate Injective(digest: (Digest, int) -> Digest) {
    forall k, v, k', v' :: digest(k, v) == digest(k', v') ==> k == k' && v == v'
  }

  /** The row one delivery writes; its content is a function of the source version. */
  function Project(digest: (Digest, int) -> Digest, content: Delivery -> Content, d: Delivery): Row {
    var c := content(d);
    Row(digest(d.sourceKey, d.version), d.sourceKey, d.version, c.flagged || c.removed, c.document)
  }

  /** `put(mode="upsert")` by id. */
  function Deliver(digest: (Digest, int) -> Digest, content: Delivery -> Content, target: Target, d: Delivery): Target {
    var row := Project(digest, content, d);
    target[row.id := row]
  }

  function DeliverAll(digest: (Digest, int) -> Digest, content: Delivery -> Content, ds: seq<Delivery>): Target {
    if ds == [] then map[]
    else Deliver(digest, content, DeliverAll(digest, content, ds[..|ds| - 1]), ds[|ds| - 1])
  }

  /** What a delivered version looks like in the target: gone if the source says so or removed it. */
  function Copy(digest: (Digest, int) -> Digest, content: Delivery -> Content, d: Delivery): (r: Row)
    ensures r.deleted <==> content(d).flagged || content(d).removed
    ensures r.id == digest(d.sourceKey, d.version) && r.sourceKey == d.sourceKey && r.sourceVersion == d.version && r.document == content(d).document
  {
    Row(digest(d.sourceKey, d.version), d.sourceKey, d.version, content(d).flagged || content(d).removed, content(d).document)
  }

  /** The target holds exactly one row per delivered (source key, version), with that version's content. */
  lemma {:induction false} TargetIsDeliveredSet(digest: (Digest, int) -> Digest, content: Delivery -> Content, ds: seq<Delivery>)
    requires Injective(digest)
    ensures var t := DeliverAll(digest, content, ds);
      && (forall id :: id in t <==> exists d :: d in ds && digest(d.sourceKey, d.version) == id)
      && (forall d :: d in ds ==> digest(d.sourceKey, d.version) in t && t[digest(d.sourceKey, d.version)] == Copy(digest, content, d))
  {
    if ds != [] {
      var n := |ds| - 1;
      TargetIsDeliveredSet(digest, content, ds[..n]);
      var before, t := DeliverAll(digest, content, ds[..n]), DeliverAll(digest, content, ds);
      var last := ds[n];
      assert last in ds && forall d :: d in ds <==> d in ds[..n] || d == last;
      forall id ensures id in t <==> exists d :: d in ds && digest(d.sourceKey, d.version) == id {
        if id in t && id in before {
          var d :| d in ds[..n] && digest(d.sourceKey, d.version) == id;
          assert d in ds;
        }
      }
      forall d | d in ds
        ensures digest(d.sourceKey, d.version) in t && t[digest(d.sourceKey, d.version)] == Copy(digest, content, d)
      {
      }
    }
  }

  // --- Reading the latest version of each source ---

  /** No row of the same source has a higher version. */
  predicate Newest(rows: seq<Row>, r: Row) {
    r in rows && forall x :: x in rows && x.sourceKey == r.sourceKey ==> x.sourceVersion <= r.sourceVersion
  }

  /** The row at `i` is the first of the highest version of its source. */
  predicate FirstNewestAt(rows: seq<Row>, i: int) {
    && 0 <= i < |rows| && Newest(rows, rows[i])
    && forall j :: 0 <= j < i && rows[j].sourceKey == rows[i].sourceKey ==> rows[j].sourceVersion < rows[i].sourceVersion
  }

  ghost predicate FirstNewest(rows: seq<Row>, r: Row) { exists i :: FirstNewestAt(rows, i) && rows[i] == r }

  predicate Visible(rows: seq<Row>, matches: Row -> bool, r: Row) {
    Newest(rows, r) && !r.deleted && matches(r)
  }

  /** At most one row per (source key, version), as the target table guarantees. */
  predicate OnePerVersion(rows: seq<Row>) {
    forall a, b :: a in rows && b in rows && a.sourceKey == b.sourceKey && a.sourceVersion == b.sourceVersion ==> a == b
  }

  predicate SortedByKey(rows: seq<Row>) {
    forall i, j :: 0 <= i < j < |rows| ==> rows[i].sourceKey < rows[j].sourceKey
  }

  /** The dictionary after reading some rows: the first row of the highest version of every key. */
  ghost predicate Reduced(rows: seq<Row>, latest: map<Digest, Row>) {
    && (forall r :: r in rows ==> r.sourceKey in latest)
    && (forall k :: k in latest ==> latest[k].sourceKey == k && FirstNewest(rows, latest[k]))
  }

  lemma OneFirstNewest(rows: seq<Row>, a: Row, b: Row)
    requires FirstNewest(rows, a) && FirstNewest(rows, b) && a.sourceKey == b.sourceKey
    ensures a == b
  {
    var i :| FirstNewestAt(rows, i) && rows[i] == a;
    var j :| FirstNewestAt(rows, j) && rows[j] == b;
    assert a.sourceVersion == b.sourceVersion;
    assert i == j;
  }

  lemma FirstStays(rows: seq<Row>, row: Row, r: Row)
    requires FirstNewest(rows, r) && (row.sourceKey == r.sourceKey ==> row.sourceVersion <= r.sourceVersion)
    ensures FirstNewest(rows + [row], r)
  {
    var i :| FirstNewestAt(rows, i) && rows[i] == r;
    assert FirstNewestAt(rows + [row], i) && (rows + [row])[i] == r;
  }

  lemma LastIsFirst(rows: seq<Row>, row: Row)
    requires forall x :: x in rows && x.sourceKey == row.sourceKey ==> x.sourceVersion < row.sourceVersion
    ensures FirstNewest(rows + [row], row)
  {
    assert FirstNewestAt(rows + [row], |rows|) && (rows + [row])[|rows|] == row;
  }

  /** One more row keeps the dictionary, or replaces the entry of its source. */
  lemma ReducedPush(rows: seq<Row>, row: Row, latest: map<Digest, Row>)
    requires Reduced(rows, latest)
    ensures Reduced(rows + [row],
              if row.sourceKey !in latest || row.sourceVersion > latest[row.sourceKey].sourceVersion then latest[row.sourceKey := row] else latest)
  {
    var k := row.sourceKey;
    if k !in latest || row.sourceVersion > latest[k].sourceVersion {
      forall x | x in rows && x.sourceKey == k ensures x.sourceVersion < row.sourceVersion { assert Newest(rows, latest[k]); }
      LastIsFirst(rows, row);
      forall j | j in latest && j != k ensures FirstNewest(rows + [row], latest[j]) { FirstStays(rows, row, latest[j]); }
    } else {
      forall j | j in latest ensures FirstNewest(rows + [row], latest[j]) { FirstStays(rows, row, latest[j]); }
    }
  }

  method LatestVisible(rows: seq<Row>, matches: Row -> bool) returns (result: seq<Row>)
    ensures SortedByKey(result)
    ensures forall r :: r in result <==> FirstNewest(rows, r) && !r.deleted && matches(r)
    ensures forall r :: r in result ==> Visible(rows, matches, r)
    ensures OnePerVersion(rows) ==> forall r :: Visible(rows, matches, r) ==> r in result
  {
    var latest: map<Digest, Row> := map[];
    var i := 0;
    while i < |rows|
      invariant 0 <= i <= |rows|
      invariant Reduced(rows[..i], latest)
    {
      var row := rows[i];
      assert rows[..i + 1] == rows[..i] + [row];
      ReducedPush(rows[..i], row, latest);
      if row.sourceKey !in latest || row.sourceVersion > latest[row.sourceKey].sourceVersion {
        latest := latest[row.sourceKey := row];
      }
      i := i + 1;
    }
    assert rows[..i] == rows;
    result := InKeyOrder(latest, matches);
    forall r ensures r in result <==> FirstNewest(rows, r) && !r.deleted && matches(r) {
      if FirstNewest(rows, r) {
        assert r in rows;
        OneFirstNewest(rows, r, latest[r.sourceKey]);
      }
    }
  }

  /** `sorted(latest.items())` followed by the filter. */
  method InKeyOrder(latest: map<Digest, Row>, matches: Row -> bool) returns (result: seq<Row>)
    requires forall k :: k in latest ==> latest[k].sourceKey == k
    ensures SortedByKey(result)
    ensures forall r :: r in result <==> r.sourceKey in latest && latest[r.sourceKey] == r && !r.deleted && matches(r)
  {
    result := [];
    var keys := latest.Keys;
    while keys != {}
      invariant keys <= latest.Keys
      invariant SortedByKey(result)
      invariant forall r, k :: r in result && k in keys ==> r.sourceKey < k
      invariant forall r :: r in result <==>
        r.sourceKey in latest && r.sourceKey !in keys && latest[r.sourceKey] == r && !r.deleted && matches(r)
      decreases keys
    {
      var least := Least(keys);
      var row := latest[least];
      if !row.deleted && matches(row) { result := result + [row]; }
      keys := keys - {least};
    }
  }

  method Least(keys: set<Digest>) returns (least: Digest)
    requires keys != {}
    ensures least in keys && forall k :: k in keys ==> least <= k
  {
    least := Sets.Choose(keys);
    var rest := keys - {least};
    while rest != {}
      invariant rest <= keys && least in keys
      invariant forall k :: k in keys && k !in rest ==> least <= k
      decreases rest
    {
      var k := Sets.Choose(rest);
      if k < least { least := k; }
      rest := rest - {k};
    }
  }

  // --- Convergence ---

  lemma FirstIsSmallest(a: seq<Row>, r: Row)
    requires SortedByKey(a) && r in a
    ensures a[0].sourceKey <= r.sourceKey && (a[0].sourceKey == r.sourceKey ==> a[0] == r)
    ensures r in a[1..] <==> r != a[0]
  {
    var i :| 0 <= i < |a| && a[i] == r;
    if i > 0 { assert a[1..][i - 1] == r; }
  }

  /** A key-sorted sequence is determined by its elements. */
  lemma {:induction false} SortedIsUnique(a: seq<Row>, b: seq<Row>)
    requires SortedByKey(a) && SortedByKey(b)
    requires forall r :: r in a <==> r in b
    ensures a == b
  {
    assert a == [] <==> b == [] by {
      if a != [] { assert a[0] in b; }
      if b != [] { assert b[0] in a; }
    }
    if a != [] {
      FirstIsSmallest(a, b[0]);
      FirstIsSmallest(b, a[0]);
      forall r ensures r in a[1..] <==> r in b[1..] {
        if r in a { FirstIsSmallest(a, r); FirstIsSmallest(b, r); }
      }
      SortedIsUnique(a[1..], b[1..]);
      assert a == [a[0]] + a[1..] && b == [b[0]] + b[1..];
    }
  }

  /** A listing of a whole target, in whatever order the pages arrived. */
  ghost predicate Lists(rows: seq<Row>, t: Target) { forall r :: r in rows <==> r.id in t && t[r.id] == r }

  /** A result of `LatestVisible` over a listing, by its contract. */
  ghost predicate IsLatestVisible(rows: seq<Row>, matches: Row -> bool, result: seq<Row>) {
    && SortedByKey(result)
    && (forall r :: r in result ==> Visible(rows, matches, r))
    && (OnePerVersion(rows) ==> forall r :: Visible(rows, matches, r) ==> r in result)
  }

  lemma ListingIsOnePerVersion(digest: (Digest, int) -> Digest, content: Delivery -> Content, ds: seq<Delivery>, rows: seq<Row>)
    requires Injective(digest) && Lists(rows, DeliverAll(digest, content, ds))
    ensures OnePerVersion(rows)
  {
    TargetIsDeliveredSet(digest, content, ds);
    var t := DeliverAll(digest, content, ds);
    forall a, b | a in rows && b in rows && a.sourceKey == b.sourceKey && a.sourceVersion == b.sourceVersion ensures a == b {
      var d :| d in ds && digest(d.sourceKey, d.version) == a.id;
      var e :| e in ds && digest(e.sourceKey, e.version) == b.id;
      assert a == Copy(digest, content, d) && b == Copy(digest, content, e);
    }
  }

  /** No delivery of the same source has a higher version. */
  predicate NewestOf(ds: seq<Delivery>, d: Delivery) {
    d in ds && forall e :: e in ds && e.sourceKey == d.sourceKey ==> e.version <= d.version
  }

  lemma NewestRow(digest: (Digest, int) -> Digest, content: Delivery -> Content, ds: seq<Delivery>, rows: seq<Row>, d: Delivery)
    requires Injective(digest) && Lists(rows, DeliverAll(digest, content, ds)) && d in ds
    ensures Copy(digest, content, d) in rows && (Newest(rows, Copy(digest, content, d)) <==> NewestOf(ds, d))
  {
    TargetIsDeliveredSet(digest, content, ds);
    var r := Copy(digest, content, d);
    assert r in rows;
    if NewestOf(ds, d) {
      forall x | x in rows && x.sourceKey == r.sourceKey ensures x.sourceVersion <= r.sourceVersion {
        var e :| e in ds && digest(e.sourceKey, e.version) == x.id;
        assert x == Copy(digest, content, e);
      }
    }
    if Newest(rows, r) {
      forall e | e in ds && e.sourceKey == d.sourceKey ensures e.version <= d.version { assert Copy(digest, content, e) in rows; }
    }
  }

  /** A source is visible exactly if its newest delivered version is no deletion and matches, and then as that version. */
  lemma NewestDeliveryDecides(digest: (Digest, int) -> Digest, content: Delivery -> Content, matches: Row -> bool, ds: seq<Delivery>,
                              rows: seq<Row>, result: seq<Row>, d: Delivery)
    requires Injective(digest) && Lists(rows, DeliverAll(digest, content, ds)) && IsLatestVisible(rows, matches, result) && NewestOf(ds, d)
    ensures var row := Row(digest(d.sourceKey, d.version), d.sourceKey, d.version, false, content(d).document);
      && (row in result <==> !content(d).flagged && !content(d).removed && matches(row))
      && forall r :: r in result && r.sourceKey == d.sourceKey ==> r == row
  {
    ListingIsOnePerVersion(digest, content, ds, rows);
    NewestRow(digest, content, ds, rows, d);
    var copy := Copy(digest, content, d);
    var row := Row(digest(d.sourceKey, d.version), d.sourceKey, d.version, false, content(d).document);
    forall r | r in result && r.sourceKey == d.sourceKey ensures r == row { assert Visible(rows, matches, r) && r == copy; }
    if copy == row && matches(row) { assert Visible(rows, matches, row); }
  }

  /** What is visible was delivered. */
  lemma VisibleWasDelivered(digest: (Digest, int) -> Digest, content: Delivery -> Content, matches: Row -> bool, ds: seq<Delivery>,
                            rows: seq<Row>, result: seq<Row>, r: Row)
    requires Injective(digest) && Lists(rows, DeliverAll(digest, content, ds)) && IsLatestVisible(rows, matches, result) && r in result
    ensures exists d :: NewestOf(ds, d) && d.sourceKey == r.sourceKey && d.version == r.sourceVersion && content(d).document == r.document
  {
    TargetIsDeliveredSet(digest, content, ds);
    assert Visible(rows, matches, r);
    var d :| d in ds && digest(d.sourceKey, d.version) == r.id;
    assert r == Copy(digest, content, d);
    NewestRow(digest, content, ds, rows, d);
  }

  /** The target depends only on which source versions were delivered. */
  lemma SameTarget(digest: (Digest, int) -> Digest, content: Delivery -> Content, ds: seq<Delivery>, es: seq<Delivery>)
    requires Injective(digest) && forall d :: d in ds <==> d in es
    ensures DeliverAll(digest, content, ds) == DeliverAll(digest, content, es)
  {
    TargetIsDeliveredSet(digest, content, ds);
    TargetIsDeliveredSet(digest, content, es);
    var t, u := DeliverAll(digest, content, ds), DeliverAll(digest, content, es);
    forall id ensures id in t <==> id in u {
      if id in t {
        var d :| d in ds && digest(d.sourceKey, d.version) == id;
        assert d in es;
      }
      if id in u {
        var d :| d in es && digest(d.sourceKey, d.version) == id;
        assert d in ds;
      }
    }
    forall id | id in t ensures t[id] == u[id] {
      var d :| d in ds && digest(d.sourceKey, d.version) == id;
      assert d in es;
    }
    assert t == u;
  }

  lemma SameVisible(rows: seq<Row>, others: seq<Row>, matches: Row -> bool, r: seq<Row>, s: seq<Row>)
    requires (forall x :: x in rows <==> x in others) && OnePerVersion(rows) && OnePerVersion(others)
    requires IsLatestVisible(rows, matches, r) && IsLatestVisible(others, matches, s)
    ensures r == s
  {
    assert forall x :: Visible(rows, matches, x) <==> Visible(others, matches, x);
    SortedIsUnique(r, s);
  }

  /**
   Replay convergence: two hosts that received the same source versions, in any order and with any repetition,
   have the same target and read the same visible rows.
   */
  lemma ReplayConverges(digest: (Digest, int) -> Digest, content: Delivery -> Content, matches: Row -> bool,
                        ds: seq<Delivery>, es: seq<Delivery>, rows: seq<Row>, others: seq<Row>, r: seq<Row>, s: seq<Row>)
    requires Injective(digest) && forall d :: d in ds <==> d in es
    requires Lists(rows, DeliverAll(digest, content, ds)) && Lists(others, DeliverAll(digest, content, es))
    requires IsLatestVisible(rows, matches, r) && IsLatestVisible(others, matches, s)
    ensures DeliverAll(digest, content, ds) == DeliverAll(digest, content, es)
    ensures r == s
  {
    SameTarget(digest, content, ds, es);
    ListingIsOnePerVersion(digest, content, ds, rows);
    ListingIsOnePerVersion(digest, content, es, others);
    SameVisible(rows, others, matches, r, s);
  }
}
