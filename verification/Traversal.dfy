/**
 The recursive traversal: edge rows gathered by direction, then PostgreSQL's work-table iteration of the recursive
 query. The rows are exactly the simple paths from the start, one each.
 */
module Traversal {
  import opened Wrappers
  import opened Sequences

  datatype Vertex = Vertex(collection: string, id: string)

  /** A relation row that satisfies the scope and the relation predicate. */
  datatype Related = Related(source: Vertex, target: Vertex)

  /** `directed` is None for a Collection that is no relation. */
  datatype Collection = Collection(ref: string, directed: Option<bool>, rows: seq<Related>)

  datatype Direction = Outbound | Inbound | Both

  datatype Edge = Edge(ref: string, source: Vertex, target: Vertex)

  // --- Edges ---

  predicate Forward(direction: Direction, directed: bool) { direction in {Outbound, Both} || !directed }

  predicate Reverse(direction: Direction, directed: bool) { direction in {Inbound, Both} || !directed }

  /** What one SELECT over the relation's rows returns, with the ends swapped or not: one edge per row, in order. */
  function Rows(c: Collection, swapped: bool): (edges: seq<Edge>)
    ensures |edges| == |c.rows|
    ensures forall k :: 0 <= k < |c.rows| ==>
      edges[k] == if swapped then Edge(c.ref, c.rows[k].target, c.rows[k].source) else Edge(c.ref, c.rows[k].source, c.rows[k].target)
  {
    seq(|c.rows|, (k: nat) requires k < |c.rows| =>
      if swapped then Edge(c.ref, c.rows[k].target, c.rows[k].source) else Edge(c.ref, c.rows[k].source, c.rows[k].target))
  }

  method SelectRows(c: Collection, swapped: bool) returns (edges: seq<Edge>)
    ensures edges == Rows(c, swapped)
  {
    edges := [];
    for k := 0 to |c.rows|
      invariant edges == Rows(c, swapped)[..k]
    {
      var r := c.rows[k];
      edges := edges + [if swapped then Edge(c.ref, r.target, r.source) else Edge(c.ref, r.source, r.target)];
    }
  }

  /** A relation contributes its rows once for every direction they may be followed in. */
  function RelationRows(direction: Direction, c: Collection): seq<Edge> {
    (if c.directed.Some? && Forward(direction, c.directed.value) then Rows(c, false) else [])
    + (if c.directed.Some? && Reverse(direction, c.directed.value) then Rows(c, true) else [])
  }

  function EdgeRows(direction: Direction, relations: seq<Collection>): seq<Edge> {
    if relations == [] then []
    else EdgeRows(direction, relations[..|relations| - 1]) + RelationRows(direction, relations[|relations| - 1])
  }

  /** The edge may be followed in this direction: a row of some relation, along it or against it. */
  ghost predicate Usable(direction: Direction, relations: seq<Collection>, e: Edge) {
    exists i, k :: 0 <= i < |relations| && 0 <= k < |relations[i].rows| && UsableBy(direction, relations[i], relations[i].rows[k], e)
  }

  /** Along the row going out of a directed relation, against it coming in, either way if both or undirected. */
  ghost predicate UsableBy(direction: Direction, c: Collection, r: Related, e: Edge) {
    && c.directed.Some? && e.ref == c.ref
    && var along, against := e.source == r.source && e.target == r.target, e.source == r.target && e.target == r.source;
       match direction
       case Outbound => along || (c.directed == Some(false) && against)
       case Inbound => against || (c.directed == Some(false) && along)
       case Both => along || against
  }

  method SelectParts(direction: Direction, c: Collection, directed: bool) returns (edges: seq<Edge>)
    requires c.directed == Some(directed)
    ensures edges == RelationRows(direction, c)
  {
    var forward, reverse: seq<Edge> := [], [];
    if Forward(direction, directed) { forward := SelectRows(c, false); }
    if Reverse(direction, directed) { reverse := SelectRows(c, true); }
    edges := forward + reverse;
  }

  /** The UNION ALL of the edge parts; None when a Collection is not a relation or no relation is given. */
  method GatherEdges(direction: Direction, relations: seq<Collection>) returns (edges: Option<seq<Edge>>)
    ensures edges.None? <==> relations == [] || exists i :: 0 <= i < |relations| && relations[i].directed.None?
    ensures edges.Some? ==> edges.value == EdgeRows(direction, relations)
  {
    if relations == [] { return None; }
    var all: seq<Edge> := [];
    for i := 0 to |relations|
      invariant forall j :: 0 <= j < i ==> relations[j].directed.Some?
      invariant all == EdgeRows(direction, relations[..i])
    {
      var c := relations[i];
      if c.directed.None? { return None; }
      assert relations[..i + 1][..i] == relations[..i];
      var part := SelectParts(direction, c, c.directed.value);
      all := all + part;
    }
    assert relations[..|relations|] == relations;
    return Some(all);
  }

  /** The edge rows are exactly the usable edges. */
  lemma {:induction false} EdgeRowsAreUsable(direction: Direction, relations: seq<Collection>, e: Edge)
    ensures e in EdgeRows(direction, relations) <==> Usable(direction, relations, e)
  {
    if relations != [] {
      var n := |relations| - 1;
      var c := relations[n];
      assert relations[..n + 1] == relations;
      EdgeRowsAreUsable(direction, relations[..n], e);
      OneMoreRelation(direction, relations, n, e);
      if c.directed.Some? {
        PartCovers(direction, c, if Forward(direction, c.directed.value) then Rows(c, false) else [],
                   if Reverse(direction, c.directed.value) then Rows(c, true) else [], e);
      }
    }
  }

  lemma OneMoreRelation(direction: Direction, relations: seq<Collection>, i: nat, e: Edge)
    requires i < |relations|
    ensures Usable(direction, relations[..i + 1], e) <==>
      (Usable(direction, relations[..i], e) || exists k :: 0 <= k < |relations[i].rows| && UsableBy(direction, relations[i], relations[i].rows[k], e))
  {
    if Usable(direction, relations[..i], e) {
      var j, k :| 0 <= j < i && 0 <= k < |relations[..i][j].rows| && UsableBy(direction, relations[..i][j], relations[..i][j].rows[k], e);
      assert relations[..i + 1][j] == relations[..i][j];
    }
    if exists k :: 0 <= k < |relations[i].rows| && UsableBy(direction, relations[i], relations[i].rows[k], e) {
      var k :| 0 <= k < |relations[i].rows| && UsableBy(direction, relations[i], relations[i].rows[k], e);
      assert relations[..i + 1][i] == relations[i];
    }
    if Usable(direction, relations[..i + 1], e) {
      var j, k :| 0 <= j < i + 1 && 0 <= k < |relations[..i + 1][j].rows| && UsableBy(direction, relations[..i + 1][j], relations[..i + 1][j].rows[k], e);
      if j < i { assert relations[..i][j] == relations[..i + 1][j]; }
    }
  }

  lemma PartCovers(direction: Direction, c: Collection, forward: seq<Edge>, reverse: seq<Edge>, e: Edge)
    requires c.directed.Some?
    requires |forward| == if Forward(direction, c.directed.value) then |c.rows| else 0
    requires |reverse| == if Reverse(direction, c.directed.value) then |c.rows| else 0
    requires forall k :: 0 <= k < |forward| ==> forward[k] == Edge(c.ref, c.rows[k].source, c.rows[k].target)
    requires forall k :: 0 <= k < |reverse| ==> reverse[k] == Edge(c.ref, c.rows[k].target, c.rows[k].source)
    ensures (e in forward || e in reverse) <==> exists k :: 0 <= k < |c.rows| && UsableBy(direction, c, c.rows[k], e)
  {
    if e in forward {
      var k :| 0 <= k < |forward| && forward[k] == e;
      assert UsableBy(direction, c, c.rows[k], e);
    }
    if e in reverse {
      var k :| 0 <= k < |reverse| && reverse[k] == e;
      assert UsableBy(direction, c, c.rows[k], e);
    }
    if exists k :: 0 <= k < |c.rows| && UsableBy(direction, c, c.rows[k], e) {
      var k :| 0 <= k < |c.rows| && UsableBy(direction, c, c.rows[k], e);
      if k < |forward| && forward[k] == e { assert e in forward; } else { assert reverse[k] == e; }
    }
  }

  // --- The recursive query ---

  const SEPARATOR: char := 31 as char

  /** The text by which the query recognises a visited vertex. */
  function KeyOf(v: Vertex): string { v.collection + [SEPARATOR] + v.id }

  /** A row of `walk`; `edges` records which edges were joined, which the query does not select. */
  datatype Walk = Walk(depth: nat, vertex: Vertex, path: seq<string>, relationPath: seq<string>, edges: seq<nat>)

  function StartRow(start: Vertex): Walk { Walk(0, start, [KeyOf(start)], [], []) }

  predicate Joins(edges: seq<Edge>, max: nat, w: Walk, j: nat)
    requires j < |edges|
  {
    edges[j].source == w.vertex && w.depth < max && KeyOf(edges[j].target) !in w.path
  }

  function Joined(edges: seq<Edge>, w: Walk, j: nat): Walk
    requires j < |edges|
  {
    var e := edges[j];
    Walk(w.depth + 1, e.target, w.path + [KeyOf(e.target)], w.relationPath + [e.ref], w.edges + [j])
  }

  /** No two rows joined the same edges. */
  predicate Distinct(rows: seq<Walk>) {
    forall i, k :: 0 <= i < k < |rows| ==> rows[i].edges != rows[k].edges
  }

  /** The rows `w` joins to among the first `n` edges. */
  ghost predicate ExtendsOne(edges: seq<Edge>, max: nat, w: Walk, n: nat, rows: seq<Walk>)
    requires n <= |edges|
  {
    && (forall r :: r in rows ==> r.edges != [] && exists j :: 0 <= j < n && Joins(edges, max, w, j) && r == Joined(edges, w, j))
    && (forall j :: 0 <= j < n && Joins(edges, max, w, j) ==> Joined(edges, w, j) in rows)
    && Distinct(rows)
  }

  method JoinOne(edges: seq<Edge>, max: nat, w: Walk) returns (rows: seq<Walk>)
    ensures ExtendsOne(edges, max, w, |edges|, rows)
  {
    rows := [];
    for j := 0 to |edges|
      invariant ExtendsOne(edges, max, w, j, rows)
    {
      if Joins(edges, max, w, j) {
        forall r | r in rows ensures r.edges != Joined(edges, w, j).edges {
          var i :| 0 <= i < j && Joins(edges, max, w, i) && r == Joined(edges, w, i);
          assert r.edges[|w.edges|] == i;
        }
        rows := rows + [Joined(edges, w, j)];
      }
    }
  }

  ghost predicate ExtendsAll(edges: seq<Edge>, max: nat, work: seq<Walk>, n: nat, rows: seq<Walk>)
    requires n <= |work|
  {
    && (forall r :: r in rows ==> exists i, j :: 0 <= i < n && 0 <= j < |edges| && Joins(edges, max, work[i], j) && r == Joined(edges, work[i], j))
    && (forall i, j :: 0 <= i < n && 0 <= j < |edges| && Joins(edges, max, work[i], j) ==> Joined(edges, work[i], j) in rows)
    && Distinct(rows)
  }

  lemma ExtendsNext(edges: seq<Edge>, max: nat, work: seq<Walk>, n: nat, rows: seq<Walk>, more: seq<Walk>)
    requires n < |work| && ExtendsAll(edges, max, work, n, rows) && ExtendsOne(edges, max, work[n], |edges|, more)
    requires Distinct(work)
    ensures ExtendsAll(edges, max, work, n + 1, rows + more)
  {
    var all := rows + more;
    forall r | r in all
      ensures exists i, j :: 0 <= i < n + 1 && 0 <= j < |edges| && Joins(edges, max, work[i], j) && r == Joined(edges, work[i], j)
    {
      if r in rows {
        var i, j :| 0 <= i < n && 0 <= j < |edges| && Joins(edges, max, work[i], j) && r == Joined(edges, work[i], j);
      }
    }
    forall r, s | r in rows && s in more ensures r.edges != s.edges {
      var i, j :| 0 <= i < n && 0 <= j < |edges| && Joins(edges, max, work[i], j) && r == Joined(edges, work[i], j);
      var k :| 0 <= k < |edges| && Joins(edges, max, work[n], k) && s == Joined(edges, work[n], k);
      assert work[i].edges == r.edges[..|r.edges| - 1] && work[n].edges == s.edges[..|s.edges| - 1];
      assert work[i].edges != work[n].edges;
    }
    forall i, k | 0 <= i < k < |all| ensures all[i].edges != all[k].edges {
      if i < |rows| <= k { assert all[i] in rows && all[k] in more; }
    }
  }

  /** One step of the iteration: the work table joined with the edges. */
  method Join(edges: seq<Edge>, max: nat, work: seq<Walk>) returns (rows: seq<Walk>)
    requires Distinct(work)
    ensures ExtendsAll(edges, max, work, |work|, rows)
  {
    rows := [];
    for i := 0 to |work|
      invariant ExtendsAll(edges, max, work, i, rows)
    {
      var more := JoinOne(edges, max, work[i]);
      ExtendsNext(edges, max, work, i, rows, more);
      rows := rows + more;
    }
  }

  // --- Simple paths ---

  predicate InRange(edges: seq<Edge>, p: seq<nat>) { forall i :: 0 <= i < |p| ==> p[i] < |edges| }

  /** The vertices a path of edges visits, the start first. */
  function Vertices(edges: seq<Edge>, start: Vertex, p: seq<nat>): (vs: seq<Vertex>)
    requires InRange(edges, p)
    ensures |vs| == |p| + 1
  {
    if p == [] then [start] else
      var n := |p| - 1;
      Vertices(edges, start, p[..n]) + [edges[p[n]].target]
  }

  predicate Consecutive(edges: seq<Edge>, start: Vertex, p: seq<nat>)
    requires InRange(edges, p)
  {
    forall i :: 0 <= i < |p| ==> edges[p[i]].source == Vertices(edges, start, p)[i]
  }

  function Keys(vs: seq<Vertex>): (ks: seq<string>)
    ensures |ks| == |vs| && forall i :: 0 <= i < |vs| ==> ks[i] == KeyOf(vs[i])
  {
    seq(|vs|, (i: nat) requires i < |vs| => KeyOf(vs[i]))
  }

  /** A path of consecutive edges from the start that never returns to a key. */
  predicate SimplePath(edges: seq<Edge>, start: Vertex, p: seq<nat>) {
    InRange(edges, p) && Consecutive(edges, start, p) && NoRepeats(Keys(Vertices(edges, start, p)))
  }

  /** The row a path stands for. */
  predicate RowOf(edges: seq<Edge>, start: Vertex, p: seq<nat>, w: Walk)
    requires InRange(edges, p)
  {
    var vs := Vertices(edges, start, p);
    && w.edges == p && w.depth == |p| && w.vertex == vs[|p|] && w.path == Keys(vs)
    && |w.relationPath| == |p| && (forall i :: 0 <= i < |p| ==> w.relationPath[i] == edges[p[i]].ref)
  }

  /** The Collection names among the vertices. */
  function Names(edges: seq<Edge>, start: Vertex): set<string> {
    {start.collection} + (set e | e in edges :: e.source.collection) + (set e | e in edges :: e.target.collection)
  }

  /** No name goes on, after a separator, where another ends. */
  predicate Separate(names: set<string>) {
    forall n, m :: n in names && m in names && n != m ==> !(n + [SEPARATOR] <= m)
  }

  lemma ShorterNameIsPrefix(v: Vertex, w: Vertex)
    requires KeyOf(v) == KeyOf(w) && |v.collection| < |w.collection|
    ensures v.collection + [SEPARATOR] <= w.collection
  {
    var n := |v.collection|;
    assert KeyOf(v)[..n + 1] == v.collection + [SEPARATOR];
    assert KeyOf(w)[..n + 1] == w.collection[..n + 1];
  }

  lemma SameNameSameVertex(v: Vertex, w: Vertex)
    requires KeyOf(v) == KeyOf(w) && |v.collection| == |w.collection|
    ensures v == w
  {
    var n := |v.collection|;
    assert v.collection == KeyOf(v)[..n] && w.collection == KeyOf(w)[..n];
    assert v.id == KeyOf(v)[n + 1..] && w.id == KeyOf(w)[n + 1..];
  }

  lemma KeysDistinguish(names: set<string>, v: Vertex, w: Vertex)
    requires Separate(names) && v.collection in names && w.collection in names
    ensures KeyOf(v) == KeyOf(w) <==> v == w
  {
    if KeyOf(v) == KeyOf(w) {
      if |v.collection| < |w.collection| {
        ShorterNameIsPrefix(v, w);
      } else if |w.collection| < |v.collection| {
        ShorterNameIsPrefix(w, v);
      } else {
        SameNameSameVertex(v, w);
      }
    }
  }

  ghost predicate KeysAreExact(names: set<string>) {
    forall v: Vertex, w: Vertex :: v.collection in names && w.collection in names && KeyOf(v) == KeyOf(w) ==> v == w
  }

  /** Keys tell all vertices of some Collections apart if and only if the names are separate, whatever the ids. */
  lemma KeysAreExactIff(names: set<string>)
    ensures KeysAreExact(names) <==> Separate(names)
  {
    if Separate(names) {
      forall v: Vertex, w: Vertex | v.collection in names && w.collection in names && KeyOf(v) == KeyOf(w) ensures v == w {
        KeysDistinguish(names, v, w);
      }
    } else {
      var n, m :| n in names && m in names && n != m && n + [SEPARATOR] <= m;
      var rest := m[|n| + 1..];
      var v, w := Vertex(n, rest + [SEPARATOR]), Vertex(m, "");
      assert m == n + [SEPARATOR] + rest;
      assert KeyOf(v) == n + [SEPARATOR] + (rest + [SEPARATOR]) == n + [SEPARATOR] + rest + [SEPARATOR];
      assert KeyOf(w) == m + [SEPARATOR] + "" == m + [SEPARATOR];
      assert v != w && v.collection in names && w.collection in names && KeyOf(v) == KeyOf(w);
    }
  }

  lemma {:induction false} VerticesAreNamed(edges: seq<Edge>, start: Vertex, p: seq<nat>, v: Vertex)
    requires InRange(edges, p) && v in Vertices(edges, start, p)
    ensures v.collection in Names(edges, start)
  {
    if p != [] {
      var n := |p| - 1;
      if v in Vertices(edges, start, p[..n]) {
        VerticesAreNamed(edges, start, p[..n], v);
      } else {
        assert edges[p[n]] in edges && v == edges[p[n]].target;
      }
    }
  }

  /** With separate names, never returning to a key is never returning to a vertex. */
  lemma SimplePathsVisitVerticesOnce(edges: seq<Edge>, start: Vertex, p: seq<nat>)
    requires Separate(Names(edges, start)) && InRange(edges, p)
    ensures SimplePath(edges, start, p) <==> Consecutive(edges, start, p) && NoRepeats(Vertices(edges, start, p))
  {
    var vs, names := Vertices(edges, start, p), Names(edges, start);
    forall i, k | 0 <= i < k < |vs| ensures vs[i] != vs[k] <==> Keys(vs)[i] != Keys(vs)[k] {
      VerticesAreNamed(edges, start, p, vs[i]);
      VerticesAreNamed(edges, start, p, vs[k]);
      KeysDistinguish(names, vs[i], vs[k]);
    }
    if NoRepeats(vs) {
      forall i, k | 0 <= i < k < |vs| ensures Keys(vs)[i] != Keys(vs)[k] { assert vs[i] != vs[k]; }
    }
    if NoRepeats(Keys(vs)) {
      forall i, k | 0 <= i < k < |vs| ensures vs[i] != vs[k] { assert Keys(vs)[i] != Keys(vs)[k]; }
    }
  }

  lemma VerticesSnoc(edges: seq<Edge>, start: Vertex, p: seq<nat>, j: nat)
    requires InRange(edges, p) && j < |edges|
    ensures InRange(edges, p + [j])
    ensures Vertices(edges, start, p + [j]) == Vertices(edges, start, p) + [edges[j].target]
  {
    assert (p + [j])[..|p|] == p;
  }

  lemma ConsecutiveSnoc(edges: seq<Edge>, start: Vertex, p: seq<nat>, j: nat)
    requires InRange(edges, p) && j < |edges| && InRange(edges, p + [j])
    ensures Consecutive(edges, start, p + [j]) <==> Consecutive(edges, start, p) && edges[j].source == Vertices(edges, start, p)[|p|]
  {
    var q, vs := p + [j], Vertices(edges, start, p);
    assert q[|p|] == j;
    VerticesSnoc(edges, start, p, j);
    forall i | 0 <= i < |p| ensures q[i] == p[i] && Vertices(edges, start, q)[i] == vs[i] {}
    assert Vertices(edges, start, q)[|p|] == vs[|p|];
    if Consecutive(edges, start, q) {
      forall i | 0 <= i < |p| ensures edges[p[i]].source == vs[i] { assert edges[q[i]].source == Vertices(edges, start, q)[i]; }
      assert edges[q[|p|]].source == Vertices(edges, start, q)[|p|];
    }
  }

  lemma NoRepeatsSnoc<T>(s: seq<T>, x: T)
    ensures NoRepeats(s + [x]) <==> NoRepeats(s) && x !in s
  {
    var t := s + [x];
    assert t[|s|] == x;
    if NoRepeats(t) {
      forall i | 0 <= i < |s| ensures s[i] != x { assert t[i] != t[|s|]; }
      forall i, k | 0 <= i < k < |s| ensures s[i] != s[k] { assert t[i] != t[k]; }
    }
  }

  /** A simple path is a simple path one edge shorter, then an edge to a new key. */
  lemma SimpleSnoc(edges: seq<Edge>, start: Vertex, p: seq<nat>, j: nat)
    requires InRange(edges, p) && j < |edges|
    ensures SimplePath(edges, start, p + [j])
            <==> (SimplePath(edges, start, p) && edges[j].source == Vertices(edges, start, p)[|p|]
                  && KeyOf(edges[j].target) !in Keys(Vertices(edges, start, p)))
  {
    VerticesSnoc(edges, start, p, j);
    ConsecutiveSnoc(edges, start, p, j);
    KeysSnoc(Vertices(edges, start, p), edges[j].target);
    NoRepeatsSnoc(Keys(Vertices(edges, start, p)), KeyOf(edges[j].target));
  }

  lemma KeysSnoc(vs: seq<Vertex>, v: Vertex)
    ensures Keys(vs + [v]) == Keys(vs) + [KeyOf(v)]
  {
  }

  /** A join appends an edge exactly when the longer path is simple, and makes that path's row. */
  lemma JoinKeepsPathsSimple(edges: seq<Edge>, start: Vertex, max: nat, p: seq<nat>, w: Walk, j: nat)
    requires SimplePath(edges, start, p) && RowOf(edges, start, p, w) && j < |edges|
    ensures Joins(edges, max, w, j) <==> |p| < max && SimplePath(edges, start, p + [j])
    ensures InRange(edges, p + [j]) && RowOf(edges, start, p + [j], Joined(edges, w, j))
  {
    VerticesSnoc(edges, start, p, j);
    KeysSnoc(Vertices(edges, start, p), edges[j].target);
    SimpleSnoc(edges, start, p, j);
  }

  lemma PrefixIsSimple(edges: seq<Edge>, start: Vertex, p: seq<nat>)
    requires SimplePath(edges, start, p) && p != []
    ensures SimplePath(edges, start, p[..|p| - 1])
  {
    var n := |p| - 1;
    assert p == p[..n] + [p[n]];
    SimpleSnoc(edges, start, p[..n], p[n]);
  }

  // --- Levels ---

  ghost predicate IsRow(edges: seq<Edge>, start: Vertex, w: Walk) {
    SimplePath(edges, start, w.edges) && RowOf(edges, start, w.edges, w)
  }

  /** The work table holds the simple paths of length `d`, one row each. */
  ghost predicate Level(edges: seq<Edge>, start: Vertex, d: nat, work: seq<Walk>) {
    && (forall w :: w in work ==> w.depth == d && IsRow(edges, start, w))
    && (forall p :: SimplePath(edges, start, p) && |p| == d ==> Has(work, p))
    && Distinct(work)
  }

  ghost predicate Has(rows: seq<Walk>, p: seq<nat>) { exists i :: 0 <= i < |rows| && rows[i].edges == p }

  lemma FirstLevel(edges: seq<Edge>, start: Vertex)
    ensures Level(edges, start, 0, [StartRow(start)])
  {
    var work := [StartRow(start)];
    forall p | SimplePath(edges, start, p) && |p| == 0 ensures Has(work, p) {
      assert work[0].edges == p;
    }
  }

  lemma NextLevel(edges: seq<Edge>, start: Vertex, max: nat, d: nat, work: seq<Walk>, next: seq<Walk>)
    requires Level(edges, start, d, work) && d < max
    requires ExtendsAll(edges, max, work, |work|, next)
    ensures Level(edges, start, d + 1, next)
  {
    forall w | w in next ensures w.depth == d + 1 && IsRow(edges, start, w) {
      var i, j :| 0 <= i < |work| && 0 <= j < |edges| && Joins(edges, max, work[i], j) && w == Joined(edges, work[i], j);
      assert work[i] in work;
      JoinKeepsPathsSimple(edges, start, max, work[i].edges, work[i], j);
    }
    forall p | SimplePath(edges, start, p) && |p| == d + 1 ensures Has(next, p) {
      PathIsJoined(edges, start, max, d, work, next, p);
    }
  }

  lemma PathIsJoined(edges: seq<Edge>, start: Vertex, max: nat, d: nat, work: seq<Walk>, next: seq<Walk>, p: seq<nat>)
    requires Level(edges, start, d, work) && d < max
    requires ExtendsAll(edges, max, work, |work|, next)
    requires SimplePath(edges, start, p) && |p| == d + 1
    ensures Has(next, p)
  {
    var q, j := p[..d], p[d];
    assert p == q + [j];
    PrefixIsSimple(edges, start, p);
    assert Has(work, q);
    var i :| 0 <= i < |work| && work[i].edges == q;
    assert work[i] in work;
    JoinKeepsPathsSimple(edges, start, max, q, work[i], j);
    assert Joined(edges, work[i], j) in next;
    var k :| 0 <= k < |next| && next[k] == Joined(edges, work[i], j);
    assert next[k].edges == p;
  }

  /** All simple paths of lengths `lo` to `hi`, one row each and nothing else. */
  ghost predicate Traversed(edges: seq<Edge>, start: Vertex, lo: nat, hi: nat, rows: seq<Walk>) {
    && (forall w :: w in rows ==> lo <= w.depth <= hi && IsRow(edges, start, w))
    && (forall p :: SimplePath(edges, start, p) && lo <= |p| <= hi ==> Has(rows, p))
    && Distinct(rows)
  }

  lemma AddLevel(edges: seq<Edge>, start: Vertex, d: nat, rows: seq<Walk>, next: seq<Walk>)
    requires Traversed(edges, start, 0, d, rows) && Level(edges, start, d + 1, next)
    ensures Traversed(edges, start, 0, d + 1, rows + next)
  {
    var all := rows + next;
    forall p | SimplePath(edges, start, p) && 0 <= |p| <= d + 1 ensures Has(all, p) {
      if |p| <= d {
        assert Has(rows, p);
        var i :| 0 <= i < |rows| && rows[i].edges == p;
        assert all[i].edges == p;
      } else {
        assert Has(next, p);
        var i :| 0 <= i < |next| && next[i].edges == p;
        assert all[|rows| + i].edges == p;
      }
    }
    forall i, k | 0 <= i < k < |all| ensures all[i].edges != all[k].edges {
      if i < |rows| <= k {
        assert all[i] in rows && all[k] in next;
        assert |all[i].edges| <= d && |all[k].edges| == d + 1;
      }
    }
  }

  /** An empty level is the last one. */
  lemma {:induction false} NothingLonger(edges: seq<Edge>, start: Vertex, d: nat, p: seq<nat>)
    requires Level(edges, start, d, [])
    ensures SimplePath(edges, start, p) ==> |p| < d
  {
    if SimplePath(edges, start, p) && |p| > d {
      PrefixIsSimple(edges, start, p);
      NothingLonger(edges, start, d, p[..|p| - 1]);
    }
  }

  lemma Finished(edges: seq<Edge>, start: Vertex, d: nat, max: nat, rows: seq<Walk>)
    requires Traversed(edges, start, 0, d, rows) && Level(edges, start, d, []) && d <= max
    ensures Traversed(edges, start, 0, max, rows)
  {
    forall p | SimplePath(edges, start, p) && 0 <= |p| <= max ensures Has(rows, p) { NothingLonger(edges, start, d, p); }
  }

  lemma Kept(edges: seq<Edge>, start: Vertex, min: nat, max: nat, all: seq<Walk>, rows: seq<Walk>)
    requires Traversed(edges, start, 0, max, all)
    requires Distinct(rows) && forall w :: w in rows <==> w in all && min <= w.depth <= max
    ensures Traversed(edges, start, min, max, rows)
  {
    forall p | SimplePath(edges, start, p) && min <= |p| <= max ensures Has(rows, p) {
      assert Has(all, p);
      var i :| 0 <= i < |all| && all[i].edges == p;
      assert all[i] in all && all[i] in rows;
      var k :| 0 <= k < |rows| && rows[k] == all[i];
      assert rows[k].edges == p;
    }
  }

  /** Nothing is joined beyond the maximal depth. */
  lemma DepthBound(edges: seq<Edge>, start: Vertex, max: nat, work: seq<Walk>, next: seq<Walk>)
    requires Level(edges, start, max, work) && ExtendsAll(edges, max, work, |work|, next)
    ensures next == []
  {
    forall i | 0 <= i < |work| ensures work[i].depth == max { assert work[i] in work; }
    SomeElement(next);
  }

  /**
   `WITH RECURSIVE walk`, evaluated as PostgreSQL does: join the work table with the edges until it is empty, then keep
   the depths asked for.
   */
  method Traverse(edges: seq<Edge>, start: Vertex, min: nat, max: nat) returns (rows: seq<Walk>)
    ensures Traversed(edges, start, min, max, rows)
  {
    var work := [StartRow(start)];
    var all := work;
    FirstLevel(edges, start);
    ghost var d := 0;
    while work != []
      invariant d <= max && Traversed(edges, start, 0, d, all)
      invariant work == [] ==> Traversed(edges, start, 0, max, all)
      invariant work != [] ==> Level(edges, start, d, work)
      decreases work != [], max - d
    {
      var next := Join(edges, max, work);
      if d < max {
        NextLevel(edges, start, max, d, work, next);
        AddLevel(edges, start, d, all, next);
        d := d + 1;
        if next == [] { Finished(edges, start, d, max, all + next); }
      } else {
        DepthBound(edges, start, max, work, next);
        assert all + next == all;
      }
      work := next;
      all := all + next;
    }
    rows := Between(all, min, max);
    Kept(edges, start, min, max, all, rows);
  }

  method Between(all: seq<Walk>, min: nat, max: nat) returns (rows: seq<Walk>)
    requires Distinct(all)
    ensures forall w :: w in rows <==> w in all && min <= w.depth <= max
    ensures Distinct(rows)
  {
    rows := [];
    for i := 0 to |all|
      invariant forall w :: w in rows <==> w in all[..i] && min <= w.depth <= max
      invariant Distinct(rows)
    {
      var w := all[i];
      assert all[..i + 1] == all[..i] + [w];
      if min <= w.depth <= max {
        forall r | r in rows ensures r.edges != w.edges {
          var k :| 0 <= k < i && all[..i][k] == r;
          assert all[k] == r;
        }
        rows := rows + [w];
      }
    }
    assert all[..|all|] == all;
  }

  // --- ORDER BY depth, collection, id LIMIT n ---

  /** The database's collation: one text comes strictly before another. */
  type Collation = (string, string) -> bool

  ghost predicate IsCollation(before: Collation) {
    && (forall a, b :: before(a, b) ==> !before(b, a))
    && (forall a, b, c :: before(a, b) && before(b, c) ==> before(a, c))
    && (forall a, b :: a == b || before(a, b) || before(b, a))
  }

  predicate RowBefore(before: Collation, v: Walk, w: Walk) {
    var x, y := v.vertex, w.vertex;
    v.depth < w.depth
    || (v.depth == w.depth && (before(x.collection, y.collection) || (x.collection == y.collection && before(x.id, y.id))))
  }

  lemma NotBeforeIsTransitive(before: Collation, u: Walk, v: Walk, w: Walk)
    requires IsCollation(before) && !RowBefore(before, v, u) && !RowBefore(before, w, v)
    ensures !RowBefore(before, w, u)
  {
  }

  ghost predicate InOrder(before: Collation, rows: seq<Walk>) {
    forall i, k :: 0 <= i < k < |rows| ==> !RowBefore(before, rows[k], rows[i])
  }

  function InsertRow(before: Collation, w: Walk, s: seq<Walk>): (r: seq<Walk>)
    ensures |r| == |s| + 1
  {
    if s == [] || RowBefore(before, w, s[0]) then [w] + s else [s[0]] + InsertRow(before, w, s[1..])
  }

  function SortRows(before: Collation, s: seq<Walk>): (r: seq<Walk>)
    ensures |r| == |s|
  {
    if s == [] then [] else InsertRow(before, s[0], SortRows(before, s[1..]))
  }

  lemma {:induction false} InsertHas(before: Collation, w: Walk, s: seq<Walk>, v: Walk)
    ensures v in InsertRow(before, w, s) <==> v == w || v in s
  {
    if !(s == [] || RowBefore(before, w, s[0])) { InsertHas(before, w, s[1..], v); }
  }

  lemma {:induction false} InsertInOrder(before: Collation, w: Walk, s: seq<Walk>)
    requires IsCollation(before) && InOrder(before, s)
    ensures InOrder(before, InsertRow(before, w, s))
  {
    if s != [] {
      var r := InsertRow(before, w, s);
      if RowBefore(before, w, s[0]) {
        forall k | 1 <= k < |r| ensures !RowBefore(before, r[k], w) {
          if k > 1 { assert !RowBefore(before, s[k - 1], s[0]); }
          NotBeforeIsTransitive(before, w, s[0], s[k - 1]);
        }
      } else {
        InsertInOrder(before, w, s[1..]);
        var rest := InsertRow(before, w, s[1..]);
        forall k | 1 <= k < |r| ensures !RowBefore(before, r[k], s[0]) {
          assert r[k] == rest[k - 1];
          InsertHas(before, w, s[1..], rest[k - 1]);
        }
      }
    }
  }

  lemma {:induction false} InsertDistinct(before: Collation, w: Walk, s: seq<Walk>)
    requires Distinct([w] + s)
    ensures Distinct(InsertRow(before, w, s))
  {
    var all := [w] + s;
    forall i, k | 0 <= i < k < |s| ensures s[i].edges != s[k].edges { assert all[i + 1].edges != all[k + 1].edges; }
    forall k | 0 <= k < |s| ensures w.edges != s[k].edges { assert all[0].edges != all[k + 1].edges; }
    if s != [] && !RowBefore(before, w, s[0]) {
      var rest := InsertRow(before, w, s[1..]);
      InsertDistinct(before, w, s[1..]);
      forall k | 0 <= k < |rest| ensures rest[k].edges != s[0].edges { InsertHas(before, w, s[1..], rest[k]); }
    }
  }

  lemma {:induction false} SortedRows(before: Collation, s: seq<Walk>)
    requires IsCollation(before) && Distinct(s)
    ensures InOrder(before, SortRows(before, s)) && Distinct(SortRows(before, s))
    ensures forall v :: v in SortRows(before, s) <==> v in s
  {
    if s != [] {
      var rest := SortRows(before, s[1..]);
      SortedRows(before, s[1..]);
      forall k | 0 <= k < |rest| ensures s[0].edges != rest[k].edges { assert rest[k] in s[1..]; }
      InsertInOrder(before, s[0], rest);
      InsertDistinct(before, s[0], rest);
      forall v ensures v in SortRows(before, s) <==> v in s { InsertHas(before, s[0], rest, v); }
    }
  }

  /** Shorter paths first, then by Collection, then by id; `w` may stand after `v`. */
  predicate MayFollow(before: Collation, v: Walk, w: Walk) {
    && v.depth <= w.depth
    && (v.depth == w.depth ==> !before(w.vertex.collection, v.vertex.collection))
    && (v.depth == w.depth && v.vertex.collection == w.vertex.collection ==> !before(w.vertex.id, v.vertex.id))
  }

  lemma FollowsUnlessBefore(before: Collation, v: Walk, w: Walk)
    requires IsCollation(before)
    ensures MayFollow(before, v, w) <==> !RowBefore(before, w, v)
  {
  }

  /** The first `n` rows in the order; rows that tie may come in any order. */
  ghost predicate FirstRows(before: Collation, all: seq<Walk>, n: nat, rows: seq<Walk>) {
    && |rows| == (if n < |all| then n else |all|) && Distinct(rows)
    && (forall i, k :: 0 <= i < k < |rows| ==> MayFollow(before, rows[i], rows[k]))
    && (forall w :: w in rows ==> w in all)
    && (forall w, i :: w in all && w !in rows && 0 <= i < |rows| ==> MayFollow(before, rows[i], w))
  }

  lemma PrefixInOrder(before: Collation, s: seq<Walk>, m: nat)
    requires InOrder(before, s) && Distinct(s) && m <= |s|
    ensures InOrder(before, s[..m]) && Distinct(s[..m])
  {
  }

  lemma LeftOutIsLater(before: Collation, s: seq<Walk>, m: nat, w: Walk, i: nat)
    requires InOrder(before, s) && i < m <= |s| && w in s
    ensures w in s[..m] || !RowBefore(before, w, s[i])
  {
    var k :| 0 <= k < |s| && s[k] == w;
    if k < m { assert s[..m][k] == w; }
  }

  lemma FirstOfSorted(before: Collation, all: seq<Walk>, n: nat)
    requires IsCollation(before) && Distinct(all)
    ensures FirstRows(before, all, n, SortRows(before, all)[..if n < |all| then n else |all|])
  {
    var s, m := SortRows(before, all), if n < |all| then n else |all|;
    SortedRows(before, all);
    PrefixInOrder(before, s, m);
    var rows := s[..m];
    forall w | w in rows ensures w in all { assert w in s; }
    forall i, k | 0 <= i < k < |rows| ensures MayFollow(before, rows[i], rows[k]) { FollowsUnlessBefore(before, rows[i], rows[k]); }
    forall w, i | w in all && w !in rows && 0 <= i < |rows| ensures MayFollow(before, rows[i], w) {
      LeftOutIsLater(before, s, m, w, i);
      FollowsUnlessBefore(before, s[i], w);
    }
  }

  /**
   The traversal as a whole: the statement's LIMIT is the smaller of page size and path budget, and one more; the result
   is cut to the page size. So a budget smaller than the page can be exceeded, by one row.
   */
  method Paths(edges: seq<Edge>, start: Vertex, min: nat, max: nat, before: Collation, pageSize: nat, maxPaths: nat) returns (rows: seq<Walk>)
    requires IsCollation(before)
    ensures exists all :: Traversed(edges, start, min, max, all) && FirstRows(before, all, if maxPaths < pageSize then maxPaths + 1 else pageSize, rows)
                          && (|rows| > maxPaths <==> maxPaths < pageSize && maxPaths < |all|)
  {
    var all := Traverse(edges, start, min, max);
    var limit := (if pageSize < maxPaths then pageSize else maxPaths) + 1;
    var sorted := SortRows(before, all);
    var selected := sorted[..if limit < |sorted| then limit else |sorted|];
    rows := selected[..if pageSize < |selected| then pageSize else |selected|];
    var n := if maxPaths < pageSize then maxPaths + 1 else pageSize;
    FirstOfSorted(before, all, n);
    assert rows == sorted[..if n < |all| then n else |all|];
  }

  // --- Consequences ---

  lemma WithoutOne(p: seq<nat>, i: nat)
    requires NoRepeats(p) && i < |p|
    ensures var q := p[..i] + p[i + 1..]; NoRepeats(q) && forall x :: x in q ==> x in p && x != p[i]
  {
    var q := p[..i] + p[i + 1..];
    forall x | x in q ensures x in p && x != p[i] {
      var k :| 0 <= k < |q| && q[k] == x;
      var m := if k < i then k else k + 1;
      assert p[m] == x && m != i;
    }
    forall k, m | 0 <= k < m < |q| ensures q[k] != q[m] {
      assert q[k] == p[if k < i then k else k + 1] && q[m] == p[if m < i then m else m + 1];
    }
  }

  lemma {:induction false} DistinctBelow(p: seq<nat>, n: nat)
    requires forall x :: x in p ==> x < n
    requires NoRepeats(p)
    ensures |p| <= n
  {
    SomeElement(p);
    if n > 0 {
      if n - 1 in p {
        var i :| 0 <= i < |p| && p[i] == n - 1;
        WithoutOne(p, i);
        DistinctBelow(p[..i] + p[i + 1..], n - 1);
      } else {
        DistinctBelow(p, n - 1);
      }
    }
  }

  lemma {:induction false} TargetAt(edges: seq<Edge>, start: Vertex, p: seq<nat>, i: nat)
    requires InRange(edges, p) && i < |p|
    ensures Vertices(edges, start, p)[i + 1] == edges[p[i]].target
  {
    if i < |p| - 1 { TargetAt(edges, start, p[..|p| - 1], i); }
  }

  /** No path is longer than there are edges, so cycles cannot keep the recursion going even without a depth bound. */
  lemma SimplePathsAreShort(edges: seq<Edge>, start: Vertex, p: seq<nat>)
    requires SimplePath(edges, start, p)
    ensures |p| <= |edges|
  {
    forall i, k | 0 <= i < k < |p| ensures p[i] != p[k] {
      TargetAt(edges, start, p, i);
      TargetAt(edges, start, p, k);
      var ks := Keys(Vertices(edges, start, p));
      assert ks[i + 1] != ks[k + 1];
    }
    assert NoRepeats(p);
    DistinctBelow(p, |edges|);
  }

  /** A row's consecutive vertices are related in the stored relations, in a direction that was asked for. */
  lemma RowsFollowRelations(direction: Direction, relations: seq<Collection>, start: Vertex, min: nat, max: nat,
                            rows: seq<Walk>, w: Walk, k: nat)
    requires Traversed(EdgeRows(direction, relations), start, min, max, rows) && w in rows && k < w.depth
    ensures SimplePath(EdgeRows(direction, relations), start, w.edges)
    ensures var vs := Vertices(EdgeRows(direction, relations), start, w.edges);
      Usable(direction, relations, Edge(w.relationPath[k], vs[k], vs[k + 1]))
  {
    var edges := EdgeRows(direction, relations);
    assert IsRow(edges, start, w);
    var e := edges[w.edges[k]];
    assert e in edges && e.ref == w.relationPath[k];
    TargetAt(edges, start, w.edges, k);
    EdgeRowsAreUsable(direction, relations, e);
  }
}
