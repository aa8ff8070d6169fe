/**
 The cursor condition of a live-keyset page: built as text by loops, read back as a tree, and evaluated under
 three-valued logic. It is true exactly on the rows after the cursor, and it is never unknown.
 */
module Keyset {
  import opened Wrappers
  import opened SqlSyntax
  import opened ParserFacts
  import opened ExpressionCompiler
  import opened CompilerCorrectness
  import opened SortKeys
  import opened SqlMeaning

  // --- The compiler ---

  datatype OrderItem = OrderItem(expression: BoundStatement, sort: Sort)

  function Bound(v: Value): BoundStatement { BoundStatement([Placeholder], [v]) }

  function NullTested(e: BoundStatement, negated: bool): BoundStatement {
    BoundStatement(e.command + IsNullTokens(negated), e.parameters)
  }

  function Infixed(left: BoundStatement, word: Word, right: BoundStatement): BoundStatement {
    BoundStatement(left.command + [Kw(word)] + right.command, left.parameters + right.parameters)
  }

  function Parens(b: BoundStatement): BoundStatement { BoundStatement(Wrap(b.command), b.parameters) }

  function Strictly(s: Sort): Symbol { if s.direction == Asc then Gt else Lt }

  /** `e IS NOT NULL AND e > v`. */
  function Later(e: BoundStatement, s: Sort, v: Value): BoundStatement {
    Infixed(NullTested(e, true), AND, Compared(e, Strictly(s), Bound(v)))
  }

  /** `_after`. */
  function After(e: BoundStatement, s: Sort, v: Value): BoundStatement {
    if v == Null then
      if s.nulls == NullsLast then BoundStatement([Kw(FALSE)], []) else NullTested(e, true)
    else if s.nulls == NullsLast then Parens(Infixed(NullTested(e, false), OR, Parens(Later(e, s, v))))
    else Parens(Later(e, s, v))
  }

  /** `e IS NOT DISTINCT FROM v`. */
  function Same(e: BoundStatement, v: Value): BoundStatement {
    BoundStatement(e.command + NotDistinctTokens + [Placeholder], e.parameters + [v])
  }

  function Equals(order: seq<OrderItem>, cursor: seq<Value>, i: nat): (bs: seq<BoundStatement>)
    requires i <= |order| == |cursor|
    ensures |bs| == i
    ensures forall j :: 0 <= j < i ==> bs[j] == Same(order[j].expression, cursor[j])
  {
    if i == 0 then [] else Equals(order, cursor, i - 1) + [Same(order[i - 1].expression, cursor[i - 1])]
  }

  function Branch(order: seq<OrderItem>, cursor: seq<Value>, i: nat): BoundStatement
    requires i < |order| == |cursor|
  {
    Conjunction(Equals(order, cursor, i) + [After(order[i].expression, order[i].sort, cursor[i])])
  }

  function Branches(order: seq<OrderItem>, cursor: seq<Value>, n: nat): (bs: seq<BoundStatement>)
    requires n <= |order| == |cursor|
    ensures |bs| == n
    ensures forall i :: 0 <= i < n ==> bs[i] == Branch(order, cursor, i)
  {
    if n == 0 then [] else Branches(order, cursor, n - 1) + [Branch(order, cursor, n - 1)]
  }

  /** `_keyset`: None when the cursor has another length than the order. */
  method CompileKeyset(order: seq<OrderItem>, cursor: seq<Value>) returns (b: Option<BoundStatement>)
    ensures b.Some? <==> |order| == |cursor|
    ensures b.Some? ==> b.value == Disjunction(Branches(order, cursor, |order|))
  {
    if |cursor| != |order| { return None; }
    var branches: seq<BoundStatement> := [];
    for index := 0 to |order|
      invariant branches == Branches(order, cursor, index)
    {
      var equal: seq<BoundStatement> := [];
      for previous := 0 to index
        invariant equal == Equals(order, cursor, previous)
      {
        equal := equal + [Same(order[previous].expression, cursor[previous])];
      }
      var comparison := After(order[index].expression, order[index].sort, cursor[index]);
      branches := branches + [Conjunction(equal + [comparison])];
    }
    return Some(Disjunction(branches));
  }

  // --- The tree it denotes ---

  function AfterTree(t: Sql, s: Sort, v: Value): Sql {
    if v == Null then if s.nulls == NullsLast then Bool(false) else NullTest(t, true)
    else
      var later := Both(NullTest(t, true), Op(Strictly(s), t, Val(v)));
      if s.nulls == NullsLast then Either(NullTest(t, false), later) else later
  }

  function EqualTrees(ts: seq<Sql>, cursor: seq<Value>, i: nat): (us: seq<Sql>)
    requires i <= |ts| == |cursor|
    ensures |us| == i
    ensures forall j :: 0 <= j < i ==> us[j] == NotDistinct(ts[j], Val(cursor[j]))
  {
    if i == 0 then [] else EqualTrees(ts, cursor, i - 1) + [NotDistinct(ts[i - 1], Val(cursor[i - 1]))]
  }

  function BranchTrees(ts: seq<Sql>, sorts: seq<Sort>, cursor: seq<Value>, n: nat): (us: seq<Sql>)
    requires n <= |ts| == |sorts| == |cursor|
    ensures |us| == n
    ensures forall i :: 0 <= i < n ==> us[i] == BranchTree(ts, sorts, cursor, i)
  {
    if n == 0 then [] else BranchTrees(ts, sorts, cursor, n - 1) + [BranchTree(ts, sorts, cursor, n - 1)]
  }

  function BranchTree(ts: seq<Sql>, sorts: seq<Sort>, cursor: seq<Value>, i: nat): Sql
    requires i < |ts| == |sorts| == |cursor|
  {
    Folded(8, EqualTrees(ts, cursor, i) + [AfterTree(ts[i], sorts[i], cursor[i])])
  }

  function KeysetTree(ts: seq<Sql>, sorts: seq<Sort>, cursor: seq<Value>): Sql
    requires |ts| == |sorts| == |cursor|
  {
    Folded(9, BranchTrees(ts, sorts, cursor, |ts|))
  }

  // --- The text reads as the tree ---

  lemma NullTestReads(e: BoundStatement, f: Value -> Value, t: Sql, negated: bool)
    requires Means(5, e, f, t)
    ensures Means(6, NullTested(e, negated), f, NullTest(t, negated))
    ensures Means(7, NullTested(e, negated), f, NullTest(t, negated))
    ensures Means(8, NullTested(e, negated), f, NullTest(t, negated))
  {
    TestNull(e.command, MapValues(f, e.parameters), MapTree(f, t), negated);
    Looser(6, 7, NullTested(e, negated), f, NullTest(t, negated));
    Looser(6, 8, NullTested(e, negated), f, NullTest(t, negated));
  }

  lemma NotDistinctReads(left: BoundStatement, right: BoundStatement, f: Value -> Value, t: Sql, u: Sql)
    requires Means(5, left, f, t) && Means(5, right, f, u)
    ensures Means(6, BoundStatement(left.command + NotDistinctTokens + right.command, left.parameters + right.parameters), f, NotDistinct(t, u))
  {
    MapAppend(f, left.parameters, right.parameters);
    TestNotDistinct(left.command, MapValues(f, left.parameters), MapTree(f, t), right.command, MapValues(f, right.parameters), MapTree(f, u));
  }

  lemma SameReads(e: BoundStatement, f: Value -> Value, t: Sql, v: Value)
    requires Means(5, e, f, t)
    ensures Means(9, Same(e, v), f, NotDistinct(t, Val(v)))
  {
    ValueReads(v, f);
    Looser(0, 5, Bound(v), f, Val(v));
    NotDistinctReads(e, Bound(v), f, t, Val(v));
    Looser(6, 9, Same(e, v), f, NotDistinct(t, Val(v)));
  }

  lemma InfixedReads(n: nat, left: BoundStatement, word: Word, right: BoundStatement, f: Value -> Value, t: Sql, u: Sql)
    requires (word == AND && n == 8) || (word == OR && n == 9)
    requires Means(n - 1, left, f, t) && Means(n - 1, right, f, u)
    ensures Means(n, Infixed(left, word, right), f, if n == 8 then Both(t, u) else Either(t, u))
  {
    MapAppend(f, left.parameters, right.parameters);
    Infix(n, left.command, MapValues(f, left.parameters), MapTree(f, t), Kw(word), right.command, MapValues(f, right.parameters), MapTree(f, u));
  }

  lemma LaterReads(e: BoundStatement, s: Sort, v: Value, f: Value -> Value, t: Sql)
    requires Means(4, e, f, t)
    ensures Means(9, Later(e, s, v), f, Both(NullTest(t, true), Op(Strictly(s), t, Val(v))))
  {
    Looser(4, 5, e, f, t);
    NullTestReads(e, f, t, true);
    ValueReads(v, f);
    Looser(0, 4, Bound(v), f, Val(v));
    Operator(5, e, Strictly(s), Bound(v), f, t, Val(v));
    Looser(5, 7, Compared(e, Strictly(s), Bound(v)), f, Op(Strictly(s), t, Val(v)));
    InfixedReads(8, NullTested(e, true), AND, Compared(e, Strictly(s), Bound(v)), f, NullTest(t, true), Op(Strictly(s), t, Val(v)));
    Looser(8, 9, Later(e, s, v), f, Both(NullTest(t, true), Op(Strictly(s), t, Val(v))));
  }

  lemma AfterNullReads(e: BoundStatement, s: Sort, f: Value -> Value, t: Sql)
    requires s.nulls == NullsFirst ==> Means(5, e, f, t)
    ensures Means(9, After(e, s, Null), f, AfterTree(t, s, Null))
  {
    if s.nulls == NullsLast {
      PlainPrimary(Kw(FALSE), Bool(false));
      PrimaryParses([Kw(FALSE)], [], Bool(false));
      Looser(0, 9, BoundStatement([Kw(FALSE)], []), f, Bool(false));
    } else {
      NullTestReads(e, f, t, true);
      Looser(6, 9, NullTested(e, true), f, NullTest(t, true));
    }
  }

  lemma ParensRead(b: BoundStatement, f: Value -> Value, t: Sql)
    requires Means(9, b, f, t)
    ensures Means(8, Parens(b), f, t) && Means(9, Parens(b), f, t)
  {
    Parenthesised(b, f, t);
    Looser(0, 8, Parens(b), f, t);
    Looser(0, 9, Parens(b), f, t);
  }

  /** The loosest level at which an order expression reads wherever the condition for this cursor value prints it. */
  function Room(v: Value): nat { if v == Null then 5 else 4 }

  lemma AfterReads(e: BoundStatement, s: Sort, v: Value, f: Value -> Value, t: Sql)
    requires v != Null || s.nulls == NullsFirst ==> Means(Room(v), e, f, t)
    ensures Means(9, After(e, s, v), f, AfterTree(t, s, v))
  {
    if v == Null {
      AfterNullReads(e, s, f, t);
    } else {
      var later := Both(NullTest(t, true), Op(Strictly(s), t, Val(v)));
      Looser(4, 5, e, f, t);
      LaterReads(e, s, v, f, t);
      ParensRead(Later(e, s, v), f, later);
      if s.nulls == NullsLast { NullOrReads(e, Parens(Later(e, s, v)), f, t, later); }
    }
  }

  lemma NullOrReads(e: BoundStatement, b: BoundStatement, f: Value -> Value, t: Sql, u: Sql)
    requires Means(5, e, f, t) && Means(8, b, f, u)
    ensures Means(9, Parens(Infixed(NullTested(e, false), OR, b)), f, Either(NullTest(t, false), u))
  {
    NullTestReads(e, f, t, false);
    InfixedReads(9, NullTested(e, false), OR, b, f, NullTest(t, false), u);
    ParensRead(Infixed(NullTested(e, false), OR, b), f, Either(NullTest(t, false), u));
  }

  /** Every order expression binds tighter than a comparison. */
  ghost predicate OrderMeans(order: seq<OrderItem>, f: Value -> Value, ts: seq<Sql>) {
    |order| == |ts| && forall i :: 0 <= i < |order| ==> Means(4, order[i].expression, f, ts[i])
  }

  /** A condition prints every order expression, but not the last one when the cursor stands at a NULL and NULL comes last. */
  predicate Shown(order: seq<OrderItem>, cursor: seq<Value>, i: nat)
    requires i < |order| == |cursor|
  {
    i < |order| - 1 || cursor[i] != Null || order[i].sort.nulls == NullsFirst
  }

  /** Every order expression the condition for this cursor prints reads in all the places it is printed. */
  ghost predicate CursorMeans(order: seq<OrderItem>, cursor: seq<Value>, f: Value -> Value, ts: seq<Sql>) {
    && |order| == |cursor| == |ts|
    && forall i :: 0 <= i < |order| && Shown(order, cursor, i) ==> Means(Room(cursor[i]), order[i].expression, f, ts[i])
  }

  /** Expressions tighter than a comparison read under every cursor. */
  lemma AnyCursorMeans(order: seq<OrderItem>, cursor: seq<Value>, f: Value -> Value, ts: seq<Sql>)
    requires |order| == |cursor| && OrderMeans(order, f, ts)
    ensures CursorMeans(order, cursor, f, ts)
  {
    forall i | 0 <= i < |order| ensures Means(Room(cursor[i]), order[i].expression, f, ts[i]) {
      Looser(4, Room(cursor[i]), order[i].expression, f, ts[i]);
    }
  }

  function SortsOf(order: seq<OrderItem>): (sorts: seq<Sort>)
    ensures |sorts| == |order| && forall i :: 0 <= i < |order| ==> sorts[i] == order[i].sort
  {
    seq(|order|, (i: nat) requires i < |order| => order[i].sort)
  }

  lemma EqualsRead(order: seq<OrderItem>, cursor: seq<Value>, f: Value -> Value, ts: seq<Sql>, i: nat)
    requires i < |order| == |cursor| && CursorMeans(order, cursor, f, ts)
    ensures AllMean(Equals(order, cursor, i), f, EqualTrees(ts, cursor, i))
  {
    forall j | 0 <= j < i ensures Means(9, Equals(order, cursor, i)[j], f, EqualTrees(ts, cursor, i)[j]) {
      var e, t, v := order[j].expression, ts[j], cursor[j];
      assert Shown(order, cursor, j);
      Looser(Room(v), 5, e, f, t);
      SameReads(e, f, t, v);
    }
  }

  lemma OneMoreMeans(parts: seq<BoundStatement>, f: Value -> Value, ts: seq<Sql>, last: BoundStatement, t: Sql)
    requires AllMean(parts, f, ts) && Means(9, last, f, t)
    ensures AllMean(parts + [last], f, ts + [t])
  {
  }

  lemma ConjunctionMeans(parts: seq<BoundStatement>, f: Value -> Value, ts: seq<Sql>)
    requires AllMean(parts, f, ts)
    ensures Means(9, Conjunction(parts), f, Folded(8, ts))
  {
    ConjunctionReads(parts, f, ts);
    Looser(if |parts| <= 1 then 0 else 8, 9, Conjunction(parts), f, Folded(8, ts));
  }

  lemma BranchReads(order: seq<OrderItem>, cursor: seq<Value>, f: Value -> Value, ts: seq<Sql>, i: nat)
    requires i < |order| == |cursor| && CursorMeans(order, cursor, f, ts)
    ensures Means(9, Branch(order, cursor, i), f, BranchTree(ts, SortsOf(order), cursor, i))
  {
    EqualsRead(order, cursor, f, ts, i);
    var e, t, s, v := order[i].expression, ts[i], order[i].sort, cursor[i];
    assert Shown(order, cursor, i) <== v != Null || s.nulls == NullsFirst;
    AfterReads(e, s, v, f, t);
    var parts, trees := Equals(order, cursor, i), EqualTrees(ts, cursor, i);
    OneMoreMeans(parts, f, trees, After(e, s, v), AfterTree(t, s, v));
    ConjunctionMeans(parts + [After(e, s, v)], f, trees + [AfterTree(t, s, v)]);
  }

  lemma BranchesRead(order: seq<OrderItem>, cursor: seq<Value>, f: Value -> Value, ts: seq<Sql>, n: nat)
    requires n <= |order| == |cursor| && CursorMeans(order, cursor, f, ts)
    ensures AllMean(Branches(order, cursor, n), f, BranchTrees(ts, SortsOf(order), cursor, n))
  {
    forall i | 0 <= i < n ensures Means(9, Branches(order, cursor, n)[i], f, BranchTrees(ts, SortsOf(order), cursor, n)[i]) {
      BranchReads(order, cursor, f, ts, i);
    }
  }

  lemma KeysetReads(order: seq<OrderItem>, cursor: seq<Value>, f: Value -> Value, ts: seq<Sql>)
    requires CursorMeans(order, cursor, f, ts)
    ensures Means(9, Disjunction(Branches(order, cursor, |order|)), f, KeysetTree(ts, SortsOf(order), cursor))
  {
    BranchesRead(order, cursor, f, ts, |order|);
    var parts, trees := Branches(order, cursor, |order|), BranchTrees(ts, SortsOf(order), cursor, |ts|);
    DisjunctionReads(parts, f, trees);
    Looser(if |parts| <= 1 then 0 else 9, 9, Disjunction(parts), f, Folded(9, trees));
  }

  // --- Conditions that are decided ---

  /** The conditions are decided, each as `bs` says. */
  ghost predicate Decided(ts: seq<Sql>, f: Value -> Value, row: Row, bs: seq<bool>) {
    |ts| == |bs| && forall i :: 0 <= i < |ts| ==> Holds(MapTree(f, ts[i]), row) == TruthOf(bs[i])
  }

  predicate AllOf(bs: seq<bool>) { forall i :: 0 <= i < |bs| ==> bs[i] }

  predicate AnyOf(bs: seq<bool>) { exists i :: 0 <= i < |bs| && bs[i] }

  lemma LastOf(bs: seq<bool>)
    requires bs != []
    ensures var n := |bs| - 1; (AllOf(bs) <==> AllOf(bs[..n]) && bs[n]) && (AnyOf(bs) <==> AnyOf(bs[..n]) || bs[n])
  {
    var n := |bs| - 1;
    if AllOf(bs[..n]) && bs[n] {
      forall i | 0 <= i < |bs| ensures bs[i] { if i < n { assert bs[..n][i]; } }
    }
    if AnyOf(bs[..n]) {
      var i :| 0 <= i < n && bs[..n][i];
      assert bs[i];
    }
    if AnyOf(bs) && !bs[n] {
      var i :| 0 <= i < |bs| && bs[i];
      assert bs[..n][i];
    }
  }

  lemma {:induction false} AllDecided(ts: seq<Sql>, f: Value -> Value, row: Row, bs: seq<bool>)
    requires Decided(ts, f, row, bs)
    ensures Holds(MapTree(f, Folded(8, ts)), row) == TruthOf(AllOf(bs))
  {
    if ts != [] {
      var n := |ts| - 1;
      LastOf(bs);
      assert Holds(MapTree(f, ts[n]), row) == TruthOf(bs[n]);
      if n > 0 { AllDecided(ts[..n], f, row, bs[..n]); }
    }
  }

  lemma {:induction false} AnyDecided(ts: seq<Sql>, f: Value -> Value, row: Row, bs: seq<bool>)
    requires Decided(ts, f, row, bs)
    ensures Holds(MapTree(f, Folded(9, ts)), row) == TruthOf(AnyOf(bs))
  {
    if ts != [] {
      var n := |ts| - 1;
      LastOf(bs);
      assert Holds(MapTree(f, ts[n]), row) == TruthOf(bs[n]);
      if n > 0 { AnyDecided(ts[..n], f, row, bs[..n]); }
    }
  }

  /** The row's key is `b`; the cursor's values stand for the key `a`, NULL for NULL. */
  ghost predicate Keyed(row: Row, f: Value -> Value, ts: seq<Sql>, cursor: seq<Value>, a: Key, b: Key) {
    && |a| == |b| == |ts| == |cursor|
    && forall i :: 0 <= i < |ts| ==>
         && Eval(MapTree(f, ts[i]), row) == b[i]
         && Eval(Val(f(cursor[i])), row) == a[i]
         && (cursor[i] == Null <==> a[i] == None)
  }

  lemma BothHolds(t: Sql, u: Sql, row: Row)
    ensures Holds(Both(t, u), row) == AndOf(Holds(t, row), Holds(u, row)) && Holds(Either(t, u), row) == OrOf(Holds(t, row), Holds(u, row))
  {
  }

  lemma StrictlyOperates(db: Database, s: Sort, y: Cell, x: Cell)
    requires x.Some?
    ensures Operate(db, Strictly(s), y, x) == if y.None? then None else AsCell(TruthOf(CellBefore(s, x, y)))
  {
  }

  lemma LaterHolds(t: Sql, s: Sort, v: Value, f: Value -> Value, row: Row, x: Cell, y: Cell)
    requires Eval(MapTree(f, t), row) == y && Eval(Val(f(v)), row) == x && x.Some?
    ensures Holds(MapTree(f, Both(NullTest(t, true), Op(Strictly(s), t, Val(v)))), row) == TruthOf(y.Some? && CellBefore(s, x, y))
  {
    var u := MapTree(f, t);
    assert MapTree(f, Op(Strictly(s), t, Val(v))) == Op(Strictly(s), u, Val(f(v)));
    assert MapTree(f, NullTest(t, true)) == NullTest(u, true);
    StrictlyOperates(row.db, s, y, x);
    assert Eval(Op(Strictly(s), u, Val(f(v))), row) == if y.None? then None else AsCell(TruthOf(CellBefore(s, x, y)));
    assert Eval(NullTest(u, true), row) == AsCell(TruthOf(y.Some?));
    BothHolds(NullTest(u, true), Op(Strictly(s), u, Val(f(v))), row);
  }

  lemma AfterHolds(t: Sql, s: Sort, v: Value, f: Value -> Value, row: Row, x: Cell, y: Cell)
    requires Eval(MapTree(f, t), row) == y && Eval(Val(f(v)), row) == x && (v == Null <==> x == None)
    ensures Holds(MapTree(f, AfterTree(t, s, v)), row) == TruthOf(CellBefore(s, x, y))
  {
    if v != Null {
      LaterHolds(t, s, v, f, row, x, y);
      if s.nulls == NullsLast { NullOrHolds(t, Both(NullTest(t, true), Op(Strictly(s), t, Val(v))), f, row); }
    }
  }

  lemma NullOrHolds(t: Sql, u: Sql, f: Value -> Value, row: Row)
    ensures Holds(MapTree(f, Either(NullTest(t, false), u)), row)
            == if Eval(MapTree(f, t), row).None? then True else OrOf(False, Holds(MapTree(f, u), row))
  {
    assert MapTree(f, NullTest(t, false)) == NullTest(MapTree(f, t), false);
    BothHolds(NullTest(MapTree(f, t), false), MapTree(f, u), row);
  }

  function EqualCells(a: Key, b: Key, i: nat): (bs: seq<bool>)
    requires i <= |a| == |b|
    ensures |bs| == i && forall j :: 0 <= j < i ==> bs[j] == (a[j] == b[j])
  {
    seq(i, (j: nat) requires j < i => a[j] == b[j])
  }

  lemma AllEqual(a: Key, b: Key, i: nat)
    requires i <= |a| == |b|
    ensures AllOf(EqualCells(a, b, i)) <==> a[..i] == b[..i]
  {
    var bs := EqualCells(a, b, i);
    if a[..i] == b[..i] {
      forall j | 0 <= j < |bs| ensures bs[j] { assert a[..i][j] == b[..i][j]; }
    }
    if AllOf(bs) {
      forall j | 0 <= j < i ensures a[j] == b[j] { assert bs[j]; }
    }
  }

  lemma BranchHolds(ts: seq<Sql>, sorts: seq<Sort>, cursor: seq<Value>, f: Value -> Value, row: Row, a: Key, b: Key, i: nat)
    requires |sorts| == |ts| && Keyed(row, f, ts, cursor, a, b) && i < |ts|
    ensures Holds(MapTree(f, BranchTree(ts, sorts, cursor, i)), row) == TruthOf(BeforeAt(sorts, a, b, i))
  {
    var trees := EqualTrees(ts, cursor, i) + [AfterTree(ts[i], sorts[i], cursor[i])];
    var bs := EqualCells(a, b, i) + [CellBefore(sorts[i], a[i], b[i])];
    forall j | 0 <= j < |trees| ensures Holds(MapTree(f, trees[j]), row) == TruthOf(bs[j]) {
      if j == i {
        AfterHolds(ts[i], sorts[i], cursor[i], f, row, a[i], b[i]);
      } else {
        assert trees[j] == NotDistinct(ts[j], Val(cursor[j]));
      }
    }
    AllDecided(trees, f, row, bs);
    LastOf(bs);
    assert bs[..i] == EqualCells(a, b, i);
    AllEqual(a, b, i);
  }

  /** For every order and every cursor: true exactly after the cursor, false everywhere else, never unknown. */
  lemma KeysetHolds(ts: seq<Sql>, sorts: seq<Sort>, cursor: seq<Value>, f: Value -> Value, row: Row, a: Key, b: Key)
    requires |sorts| == |ts| && Keyed(row, f, ts, cursor, a, b)
    ensures Holds(MapTree(f, KeysetTree(ts, sorts, cursor)), row) == TruthOf(Before(sorts, a, b))
  {
    var trees := BranchTrees(ts, sorts, cursor, |ts|);
    var bs := Deciding(sorts, a, b);
    forall i | 0 <= i < |ts| ensures Holds(MapTree(f, trees[i]), row) == TruthOf(bs[i]) {
      BranchHolds(ts, sorts, cursor, f, row, a, b, i);
    }
    AnyDecided(trees, f, row, bs);
    SomeDecides(sorts, a, b);
  }

  function Deciding(sorts: seq<Sort>, a: Key, b: Key): (bs: seq<bool>)
    requires |a| == |b| == |sorts|
    ensures |bs| == |sorts| && forall i :: 0 <= i < |sorts| ==> bs[i] == BeforeAt(sorts, a, b, i)
  {
    seq(|sorts|, (i: nat) requires i < |sorts| => BeforeAt(sorts, a, b, i))
  }

  lemma SomeDecides(sorts: seq<Sort>, a: Key, b: Key)
    requires |a| == |b| == |sorts|
    ensures AnyOf(Deciding(sorts, a, b)) <==> Before(sorts, a, b)
  {
    BeforeIsDecidedSomewhere(sorts, a, b);
    if Before(sorts, a, b) {
      var i :| 0 <= i < |sorts| && BeforeAt(sorts, a, b, i);
      assert Deciding(sorts, a, b)[i];
    }
  }

  // --- The WHERE clause of a later page ---

  /** `where` narrowed by the cursor condition. */
  function Narrowed(where: BoundStatement, order: seq<OrderItem>, cursor: seq<Value>): BoundStatement
    requires |order| == |cursor|
  {
    Conjunction([where, Disjunction(Branches(order, cursor, |order|))])
  }

  function NarrowedTree(w: Sql, ts: seq<Sql>, sorts: seq<Sort>, cursor: seq<Value>, f: Value -> Value): Sql
    requires |ts| == |sorts| == |cursor|
  {
    Both(MapTree(f, w), MapTree(f, KeysetTree(ts, sorts, cursor)))
  }

  /**
   The text of a later page's condition, with its values, reads as a condition that holds exactly for the rows that
   match the original condition and come strictly after the cursor.
   */
  lemma NarrowedSelectsLaterRows(where: BoundStatement, w: Sql, order: seq<OrderItem>, ts: seq<Sql>, cursor: seq<Value>,
                                 f: Value -> Value, row: Row, a: Key, b: Key)
    requires Means(9, where, f, w) && CursorMeans(order, cursor, f, ts) && Keyed(row, f, ts, cursor, a, b)
    ensures var text := Narrowed(where, order, cursor);
      ParseAll(text.command, MapValues(f, text.parameters)) == Got(NarrowedTree(w, ts, SortsOf(order), cursor, f), [], [])
    ensures Holds(NarrowedTree(w, ts, SortsOf(order), cursor, f), row) == True
            <==> Holds(MapTree(f, w), row) == True && Before(SortsOf(order), a, b)
  {
    NarrowedText(where, w, order, ts, cursor, f);
    NarrowedHolds(w, ts, SortsOf(order), cursor, f, row, a, b);
  }

  lemma NarrowedHolds(w: Sql, ts: seq<Sql>, sorts: seq<Sort>, cursor: seq<Value>, f: Value -> Value, row: Row, a: Key, b: Key)
    requires |sorts| == |ts| && Keyed(row, f, ts, cursor, a, b)
    ensures Holds(NarrowedTree(w, ts, sorts, cursor, f), row) == True <==> Holds(MapTree(f, w), row) == True && Before(sorts, a, b)
  {
    KeysetHolds(ts, sorts, cursor, f, row, a, b);
    BothHolds(MapTree(f, w), MapTree(f, KeysetTree(ts, sorts, cursor)), row);
  }

  lemma NarrowedText(where: BoundStatement, w: Sql, order: seq<OrderItem>, ts: seq<Sql>, cursor: seq<Value>, f: Value -> Value)
    requires Means(9, where, f, w) && CursorMeans(order, cursor, f, ts)
    ensures var text := Narrowed(where, order, cursor);
      ParseAll(text.command, MapValues(f, text.parameters))
      == Got(Both(MapTree(f, w), MapTree(f, KeysetTree(ts, SortsOf(order), cursor))), [], [])
  {
    KeysetReads(order, cursor, f, ts);
    NarrowedReads(where, w, Disjunction(Branches(order, cursor, |order|)), KeysetTree(ts, SortsOf(order), cursor), f);
  }

  lemma PairFolded(w: Sql, k: Sql)
    ensures Folded(8, [w, k]) == Both(w, k)
  {
    assert [w, k][..1] == [w];
  }

  lemma PairMeans(a: BoundStatement, b: BoundStatement, f: Value -> Value, t: Sql, u: Sql)
    requires Means(9, a, f, t) && Means(9, b, f, u)
    ensures Means(8, Conjunction([a, b]), f, Both(t, u))
  {
    assert AllMean([a, b], f, [t, u]);
    ConjunctionReads([a, b], f, [t, u]);
    PairFolded(t, u);
  }

  lemma NarrowedReads(where: BoundStatement, w: Sql, keyset: BoundStatement, k: Sql, f: Value -> Value)
    requires Means(9, where, f, w) && Means(9, keyset, f, k)
    ensures var text := Conjunction([where, keyset]);
      ParseAll(text.command, MapValues(f, text.parameters)) == Got(Both(MapTree(f, w), MapTree(f, k)), [], [])
  {
    PairMeans(where, keyset, f, w, k);
    WholeReads(Conjunction([where, keyset]), f, Both(w, k));
  }

  lemma WholeReads(text: BoundStatement, f: Value -> Value, t: Sql)
    requires Means(8, text, f, t)
    ensures ParseAll(text.command, MapValues(f, text.parameters)) == Got(MapTree(f, t), [], [])
  {
    Looser(8, 9, text, f, t);
    var ps := MapValues(f, text.parameters);
    Reads(9, text.command, ps, MapTree(f, t), [], []);
    assert text.command + [] == text.command && ps + [] == ps;
  }
}
