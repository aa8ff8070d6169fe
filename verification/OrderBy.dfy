/** The order of a live-keyset page: the requested terms, then every identity field they leave out. */
module OrderBy {
  import opened Wrappers
  import Sets
  import opened SqlSyntax
  import opened ParserFacts
  import opened ExpressionCompiler
  import opened CompilerCorrectness
  import opened SortKeys
  import opened SqlMeaning
  import opened Keyset
  import opened KeysetExact
  import CompiledQuery

  /** Logical field name to physical column, and the identity fields. */
  datatype Layout = Layout(columns: map<string, string>, identity: seq<string>)

  /** The resources of one query, the base among them under the alias t0. */
  datatype Targets = Targets(base: string, aliases: map<string, string>, layouts: map<string, Layout>)

  ghost predicate ValidTargets(ts: Targets) {
    && ts.aliases.Keys == ts.layouts.Keys
    && ts.base in ts.aliases && ts.aliases[ts.base] == "t0"
    && forall r :: r in ts.layouts ==> forall name :: name in ts.layouts[r].identity ==> name in ts.layouts[r].columns
  }

  datatype Term =
    | ByField(resource: Option<string>, name: string, sort: Sort)
    | ByExpression(expression: Expr, sort: Sort)

  predicate EndsWith(text: string, end: string) { |end| <= |text| && text[|text| - |end|..] == end }

  /** The resources whose name ends in `value`, after a colon or a dot. */
  function Suffixed(ts: Targets, value: string): set<string> {
    set key | key in ts.aliases && (EndsWith(key, ":" + value) || EndsWith(key, "." + value))
  }

  /** `_canonical_resource`: the resource of this name, or else the only one with it as suffix. */
  function Canonical(ts: Targets, value: string): (key: Option<string>)
    ensures key.Some? ==> key.value in ts.aliases
  {
    if value in ts.aliases then Some(value)
    else if |Suffixed(ts, value)| != 1 then None
    else
      Sets.Single(Suffixed(ts, value));
      var key :| key in Suffixed(ts, value);
      Some(key)
  }

  /** `_field`: a field without a resource belongs to the base. None wherever the compiler raises. */
  function Resolve(ts: Targets, term: Term): Option<Expr>
    requires ts.aliases.Keys == ts.layouts.Keys
  {
    match term
    case ByExpression(e, _) => Some(e)
    case ByField(resource, name, _) =>
      var r := if resource.None? then Some(ts.base) else Canonical(ts, resource.value);
      if r.None? || r.value !in ts.layouts || name !in ts.layouts[r.value].columns then None
      else Some(Field(ts.aliases[r.value], ts.layouts[r.value].columns[name], Scalar))
  }

  /** The name is the resource's own, or what follows a colon or a dot in it. */
  ghost predicate Abbreviates(value: string, key: string) {
    exists prefix: string :: key == prefix + ":" + value || key == prefix + "." + value
  }

  lemma SuffixedIff(ts: Targets, value: string, key: string)
    ensures key in Suffixed(ts, value) <==> key in ts.aliases && Abbreviates(value, key)
  {
    if key in Suffixed(ts, value) {
      var end := if EndsWith(key, ":" + value) then ":" + value else "." + value;
      var prefix := key[..|key| - |end|];
      assert key == prefix + end;
      assert prefix + ":" + value == prefix + (":" + value) && prefix + "." + value == prefix + ("." + value);
    }
    if key in ts.aliases && Abbreviates(value, key) {
      var prefix: string :| key == prefix + ":" + value || key == prefix + "." + value;
      assert key[|prefix|..] == ":" + value || key[|prefix|..] == "." + value;
    }
  }

  /** A name stands for the resource of that name, or else for the only one it abbreviates. */
  lemma CanonicalIff(ts: Targets, value: string, key: string)
    ensures Canonical(ts, value) == Some(key) <==>
      key in ts.aliases && (key == value || (value !in ts.aliases && Abbreviates(value, key) && forall k :: k in ts.aliases && Abbreviates(value, k) ==> k == key))
  {
    forall k ensures k in Suffixed(ts, value) <==> k in ts.aliases && Abbreviates(value, k) { SuffixedIff(ts, value, k); }
    if key in Suffixed(ts, value) && forall k :: k in Suffixed(ts, value) ==> k == key {
      assert Suffixed(ts, value) == {key};
    }
    if |Suffixed(ts, value)| == 1 { Sets.Single(Suffixed(ts, value)); }
  }

  /** A term that is a field orders by that column of its resource, the base if it names none, and fails without it. */
  lemma FieldTermsAreColumns(ts: Targets, resource: Option<string>, name: string, sort: Sort, key: string)
    requires ts.aliases.Keys == ts.layouts.Keys
    requires if resource.None? then key == ts.base && key in ts.aliases else Canonical(ts, resource.value) == Some(key)
    ensures Item(ts, ByField(resource, name, sort)) ==
      if name in ts.layouts[key].columns then Some(OrderItem(BoundStatement([Column(ts.aliases[key], ts.layouts[key].columns[name])], []), sort)) else None
  {
  }

  function Item(ts: Targets, term: Term): Option<OrderItem>
    requires ts.aliases.Keys == ts.layouts.Keys
  {
    match Resolve(ts, term)
    case None => None
    case Some(e) => (match Compile(e) case None => None case Some(b) => Some(OrderItem(b, term.sort)))
  }

  /** The base's identity field is named by a term. */
  predicate Represented(ts: Targets, terms: seq<Term>, name: string) {
    exists i :: 0 <= i < |terms| && Names(ts, terms[i], name)
  }

  predicate Names(ts: Targets, term: Term, name: string) {
    term.ByField? && term.name == name && (term.resource.None? || term.resource.value == ts.base)
  }

  function BaseColumn(column: string): OrderItem {
    OrderItem(BoundStatement([Column("t0", column)], []), Sort(Asc, NullsLast))
  }

  /** `_order`. */
  method Order(ts: Targets, terms: seq<Term>) returns (order: Option<seq<OrderItem>>)
    requires ValidTargets(ts)
    ensures order.Some? <==> forall i :: 0 <= i < |terms| ==> Item(ts, terms[i]).Some?
    ensures order.Some? ==> IsOrder(ts, terms, order.value)
  {
    var result: seq<OrderItem> := [];
    for i := 0 to |terms|
      invariant |result| == i
      invariant forall j :: 0 <= j < i ==> Item(ts, terms[j]) == Some(result[j])
    {
      var item := Item(ts, terms[i]);
      if item.None? { return None; }
      result := result + [item.value];
    }
    var represented: set<string> := {};
    for i := 0 to |terms|
      invariant forall name :: name in represented <==> exists j :: 0 <= j < i && Names(ts, terms[j], name)
    {
      var term := terms[i];
      if term.ByField? && (term.resource.None? || term.resource.value == ts.base) {
        represented := represented + {term.name};
        assert Names(ts, terms[i], term.name);
      }
    }
    var identity := ts.layouts[ts.base].identity;
    ghost var requested := result;
    for k := 0 to |identity|
      invariant result == requested + Missing(ts, terms, k)
    {
      var name := identity[k];
      if name !in represented {
        result := result + [BaseColumn(ts.layouts[ts.base].columns[name])];
      }
    }
    assert result[..|terms|] == requested && result[|terms|..] == Missing(ts, terms, |identity|);
    return Some(result);
  }

  /** The columns of the first `k` identity fields, in their order, without those a term names. */
  ghost function Missing(ts: Targets, terms: seq<Term>, k: nat): (items: seq<OrderItem>)
    requires ValidTargets(ts) && k <= |ts.layouts[ts.base].identity|
    ensures forall item :: item in items ==> exists column :: item == BaseColumn(column)
  {
    if k == 0 then []
    else
      var base := ts.layouts[ts.base];
      assert base.identity[k - 1] in base.identity;
      Missing(ts, terms, k - 1)
      + if Represented(ts, terms, base.identity[k - 1]) then [] else [BaseColumn(base.columns[base.identity[k - 1]])]
  }

  lemma {:induction false} MissingHas(ts: Targets, terms: seq<Term>, k: nat, j: nat)
    requires ValidTargets(ts) && j < k <= |ts.layouts[ts.base].identity|
    requires !Represented(ts, terms, ts.layouts[ts.base].identity[j])
    ensures ts.layouts[ts.base].identity[j] in ts.layouts[ts.base].columns
    ensures BaseColumn(ts.layouts[ts.base].columns[ts.layouts[ts.base].identity[j]]) in Missing(ts, terms, k)
  {
    assert ts.layouts[ts.base].identity[j] in ts.layouts[ts.base].identity;
    if j < k - 1 { MissingHas(ts, terms, k - 1, j); }
  }

  /** The requested items in their order, then the identity columns no term names, in theirs. */
  ghost predicate IsOrder(ts: Targets, terms: seq<Term>, order: seq<OrderItem>)
    requires ValidTargets(ts)
  {
    && |order| >= |terms|
    && (forall i :: 0 <= i < |terms| ==> Item(ts, terms[i]) == Some(order[i]))
    && order[|terms|..] == Missing(ts, terms, |ts.layouts[ts.base].identity|)
  }

  /** Some item orders by the column. */
  predicate OrdersBy(order: seq<OrderItem>, column: string) {
    exists i :: 0 <= i < |order| && OrderedAt(order, column, i)
  }

  predicate OrderedAt(order: seq<OrderItem>, column: string, i: nat) {
    i < |order| && order[i].expression == BoundStatement([Column("t0", column)], [])
  }

  /** Every identity column of the base takes part in the order, whatever was requested; ascending, NULL last, if it was not. */
  lemma OrderCoversIdentity(ts: Targets, terms: seq<Term>, order: seq<OrderItem>, name: string)
    requires ValidTargets(ts) && IsOrder(ts, terms, order) && name in ts.layouts[ts.base].identity
    ensures OrdersBy(order, ts.layouts[ts.base].columns[name])
    ensures !Represented(ts, terms, name) ==>
      OrderItem(BoundStatement([Column("t0", ts.layouts[ts.base].columns[name])], []), Sort(Asc, NullsLast)) in order[|terms|..]
  {
    var column := ts.layouts[ts.base].columns[name];
    if Represented(ts, terms, name) {
      var i :| 0 <= i < |terms| && Names(ts, terms[i], name);
      assert Item(ts, terms[i]) == Some(order[i]);
      assert OrderedAt(order, column, i);
    } else {
      var identity := ts.layouts[ts.base].identity;
      var j :| 0 <= j < |identity| && identity[j] == name;
      MissingHas(ts, terms, |identity|, j);
      var item := BaseColumn(column);
      var k :| 0 <= k < |order[|terms|..]| && order[|terms|..][k] == item;
      assert OrderedAt(order, column, |terms| + k);
    }
  }

  /** A term that names the base by a suffix is not recognised as naming an identity field, which is then ordered twice. */
  lemma SuffixOrdersTwice(ts: Targets, terms: seq<Term>, order: seq<OrderItem>, i: nat, value: string, name: string, sort: Sort)
    requires ValidTargets(ts) && IsOrder(ts, terms, order) && name in ts.layouts[ts.base].identity && !Represented(ts, terms, name)
    requires i < |terms| && terms[i] == ByField(Some(value), name, sort) && Canonical(ts, value) == Some(ts.base)
    ensures value != ts.base
    ensures var column := ts.layouts[ts.base].columns[name];
      OrderedAt(order, column, i) && exists k :: |terms| <= k < |order| && OrderedAt(order, column, k)
  {
    var column, identity := ts.layouts[ts.base].columns[name], ts.layouts[ts.base].identity;
    assert !Names(ts, terms[i], name);
    assert Item(ts, terms[i]) == Some(order[i]);
    var j :| 0 <= j < |identity| && identity[j] == name;
    MissingHas(ts, terms, |identity|, j);
    var k :| 0 <= k < |order[|terms|..]| && order[|terms|..][k] == BaseColumn(column);
    assert OrderedAt(order, column, |terms| + k);
  }

  /** The value of every order expression for a row. */
  ghost predicate HasKey(row: Row, f: Value -> Value, ts: seq<Sql>, key: Key) {
    |key| == |ts| && forall i :: 0 <= i < |ts| ==> Eval(MapTree(f, ts[i]), row) == key[i]
  }

  lemma ColumnMeans(b: BoundStatement, column: string, f: Value -> Value, t: Sql)
    requires b == BoundStatement([Column("t0", column)], []) && Means(4, b, f, t)
    ensures MapTree(f, t) == Col("t0", column)
  {
    PlainPrimary(Column("t0", column), Col("t0", column));
    PrimaryParses([Column("t0", column)], [], Col("t0", column));
    Lift(0, 4, [Column("t0", column)], [], Col("t0", column));
    Reads(4, b.command, [], MapTree(f, t), [], []);
    Reads(4, b.command, [], Col("t0", column), [], []);
  }

  /** Rows with equal keys have the same identity, so the order of distinct records is total. */
  lemma KeysDetermineIdentity(targets: Targets, terms: seq<Term>, order: seq<OrderItem>, f: Value -> Value, ts: seq<Sql>,
                              r: Row, s: Row, a: Key, b: Key)
    requires ValidTargets(targets) && IsOrder(targets, terms, order) && OrderMeans(order, f, ts)
    requires HasKey(r, f, ts, a) && HasKey(s, f, ts, b)
    ensures a == b || Before(SortsOf(order), a, b) || Before(SortsOf(order), b, a)
    ensures var base := targets.layouts[targets.base];
      a == b ==> forall name :: name in base.identity ==> Eval(Col("t0", base.columns[name]), r) == Eval(Col("t0", base.columns[name]), s)
  {
    BeforeIsTotal(SortsOf(order), a, b);
    var base := targets.layouts[targets.base];
    forall name | a == b && name in base.identity
      ensures Eval(Col("t0", base.columns[name]), r) == Eval(Col("t0", base.columns[name]), s)
    {
      OrderCoversIdentity(targets, terms, order, name);
      var i :| 0 <= i < |order| && OrderedAt(order, base.columns[name], i);
      assert Means(4, order[i].expression, f, ts[i]);
      ColumnMeans(order[i].expression, base.columns[name], f, ts[i]);
    }
  }

  /** The expressions of an order: every requested one, then the remaining identity columns. */
  function OrderExprs(targets: Targets, terms: seq<Term>, order: seq<OrderItem>): (es: seq<Expr>)
    requires targets.aliases.Keys == targets.layouts.Keys
    ensures |es| == |order|
  {
    seq(|order|, (i: nat) requires i < |order| =>
      if i < |terms| && Resolve(targets, terms[i]).Some? then Resolve(targets, terms[i]).value
      else if order[i].expression.command != [] && order[i].expression.command[0].Column? then Field("t0", order[i].expression.command[0].column, Scalar)
      else Parameter)
  }

  function OrderTrees(targets: Targets, terms: seq<Term>, order: seq<OrderItem>): (ts: seq<Sql>)
    requires targets.aliases.Keys == targets.layouts.Keys
    ensures |ts| == |order|
  {
    Trees(OrderExprs(targets, terms, order))
  }

  predicate RequestedSorted(targets: Targets, terms: seq<Term>)
    requires targets.aliases.Keys == targets.layouts.Keys
  {
    forall i :: 0 <= i < |terms| && Resolve(targets, terms[i]).Some? ==> WellSorted(Resolve(targets, terms[i]).value)
  }

  /** Requested expressions that bind tighter than comparisons; every plain field does. */
  predicate Sortable(targets: Targets, terms: seq<Term>)
    requires targets.aliases.Keys == targets.layouts.Keys
  {
    && RequestedSorted(targets, terms)
    && forall i :: 0 <= i < |terms| && Resolve(targets, terms[i]).Some? ==> Level(Resolve(targets, terms[i]).value) <= 4
  }

  lemma OrderCompiled(targets: Targets, terms: seq<Term>, order: seq<OrderItem>)
    requires ValidTargets(targets) && IsOrder(targets, terms, order) && RequestedSorted(targets, terms)
    ensures Compiled(order, OrderExprs(targets, terms, order))
    ensures forall i :: |terms| <= i < |order| ==> Level(OrderExprs(targets, terms, order)[i]) == 0
  {
    var es := OrderExprs(targets, terms, order);
    forall i | 0 <= i < |order|
      ensures WellSorted(es[i]) && Compile(es[i]) == Some(order[i].expression) && (i >= |terms| ==> Level(es[i]) == 0)
    {
      if i < |terms| {
        assert Item(targets, terms[i]) == Some(order[i]);
      } else {
        assert order[i] == order[|terms|..][i - |terms|];
        var item := order[i];
        assert item in Missing(targets, terms, |targets.layouts[targets.base].identity|);
      }
    }
  }

  lemma OrderReads(targets: Targets, terms: seq<Term>, order: seq<OrderItem>, f: Value -> Value)
    requires ValidTargets(targets) && IsOrder(targets, terms, order) && Sortable(targets, terms)
    ensures OrderMeans(order, f, OrderTrees(targets, terms, order))
  {
    var es := OrderExprs(targets, terms, order);
    OrderCompiled(targets, terms, order);
    forall i | 0 <= i < |order| ensures Means(4, order[i].expression, f, OrderTrees(targets, terms, order)[i]) {
      if i < |terms| { assert Item(targets, terms[i]) == Some(order[i]); }
      TreesAt(es, i);
      ReadsAt(4, es[i], f);
    }
  }

  /** Later pages read back under every cursor if and only if the requested terms are sortable. */
  lemma PagesReadBackIffSortable(targets: Targets, terms: seq<Term>, order: seq<OrderItem>, where: BoundStatement, w: Sql, f: Value -> Value)
    requires ValidTargets(targets) && IsOrder(targets, terms, order) && RequestedSorted(targets, terms) && Means(9, where, f, w)
    ensures AlwaysReadsBack(where, w, order, OrderExprs(targets, terms, order), f) <==> Sortable(targets, terms)
  {
    var es := OrderExprs(targets, terms, order);
    OrderCompiled(targets, terms, order);
    AlwaysReadsBackIffTight(where, w, order, es, f);
    SortableIffTight(targets, terms, order);
  }

  lemma SortableIffTight(targets: Targets, terms: seq<Term>, order: seq<OrderItem>)
    requires ValidTargets(targets) && IsOrder(targets, terms, order) && RequestedSorted(targets, terms)
    ensures AlwaysTight(OrderExprs(targets, terms, order)) <==> Sortable(targets, terms)
  {
    var es := OrderExprs(targets, terms, order);
    OrderCompiled(targets, terms, order);
    forall i | 0 <= i < |terms| ensures Resolve(targets, terms[i]) == Some(es[i]) { assert Item(targets, terms[i]) == Some(order[i]); }
    if AlwaysTight(es) {
      forall i | 0 <= i < |terms| ensures Level(Resolve(targets, terms[i]).value) <= 4 { assert Level(es[i]) <= 4; }
    }
    if Sortable(targets, terms) {
      forall i | 0 <= i < |es| ensures Level(es[i]) <= 4 { if i < |terms| { assert Level(Resolve(targets, terms[i]).value) <= 4; } }
    }
  }

  /**
   The whole of a later page's condition, from requested order and filter to truth: the executed text holds for a row
   exactly when the filter does and the row's key is strictly after the cursor's, for every order, null placement and cursor.
   */
  lemma LaterPageSelects(targets: Targets, terms: seq<Term>, order: seq<OrderItem>, where: BoundStatement, w: Sql,
                         cursor: seq<Value>, f: Value -> Value, row: Row, a: Key, b: Key)
    requires ValidTargets(targets) && IsOrder(targets, terms, order) && Sortable(targets, terms)
    requires |cursor| == |order| && Means(9, where, f, w)
    requires Keyed(row, f, OrderTrees(targets, terms, order), cursor, a, b)
    ensures var text := Narrowed(where, order, cursor);
      var tree := NarrowedTree(w, OrderTrees(targets, terms, order), SortsOf(order), cursor, f);
      && ParseAll(text.command, MapValues(f, text.parameters)) == Got(tree, [], [])
      && (Holds(tree, row) == True <==> Holds(MapTree(f, w), row) == True && Before(SortsOf(order), a, b))
  {
    OrderReads(targets, terms, order, f);
    AnyCursorMeans(order, cursor, f, OrderTrees(targets, terms, order));
    NarrowedSelectsLaterRows(where, w, order, OrderTrees(targets, terms, order), cursor, f, row, a, b);
  }

  // --- Where sortability is needed ---

  function LooseOrder(a: string, b: string): Expr { And([Field("t0", a, Scalar), Field("t0", b, Scalar)]) }

  lemma LooseOrderText(a: string, b: string)
    ensures var e := LooseOrder(a, b);
      && Compile(e).Some? && Tree(e) == Both(Col("t0", a), Col("t0", b))
      && After(Compile(e).value, Sort(Asc, NullsFirst), Null)
         == BoundStatement(Wrap([Column("t0", a)]) + [Kw(AND)] + (Wrap([Column("t0", b)]) + IsNullTokens(true)), [])
  {
    var s, t := Wrap([Column("t0", a)]), Wrap([Column("t0", b)]);
    CompiledQuery.BothCompiled(Field("t0", a, Scalar), Field("t0", b, Scalar),
                               BoundStatement([Column("t0", a)], []), BoundStatement([Column("t0", b)], []));
    var none: seq<Value> := [];
    assert none + none == none;
    assert s + [Kw(AND)] + t + IsNullTokens(true) == s + [Kw(AND)] + (t + IsNullTokens(true));
  }

  lemma LooseTestReads(a: string, b: string)
    ensures ParseAll(Wrap([Column("t0", a)]) + [Kw(AND)] + (Wrap([Column("t0", b)]) + IsNullTokens(true)), [])
            == Got(Both(Col("t0", a), NullTest(Col("t0", b), true)), [], [])
  {
    CompiledQuery.ColumnReads(5, "t0", b);
    CompiledQuery.ColumnReads(7, "t0", a);
    LooseTestWhole(Wrap([Column("t0", a)]), Col("t0", a), Wrap([Column("t0", b)]), Col("t0", b));
  }

  lemma LooseTestWhole(s: seq<Token>, x: Sql, t: seq<Token>, y: Sql)
    requires Parses(7, s, [], x) && Parses(5, t, [], y)
    ensures ParseAll(s + [Kw(AND)] + (t + IsNullTokens(true)), []) == Got(Both(x, NullTest(y, true)), [], [])
  {
    TestNull(t, [], y, true);
    Lift(6, 7, t + IsNullTokens(true), [], NullTest(y, true));
    var none: seq<Value> := [];
    assert none + none == none;
    Infix(8, s, none, x, Kw(AND), t + IsNullTokens(true), none, NullTest(y, true));
    ReadWhole(s + [Kw(AND)] + (t + IsNullTokens(true)), Both(x, NullTest(y, true)));
  }

  /** Ordering by a conjunction: the null test of the cursor condition takes the last conjunct only. */
  lemma LooseOrderMisread(a: string, b: string)
    ensures var e := LooseOrder(a, b);
      && Level(e) > 4 && Compile(e).Some?
      && AfterTree(Tree(e), Sort(Asc, NullsFirst), Null) == NullTest(Both(Col("t0", a), Col("t0", b)), true)
      && ParseAll(After(Compile(e).value, Sort(Asc, NullsFirst), Null).command, [])
         == Got(Both(Col("t0", a), NullTest(Col("t0", b), true)), [], [])
  {
    LooseOrderText(a, b);
    LooseTestReads(a, b);
  }

  lemma ReadWhole(ts: seq<Token>, node: Sql)
    requires Parses(8, ts, [], node)
    ensures ParseAll(ts, []) == Got(node, [], [])
  {
    Lift(8, 9, ts, [], node);
    Reads(9, ts, [], node, [], []);
    var none: seq<Value> := [];
    assert ts + [] == ts && none + none == none;
  }
}
