/**
 The WHERE clause of a page as a whole: tenant and scope, then the filter, then the cursor condition. Scope values are
 markers until execution; the executed text selects only rows of the request's own tenant and scope.
 */
module ScopedQuery {
  import opened Wrappers
  import opened SqlSyntax
  import opened ParserFacts
  import opened ExpressionCompiler
  import opened CompilerCorrectness
  import opened SortKeys
  import opened SqlMeaning
  import opened Keyset
  import opened OrderBy
  import opened CompiledQuery
  import opened ExpressionMeaning
  import KeysetExact

  // --- The scope predicate ---

  function ScopeColumns(keys: seq<string>): (columns: seq<string>)
    ensures |columns| == |keys| + 1 && columns[0] == TENANT
    ensures forall i :: 0 <= i < |keys| ==> columns[i + 1] == SCOPE + keys[i]
  {
    [TENANT] + seq(|keys|, (i: nat) requires i < |keys| => SCOPE + keys[i])
  }

  function ScopePart(alias: string, column: string): BoundStatement {
    Compared(BoundStatement([Column(alias, column)], []), Eq, BoundStatement([Placeholder], [ScopeOf(column)]))
  }

  /** `column = value AND ...` over some columns, without parentheses. */
  function ScopeText(alias: string, columns: seq<string>): BoundStatement
    requires columns != []
  {
    var n := |columns| - 1;
    if n == 0 then ScopePart(alias, columns[0])
    else Infixed(ScopeText(alias, columns[..n]), AND, ScopePart(alias, columns[n]))
  }

  lemma ScopeTextSnoc(alias: string, columns: seq<string>, i: nat)
    requires 0 < i < |columns|
    ensures ScopeText(alias, columns[..i + 1]) == Infixed(ScopeText(alias, columns[..i]), AND, ScopePart(alias, columns[i]))
  {
    assert columns[..i + 1][..i] == columns[..i];
  }

  /** `_scope_predicate`. */
  method ScopePredicate(alias: string, keys: seq<string>) returns (b: BoundStatement)
    ensures b == ScopeText(alias, ScopeColumns(keys))
  {
    var columns := ScopeColumns(keys);
    b := ScopePart(alias, columns[0]);
    for i := 1 to |columns|
      invariant b == ScopeText(alias, columns[..i])
    {
      ScopeTextSnoc(alias, columns, i);
      b := Infixed(b, AND, ScopePart(alias, columns[i]));
    }
    assert columns[..|columns|] == columns;
  }

  function ScopeTree(alias: string, columns: seq<string>): Sql
    requires columns != []
  {
    var n := |columns| - 1;
    var last := Op(Eq, Col(alias, columns[n]), Val(ScopeOf(columns[n])));
    if n == 0 then last else Both(ScopeTree(alias, columns[..n]), last)
  }

  lemma ScopePartReads(alias: string, column: string, f: Value -> Value)
    ensures Means(7, ScopePart(alias, column), f, Op(Eq, Col(alias, column), Val(ScopeOf(column))))
  {
    var c, v := BoundStatement([Column(alias, column)], []), BoundStatement([Placeholder], [ScopeOf(column)]);
    PlainPrimary(Column(alias, column), Col(alias, column));
    PrimaryParses([Column(alias, column)], [], Col(alias, column));
    Looser(0, 4, c, f, Col(alias, column));
    ValueReads(ScopeOf(column), f);
    Looser(0, 4, v, f, Val(ScopeOf(column)));
    Operator(5, c, Eq, v, f, Col(alias, column), Val(ScopeOf(column)));
    Looser(5, 7, ScopePart(alias, column), f, Op(Eq, Col(alias, column), Val(ScopeOf(column))));
  }

  /** The statement reads as an AND chain of the tree. */
  ghost predicate Chains(b: BoundStatement, f: Value -> Value, t: Sql) {
    Chain(8, b.command, MapValues(f, b.parameters), MapTree(f, t))
  }

  lemma ChainFirst(b: BoundStatement, f: Value -> Value, t: Sql)
    requires Means(7, b, f, t)
    ensures Chains(b, f, t)
  {
    ChainStart(8, b.command, MapValues(f, b.parameters), MapTree(f, t));
  }

  lemma ChainLonger(left: BoundStatement, right: BoundStatement, f: Value -> Value, t: Sql, u: Sql)
    requires Chains(left, f, t) && Means(7, right, f, u)
    ensures Chains(Infixed(left, AND, right), f, Both(t, u))
  {
    MapAppend(f, left.parameters, right.parameters);
    ChainStep(8, left.command, MapValues(f, left.parameters), MapTree(f, t), Kw(AND), right.command, MapValues(f, right.parameters), MapTree(f, u));
  }

  lemma ChainWhole(b: BoundStatement, f: Value -> Value, t: Sql)
    requires Chains(b, f, t)
    ensures Means(9, b, f, t)
  {
    ChainEnd(8, b.command, MapValues(f, b.parameters), MapTree(f, t));
    Looser(8, 9, b, f, t);
  }

  lemma {:induction false} ScopeChain(alias: string, columns: seq<string>, b: BoundStatement, t: Sql, f: Value -> Value)
    requires columns != [] && b == ScopeText(alias, columns) && t == ScopeTree(alias, columns)
    ensures Chains(b, f, t)
    decreases |columns|
  {
    var n := |columns| - 1;
    var part, last := ScopePart(alias, columns[n]), Op(Eq, Col(alias, columns[n]), Val(ScopeOf(columns[n])));
    ScopePartReads(alias, columns[n], f);
    if n == 0 {
      ChainFirst(part, f, last);
    } else {
      var left, u := ScopeText(alias, columns[..n]), ScopeTree(alias, columns[..n]);
      ScopeChain(alias, columns[..n], left, u, f);
      ChainLonger(left, part, f, u, last);
    }
  }

  lemma ScopeReads(alias: string, columns: seq<string>, f: Value -> Value)
    requires columns != []
    ensures Means(9, ScopeText(alias, columns), f, ScopeTree(alias, columns))
  {
    ScopeChain(alias, columns, ScopeText(alias, columns), ScopeTree(alias, columns), f);
    ChainWhole(ScopeText(alias, columns), f, ScopeTree(alias, columns));
  }

  // --- What it selects ---

  /** The row's scope columns hold the request's tenant and scope; bound texts are never NULL. */
  ghost predicate InScope(row: Row, context: Context, alias: string, columns: seq<string>) {
    forall i :: 0 <= i < |columns| ==> HasScope(row, context, alias, columns[i])
  }

  ghost predicate HasScope(row: Row, context: Context, alias: string, column: string) {
    && ScopeParameter(context, column).Some?
    && Eval(Col(alias, column), row) == Eval(Val(Plain(ScopeParameter(context, column).value)), row)
  }

  ghost predicate TextsAreCells(row: Row) { forall text :: row.db.value(Plain(text)).Some? }

  lemma {:induction false} ScopeHolds(row: Row, context: Context, alias: string, columns: seq<string>)
    requires columns != [] && TextsAreCells(row)
    requires forall i :: 0 <= i < |columns| ==> ScopeParameter(context, columns[i]).Some?
    ensures Holds(MapTree(Decoder(context), ScopeTree(alias, columns)), row) == True <==> InScope(row, context, alias, columns)
  {
    var n, f := |columns| - 1, Decoder(context);
    var c := columns[n];
    var text := ScopeParameter(context, c).value;
    assert MapTree(f, Val(ScopeOf(c))) == Val(Plain(text));
    assert MapTree(f, Op(Eq, Col(alias, c), Val(ScopeOf(c)))) == Op(Eq, Col(alias, c), Val(Plain(text)));
    assert Eval(Val(Plain(text)), row).Some?;
    assert Holds(Op(Eq, Col(alias, c), Val(Plain(text))), row) == True <==> HasScope(row, context, alias, c);
    if n > 0 {
      ScopeHolds(row, context, alias, columns[..n]);
      assert InScope(row, context, alias, columns) <==> InScope(row, context, alias, columns[..n]) && HasScope(row, context, alias, c) by {
        assert forall i :: 0 <= i < n ==> columns[..n][i] == columns[i];
      }
    }
  }

  /** The request names a tenant and a value for every scope key. */
  predicate Scoped(context: Context, keys: seq<string>) {
    context.tenant.Some? && forall i :: 0 <= i < |keys| ==> keys[i] in context.scope
  }

  /** The row belongs to the request's tenant and scope. */
  ghost predicate Belongs(row: Row, context: Context, alias: string, keys: seq<string>) {
    && context.tenant.Some? && row.column(alias, "__tenant") == row.db.value(Plain(context.tenant.value))
    && forall i :: 0 <= i < |keys| ==> BelongsTo(row, context, alias, keys[i])
  }

  ghost predicate BelongsTo(row: Row, context: Context, alias: string, key: string) {
    key in context.scope && row.column(alias, "__scope_" + key) == row.db.value(Plain(context.scope[key]))
  }

  lemma KeyParameter(context: Context, key: string)
    ensures ScopeParameter(context, "__scope_" + key) == if key in context.scope then Some(context.scope[key]) else None
  {
    var column := "__scope_" + key;
    assert column[|SCOPE|..] == key && column[2] == 's' && TENANT[2] == 't';
  }

  lemma KeyBelongs(row: Row, context: Context, alias: string, key: string)
    ensures HasScope(row, context, alias, "__scope_" + key) <==> BelongsTo(row, context, alias, key)
  {
    KeyParameter(context, key);
  }

  /** The scope columns hold the request's scope exactly on rows that belong to it. */
  lemma InScopeIsBelongs(row: Row, context: Context, alias: string, keys: seq<string>)
    ensures InScope(row, context, alias, ScopeColumns(keys)) <==> Belongs(row, context, alias, keys)
    ensures Scoped(context, keys) <==> forall i :: 0 <= i < |ScopeColumns(keys)| ==> ScopeParameter(context, ScopeColumns(keys)[i]).Some?
  {
    var columns := ScopeColumns(keys);
    assert HasScope(row, context, alias, columns[0]) <==> context.tenant.Some? && row.column(alias, "__tenant") == row.db.value(Plain(context.tenant.value));
    forall i | 0 <= i < |keys|
      ensures HasScope(row, context, alias, columns[i + 1]) <==> BelongsTo(row, context, alias, keys[i])
      ensures ScopeParameter(context, columns[i + 1]).Some? <==> keys[i] in context.scope
    {
      KeyBelongs(row, context, alias, keys[i]);
      KeyParameter(context, keys[i]);
    }
    if Belongs(row, context, alias, keys) {
      forall i | 0 <= i < |columns| ensures HasScope(row, context, alias, columns[i]) { if i > 0 { assert BelongsTo(row, context, alias, keys[i - 1]); } }
    }
    if InScope(row, context, alias, columns) {
      forall i | 0 <= i < |keys| ensures BelongsTo(row, context, alias, keys[i]) { assert HasScope(row, context, alias, columns[i + 1]); }
    }
    if Scoped(context, keys) {
      forall i | 0 <= i < |columns| ensures ScopeParameter(context, columns[i]).Some? { if i > 0 { assert keys[i - 1] in context.scope; } }
    }
    if forall i :: 0 <= i < |columns| ==> ScopeParameter(context, columns[i]).Some? {
      forall i | 0 <= i < |keys| ensures keys[i] in context.scope { assert ScopeParameter(context, columns[i + 1]).Some?; }
    }
  }

  // --- The whole WHERE clause ---

  /** Scope and filter, as `_compile_select` joins them. */
  function Selection(alias: string, columns: seq<string>, filter: Option<BoundStatement>): BoundStatement
    requires columns != []
  {
    if filter.None? then ScopeText(alias, columns) else Conjunction([ScopeText(alias, columns), filter.value])
  }

  function SelectionTree(alias: string, columns: seq<string>, filter: Option<Sql>): Sql
    requires columns != []
  {
    if filter.None? then ScopeTree(alias, columns) else Both(ScopeTree(alias, columns), filter.value)
  }

  lemma SelectionReads(alias: string, columns: seq<string>, filter: Option<Expr>, f: Value -> Value)
    requires columns != [] && (filter.Some? ==> Compile(filter.value).Some? && WellSorted(filter.value))
    ensures var b := if filter.None? then None else Compile(filter.value);
      Means(9, Selection(alias, columns, b), f, SelectionTree(alias, columns, if filter.None? then None else Some(Tree(filter.value))))
  {
    ScopeReads(alias, columns, f);
    if filter.Some? {
      Reads9(filter.value, f);
      PairMeans(ScopeText(alias, columns), Compile(filter.value).value, f, ScopeTree(alias, columns), Tree(filter.value));
      Looser(8, 9, Conjunction([ScopeText(alias, columns), Compile(filter.value).value]), f, Both(ScopeTree(alias, columns), Tree(filter.value)));
    }
  }

  lemma SelectionHolds(row: Row, context: Context, alias: string, columns: seq<string>, filter: Option<Sql>)
    requires columns != [] && TextsAreCells(row)
    requires forall i :: 0 <= i < |columns| ==> ScopeParameter(context, columns[i]).Some?
    ensures Holds(MapTree(Decoder(context), SelectionTree(alias, columns, filter)), row) == True
            <==> InScope(row, context, alias, columns) && (filter.Some? ==> Holds(MapTree(Decoder(context), filter.value), row) == True)
  {
    ScopeHolds(row, context, alias, columns);
  }

  lemma FilterMeans(e: Expr, row: Row, f: Value -> Value)
    requires Compile(e).Some?
    ensures Holds(MapTree(f, Tree(e)), row) == True <==> IsTrue(Meaning(e, row, f))
  {
    TreeIsMeaning(e, f);
    assert Eval(MapTree(f, Tree(e)), row) == Meaning(e, row, f);
  }

  /** Bound to the statement, the cursor's value is this one of the key, NULL for NULL. */
  ghost predicate StandsFor(row: Row, context: Context, v: Value, c: Cell) {
    row.db.value(DecodeValue(context, v)) == c && (v == Null <==> c == None)
  }

  /** The trees of the order evaluate to what its expressions mean. */
  lemma OrderKeyed(targets: Targets, terms: seq<Term>, order: seq<OrderItem>, cursor: seq<Value>, context: Context, row: Row, a: Key, b: Key)
    requires ValidTargets(targets) && IsOrder(targets, terms, order) && Sortable(targets, terms) && |a| == |cursor| == |order|
    requires b == Meanings(OrderExprs(targets, terms, order), row, Decoder(context))
    requires forall i :: 0 <= i < |a| ==> StandsFor(row, context, cursor[i], a[i])
    ensures Keyed(row, Decoder(context), OrderTrees(targets, terms, order), cursor, a, b)
  {
    var es, ts, f := OrderExprs(targets, terms, order), OrderTrees(targets, terms, order), Decoder(context);
    OrderCompiled(targets, terms, order);
    forall i | 0 <= i < |ts|
      ensures Eval(MapTree(f, ts[i]), row) == b[i] && Eval(Val(f(cursor[i])), row) == a[i] && (cursor[i] == Null <==> a[i] == None)
    {
      KeysetExact.TreesAt(es, i);
      MeaningAt(es, row, f, i);
      assert Compile(es[i]).Some?;
      TreeIsMeaning(es[i], f);
      assert Eval(MapTree(f, Tree(es[i])), row) == Meaning(es[i], row, f);
      assert StandsFor(row, context, cursor[i], a[i]);
    }
  }

  /**
   The executed WHERE text of a later page, for every filter, order and cursor: it holds for a row exactly when the row
   belongs to the request's tenant and scope, the filter holds, and the row comes strictly after the cursor.
   */
  lemma PageStaysInScope(targets: Targets, terms: seq<Term>, order: seq<OrderItem>, keys: seq<string>, filter: Option<Expr>,
                         cursor: seq<Value>, context: Context, row: Row, a: Key, b: Key)
    requires ValidTargets(targets) && IsOrder(targets, terms, order) && Sortable(targets, terms) && |cursor| == |order|
    requires filter.Some? ==> Compile(filter.value).Some? && WellSorted(filter.value)
    requires Scoped(context, keys)
    requires TextsAreCells(row) && b == Meanings(OrderExprs(targets, terms, order), row, Decoder(context))
    requires |a| == |cursor| && forall i :: 0 <= i < |a| ==> StandsFor(row, context, cursor[i], a[i])
    ensures
      var columns, f := ScopeColumns(keys), Decoder(context);
      var compiled, tree := if filter.None? then None else Compile(filter.value), if filter.None? then None else Some(Tree(filter.value));
      var text := Narrowed(Selection("t0", columns, compiled), order, cursor);
      var read := NarrowedTree(SelectionTree("t0", columns, tree), OrderTrees(targets, terms, order), SortsOf(order), cursor, f);
      && ParseAll(text.command, MapValues(f, text.parameters)) == Got(read, [], [])
      && (Holds(read, row) == True <==>
            Belongs(row, context, "t0", keys) && (filter.Some? ==> IsTrue(Meaning(filter.value, row, f))) && Before(SortsOf(order), a, b))
  {
    var columns, f := ScopeColumns(keys), Decoder(context);
    var compiled: Option<BoundStatement> := if filter.None? then None else Compile(filter.value);
    var tree: Option<Sql> := if filter.None? then None else Some(Tree(filter.value));
    InScopeIsBelongs(row, context, "t0", keys);
    SelectionReads("t0", columns, filter, f);
    OrderKeyed(targets, terms, order, cursor, context, row, a, b);
    if filter.Some? { FilterMeans(filter.value, row, f); }
    LaterPageSelects(targets, terms, order, Selection("t0", columns, compiled), SelectionTree("t0", columns, tree), cursor, f, row, a, b);
    SelectionHolds(row, context, "t0", columns, tree);
  }
}
