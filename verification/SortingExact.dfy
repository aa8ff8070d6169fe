/**
 The sorting of expressions is exact: an expression whose printed operands are sorted reads back if and only if it is
 sorted itself. An operand that is too loose for its place shows an operator there that takes what stands beside it.
 */
module SortingExact {
  import opened Wrappers
  import opened SqlSyntax
  import opened ParserFacts
  import opened TokenShape
  import opened ParsedShape
  import opened ExpressionCompiler
  import opened CompilerCorrectness
  import opened CompiledQuery
  import opened GroupsExact
  import JsonPointer

  // --- What a loose text starts with ---

  lemma LevelsAreFew(e: Expr)
    ensures Level(e) in {0, 3, 5, 7, 8, 9}
  {
  }

  /** A text starts with an expression that is complete at any level, and goes on with the operator `t`. */
  ghost predicate Opens(b: BoundStatement, f: Value -> Value, first: BoundStatement, node: Sql, t: Token, us: seq<Token>, qs: seq<Value>) {
    && b.command == first.command + ([t] + us) && b.parameters == first.parameters + qs
    && Means(0, first, f, node) && IsInfix(t)
  }

  lemma {:induction false} JoinedOpens(word: Word, parts: seq<BoundStatement>) returns (us: seq<Token>, qs: seq<Value>)
    requires |parts| >= 2
    ensures Joined(word, parts) == Wrap(parts[0].command) + ([Kw(word)] + us)
    ensures AllParameters(parts) == parts[0].parameters + qs
  {
    var k := |parts| - 1;
    var init, last := parts[..k], parts[k];
    assert parts == init + [last];
    JoinedPush(word, init, last);
    if k == 1 {
      us, qs := Wrap(last.command), last.parameters;
      assert init == [parts[0]] && AllParameters(init) == parts[0].parameters;
    } else {
      var vs, rs := JoinedOpens(word, init);
      us, qs := vs + [Kw(word)] + Wrap(last.command), rs + last.parameters;
    }
  }

  lemma ListOpens(word: Word, parts: seq<BoundStatement>, f: Value -> Value, t: Sql)
    returns (first: BoundStatement, us: seq<Token>, qs: seq<Value>)
    requires |parts| >= 2 && Means(9, parts[0], f, t) && (word == AND || word == OR)
    ensures Opens(List(word, parts), f, first, t, Kw(word), us, qs)
  {
    us, qs := JoinedOpens(word, parts);
    first := BoundStatement(Wrap(parts[0].command), parts[0].parameters);
    Parenthesised(parts[0], f, t);
  }

  lemma RangeOpens(e: Expr, f: Value -> Value) returns (first: BoundStatement, node: Sql, us: seq<Token>, qs: seq<Value>)
    requires e.TimestampRange? && e.start.Some? && e.end.Some? && Compile(e).Some? && WellSorted(e)
    ensures Opens(Compile(e).value, f, first, node, Kw(AND), us, qs)
  {
    RangeCompiled(e);
    var b := Compile(e.operand).value;
    ReadsAt(4, e.operand, f);
    EndReads(b, e.start, FromSymbol(e), f, Tree(e.operand));
    var parts := RangePart(b, CompileOption(e.start).value, FromSymbol(e)) + RangePart(b, CompileOption(e.end).value, ToSymbol(e));
    node := Op(FromSymbol(e), Tree(e.operand), Tree(e.start.value));
    first, us, qs := ListOpens(AND, parts, f, node);
  }

  /** A boolean combination starts with its first group and goes on with its word. */
  lemma WordOpens(e: Expr, f: Value -> Value) returns (first: BoundStatement, node: Sql, word: Word, us: seq<Token>, qs: seq<Value>)
    requires Compile(e).Some? && WellSorted(e) && Level(e) >= 8
    ensures (word == AND || word == OR) && Continues(Kw(word)) == Level(e)
    ensures Opens(Compile(e).value, f, first, node, Kw(word), us, qs)
  {
    if e.TimestampRange? {
      word := AND;
      first, node, us, qs := RangeOpens(e, f);
    } else {
      word := if e.And? then AND else OR;
      node := Tree(e.operands[0]);
      first, us, qs := OperandsOpen(e, word, f);
    }
  }

  lemma OperandsOpen(e: Expr, word: Word, f: Value -> Value) returns (first: BoundStatement, us: seq<Token>, qs: seq<Value>)
    requires (e.And? || e.Or?) && |e.operands| >= 2 && Compile(e).Some? && WellSorted(e) && word == (if e.And? then AND else OR)
    ensures Opens(Compile(e).value, f, first, Tree(e.operands[0]), Kw(word), us, qs)
  {
    var x := e.operands[0];
    assert x in e.operands;
    Reads9(x, f);
    first, us, qs := ListOpens(word, CompileAll(e.operands).value, f, Tree(x));
  }

  /** A comparison or a json or text operator between two complete expressions. */
  ghost predicate Halves(b: BoundStatement, f: Value -> Value, first: BoundStatement, s: Symbol, second: BoundStatement, t: Sql, u: Sql) {
    b == Compared(first, s, second) && Means(0, first, f, t) && Means(0, second, f, u)
  }

  lemma ContainsHalves(e: Expr, f: Value -> Value) returns (first: BoundStatement, s: Symbol, second: BoundStatement, t: Sql, u: Sql)
    requires e.Contains? && Compile(e).Some? && WellSorted(e)
    ensures Continues(Sym(s)) == Level(e) && Tree(e) == Op(s, t, u) && Halves(Compile(e).value, f, first, s, second, t, u)
  {
    var left, right := Compile(e.left).value, Compile(e.right).value;
    if Level(e) == 3 {
      ReadsAt(0, e.left, f);
      Reads9(e.right, Compose(f, JsonLike));
      Adapted(9, right, f, JsonLike, Tree(e.right));
      CastReads(Adapt(right, JsonLike), JsonbType, f, MapTree(Encoder(JsonLike), Tree(e.right)));
      s, t, u := JsonContains, Tree(e.left), Cast(MapTree(Encoder(JsonLike), Tree(e.right)), JsonbType);
      first, second := left, BoundStatement(Wrap(right.command) + [Sym(DoubleColon), TypeName(JsonbType)], Adapt(right, JsonLike).parameters);
    } else {
      ReadsAt(5, e.left, f);
      Reads9(e.right, f);
      PositionReads(right, left, f, Tree(e.right), Tree(e.left));
      ConstReads(Zero, f);
      ContainsCompiled(e.left, e.right);
      s, t, u := Gt, PositionOf(Cast(Tree(e.right), TextType), Tree(e.left)), Lit(Zero);
      first, second := PositionStatement(right, left), BoundStatement([Const(Zero)], []);
    }
  }

  lemma SearchHalves(config: BoundStatement, concat: BoundStatement, term: BoundStatement, f: Value -> Value, t: Sql, u: Sql, q: Sql)
    requires Means(9, config, f, t) && Means(0, concat, f, u) && Means(9, term, f, q)
    ensures var first, second := CallStatement(ToTsVector, [config, concat]), CallStatement(WebSearch, [config, term]);
      Halves(Compared(first, TextMatch, second), f, first, TextMatch, second, Call(ToTsVector, false, [t, u]), Call(WebSearch, false, [t, q]))
  {
    Looser(0, 9, concat, f, u);
    CallTwo(ToTsVector, config, concat, f, t, u);
    CallTwo(WebSearch, config, term, f, t, q);
  }

  lemma FullTextHalves(e: Expr, f: Value -> Value) returns (first: BoundStatement, s: Symbol, second: BoundStatement, t: Sql, u: Sql)
    requires e.FullText? && Compile(e).Some? && WellSorted(e)
    ensures Continues(Sym(s)) == Level(e) && Tree(e) == Op(s, t, u) && Halves(Compile(e).value, f, first, s, second, t, u)
  {
    var fields := CompileAll(e.fields).value;
    var blank, config, term := BoundStatement([Const(Space)], []), BoundStatement([Const(SimpleConfig)], []), BoundStatement([Placeholder], [e.query]);
    var concat, trees := CallStatement(ConcatWs, [blank] + fields), [Lit(Space)] + Trees(e.fields);
    AllReads(e.fields, f);
    ConstReads(Space, f);
    ConstReads(SimpleConfig, f);
    ValueReads(e.query, f);
    OneMoreReads(blank, fields, f, Lit(Space), Trees(e.fields));
    CallReads(ConcatWs, [blank] + fields, f, trees);
    SearchHalves(config, concat, term, f, Lit(SimpleConfig), Call(ConcatWs, false, trees), Val(e.query));
    s, t, u := TextMatch, Call(ToTsVector, false, [Lit(SimpleConfig), Call(ConcatWs, false, trees)]), Call(WebSearch, false, [Lit(SimpleConfig), Val(e.query)]);
    first, second := CallStatement(ToTsVector, [config, concat]), CallStatement(WebSearch, [config, term]);
  }

  lemma LooseHalves(e: Expr, f: Value -> Value) returns (first: BoundStatement, s: Symbol, second: BoundStatement, t: Sql, u: Sql)
    requires Compile(e).Some? && WellSorted(e) && (Level(e) == 3 || Level(e) == 5)
    ensures Continues(Sym(s)) == Level(e) && Tree(e) == Op(s, t, u) && Halves(Compile(e).value, f, first, s, second, t, u)
  {
    if e.Contains? {
      first, s, second, t, u := ContainsHalves(e, f);
    } else {
      first, s, second, t, u := FullTextHalves(e, f);
    }
  }

  lemma HalvesOpen(b: BoundStatement, f: Value -> Value, first: BoundStatement, s: Symbol, second: BoundStatement, t: Sql, u: Sql)
    requires Halves(b, f, first, s, second, t, u) && IsInfix(Sym(s))
    ensures Opens(b, f, first, t, Sym(s), second.command, second.parameters)
  {
    Assoc(first.command, [Sym(s)], second.command);
  }

  lemma TightOpens(e: Expr, f: Value -> Value) returns (first: BoundStatement, node: Sql, t: Token, us: seq<Token>, qs: seq<Value>)
    requires Compile(e).Some? && WellSorted(e) && (Level(e) == 3 || Level(e) == 5)
    ensures Continues(t) == Level(e) && Opens(Compile(e).value, f, first, node, t, us, qs)
  {
    var s: Symbol, second: BoundStatement, u: Sql;
    first, s, second, node, u := LooseHalves(e, f);
    t, us, qs := Sym(s), second.command, second.parameters;
    HalvesOpen(Compile(e).value, f, first, s, second, node, u);
  }

  lemma LooseOpens(e: Expr, f: Value -> Value) returns (first: BoundStatement, node: Sql, t: Token, us: seq<Token>, qs: seq<Value>)
    requires Compile(e).Some? && WellSorted(e) && Level(e) > 0 && Level(e) != 7
    ensures Continues(t) == Level(e) && Opens(Compile(e).value, f, first, node, t, us, qs)
  {
    LevelsAreFew(e);
    if Level(e) >= 8 {
      var word: Word;
      first, node, word, us, qs := WordOpens(e, f);
      t := Kw(word);
    } else {
      first, node, t, us, qs := TightOpens(e, f);
    }
  }

  lemma OpenTokens(b: BoundStatement, f: Value -> Value, first: BoundStatement, node: Sql, t: Token, us: seq<Token>, qs: seq<Value>,
                   tail: seq<Token>, args: seq<Value>)
    requires Opens(b, f, first, node, t, us, qs)
    ensures b.command + tail == first.command + ([t] + (us + tail))
    ensures MapValues(f, b.parameters) + args == MapValues(f, first.parameters) + (MapValues(f, qs) + args)
  {
    MapAppend(f, first.parameters, qs);
    Assoc(MapValues(f, first.parameters), MapValues(f, qs), args);
  }

  // --- A loose operand on the left ---

  /** Boolean combinations and negations stay the loosest of what follows them. */
  lemma BooleanRoot(x: Expr, f: Value -> Value, tail: seq<Token>, args: seq<Value>)
    requires Compile(x).Some? && WellSorted(x) && Level(x) >= 7
    ensures var r := Parse(Full, 9, Compile(x).value.command + tail, MapValues(f, Compile(x).value.parameters) + args);
      r.Got? ==> RootLevel(r.node) >= Level(x)
  {
    var b := Compile(x).value;
    if x.NotExpr? {
      NotRoot(b.command + tail, MapValues(f, b.parameters) + args);
    } else {
      var first, node, word, us, qs := WordOpens(x, f);
      OpenTokens(b, f, first, node, Kw(word), us, qs, tail, args);
      var more := MapValues(f, qs) + args;
      Continued(Full, 0, 9, first.command, MapValues(f, first.parameters), MapTree(f, node), [Kw(word)] + (us + tail), more);
      WordRoot(MapTree(f, node), word, us + tail, more);
    }
  }

  /** A tighter operator, or one that clashes, after `first s second` is taken before `s` is done. */
  ghost predicate Steals(k: nat, tail: seq<Token>) {
    tail != [] && Stops(0, tail) && ((k <= 9 && k >= 1 && Takes(Full, k - 1, tail)) || (k == 5 && Continues(tail[0]) == 5))
  }

  lemma HalfTail(second: BoundStatement, f: Value -> Value, u: Sql, k: nat, tail: seq<Token>, args: seq<Value>)
    requires 1 <= k <= 5 && Means(0, second, f, u) && Steals(k, tail)
    ensures var right := Parse(Full, k - 1, second.command + tail, MapValues(f, second.parameters) + args);
      right.Got? && !Clashes(k, right.rest) ==> Spine(right.node) > Spine(MapTree(f, u))
  {
    Continued(Full, 0, k - 1, second.command, MapValues(f, second.parameters), MapTree(f, u), tail, args);
    TailGrows(Full, k - 1, MapTree(f, u), tail, args);
  }

  lemma HalvesTokens(first: BoundStatement, s: Symbol, second: BoundStatement, f: Value -> Value, tail: seq<Token>, args: seq<Value>)
    ensures Compared(first, s, second).command + tail == first.command + ([Sym(s)] + (second.command + tail))
    ensures MapValues(f, Compared(first, s, second).parameters) + args
            == MapValues(f, first.parameters) + (MapValues(f, second.parameters) + args)
  {
    MapAppend(f, first.parameters, second.parameters);
    Assoc4(first.command, [Sym(s)], second.command, tail);
    Assoc(MapValues(f, first.parameters), MapValues(f, second.parameters), args);
  }

  /** The operator of the text does not get its whole right half. */
  lemma HalfMisread(b: BoundStatement, f: Value -> Value, first: BoundStatement, s: Symbol, second: BoundStatement, t: Sql, u: Sql,
                    tail: seq<Token>, args: seq<Value>, whole: Sql)
    requires Halves(b, f, first, s, second, t, u) && IsInfix(Sym(s)) && 1 <= Continues(Sym(s)) <= 5 && Steals(Continues(Sym(s)), tail)
    requires OnSpine(Op(s, MapTree(f, t), MapTree(f, u)), whole)
    ensures var r := Parse(Full, 9, b.command + tail, MapValues(f, b.parameters) + args); r.Got? ==> r.node != whole
  {
    var x, us, more := MapTree(f, t), second.command + tail, MapValues(f, second.parameters) + args;
    HalvesTokens(first, s, second, f, tail, args);
    Continued(Full, 0, 9, first.command, MapValues(f, first.parameters), x, [Sym(s)] + us, more);
    HalfTail(second, f, u, Continues(Sym(s)), tail, args);
    StolenMisread(x, s, MapTree(f, u), us, more, whole);
  }

  lemma StolenMisread(x: Sql, s: Symbol, y: Sql, us: seq<Token>, args: seq<Value>, whole: Sql)
    requires IsInfix(Sym(s)) && 1 <= Continues(Sym(s)) <= 5 && OnSpine(Op(s, x, y), whole)
    requires var right := Parse(Full, Continues(Sym(s)) - 1, us, args);
      right.Got? && !Clashes(Continues(Sym(s)), right.rest) ==> Spine(right.node) > Spine(y)
    ensures var r := ParseTail(Full, 9, x, [Sym(s)] + us, args); r.Got? ==> r.node != whole
  {
    var right := Parse(Full, Continues(Sym(s)) - 1, us, args);
    var r := ParseTail(Full, 9, x, [Sym(s)] + us, args);
    if right.Fail? || Clashes(Continues(Sym(s)), right.rest) {
      TailFails(Full, 9, x, Sym(s), us, args);
    } else {
      TailStep(Full, 9, x, Sym(s), us, args, right);
      TailGrows(Full, 9, Op(s, x, right.node), right.rest, right.args);
      if r.Got? && r.node == whole { OneOnSpine(Op(s, x, right.node), Op(s, x, y), whole); }
    }
  }

  /** A loose operand to the left of something tighter, or as loose and not associating, is not read as that operand. */
  lemma LeftMisread(x: Expr, f: Value -> Value, tail: seq<Token>, args: seq<Value>, whole: Sql)
    requires Compile(x).Some? && WellSorted(x) && OnSpine(MapTree(f, Tree(x)), whole)
    requires Level(x) >= 7 ==> RootLevel(whole) < Level(x)
    requires Level(x) < 7 ==> Level(x) > 0 && Steals(Level(x), tail)
    ensures var r := Parse(Full, 9, Compile(x).value.command + tail, MapValues(f, Compile(x).value.parameters) + args);
      r.Got? ==> r.node != whole
  {
    LevelsAreFew(x);
    if Level(x) >= 7 {
      BooleanRoot(x, f, tail, args);
    } else {
      var first, s, second, t, u := LooseHalves(x, f);
      assert MapTree(f, Tree(x)) == Op(s, MapTree(f, t), MapTree(f, u));
      HalfMisread(Compile(x).value, f, first, s, second, t, u, tail, args, whole);
    }
  }

  // --- A loose operand on the right ---

  /** The operator before a loose right operand takes only the start of it. */
  lemma RightTail(left: Sql, s: Symbol, y: Expr, f: Value -> Value, tail: seq<Token>, args: seq<Value>)
    requires IsInfix(Sym(s)) && 1 <= Continues(Sym(s)) <= 5
    requires Compile(y).Some? && WellSorted(y) && Level(y) >= Continues(Sym(s)) && Level(y) != 7
    ensures var r := ParseTail(Full, 9, left, [Sym(s)] + (Compile(y).value.command + tail), MapValues(f, Compile(y).value.parameters) + args);
      r.Got? ==> Spine(r.node) > Spine(left) + 1
  {
    var n, b := Continues(Sym(s)), Compile(y).value;
    var first, node, t, us, qs := LooseOpens(y, f);
    OpenTokens(b, f, first, node, t, us, qs, tail, args);
    RightOpens(left, s, first, f, node, t, us + tail, MapValues(f, qs) + args);
  }

  lemma RightOpens(left: Sql, s: Symbol, first: BoundStatement, f: Value -> Value, node: Sql, t: Token, us: seq<Token>, args: seq<Value>)
    requires IsInfix(Sym(s)) && 1 <= Continues(Sym(s)) <= 5 && Means(0, first, f, node)
    requires IsInfix(t) && Continues(Sym(s)) <= Continues(t) <= 9
    ensures var r := ParseTail(Full, 9, left, [Sym(s)] + (first.command + ([t] + us)), MapValues(f, first.parameters) + args);
      r.Got? ==> Spine(r.node) > Spine(left) + 1
  {
    var n, ps, tail := Continues(Sym(s)), MapValues(f, first.parameters), [t] + us;
    Continued(Full, 0, n - 1, first.command, ps, MapTree(f, node), tail, args);
    var right := Got(MapTree(f, node), tail, args);
    assert Parse(Full, n - 1, first.command + tail, ps + args) == right;
    if Clashes(n, tail) {
      TailFails(Full, 9, left, Sym(s), first.command + tail, ps + args);
    } else {
      TailStep(Full, 9, left, Sym(s), first.command + tail, ps + args, right);
      TailGrows(Full, 9, Op(s, left, right.node), tail, args);
    }
  }

  lemma RightMisreadHere(left: BoundStatement, t: Sql, s: Symbol, y: Expr, u: Sql, f: Value -> Value, tail: seq<Token>, more: seq<Value>)
    requires IsInfix(Sym(s)) && 1 <= Continues(Sym(s)) <= 5 && Means(Continues(Sym(s)) - 1, left, f, t)
    requires Compile(y).Some? && WellSorted(y) && Level(y) >= Continues(Sym(s)) && Level(y) != 7
    ensures var b := Compile(y).value;
      var r := Parse(Full, 9, Compared(left, s, b).command + tail, MapValues(f, left.parameters + b.parameters) + more);
      r.Got? ==> Spine(r.node) > Spine(MapTree(f, t)) + 1
  {
    var n, b := Continues(Sym(s)), Compile(y).value;
    HalvesTokens(left, s, b, f, tail, more);
    Continued(Full, n - 1, 9, left.command, MapValues(f, left.parameters), MapTree(f, t), [Sym(s)] + (b.command + tail), MapValues(f, b.parameters) + more);
    RightTail(MapTree(f, t), s, y, f, tail, more);
  }

  /** The tree has just one operand more than the left one. */
  lemma RightMisread(left: BoundStatement, t: Sql, s: Symbol, y: Expr, u: Sql, f: Value -> Value)
    requires IsInfix(Sym(s)) && 1 <= Continues(Sym(s)) <= 5 && Means(Continues(Sym(s)) - 1, left, f, t)
    requires Compile(y).Some? && WellSorted(y) && Level(y) >= Continues(Sym(s)) && Level(y) != 7
    ensures !Reading(Compared(left, s, Compile(y).value), f, MapTree(f, Op(s, t, u)))
  {
    var whole := MapTree(f, Op(s, t, u));
    assert LeftOf(whole) == MapTree(f, t) && Spine(whole) == Spine(MapTree(f, t)) + 1;
    forall rest: seq<Token>, more: seq<Value>
      ensures Parse(Full, 9, Compared(left, s, Compile(y).value).command + ([RParen] + rest),
                    MapValues(f, left.parameters + Compile(y).value.parameters) + more) != Got(whole, [RParen] + rest, more)
    {
      RightMisreadHere(left, t, s, y, u, f, [RParen] + rest, more);
    }
  }

  // --- Each position ---

  /** The operands whose text the compiler prints. */
  function Printed(e: Expr): seq<Expr> {
    match e
    case NotExpr(x) => [x]
    case Negate(x) => [x]
    case And(xs) => xs
    case Or(xs) => xs
    case Binary(_, x, y) => [x, y]
    case Contains(x, y) => [x, y]
    case IsNull(x, _) => [x]
    case In(x, xs, _) => [x] + xs
    case TimestampRange(x, start, end, _, _) =>
      (if start.Some? || end.Some? then [x] else []) + (if start.Some? then [start.value] else []) + (if end.Some? then [end.value] else [])
    case DocumentPath(x, _) => [x]
    case FullText(xs, _) => xs
    case Distance(x, y) => [x, y]
    case DistanceWithin(x, y, _) => [x, y]
    case Aggregate(_, x, _) => [x]
    case _ => []
  }

  ghost predicate OperandsSorted(e: Expr) { forall x :: x in Printed(e) ==> WellSorted(x) }

  /** A statement that goes on after a loose operand is not read as a tree that keeps the operand whole. */
  lemma StartMisread(x: Expr, test: seq<Token>, qs: seq<Value>, f: Value -> Value, whole: Sql)
    requires Compile(x).Some? && WellSorted(x) && OnSpine(MapTree(f, Tree(x)), whole)
    requires Level(x) >= 7 ==> RootLevel(whole) < Level(x)
    requires Level(x) < 7 ==> Level(x) > 0 && forall rest: seq<Token> :: Steals(Level(x), test + ([RParen] + rest))
    ensures !Reading(BoundStatement(Compile(x).value.command + test, Compile(x).value.parameters + qs), f, whole)
  {
    var b := Compile(x).value;
    MapAppend(f, b.parameters, qs);
    forall rest: seq<Token>, more: seq<Value>
      ensures Parse(Full, 9, b.command + test + ([RParen] + rest), MapValues(f, b.parameters + qs) + more) != Got(whole, [RParen] + rest, more)
    {
      Assoc(b.command, test, [RParen] + rest);
      Assoc(MapValues(f, b.parameters), MapValues(f, qs), more);
      assert Level(x) < 7 ==> Steals(Level(x), test + ([RParen] + rest));
      LeftMisread(x, f, test + ([RParen] + rest), MapValues(f, qs) + more, whole);
    }
  }

  lemma WrappedMisread(e: Expr, inner: BoundStatement, f: Value -> Value)
    requires Compile(e).Some? && Compile(e).value == BoundStatement(Wrap(inner.command), inner.parameters)
    requires Sound(inner) && !Reading(inner, f, MapTree(f, Tree(e)))
    ensures !ReadsBack(e, f)
  {
    if ReadsBack(e, f) { WholeGroup(inner, f, MapTree(f, Tree(e))); }
  }

  /** A loose left operand, compared or combined with anything. */
  lemma LeftOperandMisread(x: Expr, s: Symbol, right: BoundStatement, u: Sql, f: Value -> Value)
    requires Compile(x).Some? && WellSorted(x) && Continues(Sym(s)) in {1, 2, 5} && Level(x) >= Continues(Sym(s))
    ensures !Reading(Compared(Compile(x).value, s, right), f, MapTree(f, Op(s, Tree(x), u)))
  {
    LevelsAreFew(x);
    var whole := MapTree(f, Op(s, Tree(x), u));
    assert LeftOf(whole) == MapTree(f, Tree(x));
    Assoc(Compile(x).value.command, [Sym(s)], right.command);
    StartMisread(x, [Sym(s)] + right.command, right.parameters, f, whole);
  }

  lemma NegationIsSeven(e: Expr)
    ensures Level(e) == 7 <==> e.NotExpr?
  {
  }

  lemma LooseAtRight(s: Symbol, y: Expr)
    requires Compile(y).Some? && WellSorted(y) && Continues(Sym(s)) in {1, 2, 5} && !FitsRight(y, Continues(Sym(s)) - 1)
    ensures IsInfix(Sym(s)) && 1 <= Continues(Sym(s)) <= 5 && Level(y) >= Continues(Sym(s)) && Level(y) != 7
  {
    NegationIsSeven(y);
  }

  lemma RightOperandMisread(x: Expr, s: Symbol, y: Expr, f: Value -> Value)
    requires Compile(x).Some? && WellSorted(x) && Compile(y).Some? && WellSorted(y)
    requires Continues(Sym(s)) in {1, 2, 5} && Level(x) < Continues(Sym(s)) && !FitsRight(y, Continues(Sym(s)) - 1)
    ensures !Reading(Compared(AdaptTo(y, x, Compile(x).value), s, Compile(y).value), f, MapTree(f, Op(s, AdaptTree(y, x, Tree(x)), Tree(y))))
  {
    LooseAtRight(s, y);
    OperandReads(Continues(Sym(s)) - 1, y, x, f);
    RightMisread(AdaptTo(y, x, Compile(x).value), AdaptTree(y, x, Tree(x)), s, y, Tree(y), f);
  }

  lemma AdaptedLoose(other: Expr, x: Expr)
    requires Compile(x).Some? && Level(x) > 0
    ensures AdaptTo(other, x, Compile(x).value) == Compile(x).value && AdaptTree(other, x, Tree(x)) == Tree(x)
  {
  }

  lemma AdaptedSoundTo(other: Expr, x: Expr)
    requires Compile(x).Some? && WellSorted(x)
    ensures Sound(AdaptTo(other, x, Compile(x).value))
  {
    SortedSound(x);
  }

  /** Two sorted operands, one too loose for the operator between them. */
  lemma InfixMisread(x: Expr, s: Symbol, y: Expr, f: Value -> Value)
    requires Compile(x).Some? && WellSorted(x) && Compile(y).Some? && WellSorted(y)
    requires Continues(Sym(s)) in {1, 2, 5}
    requires Level(x) >= Continues(Sym(s)) || !FitsRight(y, Continues(Sym(s)) - 1)
    ensures var l, r := AdaptTo(y, x, Compile(x).value), AdaptTo(x, y, Compile(y).value);
      Sound(Compared(l, s, r)) && !Reading(Compared(l, s, r), f, MapTree(f, Op(s, AdaptTree(y, x, Tree(x)), AdaptTree(x, y, Tree(y)))))
  {
    AdaptedSoundTo(y, x);
    AdaptedSoundTo(x, y);
    ComparedSound(AdaptTo(y, x, Compile(x).value), s, AdaptTo(x, y, Compile(y).value));
    if Level(x) >= Continues(Sym(s)) {
      AdaptedLoose(y, x);
      LeftOperandMisread(x, s, AdaptTo(x, y, Compile(y).value), AdaptTree(x, y, Tree(y)), f);
    } else {
      AdaptedLoose(x, y);
      RightOperandMisread(x, s, y, f);
    }
  }

  lemma BinaryMisread(e: Expr, f: Value -> Value)
    requires e.Binary? && Compile(e).Some? && WellSorted(e.left) && WellSorted(e.right)
    requires Level(e.left) > OperandLevel(e.op) || !FitsRight(e.right, OperandLevel(e.op))
    ensures !ReadsBack(e, f)
  {
    InfixMisread(e.left, SymbolOf(e.op), e.right, f);
    WrappedMisread(e, Compared(AdaptTo(e.right, e.left, Compile(e.left).value), SymbolOf(e.op), AdaptTo(e.left, e.right, Compile(e.right).value)), f);
  }

  /** The text of `e` is a group: an operand too loose for its place, then something else. */
  lemma TestPosition(e: Expr, x: Expr, test: seq<Token>, qs: seq<Value>, f: Value -> Value)
    requires Compile(e).Some? && Compile(x).Some? && WellSorted(x) && Balanced(test) && Slots(test) == |qs|
    requires Compile(e).value == BoundStatement(Wrap(Compile(x).value.command + test), Compile(x).value.parameters + qs)
    requires OnSpine(MapTree(f, Tree(x)), MapTree(f, Tree(e)))
    requires Level(x) >= 7 ==> RootLevel(Tree(e)) < Level(x)
    requires Level(x) < 7 ==> Level(x) > 0 && forall rest: seq<Token> :: Steals(Level(x), test + ([RParen] + rest))
    ensures !ReadsBack(e, f)
  {
    SortedSound(x);
    BalancedAppend(Compile(x).value.command, test);
    RootOfMapped(f, Tree(e));
    StartMisread(x, test, qs, f, MapTree(f, Tree(e)));
    WrappedMisread(e, BoundStatement(Compile(x).value.command + test, Compile(x).value.parameters + qs), f);
  }

  lemma IsNullMisread(e: Expr, f: Value -> Value)
    requires e.IsNull? && Compile(e).Some? && WellSorted(e.operand) && Level(e.operand) > 5
    ensures !ReadsBack(e, f)
  {
    LevelsAreFew(e.operand);
    Words(IsNullTokens(!e.expected));
    var ps := Compile(e.operand).value.parameters;
    assert ps + [] == ps && LeftOf(MapTree(f, Tree(e))) == MapTree(f, Tree(e.operand));
    TestPosition(e, e.operand, IsNullTokens(!e.expected), [], f);
  }

  const PathTest: seq<Token> := [Sym(JsonPath)] + [Placeholder, Sym(DoubleColon), TypeName(TextArrayType)]

  lemma PathSound()
    ensures Balanced(PathTest) && Slots(PathTest) == 1
  {
    BalancedOne(Sym(JsonPath));
    BalancedOne(Placeholder);
    BalancedOne(Sym(DoubleColon));
    BalancedOne(TypeName(TextArrayType));
    BalancedAppend([Sym(JsonPath)], [Placeholder]);
    BalancedAppend([Sym(JsonPath)] + [Placeholder], [Sym(DoubleColon)]);
    BalancedAppend([Sym(JsonPath)] + [Placeholder] + [Sym(DoubleColon)], [TypeName(TextArrayType)]);
    assert [Sym(JsonPath)] + [Placeholder] + [Sym(DoubleColon)] + [TypeName(TextArrayType)] == PathTest;
  }

  lemma PathCompiled(e: Expr)
    requires e.DocumentPath? && Compile(e).Some?
    ensures Compile(e.document).Some? && JsonPointer.Segments(e.pointer).Some?
    ensures var b, v := Compile(e.document).value, Path(JsonPointer.Segments(e.pointer).value);
      && Compile(e).value == BoundStatement(Wrap(b.command + PathTest), b.parameters + [v])
      && Tree(e) == Op(JsonPath, Tree(e.document), Cast(Val(v), TextArrayType))
  {
    Assoc(Compile(e.document).value.command, [Sym(JsonPath)], [Placeholder, Sym(DoubleColon), TypeName(TextArrayType)]);
  }

  lemma PathMisread(e: Expr, f: Value -> Value)
    requires e.DocumentPath? && Compile(e).Some? && WellSorted(e.document) && Level(e.document) > 3
    ensures !ReadsBack(e, f)
  {
    LevelsAreFew(e.document);
    PathCompiled(e);
    PathSound();
    assert LeftOf(MapTree(f, Tree(e))) == MapTree(f, Tree(e.document));
    TestPosition(e, e.document, PathTest, [Path(JsonPointer.Segments(e.pointer).value)], f);
  }

  // --- Membership ---

  function Candidates(e: Expr): seq<BoundStatement>
    requires e.In? && Compile(e).Some?
  {
    AdaptAll(e.operand, CompileAll(e.candidates).value)
  }

  lemma {:induction false} AllSortedSound(es: seq<Expr>)
    requires CompileAll(es).Some? && forall e :: e in es ==> WellSorted(e)
    ensures AllSound(CompileAll(es).value)
  {
    if es != [] {
      assert es[0] in es;
      SortedSound(es[0]);
      AllSortedSound(es[1..]);
    }
  }

  lemma {:induction false} AdaptedSound(operand: Expr, bs: seq<BoundStatement>)
    requires AllSound(bs)
    ensures AllSound(AdaptAll(operand, bs))
  {
    if bs != [] {
      assert bs[0] in bs && AllSound(bs[1..]);
      AdaptedSound(operand, bs[1..]);
    }
  }

  lemma {:induction false} CommasSound(parts: seq<BoundStatement>)
    requires parts != [] && AllSound(parts)
    ensures Sound(BoundStatement(CommaSeparated(parts), ListParameters(parts)))
  {
    assert parts[0] in parts;
    if |parts| > 1 {
      CommasSound(parts[1..]);
      InfixedSound(parts[0].command, Comma, CommaSeparated(parts[1..]));
    } else {
      assert ListParameters(parts[1..]) == [] && ListParameters(parts) == parts[0].parameters;
    }
  }

  function InTest(e: Expr): seq<Token>
    requires e.In? && Compile(e).Some?
    requires Candidates(e) != []
  {
    InTokens(e.negated) + CommaSeparated(Candidates(e)) + [RParen]
  }

  lemma InTestSound(e: Expr)
    requires e.In? && Compile(e).Some? && forall x :: x in e.candidates ==> WellSorted(x)
    ensures Candidates(e) != [] && Balanced(InTest(e)) && Slots(InTest(e)) == |ListParameters(Candidates(e))|
  {
    AllSortedSound(e.candidates);
    AdaptedSound(e.operand, CompileAll(e.candidates).value);
    CommasSound(Candidates(e));
    MembershipSound(e.negated, CommaSeparated(Candidates(e)));
  }

  lemma MembershipSound(negated: bool, items: seq<Token>)
    requires Balanced(items)
    ensures var test := InTokens(negated) + items + [RParen]; Balanced(test) && Slots(test) == Slots(items)
  {
    var words := if negated then [Kw(NOT), Kw(IN)] else [Kw(IN)];
    Words(words);
    BalancedGroup(items);
    BalancedAppend(words, [LParen] + items + [RParen]);
    assert words + ([LParen] + items + [RParen]) == InTokens(negated) + items + [RParen];
  }

  lemma InCompiled(e: Expr)
    requires e.In? && Compile(e).Some? && Candidates(e) != []
    ensures Compile(e.operand).Some?
    ensures var b := Compile(e.operand).value;
      Compile(e).value == BoundStatement(Wrap(b.command + InTest(e)), b.parameters + ListParameters(Candidates(e)))
  {
    Assoc4(Compile(e.operand).value.command, InTokens(e.negated), CommaSeparated(Candidates(e)), [RParen]);
    Assoc(InTokens(e.negated), CommaSeparated(Candidates(e)), [RParen]);
  }

  lemma InSteals(e: Expr, rest: seq<Token>)
    requires e.In? && Compile(e).Some? && Candidates(e) != []
    ensures Steals(5, InTest(e) + ([RParen] + rest))
  {
    var tail := InTest(e) + ([RParen] + rest);
    assert tail[0] == InTokens(e.negated)[0] && tail[1] == InTokens(e.negated)[1];
    if e.negated { assert tail[2] == LParen; }
  }

  lemma InMisread(e: Expr, f: Value -> Value)
    requires e.In? && Compile(e).Some? && WellSorted(e.operand) && Level(e.operand) > 3 && forall x :: x in e.candidates ==> WellSorted(x)
    ensures !ReadsBack(e, f)
  {
    LevelsAreFew(e.operand);
    InTestSound(e);
    InCompiled(e);
    forall rest: seq<Token> ensures Steals(5, InTest(e) + ([RParen] + rest)) { InSteals(e, rest); }
    assert LeftOf(MapTree(f, Tree(e))) == MapTree(f, Tree(e.operand));
    TestPosition(e, e.operand, InTest(e), ListParameters(Candidates(e)), f);
  }

  // --- Ranges ---

  /** One end of a range: the operand compared with a bound. */
  function End(e: Expr, bound: Expr, s: Symbol): BoundStatement
    requires e.TimestampRange? && Compile(e.operand).Some? && Compile(bound).Some?
  {
    Compared(Compile(e.operand).value, s, Compile(bound).value)
  }

  lemma EndSound(e: Expr, bound: Expr, s: Symbol)
    requires e.TimestampRange? && Compile(e.operand).Some? && Compile(bound).Some? && WellSorted(e.operand) && WellSorted(bound)
    ensures Sound(End(e, bound, s))
  {
    SortedSound(e.operand);
    SortedSound(bound);
    ComparedSound(Compile(e.operand).value, s, Compile(bound).value);
  }

  lemma EndMisread(e: Expr, bound: Expr, s: Symbol, f: Value -> Value)
    requires e.TimestampRange? && Compile(e.operand).Some? && Compile(bound).Some? && WellSorted(e.operand) && WellSorted(bound)
    requires Continues(Sym(s)) == 5 && (Level(e.operand) > 4 || !FitsRight(bound, 4))
    ensures !Reading(End(e, bound, s), f, MapTree(f, Op(s, Tree(e.operand), Tree(bound))))
  {
    if Level(e.operand) > 4 {
      LeftOperandMisread(e.operand, s, Compile(bound).value, Tree(bound), f);
    } else {
      ReadsAt(4, e.operand, f);
      RightMisread(Compile(e.operand).value, Tree(e.operand), s, bound, Tree(bound), f);
    }
  }

  /** The groups of a range, and what each is to be read as. */
  ghost predicate RangeParts(e: Expr, parts: seq<BoundStatement>, trees: seq<Sql>)
    requires Compile(e).Some?
  {
    && parts != [] && |trees| == |parts| && AllSound(parts)
    && Compile(e).value == List(AND, parts) && Tree(e) == Folded(8, trees)
  }

  lemma RangeListMisread(e: Expr, parts: seq<BoundStatement>, trees: seq<Sql>, k: nat, f: Value -> Value)
    requires Compile(e).Some? && RangeParts(e, parts, trees) && k < |parts| && !Reading(parts[k], f, MapTree(f, trees[k]))
    ensures !ReadsBack(e, f)
  {
    if ReadsBack(e, f) {
      WholeListRead(8, AND, parts, f, trees);
      MapTreesAt(f, trees, k);
    }
  }

  lemma OneEndPrinted(e: Expr, bound: Expr, s: Symbol)
    requires e.TimestampRange? && Compile(e).Some?
    requires (e.start == Some(bound) && e.end == None && s == FromSymbol(e)) || (e.start == None && e.end == Some(bound) && s == ToSymbol(e))
    ensures Compile(e.operand).Some? && CompileOption(e.start).Some? && CompileOption(e.end).Some? && Compile(bound).Some?
    ensures RangePart(Compile(e.operand).value, CompileOption(e.start).value, FromSymbol(e))
          + RangePart(Compile(e.operand).value, CompileOption(e.end).value, ToSymbol(e)) == [End(e, bound, s)]
  {
  }

  lemma OneEndTree(e: Expr, bound: Expr, s: Symbol)
    requires e.TimestampRange?
    requires (e.start == Some(bound) && e.end == None && s == FromSymbol(e)) || (e.start == None && e.end == Some(bound) && s == ToSymbol(e))
    ensures RangeTree(Tree(e.operand), TreeOption(e.start), FromSymbol(e)) + RangeTree(Tree(e.operand), TreeOption(e.end), ToSymbol(e))
            == [Op(s, Tree(e.operand), Tree(bound))]
  {
  }

  lemma OneEndParts(e: Expr, bound: Expr, s: Symbol)
    requires e.TimestampRange? && Compile(e).Some? && WellSorted(e.operand) && WellSorted(bound)
    requires (e.start == Some(bound) && e.end == None && s == FromSymbol(e)) || (e.start == None && e.end == Some(bound) && s == ToSymbol(e))
    ensures Compile(e.operand).Some? && Compile(bound).Some?
    ensures RangeParts(e, [End(e, bound, s)], [Op(s, Tree(e.operand), Tree(bound))])
  {
    RangeCompiled(e);
    EndSound(e, bound, s);
    OneEndPrinted(e, bound, s);
    OneEndTree(e, bound, s);
  }

  lemma OneEndMisread(e: Expr, bound: Expr, s: Symbol, f: Value -> Value)
    requires e.TimestampRange? && Compile(e).Some? && WellSorted(e.operand) && WellSorted(bound)
    requires (e.start == Some(bound) && e.end == None && s == FromSymbol(e)) || (e.start == None && e.end == Some(bound) && s == ToSymbol(e))
    requires Level(e.operand) > 4 || !FitsRight(bound, 4)
    ensures !ReadsBack(e, f)
  {
    OneEndParts(e, bound, s);
    EndMisread(e, bound, s, f);
    RangeListMisread(e, [End(e, bound, s)], [Op(s, Tree(e.operand), Tree(bound))], 0, f);
  }

  lemma TwoEndLists(e: Expr, x: Expr, y: Expr)
    requires e.TimestampRange? && Compile(e).Some? && e.start == Some(x) && e.end == Some(y)
    ensures Compile(e.operand).Some? && Compile(x).Some? && Compile(y).Some?
    ensures Compile(e).value == List(AND, [End(e, x, FromSymbol(e)), End(e, y, ToSymbol(e))])
    ensures Tree(e) == Folded(8, [Op(FromSymbol(e), Tree(e.operand), Tree(x)), Op(ToSymbol(e), Tree(e.operand), Tree(y))])
  {
    RangeCompiled(e);
    assert [End(e, x, FromSymbol(e))] + [End(e, y, ToSymbol(e))] == [End(e, x, FromSymbol(e)), End(e, y, ToSymbol(e))];
    assert [Op(FromSymbol(e), Tree(e.operand), Tree(x))] + [Op(ToSymbol(e), Tree(e.operand), Tree(y))]
        == [Op(FromSymbol(e), Tree(e.operand), Tree(x)), Op(ToSymbol(e), Tree(e.operand), Tree(y))];
  }

  lemma TwoEndParts(e: Expr, x: Expr, y: Expr)
    requires e.TimestampRange? && Compile(e).Some? && e.start == Some(x) && e.end == Some(y)
    requires WellSorted(e.operand) && WellSorted(x) && WellSorted(y)
    ensures Compile(e.operand).Some? && Compile(x).Some? && Compile(y).Some?
    ensures RangeParts(e, [End(e, x, FromSymbol(e)), End(e, y, ToSymbol(e))],
                       [Op(FromSymbol(e), Tree(e.operand), Tree(x)), Op(ToSymbol(e), Tree(e.operand), Tree(y))])
  {
    TwoEndLists(e, x, y);
    EndSound(e, x, FromSymbol(e));
    EndSound(e, y, ToSymbol(e));
  }

  lemma TwoEndsMisread(e: Expr, x: Expr, y: Expr, f: Value -> Value)
    requires e.TimestampRange? && Compile(e).Some? && e.start == Some(x) && e.end == Some(y)
    requires WellSorted(e.operand) && WellSorted(x) && WellSorted(y)
    requires Level(e.operand) > 4 || !FitsRight(x, 4) || !FitsRight(y, 4)
    ensures !ReadsBack(e, f)
  {
    TwoEndParts(e, x, y);
    var parts := [End(e, x, FromSymbol(e)), End(e, y, ToSymbol(e))];
    var trees := [Op(FromSymbol(e), Tree(e.operand), Tree(x)), Op(ToSymbol(e), Tree(e.operand), Tree(y))];
    if Level(e.operand) > 4 || !FitsRight(x, 4) {
      EndMisread(e, x, FromSymbol(e), f);
      RangeListMisread(e, parts, trees, 0, f);
    } else {
      EndMisread(e, y, ToSymbol(e), f);
      RangeListMisread(e, parts, trees, 1, f);
    }
  }

  lemma RangeMisread(e: Expr, f: Value -> Value)
    requires e.TimestampRange? && Compile(e).Some? && OperandsSorted(e) && !WellSorted(e)
    ensures !ReadsBack(e, f)
  {
    RangeUnsorted(e);
    if e.start.Some? && e.end.Some? {
      TwoEndsMisread(e, e.start.value, e.end.value, f);
    } else if e.start.Some? {
      OneEndMisread(e, e.start.value, FromSymbol(e), f);
    } else {
      OneEndMisread(e, e.end.value, ToSymbol(e), f);
    }
  }

  lemma RangeUnsorted(e: Expr)
    requires e.TimestampRange? && OperandsSorted(e) && !WellSorted(e)
    ensures (e.start.Some? || e.end.Some?) && WellSorted(e.operand)
    ensures (e.start.Some? ==> WellSorted(e.start.value)) && (e.end.Some? ==> WellSorted(e.end.value))
    ensures Level(e.operand) > 4 || (e.start.Some? && !FitsRight(e.start.value, 4)) || (e.end.Some? && !FitsRight(e.end.value, 4))
  {
    assert e.start.Some? || e.end.Some? ==> e.operand in Printed(e);
    assert e.start.Some? ==> e.start.value in Printed(e);
    assert e.end.Some? ==> e.end.value in Printed(e);
  }

  // --- The searched text of contains ---

  /** Inside position() no boolean combination or negation is read. */
  lemma RestrictedStops(x: Expr, f: Value -> Value, tail: seq<Token>, args: seq<Value>)
    requires Compile(x).Some? && WellSorted(x) && Level(x) >= 7
    ensures Close(Parse(Restricted, 6, Compile(x).value.command + tail, MapValues(f, Compile(x).value.parameters) + args)).Fail?
  {
    var b := Compile(x).value;
    if x.NotExpr? {
      assert (b.command + tail)[0] == Kw(NOT);
      assert ParsePrefix(Restricted, b.command + tail, MapValues(f, b.parameters) + args).Fail?;
    } else {
      var first, node, word, us, qs := WordOpens(x, f);
      OpenTokens(b, f, first, node, Kw(word), us, qs, tail, args);
      Continued(Restricted, 0, 6, first.command, MapValues(f, first.parameters), MapTree(f, node), [Kw(word)] + (us + tail), MapValues(f, qs) + args);
    }
  }

  lemma PositionStuck(needle: seq<Token>, ps: seq<Value>, node: Sql, us: seq<Token>, args: seq<Value>)
    requires Parses(0, needle, ps, node) && Close(Parse(Restricted, 6, us, args)).Fail?
    ensures ParsePrimary([Fn(Position), LParen] + needle + [Kw(IN)] + us, ps + args).Fail?
  {
    var all := [Fn(Position), LParen] + needle + [Kw(IN)] + us;
    assert all[2..] == needle + ([Kw(IN)] + us) && ([Kw(IN)] + us)[1..] == us;
    Continued(Restricted, 0, 6, needle, ps, node, [Kw(IN)] + us, args);
  }

  lemma ContainsMisread(e: Expr, f: Value -> Value)
    requires e.Contains? && Compile(e).Some? && WellSorted(e.left) && WellSorted(e.right) && Level(e.left) > 5
    ensures !ReadsBack(e, f)
  {
    LevelsAreFew(e.left);
    var x, y := Compile(e.left).value, Compile(e.right).value;
    ContainsCompiled(e.left, e.right);
    Reads9(e.right, f);
    CastReads(y, TextType, f, Tree(e.right));
    var needle, tail := Wrap(y.command) + [Sym(DoubleColon), TypeName(TextType)], [RParen] + [Sym(Gt)] + [Const(Zero)];
    RestrictedStops(e.left, f, tail, []);
    PositionStuck(needle, MapValues(f, y.parameters), MapTree(f, Cast(Tree(e.right), TextType)), x.command + tail, MapValues(f, x.parameters) + []);
    MapAppend(f, y.parameters, x.parameters);
    ContainsTokens(e, needle, tail, f);
  }

  lemma PositionText(x: BoundStatement, y: BoundStatement, needle: seq<Token>, tail: seq<Token>)
    requires needle == Wrap(y.command) + [Sym(DoubleColon), TypeName(TextType)] && tail == [RParen] + [Sym(Gt)] + [Const(Zero)]
    ensures Compared(PositionStatement(y, x), Gt, BoundStatement([Const(Zero)], []))
            == BoundStatement([Fn(Position), LParen] + needle + [Kw(IN)] + (x.command + tail), y.parameters + x.parameters + [])
  {
  }

  lemma ContainsTokens(e: Expr, needle: seq<Token>, tail: seq<Token>, f: Value -> Value)
    requires e.Contains? && Compile(e).Some? && Compile(e.left).Some? && Compile(e.right).Some?
    requires var x, y := Compile(e.left).value, Compile(e.right).value;
      && Compile(e).value == Compared(PositionStatement(y, x), Gt, BoundStatement([Const(Zero)], []))
      && needle == Wrap(y.command) + [Sym(DoubleColon), TypeName(TextType)] && tail == [RParen] + [Sym(Gt)] + [Const(Zero)]
      && ParsePrimary([Fn(Position), LParen] + needle + [Kw(IN)] + (x.command + tail), MapValues(f, y.parameters) + (MapValues(f, x.parameters) + [])).Fail?
    ensures !ReadsBack(e, f)
  {
    var x, y := Compile(e.left).value, Compile(e.right).value;
    var all, ps := Compile(e).value.command, MapValues(f, Compile(e).value.parameters);
    PositionText(x, y, needle, tail);
    assert y.parameters + x.parameters + [] == y.parameters + x.parameters;
    MapAppend(f, y.parameters, x.parameters);
    assert MapValues(f, x.parameters) + [] == MapValues(f, x.parameters);
    assert ParsePrefix(Full, all, ps).Fail?;
  }

  // --- The theorem ---

  lemma OthersSorted(e: Expr)
    requires OperandsSorted(e)
    ensures e.Binary? || e.Contains? || e.IsNull? || e.In? || e.TimestampRange? || e.DocumentPath? || WellSorted(e)
  {
    match e
    case NotExpr(x) => assert x in Printed(e);
    case Negate(x) => assert x in Printed(e);
    case Distance(x, y) => assert x in Printed(e) && y in Printed(e);
    case DistanceWithin(x, y, _) => assert x in Printed(e) && y in Printed(e);
    case Aggregate(_, x, _) => assert x in Printed(e);
    case _ =>
  }

  /** What is wrong with an unsorted expression whose operands are sorted. */
  lemma PairUnsorted(e: Expr)
    requires (e.Binary? || e.Contains?) && OperandsSorted(e) && !WellSorted(e)
    ensures WellSorted(e.left) && WellSorted(e.right)
    ensures e.Binary? ==> Level(e.left) > OperandLevel(e.op) || !FitsRight(e.right, OperandLevel(e.op))
    ensures e.Contains? ==> Level(e.left) > 5
  {
    assert e.left in Printed(e) && e.right in Printed(e);
  }

  lemma OneUnsorted(e: Expr)
    requires (e.IsNull? || e.DocumentPath?) && OperandsSorted(e) && !WellSorted(e)
    ensures e.IsNull? ==> WellSorted(e.operand) && Level(e.operand) > 5
    ensures e.DocumentPath? ==> WellSorted(e.document) && Level(e.document) > 3
  {
    assert (if e.IsNull? then e.operand else e.document) in Printed(e);
  }

  lemma InUnsorted(e: Expr)
    requires e.In? && OperandsSorted(e) && !WellSorted(e)
    ensures WellSorted(e.operand) && Level(e.operand) > 3 && forall x :: x in e.candidates ==> WellSorted(x)
  {
    assert e.operand in Printed(e) && forall x :: x in e.candidates ==> x in Printed(e);
  }

  /** An expression with sorted operands that is not sorted itself. */
  lemma UnsortedMisread(e: Expr, f: Value -> Value)
    requires Compile(e).Some? && OperandsSorted(e) && !WellSorted(e)
    ensures !ReadsBack(e, f)
  {
    OthersSorted(e);
    if e.Binary? {
      PairUnsorted(e);
      BinaryMisread(e, f);
    } else if e.Contains? {
      PairUnsorted(e);
      ContainsMisread(e, f);
    } else if e.IsNull? {
      OneUnsorted(e);
      IsNullMisread(e, f);
    } else if e.In? {
      InUnsorted(e);
      InMisread(e, f);
    } else if e.TimestampRange? {
      RangeMisread(e, f);
    } else {
      OneUnsorted(e);
      PathMisread(e, f);
    }
  }

  /** Once its operands are sorted, an expression reads back if and only if it is sorted. */
  lemma ReadsBackIffSorted(e: Expr, f: Value -> Value)
    requires Compile(e).Some? && OperandsSorted(e)
    ensures ReadsBack(e, f) <==> WellSorted(e)
  {
    if WellSorted(e) {
      SortedReadsBack(e, f);
    } else {
      UnsortedMisread(e, f);
    }
  }

  lemma {:induction false} PrintedSmaller(e: Expr, x: Expr)
    requires x in Printed(e)
    ensures e decreases to x
  {
    match e
    case And(xs) => MemberSmaller(xs, x);
    case Or(xs) => MemberSmaller(xs, x);
    case In(_, xs, _) => if x in xs { MemberSmaller(xs, x); }
    case FullText(xs, _) => MemberSmaller(xs, x);
    case _ =>
  }

  lemma {:induction false} MemberSmaller(es: seq<Expr>, x: Expr)
    requires x in es
    ensures es decreases to x
  {
  }

  lemma PrintedCompiles(e: Expr, x: Expr)
    requires x in Printed(e) && Compile(e).Some?
    ensures Compile(x).Some?
  {
    if e.And? || e.Or? || e.FullText? {
      ListCompiles(e, x);
    } else if e.In? {
      if x in e.candidates { AllCompile(e.candidates, x); }
    } else if e.TimestampRange? {
      RangePartsCompile(e);
    } else {
      FewCompile(e, x);
    }
  }

  lemma ListCompiles(e: Expr, x: Expr)
    requires (e.And? || e.Or? || e.FullText?) && x in Printed(e) && Compile(e).Some?
    ensures Compile(x).Some?
  {
    AllCompile(Printed(e), x);
  }

  lemma FewCompile(e: Expr, x: Expr)
    requires !e.And? && !e.Or? && !e.FullText? && !e.In? && !e.TimestampRange? && x in Printed(e) && Compile(e).Some?
    ensures Compile(x).Some?
  {
    match e
    case NotExpr(y) => assert Compile(y).Some?;
    case Negate(y) => assert Compile(y).Some?;
    case Binary(_, y, z) => assert Compile(y).Some? && Compile(z).Some?;
    case Contains(y, z) => assert Compile(y).Some? && Compile(z).Some?;
    case IsNull(y, _) => assert Compile(y).Some?;
    case DocumentPath(y, _) => assert Compile(y).Some?;
    case Distance(y, z) => assert Compile(y).Some? && Compile(z).Some?;
    case DistanceWithin(y, z, _) => assert Compile(y).Some? && Compile(z).Some?;
    case Aggregate(_, y, _) => assert Compile(y).Some?;
  }

  lemma RangePartsCompile(e: Expr)
    requires e.TimestampRange?
    ensures Compile(e).Some? ==>
              && Compile(e.operand).Some?
              && (e.start.Some? ==> Compile(e.start.value).Some?) && (e.end.Some? ==> Compile(e.end.value).Some?)
  {
    if Compile(e).Some? { RangeCompiled(e); }
  }

  lemma {:induction false} AllCompile(es: seq<Expr>, x: Expr)
    requires x in es && CompileAll(es).Some?
    ensures Compile(x).Some?
  {
    if x != es[0] { AllCompile(es[1..], x); }
  }

  /** Every expression printed within `e`, and `e` itself, reads back. */
  ghost predicate AllReadBack(e: Expr, f: Value -> Value)
    requires Compile(e).Some?
    decreases e
  {
    ReadsBack(e, f) && forall x :: x in Printed(e) ==> (PrintedSmaller(e, x); PrintedCompiles(e, x); AllReadBack(x, f))
  }

  /** An expression is sorted if and only if everything printed within it reads back. */
  lemma {:induction false} SortedIffAllReadBack(e: Expr, f: Value -> Value)
    requires Compile(e).Some?
    ensures WellSorted(e) <==> AllReadBack(e, f)
    decreases e
  {
    forall x | x in Printed(e) ensures Compile(x).Some? && (WellSorted(x) <==> AllReadBack(x, f)) {
      PrintedSmaller(e, x);
      PrintedCompiles(e, x);
      SortedIffAllReadBack(x, f);
    }
    SortedPrinted(e);
    if OperandsSorted(e) { ReadsBackIffSorted(e, f); }
  }

  lemma SortedPrinted(e: Expr)
    ensures WellSorted(e) ==> OperandsSorted(e)
  {
  }
}
