/**
 Which order expressions the cursor condition can carry: a page reads back if and only if every expression its condition
 prints is tight enough for the places where it is printed.
 */
module KeysetExact {
  import opened Wrappers
  import opened SqlSyntax
  import opened ParserFacts
  import opened TokenShape
  import opened ParsedShape
  import opened ExpressionCompiler
  import opened CompilerCorrectness
  import opened CompiledQuery
  import opened GroupsExact
  import opened SortingExact
  import opened SortKeys
  import opened Keyset

  // --- A null test takes part of a boolean combination ---

  /** What follows a complete expression is taken with it. */
  lemma TakenOn(n: nat, b: BoundStatement, f: Value -> Value, t: Sql, tail: seq<Token>, args: seq<Value>)
    requires n <= 9 && Means(0, b, f, t) && Stops(0, tail) && Takes(Full, n, tail)
    ensures var r := Parse(Full, n, b.command + tail, MapValues(f, b.parameters) + args); r.Got? ==> Spine(r.node) > Spine(MapTree(f, t))
  {
    Continued(Full, 0, n, b.command, MapValues(f, b.parameters), MapTree(f, t), tail, args);
    TailGrows(Full, n, MapTree(f, t), tail, args);
  }

  lemma NotThen(ts: seq<Token>, ps: seq<Value>, arg: Parsed<Sql>, x: Sql, whole: Sql)
    requires ts != [] && ts[0] == Kw(NOT) && arg == Parse(Full, 7, ts[1..], ps)
    requires (arg.Got? ==> Spine(arg.node) > Spine(x)) && OnSpine(Not(x), whole)
    ensures var r := Parse(Full, 9, ts, ps); r.Got? ==> r.node != whole
  {
    if arg.Got? {
      var r := Parse(Full, 9, ts, ps);
      assert ParsePrefix(Full, ts, ps) == Got(Not(arg.node), arg.rest, arg.args);
      assert r == ParseTail(Full, 9, Not(arg.node), arg.rest, arg.args);
      TailGrows(Full, 9, Not(arg.node), arg.rest, arg.args);
      if r.Got? && r.node == whole { OneOnSpine(Not(arg.node), Not(x), whole); }
    } else {
      assert ParsePrefix(Full, ts, ps).Fail?;
    }
  }

  /** `NOT (x)` before an operator that binds tighter than NOT. */
  lemma NegationTaken(b: BoundStatement, f: Value -> Value, t: Sql, tail: seq<Token>, args: seq<Value>, whole: Sql)
    requires Means(9, b, f, t) && Stops(0, tail) && Takes(Full, 7, tail) && OnSpine(Not(MapTree(f, t)), whole)
    ensures var r := Parse(Full, 9, [Kw(NOT)] + Wrap(b.command) + tail, MapValues(f, b.parameters) + args); r.Got? ==> r.node != whole
  {
    var all, ps := [Kw(NOT)] + Wrap(b.command) + tail, MapValues(f, b.parameters) + args;
    assert all[1..] == Wrap(b.command) + tail;
    Parenthesised(b, f, t);
    TakenOn(7, BoundStatement(Wrap(b.command), b.parameters), f, t, tail, args);
    NotThen(all, ps, Parse(Full, 7, all[1..], ps), MapTree(f, t), whole);
  }

  /** The groups of a boolean combination and their trees. */
  ghost predicate Grouped(e: Expr, f: Value -> Value, n: nat, word: Word, parts: seq<BoundStatement>, trees: seq<Sql>)
    requires Compile(e).Some?
  {
    && Joins(n, word) && |parts| >= 2 && AllMean(parts, f, trees)
    && Compile(e).value == List(word, parts) && Tree(e) == Folded(n, trees)
  }

  lemma BoundReads(e: Expr, bound: Option<Expr>, s: Symbol, f: Value -> Value)
    requires e.TimestampRange? && bound.Some? && (bound == e.start || bound == e.end) && Continues(Sym(s)) == 5 && WellSorted(e)
    requires Compile(e.operand).Some? && Compile(bound.value).Some?
    ensures Means(9, End(e, bound.value, s), f, Op(s, Tree(e.operand), Tree(bound.value)))
  {
    ReadsAt(4, e.operand, f);
    EndReads(Compile(e.operand).value, bound, s, f, Tree(e.operand));
  }

  lemma RangeGrouped(e: Expr, f: Value -> Value) returns (parts: seq<BoundStatement>, trees: seq<Sql>)
    requires e.TimestampRange? && e.start.Some? && e.end.Some? && Compile(e).Some? && WellSorted(e)
    ensures Grouped(e, f, 8, AND, parts, trees)
  {
    var x, y := e.start.value, e.end.value;
    TwoEndLists(e, x, y);
    BoundReads(e, e.start, FromSymbol(e), f);
    BoundReads(e, e.end, ToSymbol(e), f);
    parts := [End(e, x, FromSymbol(e)), End(e, y, ToSymbol(e))];
    trees := [Op(FromSymbol(e), Tree(e.operand), Tree(x)), Op(ToSymbol(e), Tree(e.operand), Tree(y))];
  }

  lemma BooleanGrouped(e: Expr, f: Value -> Value) returns (n: nat, word: Word, parts: seq<BoundStatement>, trees: seq<Sql>)
    requires Compile(e).Some? && WellSorted(e) && Level(e) >= 8
    ensures Grouped(e, f, n, word, parts, trees)
  {
    n, word := Level(e), if e.Or? then OR else AND;
    if e.TimestampRange? {
      parts, trees := RangeGrouped(e, f);
    } else {
      AllReads(e.operands, f);
      parts, trees := CompileAll(e.operands).value, Trees(e.operands);
    }
  }

  lemma {:induction false} TailFailsLooser(g: Grammar, m: nat, n: nat, left: Sql, ts: seq<Token>, ps: seq<Value>)
    requires m <= n <= 9 && ParseTail(g, m, left, ts, ps).Fail?
    ensures ParseTail(g, n, left, ts, ps).Fail?
    decreases |ts|
  {
    var step := ParseStep(g, left, ts, ps);
    if step.Got? { TailFailsLooser(g, m, n, step.node, step.rest, step.args); }
  }

  /** Something was read at the left that is not there in `whole`. */
  ghost predicate Strays(r: Parsed<Sql>, whole: Sql) { r.Got? ==> exists x: Sql :: OnSpine(x, r.node) && !OnSpine(x, whole) }

  /** What a tighter level reads stays at the left of what a looser one does. */
  lemma StraysLooser(m: nat, n: nat, ts: seq<Token>, ps: seq<Value>, whole: Sql)
    requires m <= n <= 9 && Strays(Parse(Full, m, ts, ps), whole)
    ensures var r := Parse(Full, n, ts, ps); r.Got? ==> r.node != whole
  {
    var q, r, first := Parse(Full, m, ts, ps), Parse(Full, n, ts, ps), ParsePrefix(Full, ts, ps);
    if q.Got? {
      var x: Sql :| OnSpine(x, q.node) && !OnSpine(x, whole);
      Resumes(Full, m, n, ts, ps);
      TailGrows(Full, n, q.node, q.rest, q.args);
      if r.Got? { SpineTrans(x, q.node, r.node); }
    } else if first.Got? {
      TailFailsLooser(Full, m, n, first.node, first.rest, first.args);
    }
  }

  lemma CombineRight(word: Word, left: Sql, x: Sql, y: Sql)
    requires (word == AND || word == OR) && x != y
    ensures Combine(Kw(word), left, x) != Combine(Kw(word), left, y)
  {
    if word == AND {
      assert Combine(Kw(word), left, x) == Both(left, x) && Combine(Kw(word), left, y) == Both(left, y);
    } else {
      assert Combine(Kw(word), left, x) == Either(left, x) && Combine(Kw(word), left, y) == Either(left, y);
    }
  }

  /** The spine holds at most one tree with this operand at its left. */
  lemma OneExtends(left: Sql, x: Sql, y: Sql, whole: Sql)
    requires Extends(left, x) && Extends(left, y) && OnSpine(y, whole) && x != y
    ensures !OnSpine(x, whole)
  {
    if OnSpine(x, whole) { OneOnSpine(x, y, whole); }
  }

  lemma NotInWhole(word: Word, left: Sql, x: Sql, y: Sql, whole: Sql)
    requires (word == AND || word == OR) && x != y && OnSpine(Combine(Kw(word), left, y), whole)
    ensures !OnSpine(Combine(Kw(word), left, x), whole)
  {
    var l, r := Combine(Kw(word), left, x), Combine(Kw(word), left, y);
    CombineExtends(Kw(word), left, x);
    CombineExtends(Kw(word), left, y);
    CombineRight(word, left, x, y);
    OneExtends(left, l, r, whole);
  }

  lemma GrownStrays(n: nat, x: Sql, ts: seq<Token>, ps: seq<Value>, whole: Sql)
    requires n <= 9 && !OnSpine(x, whole)
    ensures Strays(ParseTail(Full, n, x, ts, ps), whole)
  {
    TailGrows(Full, n, x, ts, ps);
  }

  lemma WordThen(n: nat, word: Word, left: Sql, y: Sql, us: seq<Token>, ps: seq<Value>, right: Parsed<Sql>, whole: Sql)
    requires Joins(n, word) && right == Parse(Full, n - 1, us, ps) && (right.Got? ==> Spine(right.node) > Spine(y))
    requires OnSpine(Combine(Kw(word), left, y), whole)
    ensures Strays(ParseTail(Full, n, left, [Kw(word)] + us, ps), whole)
  {
    if right.Got? {
      NotInWhole(word, left, right.node, y, whole);
      WordStrays(n, word, left, us, ps, right, whole);
    } else {
      TailFails(Full, n, left, Kw(word), us, ps);
    }
  }

  lemma WordStrays(n: nat, word: Word, left: Sql, us: seq<Token>, ps: seq<Value>, right: Parsed<Sql>, whole: Sql)
    requires Joins(n, word) && right == Parse(Full, n - 1, us, ps) && right.Got?
    requires !OnSpine(Combine(Kw(word), left, right.node), whole)
    ensures Strays(ParseTail(Full, n, left, [Kw(word)] + us, ps), whole)
  {
    TailStep(Full, n, left, Kw(word), us, ps, right);
    GrownStrays(n, Combine(Kw(word), left, right.node), right.rest, right.args, whole);
  }

  lemma GroupTakenOn(n: nat, b: BoundStatement, f: Value -> Value, t: Sql, tail: seq<Token>, args: seq<Value>)
    requires n <= 9 && Means(9, b, f, t) && Stops(0, tail) && Takes(Full, n, tail)
    ensures var r := Parse(Full, n, Wrap(b.command) + tail, MapValues(f, b.parameters) + args); r.Got? ==> Spine(r.node) > Spine(MapTree(f, t))
  {
    Parenthesised(b, f, t);
    TakenOn(n, BoundStatement(Wrap(b.command), b.parameters), f, t, tail, args);
  }

  /** The last group of a combination before an operator that binds tighter than the combination. */
  lemma LastTaken(n: nat, word: Word, left: Sql, last: BoundStatement, f: Value -> Value, t: Sql, tail: seq<Token>, args: seq<Value>, whole: Sql)
    requires Joins(n, word) && Means(9, last, f, t) && Stops(0, tail) && Takes(Full, n - 1, tail)
    requires OnSpine(Combine(Kw(word), left, MapTree(f, t)), whole)
    ensures Strays(ParseTail(Full, n, left, [Kw(word)] + (Wrap(last.command) + tail), MapValues(f, last.parameters) + args), whole)
  {
    var us, ps := Wrap(last.command) + tail, MapValues(f, last.parameters) + args;
    GroupTakenOn(n - 1, last, f, t, tail, args);
    WordThen(n, word, left, MapTree(f, t), us, ps, Parse(Full, n - 1, us, ps), whole);
  }

  lemma ChainAt(n: nat, ts: seq<Token>, ps: seq<Value>, node: Sql, rest: seq<Token>, more: seq<Value>)
    requires 1 <= n <= 9 && Chain(n, ts, ps, node) && Stops(n - 1, rest)
    ensures Parse(Full, n, ts + rest, ps + more) == ParseTail(Full, n, node, rest, more)
  {
  }

  lemma MoreTaken(n: nat, word: Word, init: seq<BoundStatement>, last: BoundStatement, f: Value -> Value, ts: seq<Sql>, t: Sql,
                  tail: seq<Token>, args: seq<Value>, whole: Sql)
    requires Joins(n, word) && init != [] && ts != [] && AllMean(init, f, ts) && Means(9, last, f, t) && Stops(0, tail) && Takes(Full, n - 1, tail)
    requires OnSpine(Combine(Kw(word), MapTree(f, Folded(n, ts)), MapTree(f, t)), whole)
    ensures Strays(Parse(Full, n, Joined(word, init + [last]) + tail, MapValues(f, AllParameters(init + [last])) + args), whole)
  {
    JoinedReads(word, n, init, f, ts);
    JoinedTokens(word, init, last, f, tail, args);
    var left, next := MapTree(f, Folded(n, ts)), [Kw(word)] + (Wrap(last.command) + tail);
    ChainAt(n, Joined(word, init), MapValues(f, AllParameters(init)), left, next, MapValues(f, last.parameters) + args);
    LastTaken(n, word, left, last, f, t, tail, args, whole);
  }

  lemma ListTaken(n: nat, word: Word, parts: seq<BoundStatement>, f: Value -> Value, trees: seq<Sql>, tail: seq<Token>, args: seq<Value>, whole: Sql)
    requires Joins(n, word) && |parts| >= 2 && AllMean(parts, f, trees) && Stops(0, tail) && Takes(Full, n - 1, tail)
    requires OnSpine(MapTree(f, Folded(n, trees)), whole)
    ensures Strays(Parse(Full, n, Joined(word, parts) + tail, MapValues(f, AllParameters(parts)) + args), whole)
  {
    var k := |parts| - 1;
    LastMeans(parts, f, trees);
    SnocTaken(n, word, parts[..k], parts[k], f, trees[..k], trees[k], tail, args, whole);
  }

  lemma LastMeans(parts: seq<BoundStatement>, f: Value -> Value, trees: seq<Sql>)
    requires |parts| >= 2 && AllMean(parts, f, trees)
    ensures var k := |parts| - 1;
      && AllMean(parts[..k], f, trees[..k]) && Means(9, parts[k], f, trees[k])
      && parts == parts[..k] + [parts[k]] && trees == trees[..k] + [trees[k]]
  {
  }

  lemma SnocTaken(n: nat, word: Word, init: seq<BoundStatement>, last: BoundStatement, f: Value -> Value, ts: seq<Sql>, t: Sql,
                  tail: seq<Token>, args: seq<Value>, whole: Sql)
    requires Joins(n, word) && init != [] && ts != [] && AllMean(init, f, ts) && Means(9, last, f, t) && Stops(0, tail) && Takes(Full, n - 1, tail)
    requires OnSpine(MapTree(f, Folded(n, ts + [t])), whole)
    ensures Strays(Parse(Full, n, Joined(word, init + [last]) + tail, MapValues(f, AllParameters(init + [last])) + args), whole)
  {
    FoldedPush(n, word, f, ts, t);
    MoreTaken(n, word, init, last, f, ts, t, tail, args, whole);
  }

  lemma GroupsInside(x: Expr, f: Value -> Value, tail: seq<Token>, args: seq<Value>, whole: Sql)
    requires Compile(x).Some? && WellSorted(x) && Level(x) >= 8 && OnSpine(MapTree(f, Tree(x)), whole)
    requires Takes(Full, 7, tail) && Stops(0, tail)
    ensures var b := Compile(x).value;
      var r := Parse(Full, 9, b.command + tail, MapValues(f, b.parameters) + args); r.Got? ==> r.node != whole
  {
    var n, word, parts, trees := BooleanGrouped(x, f);
    ListTaken(n, word, parts, f, trees, tail, args, whole);
    StraysLooser(n, 9, Compile(x).value.command + tail, MapValues(f, Compile(x).value.parameters) + args, whole);
  }

  /** A null test after a boolean combination or a negation takes only the end of it. */
  lemma TestInside(x: Expr, f: Value -> Value, negated: bool, us: seq<Token>, args: seq<Value>, whole: Sql)
    requires Compile(x).Some? && WellSorted(x) && Level(x) >= 7 && OnSpine(MapTree(f, Tree(x)), whole)
    ensures var b := Compile(x).value;
      var r := Parse(Full, 9, b.command + (IsNullTokens(negated) + us), MapValues(f, b.parameters) + args); r.Got? ==> r.node != whole
  {
    var tail := IsNullTokens(negated) + us;
    assert IsNullTokens(negated) <= tail && Takes(Full, 7, tail) && Stops(0, tail);
    LevelsAreFew(x);
    NegationIsSeven(x);
    if Level(x) == 7 {
      Reads9(x.operand, f);
      NegationTaken(Compile(x.operand).value, f, Tree(x.operand), tail, args, whole);
    } else {
      GroupsInside(x, f, tail, args, whole);
    }
  }

  // --- Texts of the condition ---

  lemma TestedSound(e: BoundStatement, negated: bool)
    requires Sound(e)
    ensures Sound(NullTested(e, negated))
  {
    Words(IsNullTokens(negated));
    FollowedSound(e, IsNullTokens(negated));
  }

  lemma BoundSound(v: Value)
    ensures Sound(Bound(v))
  {
    BalancedOne(Placeholder);
  }

  lemma LaterSound(e: BoundStatement, s: Sort, v: Value)
    requires Sound(e)
    ensures Sound(Later(e, s, v))
  {
    TestedSound(e, true);
    BoundSound(v);
    ComparedSound(e, Strictly(s), Bound(v));
    InfixedSound(NullTested(e, true).command, Kw(AND), Compared(e, Strictly(s), Bound(v)).command);
  }

  lemma NullOrSound(e: BoundStatement, s: Sort, v: Value)
    requires Sound(e)
    ensures Sound(NullOr(e, s, v))
  {
    TestedSound(e, false);
    LaterSound(e, s, v);
    BalancedGroup(Later(e, s, v).command);
    InfixedSound(NullTested(e, false).command, Kw(OR), Wrap(Later(e, s, v).command));
  }

  lemma AfterSound(e: BoundStatement, s: Sort, v: Value)
    requires Sound(e)
    ensures Sound(After(e, s, v))
  {
    BalancedOne(Kw(FALSE));
    TestedSound(e, true);
    LaterSound(e, s, v);
    NullOrSound(e, s, v);
    BalancedGroup(Later(e, s, v).command);
    BalancedGroup(NullOr(e, s, v).command);
  }

  lemma SameTest()
    ensures Balanced(NotDistinctTokens + [Placeholder]) && Slots(NotDistinctTokens + [Placeholder]) == 1
  {
    Words(NotDistinctTokens);
    BalancedOne(Placeholder);
    BalancedAppend(NotDistinctTokens, [Placeholder]);
  }

  lemma SameSound(e: BoundStatement, v: Value)
    requires Sound(e)
    ensures Sound(Same(e, v))
  {
    SameTest();
    BalancedAppend(e.command, NotDistinctTokens + [Placeholder]);
    Assoc(e.command, NotDistinctTokens, [Placeholder]);
  }

  /** `e IS NULL OR (e IS NOT NULL AND e > v)`. */
  function NullOr(e: BoundStatement, s: Sort, v: Value): BoundStatement {
    Infixed(NullTested(e, false), OR, Parens(Later(e, s, v)))
  }

  // --- Boolean combinations in the condition ---

  /** A statement that starts with a null test of a boolean combination. */
  lemma TestedMisread(x: Expr, negated: bool, us: seq<Token>, qs: seq<Value>, f: Value -> Value, whole: Sql)
    requires Compile(x).Some? && WellSorted(x) && Level(x) >= 7 && OnSpine(MapTree(f, Tree(x)), whole)
    ensures !Reading(BoundStatement(NullTested(Compile(x).value, negated).command + us, Compile(x).value.parameters + qs), f, whole)
  {
    var b := Compile(x).value;
    MapAppend(f, b.parameters, qs);
    forall rest: seq<Token>, more: seq<Value>
      ensures Parse(Full, 9, b.command + IsNullTokens(negated) + us + ([RParen] + rest), MapValues(f, b.parameters + qs) + more)
              != Got(whole, [RParen] + rest, more)
    {
      Assoc4(b.command, IsNullTokens(negated), us, [RParen] + rest);
      Assoc(MapValues(f, b.parameters), MapValues(f, qs), more);
      TestInside(x, f, negated, us + ([RParen] + rest), MapValues(f, qs) + more, whole);
    }
  }

  lemma LaterBooleanMisread(x: Expr, s: Sort, v: Value, f: Value -> Value, whole: Sql)
    requires Compile(x).Some? && WellSorted(x) && Level(x) >= 7 && OnSpine(MapTree(f, Tree(x)), whole)
    ensures !Reading(Later(Compile(x).value, s, v), f, whole)
  {
    var b := Compile(x).value;
    var right := Compared(b, Strictly(s), Bound(v));
    Assoc(NullTested(b, true).command, [Kw(AND)], right.command);
    TestedMisread(x, true, [Kw(AND)] + right.command, right.parameters, f, whole);
  }

  lemma NullOrBooleanMisread(x: Expr, s: Sort, v: Value, f: Value -> Value, whole: Sql)
    requires Compile(x).Some? && WellSorted(x) && Level(x) >= 7 && OnSpine(MapTree(f, Tree(x)), whole)
    ensures !Reading(NullOr(Compile(x).value, s, v), f, whole)
  {
    var b := Compile(x).value;
    var right := Parens(Later(b, s, v));
    Assoc(NullTested(b, false).command, [Kw(OR)], right.command);
    TestedMisread(x, false, [Kw(OR)] + right.command, right.parameters, f, whole);
  }

  lemma TestBooleanMisread(x: Expr, negated: bool, f: Value -> Value, whole: Sql)
    requires Compile(x).Some? && WellSorted(x) && Level(x) >= 7 && OnSpine(MapTree(f, Tree(x)), whole)
    ensures !Reading(NullTested(Compile(x).value, negated), f, whole)
  {
    var b := NullTested(Compile(x).value, negated);
    assert b.command + [] == b.command && b.parameters + [] == b.parameters;
    TestedMisread(x, negated, [], [], f, whole);
  }

  // --- Comparisons in the condition ---

  lemma ClashAfter(first: BoundStatement, s: Symbol, second: BoundStatement, f: Value -> Value, t: Sql, u: Sql, tail: seq<Token>, args: seq<Value>)
    requires Continues(Sym(s)) == 5 && Means(0, first, f, t) && Means(0, second, f, u) && tail != [] && Continues(tail[0]) == 5
    ensures Parse(Full, 7, Compared(first, s, second).command + tail, MapValues(f, Compared(first, s, second).parameters) + args).Fail?
  {
    var us, more := second.command + tail, MapValues(f, second.parameters) + args;
    HalvesTokens(first, s, second, f, tail, args);
    Continued(Full, 0, 7, first.command, MapValues(f, first.parameters), MapTree(f, t), [Sym(s)] + us, more);
    Continued(Full, 0, 4, second.command, MapValues(f, second.parameters), MapTree(f, u), tail, args);
    TailFails(Full, 7, MapTree(f, t), Sym(s), us, more);
  }

  /** A comparison compared again fails. */
  lemma ComparedAgainFails(x: Expr, f: Value -> Value, s: Symbol, us: seq<Token>, args: seq<Value>)
    requires Compile(x).Some? && WellSorted(x) && Level(x) == 5 && Continues(Sym(s)) == 5
    ensures Parse(Full, 7, Compile(x).value.command + ([Sym(s)] + us), MapValues(f, Compile(x).value.parameters) + args).Fail?
  {
    var first, op, second, t, u := LooseHalves(x, f);
    ClashAfter(first, op, second, f, t, u, [Sym(s)] + us, args);
  }

  /** A null test of a comparison is read, and what follows goes on from it. */
  lemma TestThen(x: Expr, f: Value -> Value, negated: bool, us: seq<Token>, args: seq<Value>)
    requires Compile(x).Some? && WellSorted(x) && Level(x) <= 5
    ensures var b := Compile(x).value;
      Parse(Full, 9, b.command + (IsNullTokens(negated) + us), MapValues(f, b.parameters) + args)
      == ParseTail(Full, 9, NullTest(MapTree(f, Tree(x)), negated), us, args)
  {
    ReadsAt(5, x, f);
    var b := Compile(x).value;
    Continued(Full, 5, 9, b.command, MapValues(f, b.parameters), MapTree(f, Tree(x)), IsNullTokens(negated) + us, args);
    NullStep(9, MapTree(f, Tree(x)), negated, us, args);
  }

  lemma LaterTokens(b: BoundStatement, s: Sort, v: Value, rest: seq<Token>)
    ensures Later(b, s, v).command + rest
            == b.command + (IsNullTokens(true) + ([Kw(AND)] + (b.command + ([Sym(Strictly(s))] + ([Placeholder] + rest)))))
  {
    var e, i, a, c, p := b.command, IsNullTokens(true), [Kw(AND)], [Sym(Strictly(s))], [Placeholder];
    assert Later(b, s, v).command == e + i + a + (e + c + p);
    Regroup(e, i, a, e, c, p, rest);
  }

  lemma Regroup<T>(a: seq<T>, b: seq<T>, c: seq<T>, d: seq<T>, e: seq<T>, f: seq<T>, g: seq<T>)
    ensures a + b + c + (d + e + f) + g == a + (b + (c + (d + (e + (f + g)))))
  {
  }

  lemma LaterValues(b: BoundStatement, s: Sort, v: Value, f: Value -> Value, more: seq<Value>)
    ensures MapValues(f, Later(b, s, v).parameters) + more
            == MapValues(f, b.parameters) + (MapValues(f, b.parameters) + (MapValues(f, [v]) + more))
  {
    MapAppend(f, b.parameters, b.parameters + [v]);
    MapAppend(f, b.parameters, [v]);
    Assoc4(MapValues(f, b.parameters), MapValues(f, b.parameters), MapValues(f, [v]), more);
    Assoc(MapValues(f, b.parameters), MapValues(f, b.parameters), MapValues(f, [v]));
  }

  lemma LaterFails(x: Expr, s: Sort, v: Value, f: Value -> Value, rest: seq<Token>, more: seq<Value>)
    requires Compile(x).Some? && WellSorted(x) && Level(x) == 5
    ensures Parse(Full, 9, Later(Compile(x).value, s, v).command + rest, MapValues(f, Later(Compile(x).value, s, v).parameters) + more).Fail?
  {
    var b := Compile(x).value;
    TestedThenFails(x, f, Strictly(s), [Placeholder] + rest, MapValues(f, [v]) + more);
    LaterTokens(b, s, v, rest);
    LaterValues(b, s, v, f, more);
  }

  /** `e IS NOT NULL AND e > ...` for a comparison `e`. */
  lemma TestedThenFails(x: Expr, f: Value -> Value, s: Symbol, us: seq<Token>, args: seq<Value>)
    requires Compile(x).Some? && WellSorted(x) && Level(x) == 5 && Continues(Sym(s)) == 5
    ensures var b := Compile(x).value;
      Parse(Full, 9, b.command + (IsNullTokens(true) + ([Kw(AND)] + (b.command + ([Sym(s)] + us)))),
            MapValues(f, b.parameters) + (MapValues(f, b.parameters) + args)).Fail?
  {
    var b := Compile(x).value;
    TestThen(x, f, true, [Kw(AND)] + (b.command + ([Sym(s)] + us)), MapValues(f, b.parameters) + args);
    ComparedAgainFails(x, f, s, us, args);
    AndFails(NullTest(MapTree(f, Tree(x)), true), b.command + ([Sym(s)] + us), MapValues(f, b.parameters) + args);
  }

  lemma AndFails(left: Sql, us: seq<Token>, args: seq<Value>)
    requires Parse(Full, 7, us, args).Fail?
    ensures ParseTail(Full, 9, left, [Kw(AND)] + us, args).Fail?
  {
    TailFails(Full, 9, left, Kw(AND), us, args);
  }

  lemma LaterNeverRead(x: Expr, s: Sort, v: Value, f: Value -> Value, whole: Sql)
    requires Compile(x).Some? && WellSorted(x) && Level(x) == 5
    ensures !Reading(Later(Compile(x).value, s, v), f, whole)
  {
    forall rest: seq<Token>, more: seq<Value>
      ensures Parse(Full, 9, Later(Compile(x).value, s, v).command + ([RParen] + rest), MapValues(f, Later(Compile(x).value, s, v).parameters) + more)
              != Got(whole, [RParen] + rest, more)
    {
      LaterFails(x, s, v, f, [RParen] + rest, more);
    }
  }

  lemma NullOrTokens(b: BoundStatement, s: Sort, v: Value, rest: seq<Token>)
    ensures NullOr(b, s, v).command + rest == b.command + (IsNullTokens(false) + ([Kw(OR)] + (Wrap(Later(b, s, v).command) + rest)))
  {
    var e, i, o, w := b.command, IsNullTokens(false), [Kw(OR)], Wrap(Later(b, s, v).command);
    assert NullOr(b, s, v).command == e + i + o + w;
    Assoc4(e + i, o, w, rest);
    Assoc(e, i, o + (w + rest));
  }

  lemma NullOrValues(b: BoundStatement, s: Sort, v: Value, f: Value -> Value, more: seq<Value>)
    ensures MapValues(f, NullOr(b, s, v).parameters) + more == MapValues(f, b.parameters) + (MapValues(f, Later(b, s, v).parameters) + more)
  {
    MapAppend(f, b.parameters, Later(b, s, v).parameters);
    Assoc(MapValues(f, b.parameters), MapValues(f, Later(b, s, v).parameters), more);
  }

  lemma GroupFails(inner: seq<Token>, rest: seq<Token>, ps: seq<Value>)
    requires Parse(Full, 9, inner + ([RParen] + rest), ps).Fail?
    ensures Parse(Full, 8, Wrap(inner) + rest, ps).Fail?
  {
    var us := Wrap(inner) + rest;
    assert us[1..] == inner + ([RParen] + rest);
    assert ParsePrefix(Full, us, ps).Fail?;
  }

  lemma TestedOrFails(x: Expr, f: Value -> Value, us: seq<Token>, args: seq<Value>)
    requires Compile(x).Some? && WellSorted(x) && Level(x) == 5 && Parse(Full, 8, us, args).Fail?
    ensures var b := Compile(x).value;
      Parse(Full, 9, b.command + (IsNullTokens(false) + ([Kw(OR)] + us)), MapValues(f, b.parameters) + args).Fail?
  {
    TestThen(x, f, false, [Kw(OR)] + us, args);
    OrFails(NullTest(MapTree(f, Tree(x)), false), us, args);
  }

  lemma OrFails(left: Sql, us: seq<Token>, args: seq<Value>)
    requires Parse(Full, 8, us, args).Fail?
    ensures ParseTail(Full, 9, left, [Kw(OR)] + us, args).Fail?
  {
    TailFails(Full, 9, left, Kw(OR), us, args);
  }

  lemma NullOrFails(x: Expr, s: Sort, v: Value, f: Value -> Value, rest: seq<Token>, more: seq<Value>)
    requires Compile(x).Some? && WellSorted(x) && Level(x) == 5
    ensures Parse(Full, 9, NullOr(Compile(x).value, s, v).command + rest, MapValues(f, NullOr(Compile(x).value, s, v).parameters) + more).Fail?
  {
    var b, later := Compile(x).value, Later(Compile(x).value, s, v);
    NullOrTokens(b, s, v, rest);
    NullOrValues(b, s, v, f, more);
    LaterFails(x, s, v, f, [RParen] + rest, more);
    GroupFails(later.command, rest, MapValues(f, later.parameters) + more);
    TestedOrFails(x, f, Wrap(later.command) + rest, MapValues(f, later.parameters) + more);
  }

  lemma NullOrNeverRead(x: Expr, s: Sort, v: Value, f: Value -> Value, whole: Sql)
    requires Compile(x).Some? && WellSorted(x) && Level(x) == 5
    ensures !Reading(NullOr(Compile(x).value, s, v), f, whole)
  {
    forall rest: seq<Token>, more: seq<Value>
      ensures Parse(Full, 9, NullOr(Compile(x).value, s, v).command + ([RParen] + rest), MapValues(f, NullOr(Compile(x).value, s, v).parameters) + more)
              != Got(whole, [RParen] + rest, more)
    {
      NullOrFails(x, s, v, f, [RParen] + rest, more);
    }
  }

  // --- One column ---

  /** The trees of the condition keep the order expression at the far left. */
  lemma AfterSpine(f: Value -> Value, t: Sql, s: Sort, v: Value)
    requires v != Null || s.nulls == NullsFirst
    ensures OnSpine(MapTree(f, t), MapTree(f, AfterTree(t, s, v)))
  {
    var u := MapTree(f, t);
    assert MapTree(f, NullTest(t, true)) == NullTest(u, true) && MapTree(f, NullTest(t, false)) == NullTest(u, false);
    assert OnSpine(u, NullTest(u, true)) && OnSpine(u, NullTest(u, false));
    if v != Null {
      var whole := MapTree(f, AfterTree(t, s, v));
      assert LeftOf(whole) == NullTest(u, s.nulls == NullsFirst);
    }
  }

  lemma OnlyLaterMisread(x: Expr, s: Sort, v: Value, f: Value -> Value, whole: Sql)
    requires Compile(x).Some? && WellSorted(x) && Level(x) > 4 && OnSpine(MapTree(f, Tree(x)), whole)
    ensures !Reading(Parens(Later(Compile(x).value, s, v)), f, whole)
  {
    LevelsAreFew(x);
    SortedSound(x);
    var later := Later(Compile(x).value, s, v);
    LaterSound(Compile(x).value, s, v);
    if Level(x) == 5 { LaterNeverRead(x, s, v, f, whole); } else { LaterBooleanMisread(x, s, v, f, whole); }
    if Reading(Parens(later), f, whole) { Unwrapped(later, f, whole); }
  }

  lemma NullOrLaterMisread(x: Expr, s: Sort, v: Value, f: Value -> Value, whole: Sql)
    requires Compile(x).Some? && WellSorted(x) && Level(x) > 4 && OnSpine(MapTree(f, Tree(x)), whole)
    ensures !Reading(Parens(NullOr(Compile(x).value, s, v)), f, whole)
  {
    LevelsAreFew(x);
    SortedSound(x);
    var either := NullOr(Compile(x).value, s, v);
    NullOrSound(Compile(x).value, s, v);
    if Level(x) == 5 { NullOrNeverRead(x, s, v, f, whole); } else { NullOrBooleanMisread(x, s, v, f, whole); }
    if Reading(Parens(either), f, whole) { Unwrapped(either, f, whole); }
  }

  /** The comparison of an order expression with its cursor value, where it is printed and too loose. */
  lemma AfterMisread(x: Expr, s: Sort, v: Value, f: Value -> Value)
    requires Compile(x).Some? && WellSorted(x) && (v != Null || s.nulls == NullsFirst) && Level(x) > Room(v)
    ensures !Reading(After(Compile(x).value, s, v), f, MapTree(f, AfterTree(Tree(x), s, v)))
  {
    var whole := MapTree(f, AfterTree(Tree(x), s, v));
    AfterSpine(f, Tree(x), s, v);
    if v == Null {
      LevelsAreFew(x);
      TestBooleanMisread(x, true, f, whole);
    } else if s.nulls == NullsFirst {
      OnlyLaterMisread(x, s, v, f, whole);
    } else {
      NullOrLaterMisread(x, s, v, f, whole);
    }
  }

  lemma SameMisread(x: Expr, v: Value, f: Value -> Value)
    requires Compile(x).Some? && WellSorted(x) && Level(x) > 6
    ensures !Reading(Same(Compile(x).value, v), f, MapTree(f, NotDistinct(Tree(x), Val(v))))
  {
    var whole := MapTree(f, NotDistinct(Tree(x), Val(v)));
    SameLeft(Tree(x), v, f);
    SameText(Compile(x).value, v);
    StartMisread(x, NotDistinctTokens + [Placeholder], [v], f, whole);
  }

  lemma SameLeft(t: Sql, v: Value, f: Value -> Value)
    ensures var whole := MapTree(f, NotDistinct(t, Val(v))); OnSpine(MapTree(f, t), whole) && RootLevel(whole) == 6
  {
    var whole := MapTree(f, NotDistinct(t, Val(v)));
    assert LeftOf(whole) == MapTree(f, t);
  }

  lemma SameText(b: BoundStatement, v: Value)
    ensures Same(b, v) == BoundStatement(b.command + (NotDistinctTokens + [Placeholder]), b.parameters + [v])
  {
    Assoc(b.command, NotDistinctTokens, [Placeholder]);
  }

  // --- The whole condition ---

  /** The order expressions are the texts of sorted expressions. */
  ghost predicate Compiled(order: seq<OrderItem>, es: seq<Expr>) {
    |order| == |es| && forall i :: 0 <= i < |order| ==> WellSorted(es[i]) && Compile(es[i]) == Some(order[i].expression)
  }

  /** Every expression the condition prints is tight enough for the places where it does. */
  predicate Tight(order: seq<OrderItem>, es: seq<Expr>, cursor: seq<Value>)
    requires |order| == |es| == |cursor|
  {
    forall i :: 0 <= i < |order| && Shown(order, cursor, i) ==> Level(es[i]) <= Room(cursor[i])
  }

  /** The executed condition of a later page is read as the filter and the cursor condition, nothing left over. */
  ghost predicate PageReadsBack(where: BoundStatement, w: Sql, order: seq<OrderItem>, es: seq<Expr>, cursor: seq<Value>, f: Value -> Value)
    requires |order| == |es| == |cursor|
  {
    var text := Narrowed(where, order, cursor);
    ParseAll(text.command, MapValues(f, text.parameters)) == Got(NarrowedTree(w, Trees(es), SortsOf(order), cursor, f), [], [])
  }

  lemma {:induction false} TreesAt(es: seq<Expr>, i: nat)
    requires i < |es|
    ensures Trees(es)[i] == Tree(es[i])
  {
    if i > 0 { TreesAt(es[1..], i - 1); }
  }

  lemma TightMeans(order: seq<OrderItem>, es: seq<Expr>, cursor: seq<Value>, f: Value -> Value)
    requires Compiled(order, es) && |cursor| == |order| && Tight(order, es, cursor)
    ensures CursorMeans(order, cursor, f, Trees(es))
  {
    var ts := Trees(es);
    forall i | 0 <= i < |order| && Shown(order, cursor, i) ensures Means(Room(cursor[i]), order[i].expression, f, ts[i]) {
      TreesAt(es, i);
      ReadsAt(Room(cursor[i]), es[i], f);
    }
  }

  /** The parts of one branch. */
  function Parts(order: seq<OrderItem>, cursor: seq<Value>, i: nat): (parts: seq<BoundStatement>)
    requires i < |order| == |cursor|
    ensures |parts| == i + 1
  {
    Equals(order, cursor, i) + [After(order[i].expression, order[i].sort, cursor[i])]
  }

  function PartTrees(ts: seq<Sql>, sorts: seq<Sort>, cursor: seq<Value>, i: nat): (us: seq<Sql>)
    requires i < |ts| == |sorts| == |cursor|
    ensures |us| == i + 1
  {
    EqualTrees(ts, cursor, i) + [AfterTree(ts[i], sorts[i], cursor[i])]
  }

  lemma PartsAreSound(order: seq<OrderItem>, es: seq<Expr>, cursor: seq<Value>, i: nat)
    requires Compiled(order, es) && i < |order| == |cursor|
    ensures AllSound(Parts(order, cursor, i))
  {
    var parts := Parts(order, cursor, i);
    forall j | 0 <= j <= i ensures Sound(parts[j]) {
      SortedSound(es[j]);
      if j < i { SameSound(order[j].expression, cursor[j]); } else { AfterSound(order[i].expression, order[i].sort, cursor[i]); }
    }
  }

  lemma BranchSound(order: seq<OrderItem>, es: seq<Expr>, cursor: seq<Value>, i: nat)
    requires Compiled(order, es) && i < |order| == |cursor|
    ensures Sound(Branch(order, cursor, i))
  {
    PartsAreSound(order, es, cursor, i);
    JoinedSound(AND, Parts(order, cursor, i));
  }

  lemma BranchesAreSound(order: seq<OrderItem>, es: seq<Expr>, cursor: seq<Value>)
    requires Compiled(order, es) && |order| == |cursor|
    ensures AllSound(Branches(order, cursor, |order|))
  {
    var branches := Branches(order, cursor, |order|);
    forall i | 0 <= i < |order| ensures Sound(branches[i]) { BranchSound(order, es, cursor, i); }
  }

  lemma ConditionSound(order: seq<OrderItem>, es: seq<Expr>, cursor: seq<Value>)
    requires Compiled(order, es) && |order| == |cursor|
    ensures Sound(Disjunction(Branches(order, cursor, |order|)))
  {
    BalancedOne(Kw(FALSE));
    if order != [] {
      BranchesAreSound(order, es, cursor);
      JoinedSound(OR, Branches(order, cursor, |order|));
    }
  }

  lemma SecondRead(p: BoundStatement, q: BoundStatement, f: Value -> Value, t: Sql, u: Sql)
    requires Sound(p) && Sound(q)
    requires ParseAll(Conjunction([p, q]).command, MapValues(f, Conjunction([p, q]).parameters)) == Got(Both(MapTree(f, t), MapTree(f, u)), [], [])
    ensures Reading(q, f, MapTree(f, u))
  {
    TwoFolded(t, u);
    assert [t] + [u] == [t, u];
    WholeListRead(8, AND, [p, q], f, [t, u]);
    MapTreesAt(f, [t, u], 1);
  }

  lemma ConditionRead(where: BoundStatement, w: Sql, order: seq<OrderItem>, es: seq<Expr>, cursor: seq<Value>, f: Value -> Value)
    requires Means(9, where, f, w) && Compiled(order, es) && |order| == |cursor| && PageReadsBack(where, w, order, es, cursor, f)
    ensures Reading(Disjunction(Branches(order, cursor, |order|)), f, MapTree(f, KeysetTree(Trees(es), SortsOf(order), cursor)))
  {
    MeansSound(where, f, w);
    ConditionSound(order, es, cursor);
    SecondRead(where, Disjunction(Branches(order, cursor, |order|)), f, w, KeysetTree(Trees(es), SortsOf(order), cursor));
  }

  lemma BranchRead(order: seq<OrderItem>, es: seq<Expr>, cursor: seq<Value>, f: Value -> Value, i: nat)
    requires Compiled(order, es) && i < |order| == |cursor|
    requires Reading(Disjunction(Branches(order, cursor, |order|)), f, MapTree(f, KeysetTree(Trees(es), SortsOf(order), cursor)))
    ensures Reading(Branch(order, cursor, i), f, MapTree(f, BranchTree(Trees(es), SortsOf(order), cursor, i)))
  {
    var n := |order|;
    var trees := BranchTrees(Trees(es), SortsOf(order), cursor, n);
    BranchesAreSound(order, es, cursor);
    ListRead(9, OR, Branches(order, cursor, n), f, trees);
    MapTreesAt(f, trees, i);
  }

  /** In a page that reads back, every branch and every part of it is read as its own tree. */
  lemma PartRead(where: BoundStatement, w: Sql, order: seq<OrderItem>, es: seq<Expr>, cursor: seq<Value>, f: Value -> Value, i: nat, j: nat)
    requires Means(9, where, f, w) && Compiled(order, es) && |order| == |cursor| && j <= i < |order|
    requires PageReadsBack(where, w, order, es, cursor, f)
    ensures Reading(Parts(order, cursor, i)[j], f, MapTree(f, PartTrees(Trees(es), SortsOf(order), cursor, i)[j]))
  {
    ConditionRead(where, w, order, es, cursor, f);
    BranchRead(order, es, cursor, f, i);
    PartsAreSound(order, es, cursor, i);
    var trees := PartTrees(Trees(es), SortsOf(order), cursor, i);
    ListRead(8, AND, Parts(order, cursor, i), f, trees);
    MapTreesAt(f, trees, j);
  }

  lemma AfterRead(where: BoundStatement, w: Sql, order: seq<OrderItem>, es: seq<Expr>, cursor: seq<Value>, f: Value -> Value, i: nat)
    requires Means(9, where, f, w) && Compiled(order, es) && i < |order| == |cursor| && PageReadsBack(where, w, order, es, cursor, f)
    ensures Reading(After(order[i].expression, order[i].sort, cursor[i]), f, MapTree(f, AfterTree(Tree(es[i]), order[i].sort, cursor[i])))
  {
    PartRead(where, w, order, es, cursor, f, i, i);
    TreesAt(es, i);
  }

  lemma SameRead(where: BoundStatement, w: Sql, order: seq<OrderItem>, es: seq<Expr>, cursor: seq<Value>, f: Value -> Value, i: nat)
    requires Means(9, where, f, w) && Compiled(order, es) && i + 1 < |order| == |cursor| && PageReadsBack(where, w, order, es, cursor, f)
    ensures Reading(Same(order[i].expression, cursor[i]), f, MapTree(f, NotDistinct(Tree(es[i]), Val(cursor[i]))))
  {
    PartRead(where, w, order, es, cursor, f, i + 1, i);
    TreesAt(es, i);
  }

  lemma LooseAfterMisread(where: BoundStatement, w: Sql, order: seq<OrderItem>, es: seq<Expr>, cursor: seq<Value>, f: Value -> Value, i: nat)
    requires Means(9, where, f, w) && Compiled(order, es) && i < |order| == |cursor|
    requires (cursor[i] != Null || order[i].sort.nulls == NullsFirst) && Level(es[i]) > Room(cursor[i])
    ensures !PageReadsBack(where, w, order, es, cursor, f)
  {
    AfterMisread(es[i], order[i].sort, cursor[i], f);
    if PageReadsBack(where, w, order, es, cursor, f) { AfterRead(where, w, order, es, cursor, f, i); }
  }

  lemma LooseSameMisread(where: BoundStatement, w: Sql, order: seq<OrderItem>, es: seq<Expr>, cursor: seq<Value>, f: Value -> Value, i: nat)
    requires Means(9, where, f, w) && Compiled(order, es) && i < |order| - 1 && |order| == |cursor| && Level(es[i]) > 6
    ensures !PageReadsBack(where, w, order, es, cursor, f)
  {
    SameMisread(es[i], cursor[i], f);
    if PageReadsBack(where, w, order, es, cursor, f) { SameRead(where, w, order, es, cursor, f, i); }
  }

  /** A printed expression that is too loose is misread in its own branch, or where the next branch compares it. */
  lemma LooseMisread(where: BoundStatement, w: Sql, order: seq<OrderItem>, es: seq<Expr>, cursor: seq<Value>, f: Value -> Value, i: nat)
    requires Means(9, where, f, w) && Compiled(order, es) && i < |order| == |cursor|
    requires Shown(order, cursor, i) && Level(es[i]) > Room(cursor[i])
    ensures !PageReadsBack(where, w, order, es, cursor, f)
  {
    if cursor[i] != Null || order[i].sort.nulls == NullsFirst {
      LooseAfterMisread(where, w, order, es, cursor, f, i);
    } else {
      LevelsAreFew(es[i]);
      LooseSameMisread(where, w, order, es, cursor, f, i);
    }
  }

  /** For every order and every cursor: a page reads back if and only if what its condition prints is tight enough. */
  lemma PageReadsBackIffTight(where: BoundStatement, w: Sql, order: seq<OrderItem>, es: seq<Expr>, cursor: seq<Value>, f: Value -> Value)
    requires Means(9, where, f, w) && Compiled(order, es) && |order| == |cursor|
    ensures PageReadsBack(where, w, order, es, cursor, f) <==> Tight(order, es, cursor)
  {
    if Tight(order, es, cursor) {
      TightMeans(order, es, cursor, f);
      NarrowedText(where, w, order, Trees(es), cursor, f);
    } else {
      var i :| 0 <= i < |order| && Shown(order, cursor, i) && Level(es[i]) > Room(cursor[i]);
      LooseMisread(where, w, order, es, cursor, f, i);
    }
  }

  ghost predicate AlwaysReadsBack(where: BoundStatement, w: Sql, order: seq<OrderItem>, es: seq<Expr>, f: Value -> Value)
    requires |order| == |es|
  {
    forall cursor: seq<Value> :: |cursor| == |order| ==> PageReadsBack(where, w, order, es, cursor, f)
  }

  predicate AlwaysTight(es: seq<Expr>) { forall i :: 0 <= i < |es| ==> Level(es[i]) <= 4 }

  lemma TightWithoutNulls(order: seq<OrderItem>, es: seq<Expr>, cursor: seq<Value>)
    requires |order| == |es| == |cursor| && Tight(order, es, cursor) && forall i :: 0 <= i < |cursor| ==> cursor[i] != Null
    ensures AlwaysTight(es)
  {
    forall i | 0 <= i < |es| ensures Level(es[i]) <= 4 { assert Shown(order, cursor, i); }
  }

  /** Under every cursor: the expressions that are always carried are those tighter than a comparison. */
  lemma AlwaysReadsBackIffTight(where: BoundStatement, w: Sql, order: seq<OrderItem>, es: seq<Expr>, f: Value -> Value)
    requires Means(9, where, f, w) && Compiled(order, es)
    ensures AlwaysReadsBack(where, w, order, es, f) <==> AlwaysTight(es)
  {
    if AlwaysTight(es) {
      forall cursor: seq<Value> | |cursor| == |order| ensures PageReadsBack(where, w, order, es, cursor, f) {
        TightPageReads(where, w, order, es, cursor, f);
      }
    } else {
      PlainCursorFails(where, w, order, es, f, seq(|order|, (i: nat) => Plain("")));
    }
  }

  lemma TightPageReads(where: BoundStatement, w: Sql, order: seq<OrderItem>, es: seq<Expr>, cursor: seq<Value>, f: Value -> Value)
    requires Means(9, where, f, w) && Compiled(order, es) && AlwaysTight(es) && |cursor| == |order|
    ensures PageReadsBack(where, w, order, es, cursor, f)
  {
    assert Tight(order, es, cursor);
    PageReadsBackIffTight(where, w, order, es, cursor, f);
  }

  lemma PlainCursorFails(where: BoundStatement, w: Sql, order: seq<OrderItem>, es: seq<Expr>, f: Value -> Value, cursor: seq<Value>)
    requires Means(9, where, f, w) && Compiled(order, es) && !AlwaysTight(es)
    requires |cursor| == |order| && forall i :: 0 <= i < |cursor| ==> cursor[i] != Null
    ensures !PageReadsBack(where, w, order, es, cursor, f)
  {
    PageReadsBackIffTight(where, w, order, es, cursor, f);
    if Tight(order, es, cursor) { TightWithoutNulls(order, es, cursor); }
  }
}
