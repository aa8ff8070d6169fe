/** The compiled text of every well-sorted expression reads as its tree, with every value in its place. */
module CompilerCorrectness {
  import opened Wrappers
  import opened SqlSyntax
  import opened ParserFacts
  import opened ExpressionCompiler
  import JsonPointer

  // --- Values ---

  lemma {:induction false} MapAppend(f: Value -> Value, ps: seq<Value>, qs: seq<Value>)
    ensures MapValues(f, ps + qs) == MapValues(f, ps) + MapValues(f, qs)
  {
  }

  lemma MapTwice(f: Value -> Value, g: Value -> Value, h: Value -> Value, ps: seq<Value>)
    requires forall v :: h(v) == f(g(v))
    ensures MapValues(f, MapValues(g, ps)) == MapValues(h, ps)
  {
  }

  lemma {:induction false} TreeTwice(f: Value -> Value, g: Value -> Value, h: Value -> Value, t: Sql)
    requires forall v :: h(v) == f(g(v))
    ensures MapTree(f, MapTree(g, t)) == MapTree(h, t)
    decreases t, 1
  {
    match t
    case Val(v) => assert h(v) == f(g(v));
    case Negation(x) => TreeTwice(f, g, h, x);
    case Not(x) => TreeTwice(f, g, h, x);
    case NullTest(x, _) => TreeTwice(f, g, h, x);
    case Cast(x, _) => TreeTwice(f, g, h, x);
    case Call(_, _, _) => ManyTwice(f, g, h, t);
    case Member(_, _, _) => ManyTwice(f, g, h, t);
    case _ => PairTwice(f, g, h, t);
  }

  lemma {:induction false} ManyTwice(f: Value -> Value, g: Value -> Value, h: Value -> Value, t: Sql)
    requires (forall v :: h(v) == f(g(v))) && (t.Call? || t.Member?)
    ensures MapTree(f, MapTree(g, t)) == MapTree(h, t)
    decreases t, 0
  {
    if t.Call? {
      TreesTwice(f, g, h, t.args);
    } else {
      TreeTwice(f, g, h, t.arg);
      TreesTwice(f, g, h, t.items);
    }
  }

  lemma {:induction false} PairTwice(f: Value -> Value, g: Value -> Value, h: Value -> Value, t: Sql)
    requires forall v :: h(v) == f(g(v))
    requires !t.Val? && !t.Negation? && !t.Not? && !t.NullTest? && !t.Cast? && !t.Call? && !t.Member?
    ensures MapTree(f, MapTree(g, t)) == MapTree(h, t)
    decreases t, 0
  {
    match t
    case Op(_, x, y) => TreeTwice(f, g, h, x); TreeTwice(f, g, h, y);
    case Both(x, y) => TreeTwice(f, g, h, x); TreeTwice(f, g, h, y);
    case Either(x, y) => TreeTwice(f, g, h, x); TreeTwice(f, g, h, y);
    case NotDistinct(x, y) => TreeTwice(f, g, h, x); TreeTwice(f, g, h, y);
    case PositionOf(x, y) => TreeTwice(f, g, h, x); TreeTwice(f, g, h, y);
    case _ =>
  }

  lemma {:induction false} TreesTwice(f: Value -> Value, g: Value -> Value, h: Value -> Value, ts: seq<Sql>)
    requires forall v :: h(v) == f(g(v))
    ensures MapTrees(f, MapTrees(g, ts)) == MapTrees(h, ts)
    decreases ts, 2
  {
    if ts != [] {
      TreeTwice(f, g, h, ts[0]);
      TreesTwice(f, g, h, ts[1..]);
      assert MapTrees(g, ts)[1..] == MapTrees(g, ts[1..]);
    }
  }

  function Compose(f: Value -> Value, kind: Kind): Value -> Value { (v: Value) => f(Encode(kind, v)) }

  // --- Statements ---

  /** With values changed by `f`, the statement reads at level `n` as the tree changed by `f`. */
  ghost predicate Means(n: nat, b: BoundStatement, f: Value -> Value, t: Sql)
    requires n <= 9
  {
    Parses(n, b.command, MapValues(f, b.parameters), MapTree(f, t))
  }

  lemma Looser(m: nat, n: nat, b: BoundStatement, f: Value -> Value, t: Sql)
    requires m <= n <= 9 && Means(m, b, f, t)
    ensures Means(n, b, f, t)
  {
    Lift(m, n, b.command, MapValues(f, b.parameters), MapTree(f, t));
  }

  lemma Adapted(n: nat, b: BoundStatement, f: Value -> Value, kind: Kind, t: Sql)
    requires n <= 9 && Means(n, b, Compose(f, kind), t)
    ensures Means(n, Adapt(b, kind), f, MapTree(Encoder(kind), t))
  {
    MapTwice(f, Encoder(kind), Compose(f, kind), b.parameters);
    TreeTwice(f, Encoder(kind), Compose(f, kind), t);
  }

  lemma Parenthesised(b: BoundStatement, f: Value -> Value, t: Sql)
    requires Means(9, b, f, t)
    ensures Means(0, BoundStatement(Wrap(b.command), b.parameters), f, t)
    ensures Primary(Wrap(b.command), MapValues(f, b.parameters), MapTree(f, t))
  {
    ParenPrimary(b.command, MapValues(f, b.parameters), MapTree(f, t));
    PrimaryParses(Wrap(b.command), MapValues(f, b.parameters), MapTree(f, t));
  }

  /** The statement may continue a chain of operators of its own level. */
  ghost predicate Chained(n: nat, b: BoundStatement, f: Value -> Value, t: Sql)
    requires 1 <= n <= 9
  {
    Chain(n, b.command, MapValues(f, b.parameters), MapTree(f, t))
  }

  lemma Operator(n: nat, left: BoundStatement, s: Symbol, right: BoundStatement, f: Value -> Value, t: Sql, u: Sql)
    requires 1 <= n <= 5 && Continues(Sym(s)) == n && n != 4
    requires Means(n - 1, left, f, t) && Means(n - 1, right, f, u)
    ensures Means(n, Compared(left, s, right), f, Op(s, t, u))
    ensures n != 5 ==> Chained(n, Compared(left, s, right), f, Op(s, t, u))
  {
    var ps, qs := MapValues(f, left.parameters), MapValues(f, right.parameters);
    MapAppend(f, left.parameters, right.parameters);
    if n == 5 {
      Compare(left.command, ps, MapTree(f, t), s, right.command, qs, MapTree(f, u));
    } else {
      Infix(n, left.command, ps, MapTree(f, t), Sym(s), right.command, qs, MapTree(f, u));
    }
  }

  // --- and / or ---

  ghost predicate AllMean(parts: seq<BoundStatement>, f: Value -> Value, ts: seq<Sql>) {
    |parts| == |ts| && forall i :: 0 <= i < |parts| ==> Means(9, parts[i], f, ts[i])
  }

  lemma JoinedOne(word: Word, n: nat, part: BoundStatement, f: Value -> Value, t: Sql)
    requires Means(9, part, f, t) && (n == 8 || n == 9)
    ensures Means(0, BoundStatement(Joined(word, [part]), AllParameters([part])), f, Folded(n, [t]))
    ensures Chain(n, Joined(word, [part]), MapValues(f, AllParameters([part])), MapTree(f, Folded(n, [t])))
  {
    assert [part][..0] == [] && AllParameters([part]) == part.parameters;
    Parenthesised(part, f, t);
    Looser(0, n - 1, BoundStatement(Wrap(part.command), part.parameters), f, t);
    ChainStart(n, Wrap(part.command), MapValues(f, part.parameters), MapTree(f, t));
  }

  lemma JoinedPush(word: Word, parts: seq<BoundStatement>, last: BoundStatement)
    requires parts != []
    ensures Joined(word, parts + [last]) == Joined(word, parts) + [Kw(word)] + Wrap(last.command)
    ensures AllParameters(parts + [last]) == AllParameters(parts) + last.parameters
  {
    assert (parts + [last])[..|parts|] == parts;
  }

  lemma FoldedPush(n: nat, word: Word, f: Value -> Value, ts: seq<Sql>, t: Sql)
    requires ts != [] && ((word == AND && n == 8) || (word == OR && n == 9))
    ensures MapTree(f, Folded(n, ts + [t])) == Combine(Kw(word), MapTree(f, Folded(n, ts)), MapTree(f, t))
  {
    assert (ts + [t])[..|ts|] == ts;
  }

  /** A chain takes one more parenthesised operand. */
  lemma ChainOperand(word: Word, n: nat, ts: seq<Token>, ps: seq<Value>, left: Sql, b: BoundStatement, f: Value -> Value, t: Sql)
    requires (word == AND && n == 8) || (word == OR && n == 9)
    requires Chain(n, ts, ps, left) && Means(9, b, f, t)
    ensures Chain(n, ts + [Kw(word)] + Wrap(b.command), ps + MapValues(f, b.parameters), Combine(Kw(word), left, MapTree(f, t)))
  {
    Parenthesised(b, f, t);
    Looser(0, n - 1, BoundStatement(Wrap(b.command), b.parameters), f, t);
    ChainStep(n, ts, ps, left, Kw(word), Wrap(b.command), MapValues(f, b.parameters), MapTree(f, t));
  }

  lemma JoinedNext(word: Word, n: nat, parts: seq<BoundStatement>, last: BoundStatement, f: Value -> Value, ts: seq<Sql>, t: Sql)
    requires parts != [] && ts != [] && ((word == AND && n == 8) || (word == OR && n == 9))
    requires Chain(n, Joined(word, parts), MapValues(f, AllParameters(parts)), MapTree(f, Folded(n, ts)))
    requires Means(9, last, f, t)
    ensures Chain(n, Joined(word, parts + [last]), MapValues(f, AllParameters(parts + [last])), MapTree(f, Folded(n, ts + [t])))
  {
    ChainOperand(word, n, Joined(word, parts), MapValues(f, AllParameters(parts)), MapTree(f, Folded(n, ts)), last, f, t);
    JoinedPush(word, parts, last);
    FoldedPush(n, word, f, ts, t);
    MapAppend(f, AllParameters(parts), last.parameters);
  }

  lemma {:induction false} JoinedReads(word: Word, n: nat, parts: seq<BoundStatement>, f: Value -> Value, ts: seq<Sql>)
    requires parts != [] && AllMean(parts, f, ts) && ((word == AND && n == 8) || (word == OR && n == 9))
    ensures |parts| == 1 ==> Means(0, BoundStatement(Joined(word, parts), AllParameters(parts)), f, Folded(n, ts))
    ensures Chain(n, Joined(word, parts), MapValues(f, AllParameters(parts)), MapTree(f, Folded(n, ts)))
  {
    var k := |parts| - 1;
    assert Means(9, parts[k], f, ts[k]);
    if k == 0 {
      assert parts == [parts[0]] && ts == [ts[0]];
      JoinedOne(word, n, parts[0], f, ts[0]);
    } else {
      JoinedReads(word, n, parts[..k], f, ts[..k]);
      JoinedNext(word, n, parts[..k], parts[k], f, ts[..k], ts[k]);
      assert parts == parts[..k] + [parts[k]] && ts == ts[..k] + [ts[k]];
    }
  }

  lemma ConjunctionReads(parts: seq<BoundStatement>, f: Value -> Value, ts: seq<Sql>)
    requires AllMean(parts, f, ts)
    ensures Means(if |parts| <= 1 then 0 else 8, Conjunction(parts), f, Folded(8, ts))
  {
    if parts == [] {
      PlainPrimary(Kw(TRUE), Bool(true));
      PrimaryParses([Kw(TRUE)], [], Bool(true));
    } else {
      JoinedReads(AND, 8, parts, f, ts);
      ChainEnd(8, Joined(AND, parts), MapValues(f, AllParameters(parts)), MapTree(f, Folded(8, ts)));
    }
  }

  lemma DisjunctionReads(parts: seq<BoundStatement>, f: Value -> Value, ts: seq<Sql>)
    requires AllMean(parts, f, ts)
    ensures Means(if |parts| <= 1 then 0 else 9, Disjunction(parts), f, Folded(9, ts))
  {
    if parts == [] {
      PlainPrimary(Kw(FALSE), Bool(false));
      PrimaryParses([Kw(FALSE)], [], Bool(false));
    } else {
      JoinedReads(OR, 9, parts, f, ts);
      ChainEnd(9, Joined(OR, parts), MapValues(f, AllParameters(parts)), MapTree(f, Folded(9, ts)));
    }
  }

  // --- Lists and calls ---

  lemma {:induction false} ListReads(parts: seq<BoundStatement>, f: Value -> Value, ts: seq<Sql>)
    requires parts != [] && AllMean(parts, f, ts)
    ensures Lists(CommaSeparated(parts), MapValues(f, ListParameters(parts)), MapTrees(f, ts))
  {
    var first := parts[0];
    assert Means(9, parts[0], f, ts[0]);
    if |parts| == 1 {
      assert ListParameters(parts[1..]) == [] && ListParameters(parts) == first.parameters;
      assert MapTrees(f, ts[1..]) == [] && MapTrees(f, ts) == [MapTree(f, ts[0])];
      ListOne(first.command, MapValues(f, first.parameters), MapTree(f, ts[0]));
    } else {
      ListReads(parts[1..], f, ts[1..]);
      MapAppend(f, first.parameters, ListParameters(parts[1..]));
      ListCons(first.command, MapValues(f, first.parameters), MapTree(f, ts[0]),
               CommaSeparated(parts[1..]), MapValues(f, ListParameters(parts[1..])), MapTrees(f, ts[1..]));
    }
  }

  lemma CallReads(fn: Function, args: seq<BoundStatement>, f: Value -> Value, ts: seq<Sql>)
    requires fn != Position && args != [] && AllMean(args, f, ts)
    ensures Means(0, CallStatement(fn, args), f, Call(fn, false, ts))
    ensures Primary(CallStatement(fn, args).command, MapValues(f, ListParameters(args)), MapTree(f, Call(fn, false, ts)))
    ensures Means(0, BoundStatement([Fn(fn), LParen, Kw(DISTINCT)] + CommaSeparated(args) + [RParen], ListParameters(args)), f, Call(fn, true, ts))
  {
    ListReads(args, f, ts);
    CallOf(fn, CommaSeparated(args), MapValues(f, ListParameters(args)), MapTrees(f, ts));
    PrimaryParses(CallStatement(fn, args).command, MapValues(f, ListParameters(args)), Call(fn, false, MapTrees(f, ts)));
    PrimaryParses([Fn(fn), LParen, Kw(DISTINCT)] + CommaSeparated(args) + [RParen], MapValues(f, ListParameters(args)), Call(fn, true, MapTrees(f, ts)));
  }

  lemma ValueReads(v: Value, f: Value -> Value)
    ensures Means(0, BoundStatement([Placeholder], [v]), f, Val(v))
    ensures Means(9, BoundStatement([Placeholder], [v]), f, Val(v))
  {
    assert MapValues(f, [v]) == [f(v)];
    PlaceholderPrimary(f(v));
    PrimaryParses([Placeholder], [f(v)], Val(f(v)));
    Looser(0, 9, BoundStatement([Placeholder], [v]), f, Val(v));
  }

  lemma ConstReads(k: Constant, f: Value -> Value)
    ensures Means(0, BoundStatement([Const(k)], []), f, Lit(k))
    ensures Means(9, BoundStatement([Const(k)], []), f, Lit(k))
  {
    PlainPrimary(Const(k), Lit(k));
    PrimaryParses([Const(k)], [], Lit(k));
    Looser(0, 9, BoundStatement([Const(k)], []), f, Lit(k));
  }

  // --- The remaining shapes ---

  /** Two arguments, spelled out. */
  lemma TwoTokens(fn: Function, a: BoundStatement, b: BoundStatement)
    ensures CallStatement(fn, [a, b]) == BoundStatement([Fn(fn), LParen] + (a.command + [Comma] + b.command) + [RParen], a.parameters + b.parameters)
  {
    assert [a, b][1..] == [b] && [b][1..] == [];
    assert CommaSeparated([b]) == b.command;
    assert ListParameters([b]) == b.parameters;
  }

  lemma CallTwo(fn: Function, a: BoundStatement, b: BoundStatement, f: Value -> Value, t: Sql, u: Sql)
    requires fn != Position && Means(9, a, f, t) && Means(9, b, f, u)
    ensures Means(0, CallStatement(fn, [a, b]), f, Call(fn, false, [t, u]))
    ensures Means(9, CallStatement(fn, [a, b]), f, Call(fn, false, [t, u]))
    ensures Primary(CallStatement(fn, [a, b]).command, MapValues(f, CallStatement(fn, [a, b]).parameters), MapTree(f, Call(fn, false, [t, u])))
  {
    assert AllMean([a, b], f, [t, u]);
    CallReads(fn, [a, b], f, [t, u]);
    Looser(0, 9, CallStatement(fn, [a, b]), f, Call(fn, false, [t, u]));
  }

  function PointCall(longitude: Value, latitude: Value): BoundStatement {
    CallStatement(SetSrid, [CallStatement(MakePoint, [BoundStatement([Placeholder], [longitude]), BoundStatement([Placeholder], [latitude])]),
                            BoundStatement([Const(Srid)], [])])
  }

  lemma PairReads(longitude: Value, latitude: Value, f: Value -> Value)
    ensures var x, y := BoundStatement([Placeholder], [longitude]), BoundStatement([Placeholder], [latitude]);
      Means(9, CallStatement(MakePoint, [x, y]), f, Call(MakePoint, false, [Val(longitude), Val(latitude)]))
  {
    ValueReads(longitude, f);
    ValueReads(latitude, f);
    CallTwo(MakePoint, BoundStatement([Placeholder], [longitude]), BoundStatement([Placeholder], [latitude]), f, Val(longitude), Val(latitude));
  }

  lemma PointReads(longitude: Value, latitude: Value, f: Value -> Value)
    ensures Means(0, BoundStatement(PointCall(longitude, latitude).command + [Sym(DoubleColon), TypeName(GeographyType)], PointCall(longitude, latitude).parameters),
                  f, Cast(Call(SetSrid, false, [Call(MakePoint, false, [Val(longitude), Val(latitude)]), Lit(Srid)]), GeographyType))
  {
    PairReads(longitude, latitude, f);
    ConstReads(Srid, f);
    var point := CallStatement(MakePoint, [BoundStatement([Placeholder], [longitude]), BoundStatement([Placeholder], [latitude])]);
    var inner := Call(MakePoint, false, [Val(longitude), Val(latitude)]);
    CallTwo(SetSrid, point, BoundStatement([Const(Srid)], []), f, inner, Lit(Srid));
    var call := PointCall(longitude, latitude);
    CastOf(call.command, MapValues(f, call.parameters), MapTree(f, Call(SetSrid, false, [inner, Lit(Srid)])), GeographyType);
  }

  lemma PairTokens(longitude: Value, latitude: Value)
    ensures CallStatement(MakePoint, [BoundStatement([Placeholder], [longitude]), BoundStatement([Placeholder], [latitude])])
            == BoundStatement([Fn(MakePoint), LParen, Placeholder, Comma, Placeholder, RParen], [longitude, latitude])
  {
    TwoTokens(MakePoint, BoundStatement([Placeholder], [longitude]), BoundStatement([Placeholder], [latitude]));
  }

  lemma PointCallTokens(longitude: Value, latitude: Value)
    ensures PointCall(longitude, latitude).parameters == [longitude, latitude]
    ensures PointCall(longitude, latitude).command
            == [Fn(SetSrid), LParen] + ([Fn(MakePoint), LParen, Placeholder, Comma, Placeholder, RParen] + [Comma] + [Const(Srid)]) + [RParen]
  {
    PairTokens(longitude, latitude);
    TwoTokens(SetSrid, BoundStatement([Fn(MakePoint), LParen, Placeholder, Comma, Placeholder, RParen], [longitude, latitude]),
              BoundStatement([Const(Srid)], []));
    assert [longitude, latitude] + [] == [longitude, latitude];
  }

  lemma PointTokens(longitude: Value, latitude: Value)
    ensures Compile(Point(longitude, latitude))
            == Some(BoundStatement(PointCall(longitude, latitude).command + [Sym(DoubleColon), TypeName(GeographyType)], PointCall(longitude, latitude).parameters))
  {
    PointCallTokens(longitude, latitude);
    assert [Fn(SetSrid), LParen] + ([Fn(MakePoint), LParen, Placeholder, Comma, Placeholder, RParen] + [Comma] + [Const(Srid)]) + [RParen]
           + [Sym(DoubleColon), TypeName(GeographyType)]
        == [Fn(SetSrid), LParen, Fn(MakePoint), LParen, Placeholder, Comma, Placeholder, RParen, Comma, Const(Srid), RParen,
            Sym(DoubleColon), TypeName(GeographyType)];
  }

  lemma CastReads(b: BoundStatement, ty: SqlType, f: Value -> Value, t: Sql)
    requires Means(9, b, f, t)
    ensures Means(0, BoundStatement(Wrap(b.command) + [Sym(DoubleColon), TypeName(ty)], b.parameters), f, Cast(t, ty))
  {
    Parenthesised(b, f, t);
    CastOf(Wrap(b.command), MapValues(f, b.parameters), MapTree(f, t), ty);
  }

  lemma ContainsJson(left: BoundStatement, right: BoundStatement, f: Value -> Value, t: Sql, u: Sql)
    requires Means(2, left, f, t) && Means(9, right, f, u)
    ensures
      var b := BoundStatement(left.command + [Sym(JsonContains)] + (Wrap(right.command) + [Sym(DoubleColon), TypeName(JsonbType)]),
                              left.parameters + right.parameters);
      Means(3, b, f, Op(JsonContains, t, Cast(u, JsonbType))) && Chained(3, b, f, Op(JsonContains, t, Cast(u, JsonbType)))
  {
    CastReads(right, JsonbType, f, u);
    var cast := BoundStatement(Wrap(right.command) + [Sym(DoubleColon), TypeName(JsonbType)], right.parameters);
    Looser(0, 2, cast, f, Cast(u, JsonbType));
    Operator(3, left, JsonContains, cast, f, t, Cast(u, JsonbType));
  }

  /** `position((needle)::text in haystack)`. */
  function PositionTokens(needle: BoundStatement, haystack: BoundStatement): seq<Token> {
    [Fn(Position), LParen] + (Wrap(needle.command) + [Sym(DoubleColon), TypeName(TextType)]) + [Kw(IN)] + haystack.command + [RParen]
  }

  function PositionStatement(needle: BoundStatement, haystack: BoundStatement): BoundStatement {
    BoundStatement(PositionTokens(needle, haystack), needle.parameters + haystack.parameters)
  }

  lemma PositionReads(needle: BoundStatement, haystack: BoundStatement, f: Value -> Value, u: Sql, t: Sql)
    requires Means(9, needle, f, u) && Means(5, haystack, f, t)
    ensures Means(0, PositionStatement(needle, haystack), f, PositionOf(Cast(u, TextType), t))
  {
    CastReads(needle, TextType, f, u);
    var cast := BoundStatement(Wrap(needle.command) + [Sym(DoubleColon), TypeName(TextType)], needle.parameters);
    MapAppend(f, needle.parameters, haystack.parameters);
    PositionCall(cast.command, MapValues(f, needle.parameters), MapTree(f, Cast(u, TextType)),
                 haystack.command, MapValues(f, haystack.parameters), MapTree(f, t));
    var call := PositionStatement(needle, haystack);
    PrimaryParses(call.command, MapValues(f, call.parameters), MapTree(f, PositionOf(Cast(u, TextType), t)));
  }

  lemma ContainsText(left: BoundStatement, right: BoundStatement, f: Value -> Value, t: Sql, u: Sql)
    requires Means(5, left, f, t) && Means(9, right, f, u)
    ensures Means(5, Compared(PositionStatement(right, left), Gt, BoundStatement([Const(Zero)], [])), f,
                  Op(Gt, PositionOf(Cast(u, TextType), t), Lit(Zero)))
  {
    var call, zero := PositionStatement(right, left), BoundStatement([Const(Zero)], []);
    PositionReads(right, left, f, u, t);
    Looser(0, 4, call, f, PositionOf(Cast(u, TextType), t));
    ConstReads(Zero, f);
    Looser(0, 4, zero, f, Lit(Zero));
    Operator(5, call, Gt, zero, f, PositionOf(Cast(u, TextType), t), Lit(Zero));
  }

  lemma ContainsCompiled(x: Expr, y: Expr)
    requires !(x.Field? && x.kind == JsonLike) && Compile(x).Some? && Compile(y).Some?
    ensures Compile(Contains(x, y)) == Some(Compared(PositionStatement(Compile(y).value, Compile(x).value), Gt, BoundStatement([Const(Zero)], [])))
  {
    var call := PositionStatement(Compile(y).value, Compile(x).value);
    assert call.parameters + [] == call.parameters;
  }

  lemma PathReads(document: BoundStatement, segments: seq<string>, f: Value -> Value, t: Sql)
    requires Chained(3, document, f, t)
    ensures Means(0, BoundStatement(Wrap(document.command + [Sym(JsonPath)] + [Placeholder, Sym(DoubleColon), TypeName(TextArrayType)]),
                                    document.parameters + [Path(segments)]), f, Op(JsonPath, t, Cast(Val(Path(segments)), TextArrayType)))
  {
    var v := Path(segments);
    assert MapValues(f, [v]) == [f(v)];
    PlaceholderPrimary(f(v));
    CastOf([Placeholder], [f(v)], Val(f(v)), TextArrayType);
    var cast := BoundStatement([Placeholder, Sym(DoubleColon), TypeName(TextArrayType)], [v]);
    assert cast.command == [Placeholder] + [Sym(DoubleColon), TypeName(TextArrayType)];
    Looser(0, 2, cast, f, Cast(Val(v), TextArrayType));
    Appended(document, JsonPath, cast, f, t, Cast(Val(v), TextArrayType));
    var whole := Compared(document, JsonPath, cast);
    Looser(3, 9, whole, f, Op(JsonPath, t, Cast(Val(v), TextArrayType)));
    Parenthesised(whole, f, Op(JsonPath, t, Cast(Val(v), TextArrayType)));
  }

  /** A chain of json and text operators takes one more. */
  lemma Appended(left: BoundStatement, s: Symbol, right: BoundStatement, f: Value -> Value, t: Sql, u: Sql)
    requires Continues(Sym(s)) == 3 && Chained(3, left, f, t) && Means(2, right, f, u)
    ensures Means(3, Compared(left, s, right), f, Op(s, t, u))
  {
    var ps, qs := MapValues(f, left.parameters), MapValues(f, right.parameters);
    MapAppend(f, left.parameters, right.parameters);
    ChainStep(3, left.command, ps, MapTree(f, t), Sym(s), right.command, qs, MapTree(f, u));
    ChainEnd(3, left.command + [Sym(s)] + right.command, ps + qs, MapTree(f, Op(s, t, u)));
  }

  lemma FullTextReads(fields: seq<BoundStatement>, query: Value, f: Value -> Value, ts: seq<Sql>)
    requires AllMean(fields, f, ts)
    ensures
      var config := BoundStatement([Const(SimpleConfig)], []);
      var concat := CallStatement(ConcatWs, [BoundStatement([Const(Space)], [])] + fields);
      var b := Compared(CallStatement(ToTsVector, [config, concat]), TextMatch, CallStatement(WebSearch, [config, BoundStatement([Placeholder], [query])]));
      var t := Op(TextMatch, Call(ToTsVector, false, [Lit(SimpleConfig), Call(ConcatWs, false, [Lit(Space)] + ts)]),
                  Call(WebSearch, false, [Lit(SimpleConfig), Val(query)]));
      Means(3, b, f, t) && Chained(3, b, f, t)
  {
    var blank, config := BoundStatement([Const(Space)], []), BoundStatement([Const(SimpleConfig)], []);
    var term := BoundStatement([Placeholder], [query]);
    var parts, trees := [blank] + fields, [Lit(Space)] + ts;
    ConstReads(Space, f);
    ConstReads(SimpleConfig, f);
    ValueReads(query, f);
    assert AllMean(parts, f, trees);
    CallReads(ConcatWs, parts, f, trees);
    TextMatchReads(config, CallStatement(ConcatWs, parts), term, f, Lit(SimpleConfig), Call(ConcatWs, false, trees), Val(query));
  }

  lemma MatchReads(vector: BoundStatement, search: BoundStatement, f: Value -> Value, t: Sql, q: Sql)
    requires Means(0, vector, f, t) && Means(0, search, f, q)
    ensures Means(3, Compared(vector, TextMatch, search), f, Op(TextMatch, t, q))
    ensures Chained(3, Compared(vector, TextMatch, search), f, Op(TextMatch, t, q))
  {
    Looser(0, 2, vector, f, t);
    Looser(0, 2, search, f, q);
    Operator(3, vector, TextMatch, search, f, t, q);
  }

  lemma TextMatchReads(config: BoundStatement, concat: BoundStatement, term: BoundStatement, f: Value -> Value, t: Sql, u: Sql, q: Sql)
    requires Means(9, config, f, t) && Means(0, concat, f, u) && Means(9, term, f, q)
    ensures
      var b := Compared(CallStatement(ToTsVector, [config, concat]), TextMatch, CallStatement(WebSearch, [config, term]));
      var match_ := Op(TextMatch, Call(ToTsVector, false, [t, u]), Call(WebSearch, false, [t, q]));
      Means(3, b, f, match_) && Chained(3, b, f, match_)
  {
    Looser(0, 9, concat, f, u);
    CallTwo(ToTsVector, config, concat, f, t, u);
    CallTwo(WebSearch, config, term, f, t, q);
    MatchReads(CallStatement(ToTsVector, [config, concat]), CallStatement(WebSearch, [config, term]), f,
               Call(ToTsVector, false, [t, u]), Call(WebSearch, false, [t, q]));
  }

  // --- Every expression ---

  lemma OneMoreReads(b: BoundStatement, bs: seq<BoundStatement>, f: Value -> Value, t: Sql, ts: seq<Sql>)
    requires Means(9, b, f, t) && AllMean(bs, f, ts)
    ensures AllMean([b] + bs, f, [t] + ts)
  {
    forall i | 0 <= i < |bs| + 1 ensures Means(9, ([b] + bs)[i], f, ([t] + ts)[i]) {
      if i > 0 { assert Means(9, bs[i - 1], f, ts[i - 1]); }
    }
  }

  lemma {:induction false} AllReads(es: seq<Expr>, f: Value -> Value)
    requires CompileAll(es).Some? && forall e :: e in es ==> WellSorted(e)
    ensures AllMean(CompileAll(es).value, f, Trees(es))
    decreases es, 1
  {
    if es != [] {
      var e := es[0];
      assert e in es && forall x :: x in es[1..] ==> x in es;
      Reads9(e, f);
      AllReads(es[1..], f);
      OneMoreReads(Compile(e).value, CompileAll(es[1..]).value, f, Tree(e), Trees(es[1..]));
    }
  }

  lemma {:induction false} Reads9(e: Expr, f: Value -> Value)
    requires Compile(e).Some? && WellSorted(e)
    ensures Means(9, Compile(e).value, f, Tree(e))
    decreases e, 2
  {
    StatementReads(e, f);
    Looser(Level(e), 9, Compile(e).value, f, Tree(e));
  }

  /** An operand at a level its position accepts. */
  lemma {:induction false} ReadsAt(n: nat, e: Expr, f: Value -> Value)
    requires Compile(e).Some? && WellSorted(e) && Level(e) <= n <= 9
    ensures Means(n, Compile(e).value, f, Tree(e))
    decreases e, 2
  {
    StatementReads(e, f);
    Looser(Level(e), n, Compile(e).value, f, Tree(e));
  }

  /** An operand of a comparison or arithmetic operator, adapted when it is a literal beside a field. */
  lemma {:induction false} OperandReads(n: nat, other: Expr, e: Expr, f: Value -> Value)
    requires Compile(e).Some? && WellSorted(e) && Level(e) <= n <= 9
    ensures Means(n, AdaptTo(other, e, Compile(e).value), f, AdaptTree(other, e, Tree(e)))
    decreases e, 3
  {
    if other.Field? && e.Literal? {
      ReadsAt(n, e, Compose(f, other.kind));
      Adapted(n, Compile(e).value, f, other.kind, Tree(e));
    } else {
      ReadsAt(n, e, f);
    }
  }

  /** An operator whose right operand is a negation. */
  lemma OperatorNot(n: nat, left: BoundStatement, s: Symbol, b: BoundStatement, f: Value -> Value, t: Sql, u: Sql)
    requires 1 <= n <= 5 && Continues(Sym(s)) == n && Means(n - 1, left, f, t) && Means(9, b, f, u)
    ensures Means(9, Compared(left, s, BoundStatement([Kw(NOT)] + Wrap(b.command), b.parameters)), f, Op(s, t, Not(u)))
  {
    var right := BoundStatement([Kw(NOT)] + Wrap(b.command), b.parameters);
    Parenthesised(b, f, u);
    Looser(0, 7, BoundStatement(Wrap(b.command), b.parameters), f, u);
    MapAppend(f, left.parameters, right.parameters);
    InfixNot(n, left.command, MapValues(f, left.parameters), MapTree(f, t), Sym(s), Wrap(b.command), MapValues(f, b.parameters), MapTree(f, u));
    Looser(7, 9, Compared(left, s, right), f, Op(s, t, Not(u)));
  }

  /** An operator between a left operand and a sorted right operand that fits. */
  lemma {:induction false} RightReads(n: nat, left: BoundStatement, s: Symbol, other: Expr, y: Expr, f: Value -> Value, t: Sql)
    requires 1 <= n <= 5 && n != 4 && Continues(Sym(s)) == n && Means(n - 1, left, f, t)
    requires Compile(y).Some? && WellSorted(y) && FitsRight(y, n - 1)
    ensures Means(9, Compared(left, s, AdaptTo(other, y, Compile(y).value)), f, Op(s, t, AdaptTree(other, y, Tree(y))))
    decreases y, 4
  {
    if y.NotExpr? {
      Reads9(y.operand, f);
      OperatorNot(n, left, s, Compile(y.operand).value, f, t, Tree(y.operand));
    } else {
      OperandReads(n - 1, other, y, f);
      Operator(n, left, s, AdaptTo(other, y, Compile(y).value), f, t, AdaptTree(other, y, Tree(y)));
      Looser(n, 9, Compared(left, s, AdaptTo(other, y, Compile(y).value)), f, Op(s, t, AdaptTree(other, y, Tree(y))));
    }
  }

  lemma {:induction false} BinaryReads(e: Expr, f: Value -> Value)
    requires e.Binary? && Compile(e).Some? && WellSorted(e)
    ensures Means(0, Compile(e).value, f, Tree(e))
    decreases e, 0
  {
    var n := OperandLevel(e.op);
    OperandReads(n, e.right, e.left, f);
    var left, t := AdaptTo(e.right, e.left, Compile(e.left).value), AdaptTree(e.right, e.left, Tree(e.left));
    RightReads(n + 1, left, SymbolOf(e.op), e.left, e.right, f, t);
    var right, u := AdaptTo(e.left, e.right, Compile(e.right).value), AdaptTree(e.left, e.right, Tree(e.right));
    Parenthesised(Compared(left, SymbolOf(e.op), right), f, Op(SymbolOf(e.op), t, u));
  }

  lemma {:induction false} ContainsReads(e: Expr, f: Value -> Value)
    requires e.Contains? && Compile(e).Some? && WellSorted(e)
    ensures Means(Level(e), Compile(e).value, f, Tree(e))
    ensures Level(e) == 3 ==> Chained(3, Compile(e).value, f, Tree(e))
    decreases e, 0
  {
    var left, right := Compile(e.left).value, Compile(e.right).value;
    if e.left.Field? && e.left.kind == JsonLike {
      ReadsAt(2, e.left, f);
      Reads9(e.right, Compose(f, JsonLike));
      Adapted(9, right, f, JsonLike, Tree(e.right));
      ContainsJson(left, Adapt(right, JsonLike), f, Tree(e.left), MapTree(Encoder(JsonLike), Tree(e.right)));
    } else {
      ReadsAt(5, e.left, f);
      Reads9(e.right, f);
      ContainsText(left, right, f, Tree(e.left), Tree(e.right));
      ContainsCompiled(e.left, e.right);
    }
  }

  lemma NullTestParenthesised(b: BoundStatement, negated: bool, f: Value -> Value, t: Sql)
    requires Means(5, b, f, t)
    ensures Means(0, BoundStatement(Wrap(b.command + IsNullTokens(negated)), b.parameters), f, NullTest(t, negated))
  {
    TestNull(b.command, MapValues(f, b.parameters), MapTree(f, t), negated);
    var test := BoundStatement(b.command + IsNullTokens(negated), b.parameters);
    Looser(6, 9, test, f, NullTest(t, negated));
    Parenthesised(test, f, NullTest(t, negated));
  }

  lemma {:induction false} IsNullReads(e: Expr, f: Value -> Value)
    requires e.IsNull? && Compile(e).Some? && WellSorted(e)
    ensures Means(0, Compile(e).value, f, Tree(e))
    decreases e, 0
  {
    ReadsAt(5, e.operand, f);
    NullTestParenthesised(Compile(e.operand).value, !e.expected, f, Tree(e.operand));
  }

  /** Candidates are adapted to a field operand, whatever they are. */
  lemma {:induction false} CandidatesRead(operand: Expr, es: seq<Expr>, f: Value -> Value)
    requires CompileAll(es).Some? && forall e :: e in es ==> WellSorted(e)
    ensures AllMean(AdaptAll(operand, CompileAll(es).value), f, AdaptTrees(operand, Trees(es)))
    decreases es, 2
  {
    var g := if operand.Field? then Compose(f, operand.kind) else f;
    AllReads(es, g);
    AdaptedAll(operand, CompileAll(es).value, f, Trees(es), g);
  }

  lemma {:induction false} AdaptedAll(operand: Expr, bs: seq<BoundStatement>, f: Value -> Value, ts: seq<Sql>, g: Value -> Value)
    requires g == if operand.Field? then Compose(f, operand.kind) else f
    requires AllMean(bs, g, ts)
    ensures AllMean(AdaptAll(operand, bs), f, AdaptTrees(operand, ts))
  {
    if bs != [] {
      AdaptedAll(operand, bs[1..], f, ts[1..], g);
      assert Means(9, bs[0], g, ts[0]);
      if operand.Field? { Adapted(9, bs[0], f, operand.kind, ts[0]); }
      var rs, us := AdaptAll(operand, bs), AdaptTrees(operand, ts);
      forall i | 0 <= i < |rs| ensures Means(9, rs[i], f, us[i]) {
        if i > 0 { assert Means(9, AdaptAll(operand, bs[1..])[i - 1], f, AdaptTrees(operand, ts[1..])[i - 1]); }
      }
    }
  }

  lemma MembershipReads(b: BoundStatement, items: seq<BoundStatement>, negated: bool, f: Value -> Value, t: Sql, trees: seq<Sql>)
    requires Means(3, b, f, t) && items != [] && AllMean(items, f, trees)
    ensures Means(0, BoundStatement(Wrap(b.command + InTokens(negated) + CommaSeparated(items) + [RParen]), b.parameters + ListParameters(items)),
                  f, Member(t, trees, negated))
  {
    ListReads(items, f, trees);
    MapAppend(f, b.parameters, ListParameters(items));
    Membership(b.command, MapValues(f, b.parameters), MapTree(f, t), negated,
               CommaSeparated(items), MapValues(f, ListParameters(items)), MapTrees(f, trees));
    var test := BoundStatement(b.command + InTokens(negated) + CommaSeparated(items) + [RParen], b.parameters + ListParameters(items));
    Looser(6, 9, test, f, Member(t, trees, negated));
    Parenthesised(test, f, Member(t, trees, negated));
  }

  lemma {:induction false} InReads(e: Expr, f: Value -> Value)
    requires e.In? && Compile(e).Some? && WellSorted(e)
    ensures Means(0, Compile(e).value, f, Tree(e))
    decreases e, 0
  {
    ReadsAt(3, e.operand, f);
    CandidatesRead(e.operand, e.candidates, f);
    var items, trees := AdaptAll(e.operand, CompileAll(e.candidates).value), AdaptTrees(e.operand, Trees(e.candidates));
    MembershipReads(Compile(e.operand).value, items, e.negated, f, Tree(e.operand), trees);
  }

  /** The end of a range, if there is one, reads beside the operand. */
  ghost predicate EndMeans(operand: BoundStatement, bound: Option<BoundStatement>, s: Symbol, f: Value -> Value, t: Sql, u: Option<Sql>) {
    bound.Some? == u.Some? && (bound.Some? ==> Means(9, Compared(operand, s, bound.value), f, Op(s, t, u.value)))
  }

  lemma BoundsRead(b: BoundStatement, s: Option<BoundStatement>, z: Option<BoundStatement>, from: Symbol, to: Symbol,
                   f: Value -> Value, t: Sql, u: Option<Sql>, v: Option<Sql>)
    requires EndMeans(b, s, from, f, t, u) && EndMeans(b, z, to, f, t, v)
    ensures Means(if s.Some? && z.Some? then 8 else 0, Conjunction(RangePart(b, s, from) + RangePart(b, z, to)), f,
                  Folded(8, RangeTree(t, u, from) + RangeTree(t, v, to)))
  {
    ConjunctionReads(RangePart(b, s, from) + RangePart(b, z, to), f, RangeTree(t, u, from) + RangeTree(t, v, to));
  }

  function FromSymbol(e: Expr): Symbol requires e.TimestampRange? { if e.includeStart then Ge else Gt }

  function ToSymbol(e: Expr): Symbol requires e.TimestampRange? { if e.includeEnd then Le else Lt }

  lemma RangeCompiled(e: Expr)
    requires e.TimestampRange? && Compile(e).Some?
    ensures Compile(e.operand).Some? && CompileOption(e.start).Some? && CompileOption(e.end).Some?
    ensures Compile(e).value == Conjunction(RangePart(Compile(e.operand).value, CompileOption(e.start).value, FromSymbol(e))
                                            + RangePart(Compile(e.operand).value, CompileOption(e.end).value, ToSymbol(e)))
    ensures Tree(e) == Folded(8, RangeTree(Tree(e.operand), TreeOption(e.start), FromSymbol(e))
                                 + RangeTree(Tree(e.operand), TreeOption(e.end), ToSymbol(e)))
  {
  }

  /** One end of a range, which repeats the operand's text and values. */
  lemma {:induction false} EndReads(operand: BoundStatement, e: Option<Expr>, s: Symbol, f: Value -> Value, t: Sql)
    requires Continues(Sym(s)) == 5 && Means(4, operand, f, t)
    requires CompileOption(e).Some? && (e.Some? ==> WellSorted(e.value) && FitsRight(e.value, 4))
    ensures EndMeans(operand, CompileOption(e).value, s, f, t, TreeOption(e))
    decreases e, 5
  {
    if e.Some? { RightReads(5, operand, s, Parameter, e.value, f, t); }
  }

  lemma EmptyRangeReads(e: Expr, f: Value -> Value)
    requires e.TimestampRange? && Compile(e).Some? && e.start.None? && e.end.None?
    ensures Means(0, Compile(e).value, f, Tree(e))
  {
    RangeCompiled(e);
    ConjunctionReads([], f, []);
  }

  lemma {:induction false} BoundedRangeReads(e: Expr, f: Value -> Value)
    requires e.TimestampRange? && Compile(e).Some? && WellSorted(e) && (e.start.Some? || e.end.Some?)
    ensures Means(Level(e), Compile(e).value, f, Tree(e))
    decreases e, 0, 0
  {
    RangeCompiled(e);
    ReadsAt(4, e.operand, f);
    EndReads(Compile(e.operand).value, e.start, FromSymbol(e), f, Tree(e.operand));
    EndReads(Compile(e.operand).value, e.end, ToSymbol(e), f, Tree(e.operand));
    BoundsRead(Compile(e.operand).value, CompileOption(e.start).value, CompileOption(e.end).value, FromSymbol(e), ToSymbol(e), f,
               Tree(e.operand), TreeOption(e.start), TreeOption(e.end));
  }

  lemma {:induction false} TimestampRangeReads(e: Expr, f: Value -> Value)
    requires e.TimestampRange? && Compile(e).Some? && WellSorted(e)
    ensures Means(Level(e), Compile(e).value, f, Tree(e))
    decreases e, 0, 1
  {
    if e.start.None? && e.end.None? {
      EmptyRangeReads(e, f);
    } else {
      BoundedRangeReads(e, f);
    }
  }

  lemma {:induction false} PrefixReads(e: Expr, f: Value -> Value)
    requires (e.NotExpr? || e.Negate?) && Compile(e).Some? && WellSorted(e)
    ensures Means(Level(e), Compile(e).value, f, Tree(e))
    decreases e, 0
  {
    Reads9(e.operand, f);
    var b := Compile(e.operand).value;
    var wrapped := BoundStatement(Wrap(b.command), b.parameters);
    Parenthesised(b, f, Tree(e.operand));
    if e.NotExpr? {
      Looser(0, 7, wrapped, f, Tree(e.operand));
      NotOf(wrapped.command, MapValues(f, b.parameters), MapTree(f, Tree(e.operand)));
    } else {
      UnaryMinus(wrapped.command, MapValues(f, b.parameters), MapTree(f, Tree(e.operand)));
    }
  }

  lemma {:induction false} GroupReads(e: Expr, f: Value -> Value)
    requires (e.And? || e.Or?) && Compile(e).Some? && WellSorted(e)
    ensures Means(Level(e), Compile(e).value, f, Tree(e))
    decreases e, 0
  {
    AllReads(e.operands, f);
    if e.And? {
      ConjunctionReads(CompileAll(e.operands).value, f, Trees(e.operands));
    } else {
      DisjunctionReads(CompileAll(e.operands).value, f, Trees(e.operands));
    }
  }

  lemma {:induction false} AggregateReads(e: Expr, f: Value -> Value)
    requires e.Aggregate? && Compile(e).Some? && WellSorted(e)
    ensures Means(0, Compile(e).value, f, Tree(e))
    decreases e, 0
  {
    Reads9(e.operand, f);
    var b := Compile(e.operand).value;
    assert AllMean([b], f, [Tree(e.operand)]);
    CallReads(FnOf(e.fn), [b], f, [Tree(e.operand)]);
    assert CommaSeparated([b]) == b.command;
    assert [b][1..] == [] && ListParameters([b]) == b.parameters + ListParameters([]);
    assert ListParameters([b]) == b.parameters;
  }

  lemma {:induction false} DistanceReads(e: Expr, f: Value -> Value)
    requires e.Distance? && Compile(e).Some? && WellSorted(e)
    ensures Means(0, Compile(e).value, f, Tree(e))
    decreases e, 0
  {
    Reads9(e.left, f);
    Reads9(e.right, f);
    CallTwo(StDistance, Compile(e.left).value, Compile(e.right).value, f, Tree(e.left), Tree(e.right));
  }

  lemma {:induction false} WithinReads(e: Expr, f: Value -> Value)
    requires e.DistanceWithin? && Compile(e).Some? && WellSorted(e)
    ensures Means(0, Compile(e).value, f, Tree(e))
    decreases e, 0
  {
    Reads9(e.left, f);
    Reads9(e.right, f);
    ValueReads(e.distance, f);
    ThreeArguments(Compile(e.left).value, Compile(e.right).value, BoundStatement([Placeholder], [e.distance]), f, Tree(e.left), Tree(e.right), Val(e.distance));
  }

  lemma ThreeArguments(a: BoundStatement, b: BoundStatement, c: BoundStatement, f: Value -> Value, t: Sql, u: Sql, v: Sql)
    requires Means(9, a, f, t) && Means(9, b, f, u) && Means(9, c, f, v)
    ensures Means(0, CallStatement(StDWithin, [a, b, c]), f, Call(StDWithin, false, [t, u, v]))
  {
    assert AllMean([a, b, c], f, [t, u, v]);
    CallReads(StDWithin, [a, b, c], f, [t, u, v]);
  }

  /** The compiled text of a well-sorted expression reads, at its level, as its tree; and so it does after any change of values. */
  lemma LeafReads(e: Expr, f: Value -> Value)
    requires e.Field? || e.Literal? || e.Point? || e.CountAll?
    ensures Compile(e).Some? && Level(e) == 0 && Means(0, Compile(e).value, f, Tree(e))
  {
    match e
    case Field(alias, column, _) =>
      PlainPrimary(Column(alias, column), Col(alias, column));
      PrimaryParses([Column(alias, column)], [], Col(alias, column));
    case Literal(v) => ValueReads(v, f);
    case Point(x, y) =>
      PointReads(x, y, f);
      PointTokens(x, y);
    case CountAll =>
      CountStarCall();
      PrimaryParses([Fn(Count), LParen, Sym(Star), RParen], [], CountStar);
  }

  lemma {:induction false} DocumentPathReads(e: Expr, f: Value -> Value)
    requires e.DocumentPath? && Compile(e).Some? && WellSorted(e)
    ensures Means(Level(e), Compile(e).value, f, Tree(e))
    decreases e, 0
  {
    ChainReads(e.document, f);
    PathReads(Compile(e.document).value, JsonPointer.Segments(e.pointer).value, f, Tree(e.document));
  }

  /** The left operand of a json or text operator, itself possibly such an operator. */
  lemma {:induction false} ChainReads(e: Expr, f: Value -> Value)
    requires Compile(e).Some? && WellSorted(e) && Level(e) <= 3
    ensures Chained(3, Compile(e).value, f, Tree(e))
    decreases e, 3
  {
    if e.Contains? {
      ContainsReads(e, f);
    } else if e.FullText? {
      SearchReads(e, f);
    } else {
      ReadsAt(2, e, f);
      ChainStart(3, Compile(e).value.command, MapValues(f, Compile(e).value.parameters), MapTree(f, Tree(e)));
    }
  }

  lemma {:induction false} SearchReads(e: Expr, f: Value -> Value)
    requires e.FullText? && Compile(e).Some? && WellSorted(e)
    ensures Means(Level(e), Compile(e).value, f, Tree(e)) && Chained(3, Compile(e).value, f, Tree(e))
    decreases e, 0
  {
    AllReads(e.fields, f);
    FullTextReads(CompileAll(e.fields).value, e.query, f, Trees(e.fields));
  }

  lemma {:induction false} StatementReads(e: Expr, f: Value -> Value)
    requires Compile(e).Some? && WellSorted(e)
    ensures Level(e) <= 9 && Means(Level(e), Compile(e).value, f, Tree(e))
    decreases e, 1
  {
    match e
    case NotExpr(_) => PrefixReads(e, f);
    case Negate(_) => PrefixReads(e, f);
    case And(_) => GroupReads(e, f);
    case Or(_) => GroupReads(e, f);
    case Binary(_, _, _) => BinaryReads(e, f);
    case Contains(_, _) => ContainsReads(e, f);
    case IsNull(_, _) => IsNullReads(e, f);
    case In(_, _, _) => InReads(e, f);
    case TimestampRange(_, _, _, _, _) => TimestampRangeReads(e, f);
    case DocumentPath(_, _) => DocumentPathReads(e, f);
    case FullText(_, _) => SearchReads(e, f);
    case Distance(_, _) => DistanceReads(e, f);
    case DistanceWithin(_, _, _) => WithinReads(e, f);
    case Aggregate(_, _, _) => AggregateReads(e, f);
    case Parameter => assert false;
    case _ => LeafReads(e, f);
  }

  /** The executed text, with the values bound to it, is read as the expression's tree and nothing is left over. */
  ghost predicate ReadsBack(e: Expr, f: Value -> Value)
    requires Compile(e).Some?
  {
    ParseAll(Compile(e).value.command, MapValues(f, Compile(e).value.parameters)) == Got(MapTree(f, Tree(e)), [], [])
  }

  lemma SortedReadsBack(e: Expr, f: Value -> Value)
    requires Compile(e).Some? && WellSorted(e)
    ensures ReadsBack(e, f)
  {
    var b := Compile(e).value;
    Reads9(e, f);
    Reads(9, b.command, MapValues(f, b.parameters), MapTree(f, Tree(e)), [], []);
    assert b.command + [] == b.command && MapValues(f, b.parameters) + [] == MapValues(f, b.parameters);
  }
}
