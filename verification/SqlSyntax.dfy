/**
 The SQL the query compiler emits, as tokens, and a parser for it that reads as PostgreSQL's grammar does: `a_expr` and,
 inside position(), `b_expr`, with the operator precedence of section 4.1.6 of the PostgreSQL documentation. As in that
 grammar, precedence decides only between two possible continuations: a prefix NOT or minus may start any operand, a
 postfix test may be followed by any operator, and two comparisons in a row are an error. Prefix forms of other operators,
 rows, and tests the compilers never print are left out. Placeholders take the bound values in order of appearance.
 */
module SqlSyntax {

  /**
   A bound value: None, a text, any other plain JSON value, a path. `Marked` and `ScopeOf` are the mappings the compiler
   leaves for the execution to replace, `BadMarker` any other mapping under the key of `Marked`.
   */
  datatype Value =
    | Null
    | Plain(text: string)
    | Other(json: string)
    | Path(segments: seq<string>)
    | ScopeOf(column: string)
    | Marked(encoding: Encoding, value: Value)
    | BadMarker(content: string)
    | Wrapped(encoding: Encoding, value: Value)

  datatype Encoding = Jsonb | Base64

  datatype Symbol =
    | Eq | Ne | Lt | Le | Gt | Ge
    | Plus | Minus | Star | Slash
    | JsonContains | JsonPath | TextMatch
    | DoubleColon

  datatype Word = NOT | AND | OR | IS | NULL | IN | TRUE | FALSE | DISTINCT | FROM

  datatype Function =
    | ToTsVector | ConcatWs | WebSearch | MakePoint | SetSrid | StDistance | StDWithin
    | Position | Count | Sum | Avg | Min | Max

  datatype SqlType = JsonbType | TextType | TextArrayType | GeographyType

  datatype Constant = Zero | Srid | SimpleConfig | Space

  datatype Token =
    | LParen | RParen | Comma | Placeholder
    | Column(alias: string, column: string)
    | Sym(symbol: Symbol)
    | Kw(word: Word)
    | Fn(fn: Function)
    | TypeName(ty: SqlType)
    | Const(constant: Constant)

  datatype Sql =
    | Col(alias: string, column: string)
    | Val(value: Value)
    | Lit(constant: Constant)
    | Bool(truth: bool)
    | Negation(arg: Sql)
    | Not(arg: Sql)
    | Op(symbol: Symbol, left: Sql, right: Sql)
    | Both(left: Sql, right: Sql)
    | Either(left: Sql, right: Sql)
    | NullTest(arg: Sql, negated: bool)
    | NotDistinct(left: Sql, right: Sql)
    | Member(arg: Sql, items: seq<Sql>, negated: bool)
    | Cast(arg: Sql, ty: SqlType)
    | Call(fn: Function, distinct: bool, args: seq<Sql>)
    | PositionOf(needle: Sql, haystack: Sql)
    | CountStar

  // --- Precedence: 0 is cast and unary minus, 9 is OR ---

  /** The level at which a token continues the expression before it; 10 when it never does. */
  function Continues(t: Token): nat {
    match t
    case Sym(DoubleColon) => 0
    case Sym(Star) => 1
    case Sym(Slash) => 1
    case Sym(Plus) => 2
    case Sym(Minus) => 2
    case Sym(JsonContains) => 3
    case Sym(JsonPath) => 3
    case Sym(TextMatch) => 3
    case Kw(IN) => 4
    case Kw(NOT) => 4
    case Sym(_) => 5
    case Kw(IS) => 6
    case Kw(AND) => 8
    case Kw(OR) => 9
    case _ => 10
  }

  /** `a_expr`, or `b_expr`: no boolean operators, null tests or membership outside parentheses. */
  datatype Grammar = Full | Restricted

  const NotDistinctTokens: seq<Token> := [Kw(IS), Kw(NOT), Kw(DISTINCT), Kw(FROM)]

  /** The tokens continue an expression of level `n`. */
  predicate Takes(g: Grammar, n: nat, ts: seq<Token>) {
    ts != [] && Continues(ts[0]) <= n &&
    match ts[0]
    case Sym(DoubleColon) => |ts| >= 2 && ts[1].TypeName?
    case Sym(_) => true
    case Kw(IN) => g == Full && |ts| >= 2 && ts[1] == LParen
    case Kw(NOT) => g == Full && |ts| >= 3 && ts[1] == Kw(IN) && ts[2] == LParen
    case Kw(IS) => NotDistinctTokens <= ts || (g == Full && ([Kw(IS), Kw(NULL)] <= ts || [Kw(IS), Kw(NOT), Kw(NULL)] <= ts))
    case Kw(AND) => g == Full
    case Kw(OR) => g == Full
    case _ => false
  }

  /** Nothing that continues an expression of level `n` comes next. */
  predicate Stops(n: nat, rest: seq<Token>) { rest == [] || Continues(rest[0]) > n }

  datatype Parsed<T> = Fail | Got(node: T, rest: seq<Token>, args: seq<Value>)

  /** An operator between two operands. */
  predicate IsInfix(t: Token) { (t.Sym? && t != Sym(DoubleColon)) || t == Kw(AND) || t == Kw(OR) }

  function Combine(t: Token, left: Sql, right: Sql): Sql {
    match t
    case Sym(s) => Op(s, left, right)
    case Kw(AND) => Both(left, right)
    case _ => Either(left, right)
  }

  /** After an operator that does not associate comes another of its level. */
  predicate Clashes(level: nat, rest: seq<Token>) { (level == 5 || level == 6) && rest != [] && Continues(rest[0]) == level }

  /** An expression with operators of level `n` and tighter. */
  function Parse(g: Grammar, n: nat, ts: seq<Token>, ps: seq<Value>): (r: Parsed<Sql>)
    requires n <= 9
    ensures r.Got? ==> |r.rest| < |ts|
    decreases |ts|, 2
  {
    var first := ParsePrefix(g, ts, ps);
    if first.Fail? then Fail else ParseTail(g, n, first.node, first.rest, first.args)
  }

  /** An expression up to its first operator; NOT takes all that binds tighter than itself, wherever it stands. */
  function ParsePrefix(g: Grammar, ts: seq<Token>, ps: seq<Value>): (r: Parsed<Sql>)
    ensures r.Got? ==> |r.rest| < |ts|
    decreases |ts|, 1
  {
    if ts != [] && ts[0] == Kw(NOT) && g == Full then
      var arg := Parse(Full, 7, ts[1..], ps);
      if arg.Got? then Got(Not(arg.node), arg.rest, arg.args) else Fail
    else if ts != [] && ts[0] == Sym(Minus) then
      var arg := Parse(g, 0, ts[1..], ps);
      if arg.Got? then Got(Negation(arg.node), arg.rest, arg.args) else Fail
    else ParsePrimary(ts, ps)
  }

  /** The operators after an expression, one by one. */
  function ParseTail(g: Grammar, n: nat, left: Sql, ts: seq<Token>, ps: seq<Value>): (r: Parsed<Sql>)
    requires n <= 9
    ensures r.Got? ==> |r.rest| <= |ts|
    decreases |ts|, 1
  {
    if !Takes(g, n, ts) then Got(left, ts, ps)
    else
      var step := ParseStep(g, left, ts, ps);
      if step.Fail? then Fail else ParseTail(g, n, step.node, step.rest, step.args)
  }

  /** One operator, with its right operand, type or candidates. */
  function ParseStep(g: Grammar, left: Sql, ts: seq<Token>, ps: seq<Value>): (r: Parsed<Sql>)
    requires Takes(g, 9, ts)
    ensures r.Got? ==> |r.rest| < |ts|
    decreases |ts|, 0
  {
    if IsInfix(ts[0]) then
      var right := Parse(g, Continues(ts[0]) - 1, ts[1..], ps);
      if right.Fail? || Clashes(Continues(ts[0]), right.rest) then Fail
      else Got(Combine(ts[0], left, right.node), right.rest, right.args)
    else if ts[0] == Sym(DoubleColon) then Got(Cast(left, ts[1].ty), ts[2..], ps)
    else if ts[0] == Kw(IS) then ParseTest(g, left, ts, ps)
    else
      var items := ParseList(if ts[0] == Kw(IN) then ts[2..] else ts[3..], ps);
      if items.Fail? then Fail else Got(Member(left, items.node, ts[0] == Kw(NOT)), items.rest, items.args)
  }

  function ParseTest(g: Grammar, left: Sql, ts: seq<Token>, ps: seq<Value>): (r: Parsed<Sql>)
    requires Takes(g, 9, ts) && ts[0] == Kw(IS)
    ensures r.Got? ==> |r.rest| < |ts|
    decreases |ts|, 0, 0
  {
    if ts[1] == Kw(NULL) then Got(NullTest(left, false), ts[2..], ps)
    else if ts[2] == Kw(NULL) then Got(NullTest(left, true), ts[3..], ps)
    else
      var right := Parse(g, 5, ts[4..], ps);
      if right.Fail? || Clashes(6, right.rest) then Fail else Got(NotDistinct(left, right.node), right.rest, right.args)
  }

  function Close(r: Parsed<Sql>): (q: Parsed<Sql>)
    ensures q.Got? ==> r.Got? && |q.rest| < |r.rest|
  {
    if r.Got? && r.rest != [] && r.rest[0] == RParen then Got(r.node, r.rest[1..], r.args) else Fail
  }

  function ParsePrimary(ts: seq<Token>, ps: seq<Value>): (r: Parsed<Sql>)
    ensures r.Got? ==> |r.rest| < |ts|
    decreases |ts|, 0
  {
    if ts == [] then Fail
    else
      match ts[0]
      case Placeholder => if ps == [] then Fail else Got(Val(ps[0]), ts[1..], ps[1..])
      case Column(alias, column) => Got(Col(alias, column), ts[1..], ps)
      case Const(constant) => Got(Lit(constant), ts[1..], ps)
      case Kw(TRUE) => Got(Bool(true), ts[1..], ps)
      case Kw(FALSE) => Got(Bool(false), ts[1..], ps)
      case LParen => Close(Parse(Full, 9, ts[1..], ps))
      case Fn(fn) => if |ts| >= 2 && ts[1] == LParen then ParseCall(fn, ts[2..], ps) else Fail
      case _ => Fail
  }

  /** What follows `fn(`. */
  function ParseCall(fn: Function, ts: seq<Token>, ps: seq<Value>): (r: Parsed<Sql>)
    ensures r.Got? ==> |r.rest| < |ts|
    decreases |ts|, 12
  {
    if fn == Position then
      var needle := Parse(Restricted, 6, ts, ps);
      if needle.Got? && needle.rest != [] && needle.rest[0] == Kw(IN) then
        var haystack := Close(Parse(Restricted, 6, needle.rest[1..], needle.args));
        if haystack.Got? then Got(PositionOf(needle.node, haystack.node), haystack.rest, haystack.args) else Fail
      else Fail
    else if fn == Count && |ts| >= 2 && ts[0] == Sym(Star) && ts[1] == RParen then Got(CountStar, ts[2..], ps)
    else if ts != [] && ts[0] == Kw(DISTINCT) then
      var args := ParseList(ts[1..], ps);
      if args.Got? then Got(Call(fn, true, args.node), args.rest, args.args) else Fail
    else
      var args := ParseList(ts, ps);
      if args.Got? then Got(Call(fn, false, args.node), args.rest, args.args) else Fail
  }

  /** One or more expressions separated by commas, and the closing parenthesis. */
  function ParseList(ts: seq<Token>, ps: seq<Value>): (r: Parsed<seq<Sql>>)
    ensures r.Got? ==> |r.rest| < |ts|
    decreases |ts|, 11
  {
    var first := Parse(Full, 9, ts, ps);
    if first.Got? && first.rest != [] && first.rest[0] == RParen then Got([first.node], first.rest[1..], first.args)
    else if first.Got? && first.rest != [] && first.rest[0] == Comma then
      var others := ParseList(first.rest[1..], first.args);
      if others.Got? then Got([first.node] + others.node, others.rest, others.args) else Fail
    else Fail
  }

  /** A whole statement fragment: all tokens and all values are used. */
  function ParseAll(ts: seq<Token>, ps: seq<Value>): Parsed<Sql> {
    var r := Parse(Full, 9, ts, ps);
    if r.Got? && r.rest == [] && r.args == [] then r else Fail
  }

  // --- Changing the bound values of a tree ---

  function MapValues(f: Value -> Value, ps: seq<Value>): (qs: seq<Value>)
    ensures |qs| == |ps|
    ensures forall i :: 0 <= i < |ps| ==> qs[i] == f(ps[i])
  {
    if ps == [] then [] else MapValues(f, ps[..|ps| - 1]) + [f(ps[|ps| - 1])]
  }

  function MapTree(f: Value -> Value, t: Sql): Sql {
    match t
    case Val(v) => Val(f(v))
    case Negation(x) => Negation(MapTree(f, x))
    case Not(x) => Not(MapTree(f, x))
    case Op(s, x, y) => Op(s, MapTree(f, x), MapTree(f, y))
    case Both(x, y) => Both(MapTree(f, x), MapTree(f, y))
    case Either(x, y) => Either(MapTree(f, x), MapTree(f, y))
    case NullTest(x, negated) => NullTest(MapTree(f, x), negated)
    case NotDistinct(x, y) => NotDistinct(MapTree(f, x), MapTree(f, y))
    case Member(x, items, negated) => Member(MapTree(f, x), MapTrees(f, items), negated)
    case Cast(x, ty) => Cast(MapTree(f, x), ty)
    case Call(fn, distinct, args) => Call(fn, distinct, MapTrees(f, args))
    case PositionOf(x, y) => PositionOf(MapTree(f, x), MapTree(f, y))
    case _ => t
  }

  function MapTrees(f: Value -> Value, ts: seq<Sql>): (us: seq<Sql>)
    ensures |us| == |ts|
  {
    if ts == [] then [] else [MapTree(f, ts[0])] + MapTrees(f, ts[1..])
  }
}
