/**
 Query expressions compiled to parameterised SQL. `Compile` builds tokens and values the way the source does;
 `Tree` says, without tokens, which operator tree the expression denotes. The theorem is that PostgreSQL's
 precedence rules read the tokens as exactly that tree, each placeholder holding its own value.
 */
module ExpressionCompiler {
  import opened Wrappers
  import opened SqlSyntax
  import opened ParserFacts
  import JsonPointer

  /** How values compared with a field are bound: json-like and many-valued fields, bytes fields, all others. */
  datatype Kind = Scalar | JsonLike | Bytes

  datatype BinaryOp = EqOp | NeOp | LtOp | LteOp | GtOp | GteOp | AddOp | SubtractOp | MultiplyOp | DivideOp

  datatype AggregateFn = CountFn | SumFn | AvgFn | MinFn | MaxFn | PercentileFn

  /** Canonical query expressions; a field is already resolved to its alias and column. */
  datatype Expr =
    | Field(alias: string, column: string, kind: Kind)
    | Literal(value: Value)
    | Parameter
    | Point(longitude: Value, latitude: Value)
    | NotExpr(operand: Expr)
    | Negate(operand: Expr)
    | And(operands: seq<Expr>)
    | Or(operands: seq<Expr>)
    | Binary(op: BinaryOp, left: Expr, right: Expr)
    | Contains(left: Expr, right: Expr)
    | IsNull(operand: Expr, expected: bool)
    | In(operand: Expr, candidates: seq<Expr>, negated: bool)
    | TimestampRange(operand: Expr, start: Option<Expr>, end: Option<Expr>, includeStart: bool, includeEnd: bool)
    | DocumentPath(document: Expr, pointer: string)
    | FullText(fields: seq<Expr>, query: Value)
    | Distance(left: Expr, right: Expr)
    | DistanceWithin(left: Expr, right: Expr, distance: Value)
    | CountAll
    | Aggregate(fn: AggregateFn, operand: Expr, distinct: bool)

  datatype BoundStatement = BoundStatement(command: seq<Token>, parameters: seq<Value>)

  function SymbolOf(op: BinaryOp): Symbol {
    match op
    case EqOp => Eq case NeOp => Ne case LtOp => Lt case LteOp => Le case GtOp => Gt case GteOp => Ge
    case AddOp => Plus case SubtractOp => Minus case MultiplyOp => Star case DivideOp => Slash
  }

  function FnOf(fn: AggregateFn): Function
    requires fn != PercentileFn
  {
    match fn
    case CountFn => Count case SumFn => Sum case AvgFn => Avg case MinFn => Min case MaxFn => Max
  }

  // --- Texts in base64url ---

  predicate IsBase64(c: char) { 'A' <= c <= 'Z' || 'a' <= c <= 'z' || '0' <= c <= '9' || c == '_' || c == '-' }

  predicate AllBase64(s: string) { forall i :: 0 <= i < |s| ==> IsBase64(s[i]) }

  function WithoutPadding(s: string): string {
    if s != [] && s[|s| - 1] == '=' then WithoutPadding(s[..|s| - 1]) else s
  }

  /** What `decode_base64url` accepts. */
  predicate Base64Url(v: Value) {
    && v.Plain? && AllBase64(WithoutPadding(v.text)) && |WithoutPadding(v.text)| + 2 >= |v.text|
    && |WithoutPadding(v.text)| % 4 != 1
  }

  // --- The compiler ---

  function Encode(kind: Kind, v: Value): Value {
    match kind case Scalar => v case JsonLike => Marked(Jsonb, v) case Bytes => Marked(Base64, v)
  }

  /** `encode_query_value` raises on bytes that are no base64url text. */
  predicate Encodable(kind: Kind, ps: seq<Value>) { kind == Bytes ==> forall v :: v in ps ==> Base64Url(v) }

  function Encoder(kind: Kind): Value -> Value { (v: Value) => Encode(kind, v) }

  /** `_adapt`: every value of the statement is encoded for the field it is compared with. */
  function Adapt(b: BoundStatement, kind: Kind): BoundStatement {
    BoundStatement(b.command, MapValues(Encoder(kind), b.parameters))
  }

  /** A literal compared with a field is adapted to that field. */
  function AdaptTo(other: Expr, self: Expr, b: BoundStatement): BoundStatement {
    if other.Field? && self.Literal? then Adapt(b, other.kind) else b
  }

  predicate Adapts(other: Expr, self: Expr, b: BoundStatement) { other.Field? && self.Literal? ==> Encodable(other.kind, b.parameters) }

  predicate AllAdapt(operand: Expr, bs: seq<BoundStatement>) {
    operand.Field? ==> forall i :: 0 <= i < |bs| ==> Encodable(operand.kind, bs[i].parameters)
  }

  function AdaptAll(operand: Expr, bs: seq<BoundStatement>): (rs: seq<BoundStatement>)
    ensures |rs| == |bs|
  {
    if bs == [] then [] else
      [if operand.Field? then Adapt(bs[0], operand.kind) else bs[0]] + AdaptAll(operand, bs[1..])
  }

  function Wrap(ts: seq<Token>): seq<Token> { [LParen] + ts + [RParen] }

  /** The parts, each in parentheses, with the word between them. */
  function Joined(word: Word, parts: seq<BoundStatement>): seq<Token>
    requires parts != []
  {
    var n := |parts| - 1;
    if n == 0 then Wrap(parts[0].command)
    else Joined(word, parts[..n]) + [Kw(word)] + Wrap(parts[n].command)
  }

  function AllParameters(parts: seq<BoundStatement>): seq<Value> {
    if parts == [] then [] else AllParameters(parts[..|parts| - 1]) + parts[|parts| - 1].parameters
  }

  function Conjunction(parts: seq<BoundStatement>): BoundStatement {
    if parts == [] then BoundStatement([Kw(TRUE)], []) else BoundStatement(Joined(AND, parts), AllParameters(parts))
  }

  function Disjunction(parts: seq<BoundStatement>): BoundStatement {
    if parts == [] then BoundStatement([Kw(FALSE)], []) else BoundStatement(Joined(OR, parts), AllParameters(parts))
  }

  function CommaSeparated(parts: seq<BoundStatement>): seq<Token>
    requires parts != []
  {
    if |parts| == 1 then parts[0].command else parts[0].command + [Comma] + CommaSeparated(parts[1..])
  }

  /** Values of comma-separated parts, in order. */
  function ListParameters(parts: seq<BoundStatement>): seq<Value> {
    if parts == [] then [] else parts[0].parameters + ListParameters(parts[1..])
  }

  function Compared(left: BoundStatement, s: Symbol, right: BoundStatement): BoundStatement {
    BoundStatement(left.command + [Sym(s)] + right.command, left.parameters + right.parameters)
  }

  function RangePart(operand: BoundStatement, bound: Option<BoundStatement>, s: Symbol): seq<BoundStatement> {
    match bound case None => [] case Some(b) => [Compared(operand, s, b)]
  }

  function CompileOption(e: Option<Expr>): Option<Option<BoundStatement>>
  {
    match e
    case None => Some(None)
    case Some(x) => (match Compile(x) case None => None case Some(b) => Some(Some(b)))
  }

  function CompileAll(es: seq<Expr>): (r: Option<seq<BoundStatement>>)
    ensures r.Some? ==> |r.value| == |es|
  {
    if es == [] then Some([])
    else
      match (Compile(es[0]), CompileAll(es[1..]))
      case (Some(b), Some(bs)) => Some([b] + bs)
      case _ => None
  }

  /** None wherever the compiler raises. */
  function Compile(e: Expr): Option<BoundStatement> {
    match e
    case Field(alias, column, _) => Some(BoundStatement([Column(alias, column)], []))
    case Literal(v) => Some(BoundStatement([Placeholder], [v]))
    case Parameter => None
    case Point(longitude, latitude) =>
      Some(BoundStatement(
        [Fn(SetSrid), LParen, Fn(MakePoint), LParen, Placeholder, Comma, Placeholder, RParen, Comma, Const(Srid), RParen,
         Sym(DoubleColon), TypeName(GeographyType)], [longitude, latitude]))
    case NotExpr(x) =>
      (match Compile(x) case None => None case Some(b) => Some(BoundStatement([Kw(NOT)] + Wrap(b.command), b.parameters)))
    case Negate(x) =>
      (match Compile(x) case None => None case Some(b) => Some(BoundStatement([Sym(Minus)] + Wrap(b.command), b.parameters)))
    case And(xs) =>
      (match CompileAll(xs) case None => None case Some(bs) => Some(Conjunction(bs)))
    case Or(xs) =>
      (match CompileAll(xs) case None => None case Some(bs) => Some(Disjunction(bs)))
    case Binary(op, x, y) =>
      (match (Compile(x), Compile(y))
       case (Some(left), Some(right)) =>
         var b := Compared(AdaptTo(y, x, left), SymbolOf(op), AdaptTo(x, y, right));
         if Adapts(y, x, left) && Adapts(x, y, right) then Some(BoundStatement(Wrap(b.command), b.parameters)) else None
       case _ => None)
    case Contains(x, y) =>
      (match (Compile(x), Compile(y))
       case (Some(left), Some(right)) =>
         if x.Field? && x.kind == JsonLike then
           var adapted := Adapt(right, JsonLike);
           Some(BoundStatement(left.command + [Sym(JsonContains)] + (Wrap(adapted.command) + [Sym(DoubleColon), TypeName(JsonbType)]),
                               left.parameters + adapted.parameters))
         else
           Some(BoundStatement(
             [Fn(Position), LParen] + (Wrap(right.command) + [Sym(DoubleColon), TypeName(TextType)]) + [Kw(IN)] + left.command + [RParen]
             + [Sym(Gt)] + [Const(Zero)],
             right.parameters + left.parameters))
       case _ => None)
    case IsNull(x, expected) =>
      (match Compile(x) case None => None
       case Some(b) => Some(BoundStatement(Wrap(b.command + IsNullTokens(!expected)), b.parameters)))
    case In(x, xs, negated) =>
      if xs == [] then None else
      (match (Compile(x), CompileAll(xs))
       case (Some(b), Some(bs)) =>
         var items := AdaptAll(x, bs);
         if !AllAdapt(x, bs) then None else
         Some(BoundStatement(Wrap(b.command + InTokens(negated) + CommaSeparated(items) + [RParen]),
                             b.parameters + ListParameters(items)))
       case _ => None)
    case TimestampRange(x, start, end, includeStart, includeEnd) =>
      (match (Compile(x), CompileOption(start), CompileOption(end))
       case (Some(b), Some(s), Some(t)) =>
         Some(Conjunction(RangePart(b, s, if includeStart then Ge else Gt) + RangePart(b, t, if includeEnd then Le else Lt)))
       case _ => None)
    case DocumentPath(x, pointer) =>
      (match (Compile(x), JsonPointer.Segments(pointer))
       case (Some(b), Some(segments)) =>
         Some(BoundStatement(Wrap(b.command + [Sym(JsonPath)] + [Placeholder, Sym(DoubleColon), TypeName(TextArrayType)]),
                             b.parameters + [Path(segments)]))
       case _ => None)
    case FullText(xs, query) =>
      if xs == [] then None else
      (match CompileAll(xs) case None => None
       case Some(bs) =>
         var blank := BoundStatement([Const(Space)], []);
         var config := BoundStatement([Const(SimpleConfig)], []);
         var concat := CallStatement(ConcatWs, [blank] + bs);
         var term := BoundStatement([Placeholder], [query]);
         Some(Compared(CallStatement(ToTsVector, [config, concat]), TextMatch, CallStatement(WebSearch, [config, term]))))
    case Distance(x, y) =>
      (match (Compile(x), Compile(y))
       case (Some(left), Some(right)) => Some(CallStatement(StDistance, [left, right]))
       case _ => None)
    case DistanceWithin(x, y, d) =>
      (match (Compile(x), Compile(y))
       case (Some(left), Some(right)) => Some(CallStatement(StDWithin, [left, right, BoundStatement([Placeholder], [d])]))
       case _ => None)
    case CountAll => Some(BoundStatement([Fn(Count), LParen, Sym(Star), RParen], []))
    case Aggregate(fn, x, distinct) =>
      if fn == PercentileFn then None else
      (match Compile(x) case None => None
       case Some(b) =>
         if distinct then Some(BoundStatement([Fn(FnOf(fn)), LParen, Kw(DISTINCT)] + b.command + [RParen], b.parameters))
         else Some(CallStatement(FnOf(fn), [b])))
  }

  function CallStatement(fn: Function, args: seq<BoundStatement>): BoundStatement
    requires args != []
  {
    BoundStatement([Fn(fn), LParen] + CommaSeparated(args) + [RParen], ListParameters(args))
  }

  // --- What an expression denotes ---

  function AdaptTree(other: Expr, self: Expr, t: Sql): Sql {
    if other.Field? && self.Literal? then MapTree(Encoder(other.kind), t) else t
  }

  function AdaptTrees(operand: Expr, ts: seq<Sql>): (us: seq<Sql>)
    ensures |us| == |ts|
  {
    if ts == [] then [] else
      [if operand.Field? then MapTree(Encoder(operand.kind), ts[0]) else ts[0]] + AdaptTrees(operand, ts[1..])
  }

  /** One conjunct stands for itself; none is the unit. */
  function Folded(n: nat, ts: seq<Sql>): Sql
    requires n == 8 || n == 9
  {
    if ts == [] then Bool(n == 8)
    else if |ts| == 1 then ts[0]
    else if n == 8 then Both(Folded(n, ts[..|ts| - 1]), ts[|ts| - 1])
    else Either(Folded(n, ts[..|ts| - 1]), ts[|ts| - 1])
  }

  function RangeTree(operand: Sql, bound: Option<Sql>, s: Symbol): seq<Sql> {
    match bound case None => [] case Some(b) => [Op(s, operand, b)]
  }

  function Trees(es: seq<Expr>): (ts: seq<Sql>)
    ensures |ts| == |es|
  {
    if es == [] then [] else [Tree(es[0])] + Trees(es[1..])
  }

  function TreeOption(e: Option<Expr>): Option<Sql> {
    match e case None => None case Some(x) => Some(Tree(x))
  }

  function Tree(e: Expr): Sql {
    match e
    case Field(alias, column, _) => Col(alias, column)
    case Literal(v) => Val(v)
    case Parameter => Bool(false)
    case Point(longitude, latitude) =>
      Cast(Call(SetSrid, false, [Call(MakePoint, false, [Val(longitude), Val(latitude)]), Lit(Srid)]), GeographyType)
    case NotExpr(x) => Not(Tree(x))
    case Negate(x) => Negation(Tree(x))
    case And(xs) => Folded(8, Trees(xs))
    case Or(xs) => Folded(9, Trees(xs))
    case Binary(op, x, y) => Op(SymbolOf(op), AdaptTree(y, x, Tree(x)), AdaptTree(x, y, Tree(y)))
    case Contains(x, y) =>
      if x.Field? && x.kind == JsonLike then Op(JsonContains, Tree(x), Cast(MapTree(Encoder(JsonLike), Tree(y)), JsonbType))
      else Op(Gt, PositionOf(Cast(Tree(y), TextType), Tree(x)), Lit(Zero))
    case IsNull(x, expected) => NullTest(Tree(x), !expected)
    case In(x, xs, negated) => Member(Tree(x), AdaptTrees(x, Trees(xs)), negated)
    case TimestampRange(x, start, end, includeStart, includeEnd) =>
      Folded(8, RangeTree(Tree(x), TreeOption(start), if includeStart then Ge else Gt)
                + RangeTree(Tree(x), TreeOption(end), if includeEnd then Le else Lt))
    case DocumentPath(x, pointer) =>
      (match JsonPointer.Segments(pointer)
       case None => Bool(false)
       case Some(segments) => Op(JsonPath, Tree(x), Cast(Val(Path(segments)), TextArrayType)))
    case FullText(xs, query) =>
      Op(TextMatch, Call(ToTsVector, false, [Lit(SimpleConfig), Call(ConcatWs, false, [Lit(Space)] + Trees(xs))]),
         Call(WebSearch, false, [Lit(SimpleConfig), Val(query)]))
    case Distance(x, y) => Call(StDistance, false, [Tree(x), Tree(y)])
    case DistanceWithin(x, y, d) => Call(StDWithin, false, [Tree(x), Tree(y), Val(d)])
    case CountAll => CountStar
    case Aggregate(fn, x, distinct) => if fn == PercentileFn then Bool(false) else Call(FnOf(fn), distinct, [Tree(x)])
  }

  // --- Well-sorted expressions ---

  /** The precedence level at which the compiled text of an expression reads as a unit. */
  function Level(e: Expr): nat {
    match e
    case NotExpr(_) => 7
    case And(xs) => if |xs| <= 1 then 0 else 8
    case Or(xs) => if |xs| <= 1 then 0 else 9
    case Contains(x, _) => if x.Field? && x.kind == JsonLike then 3 else 5
    case TimestampRange(_, start, end, _, _) => if start.Some? && end.Some? then 8 else 0
    case FullText(_, _) => 3
    case _ => 0
  }

  /** The loosest operand an operator's position accepts without parentheses. */
  function OperandLevel(op: BinaryOp): nat {
    match op
    case AddOp => 1 case SubtractOp => 1
    case MultiplyOp => 0 case DivideOp => 0
    case _ => 4
  }

  /** An operand to the right of an operator: a negation may stand there too, for NOT starts an operand of its own. */
  predicate FitsRight(e: Expr, n: nat) { Level(e) <= n || e.NotExpr? }

  /**
   Boolean combinations stand only where a condition is expected. The compiler puts parentheses around the operands
   of and, or, not and negate and around the sought value of contains, and commas separate list items; every other
   operand is printed bare. A range without bounds does not print its operand.
   */
  predicate WellSorted(e: Expr) {
    match e
    case NotExpr(x) => WellSorted(x)
    case Negate(x) => WellSorted(x)
    case And(xs) => forall x :: x in xs ==> WellSorted(x)
    case Or(xs) => forall x :: x in xs ==> WellSorted(x)
    case Binary(op, x, y) => WellSorted(x) && WellSorted(y) && Level(x) <= OperandLevel(op) && FitsRight(y, OperandLevel(op))
    case Contains(x, y) => WellSorted(x) && WellSorted(y) && Level(x) <= 5
    case IsNull(x, _) => WellSorted(x) && Level(x) <= 5
    case In(x, xs, _) => WellSorted(x) && Level(x) <= 3 && forall y :: y in xs ==> WellSorted(y)
    case TimestampRange(x, start, end, _, _) =>
      && (start.Some? || end.Some? ==> WellSorted(x) && Level(x) <= 4)
      && (start.Some? ==> WellSorted(start.value) && FitsRight(start.value, 4))
      && (end.Some? ==> WellSorted(end.value) && FitsRight(end.value, 4))
    case DocumentPath(x, _) => WellSorted(x) && Level(x) <= 3
    case FullText(xs, _) => forall x :: x in xs ==> WellSorted(x)
    case Distance(x, y) => WellSorted(x) && WellSorted(y)
    case DistanceWithin(x, y, _) => WellSorted(x) && WellSorted(y)
    case Aggregate(_, x, _) => WellSorted(x)
    case _ => true
  }
}
