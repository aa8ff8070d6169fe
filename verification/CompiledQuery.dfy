/** From expression to executed statement: parameters renamed for the envelope, looked up again, and decoded. */
module CompiledQuery {
  import opened Wrappers
  import opened SqlSyntax
  import opened ParserFacts
  import opened ExpressionCompiler
  import opened CompilerCorrectness

  // --- Names p0, p1, ... ---

  function Digits(n: nat): (s: string)
    ensures s != []
  {
    if n < 10 then [('0' as int + n) as char] else Digits(n / 10) + [('0' as int + n % 10) as char]
  }

  function NumberOf(s: string): int {
    if s == [] then 0 else 10 * NumberOf(s[..|s| - 1]) + (s[|s| - 1] as int - '0' as int)
  }

  lemma {:induction false} DigitsReadBack(n: nat)
    ensures NumberOf(Digits(n)) == n
  {
    if n < 10 {
      assert Digits(n)[..0] == [];
      assert NumberOf([]) == 0;
    } else {
      DigitsReadBack(n / 10);
      assert Digits(n)[..|Digits(n)| - 1] == Digits(n / 10);
    }
  }

  function Name(i: nat): string { ['p'] + Digits(i) }

  lemma NamesDistinct(i: nat, j: nat)
    requires Name(i) == Name(j)
    ensures i == j
  {
    assert Name(i)[1..] == Digits(i) && Name(j)[1..] == Digits(j);
    DigitsReadBack(i);
    DigitsReadBack(j);
  }

  // --- The envelope ---

  datatype Envelope = Envelope(command: seq<Token>, order: seq<string>, parameters: map<string, Value>)

  /** The dictionary `dict(zip(names, values))` over the first `k` names. */
  function Named(values: seq<Value>, k: nat): map<string, Value>
    requires k <= |values|
  {
    if k == 0 then map[] else Named(values, k - 1)[Name(k - 1) := values[k - 1]]
  }

  /** `_compiled`. */
  function Seal(b: BoundStatement): Envelope {
    Envelope(b.command, seq(|b.parameters|, (i: nat) => Name(i)), Named(b.parameters, |b.parameters|))
  }

  /** The scope of the request that executes a query. */
  datatype Context = Context(tenant: Option<string>, scope: map<string, string>)

  const TENANT: string := "__tenant"

  const SCOPE: string := "__scope_"

  /** `_scope_parameter`: None where it raises. */
  function ScopeParameter(context: Context, column: string): Option<string> {
    if column == TENANT then context.tenant
    else if SCOPE <= column && column[|SCOPE|..] in context.scope then Some(context.scope[column[|SCOPE|..]])
    else None
  }

  /** Neither `_scope_parameter` nor `decode_query_value` raises. */
  predicate Binds(context: Context, v: Value) {
    match v
    case ScopeOf(column) => ScopeParameter(context, column).Some?
    case Marked(encoding, x) => encoding == Base64 ==> Base64Url(x)
    case BadMarker(_) => false
    case _ => true
  }

  /** Scope markers become the request's scope, wrapping markers driver values; anything else is bound as it is. */
  function DecodeValue(context: Context, v: Value): Value {
    match v
    case ScopeOf(column) => (match ScopeParameter(context, column) case Some(text) => Plain(text) case None => v)
    case Marked(encoding, x) => Wrapped(encoding, x)
    case _ => v
  }

  function Decoder(context: Context): Value -> Value { (v: Value) => DecodeValue(context, v) }

  predicate AllNamed(e: Envelope) { forall i :: 0 <= i < |e.order| ==> e.order[i] in e.parameters }

  /** The values under the names, in order. */
  function ValuesInOrder(e: Envelope): seq<Value>
    requires AllNamed(e)
  {
    seq(|e.order|, (i: nat) requires i < |e.order| => e.parameters[e.order[i]])
  }

  predicate AllBind(context: Context, ps: seq<Value>) { forall v :: v in ps ==> Binds(context, v) }

  /** What a statement is executed with; None where the execution raises. */
  function BoundValues(e: Envelope, context: Context): Option<seq<Value>> {
    if AllNamed(e) && AllBind(context, ValuesInOrder(e)) then Some(MapValues(Decoder(context), ValuesInOrder(e))) else None
  }

  /** `_execute_query`: the values bound to the statement, None when a name, a scope value or a sound marker is missing. */
  method Bind(e: Envelope, context: Context) returns (values: Option<seq<Value>>)
    ensures values == BoundValues(e, context)
  {
    var bound: seq<Value> := [];
    var i := 0;
    while i < |e.order|
      invariant 0 <= i <= |e.order| && |bound| == i
      invariant forall k :: 0 <= k < i ==>
        e.order[k] in e.parameters && Binds(context, e.parameters[e.order[k]]) && bound[k] == DecodeValue(context, e.parameters[e.order[k]])
    {
      var name := e.order[i];
      if name !in e.parameters { return None; }
      var value := e.parameters[name];
      if !Binds(context, value) {
        assert AllNamed(e) ==> ValuesInOrder(e)[i] == value;
        return None;
      }
      bound := bound + [DecodeValue(context, value)];
      i := i + 1;
    }
    forall v | v in ValuesInOrder(e) ensures Binds(context, v) {
      var k :| 0 <= k < |e.order| && ValuesInOrder(e)[k] == v;
    }
    assert bound == MapValues(Decoder(context), ValuesInOrder(e));
    return Some(bound);
  }

  lemma {:induction false} NamedAt(values: seq<Value>, k: nat, i: nat)
    requires i < k <= |values|
    ensures Name(i) in Named(values, k) && Named(values, k)[Name(i)] == values[i]
  {
    if i < k - 1 {
      NamedAt(values, k - 1, i);
      if Name(i) == Name(k - 1) { NamesDistinct(i, k - 1); }
    }
  }

  /** Renaming and looking up again delivers every value, decoded, in its original position, and only that. */
  lemma RenameUndone(b: BoundStatement, context: Context)
    ensures BoundValues(Seal(b), context) == if AllBind(context, b.parameters) then Some(MapValues(Decoder(context), b.parameters)) else None
  {
    forall i | 0 <= i < |b.parameters|
      ensures Seal(b).order[i] in Seal(b).parameters && Seal(b).parameters[Seal(b).order[i]] == b.parameters[i]
    {
      NamedAt(b.parameters, |b.parameters|, i);
    }
    assert ValuesInOrder(Seal(b)) == b.parameters;
  }

  // --- The theorem ---

  /** The statement is executed, and read as this tree. */
  predicate Arrives(b: BoundStatement, context: Context, t: Sql) {
    var values := BoundValues(Seal(b), context);
    values.Some? && ParseAll(Seal(b).command, values.value) == Got(t, [], [])
  }

  /**
   Every well-sorted expression that compiles: the executed text, with the values bound to it, is exactly its tree. It is
   executed exactly if every value can be bound.
   */
  lemma ExecutedTextMeansTree(e: Expr, context: Context)
    requires Compile(e).Some? && WellSorted(e)
    ensures var b := Compile(e).value;
      && ParseAll(Seal(b).command, MapValues(Decoder(context), b.parameters)) == Got(MapTree(Decoder(context), Tree(e)), [], [])
      && (Arrives(b, context, MapTree(Decoder(context), Tree(e))) <==> AllBind(context, b.parameters))
  {
    SortedReadsBack(e, Decoder(context));
    RenameUndone(Compile(e).value, context);
  }

  // --- The user's own values ---

  /** A literal compared with a field of this kind reaches the driver as it is, or wrapped for the field. */
  function Delivered(kind: Kind, v: Value): Value {
    match kind case Scalar => v case JsonLike => Wrapped(Jsonb, v) case Bytes => Wrapped(Base64, v)
  }

  /** The execution takes the value for one of the compiler's own markers, and replaces it or raises. */
  predicate TakenForMarker(v: Value) { v.Marked? || v.ScopeOf? || v.BadMarker? }

  function FieldTest(op: BinaryOp, alias: string, column: string, kind: Kind, v: Value): Expr {
    Binary(op, Field(alias, column, kind), Literal(v))
  }

  lemma FieldTestSorted(op: BinaryOp, alias: string, column: string, kind: Kind, v: Value)
    ensures var e := FieldTest(op, alias, column, kind, v);
      (Compile(e).Some? <==> Encodable(kind, [v])) && WellSorted(e) && Tree(e) == Op(SymbolOf(op), Col(alias, column), Val(Encode(kind, v)))
  {
    var x, y := Field(alias, column, kind), Literal(v);
    assert WellSorted(x) && WellSorted(y) && Compile(x).Some? && Compile(y).Some?;
    assert AdaptTree(x, y, Tree(y)) == MapTree(Encoder(kind), Val(v)) == Val(Encode(kind, v));
  }

  /**
   A user's literal arrives exactly as given unless it is bound bare and looks like a marker; bytes that are no base64url
   text are refused by the compiler.
   */
  lemma LiteralArrives(op: BinaryOp, alias: string, column: string, kind: Kind, v: Value, context: Context)
    ensures
      var e := FieldTest(op, alias, column, kind, v);
      && (Compile(e).Some? <==> (kind == Bytes ==> Base64Url(v)))
      && (Compile(e).Some? ==>
            (Arrives(Compile(e).value, context, Op(SymbolOf(op), Col(alias, column), Val(Delivered(kind, v)))) <==> kind != Scalar || !TakenForMarker(v)))
  {
    var e := FieldTest(op, alias, column, kind, v);
    FieldTestSorted(op, alias, column, kind, v);
    if Compile(e).Some? {
      FieldTestValues(op, alias, column, kind, v);
      RenameUndone(Compile(e).value, context);
      LiteralRead(op, alias, column, kind, v, context);
    }
  }

  lemma FieldTestValues(op: BinaryOp, alias: string, column: string, kind: Kind, v: Value)
    ensures var b := Compile(FieldTest(op, alias, column, kind, v)); b.Some? ==> b.value.parameters == [Encode(kind, v)]
  {
    var x, y := Field(alias, column, kind), Literal(v);
    assert Compile(x).Some? && Compile(y) == Some(BoundStatement([Placeholder], [v]));
    assert Adapt(Compile(y).value, kind).parameters == [Encode(kind, v)];
  }

  lemma LiteralRead(op: BinaryOp, alias: string, column: string, kind: Kind, v: Value, context: Context)
    requires Compile(FieldTest(op, alias, column, kind, v)).Some?
    ensures var b := Compile(FieldTest(op, alias, column, kind, v)).value;
      ParseAll(Seal(b).command, MapValues(Decoder(context), b.parameters))
      == Got(Op(SymbolOf(op), Col(alias, column), Val(DecodeValue(context, Encode(kind, v)))), [], [])
  {
    var e := FieldTest(op, alias, column, kind, v);
    FieldTestSorted(op, alias, column, kind, v);
    SortedReadsBack(e, Decoder(context));
    var u := DecodeValue(context, Encode(kind, v));
    assert MapTree(Decoder(context), Val(Encode(kind, v))) == Val(u);
    assert MapTree(Decoder(context), Tree(e)) == Op(SymbolOf(op), Col(alias, column), Val(u));
  }

  // --- Where the sorting is needed ---

  lemma ColumnReads(n: nat, alias: string, column: string)
    requires n <= 9
    ensures Parses(n, [Column(alias, column)], [], Col(alias, column))
    ensures Parses(n, Wrap([Column(alias, column)]), [], Col(alias, column))
  {
    PlainPrimary(Column(alias, column), Col(alias, column));
    PrimaryParses([Column(alias, column)], [], Col(alias, column));
    Lift(0, n, [Column(alias, column)], [], Col(alias, column));
    Lift(0, 9, [Column(alias, column)], [], Col(alias, column));
    ParenPrimary([Column(alias, column)], [], Col(alias, column));
    PrimaryParses(Wrap([Column(alias, column)]), [], Col(alias, column));
    Lift(0, n, Wrap([Column(alias, column)]), [], Col(alias, column));
  }

  /** `((a) AND (b) = c)`. */
  function Misprint(a: string, b: string, c: string): seq<Token> {
    Wrap(Wrap([Column("t0", a)]) + [Kw(AND)] + (Wrap([Column("t0", b)]) + [Sym(Eq)] + [Column("t0", c)]))
  }

  lemma PairCompiled(x: Expr, y: Expr, p: BoundStatement, q: BoundStatement)
    requires Compile(x) == Some(p) && Compile(y) == Some(q)
    ensures CompileAll([x, y]) == Some([p] + [q]) && Trees([x, y]) == [Tree(x)] + [Tree(y)]
  {
    Singleton(y, q);
    assert [x, y][1..] == [y];
  }

  lemma TwoFolded(t: Sql, u: Sql)
    ensures Folded(8, [t] + [u]) == Both(t, u)
  {
    assert ([t] + [u])[..1] == [t];
  }

  lemma TwoJoined(p: BoundStatement, q: BoundStatement)
    ensures Conjunction([p] + [q]) == BoundStatement(Wrap(p.command) + [Kw(AND)] + Wrap(q.command), p.parameters + q.parameters)
  {
    JoinedPush(AND, [p], q);
    assert [p][..0] == [] && AllParameters([p]) == [] + p.parameters;
  }

  lemma BothCompiled(x: Expr, y: Expr, p: BoundStatement, q: BoundStatement)
    requires Compile(x) == Some(p) && Compile(y) == Some(q)
    ensures Compile(And([x, y]))
            == Some(BoundStatement(Wrap(p.command) + [Kw(AND)] + Wrap(q.command), p.parameters + q.parameters))
    ensures Tree(And([x, y])) == Both(Tree(x), Tree(y))
  {
    PairCompiled(x, y, p, q);
    TwoJoined(p, q);
    TwoFolded(Tree(x), Tree(y));
  }

  lemma MisprintCompiled(a: string, b: string, c: string)
    ensures
      var e := Binary(EqOp, And([Field("t0", a, Scalar), Field("t0", b, Scalar)]), Field("t0", c, Scalar));
      && Compile(e) == Some(BoundStatement(Misprint(a, b, c), []))
      && Tree(e) == Op(Eq, Both(Col("t0", a), Col("t0", b)), Col("t0", c))
  {
    var x, y, z := Field("t0", a, Scalar), Field("t0", b, Scalar), Field("t0", c, Scalar);
    BothCompiled(x, y, BoundStatement([Column("t0", a)], []), BoundStatement([Column("t0", b)], []));
    ComparisonCompiled(EqOp, And([x, y]), z);
    var s, t, u := Wrap([Column("t0", a)]), Wrap([Column("t0", b)]), [Column("t0", c)];
    assert [LParen] + (s + [Kw(AND)] + t + ([Sym(Eq)] + u + [RParen])) == Wrap(s + [Kw(AND)] + (t + [Sym(Eq)] + u));
    var none: seq<Value> := [];
    assert none + none == none;
  }

  lemma Singleton(e: Expr, b: BoundStatement)
    requires Compile(e) == Some(b)
    ensures CompileAll([e]) == Some([b]) && Trees([e]) == [Tree(e)]
  {
    assert [e][1..] == [];
    assert [b] + [] == [b] && [Tree(e)] + [] == [Tree(e)];
  }

  lemma MisprintReads(a: string, b: string, c: string)
    ensures ParseAll(Misprint(a, b, c), []) == Got(Both(Col("t0", a), Op(Eq, Col("t0", b), Col("t0", c))), [], [])
  {
    var s, t, u := [Column("t0", a)], [Column("t0", b)], [Column("t0", c)];
    ColumnReads(4, "t0", b);
    ColumnReads(4, "t0", c);
    ColumnReads(7, "t0", a);
    var none: seq<Value> := [];
    assert none + none == none;
    Compare(Wrap(t), none, Col("t0", b), Eq, u, none, Col("t0", c));
    var right, misread := Wrap(t) + [Sym(Eq)] + u, Op(Eq, Col("t0", b), Col("t0", c));
    Lift(5, 7, right, none, misread);
    Infix(8, Wrap(s), none, Col("t0", a), Kw(AND), right, none, misread);
    MisprintWhole(Wrap(s) + [Kw(AND)] + right, Both(Col("t0", a), misread));
  }

  lemma MisprintWhole(inner: seq<Token>, read: Sql)
    requires Parses(8, inner, [], read)
    ensures ParseAll(Wrap(inner), []) == Got(read, [], [])
  {
    Lift(8, 9, inner, [], read);
    ParenPrimary(inner, [], read);
    PrimaryParses(Wrap(inner), [], read);
    Lift(0, 9, Wrap(inner), [], read);
    Reads(9, Wrap(inner), [], read, [], []);
    assert Wrap(inner) + [] == Wrap(inner);
    var none: seq<Value> := [];
    assert none + none == none;
  }

  /** A conjunction compared with a field loses its extent: the comparison takes the last conjunct only. */
  lemma ConjunctionUnderComparison(a: string, b: string, c: string)
    ensures
      var e := Binary(EqOp, And([Field("t0", a, Scalar), Field("t0", b, Scalar)]), Field("t0", c, Scalar));
      && !WellSorted(e)
      && Tree(e) == Op(Eq, Both(Col("t0", a), Col("t0", b)), Col("t0", c))
      && Compile(e).Some?
      && ParseAll(Compile(e).value.command, Compile(e).value.parameters) == Got(Both(Col("t0", a), Op(Eq, Col("t0", b), Col("t0", c))), [], [])
  {
    MisprintCompiled(a, b, c);
    MisprintReads(a, b, c);
  }

  lemma FieldTree(alias: string, column: string)
    ensures Tree(Field(alias, column, Scalar)) == Col(alias, column)
  {
  }

  lemma NegationPrinted(a: string, b: string)
    ensures
      var e := Binary(EqOp, NotExpr(Field("t0", a, Scalar)), Field("t0", b, Scalar));
      && Compile(e) == Some(BoundStatement(Wrap([Kw(NOT)] + (Wrap([Column("t0", a)]) + [Sym(Eq)] + [Column("t0", b)])), []))
      && Tree(e) == Op(Eq, Not(Col("t0", a)), Col("t0", b))
  {
    var x, y := NotExpr(Field("t0", a, Scalar)), Field("t0", b, Scalar);
    var s, t := Wrap([Column("t0", a)]), [Column("t0", b)];
    assert Compile(x.operand) == Some(BoundStatement([Column("t0", a)], [])) && Compile(y) == Some(BoundStatement(t, []));
    assert Compile(x) == Some(BoundStatement([Kw(NOT)] + s, []));
    FieldTree("t0", a);
    FieldTree("t0", b);
    assert Tree(x) == Not(Tree(x.operand));
    ComparisonCompiled(EqOp, x, y);
    assert [LParen] + (([Kw(NOT)] + s) + ([Sym(Eq)] + t + [RParen])) == Wrap([Kw(NOT)] + (s + [Sym(Eq)] + t));
    var none: seq<Value> := [];
    assert none + none == none;
  }

  lemma NegationAtRight(a: string, b: string, f: Value -> Value)
    ensures var e := Binary(EqOp, Field("t0", b, Scalar), NotExpr(Field("t0", a, Scalar))); Compile(e).Some? && ReadsBack(e, f)
  {
    var x, y := NotExpr(Field("t0", a, Scalar)), Field("t0", b, Scalar);
    assert Compile(x.operand).Some? && Compile(y).Some?;
    assert Compile(x).Some?;
    SortedReadsBack(Binary(EqOp, y, x), f);
  }

  /** A negation at the left of a comparison takes the comparison with it; at the right it reads back. */
  lemma NegationUnderComparison(a: string, b: string, f: Value -> Value)
    ensures
      var x, y := NotExpr(Field("t0", a, Scalar)), Field("t0", b, Scalar);
      var e := Binary(EqOp, x, y);
      && !WellSorted(e)
      && Tree(e) == Op(Eq, Not(Col("t0", a)), Col("t0", b))
      && Compile(e).Some?
      && ParseAll(Compile(e).value.command, Compile(e).value.parameters) == Got(Not(Op(Eq, Col("t0", a), Col("t0", b))), [], [])
      && Compile(Binary(EqOp, y, x)).Some? && ReadsBack(Binary(EqOp, y, x), f)
  {
    NegationPrinted(a, b);
    var s, t := [Column("t0", a)], [Column("t0", b)];
    ColumnReads(4, "t0", a);
    ColumnReads(4, "t0", b);
    var none: seq<Value> := [];
    assert none + none == none;
    Compare(Wrap(s), none, Col("t0", a), Eq, t, none, Col("t0", b));
    var test, read := Wrap(s) + [Sym(Eq)] + t, Op(Eq, Col("t0", a), Col("t0", b));
    Lift(5, 7, test, none, read);
    NotOf(test, none, read);
    Lift(7, 8, [Kw(NOT)] + test, none, Not(read));
    MisprintWhole([Kw(NOT)] + test, Not(read));
    NegationAtRight(a, b, f);
  }

  /** A comparison that stands before another comparison cannot be read. */
  lemma TwoComparisonsFail(ts: seq<Token>, ps: seq<Value>, left: Sql, s: Symbol, us: seq<Token>, qs: seq<Value>, right: Sql,
                           rest: seq<Token>, more: seq<Value>)
    requires Continues(Sym(s)) == 5 && Parses(4, ts, ps, left) && Parses(4, us, qs, right)
    requires rest != [] && Continues(rest[0]) == 5
    ensures Parse(Full, 9, ts + ([Sym(s)] + (us + rest)), ps + (qs + more)).Fail?
  {
    Continued(Full, 4, 9, ts, ps, left, [Sym(s)] + (us + rest), qs + more);
    Reads(4, us, qs, right, rest, more);
    TailFails(Full, 9, left, Sym(s), us + rest, qs + more);
  }

  lemma StuckInParentheses(call: seq<Token>, ps: seq<Value>, node: Sql, rest: seq<Token>, more: seq<Value>)
    requires Parses(4, call, ps, node) && Parses(4, [Const(Zero)], [], Lit(Zero))
    requires rest != [] && rest[0].Sym? && Continues(rest[0]) == 5
    ensures ParseAll([LParen] + (call + [Sym(Gt)] + [Const(Zero)] + rest), ps + more).Fail?
  {
    var inner := call + [Sym(Gt)] + [Const(Zero)] + rest;
    TwoComparisonsFail(call, ps, node, Gt, [Const(Zero)], [], Lit(Zero), rest, more);
    assert [] + more == more;
    assert call + ([Sym(Gt)] + ([Const(Zero)] + rest)) == inner;
    var all := [LParen] + inner;
    assert all[1..] == inner;
    assert ParsePrefix(Full, all, ps + more).Fail?;
  }

  lemma ComparisonCompiled(op: BinaryOp, x: Expr, y: Expr)
    requires Compile(x).Some? && Compile(y).Some? && !x.Literal? && !x.Field?
    ensures Compile(Binary(op, x, y))
            == Some(BoundStatement([LParen] + (Compile(x).value.command + ([Sym(SymbolOf(op))] + Compile(y).value.command + [RParen])),
                                   Compile(x).value.parameters + Compile(y).value.parameters))
  {
    Wrapped3(Compile(x).value.command, Sym(SymbolOf(op)), Compile(y).value.command);
  }

  lemma Wrapped3(ts: seq<Token>, t: Token, us: seq<Token>)
    ensures Wrap(ts + [t] + us) == [LParen] + (ts + ([t] + us + [RParen]))
  {
  }

  lemma ContainsStuck(x: Expr, y: Expr, rest: seq<Token>, more: seq<Value>)
    requires !(x.Field? && x.kind == JsonLike) && Compile(x).Some? && Compile(y).Some?
    requires WellSorted(x) && WellSorted(y) && Level(x) <= 5
    requires rest != [] && rest[0].Sym? && Continues(rest[0]) == 5
    ensures var b := Compile(Contains(x, y)).value; ParseAll([LParen] + (b.command + rest), b.parameters + more).Fail?
  {
    var id := (v: Value) => v;
    var haystack, needle := Compile(x).value, Compile(y).value;
    ReadsAt(5, x, id);
    Reads9(y, id);
    PositionReads(needle, haystack, id, Tree(y), Tree(x));
    var call, node := PositionStatement(needle, haystack), PositionOf(Cast(Tree(y), TextType), Tree(x));
    Looser(0, 4, call, id, node);
    IdentityValues(call.parameters);
    ConstReads(Zero, id);
    Looser(0, 4, BoundStatement([Const(Zero)], []), id, Lit(Zero));
    StuckInParentheses(call.command, call.parameters, MapTree(id, node), rest, more);
    ContainsCompiled(x, y);
    assert call.parameters + [] == call.parameters;
  }

  lemma ComparedContains(op: BinaryOp, x: Expr, y: Expr, z: Expr)
    requires !(x.Field? && x.kind == JsonLike) && Compile(x).Some? && Compile(y).Some? && Compile(z).Some?
    ensures var b, c := Compile(Contains(x, y)).value, Compile(z).value;
      Compile(Binary(op, Contains(x, y), z))
      == Some(BoundStatement([LParen] + (b.command + ([Sym(SymbolOf(op))] + c.command + [RParen])), b.parameters + c.parameters))
  {
    ContainsCompiled(x, y);
    ComparisonCompiled(op, Contains(x, y), z);
  }

  /** A text `contains` compared with anything is not SQL: PostgreSQL's comparisons do not associate. */
  lemma TextContainsUnderComparison(op: BinaryOp, x: Expr, y: Expr, z: Expr)
    requires OperandLevel(op) == 4 && WellSorted(Contains(x, y)) && !(x.Field? && x.kind == JsonLike)
    requires Compile(x).Some? && Compile(y).Some? && Compile(z).Some?
    ensures var e := Binary(op, Contains(x, y), z);
      !WellSorted(e) && Compile(e).Some? && ParseAll(Compile(e).value.command, Compile(e).value.parameters).Fail?
  {
    var rest := [Sym(SymbolOf(op))] + Compile(z).value.command + [RParen];
    ComparedContains(op, x, y, z);
    ContainsStuck(x, y, rest, Compile(z).value.parameters);
  }

  lemma IdentityValues(ps: seq<Value>)
    ensures MapValues((v: Value) => v, ps) == ps
  {
  }
}
