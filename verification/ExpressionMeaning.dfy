/**
 What a query expression means for a row, on its own terms, and that the executed text means it. `bind` gives the value
 a literal is executed with.
 */
module ExpressionMeaning {
  import opened Wrappers
  import opened SqlSyntax
  import opened SortKeys
  import opened SqlMeaning
  import opened ExpressionCompiler
  import opened CompilerCorrectness
  import opened CompiledQuery
  import JsonPointer

  type Binding = Value -> Value

  /** Literals compared with a field of this kind are wrapped for it. */
  function For(kind: Kind, bind: Binding): Binding {
    match kind
    case Scalar => bind
    case JsonLike => (v: Value) => bind(Marked(Jsonb, v))
    case Bytes => (v: Value) => bind(Marked(Base64, v))
  }

  function Yes(b: bool): Cell { if b then Some(1.0) else Some(0.0) }

  /** Neither operand is NULL, and the operator is what its name says. */
  function Computed(db: Database, op: BinaryOp, x: Cell, y: Cell): Cell {
    if x.None? || y.None? then None
    else
      var a, b := x.value, y.value;
      match op
      case EqOp => Yes(a == b)
      case NeOp => Yes(a != b)
      case LtOp => Yes(a < b)
      case LteOp => Yes(a <= b)
      case GtOp => Yes(b < a)
      case GteOp => Yes(b <= a)
      case AddOp => Some(a + b)
      case SubtractOp => Some(a - b)
      case MultiplyOp => Some(a * b)
      case DivideOp => db.divide(a, b)
  }

  /** A condition: NULL is neither true nor false. */
  predicate IsTrue(c: Cell) { c.Some? && c.value != 0.0 }

  predicate IsFalse(c: Cell) { c.Some? && c.value == 0.0 }

  /** False if one is false, true if all are, NULL otherwise; one condition stands for itself. */
  function Conjoined(cs: seq<Cell>): Cell {
    if |cs| == 1 then cs[0]
    else if exists i :: 0 <= i < |cs| && IsFalse(cs[i]) then Yes(false)
    else if forall i :: 0 <= i < |cs| ==> IsTrue(cs[i]) then Yes(true)
    else None
  }

  function Disjoined(cs: seq<Cell>): Cell {
    if |cs| == 1 then cs[0]
    else if exists i :: 0 <= i < |cs| && IsTrue(cs[i]) then Yes(true)
    else if forall i :: 0 <= i < |cs| ==> IsFalse(cs[i]) then Yes(false)
    else None
  }

  /** True if a candidate equals the value, NULL if one that might is NULL, false otherwise; `negated` swaps true and false. */
  function Membership(x: Cell, candidates: seq<Cell>, negated: bool): Cell {
    if x.Some? && x in candidates then Yes(!negated)
    else if candidates != [] && (x.None? || None in candidates) then None
    else Yes(negated)
  }

  /** `x >= start` or `x > start`, and the like for the end, for the bounds that are there. */
  function Within(x: Cell, start: Option<Cell>, end: Option<Cell>, includeStart: bool, includeEnd: bool): Cell {
    var lower := match start case None => [] case Some(c) =>
      [if x.None? || c.None? then None else Yes(if includeStart then c.value <= x.value else c.value < x.value)];
    var upper := match end case None => [] case Some(c) =>
      [if x.None? || c.None? then None else Yes(if includeEnd then x.value <= c.value else x.value < c.value)];
    Conjoined(lower + upper)
  }

  function Summary(fn: AggregateFn, xs: seq<real>): Cell {
    if fn == CountFn then Some(|xs| as real)
    else if xs == [] || fn == PercentileFn then None
    else if fn == SumFn then Some(Total(xs))
    else if fn == AvgFn then Some(Total(xs) / |xs| as real)
    else if fn == MinFn then Some(Smallest(xs))
    else Some(Largest(xs))
  }

  function Strict(f: (real, real) -> Cell, x: Cell, y: Cell): Cell {
    if x.None? || y.None? then None else f(x.value, y.value)
  }

  function Meaning(e: Expr, row: Row, bind: Binding): Cell
    decreases e, 0, 0
  {
    match e
    case Field(alias, column, _) => row.column(alias, column)
    case Literal(v) => row.db.value(bind(v))
    case Parameter => None
    case Point(longitude, latitude) =>
      var point := row.db.call(MakePoint, [row.db.value(bind(longitude)), row.db.value(bind(latitude))]);
      row.db.cast(GeographyType, row.db.call(SetSrid, [point, row.db.constant(Srid)]))
    case NotExpr(x) => var c := Meaning(x, row, bind); if c.None? then None else Yes(c.value == 0.0)
    case Negate(x) => var c := Meaning(x, row, bind); if c.None? then None else Some(0.0 - c.value)
    case And(xs) => Conjoined(Meanings(xs, row, bind))
    case Or(xs) => Disjoined(Meanings(xs, row, bind))
    case Binary(op, x, y) => Computed(row.db, op, Operand(x, y, row, bind), Operand(y, x, row, bind))
    case Contains(x, y) =>
      if x.Field? && x.kind == JsonLike then
        Strict(row.db.contains, Meaning(x, row, bind), row.db.cast(JsonbType, Meaning(y, row, For(JsonLike, bind))))
      else
        var text, sought := Meaning(x, row, bind), row.db.cast(TextType, Meaning(y, row, bind));
        if text.None? || sought.None? then None else Yes(row.db.position(sought.value, text.value) > 0.0)
    case IsNull(x, expected) => Yes(Meaning(x, row, bind).None? == expected)
    case In(x, xs, negated) => Membership(Meaning(x, row, bind), Meanings(xs, row, if x.Field? then For(x.kind, bind) else bind), negated)
    case TimestampRange(x, start, end, includeStart, includeEnd) =>
      Within(Meaning(x, row, bind), MeaningOption(start, row, bind), MeaningOption(end, row, bind), includeStart, includeEnd)
    case DocumentPath(x, pointer) =>
      (match JsonPointer.Segments(pointer)
       case None => None
       case Some(segments) =>
         Strict(row.db.extract, Meaning(x, row, bind), row.db.cast(TextArrayType, row.db.value(bind(Path(segments))))))
    case FullText(xs, query) =>
      var words := row.db.call(ConcatWs, [row.db.constant(Space)] + Meanings(xs, row, bind));
      Strict(row.db.matches, row.db.call(ToTsVector, [row.db.constant(SimpleConfig), words]),
             row.db.call(WebSearch, [row.db.constant(SimpleConfig), row.db.value(bind(query))]))
    case Distance(x, y) => row.db.call(StDistance, [Meaning(x, row, bind), Meaning(y, row, bind)])
    case DistanceWithin(x, y, d) => row.db.call(StDWithin, [Meaning(x, row, bind), Meaning(y, row, bind), row.db.value(bind(d))])
    case CountAll => Some(|row.group| as real)
    case Aggregate(fn, x, distinct) => var xs := Collected(x, row.group, bind); Summary(fn, if distinct then Once(xs) else xs)
  }

  /** An operand of a comparison or of arithmetic: a literal beside a field is bound for that field. */
  function Operand(x: Expr, other: Expr, row: Row, bind: Binding): Cell
    decreases x, 1, 0
  {
    Meaning(x, row, if x.Literal? && other.Field? then For(other.kind, bind) else bind)
  }

  function Meanings(es: seq<Expr>, row: Row, bind: Binding): (cs: seq<Cell>)
    ensures |cs| == |es|
    decreases es, 0, 0
  {
    if es == [] then [] else [Meaning(es[0], row, bind)] + Meanings(es[1..], row, bind)
  }

  function MeaningOption(e: Option<Expr>, row: Row, bind: Binding): (c: Option<Cell>)
    decreases e, 0, 0
  {
    match e case None => None case Some(x) => Some(Meaning(x, row, bind))
  }

  /** The values of an expression over a group, without NULL. */
  function Collected(e: Expr, rows: seq<Row>, bind: Binding): seq<real>
    decreases e, 1, |rows|
  {
    if rows == [] then []
    else
      var c := Meaning(e, rows[0], bind);
      (if c.None? then [] else [c.value]) + Collected(e, rows[1..], bind)
  }

  // --- The tree means the expression ---

  /** The tree, with its values bound, evaluates to the expression's meaning, for every row. */
  ghost predicate TreeMeans(e: Expr, bind: Binding) { forall row: Row :: Eval(MapTree(bind, Tree(e)), row) == Meaning(e, row, bind) }

  ghost predicate TreesMean(es: seq<Expr>, bind: Binding) { forall i :: 0 <= i < |es| ==> TreeMeans(es[i], bind) }

  lemma {:induction false} EvalsMean(es: seq<Expr>, row: Row, bind: Binding)
    requires TreesMean(es, bind)
    ensures Evals(MapTrees(bind, Trees(es)), row) == Meanings(es, row, bind)
  {
    if es != [] {
      assert TreeMeans(es[0], bind);
      forall i | 0 <= i < |es[1..]| ensures TreeMeans(es[1..][i], bind) { assert es[1..][i] == es[i + 1]; }
      EvalsMean(es[1..], row, bind);
      assert MapTrees(bind, Trees(es))[1..] == MapTrees(bind, Trees(es)[1..]);
    }
  }

  lemma {:induction false} MeaningAt(es: seq<Expr>, row: Row, bind: Binding, i: nat)
    requires i < |es|
    ensures Meanings(es, row, bind)[i] == Meaning(es[i], row, bind)
  {
    if i > 0 { MeaningAt(es[1..], row, bind, i - 1); }
  }

  lemma {:induction false} AcrossMeans(e: Expr, rows: seq<Row>, bind: Binding)
    requires TreeMeans(e, bind)
    ensures Across(MapTree(bind, Tree(e)), rows) == Collected(e, rows, bind)
  {
    if rows != [] { AcrossMeans(e, rows[1..], bind); }
  }

  lemma {:induction false} EvalAt(ts: seq<Sql>, f: Binding, row: Row, i: nat)
    requires i < |ts|
    ensures Evals(MapTrees(f, ts), row)[i] == Eval(MapTree(f, ts[i]), row)
  {
    assert MapTrees(f, ts)[1..] == MapTrees(f, ts[1..]);
    if i > 0 { EvalAt(ts[1..], f, row, i - 1); }
  }

  lemma EvalsPush(ts: seq<Sql>, f: Binding, row: Row)
    requires ts != []
    ensures var n := |ts| - 1; Evals(MapTrees(f, ts), row) == Evals(MapTrees(f, ts[..n]), row) + [Eval(MapTree(f, ts[n]), row)]
  {
    var n := |ts| - 1;
    var left, right := Evals(MapTrees(f, ts), row), Evals(MapTrees(f, ts[..n]), row) + [Eval(MapTree(f, ts[n]), row)];
    forall i | 0 <= i < |ts| ensures left[i] == right[i] {
      EvalAt(ts, f, row, i);
      if i < n { EvalAt(ts[..n], f, row, i); }
    }
  }

  lemma ConjoinedPush(cs: seq<Cell>, c: Cell)
    requires cs != []
    ensures Conjoined(cs + [c]) == AsCell(AndOf(AsTruth(Conjoined(cs)), AsTruth(c)))
  {
    var all, n := cs + [c], |cs|;
    assert all[n] == c && forall i :: 0 <= i < n ==> all[i] == cs[i];
    if i :| 0 <= i < n && IsFalse(cs[i]) { assert IsFalse(all[i]); }
  }

  lemma DisjoinedPush(cs: seq<Cell>, c: Cell)
    requires cs != []
    ensures Disjoined(cs + [c]) == AsCell(OrOf(AsTruth(Disjoined(cs)), AsTruth(c)))
  {
    var all, n := cs + [c], |cs|;
    assert all[n] == c && forall i :: 0 <= i < n ==> all[i] == cs[i];
    if i :| 0 <= i < n && IsTrue(cs[i]) { assert IsTrue(all[i]); }
  }

  lemma {:induction false} FoldedAnd(ts: seq<Sql>, f: Binding, row: Row)
    ensures Eval(MapTree(f, Folded(8, ts)), row) == Conjoined(Evals(MapTrees(f, ts), row))
  {
    if |ts| == 1 {
      EvalAt(ts, f, row, 0);
    } else if |ts| > 1 {
      var n := |ts| - 1;
      FoldedAnd(ts[..n], f, row);
      EvalsPush(ts, f, row);
      ConjoinedPush(Evals(MapTrees(f, ts[..n]), row), Eval(MapTree(f, ts[n]), row));
    }
  }

  lemma {:induction false} FoldedOr(ts: seq<Sql>, f: Binding, row: Row)
    ensures Eval(MapTree(f, Folded(9, ts)), row) == Disjoined(Evals(MapTrees(f, ts), row))
  {
    if |ts| == 1 {
      EvalAt(ts, f, row, 0);
    } else if |ts| > 1 {
      var n := |ts| - 1;
      FoldedOr(ts[..n], f, row);
      EvalsPush(ts, f, row);
      DisjoinedPush(Evals(MapTrees(f, ts[..n]), row), Eval(MapTree(f, ts[n]), row));
    }
  }

  /** IN is the disjunction of comparisons. */
  lemma {:induction false} AmongIsMembership(x: Cell, items: seq<Cell>, negated: bool)
    ensures var found := Among(x, items); AsCell(if negated then NotOf(found) else found) == Membership(x, items, negated)
  {
    if items != [] {
      AmongIsMembership(x, items[1..], negated);
      assert items == [items[0]] + items[1..];
    }
  }

  // --- Expression by expression ---

  /** Encoded for a field and then bound is bound for the field. */
  lemma EncodedFor(t: Sql, kind: Kind, bind: Binding)
    ensures MapTree(bind, MapTree(Encoder(kind), t)) == MapTree(For(kind, bind), t)
  {
    TreeTwice(bind, Encoder(kind), For(kind, bind), t);
  }

  lemma {:induction false} CandidatesFor(x: Expr, ts: seq<Sql>, bind: Binding)
    ensures MapTrees(bind, AdaptTrees(x, ts)) == MapTrees(if x.Field? then For(x.kind, bind) else bind, ts)
  {
    if ts != [] {
      CandidatesFor(x, ts[1..], bind);
      if x.Field? { EncodedFor(ts[0], x.kind, bind); }
      assert AdaptTrees(x, ts)[1..] == AdaptTrees(x, ts[1..]);
    }
  }

  lemma OperandMeans(x: Expr, other: Expr, row: Row, bind: Binding)
    requires TreeMeans(x, if x.Literal? && other.Field? then For(other.kind, bind) else bind)
    ensures Eval(MapTree(bind, AdaptTree(other, x, Tree(x))), row) == Operand(x, other, row, bind)
  {
    if x.Literal? && other.Field? { EncodedFor(Tree(x), other.kind, bind); }
  }

  lemma BinaryMeans(e: Expr, row: Row, bind: Binding)
    requires e.Binary?
    requires TreeMeans(e.left, if e.left.Literal? && e.right.Field? then For(e.right.kind, bind) else bind)
    requires TreeMeans(e.right, if e.right.Literal? && e.left.Field? then For(e.left.kind, bind) else bind)
    ensures Eval(MapTree(bind, Tree(e)), row) == Meaning(e, row, bind)
  {
    var t, u := AdaptTree(e.right, e.left, Tree(e.left)), AdaptTree(e.left, e.right, Tree(e.right));
    OperandMeans(e.left, e.right, row, bind);
    OperandMeans(e.right, e.left, row, bind);
    OperatorMeans(row.db, e.op, Eval(MapTree(bind, t), row), Eval(MapTree(bind, u), row));
    assert MapTree(bind, Tree(e)) == Op(SymbolOf(e.op), MapTree(bind, t), MapTree(bind, u));
  }

  /** The printed symbol does what the operator's name says. */
  lemma OperatorMeans(db: Database, op: BinaryOp, x: Cell, y: Cell)
    ensures Operate(db, SymbolOf(op), x, y) == Computed(db, op, x, y)
  {
  }

  lemma JsonContainsMeans(e: Expr, row: Row, bind: Binding)
    requires e.Contains? && e.left.Field? && e.left.kind == JsonLike && TreeMeans(e.left, bind) && TreeMeans(e.right, For(JsonLike, bind))
    ensures Eval(MapTree(bind, Tree(e)), row) == Meaning(e, row, bind)
  {
    var t, u := Tree(e.left), Tree(e.right);
    EncodedFor(u, JsonLike, bind);
    var cast := Cast(MapTree(Encoder(JsonLike), u), JsonbType);
    assert Tree(e) == Op(JsonContains, t, cast);
    assert MapTree(bind, cast) == Cast(MapTree(For(JsonLike, bind), u), JsonbType);
    assert MapTree(bind, Tree(e)) == Op(JsonContains, MapTree(bind, t), MapTree(bind, cast));
  }

  lemma PositionMeans(t: Sql, u: Sql, row: Row, bind: Binding)
    ensures Eval(MapTree(bind, PositionOf(Cast(u, TextType), t)), row)
            == Located(row.db, row.db.cast(TextType, Eval(MapTree(bind, u), row)), Eval(MapTree(bind, t), row))
  {
    var sought := Cast(MapTree(bind, u), TextType);
    CastMapped(u, TextType, bind);
    PositionMapped(Cast(u, TextType), t, bind);
    assert Eval(sought, row) == row.db.cast(TextType, Eval(MapTree(bind, u), row));
    PositionEval(sought, MapTree(bind, t), row);
  }

  lemma PositionMapped(needle: Sql, haystack: Sql, bind: Binding)
    ensures MapTree(bind, PositionOf(needle, haystack)) == PositionOf(MapTree(bind, needle), MapTree(bind, haystack))
  {
  }

  lemma PositionEval(needle: Sql, haystack: Sql, row: Row)
    ensures Eval(PositionOf(needle, haystack), row) == Located(row.db, Eval(needle, row), Eval(haystack, row))
  {
  }

  lemma TextContainsMeans(e: Expr, row: Row, bind: Binding)
    requires e.Contains? && !(e.left.Field? && e.left.kind == JsonLike) && TreeMeans(e.left, bind) && TreeMeans(e.right, bind)
    ensures Eval(MapTree(bind, Tree(e)), row) == Meaning(e, row, bind)
  {
    PositionMeans(Tree(e.left), Tree(e.right), row, bind);
    var position := PositionOf(Cast(Tree(e.right), TextType), Tree(e.left));
    assert Tree(e) == Op(Gt, position, Lit(Zero));
    assert MapTree(bind, Tree(e)) == Op(Gt, MapTree(bind, position), Lit(Zero));
    assert Eval(Lit(Zero), row) == Some(0.0);
  }

  lemma MemberMapped(x: Sql, items: seq<Sql>, negated: bool, bind: Binding)
    ensures MapTree(bind, Member(x, items, negated)) == Member(MapTree(bind, x), MapTrees(bind, items), negated)
  {
  }

  lemma InMeans(e: Expr, row: Row, bind: Binding)
    requires e.In? && TreeMeans(e.operand, bind) && TreesMean(e.candidates, if e.operand.Field? then For(e.operand.kind, bind) else bind)
    ensures Eval(MapTree(bind, Tree(e)), row) == Meaning(e, row, bind)
  {
    var inner := if e.operand.Field? then For(e.operand.kind, bind) else bind;
    CandidatesFor(e.operand, Trees(e.candidates), bind);
    EvalsMean(e.candidates, row, inner);
    AmongIsMembership(Meaning(e.operand, row, bind), Meanings(e.candidates, row, inner), e.negated);
    MemberMapped(Tree(e.operand), AdaptTrees(e.operand, Trees(e.candidates)), e.negated, bind);
  }

  /** What a bound of a range says. */
  function Bounded(a: Cell, b: Cell, s: Symbol): Cell {
    if a.None? || b.None? then None
    else Yes(if s == Gt then b.value < a.value else if s == Ge then b.value <= a.value else if s == Lt then a.value < b.value else a.value <= b.value)
  }

  lemma BoundMeans(x: Expr, y: Expr, s: Symbol, row: Row, bind: Binding)
    requires s in {Gt, Ge, Lt, Le} && TreeMeans(x, bind) && TreeMeans(y, bind)
    ensures Eval(MapTree(bind, Op(s, Tree(x), Tree(y))), row) == Bounded(Meaning(x, row, bind), Meaning(y, row, bind), s)
  {
    assert MapTree(bind, Op(s, Tree(x), Tree(y))) == Op(s, MapTree(bind, Tree(x)), MapTree(bind, Tree(y)));
  }

  function BoundCells(x: Cell, bound: Option<Cell>, s: Symbol): seq<Cell> {
    match bound case None => [] case Some(c) => [Bounded(x, c, s)]
  }

  lemma BoundEvals(x: Expr, y: Option<Expr>, s: Symbol, row: Row, bind: Binding)
    requires s in {Gt, Ge, Lt, Le} && (y.Some? ==> TreeMeans(x, bind) && TreeMeans(y.value, bind))
    ensures Evals(MapTrees(bind, RangeTree(Tree(x), TreeOption(y), s)), row) == BoundCells(Meaning(x, row, bind), MeaningOption(y, row, bind), s)
  {
    if y.Some? {
      BoundMeans(x, y.value, s, row, bind);
      var t := Op(s, Tree(x), Tree(y.value));
      EvalAt([t], bind, row, 0);
    }
  }

  lemma EvalsAppend(ts: seq<Sql>, us: seq<Sql>, f: Binding, row: Row)
    ensures Evals(MapTrees(f, ts + us), row) == Evals(MapTrees(f, ts), row) + Evals(MapTrees(f, us), row)
  {
    var left, right := Evals(MapTrees(f, ts + us), row), Evals(MapTrees(f, ts), row) + Evals(MapTrees(f, us), row);
    forall i | 0 <= i < |ts + us| ensures left[i] == right[i] {
      EvalAt(ts + us, f, row, i);
      if i < |ts| { EvalAt(ts, f, row, i); } else { EvalAt(us, f, row, i - |ts|); }
    }
  }

  lemma WithinIsBoth(x: Cell, start: Option<Cell>, end: Option<Cell>, includeStart: bool, includeEnd: bool)
    ensures Within(x, start, end, includeStart, includeEnd)
            == Conjoined(BoundCells(x, start, if includeStart then Ge else Gt) + BoundCells(x, end, if includeEnd then Le else Lt))
  {
  }

  lemma RangeMeans(e: Expr, row: Row, bind: Binding)
    requires e.TimestampRange? && (e.start.Some? || e.end.Some? ==> TreeMeans(e.operand, bind))
    requires (e.start.Some? ==> TreeMeans(e.start.value, bind)) && (e.end.Some? ==> TreeMeans(e.end.value, bind))
    ensures Eval(MapTree(bind, Tree(e)), row) == Meaning(e, row, bind)
  {
    var from, to := if e.includeStart then Ge else Gt, if e.includeEnd then Le else Lt;
    var low, high := RangeTree(Tree(e.operand), TreeOption(e.start), from), RangeTree(Tree(e.operand), TreeOption(e.end), to);
    FoldedAnd(low + high, bind, row);
    EvalsAppend(low, high, bind, row);
    BoundEvals(e.operand, e.start, from, row, bind);
    BoundEvals(e.operand, e.end, to, row, bind);
    WithinIsBoth(Meaning(e.operand, row, bind), MeaningOption(e.start, row, bind), MeaningOption(e.end, row, bind), e.includeStart, e.includeEnd);
  }

  lemma SummaryIsAggregated(fn: AggregateFn, xs: seq<real>)
    requires fn != PercentileFn
    ensures IsAggregate(FnOf(fn)) && Aggregated(FnOf(fn), xs) == Summary(fn, xs)
  {
  }

  lemma AggregateMeans(e: Expr, row: Row, bind: Binding)
    requires e.Aggregate? && e.fn != PercentileFn && TreeMeans(e.operand, bind)
    ensures Eval(MapTree(bind, Tree(e)), row) == Meaning(e, row, bind)
  {
    AcrossMeans(e.operand, row.group, bind);
    var t, u := Tree(e.operand), MapTree(bind, Tree(e.operand));
    assert MapTrees(bind, [t]) == [u];
    assert Tree(e) == Call(FnOf(e.fn), e.distinct, [t]);
    CallMapped(FnOf(e.fn), e.distinct, [t], bind);
    var xs := Across(u, row.group);
    SummaryIsAggregated(e.fn, if e.distinct then Once(xs) else xs);
  }

  lemma CallMapped(fn: Function, distinct: bool, args: seq<Sql>, bind: Binding)
    ensures MapTree(bind, Call(fn, distinct, args)) == Call(fn, distinct, MapTrees(bind, args))
  {
  }

  /** A call of a function that is no aggregate, on the values of its arguments. */
  lemma CallMeans(fn: Function, args: seq<Sql>, cs: seq<Cell>, row: Row, bind: Binding)
    requires !IsAggregate(fn) && Evals(MapTrees(bind, args), row) == cs
    ensures Eval(MapTree(bind, Call(fn, false, args)), row) == row.db.call(fn, cs)
  {
    CallMapped(fn, false, args, bind);
  }

  lemma TwoEvals(t: Sql, u: Sql, row: Row, bind: Binding)
    ensures Evals(MapTrees(bind, [t, u]), row) == [Eval(MapTree(bind, t), row), Eval(MapTree(bind, u), row)]
  {
    EvalAt([t, u], bind, row, 0);
    EvalAt([t, u], bind, row, 1);
  }

  lemma PointMeans(e: Expr, row: Row, bind: Binding)
    requires e.Point?
    ensures Eval(MapTree(bind, Tree(e)), row) == Meaning(e, row, bind)
  {
    var place, reference := Call(MakePoint, false, [Val(e.longitude), Val(e.latitude)]), Lit(Srid);
    TwoEvals(Val(e.longitude), Val(e.latitude), row, bind);
    CallMeans(MakePoint, place.args, [row.db.value(bind(e.longitude)), row.db.value(bind(e.latitude))], row, bind);
    TwoEvals(place, reference, row, bind);
    CallMeans(SetSrid, [place, reference], [Eval(MapTree(bind, place), row), row.db.constant(Srid)], row, bind);
    CastMapped(Call(SetSrid, false, [place, reference]), GeographyType, bind);
  }

  lemma CastMapped(t: Sql, ty: SqlType, bind: Binding)
    ensures MapTree(bind, Cast(t, ty)) == Cast(MapTree(bind, t), ty)
  {
  }

  lemma DistanceMeans(e: Expr, row: Row, bind: Binding)
    requires e.Distance? && TreeMeans(e.left, bind) && TreeMeans(e.right, bind)
    ensures Eval(MapTree(bind, Tree(e)), row) == Meaning(e, row, bind)
  {
    TwoEvals(Tree(e.left), Tree(e.right), row, bind);
    CallMeans(StDistance, [Tree(e.left), Tree(e.right)], [Meaning(e.left, row, bind), Meaning(e.right, row, bind)], row, bind);
  }

  lemma WithinDistanceMeans(e: Expr, row: Row, bind: Binding)
    requires e.DistanceWithin? && TreeMeans(e.left, bind) && TreeMeans(e.right, bind)
    ensures Eval(MapTree(bind, Tree(e)), row) == Meaning(e, row, bind)
  {
    var args := [Tree(e.left), Tree(e.right), Val(e.distance)];
    EvalAt(args, bind, row, 0);
    EvalAt(args, bind, row, 1);
    EvalAt(args, bind, row, 2);
    CallMeans(StDWithin, args, [Meaning(e.left, row, bind), Meaning(e.right, row, bind), row.db.value(bind(e.distance))], row, bind);
  }

  lemma PathMeans(e: Expr, row: Row, bind: Binding)
    requires e.DocumentPath? && JsonPointer.Segments(e.pointer).Some? && TreeMeans(e.document, bind)
    ensures Eval(MapTree(bind, Tree(e)), row) == Meaning(e, row, bind)
  {
    var path := Val(Path(JsonPointer.Segments(e.pointer).value));
    CastMapped(path, TextArrayType, bind);
    assert MapTree(bind, path) == Val(bind(path.value));
    assert Eval(Val(bind(path.value)), row) == row.db.value(bind(path.value));
    assert Eval(MapTree(bind, Cast(path, TextArrayType)), row) == row.db.cast(TextArrayType, row.db.value(bind(path.value)));
    assert Tree(e) == Op(JsonPath, Tree(e.document), Cast(path, TextArrayType));
    assert MapTree(bind, Tree(e)) == Op(JsonPath, MapTree(bind, Tree(e.document)), MapTree(bind, Cast(path, TextArrayType)));
  }

  lemma WordsMean(xs: seq<Expr>, row: Row, bind: Binding)
    requires TreesMean(xs, bind)
    ensures Eval(MapTree(bind, Call(ConcatWs, false, [Lit(Space)] + Trees(xs))), row)
            == row.db.call(ConcatWs, [row.db.constant(Space)] + Meanings(xs, row, bind))
  {
    EvalsMean(xs, row, bind);
    EvalsAppend([Lit(Space)], Trees(xs), bind, row);
    EvalAt([Lit(Space)], bind, row, 0);
    CallMeans(ConcatWs, [Lit(Space)] + Trees(xs), [row.db.constant(Space)] + Meanings(xs, row, bind), row, bind);
  }

  lemma FullTextMeans(e: Expr, row: Row, bind: Binding)
    requires e.FullText? && TreesMean(e.fields, bind)
    ensures Eval(MapTree(bind, Tree(e)), row) == Meaning(e, row, bind)
  {
    var words := Call(ConcatWs, false, [Lit(Space)] + Trees(e.fields));
    var text, query := Call(ToTsVector, false, [Lit(SimpleConfig), words]), Call(WebSearch, false, [Lit(SimpleConfig), Val(e.query)]);
    WordsMean(e.fields, row, bind);
    TwoEvals(Lit(SimpleConfig), words, row, bind);
    CallMeans(ToTsVector, [Lit(SimpleConfig), words], [row.db.constant(SimpleConfig), Eval(MapTree(bind, words), row)], row, bind);
    TwoEvals(Lit(SimpleConfig), Val(e.query), row, bind);
    CallMeans(WebSearch, [Lit(SimpleConfig), Val(e.query)], [row.db.constant(SimpleConfig), row.db.value(bind(e.query))], row, bind);
    assert MapTree(bind, Tree(e)) == Op(TextMatch, MapTree(bind, text), MapTree(bind, query));
  }

  lemma UnaryMeans(e: Expr, row: Row, bind: Binding)
    requires (e.NotExpr? || e.Negate? || e.IsNull?) && TreeMeans(e.operand, bind)
    ensures Eval(MapTree(bind, Tree(e)), row) == Meaning(e, row, bind)
  {
    var u := MapTree(bind, Tree(e.operand));
    match e
    case NotExpr(_) => assert MapTree(bind, Tree(e)) == Not(u);
    case Negate(_) => assert MapTree(bind, Tree(e)) == Negation(u);
    case IsNull(_, expected) => assert MapTree(bind, Tree(e)) == NullTest(u, !expected);
  }

  lemma ManyMean(e: Expr, row: Row, bind: Binding)
    requires (e.And? || e.Or?) && TreesMean(e.operands, bind)
    ensures Eval(MapTree(bind, Tree(e)), row) == Meaning(e, row, bind)
  {
    EvalsMean(e.operands, row, bind);
    if e.And? { FoldedAnd(Trees(e.operands), bind, row); } else { FoldedOr(Trees(e.operands), bind, row); }
  }

  /** For every expression that compiles: the tree of its text evaluates to what the expression means, on every row. */
  lemma {:induction false} TreeIsMeaning(e: Expr, bind: Binding)
    requires Compile(e).Some?
    ensures TreeMeans(e, bind)
    decreases e, 1
  {
    ChildrenMean(e, bind);
    forall row: Row ensures Eval(MapTree(bind, Tree(e)), row) == Meaning(e, row, bind) {
      if e.NotExpr? || e.Negate? || e.IsNull? {
        UnaryMeans(e, row, bind);
      } else if e.And? || e.Or? {
        ManyMean(e, row, bind);
      } else if e.Binary? || e.Contains? || e.In? || e.TimestampRange? {
        ConditionMeans(e, row, bind);
      } else {
        TermMeans(e, row, bind);
      }
    }
  }

  lemma ConditionMeans(e: Expr, row: Row, bind: Binding)
    requires PartsMean(e, bind) && (e.Binary? || e.Contains? || e.In? || e.TimestampRange?)
    ensures Eval(MapTree(bind, Tree(e)), row) == Meaning(e, row, bind)
  {
    match e
    case Binary(_, _, _) => BinaryMeans(e, row, bind);
    case Contains(x, _) => if x.Field? && x.kind == JsonLike { JsonContainsMeans(e, row, bind); } else { TextContainsMeans(e, row, bind); }
    case In(_, _, _) => InMeans(e, row, bind);
    case TimestampRange(_, _, _, _, _) => RangeMeans(e, row, bind);
  }

  lemma TermMeans(e: Expr, row: Row, bind: Binding)
    requires PartsMean(e, bind) && Compile(e).Some?
    requires e.Field? || e.Literal? || e.Point? || e.DocumentPath? || e.FullText? || e.Distance? || e.DistanceWithin? || e.CountAll? || e.Aggregate?
    ensures Eval(MapTree(bind, Tree(e)), row) == Meaning(e, row, bind)
  {
    match e
    case Point(_, _) => PointMeans(e, row, bind);
    case DocumentPath(_, _) => PathMeans(e, row, bind);
    case FullText(_, _) => FullTextMeans(e, row, bind);
    case Distance(_, _) => DistanceMeans(e, row, bind);
    case DistanceWithin(_, _, _) => WithinDistanceMeans(e, row, bind);
    case Aggregate(_, _, _) => AggregateMeans(e, row, bind);
    case _ =>
  }

  /** What an expression's parts are bound with. */
  ghost predicate PartsMean(e: Expr, bind: Binding) {
    match e
    case NotExpr(x) => TreeMeans(x, bind)
    case Negate(x) => TreeMeans(x, bind)
    case IsNull(x, _) => TreeMeans(x, bind)
    case And(xs) => TreesMean(xs, bind)
    case Or(xs) => TreesMean(xs, bind)
    case Binary(_, x, y) =>
      && TreeMeans(x, if x.Literal? && y.Field? then For(y.kind, bind) else bind)
      && TreeMeans(y, if y.Literal? && x.Field? then For(x.kind, bind) else bind)
    case Contains(x, y) => TreeMeans(x, bind) && TreeMeans(y, if x.Field? && x.kind == JsonLike then For(JsonLike, bind) else bind)
    case In(x, xs, _) => TreeMeans(x, bind) && TreesMean(xs, if x.Field? then For(x.kind, bind) else bind)
    case TimestampRange(x, start, end, _, _) =>
      TreeMeans(x, bind) && (start.Some? ==> TreeMeans(start.value, bind)) && (end.Some? ==> TreeMeans(end.value, bind))
    case DocumentPath(x, _) => TreeMeans(x, bind)
    case FullText(xs, _) => TreesMean(xs, bind)
    case Distance(x, y) => TreeMeans(x, bind) && TreeMeans(y, bind)
    case DistanceWithin(x, y, _) => TreeMeans(x, bind) && TreeMeans(y, bind)
    case Aggregate(_, x, _) => TreeMeans(x, bind)
    case _ => true
  }

  lemma {:induction false} ChildrenMean(e: Expr, bind: Binding)
    requires Compile(e).Some?
    ensures PartsMean(e, bind)
    decreases e, 0, 1
  {
    match e
    case Binary(_, _, _) => ConditionParts(e, bind);
    case Contains(_, _) => ConditionParts(e, bind);
    case In(_, _, _) => ConditionParts(e, bind);
    case TimestampRange(_, _, _, _, _) => ConditionParts(e, bind);
    case NotExpr(x) => TreeIsMeaning(x, bind);
    case Negate(x) => TreeIsMeaning(x, bind);
    case IsNull(x, _) => TreeIsMeaning(x, bind);
    case And(xs) => TreesAreMeanings(xs, bind);
    case Or(xs) => TreesAreMeanings(xs, bind);
    case DocumentPath(x, _) => TreeIsMeaning(x, bind);
    case FullText(xs, _) => TreesAreMeanings(xs, bind);
    case Distance(x, y) => TreeIsMeaning(x, bind); TreeIsMeaning(y, bind);
    case DistanceWithin(x, y, _) => TreeIsMeaning(x, bind); TreeIsMeaning(y, bind);
    case Aggregate(_, x, _) => TreeIsMeaning(x, bind);
    case _ =>
  }

  lemma {:induction false} ConditionParts(e: Expr, bind: Binding)
    requires Compile(e).Some? && (e.Binary? || e.Contains? || e.In? || e.TimestampRange?)
    ensures PartsMean(e, bind)
    decreases e, 0, 0
  {
    match e
    case Binary(_, x, y) =>
      TreeIsMeaning(x, if x.Literal? && y.Field? then For(y.kind, bind) else bind);
      TreeIsMeaning(y, if y.Literal? && x.Field? then For(x.kind, bind) else bind);
    case Contains(x, y) =>
      TreeIsMeaning(x, bind);
      TreeIsMeaning(y, if x.Field? && x.kind == JsonLike then For(JsonLike, bind) else bind);
    case In(x, xs, _) =>
      TreeIsMeaning(x, bind);
      TreesAreMeanings(xs, if x.Field? then For(x.kind, bind) else bind);
    case TimestampRange(x, start, end, _, _) =>
      TreeIsMeaning(x, bind);
      if start.Some? { TreeIsMeaning(start.value, bind); }
      if end.Some? { TreeIsMeaning(end.value, bind); }
  }

  lemma {:induction false} TreesAreMeanings(es: seq<Expr>, bind: Binding)
    requires CompileAll(es).Some?
    ensures TreesMean(es, bind)
    decreases es, 2
  {
    if es != [] {
      TreeIsMeaning(es[0], bind);
      TreesAreMeanings(es[1..], bind);
      forall i | 0 <= i < |es| ensures TreeMeans(es[i], bind) { if i > 0 { assert es[1..][i - 1] == es[i]; } }
    }
  }

  // --- The executed text means the expression ---

  /**
   For every well-sorted expression, context and row: the statement is executed exactly if its values can be bound, and
   its text is then read as a condition or value that is what the expression means.
   */
  lemma ExecutedTextHasMeaning(e: Expr, context: Context, row: Row)
    requires Compile(e).Some? && WellSorted(e)
    ensures var b := Compile(e).value; var values := BoundValues(Seal(b), context);
      && (values.Some? <==> AllBind(context, b.parameters))
      && (values.Some? ==>
            var read := ParseAll(Seal(b).command, values.value);
            read.Got? && read.rest == [] && read.args == [] && Eval(read.node, row) == Meaning(e, row, Decoder(context)))
  {
    ExecutedTextMeansTree(e, context);
    RenameUndone(Compile(e).value, context);
    TreeIsMeaning(e, Decoder(context));
    assert Eval(MapTree(Decoder(context), Tree(e)), row) == Meaning(e, row, Decoder(context));
  }

  /** A literal compared with a field is compared as it was given, or wrapped for the field, unless it is taken for a marker. */
  lemma LiteralIsCompared(op: BinaryOp, alias: string, column: string, kind: Kind, v: Value, context: Context, row: Row)
    requires kind == Bytes ==> Base64Url(v)
    ensures Compile(FieldTest(op, alias, column, kind, v)).Some?
    ensures
      var b := Compile(FieldTest(op, alias, column, kind, v)).value;
      var values := BoundValues(Seal(b), context);
      kind != Scalar || !TakenForMarker(v) ==>
        && values.Some? && ParseAll(Seal(b).command, values.value).Got?
        && Eval(ParseAll(Seal(b).command, values.value).node, row)
           == Computed(row.db, op, row.column(alias, column), row.db.value(Delivered(kind, v)))
  {
    FieldTestSorted(op, alias, column, kind, v);
    LiteralArrives(op, alias, column, kind, v, context);
    OperatorMeans(row.db, op, row.column(alias, column), row.db.value(Delivered(kind, v)));
    assert Eval(Op(SymbolOf(op), Col(alias, column), Val(Delivered(kind, v))), row)
        == Operate(row.db, SymbolOf(op), Eval(Col(alias, column), row), Eval(Val(Delivered(kind, v)), row));
  }

  // --- Which expressions compile ---

  /** A literal beside a bytes field is base64url text. */
  predicate FitsBeside(x: Expr, other: Expr) { x.Literal? && other.Field? && other.kind == Bytes ==> Base64Url(x.value) }

  /** All values a candidate of a bytes field is printed with are base64url texts. */
  predicate FitsField(field: Expr, candidate: Expr) {
    field.Field? && field.kind == Bytes && Compile(candidate).Some? ==> forall v :: v in Compile(candidate).value.parameters ==> Base64Url(v)
  }

  predicate Compilable(e: Expr) {
    match e
    case Parameter => false
    case NotExpr(x) => Compilable(x)
    case Negate(x) => Compilable(x)
    case IsNull(x, _) => Compilable(x)
    case And(xs) => forall i :: 0 <= i < |xs| ==> Compilable(xs[i])
    case Or(xs) => forall i :: 0 <= i < |xs| ==> Compilable(xs[i])
    case Binary(_, x, y) => Compilable(x) && Compilable(y) && FitsBeside(x, y) && FitsBeside(y, x)
    case Contains(x, y) => Compilable(x) && Compilable(y)
    case In(x, xs, _) => xs != [] && Compilable(x) && forall i :: 0 <= i < |xs| ==> Compilable(xs[i]) && FitsField(x, xs[i])
    case TimestampRange(x, start, end, _, _) =>
      Compilable(x) && (start.Some? ==> Compilable(start.value)) && (end.Some? ==> Compilable(end.value))
    case DocumentPath(x, pointer) => Compilable(x) && pointer != "" && pointer[0] == '/'
    case FullText(xs, _) => xs != [] && forall i :: 0 <= i < |xs| ==> Compilable(xs[i])
    case Distance(x, y) => Compilable(x) && Compilable(y)
    case DistanceWithin(x, y, _) => Compilable(x) && Compilable(y)
    case Aggregate(fn, x, _) => fn != PercentileFn && Compilable(x)
    case _ => true
  }

  lemma {:induction false} AllCompile(es: seq<Expr>)
    ensures CompileAll(es).Some? <==> forall i :: 0 <= i < |es| ==> Compile(es[i]).Some?
    ensures CompileAll(es).Some? ==> forall i :: 0 <= i < |es| ==> CompileAll(es).value[i] == Compile(es[i]).value
  {
    if es != [] {
      AllCompile(es[1..]);
      if forall i :: 0 <= i < |es| ==> Compile(es[i]).Some? {
        forall i | 0 <= i < |es[1..]| ensures Compile(es[1..][i]).Some? { assert es[1..][i] == es[i + 1]; }
      }
      if CompileAll(es).Some? {
        forall i | 0 <= i < |es| ensures Compile(es[i]).Some? && CompileAll(es).value[i] == Compile(es[i]).value {
          if i > 0 { assert es[1..][i - 1] == es[i]; }
        }
      }
    }
  }

  /** Exactly these expressions compile; everything else is refused. */
  lemma {:induction false} CompilesIff(e: Expr)
    ensures Compile(e).Some? <==> Compilable(e)
    decreases e, 1
  {
    match e
    case NotExpr(x) => CompilesIff(x);
    case Negate(x) => CompilesIff(x);
    case IsNull(x, _) => CompilesIff(x);
    case And(xs) => AllCompilable(xs);
    case Or(xs) => AllCompilable(xs);
    case Binary(_, _, _) => ConditionCompilesIff(e);
    case Contains(_, _) => ConditionCompilesIff(e);
    case In(_, _, _) => ConditionCompilesIff(e);
    case TimestampRange(_, _, _, _, _) => ConditionCompilesIff(e);
    case DocumentPath(_, _) => CallCompilesIff(e);
    case FullText(_, _) => CallCompilesIff(e);
    case Distance(_, _) => CallCompilesIff(e);
    case DistanceWithin(_, _, _) => CallCompilesIff(e);
    case Aggregate(_, _, _) => CallCompilesIff(e);
    case _ =>
  }

  lemma {:induction false} CallCompilesIff(e: Expr)
    requires e.DocumentPath? || e.FullText? || e.Distance? || e.DistanceWithin? || e.Aggregate?
    ensures Compile(e).Some? <==> Compilable(e)
    decreases e, 0
  {
    match e
    case DocumentPath(x, _) => CompilesIff(x);
    case FullText(xs, _) => AllCompilable(xs);
    case Distance(x, y) =>
      CompilesIff(x);
      CompilesIff(y);
    case DistanceWithin(x, y, _) =>
      CompilesIff(x);
      CompilesIff(y);
    case Aggregate(_, x, _) => CompilesIff(x);
  }

  lemma InCompilesIff(e: Expr)
    requires e.In? && (Compile(e.operand).Some? <==> Compilable(e.operand))
    requires CompileAll(e.candidates).Some? <==> forall i :: 0 <= i < |e.candidates| ==> Compilable(e.candidates[i])
    ensures Compile(e).Some? <==> Compilable(e)
  {
    AllCompile(e.candidates);
  }

  lemma {:induction false} ConditionCompilesIff(e: Expr)
    requires e.Binary? || e.Contains? || e.In? || e.TimestampRange?
    ensures Compile(e).Some? <==> Compilable(e)
    decreases e, 0
  {
    match e
    case Binary(_, x, y) =>
      CompilesIff(x);
      CompilesIff(y);
    case Contains(x, y) =>
      CompilesIff(x);
      CompilesIff(y);
    case In(x, xs, _) =>
      CompilesIff(x);
      AllCompilable(xs);
      InCompilesIff(e);
    case TimestampRange(x, start, end, _, _) =>
      CompilesIff(x);
      if start.Some? { CompilesIff(start.value); }
      if end.Some? { CompilesIff(end.value); }
  }

  lemma {:induction false} AllCompilable(es: seq<Expr>)
    ensures CompileAll(es).Some? <==> forall i :: 0 <= i < |es| ==> Compilable(es[i])
    decreases es, 2
  {
    AllCompile(es);
    forall i | 0 <= i < |es| ensures Compile(es[i]).Some? <==> Compilable(es[i]) { CompilesIff(es[i]); }
  }

  /** Letters, digits, minus and underscore, then at most two signs of padding, and no lone character in the last group. */
  lemma Base64UrlIff(text: string)
    ensures Base64Url(Plain(text)) <==>
      exists body: string, k: nat :: k <= 2 && text == body + Padding(k) && AllBase64(body) && |body| % 4 != 1
  {
    var body := WithoutPadding(text);
    Stripped(text);
    if Base64Url(Plain(text)) {
      assert text == body + Padding(|text| - |body|);
    }
    if body: string, k: nat :| k <= 2 && text == body + Padding(k) && AllBase64(body) && |body| % 4 != 1 {
      StripsPadding(body, k);
    }
  }

  function Padding(k: nat): (s: string)
    ensures |s| == k
  {
    seq(k, _ => '=')
  }

  lemma {:induction false} Stripped(text: string)
    ensures var body := WithoutPadding(text); |body| <= |text| && text == body + Padding(|text| - |body|)
  {
    if text != [] && text[|text| - 1] == '=' {
      Stripped(text[..|text| - 1]);
    }
  }

  lemma {:induction false} StripsPadding(body: string, k: nat)
    requires AllBase64(body)
    ensures WithoutPadding(body + Padding(k)) == body
  {
    if k > 0 {
      StripsPadding(body, k - 1);
      assert (body + Padding(k))[..|body| + k - 1] == body + Padding(k - 1);
    } else {
      assert body + Padding(0) == body;
    }
  }

  // --- Values inside what is adapted ---

  /** Adapting changes what a statement is executed with, unless it binds nothing. */
  lemma AdaptedValuesChange(b: BoundStatement, kind: Kind, context: Context)
    requires kind != Scalar
    ensures MapValues(Decoder(context), Adapt(b, kind).parameters) == MapValues(Decoder(context), b.parameters) <==> b.parameters == []
  {
    if b.parameters != [] {
      var v := b.parameters[0];
      assert MapValues(Decoder(context), Adapt(b, kind).parameters)[0] == Wrapped(if kind == JsonLike then Jsonb else Base64, v);
      assert DecodeValue(context, v) != Wrapped(if kind == JsonLike then Jsonb else Base64, v);
    }
  }

  lemma PathValues(alias: string, column: string, pointer: string)
    requires JsonPointer.Segments(pointer).Some?
    ensures var e := DocumentPath(Field(alias, column, JsonLike), pointer);
      Compile(e).Some? && Compile(e).value.parameters == [Path(JsonPointer.Segments(pointer).value)]
  {
    var x := Field(alias, column, JsonLike);
    assert Compile(x) == Some(BoundStatement([Column(alias, column)], []));
    assert [] + [Path(JsonPointer.Segments(pointer).value)] == [Path(JsonPointer.Segments(pointer).value)];
  }

  lemma SoughtValues(x: Expr, y: Expr, left: BoundStatement, right: BoundStatement)
    requires x.Field? && x.kind == JsonLike && Compile(x) == Some(left) && Compile(y) == Some(right)
    ensures Compile(Contains(x, y)).Some? && Compile(Contains(x, y)).value.parameters == left.parameters + Adapt(right, JsonLike).parameters
  {
  }

  /** A document path sought in a json field is executed with its path wrapped as JSON, which is then no array of texts. */
  lemma SoughtPathIsWrapped(alias: string, a: string, b: string, pointer: string, context: Context)
    requires JsonPointer.Segments(pointer).Some?
    ensures
      var e := Contains(Field(alias, a, JsonLike), DocumentPath(Field(alias, b, JsonLike), pointer));
      Compile(e).Some? && MapValues(Decoder(context), Compile(e).value.parameters) == [Wrapped(Jsonb, Path(JsonPointer.Segments(pointer).value))]
  {
    PathValues(alias, b, pointer);
    var x, y := Field(alias, a, JsonLike), DocumentPath(Field(alias, b, JsonLike), pointer);
    SoughtValues(x, y, BoundStatement([Column(alias, a)], []), Compile(y).value);
    OneWrapped(Path(JsonPointer.Segments(pointer).value), context);
  }

  lemma OneWrapped(v: Value, context: Context)
    ensures MapValues(Decoder(context), MapValues(Encoder(JsonLike), [v])) == [Wrapped(Jsonb, v)]
  {
    assert MapValues(Encoder(JsonLike), [v]) == [Marked(Jsonb, v)];
  }
}
