/**
 What the database makes of a tree for one row. Every value is a rank, numbers are their own, truth is one or zero, and
 NULL is none. Arithmetic, comparisons, three-valued logic, membership and aggregates are computed; division, casts,
 JSON, text search and geography are functions of the database.
 */
module SqlMeaning {
  import opened Wrappers
  import opened SqlSyntax
  import opened SortKeys

  datatype Database = Database(
    value: Value -> Cell,
    constant: Constant -> Cell,
    divide: (real, real) -> Cell,
    contains: (real, real) -> Cell,
    extract: (real, real) -> Cell,
    matches: (real, real) -> Cell,
    position: (real, real) -> real,
    cast: (SqlType, Cell) -> Cell,
    call: (Function, seq<Cell>) -> Cell)

  /** A row's columns, and the rows of its group for aggregates. */
  datatype Row = Row(db: Database, column: (string, string) -> Cell, group: seq<Row>)

  // --- Three-valued logic ---

  datatype Truth = True | False | Unknown

  function AndOf(a: Truth, b: Truth): Truth {
    if a == False || b == False then False else if a == True && b == True then True else Unknown
  }

  function OrOf(a: Truth, b: Truth): Truth {
    if a == True || b == True then True else if a == False && b == False then False else Unknown
  }

  function NotOf(a: Truth): Truth { match a case True => False case False => True case Unknown => Unknown }

  function TruthOf(b: bool): Truth { if b then True else False }

  /** A value as a condition. */
  function AsTruth(c: Cell): Truth { if c.None? then Unknown else TruthOf(c.value != 0.0) }

  function AsCell(t: Truth): Cell { match t case True => Some(1.0) case False => Some(0.0) case Unknown => None }

  // --- Operators ---

  function Ordered(s: Symbol, a: real, b: real): bool {
    match s case Gt => a > b case Lt => a < b case Ge => a >= b case Le => a <= b case Ne => a != b case _ => a == b
  }

  /** Operators are strict. */
  function Operate(db: Database, s: Symbol, x: Cell, y: Cell): Cell {
    if x.None? || y.None? then None
    else
      match s
      case Plus => Some(x.value + y.value)
      case Minus => Some(x.value - y.value)
      case Star => Some(x.value * y.value)
      case Slash => db.divide(x.value, y.value)
      case JsonContains => db.contains(x.value, y.value)
      case JsonPath => db.extract(x.value, y.value)
      case TextMatch => db.matches(x.value, y.value)
      case _ => AsCell(TruthOf(Ordered(s, x.value, y.value)))
  }

  function Located(db: Database, needle: Cell, haystack: Cell): Cell {
    if needle.None? || haystack.None? then None else Some(db.position(needle.value, haystack.value))
  }

  /** `x IN (items)`: the disjunction of the comparisons. */
  function Among(x: Cell, items: seq<Cell>): Truth {
    if items == [] then False
    else OrOf(if x.None? || items[0].None? then Unknown else TruthOf(x.value == items[0].value), Among(x, items[1..]))
  }

  // --- Aggregates ---

  predicate IsAggregate(fn: Function) { fn in {Count, Sum, Avg, Min, Max} }

  function Without(xs: seq<real>, x: real): (ys: seq<real>)
    ensures |ys| <= |xs|
  {
    if xs == [] then [] else if xs[0] == x then Without(xs[1..], x) else [xs[0]] + Without(xs[1..], x)
  }

  /** Every value once. */
  function Once(xs: seq<real>): seq<real>
    decreases |xs|
  {
    if xs == [] then [] else [xs[0]] + Once(Without(xs[1..], xs[0]))
  }

  function Total(xs: seq<real>): real { if xs == [] then 0.0 else xs[0] + Total(xs[1..]) }

  function Smallest(xs: seq<real>): real
    requires xs != []
  {
    if |xs| == 1 || xs[0] <= Smallest(xs[1..]) then xs[0] else Smallest(xs[1..])
  }

  function Largest(xs: seq<real>): real
    requires xs != []
  {
    if |xs| == 1 || xs[0] >= Largest(xs[1..]) then xs[0] else Largest(xs[1..])
  }

  /** The aggregate of the values that are not NULL. */
  function Aggregated(fn: Function, xs: seq<real>): Cell
    requires IsAggregate(fn)
  {
    if fn == Count then Some(|xs| as real)
    else if xs == [] then None
    else if fn == Sum then Some(Total(xs))
    else if fn == Avg then Some(Total(xs) / |xs| as real)
    else if fn == Min then Some(Smallest(xs))
    else Some(Largest(xs))
  }

  // --- Trees ---

  function Eval(t: Sql, row: Row): Cell
    decreases t, 0, 0
  {
    match t
    case Col(alias, column) => row.column(alias, column)
    case Val(v) => row.db.value(v)
    case Lit(k) => if k == Zero then Some(0.0) else row.db.constant(k)
    case Bool(b) => AsCell(TruthOf(b))
    case Negation(x) => var c := Eval(x, row); if c.None? then None else Some(-c.value)
    case Not(x) => AsCell(NotOf(AsTruth(Eval(x, row))))
    case Op(s, x, y) => Operate(row.db, s, Eval(x, row), Eval(y, row))
    case Both(x, y) => AsCell(AndOf(AsTruth(Eval(x, row)), AsTruth(Eval(y, row))))
    case Either(x, y) => AsCell(OrOf(AsTruth(Eval(x, row)), AsTruth(Eval(y, row))))
    case NullTest(x, negated) => AsCell(TruthOf(Eval(x, row).Some? == negated))
    case NotDistinct(x, y) => AsCell(TruthOf(Eval(x, row) == Eval(y, row)))
    case Member(x, items, negated) =>
      var found := Among(Eval(x, row), Evals(items, row));
      AsCell(if negated then NotOf(found) else found)
    case Cast(x, ty) => row.db.cast(ty, Eval(x, row))
    case Call(fn, distinct, args) =>
      if IsAggregate(fn) && |args| == 1 then
        var xs := Across(args[0], row.group);
        Aggregated(fn, if distinct then Once(xs) else xs)
      else row.db.call(fn, Evals(args, row))
    case PositionOf(needle, haystack) =>
      Located(row.db, Eval(needle, row), Eval(haystack, row))
    case CountStar => Some(|row.group| as real)
  }

  function Evals(ts: seq<Sql>, row: Row): (cs: seq<Cell>)
    ensures |cs| == |ts|
    decreases ts, 0, 0
  {
    if ts == [] then [] else [Eval(ts[0], row)] + Evals(ts[1..], row)
  }

  /** The values of a tree over a group, without NULL. */
  function Across(t: Sql, rows: seq<Row>): seq<real>
    decreases t, 1, |rows|
  {
    if rows == [] then [] else (if Eval(t, rows[0]).Some? then [Eval(t, rows[0]).value] else []) + Across(t, rows[1..])
  }

  /** The truth of a condition for a row. */
  function Holds(t: Sql, row: Row): Truth { AsTruth(Eval(t, row)) }
}
