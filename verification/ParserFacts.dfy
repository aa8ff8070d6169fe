/** What the parser makes of the shapes the compiler prints: one fact per combinator. */
module ParserFacts {
  import opened SqlSyntax

  /**
   At level `n`, these tokens with these values read as `node`, in any context that stops the expression; up to the
   level of comparisons also inside position().
   */
  ghost predicate Parses(n: nat, ts: seq<Token>, ps: seq<Value>, node: Sql)
    requires n <= 9
  {
    forall g: Grammar, rest: seq<Token>, more: seq<Value> :: (g == Full || n <= 5) && Stops(n, rest) ==>
      Parse(g, n, ts + rest, ps + more) == Got(node, rest, more)
  }

  /** `ParseList` reads these tokens, up to and including the closing parenthesis, as `nodes`. */
  ghost predicate Lists(ts: seq<Token>, ps: seq<Value>, nodes: seq<Sql>) {
    forall rest: seq<Token>, more: seq<Value> :: ParseList(ts + [RParen] + rest, ps + more) == Got(nodes, rest, more)
  }

  lemma Assoc<T>(a: seq<T>, b: seq<T>, c: seq<T>)
    ensures a + b + c == a + (b + c)
  {
  }

  lemma Assoc4<T>(a: seq<T>, b: seq<T>, c: seq<T>, d: seq<T>)
    ensures a + b + c + d == a + (b + (c + d))
  {
  }

  lemma ReadsIn(g: Grammar, n: nat, ts: seq<Token>, ps: seq<Value>, node: Sql, rest: seq<Token>, more: seq<Value>)
    requires n <= 9 && Parses(n, ts, ps, node) && Stops(n, rest) && (g == Full || n <= 5)
    ensures Parse(g, n, ts + rest, ps + more) == Got(node, rest, more)
  {
  }

  lemma Reads(n: nat, ts: seq<Token>, ps: seq<Value>, node: Sql, rest: seq<Token>, more: seq<Value>)
    requires n <= 9 && Parses(n, ts, ps, node) && Stops(n, rest)
    ensures Parse(Full, n, ts + rest, ps + more) == Got(node, rest, more)
  {
  }

  // --- Looser levels go on where tighter ones stop ---

  lemma {:induction false} TailResumes(g: Grammar, m: nat, n: nat, left: Sql, ts: seq<Token>, ps: seq<Value>)
    requires m <= n <= 9 && ParseTail(g, m, left, ts, ps).Got?
    ensures var r := ParseTail(g, m, left, ts, ps); ParseTail(g, n, left, ts, ps) == ParseTail(g, n, r.node, r.rest, r.args)
    decreases |ts|
  {
    if Takes(g, m, ts) {
      var step := ParseStep(g, left, ts, ps);
      TailResumes(g, m, n, step.node, step.rest, step.args);
    }
  }

  lemma Resumes(g: Grammar, m: nat, n: nat, ts: seq<Token>, ps: seq<Value>)
    requires m <= n <= 9 && Parse(g, m, ts, ps).Got?
    ensures var r := Parse(g, m, ts, ps); Parse(g, n, ts, ps) == ParseTail(g, n, r.node, r.rest, r.args)
  {
    var first := ParsePrefix(g, ts, ps);
    TailResumes(g, m, n, first.node, first.rest, first.args);
  }

  /** A looser level reads the same, when nothing continues the expression there. */
  lemma Lift(m: nat, n: nat, ts: seq<Token>, ps: seq<Value>, node: Sql)
    requires m <= n <= 9 && Parses(m, ts, ps, node)
    ensures Parses(n, ts, ps, node)
  {
    forall g: Grammar, rest: seq<Token>, more: seq<Value> | (g == Full || n <= 5) && Stops(n, rest)
      ensures Parse(g, n, ts + rest, ps + more) == Got(node, rest, more)
    {
      ReadsIn(g, m, ts, ps, node, rest, more);
      Resumes(g, m, n, ts + rest, ps + more);
    }
  }

  /** What comes after an expression is read with it as the left operand. */
  lemma Continued(g: Grammar, m: nat, n: nat, ts: seq<Token>, ps: seq<Value>, node: Sql, rest: seq<Token>, more: seq<Value>)
    requires m <= n <= 9 && Parses(m, ts, ps, node) && Stops(m, rest) && (g == Full || m <= 5)
    ensures Parse(g, n, ts + rest, ps + more) == ParseTail(g, n, node, rest, more)
  {
    ReadsIn(g, m, ts, ps, node, rest, more);
    Resumes(g, m, n, ts + rest, ps + more);
  }

  // --- Level 0 ---

  lemma UnaryMinus(ts: seq<Token>, ps: seq<Value>, node: Sql)
    requires Parses(0, ts, ps, node)
    ensures Parses(0, [Sym(Minus)] + ts, ps, Negation(node))
  {
    forall g: Grammar, rest: seq<Token>, more: seq<Value> | Stops(0, rest)
      ensures Parse(g, 0, [Sym(Minus)] + ts + rest, ps + more) == Got(Negation(node), rest, more)
    {
      assert ([Sym(Minus)] + ts + rest)[1..] == ts + rest;
      ReadsIn(g, 0, ts, ps, node, rest, more);
    }
  }

  /** A primary that is not a negation takes a cast. */
  ghost predicate Primary(ts: seq<Token>, ps: seq<Value>, node: Sql) {
    ts != [] && ts[0] != Sym(Minus) && ts[0] != Kw(NOT)
    && forall rest: seq<Token>, more: seq<Value> :: ParsePrimary(ts + rest, ps + more) == Got(node, rest, more)
  }

  lemma PrimaryPrefix(g: Grammar, ts: seq<Token>, ps: seq<Value>, node: Sql, rest: seq<Token>, more: seq<Value>)
    requires Primary(ts, ps, node)
    ensures ParsePrefix(g, ts + rest, ps + more) == Got(node, rest, more)
  {
    assert (ts + rest)[0] == ts[0];
    assert ParsePrimary(ts + rest, ps + more) == Got(node, rest, more);
  }

  lemma PrimaryParses(ts: seq<Token>, ps: seq<Value>, node: Sql)
    requires Primary(ts, ps, node)
    ensures Parses(0, ts, ps, node)
  {
    forall g: Grammar, rest: seq<Token>, more: seq<Value> | Stops(0, rest)
      ensures Parse(g, 0, ts + rest, ps + more) == Got(node, rest, more)
    {
      PrimaryPrefix(g, ts, ps, node, rest, more);
    }
  }

  lemma PlainPrimary(t: Token, node: Sql)
    requires match t
             case Column(a, c) => node == Col(a, c)
             case Const(k) => node == Lit(k)
             case Kw(TRUE) => node == Bool(true)
             case Kw(FALSE) => node == Bool(false)
             case _ => false
    ensures Primary([t], [], node)
  {
    forall rest: seq<Token>, more: seq<Value> ensures ParsePrimary([t] + rest, [] + more) == Got(node, rest, more) {
      assert ([t] + rest)[1..] == rest && [] + more == more;
    }
  }

  lemma OneCast(g: Grammar, node: Sql, ty: SqlType, rest: seq<Token>, more: seq<Value>)
    requires Stops(0, rest)
    ensures ParseTail(g, 0, node, [Sym(DoubleColon), TypeName(ty)] + rest, more) == Got(Cast(node, ty), rest, more)
  {
    var tail := [Sym(DoubleColon), TypeName(ty)] + rest;
    assert tail[2..] == rest;
    assert ParseStep(g, node, tail, more) == Got(Cast(node, ty), rest, more);
  }

  lemma CastOf(ts: seq<Token>, ps: seq<Value>, node: Sql, ty: SqlType)
    requires Primary(ts, ps, node)
    ensures Parses(0, ts + [Sym(DoubleColon), TypeName(ty)], ps, Cast(node, ty))
  {
    forall g: Grammar, rest: seq<Token>, more: seq<Value> | Stops(0, rest)
      ensures Parse(g, 0, ts + [Sym(DoubleColon), TypeName(ty)] + rest, ps + more) == Got(Cast(node, ty), rest, more)
    {
      var tail := [Sym(DoubleColon), TypeName(ty)] + rest;
      assert ts + [Sym(DoubleColon), TypeName(ty)] + rest == ts + tail;
      PrimaryPrefix(g, ts, ps, node, tail, more);
      OneCast(g, node, ty, rest, more);
    }
  }

  lemma ParenPrimary(ts: seq<Token>, ps: seq<Value>, node: Sql)
    requires Parses(9, ts, ps, node)
    ensures Primary([LParen] + ts + [RParen], ps, node)
  {
    forall rest: seq<Token>, more: seq<Value>
      ensures ParsePrimary([LParen] + ts + [RParen] + rest, ps + more) == Got(node, rest, more)
    {
      var all := [LParen] + ts + [RParen] + rest;
      assert all[1..] == ts + ([RParen] + rest);
      assert Stops(9, [RParen] + rest) && ([RParen] + rest)[1..] == rest;
      Reads(9, ts, ps, node, [RParen] + rest, more);
    }
  }

  lemma PlaceholderPrimary(v: Value)
    ensures Primary([Placeholder], [v], Val(v))
  {
    forall rest: seq<Token>, more: seq<Value>
      ensures ParsePrimary([Placeholder] + rest, [v] + more) == Got(Val(v), rest, more)
    {
      assert ([Placeholder] + rest)[1..] == rest && ([v] + more)[1..] == more;
    }
  }

  // --- Lists and calls ---

  lemma ListOne(ts: seq<Token>, ps: seq<Value>, node: Sql)
    requires Parses(9, ts, ps, node)
    ensures Lists(ts, ps, [node])
  {
    forall rest: seq<Token>, more: seq<Value> ensures ParseList(ts + [RParen] + rest, ps + more) == Got([node], rest, more) {
      assert ts + [RParen] + rest == ts + ([RParen] + rest);
      assert Stops(9, [RParen] + rest) && ([RParen] + rest)[1..] == rest;
      Reads(9, ts, ps, node, [RParen] + rest, more);
    }
  }

  lemma ListCons(ts: seq<Token>, ps: seq<Value>, node: Sql, us: seq<Token>, qs: seq<Value>, nodes: seq<Sql>)
    requires Parses(9, ts, ps, node) && Lists(us, qs, nodes)
    ensures Lists(ts + [Comma] + us, ps + qs, [node] + nodes)
  {
    forall rest: seq<Token>, more: seq<Value>
      ensures ParseList(ts + [Comma] + us + [RParen] + rest, ps + qs + more) == Got([node] + nodes, rest, more)
    {
      var tail := [Comma] + (us + [RParen] + rest);
      assert ts + [Comma] + us + [RParen] + rest == ts + tail;
      assert ps + qs + more == ps + (qs + more);
      assert Stops(9, tail);
      Reads(9, ts, ps, node, tail, qs + more);
      assert tail[1..] == us + [RParen] + rest;
      assert ParseList(us + [RParen] + rest, qs + more) == Got(nodes, rest, more);
    }
  }

  /** No list starts with `*` or DISTINCT, so a call's arguments are read as arguments. */
  lemma NoMarker(ts: seq<Token>, ps: seq<Value>)
    requires Parse(Full, 9, ts, ps).Got?
    ensures ts != [] && ts[0] != Sym(Star) && ts[0] != Kw(DISTINCT)
  {
    assert ParsePrefix(Full, ts, ps).Got?;
    if ts[0] != Kw(NOT) && ts[0] != Sym(Minus) { assert ParsePrimary(ts, ps).Got?; }
  }

  lemma CallOf(fn: Function, ts: seq<Token>, ps: seq<Value>, nodes: seq<Sql>)
    requires fn != Position && Lists(ts, ps, nodes)
    ensures Primary([Fn(fn), LParen] + ts + [RParen], ps, Call(fn, false, nodes))
    ensures Primary([Fn(fn), LParen, Kw(DISTINCT)] + ts + [RParen], ps, Call(fn, true, nodes))
  {
    forall rest: seq<Token>, more: seq<Value>
      ensures ParsePrimary([Fn(fn), LParen] + ts + [RParen] + rest, ps + more) == Got(Call(fn, false, nodes), rest, more)
      ensures ParsePrimary([Fn(fn), LParen, Kw(DISTINCT)] + ts + [RParen] + rest, ps + more) == Got(Call(fn, true, nodes), rest, more)
    {
      var inner := ts + [RParen] + rest;
      assert ParseList(inner, ps + more) == Got(nodes, rest, more);
      NoMarker(inner, ps + more);
      assert ([Fn(fn), LParen] + ts + [RParen] + rest)[2..] == inner;
      assert ([Fn(fn), LParen, Kw(DISTINCT)] + ts + [RParen] + rest)[2..] == [Kw(DISTINCT)] + inner;
      assert ([Kw(DISTINCT)] + inner)[1..] == inner;
    }
  }

  lemma CountStarCall()
    ensures Primary([Fn(Count), LParen, Sym(Star), RParen], [], CountStar)
  {
    forall rest: seq<Token>, more: seq<Value>
      ensures ParsePrimary([Fn(Count), LParen, Sym(Star), RParen] + rest, [] + more) == Got(CountStar, rest, more)
    {
      var all := [Fn(Count), LParen, Sym(Star), RParen] + rest;
      assert all[2..] == [Sym(Star), RParen] + rest && [] + more == more;
      assert ([Sym(Star), RParen] + rest)[2..] == rest;
    }
  }

  lemma PositionInner(ts: seq<Token>, ps: seq<Value>, needle: Sql, us: seq<Token>, qs: seq<Value>, haystack: Sql,
                      rest: seq<Token>, more: seq<Value>)
    requires Parses(0, ts, ps, needle) && Parses(5, us, qs, haystack)
    ensures ParseCall(Position, ts + ([Kw(IN)] + (us + ([RParen] + rest))), ps + (qs + more)) == Got(PositionOf(needle, haystack), rest, more)
  {
    var tail, close := [Kw(IN)] + (us + ([RParen] + rest)), [RParen] + rest;
    assert Stops(0, tail) && tail[1..] == us + close && Stops(5, close) && close[1..] == rest;
    Continued(Restricted, 0, 6, ts, ps, needle, tail, qs + more);
    assert ParseTail(Restricted, 6, needle, tail, qs + more) == Got(needle, tail, qs + more);
    Continued(Restricted, 5, 6, us, qs, haystack, close, more);
    assert ParseTail(Restricted, 6, haystack, close, more) == Got(haystack, close, more);
  }

  lemma PositionCall(ts: seq<Token>, ps: seq<Value>, needle: Sql, us: seq<Token>, qs: seq<Value>, haystack: Sql)
    requires Parses(0, ts, ps, needle) && Parses(5, us, qs, haystack)
    ensures Primary([Fn(Position), LParen] + ts + [Kw(IN)] + us + [RParen], ps + qs, PositionOf(needle, haystack))
  {
    forall rest: seq<Token>, more: seq<Value>
      ensures ParsePrimary([Fn(Position), LParen] + ts + [Kw(IN)] + us + [RParen] + rest, ps + qs + more)
              == Got(PositionOf(needle, haystack), rest, more)
    {
      var all := [Fn(Position), LParen] + ts + [Kw(IN)] + us + [RParen] + rest;
      assert all[2..] == ts + ([Kw(IN)] + (us + ([RParen] + rest)));
      Assoc(ps, qs, more);
      PositionInner(ts, ps, needle, us, qs, haystack, rest, more);
    }
  }

  // --- Operators ---

  /** A chain of operators of level `n` read so far, about to look at what follows. */
  ghost predicate Chain(n: nat, ts: seq<Token>, ps: seq<Value>, node: Sql)
    requires 1 <= n <= 9
  {
    forall g: Grammar, rest: seq<Token>, more: seq<Value> :: (g == Full || n <= 5) && Stops(n - 1, rest) ==>
      Parse(g, n, ts + rest, ps + more) == ParseTail(g, n, node, rest, more)
  }

  predicate LeftAssociative(n: nat) { n in {1, 2, 3, 8, 9} }

  lemma ChainStart(n: nat, ts: seq<Token>, ps: seq<Value>, node: Sql)
    requires 1 <= n <= 9 && Parses(n - 1, ts, ps, node)
    ensures Chain(n, ts, ps, node)
  {
    forall g: Grammar, rest: seq<Token>, more: seq<Value> | (g == Full || n <= 5) && Stops(n - 1, rest)
      ensures Parse(g, n, ts + rest, ps + more) == ParseTail(g, n, node, rest, more)
    {
      Continued(g, n - 1, n, ts, ps, node, rest, more);
    }
  }

  /** One operator is read with its right operand. */
  lemma TailStep(g: Grammar, n: nat, left: Sql, t: Token, us: seq<Token>, args: seq<Value>, right: Parsed<Sql>)
    requires n <= 9 && IsInfix(t) && Continues(t) <= n && (g == Full || t.Sym?)
    requires right == Parse(g, Continues(t) - 1, us, args) && right.Got? && !Clashes(Continues(t), right.rest)
    ensures ParseTail(g, n, left, [t] + us, args) == ParseTail(g, n, Combine(t, left, right.node), right.rest, right.args)
  {
    assert ([t] + us)[1..] == us;
    assert ParseStep(g, left, [t] + us, args) == Got(Combine(t, left, right.node), right.rest, right.args);
  }

  /** An operator without a right operand, or followed by one it clashes with, is an error. */
  lemma TailFails(g: Grammar, n: nat, left: Sql, t: Token, us: seq<Token>, args: seq<Value>)
    requires n <= 9 && IsInfix(t) && Continues(t) <= n && (g == Full || t.Sym?)
    requires var right := Parse(g, Continues(t) - 1, us, args); right.Fail? || Clashes(Continues(t), right.rest)
    ensures ParseTail(g, n, left, [t] + us, args).Fail?
  {
    assert ([t] + us)[1..] == us;
    assert ParseStep(g, left, [t] + us, args).Fail?;
  }

  lemma ChainStep(n: nat, ts: seq<Token>, ps: seq<Value>, left: Sql, t: Token, us: seq<Token>, qs: seq<Value>, right: Sql)
    requires LeftAssociative(n) && IsInfix(t) && Continues(t) == n
    requires Chain(n, ts, ps, left) && Parses(n - 1, us, qs, right)
    ensures Chain(n, ts + [t] + us, ps + qs, Combine(t, left, right))
  {
    forall g: Grammar, rest: seq<Token>, more: seq<Value> | (g == Full || n <= 5) && Stops(n - 1, rest)
      ensures Parse(g, n, ts + [t] + us + rest, ps + qs + more) == ParseTail(g, n, Combine(t, left, right), rest, more)
    {
      ChainOnce(g, n, ts, ps, left, t, us, qs, right, rest, more);
      Assoc4(ts, [t], us, rest);
      Assoc(ps, qs, more);
    }
  }

  lemma ChainOnce(g: Grammar, n: nat, ts: seq<Token>, ps: seq<Value>, left: Sql, t: Token, us: seq<Token>, qs: seq<Value>, right: Sql,
                  rest: seq<Token>, more: seq<Value>)
    requires LeftAssociative(n) && IsInfix(t) && Continues(t) == n && (g == Full || n <= 5) && Stops(n - 1, rest)
    requires Chain(n, ts, ps, left) && Parses(n - 1, us, qs, right)
    ensures Parse(g, n, ts + ([t] + (us + rest)), ps + (qs + more)) == ParseTail(g, n, Combine(t, left, right), rest, more)
  {
    ReadsIn(g, n - 1, us, qs, right, rest, more);
    TailStep(g, n, left, t, us + rest, qs + more, Got(right, rest, more));
    var tail := [t] + (us + rest);
    assert Stops(n - 1, tail);
  }

  lemma ChainEnd(n: nat, ts: seq<Token>, ps: seq<Value>, node: Sql)
    requires 1 <= n <= 9 && Chain(n, ts, ps, node)
    ensures Parses(n, ts, ps, node)
  {
    forall g: Grammar, rest: seq<Token>, more: seq<Value> | (g == Full || n <= 5) && Stops(n, rest)
      ensures Parse(g, n, ts + rest, ps + more) == Got(node, rest, more)
    {
      assert Stops(n - 1, rest);
      assert Parse(g, n, ts + rest, ps + more) == ParseTail(g, n, node, rest, more);
    }
  }

  lemma Infix(n: nat, ts: seq<Token>, ps: seq<Value>, left: Sql, t: Token, us: seq<Token>, qs: seq<Value>, right: Sql)
    requires LeftAssociative(n) && IsInfix(t) && Continues(t) == n
    requires Parses(n - 1, ts, ps, left) && Parses(n - 1, us, qs, right)
    ensures Parses(n, ts + [t] + us, ps + qs, Combine(t, left, right))
    ensures Chain(n, ts + [t] + us, ps + qs, Combine(t, left, right))
  {
    ChainStart(n, ts, ps, left);
    ChainStep(n, ts, ps, left, t, us, qs, right);
    ChainEnd(n, ts + [t] + us, ps + qs, Combine(t, left, right));
  }

  /** An operator between two operands that stop before it and after it. */
  lemma OneOperator(g: Grammar, n: nat, ts: seq<Token>, ps: seq<Value>, left: Sql, t: Token, us: seq<Token>, args: seq<Value>, right: Parsed<Sql>)
    requires n <= 9 && IsInfix(t) && Continues(t) <= n && (g == Full || Continues(t) <= 5)
    requires Parses(Continues(t) - 1, ts, ps, left)
    requires right == Parse(g, Continues(t) - 1, us, args) && right.Got? && !Clashes(Continues(t), right.rest)
    ensures Parse(g, n, ts + ([t] + us), ps + args) == ParseTail(g, n, Combine(t, left, right.node), right.rest, right.args)
  {
    Continued(g, Continues(t) - 1, n, ts, ps, left, [t] + us, args);
    TailStep(g, n, left, t, us, args, right);
  }

  lemma Compare(ts: seq<Token>, ps: seq<Value>, left: Sql, s: Symbol, us: seq<Token>, qs: seq<Value>, right: Sql)
    requires Continues(Sym(s)) == 5 && Parses(4, ts, ps, left) && Parses(4, us, qs, right)
    ensures Parses(5, ts + [Sym(s)] + us, ps + qs, Op(s, left, right))
  {
    forall g: Grammar, rest: seq<Token>, more: seq<Value> | Stops(5, rest)
      ensures Parse(g, 5, ts + [Sym(s)] + us + rest, ps + qs + more) == Got(Op(s, left, right), rest, more)
    {
      ReadsIn(g, 4, us, qs, right, rest, more);
      OneOperator(g, 5, ts, ps, left, Sym(s), us + rest, qs + more, Got(right, rest, more));
      Assoc4(ts, [Sym(s)], us, rest);
      Assoc(ps, qs, more);
    }
  }

  /** Wherever an operand may start, NOT takes all that binds tighter than itself. */
  lemma NotAnywhere(n: nat, ts: seq<Token>, ps: seq<Value>, node: Sql, rest: seq<Token>, more: seq<Value>)
    requires n <= 7 && Parses(7, ts, ps, node) && Stops(7, rest)
    ensures Parse(Full, n, [Kw(NOT)] + ts + rest, ps + more) == Got(Not(node), rest, more)
  {
    assert ([Kw(NOT)] + ts + rest)[1..] == ts + rest;
    Reads(7, ts, ps, node, rest, more);
    assert ParsePrefix(Full, [Kw(NOT)] + ts + rest, ps + more) == Got(Not(node), rest, more);
  }

  lemma NotOf(ts: seq<Token>, ps: seq<Value>, node: Sql)
    requires Parses(7, ts, ps, node)
    ensures Parses(7, [Kw(NOT)] + ts, ps, Not(node))
  {
    forall g: Grammar, rest: seq<Token>, more: seq<Value> | g == Full && Stops(7, rest)
      ensures Parse(g, 7, [Kw(NOT)] + ts + rest, ps + more) == Got(Not(node), rest, more)
    {
      NotAnywhere(7, ts, ps, node, rest, more);
    }
  }

  /** A negated right operand reads as the operand, whatever the operator. */
  lemma InfixNot(n: nat, ts: seq<Token>, ps: seq<Value>, left: Sql, t: Token, us: seq<Token>, qs: seq<Value>, right: Sql)
    requires 1 <= n <= 5 && IsInfix(t) && Continues(t) == n
    requires Parses(n - 1, ts, ps, left) && Parses(7, us, qs, right)
    ensures Parses(7, ts + [t] + ([Kw(NOT)] + us), ps + qs, Combine(t, left, Not(right)))
  {
    forall g: Grammar, rest: seq<Token>, more: seq<Value> | g == Full && Stops(7, rest)
      ensures Parse(g, 7, ts + [t] + ([Kw(NOT)] + us) + rest, ps + qs + more) == Got(Combine(t, left, Not(right)), rest, more)
    {
      NotAnywhere(n - 1, us, qs, right, rest, more);
      OneOperator(Full, 7, ts, ps, left, t, [Kw(NOT)] + us + rest, qs + more, Got(Not(right), rest, more));
      Assoc4(ts, [t], [Kw(NOT)] + us, rest);
      Assoc(ps, qs, more);
    }
  }

  function IsNullTokens(negated: bool): seq<Token> {
    if negated then [Kw(IS), Kw(NOT), Kw(NULL)] else [Kw(IS), Kw(NULL)]
  }

  /** A null test is read, and what follows goes on from it. */
  lemma NullStep(n: nat, node: Sql, negated: bool, rest: seq<Token>, more: seq<Value>)
    requires 6 <= n <= 9
    ensures ParseTail(Full, n, node, IsNullTokens(negated) + rest, more) == ParseTail(Full, n, NullTest(node, negated), rest, more)
  {
    var tail := IsNullTokens(negated) + rest;
    assert IsNullTokens(negated) <= tail && tail[|IsNullTokens(negated)|..] == rest;
    assert ParseStep(Full, node, tail, more) == Got(NullTest(node, negated), rest, more);
  }

  lemma TestNull(ts: seq<Token>, ps: seq<Value>, node: Sql, negated: bool)
    requires Parses(5, ts, ps, node)
    ensures Parses(6, ts + IsNullTokens(negated), ps, NullTest(node, negated))
  {
    forall g: Grammar, rest: seq<Token>, more: seq<Value> | g == Full && Stops(6, rest)
      ensures Parse(g, 6, ts + IsNullTokens(negated) + rest, ps + more) == Got(NullTest(node, negated), rest, more)
    {
      Continued(Full, 5, 6, ts, ps, node, IsNullTokens(negated) + rest, more);
      NullStep(6, node, negated, rest, more);
      Assoc(ts, IsNullTokens(negated), rest);
    }
  }

  lemma NotDistinctStep(n: nat, left: Sql, us: seq<Token>, args: seq<Value>, right: Parsed<Sql>)
    requires 6 <= n <= 9 && right == Parse(Full, 5, us, args) && right.Got? && !Clashes(6, right.rest)
    ensures ParseTail(Full, n, left, NotDistinctTokens + us, args) == ParseTail(Full, n, NotDistinct(left, right.node), right.rest, right.args)
  {
    var tail := NotDistinctTokens + us;
    assert NotDistinctTokens <= tail && tail[4..] == us && tail[2] == Kw(DISTINCT);
    assert ParseStep(Full, left, tail, args) == Got(NotDistinct(left, right.node), right.rest, right.args);
  }

  lemma TestNotDistinct(ts: seq<Token>, ps: seq<Value>, left: Sql, us: seq<Token>, qs: seq<Value>, right: Sql)
    requires Parses(5, ts, ps, left) && Parses(5, us, qs, right)
    ensures Parses(6, ts + NotDistinctTokens + us, ps + qs, NotDistinct(left, right))
  {
    forall g: Grammar, rest: seq<Token>, more: seq<Value> | g == Full && Stops(6, rest)
      ensures Parse(g, 6, ts + NotDistinctTokens + us + rest, ps + qs + more) == Got(NotDistinct(left, right), rest, more)
    {
      Reads(5, us, qs, right, rest, more);
      Continued(Full, 5, 6, ts, ps, left, NotDistinctTokens + (us + rest), qs + more);
      NotDistinctStep(6, left, us + rest, qs + more, Got(right, rest, more));
      Assoc4(ts, NotDistinctTokens, us, rest);
      Assoc(ps, qs, more);
    }
  }

  /** The tokens between an operand and its list of candidates. */
  function InTokens(negated: bool): seq<Token> {
    if negated then [Kw(NOT), Kw(IN), LParen] else [Kw(IN), LParen]
  }

  lemma MembershipStep(n: nat, node: Sql, negated: bool, inner: seq<Token>, args: seq<Value>, items: Parsed<seq<Sql>>)
    requires 4 <= n <= 9 && items == ParseList(inner, args) && items.Got?
    ensures ParseTail(Full, n, node, InTokens(negated) + inner, args) == ParseTail(Full, n, Member(node, items.node, negated), items.rest, items.args)
  {
    var tail := InTokens(negated) + inner;
    assert tail[|InTokens(negated)|..] == inner;
    assert ParseStep(Full, node, tail, args) == Got(Member(node, items.node, negated), items.rest, items.args);
  }

  lemma Membership(ts: seq<Token>, ps: seq<Value>, node: Sql, negated: bool, us: seq<Token>, qs: seq<Value>, items: seq<Sql>)
    requires Parses(3, ts, ps, node) && Lists(us, qs, items)
    ensures Parses(6, ts + InTokens(negated) + us + [RParen], ps + qs, Member(node, items, negated))
  {
    forall g: Grammar, rest: seq<Token>, more: seq<Value> | g == Full && Stops(6, rest)
      ensures Parse(g, 6, ts + InTokens(negated) + us + [RParen] + rest, ps + qs + more) == Got(Member(node, items, negated), rest, more)
    {
      var inner := us + [RParen] + rest;
      assert ParseList(inner, qs + more) == Got(items, rest, more);
      MembershipStep(6, node, negated, inner, qs + more, Got(items, rest, more));
      Continued(Full, 3, 6, ts, ps, node, InTokens(negated) + inner, qs + more);
      Assoc4(ts, InTokens(negated), us + [RParen], rest);
      Assoc(ts + InTokens(negated), us, [RParen]);
      Assoc(ps, qs, more);
    }
  }
}
