/** What holds of every reading of any tokens: what it consumes, where it stops, and how its tree grows. */
module ParsedShape {
  import opened SqlSyntax
  import opened ParserFacts
  import opened TokenShape

  // --- What is consumed ---

  /** Between the two states lie the tokens `c`, balanced, with one value for each of their placeholders. */
  ghost predicate Between(ts: seq<Token>, ps: seq<Value>, c: seq<Token>, rest: seq<Token>, args: seq<Value>) {
    ts == c + rest && Balanced(c) && Slots(c) <= |ps| && args == ps[Slots(c)..]
  }

  /** A result consumed a balanced stretch of the tokens and its values. */
  ghost predicate Consumes(ts: seq<Token>, ps: seq<Value>, r: Parsed<Sql>) {
    r.Got? ==> exists c: seq<Token> :: Between(ts, ps, c, r.rest, r.args)
  }

  /** A result consumed a balanced stretch and the parenthesis that closes it. */
  ghost predicate ConsumesGroup<T>(ts: seq<Token>, ps: seq<Value>, r: Parsed<T>) {
    r.Got? ==> exists c: seq<Token> :: Between(ts, ps, c, [RParen] + r.rest, r.args)
  }

  lemma Then(ts: seq<Token>, ps: seq<Value>, c: seq<Token>, us: seq<Token>, qs: seq<Value>, d: seq<Token>, rest: seq<Token>, args: seq<Value>)
    requires Between(ts, ps, c, us, qs) && Between(us, qs, d, rest, args)
    ensures Between(ts, ps, c + d, rest, args)
  {
    BalancedAppend(c, d);
    Assoc(c, d, rest);
  }

  lemma ThenToken(ts: seq<Token>, ps: seq<Value>, t: Token, d: seq<Token>, rest: seq<Token>, args: seq<Value>)
    requires ts != [] && ts[0] == t && t != LParen && t != RParen && t != Placeholder && Between(ts[1..], ps, d, rest, args)
    ensures Between(ts, ps, [t] + d, rest, args)
  {
    BalancedOne(t);
    assert ts == [t] + ts[1..] && ps[0..] == ps;
    Then(ts, ps, [t], ts[1..], ps, d, rest, args);
  }

  lemma ThenGroup(ts: seq<Token>, ps: seq<Value>, d: seq<Token>, rest: seq<Token>, args: seq<Value>)
    requires ts != [] && ts[0] == LParen && Between(ts[1..], ps, d, [RParen] + rest, args)
    ensures Between(ts, ps, [LParen] + d + [RParen], rest, args)
  {
    BalancedGroup(d);
    assert ts == [LParen] + d + [RParen] + rest;
  }

  lemma Plain(ts: seq<Token>, ps: seq<Value>, n: nat)
    requires n <= |ts| && forall i :: 0 <= i < n ==> ts[i] != LParen && ts[i] != RParen && ts[i] != Placeholder
    ensures Between(ts, ps, ts[..n], ts[n..], ps)
  {
    if n == 0 {
      BalancedNone();
      assert ts[..0] == [] && ts == [] + ts[0..] && ps[0..] == ps;
    } else {
      Plain(ts[1..], ps, n - 1);
      assert ts[1..][n - 1..] == ts[n..];
      ThenToken(ts, ps, ts[0], ts[1..][..n - 1], ts[n..], ps);
      assert [ts[0]] + ts[1..][..n - 1] == ts[..n];
    }
  }

  /** Some words, then what follows them. */
  lemma WordsThen(ts: seq<Token>, ps: seq<Value>, n: nat, r: Parsed<Sql>, q: Parsed<Sql>)
    requires n <= |ts| && forall i :: 0 <= i < n ==> ts[i] != LParen && ts[i] != RParen && ts[i] != Placeholder
    requires Consumes(ts[n..], ps, r) && (q.Got? ==> r.Got? && q.rest == r.rest && q.args == r.args)
    ensures Consumes(ts, ps, q)
  {
    if q.Got? {
      var c: seq<Token> :| Between(ts[n..], ps, c, r.rest, r.args);
      Plain(ts, ps, n);
      Then(ts, ps, ts[..n], ts[n..], ps, c, r.rest, r.args);
    }
  }

  lemma WordsThenGroup<T>(ts: seq<Token>, ps: seq<Value>, n: nat, r: Parsed<T>, q: Parsed<Sql>)
    requires n < |ts| && ts[n] == LParen && forall i :: 0 <= i < n ==> ts[i] != LParen && ts[i] != RParen && ts[i] != Placeholder
    requires ConsumesGroup(ts[n + 1..], ps, r) && (q.Got? ==> r.Got? && q.rest == r.rest && q.args == r.args)
    ensures Consumes(ts, ps, q)
  {
    if q.Got? {
      var c: seq<Token> :| Between(ts[n + 1..], ps, c, [RParen] + r.rest, r.args);
      assert ts[n..][1..] == ts[n + 1..];
      ThenGroup(ts[n..], ps, c, r.rest, r.args);
      Plain(ts, ps, n);
      Then(ts, ps, ts[..n], ts[n..], ps, [LParen] + c + [RParen], r.rest, r.args);
    }
  }

  /** Whatever is read, at any level and from any tokens, is a balanced stretch with its values. */
  lemma {:induction false} ParseShape(g: Grammar, n: nat, ts: seq<Token>, ps: seq<Value>)
    requires n <= 9
    ensures Consumes(ts, ps, Parse(g, n, ts, ps))
    decreases |ts|, 4
  {
    var first, r := ParsePrefix(g, ts, ps), Parse(g, n, ts, ps);
    PrefixShape(g, ts, ps);
    if r.Got? {
      TailShape(g, n, first.node, first.rest, first.args);
      var c: seq<Token> :| Between(ts, ps, c, first.rest, first.args);
      var d: seq<Token> :| Between(first.rest, first.args, d, r.rest, r.args);
      Then(ts, ps, c, first.rest, first.args, d, r.rest, r.args);
    }
  }

  lemma {:induction false} PrefixShape(g: Grammar, ts: seq<Token>, ps: seq<Value>)
    ensures Consumes(ts, ps, ParsePrefix(g, ts, ps))
    decreases |ts|, 3
  {
    if ts != [] && ts[0] == Kw(NOT) && g == Full {
      ParseShape(Full, 7, ts[1..], ps);
      WordsThen(ts, ps, 1, Parse(Full, 7, ts[1..], ps), ParsePrefix(g, ts, ps));
    } else if ts != [] && ts[0] == Sym(Minus) {
      ParseShape(g, 0, ts[1..], ps);
      WordsThen(ts, ps, 1, Parse(g, 0, ts[1..], ps), ParsePrefix(g, ts, ps));
    } else {
      PrimaryShape(ts, ps);
    }
  }

  lemma {:induction false} TailShape(g: Grammar, n: nat, left: Sql, ts: seq<Token>, ps: seq<Value>)
    requires n <= 9
    ensures Consumes(ts, ps, ParseTail(g, n, left, ts, ps))
    decreases |ts|, 1
  {
    if Takes(g, n, ts) {
      var step, r := ParseStep(g, left, ts, ps), ParseTail(g, n, left, ts, ps);
      StepShape(g, left, ts, ps);
      if r.Got? {
        TailShape(g, n, step.node, step.rest, step.args);
        var c: seq<Token> :| Between(ts, ps, c, step.rest, step.args);
        var d: seq<Token> :| Between(step.rest, step.args, d, r.rest, r.args);
        Then(ts, ps, c, step.rest, step.args, d, r.rest, r.args);
      }
    } else {
      BalancedNone();
      assert ts == [] + ts && ps[0..] == ps && Between(ts, ps, [], ts, ps);
    }
  }

  lemma {:induction false} StepShape(g: Grammar, left: Sql, ts: seq<Token>, ps: seq<Value>)
    requires Takes(g, 9, ts)
    ensures Consumes(ts, ps, ParseStep(g, left, ts, ps))
    decreases |ts|, 0
  {
    if IsInfix(ts[0]) {
      ParseShape(g, Continues(ts[0]) - 1, ts[1..], ps);
      WordsThen(ts, ps, 1, Parse(g, Continues(ts[0]) - 1, ts[1..], ps), ParseStep(g, left, ts, ps));
    } else if ts[0] == Sym(DoubleColon) {
      Plain(ts, ps, 2);
    } else if ts[0] == Kw(IS) {
      TestShape(g, left, ts, ps);
    } else {
      var n := if ts[0] == Kw(IN) then 1 else 2;
      ListShape(ts[n + 1..], ps);
      WordsThenGroup(ts, ps, n, ParseList(ts[n + 1..], ps), ParseStep(g, left, ts, ps));
    }
  }

  lemma {:induction false} TestShape(g: Grammar, left: Sql, ts: seq<Token>, ps: seq<Value>)
    requires Takes(g, 9, ts) && ts[0] == Kw(IS)
    ensures Consumes(ts, ps, ParseTest(g, left, ts, ps))
    decreases |ts|, 0, 0
  {
    if ts[1] == Kw(NULL) {
      Plain(ts, ps, 2);
    } else if ts[2] == Kw(NULL) {
      Plain(ts, ps, 3);
    } else {
      ParseShape(g, 5, ts[4..], ps);
      NotDistinctShape(g, left, ts, ps, Parse(g, 5, ts[4..], ps));
    }
  }

  lemma NotDistinctShape(g: Grammar, left: Sql, ts: seq<Token>, ps: seq<Value>, right: Parsed<Sql>)
    requires NotDistinctTokens <= ts && right == Parse(g, 5, ts[4..], ps) && Consumes(ts[4..], ps, right)
    ensures Consumes(ts, ps, ParseTest(g, left, ts, ps))
  {
    assert forall i :: 0 <= i < 4 ==> ts[i] == NotDistinctTokens[i];
    WordsThen(ts, ps, 4, right, ParseTest(g, left, ts, ps));
  }

  lemma {:induction false} PrimaryShape(ts: seq<Token>, ps: seq<Value>)
    ensures Consumes(ts, ps, ParsePrimary(ts, ps))
    decreases |ts|, 2
  {
    var r := ParsePrimary(ts, ps);
    if r.Got? {
      if ts[0] == LParen {
        GroupTaken(Full, 9, ts[1..], ps);
        WordsThenGroup(ts, ps, 0, Close(Parse(Full, 9, ts[1..], ps)), r);
      } else if ts[0].Fn? {
        CallShape(ts[0].fn, ts[2..], ps);
        WordsThenGroup(ts, ps, 1, ParseCall(ts[0].fn, ts[2..], ps), r);
      } else if ts[0] == Placeholder {
        BalancedOne(Placeholder);
        assert Between(ts, ps, [Placeholder], r.rest, r.args);
      } else {
        Plain(ts, ps, 1);
      }
    }
  }

  lemma {:induction false} GroupTaken(g: Grammar, n: nat, ts: seq<Token>, ps: seq<Value>)
    requires n <= 9
    ensures ConsumesGroup(ts, ps, Close(Parse(g, n, ts, ps)))
    decreases |ts|, 5
  {
    var r := Parse(g, n, ts, ps);
    ParseShape(g, n, ts, ps);
    if Close(r).Got? { assert [RParen] + r.rest[1..] == r.rest; }
  }

  lemma {:induction false} CallShape(fn: Function, ts: seq<Token>, ps: seq<Value>)
    ensures ConsumesGroup(ts, ps, ParseCall(fn, ts, ps))
    decreases |ts|, 7
  {
    if fn == Position {
      PositionShape(ts, ps);
    } else if fn == Count && |ts| >= 2 && ts[0] == Sym(Star) && ts[1] == RParen {
      Plain(ts, ps, 1);
      assert ts[1..] == [RParen] + ts[2..];
    } else if ts != [] && ts[0] == Kw(DISTINCT) {
      ListShape(ts[1..], ps);
      var args := ParseList(ts[1..], ps);
      if args.Got? {
        var c: seq<Token> :| Between(ts[1..], ps, c, [RParen] + args.rest, args.args);
        ThenToken(ts, ps, Kw(DISTINCT), c, [RParen] + args.rest, args.args);
      }
    } else {
      ListShape(ts, ps);
    }
  }

  /** A stretch, a separator and a group's remainder. */
  lemma Separated<T>(ts: seq<Token>, ps: seq<Value>, t: Token, first: Parsed<Sql>, r: Parsed<T>)
    requires Consumes(ts, ps, first) && first.Got? && first.rest != [] && first.rest[0] == t
    requires t != LParen && t != RParen && t != Placeholder && ConsumesGroup(first.rest[1..], first.args, r)
    ensures ConsumesGroup(ts, ps, r)
  {
    if r.Got? {
      var a: seq<Token> :| Between(ts, ps, a, first.rest, first.args);
      var c: seq<Token> :| Between(first.rest[1..], first.args, c, [RParen] + r.rest, r.args);
      ThenToken(first.rest, first.args, t, c, [RParen] + r.rest, r.args);
      Then(ts, ps, a, first.rest, first.args, [t] + c, [RParen] + r.rest, r.args);
    }
  }

  lemma {:induction false} PositionShape(ts: seq<Token>, ps: seq<Value>)
    ensures ConsumesGroup(ts, ps, ParseCall(Position, ts, ps))
    decreases |ts|, 6
  {
    var needle := Parse(Restricted, 6, ts, ps);
    ParseShape(Restricted, 6, ts, ps);
    if ParseCall(Position, ts, ps).Got? {
      GroupTaken(Restricted, 6, needle.rest[1..], needle.args);
      Separated(ts, ps, Kw(IN), needle, Close(Parse(Restricted, 6, needle.rest[1..], needle.args)));
    }
  }

  lemma {:induction false} ListShape(ts: seq<Token>, ps: seq<Value>)
    ensures ConsumesGroup(ts, ps, ParseList(ts, ps))
    decreases |ts|, 6
  {
    var first, r := Parse(Full, 9, ts, ps), ParseList(ts, ps);
    ParseShape(Full, 9, ts, ps);
    if r.Got? {
      if first.rest[0] == RParen {
        assert [RParen] + first.rest[1..] == first.rest;
      } else {
        ListShape(first.rest[1..], first.args);
        Separated(ts, ps, Comma, first, ParseList(first.rest[1..], first.args));
      }
    }
  }

  // --- Where it stops ---

  lemma {:induction false} TailStops(g: Grammar, n: nat, left: Sql, ts: seq<Token>, ps: seq<Value>)
    requires n <= 9
    ensures var r := ParseTail(g, n, left, ts, ps); r.Got? ==> !Takes(g, n, r.rest)
    decreases |ts|
  {
    if Takes(g, n, ts) {
      var step := ParseStep(g, left, ts, ps);
      if step.Got? { TailStops(g, n, step.node, step.rest, step.args); }
    }
  }

  /** A reading stops only where no operator of its level, or a tighter one, comes next. */
  lemma ParseStops(g: Grammar, n: nat, ts: seq<Token>, ps: seq<Value>)
    requires n <= 9
    ensures var r := Parse(g, n, ts, ps); r.Got? ==> !Takes(g, n, r.rest)
  {
    var first := ParsePrefix(g, ts, ps);
    if first.Got? { TailStops(g, n, first.node, first.rest, first.args); }
  }

  // --- How its tree grows ---

  predicate HasLeft(t: Sql) { t.Op? || t.Both? || t.Either? || t.NullTest? || t.NotDistinct? || t.Member? || t.Cast? }

  function LeftOf(t: Sql): Sql
    requires HasLeft(t)
  {
    match t
    case Op(_, x, _) => x
    case Both(x, _) => x
    case Either(x, _) => x
    case NullTest(x, _) => x
    case NotDistinct(x, _) => x
    case Member(x, _, _) => x
    case Cast(x, _) => x
  }

  /** How many left operands deep the tree goes. */
  function Spine(t: Sql): nat { if HasLeft(t) then 1 + Spine(LeftOf(t)) else 0 }

  predicate OnSpine(x: Sql, t: Sql) { x == t || (HasLeft(t) && OnSpine(x, LeftOf(t))) }

  lemma {:induction false} SpineBounds(x: Sql, t: Sql)
    requires OnSpine(x, t)
    ensures Spine(x) <= Spine(t) && (Spine(x) == Spine(t) ==> x == t)
  {
    if x != t { SpineBounds(x, LeftOf(t)); }
  }

  /** The spine holds one tree of each depth. */
  lemma {:induction false} OneOnSpine(x: Sql, y: Sql, t: Sql)
    requires OnSpine(x, t) && OnSpine(y, t) && Spine(x) == Spine(y)
    ensures x == y
  {
    SpineBounds(x, t);
    SpineBounds(y, t);
    if x != t { OneOnSpine(x, y, LeftOf(t)); }
  }

  lemma {:induction false} SpineTrans(x: Sql, y: Sql, t: Sql)
    requires OnSpine(x, y) && OnSpine(y, t)
    ensures OnSpine(x, t)
  {
    if y != t { SpineTrans(x, y, LeftOf(t)); }
  }

  /** The new tree has the old one as its left operand. */
  predicate Extends(left: Sql, t: Sql) { HasLeft(t) && LeftOf(t) == left }

  lemma CombineExtends(t: Token, left: Sql, right: Sql)
    ensures Extends(left, Combine(t, left, right))
  {
  }

  lemma TestExtends(g: Grammar, left: Sql, ts: seq<Token>, ps: seq<Value>)
    requires Takes(g, 9, ts) && ts[0] == Kw(IS)
    ensures var r := ParseTest(g, left, ts, ps); r.Got? ==> Extends(left, r.node)
  {
  }

  lemma StepExtends(g: Grammar, left: Sql, ts: seq<Token>, ps: seq<Value>)
    requires Takes(g, 9, ts)
    ensures var r := ParseStep(g, left, ts, ps); r.Got? ==> Extends(left, r.node)
  {
    if IsInfix(ts[0]) {
      InfixExtends(g, left, ts, ps, Parse(g, Continues(ts[0]) - 1, ts[1..], ps));
    } else if ts[0] == Kw(IS) {
      TestExtends(g, left, ts, ps);
    }
  }

  lemma InfixExtends(g: Grammar, left: Sql, ts: seq<Token>, ps: seq<Value>, right: Parsed<Sql>)
    requires Takes(g, 9, ts) && IsInfix(ts[0]) && right == Parse(g, Continues(ts[0]) - 1, ts[1..], ps)
    ensures var r := ParseStep(g, left, ts, ps); r.Got? ==> Extends(left, r.node)
  {
    if right.Got? { CombineExtends(ts[0], left, right.node); }
  }

  lemma GrowsBy(left: Sql, step: Sql, t: Sql)
    requires Extends(left, step) && OnSpine(step, t)
    ensures OnSpine(left, t) && Spine(t) > Spine(left)
  {
    SpineTrans(left, step, t);
    SpineBounds(step, t);
  }

  /** What was read stays as the left operand of all that follows. */
  lemma {:induction false} TailGrows(g: Grammar, n: nat, left: Sql, ts: seq<Token>, ps: seq<Value>)
    requires n <= 9
    ensures var r := ParseTail(g, n, left, ts, ps);
      r.Got? ==> OnSpine(left, r.node) && (Takes(g, n, ts) ==> Spine(r.node) > Spine(left))
    decreases |ts|
  {
    var r := ParseTail(g, n, left, ts, ps);
    if Takes(g, n, ts) && r.Got? {
      var step := ParseStep(g, left, ts, ps);
      StepExtends(g, left, ts, ps);
      TailGrows(g, n, step.node, step.rest, step.args);
      GrowsBy(left, step.node, r.node);
    }
  }

  // --- How loose its root is ---

  /** The level of a tree's root; atoms, casts and calls are tight. */
  function RootLevel(t: Sql): nat {
    match t
    case Either(_, _) => 9
    case Both(_, _) => 8
    case Not(_) => 7
    case NullTest(_, _) => 6
    case NotDistinct(_, _) => 6
    case Member(_, _, _) => 4
    case Op(s, _, _) => Continues(Sym(s))
    case _ => 0
  }

  lemma RootOfMapped(f: Value -> Value, t: Sql)
    ensures RootLevel(MapTree(f, t)) == RootLevel(t)
  {
  }

  /** Once nothing as tight as NOT can follow, the root is only replaced by a looser one. */
  lemma {:induction false} TailRoot(k: nat, left: Sql, ts: seq<Token>, ps: seq<Value>)
    requires 7 <= k <= 9 && !Takes(Full, k, ts)
    ensures var r := ParseTail(Full, 9, left, ts, ps); r.Got? ==> r.node == left || RootLevel(r.node) > k
    decreases |ts|
  {
    if Takes(Full, 9, ts) && ParseStep(Full, left, ts, ps).Got? {
      LooseToken(k, ts);
      var step := ParseStep(Full, left, ts, ps);
      WordStep(left, ts, ps);
      TailRoot(Continues(ts[0]) - 1, step.node, step.rest, step.args);
    }
  }

  lemma WordStep(left: Sql, ts: seq<Token>, ps: seq<Value>)
    requires ts != [] && (ts[0] == Kw(AND) || ts[0] == Kw(OR))
    ensures var step := ParseStep(Full, left, ts, ps);
      step.Got? ==> RootLevel(step.node) == Continues(ts[0]) && !Takes(Full, Continues(ts[0]) - 1, step.rest)
  {
    ParseStops(Full, Continues(ts[0]) - 1, ts[1..], ps);
  }

  lemma LooseToken(k: nat, ts: seq<Token>)
    requires 7 <= k && !Takes(Full, k, ts) && Takes(Full, 9, ts)
    ensures (ts[0] == Kw(AND) && k == 7) || (ts[0] == Kw(OR) && k <= 8)
  {
    match ts[0]
    case Kw(w) =>
    case Sym(s) =>
  }

  /** Tokens that start with NOT are read as a negation or something looser. */
  lemma NotRoot(ts: seq<Token>, ps: seq<Value>)
    requires ts != [] && ts[0] == Kw(NOT)
    ensures var r := Parse(Full, 9, ts, ps); r.Got? ==> RootLevel(r.node) >= 7
  {
    var arg := Parse(Full, 7, ts[1..], ps);
    ParseStops(Full, 7, ts[1..], ps);
    if arg.Got? { TailRoot(7, Not(arg.node), arg.rest, arg.args); }
  }

  /** After AND or OR the root is at least as loose. */
  lemma WordRoot(left: Sql, word: Word, us: seq<Token>, ps: seq<Value>)
    requires word == AND || word == OR
    ensures var r := ParseTail(Full, 9, left, [Kw(word)] + us, ps); r.Got? ==> RootLevel(r.node) >= Continues(Kw(word))
  {
    var ts := [Kw(word)] + us;
    var step := ParseStep(Full, left, ts, ps);
    WordStep(left, ts, ps);
    if step.Got? { TailRoot(Continues(Kw(word)) - 1, step.node, step.rest, step.args); }
  }
}
