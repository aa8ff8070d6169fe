/** Stretches of tokens: parentheses that match within them, and the placeholders they hold. */
module TokenShape {
  import opened SqlSyntax

  function Nest(t: Token, d: nat): nat {
    if t == LParen then d + 1 else if t == RParen then (if d == 0 then 0 else d - 1) else d
  }

  /** The nesting depth after some tokens. */
  function Depth(ts: seq<Token>, d: nat): nat {
    if ts == [] then d else Depth(ts[1..], Nest(ts[0], d))
  }

  lemma {:induction false} AppendDepth(a: seq<Token>, b: seq<Token>, d: nat)
    ensures Depth(a + b, d) == Depth(b, Depth(a, d))
  {
    if a == [] {
      assert a + b == b;
    } else {
      assert (a + b)[0] == a[0] && (a + b)[1..] == a[1..] + b;
      AppendDepth(a[1..], b, Nest(a[0], d));
    }
  }

  /** How many values the tokens take. */
  function Slots(ts: seq<Token>): nat {
    if ts == [] then 0 else (if ts[0] == Placeholder then 1 else 0) + Slots(ts[1..])
  }

  lemma {:induction false} AppendSlots(a: seq<Token>, b: seq<Token>)
    ensures Slots(a + b) == Slots(a) + Slots(b)
  {
    if a == [] {
      assert a + b == b;
    } else {
      assert (a + b)[0] == a[0] && (a + b)[1..] == a[1..] + b;
      AppendSlots(a[1..], b);
    }
  }

  /** Every parenthesis is matched within the tokens. */
  ghost predicate Balanced(c: seq<Token>) { forall d: nat :: Depth(c, d) == d }

  lemma BalancedOne(t: Token)
    requires t != LParen && t != RParen
    ensures Balanced([t]) && Slots([t]) == if t == Placeholder then 1 else 0
  {
    assert [t][1..] == [];
  }

  lemma BalancedNone()
    ensures Balanced([]) && Slots([]) == 0
  {
  }

  lemma BalancedAppend(a: seq<Token>, b: seq<Token>)
    requires Balanced(a) && Balanced(b)
    ensures Balanced(a + b) && Slots(a + b) == Slots(a) + Slots(b)
  {
    AppendSlots(a, b);
    forall d: nat ensures Depth(a + b, d) == d {
      AppendDepth(a, b, d);
      assert Depth(a, d) == d && Depth(b, d) == d;
    }
  }

  lemma BalancedGroup(c: seq<Token>)
    requires Balanced(c)
    ensures Balanced([LParen] + c + [RParen]) && Slots([LParen] + c + [RParen]) == Slots(c)
  {
    AppendSlots([LParen] + c, [RParen]);
    AppendSlots([LParen], c);
    assert [LParen][1..] == [] && [RParen][1..] == [];
    forall d: nat ensures Depth([LParen] + c + [RParen], d) == d {
      AppendDepth([LParen] + c, [RParen], d);
      AppendDepth([LParen], c, d);
      assert Depth(c, d + 1) == d + 1;
    }
  }

  /** The parenthesis that closes a group is unique. */
  lemma UniqueClose(a: seq<Token>, x: seq<Token>, b: seq<Token>, y: seq<Token>)
    requires Balanced(a) && Balanced(b) && a + ([RParen] + x) == b + ([RParen] + y)
    ensures a == b && x == y
  {
    var all := a + ([RParen] + x);
    if |a| < |b| { NoEarlyClose(a, x, b, y); }
    if |b| < |a| { NoEarlyClose(b, y, a, x); }
    assert a == all[..|a|] && b == all[..|b|] && x == all[|a| + 1..] && y == all[|b| + 1..];
  }

  lemma NoEarlyClose(a: seq<Token>, x: seq<Token>, b: seq<Token>, y: seq<Token>)
    requires Balanced(a) && Balanced(b) && a + ([RParen] + x) == b + ([RParen] + y)
    ensures |a| >= |b|
  {
    if |a| < |b| {
      var all := a + ([RParen] + x);
      assert b == all[..|b|] && a == all[..|a|] && all[|a|] == RParen;
      var r := b[|a| + 1..];
      assert b == a + [RParen] + r;
      NotBalanced(a, r);
    }
  }

  lemma NotBalanced(a: seq<Token>, r: seq<Token>)
    requires Balanced(a)
    ensures !Balanced(a + [RParen] + r)
  {
    ClosedTail(a, r, 0);
    ClosedTail(a, r, 1);
  }

  lemma ClosedTail(a: seq<Token>, r: seq<Token>, d: nat)
    requires Balanced(a)
    ensures Depth(a + [RParen] + r, d) == Depth(r, if d == 0 then 0 else d - 1)
  {
    AppendDepth(a + [RParen], r, d);
    AppendDepth(a, [RParen], d);
    assert Depth(a, d) == d && [RParen][1..] == [];
  }
}
