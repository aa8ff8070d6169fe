/** A list of groups joined by AND or OR can only be read group by group. */
module GroupsExact {
  import opened SqlSyntax
  import opened ParserFacts
  import opened TokenShape
  import opened ParsedShape
  import opened ExpressionCompiler
  import opened CompilerCorrectness

  /** Parentheses match within the text, and it has a value for each placeholder. */
  ghost predicate Sound(b: BoundStatement) { Balanced(b.command) && Slots(b.command) == |b.parameters| }

  /** Inside parentheses the statement, with its values, was read as `node`. */
  ghost predicate Reading(b: BoundStatement, f: Value -> Value, node: Sql) {
    exists rest: seq<Token>, more: seq<Value> ::
      Parse(Full, 9, b.command + ([RParen] + rest), MapValues(f, b.parameters) + more) == Got(node, [RParen] + rest, more)
  }

  lemma MeansSound(b: BoundStatement, f: Value -> Value, t: Sql)
    requires Means(9, b, f, t)
    ensures Sound(b)
  {
    var ps := MapValues(f, b.parameters);
    Reads(9, b.command, ps, MapTree(f, t), [], []);
    assert b.command + [] == b.command && ps + [] == ps;
    ParseShape(Full, 9, b.command, ps);
    var c: seq<Token> :| Between(b.command, ps, c, [], []);
    assert c + [] == c;
  }

  /** The text of a parenthesised group is read up to its own closing parenthesis. */
  lemma GroupRead(b: BoundStatement, f: Value -> Value, rest: seq<Token>, more: seq<Value>)
    requires Sound(b)
    ensures var q := ParsePrimary(Wrap(b.command) + rest, MapValues(f, b.parameters) + more);
      q.Got? ==> q.rest == rest && q.args == more && Reading(b, f, q.node)
  {
    var all, us, ps := Wrap(b.command) + rest, b.command + ([RParen] + rest), MapValues(f, b.parameters) + more;
    assert all[1..] == us;
    var r, q := Parse(Full, 9, us, ps), ParsePrimary(all, ps);
    ParseShape(Full, 9, us, ps);
    if q.Got? {
      var c: seq<Token> :| Between(us, ps, c, r.rest, r.args);
      assert r.rest == [RParen] + q.rest;
      UniqueClose(c, q.rest, b.command, rest);
      assert ps[|b.parameters|..] == more;
    }
  }

  /** A group is read, and what follows goes on from it. */
  lemma GroupThen(n: nat, b: BoundStatement, f: Value -> Value, rest: seq<Token>, more: seq<Value>)
    requires n <= 9 && Sound(b)
    ensures var r := Parse(Full, n, Wrap(b.command) + rest, MapValues(f, b.parameters) + more);
      r.Got? ==> exists node: Sql :: Reading(b, f, node) && r == ParseTail(Full, n, node, rest, more)
  {
    GroupRead(b, f, rest, more);
  }

  // --- Lists of groups ---

  predicate Joins(n: nat, word: Word) { (n == 8 && word == AND) || (n == 9 && word == OR) }

  ghost predicate AllSound(parts: seq<BoundStatement>) { forall b :: b in parts ==> Sound(b) }

  ghost predicate GroupsRead(parts: seq<BoundStatement>, f: Value -> Value, nodes: seq<Sql>) {
    |nodes| == |parts| && forall k :: 0 <= k < |parts| ==> Reading(parts[k], f, nodes[k])
  }

  /** The groups were read one by one, and the chain goes on with `rest`. */
  ghost predicate ChainRead(n: nat, parts: seq<BoundStatement>, f: Value -> Value, rest: seq<Token>, more: seq<Value>, r: Parsed<Sql>)
    requires n == 8 || n == 9
  {
    r.Got? ==> exists nodes: seq<Sql> :: GroupsRead(parts, f, nodes) && r == ParseTail(Full, 9, Folded(n, nodes), rest, more)
  }

  lemma OneGroupRead(n: nat, part: BoundStatement, f: Value -> Value, rest: seq<Token>, more: seq<Value>)
    requires (n == 8 || n == 9) && Sound(part)
    ensures ChainRead(n, [part], f, rest, more, Parse(Full, 9, Wrap(part.command) + rest, MapValues(f, part.parameters) + more))
  {
    var r := Parse(Full, 9, Wrap(part.command) + rest, MapValues(f, part.parameters) + more);
    GroupThen(9, part, f, rest, more);
    if r.Got? {
      var node: Sql :| Reading(part, f, node) && r == ParseTail(Full, 9, node, rest, more);
      assert GroupsRead([part], f, [node]) && Folded(n, [node]) == node;
    }
  }

  lemma FoldedMore(n: nat, word: Word, nodes: seq<Sql>, node: Sql)
    requires nodes != [] && Joins(n, word)
    ensures Folded(n, nodes + [node]) == Combine(Kw(word), Folded(n, nodes), node)
  {
    assert (nodes + [node])[..|nodes|] == nodes;
  }

  lemma TailOfGroup(n: nat, word: Word, left: Sql, last: BoundStatement, f: Value -> Value, rest: seq<Token>, more: seq<Value>)
    requires Joins(n, word) && Sound(last) && Stops(n - 1, rest)
    ensures var r := ParseTail(Full, 9, left, [Kw(word)] + (Wrap(last.command) + rest), MapValues(f, last.parameters) + more);
      r.Got? ==> exists node: Sql :: Reading(last, f, node) && r == ParseTail(Full, 9, Combine(Kw(word), left, node), rest, more)
  {
    var us, args := Wrap(last.command) + rest, MapValues(f, last.parameters) + more;
    GroupThen(n - 1, last, f, rest, more);
    var right := Parse(Full, n - 1, us, args);
    if right.Got? {
      TailStep(Full, 9, left, Kw(word), us, args, right);
    } else {
      TailFails(Full, 9, left, Kw(word), us, args);
    }
  }

  lemma ChainGrows(n: nat, word: Word, parts: seq<BoundStatement>, nodes: seq<Sql>, last: BoundStatement, node: Sql, f: Value -> Value,
                   rest: seq<Token>, more: seq<Value>, r: Parsed<Sql>)
    requires Joins(n, word) && parts != [] && GroupsRead(parts, f, nodes) && Reading(last, f, node)
    requires r == ParseTail(Full, 9, Combine(Kw(word), Folded(n, nodes), node), rest, more)
    ensures ChainRead(n, parts + [last], f, rest, more, r)
  {
    FoldedMore(n, word, nodes, node);
    assert GroupsRead(parts + [last], f, nodes + [node]);
  }

  lemma OneMoreGroup(n: nat, word: Word, parts: seq<BoundStatement>, last: BoundStatement, f: Value -> Value, rest: seq<Token>, more: seq<Value>, r: Parsed<Sql>)
    requires Joins(n, word) && Sound(last) && Stops(n - 1, rest) && parts != []
    requires ChainRead(n, parts, f, [Kw(word)] + (Wrap(last.command) + rest), MapValues(f, last.parameters) + more, r)
    ensures ChainRead(n, parts + [last], f, rest, more, r)
  {
    if r.Got? {
      var tail, args := [Kw(word)] + (Wrap(last.command) + rest), MapValues(f, last.parameters) + more;
      var nodes: seq<Sql> :| GroupsRead(parts, f, nodes) && r == ParseTail(Full, 9, Folded(n, nodes), tail, args);
      TailOfGroup(n, word, Folded(n, nodes), last, f, rest, more);
      var node: Sql :| Reading(last, f, node) && r == ParseTail(Full, 9, Combine(Kw(word), Folded(n, nodes), node), rest, more);
      ChainGrows(n, word, parts, nodes, last, node, f, rest, more, r);
    }
  }

  lemma JoinedTokens(word: Word, init: seq<BoundStatement>, last: BoundStatement, f: Value -> Value, rest: seq<Token>, more: seq<Value>)
    requires init != []
    ensures Joined(word, init + [last]) + rest == Joined(word, init) + ([Kw(word)] + (Wrap(last.command) + rest))
    ensures MapValues(f, AllParameters(init + [last])) + more == MapValues(f, AllParameters(init)) + (MapValues(f, last.parameters) + more)
  {
    JoinedPush(word, init, last);
    MapAppend(f, AllParameters(init), last.parameters);
    Assoc4(Joined(word, init), [Kw(word)], Wrap(last.command), rest);
    Assoc(MapValues(f, AllParameters(init)), MapValues(f, last.parameters), more);
  }

  lemma {:induction false} JoinedRead(n: nat, word: Word, parts: seq<BoundStatement>, f: Value -> Value, rest: seq<Token>, more: seq<Value>)
    requires Joins(n, word) && parts != [] && AllSound(parts) && Stops(n - 1, rest)
    ensures ChainRead(n, parts, f, rest, more,
                      Parse(Full, 9, Joined(word, parts) + rest, MapValues(f, AllParameters(parts)) + more))
  {
    var k := |parts| - 1;
    var init, last := parts[..k], parts[k];
    assert last in parts && parts == init + [last];
    if k == 0 {
      assert AllParameters(parts) == last.parameters;
      OneGroupRead(n, last, f, rest, more);
    } else {
      JoinedRead(n, word, init, f, [Kw(word)] + (Wrap(last.command) + rest), MapValues(f, last.parameters) + more);
      JoinedTokens(word, init, last, f, rest, more);
      OneMoreGroup(n, word, init, last, f, rest, more, Parse(Full, 9, Joined(word, parts) + rest, MapValues(f, AllParameters(parts)) + more));
    }
  }

  lemma {:induction false} FoldedInjective(n: nat, a: seq<Sql>, b: seq<Sql>)
    requires (n == 8 || n == 9) && |a| == |b| && Folded(n, a) == Folded(n, b)
    ensures a == b
  {
    if a != [] {
      var k := |a| - 1;
      if k > 0 { FoldedInjective(n, a[..k], b[..k]); }
      assert a == a[..k] + [a[k]] && b == b[..k] + [b[k]];
    }
  }

  function List(word: Word, parts: seq<BoundStatement>): BoundStatement
    requires parts != []
  {
    BoundStatement(Joined(word, parts), AllParameters(parts))
  }

  /** A list read as the conjunction or disjunction of as many trees: every group was read as its own tree. */
  lemma ListRead(n: nat, word: Word, parts: seq<BoundStatement>, f: Value -> Value, trees: seq<Sql>)
    requires Joins(n, word) && parts != [] && |trees| == |parts| && AllSound(parts)
    requires Reading(List(word, parts), f, MapTree(f, Folded(n, trees)))
    ensures GroupsRead(parts, f, MapTrees(f, trees))
  {
    var rest: seq<Token>, more: seq<Value> :|
      Parse(Full, 9, Joined(word, parts) + ([RParen] + rest), MapValues(f, AllParameters(parts)) + more)
      == Got(MapTree(f, Folded(n, trees)), [RParen] + rest, more);
    JoinedRead(n, word, parts, f, [RParen] + rest, more);
    ListFolded(n, word, parts, f, trees, [RParen] + rest, more);
  }

  lemma WholeListRead(n: nat, word: Word, parts: seq<BoundStatement>, f: Value -> Value, trees: seq<Sql>)
    requires Joins(n, word) && parts != [] && |trees| == |parts| && AllSound(parts)
    requires ParseAll(Joined(word, parts), MapValues(f, AllParameters(parts))) == Got(MapTree(f, Folded(n, trees)), [], [])
    ensures GroupsRead(parts, f, MapTrees(f, trees))
  {
    JoinedRead(n, word, parts, f, [], []);
    assert Joined(word, parts) + [] == Joined(word, parts);
    assert MapValues(f, AllParameters(parts)) + [] == MapValues(f, AllParameters(parts));
    ListFolded(n, word, parts, f, trees, [], []);
  }

  lemma ListFolded(n: nat, word: Word, parts: seq<BoundStatement>, f: Value -> Value, trees: seq<Sql>, rest: seq<Token>, more: seq<Value>)
    requires Joins(n, word) && |trees| == |parts| && Stops(9, rest)
    requires ChainRead(n, parts, f, rest, more, Got(MapTree(f, Folded(n, trees)), rest, more))
    ensures GroupsRead(parts, f, MapTrees(f, trees))
  {
    var r := Got(MapTree(f, Folded(n, trees)), rest, more);
    var nodes: seq<Sql> :| GroupsRead(parts, f, nodes) && r == ParseTail(Full, 9, Folded(n, nodes), rest, more);
    MapFolded(n, f, trees);
    FoldedInjective(n, nodes, MapTrees(f, trees));
  }

  lemma {:induction false} MapFolded(n: nat, f: Value -> Value, ts: seq<Sql>)
    requires n == 8 || n == 9
    ensures MapTree(f, Folded(n, ts)) == Folded(n, MapTrees(f, ts))
  {
    var us := MapTrees(f, ts);
    if |ts| > 1 {
      var k := |ts| - 1;
      MapTreesAt(f, ts, k);
      MapTreesTake(f, ts, k);
      MapFolded(n, f, ts[..k]);
    } else if |ts| == 1 {
      MapTreesAt(f, ts, 0);
    }
  }

  lemma {:induction false} MapTreesAt(f: Value -> Value, ts: seq<Sql>, i: nat)
    requires i < |ts|
    ensures MapTrees(f, ts)[i] == MapTree(f, ts[i])
  {
    if i > 0 { MapTreesAt(f, ts[1..], i - 1); }
  }

  lemma {:induction false} MapTreesTake(f: Value -> Value, ts: seq<Sql>, k: nat)
    requires k <= |ts|
    ensures MapTrees(f, ts)[..k] == MapTrees(f, ts[..k])
  {
    if k > 0 {
      MapTreesTake(f, ts[1..], k - 1);
      assert ts[..k][1..] == ts[1..][..k - 1] && ts[..k][0] == ts[0];
      assert MapTrees(f, ts)[1..] == MapTrees(f, ts[1..]);
    }
  }

  /** What is read in parentheses of its own is read without them. */
  lemma Unwrapped(b: BoundStatement, f: Value -> Value, node: Sql)
    requires Sound(b) && Reading(BoundStatement(Wrap(b.command), b.parameters), f, node)
    ensures Reading(b, f, node)
  {
    var rest: seq<Token>, more: seq<Value> :|
      Parse(Full, 9, Wrap(b.command) + ([RParen] + rest), MapValues(f, b.parameters) + more) == Got(node, [RParen] + rest, more);
    GroupThen(9, b, f, [RParen] + rest, more);
  }

  lemma WholeGroup(b: BoundStatement, f: Value -> Value, node: Sql)
    requires Sound(b) && ParseAll(Wrap(b.command), MapValues(f, b.parameters)) == Got(node, [], [])
    ensures Reading(b, f, node)
  {
    GroupThen(9, b, f, [], []);
    assert Wrap(b.command) + [] == Wrap(b.command) && MapValues(f, b.parameters) + [] == MapValues(f, b.parameters);
  }

  // --- Sound texts ---

  lemma SortedSound(e: Expr)
    requires Compile(e).Some? && WellSorted(e)
    ensures Sound(Compile(e).value)
  {
    var id := (v: Value) => v;
    Reads9(e, id);
    MeansSound(Compile(e).value, id, Tree(e));
  }

  lemma ComparedSound(a: BoundStatement, s: Symbol, b: BoundStatement)
    requires Sound(a) && Sound(b)
    ensures Sound(Compared(a, s, b))
  {
    BalancedOne(Sym(s));
    BalancedAppend(a.command, [Sym(s)]);
    BalancedAppend(a.command + [Sym(s)], b.command);
  }

  /** A statement followed by tokens without values. */
  lemma FollowedSound(a: BoundStatement, ts: seq<Token>)
    requires Sound(a) && Balanced(ts) && Slots(ts) == 0
    ensures Sound(BoundStatement(a.command + ts, a.parameters))
  {
    BalancedAppend(a.command, ts);
  }

  lemma {:induction false} Words(ws: seq<Token>)
    requires forall i :: 0 <= i < |ws| ==> ws[i].Kw?
    ensures Balanced(ws) && Slots(ws) == 0
  {
    if ws == [] {
      BalancedNone();
    } else {
      Words(ws[1..]);
      BalancedOne(ws[0]);
      BalancedAppend([ws[0]], ws[1..]);
      assert ws == [ws[0]] + ws[1..];
    }
  }

  lemma InfixedSound(a: seq<Token>, t: Token, b: seq<Token>)
    requires Balanced(a) && Balanced(b) && t != LParen && t != RParen && t != Placeholder
    ensures Balanced(a + [t] + b) && Slots(a + [t] + b) == Slots(a) + Slots(b)
  {
    BalancedOne(t);
    BalancedAppend(a, [t]);
    BalancedAppend(a + [t], b);
  }

  lemma {:induction false} JoinedSound(word: Word, parts: seq<BoundStatement>)
    requires parts != [] && AllSound(parts)
    ensures Sound(List(word, parts))
  {
    var k := |parts| - 1;
    var init, last := parts[..k], parts[k];
    assert last in parts && parts == init + [last];
    if k == 0 {
      OneSound(word, last);
    } else {
      JoinedSound(word, init);
      PushSound(word, init, last);
    }
  }

  lemma OneSound(word: Word, last: BoundStatement)
    requires Sound(last)
    ensures Sound(List(word, [last]))
  {
    BalancedGroup(last.command);
    assert [last][..0] == [] && AllParameters([last]) == [] + last.parameters;
  }

  lemma PushSound(word: Word, init: seq<BoundStatement>, last: BoundStatement)
    requires init != [] && Sound(List(word, init)) && Sound(last)
    ensures Sound(List(word, init + [last]))
  {
    BalancedGroup(last.command);
    JoinedPush(word, init, last);
    InfixedSound(Joined(word, init), Kw(word), Wrap(last.command));
  }
}
