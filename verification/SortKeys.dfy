/** ORDER BY with directions and null placement: a strict total order on key tuples, and sorted listings. */
module SortKeys {
  import opened Wrappers
  import Sets

  datatype Direction = Asc | Desc

  datatype Nulls = NullsFirst | NullsLast

  datatype Sort = Sort(direction: Direction, nulls: Nulls)

  /** A column value as its rank in the column's order; every countable total order embeds in the reals. */
  type Cell = Option<real>

  type Key = seq<Cell>

  /** `x` comes strictly before `y` under ORDER BY with this direction and null placement. */
  predicate CellBefore(s: Sort, x: Cell, y: Cell) {
    match (x, y)
    case (None, None) => false
    case (None, Some(_)) => s.nulls == NullsFirst
    case (Some(_), None) => s.nulls == NullsLast
    case (Some(a), Some(b)) => if s.direction == Asc then a < b else b < a
  }

  /** Lexicographic order of whole keys. */
  predicate Before(sorts: seq<Sort>, a: Key, b: Key)
    requires |a| == |b| == |sorts|
  {
    sorts != [] && (CellBefore(sorts[0], a[0], b[0]) || (a[0] == b[0] && Before(sorts[1..], a[1..], b[1..])))
  }

  lemma {:induction false} BeforeIsIrreflexive(sorts: seq<Sort>, a: Key)
    requires |a| == |sorts|
    ensures !Before(sorts, a, a)
  {
    if sorts != [] { BeforeIsIrreflexive(sorts[1..], a[1..]); }
  }

  lemma {:induction false} BeforeIsTransitive(sorts: seq<Sort>, a: Key, b: Key, c: Key)
    requires |a| == |b| == |c| == |sorts| && Before(sorts, a, b) && Before(sorts, b, c)
    ensures Before(sorts, a, c)
  {
    if a[0] == b[0] == c[0] { BeforeIsTransitive(sorts[1..], a[1..], b[1..], c[1..]); }
  }

  lemma {:induction false} BeforeIsTotal(sorts: seq<Sort>, a: Key, b: Key)
    requires |a| == |b| == |sorts|
    ensures a == b || Before(sorts, a, b) || Before(sorts, b, a)
  {
    if sorts != [] && a[0] == b[0] {
      BeforeIsTotal(sorts[1..], a[1..], b[1..]);
      assert a == [a[0]] + a[1..] && b == [b[0]] + b[1..];
    }
  }

  predicate BeforeAt(sorts: seq<Sort>, a: Key, b: Key, i: nat)
    requires |a| == |b| == |sorts|
  {
    i < |sorts| && a[..i] == b[..i] && CellBefore(sorts[i], a[i], b[i])
  }

  /** A key is after another exactly when some column decides and all columns before it agree. */
  lemma {:induction false} BeforeIsDecidedSomewhere(sorts: seq<Sort>, a: Key, b: Key)
    requires |a| == |b| == |sorts|
    ensures Before(sorts, a, b) <==> exists i :: 0 <= i < |sorts| && BeforeAt(sorts, a, b, i)
  {
    if sorts != [] {
      BeforeIsDecidedSomewhere(sorts[1..], a[1..], b[1..]);
      if CellBefore(sorts[0], a[0], b[0]) {
        assert BeforeAt(sorts, a, b, 0);
      } else if Before(sorts, a, b) {
        var i :| 0 <= i < |sorts[1..]| && BeforeAt(sorts[1..], a[1..], b[1..], i);
        assert a[..i + 1] == [a[0]] + a[1..][..i] && b[..i + 1] == [b[0]] + b[1..][..i];
        assert BeforeAt(sorts, a, b, i + 1);
      }
      forall i | 0 <= i < |sorts| && BeforeAt(sorts, a, b, i) ensures Before(sorts, a, b) {
        if i > 0 {
          assert a[0] == a[..i][0] && b[0] == b[..i][0];
          assert a[1..][..i - 1] == a[..i][1..] && b[1..][..i - 1] == b[..i][1..];
          assert BeforeAt(sorts[1..], a[1..], b[1..], i - 1);
        }
      }
    }
  }

  // --- Sorted listings ---

  predicate AllKeys(sorts: seq<Sort>, keys: set<Key>) { forall k :: k in keys ==> |k| == |sorts| }

  ghost function Least(sorts: seq<Sort>, keys: set<Key>): (least: Key)
    requires keys != {} && AllKeys(sorts, keys)
    ensures least in keys && forall k :: k in keys && k != least ==> Before(sorts, least, k)
    decreases |keys|
  {
    var e := Sets.Pick(keys);
    if keys == {e} then e
    else
      assert keys == keys - {e} + {e};
      var m := Least(sorts, keys - {e});
      BeforeIsTotal(sorts, e, m);
      if Before(sorts, e, m) then
        assert forall k :: k in keys && k != e && k != m ==> Before(sorts, e, k) by {
          forall k | k in keys && k != e && k != m ensures Before(sorts, e, k) { BeforeIsTransitive(sorts, e, m, k); }
        }
        e
      else m
  }

  predicate Increasing(sorts: seq<Sort>, s: seq<Key>) {
    && (forall k :: k in s ==> |k| == |sorts|)
    && forall i, j :: 0 <= i < j < |s| ==> Before(sorts, s[i], s[j])
  }

  /** `s` lists the keys in order. */
  ghost predicate Lists(sorts: seq<Sort>, keys: set<Key>, s: seq<Key>) {
    Increasing(sorts, s) && |s| == |keys| && forall k :: k in s <==> k in keys
  }

  lemma ListsPrepend(sorts: seq<Sort>, keys: set<Key>, least: Key, rest: seq<Key>)
    requires least in keys && |least| == |sorts| && Lists(sorts, keys - {least}, rest)
    requires forall k :: k in keys && k != least ==> |k| == |sorts| && Before(sorts, least, k)
    ensures Lists(sorts, keys, [least] + rest)
  {
    var s := [least] + rest;
    assert forall k :: k in s <==> k == least || k in rest;
    forall i, j | 0 <= i < j < |s| ensures Before(sorts, s[i], s[j]) {
      assert s[j] == rest[j - 1] && rest[j - 1] in rest;
      if i > 0 { assert s[i] == rest[i - 1]; }
    }
  }

  ghost function Listing(sorts: seq<Sort>, keys: set<Key>): (s: seq<Key>)
    requires AllKeys(sorts, keys)
    ensures Lists(sorts, keys, s)
    decreases |keys|
  {
    if keys == {} then [] else
      var least := Least(sorts, keys);
      var rest := Listing(sorts, keys - {least});
      ListsPrepend(sorts, keys, least, rest);
      [least] + rest
  }

  lemma FirstIsLeast(sorts: seq<Sort>, s: seq<Key>, k: Key)
    requires Increasing(sorts, s) && k in s
    ensures k == s[0] || Before(sorts, s[0], k)
    ensures k in s[1..] <==> k != s[0]
  {
    var i :| 0 <= i < |s| && s[i] == k;
    if i > 0 { assert s[1..][i - 1] == k; }
    BeforeIsIrreflexive(sorts, s[0]);
  }

  /** An increasing sequence is determined by its elements. */
  lemma {:induction false} IncreasingIsUnique(sorts: seq<Sort>, s: seq<Key>, t: seq<Key>)
    requires Increasing(sorts, s) && Increasing(sorts, t)
    requires forall k :: k in s <==> k in t
    ensures s == t
  {
    assert s == [] <==> t == [] by {
      if s != [] { assert s[0] in t; }
      if t != [] { assert t[0] in s; }
    }
    if s != [] {
      SameFirst(sorts, s, t);
      forall k ensures k in s[1..] <==> k in t[1..] {
        if k in s { FirstIsLeast(sorts, s, k); FirstIsLeast(sorts, t, k); }
      }
      IncreasingIsUnique(sorts, s[1..], t[1..]);
      assert s == [s[0]] + s[1..] && t == [t[0]] + t[1..];
    }
  }

  lemma SameFirst(sorts: seq<Sort>, s: seq<Key>, t: seq<Key>)
    requires Increasing(sorts, s) && Increasing(sorts, t) && s != [] && t != []
    requires s[0] in t && t[0] in s
    ensures s[0] == t[0]
  {
    FirstIsLeast(sorts, s, t[0]);
    FirstIsLeast(sorts, t, s[0]);
    if s[0] != t[0] {
      BeforeIsTransitive(sorts, s[0], t[0], s[0]);
      BeforeIsIrreflexive(sorts, s[0]);
    }
  }
}
