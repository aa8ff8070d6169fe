/** Facts about finite sets used by several models. */
module Sets {

  lemma Inhabited<T>(s: set<T>)
    ensures s == {} || exists e :: e in s
  {
    if forall e :: e !in s { assert s == {}; }
  }

  lemma Single<T>(s: set<T>)
    requires |s| == 1
    ensures exists e :: e in s
    ensures forall a, b :: a in s && b in s ==> a == b
  {
    Inhabited(s);
    forall a, b | a in s && b in s ensures a == b {
      assert {a} <= s && |s - {a}| == 0;
      assert b !in s - {a};
    }
  }

  /** Some element of a nonempty set. */
  ghost function Pick<T>(s: set<T>): (e: T)
    requires s != {}
    ensures e in s
  {
    Inhabited(s);
    var e :| e in s;
    e
  }

  /** The same choice in a running method. */
  method Choose<T(==)>(s: set<T>) returns (e: T)
    requires s != {}
    ensures e in s
  {
    Inhabited(s);
    e :| e in s;
  }
}
