/** Picking from finite sets. */
module Sets {

  /** Some member of a set that has one. */
  ghost function Any<T>(s: set<T>): (a: T)
    requires s != {}
    ensures a in s
  {
    assert (forall x: T :: x !in s) ==> s == {};
    var a :| a in s;
    a
  }

  ghost predicate IsMax(s: set<int>, m: int) {
    m in s && forall x :: x in s ==> x <= m
  }

  ghost function SetMax(s: set<int>): (m: int)
    requires s != {}
    ensures IsMax(s, m)
  {
    MaxExists(s);
    var m :| IsMax(s, m);
    m
  }

  lemma {:induction false} MaxExists(s: set<int>)
    requires s != {}
    ensures exists m :: IsMax(s, m)
  {
    var a := Any(s);
    var rest := s - {a};
    if rest == {} {
      assert s == {a};
      assert IsMax(s, a);
    } else {
      MaxExists(rest);
      var b :| IsMax(rest, b);
      assert forall x :: x in s ==> x == a || x in rest;
      assert IsMax(s, if a < b then b else a);
    }
  }

  lemma Within<T>(s: set<T>, t: set<T>)
    requires s <= t
    ensures |s| <= |t|
  {
    assert t == s + (t - s);
  }

  /** The numbers below n. */
  function UpTo(n: nat): (s: set<int>)
    ensures |s| == n
    ensures forall k: int :: k in s <==> 0 <= k < n
  {
    if n == 0 then {} else UpTo(n - 1) + {n - 1}
  }
}
