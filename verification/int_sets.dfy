/** Extremes of finite sets of integers, used to walk a set of keys or indices in order. */
module IntSets {
  predicate IsMax(s: set<int>, m: int) {
    m in s && forall x :: x in s ==> x <= m
  }

  predicate IsMin(s: set<int>, m: int) {
    m in s && forall x :: x in s ==> m <= x
  }

  /** Every non-empty finite set of integers has a largest element. */
  lemma {:induction false} MaxExists(s: set<int>)
    requires s != {}
    ensures exists m :: IsMax(s, m)
  {
    if forall z :: z !in s {
      assert false;
    }
    var y :| y in s;
    if s == {y} {
      assert IsMax(s, y);
    } else {
      MaxExists(s - {y});
      var m :| IsMax(s - {y}, m);
      var top := if y < m then m else y;
      forall x | x in s
        ensures x <= top
      {
        if x != y {
          assert x in s - {y};
        }
      }
      assert IsMax(s, top);
    }
  }

  /** Every non-empty finite set of integers has a smallest element. */
  lemma {:induction false} MinExists(s: set<int>)
    requires s != {}
    ensures exists m :: IsMin(s, m)
  {
    if forall z :: z !in s {
      assert false;
    }
    var y :| y in s;
    if s == {y} {
      assert IsMin(s, y);
    } else {
      MinExists(s - {y});
      var m :| IsMin(s - {y}, m);
      var bottom := if m < y then m else y;
      forall x | x in s
        ensures bottom <= x
      {
        if x != y {
          assert x in s - {y};
        }
      }
      assert IsMin(s, bottom);
    }
  }
}
