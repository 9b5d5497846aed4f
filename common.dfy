/** The Option type used for nullable columns and "nothing found" results. */
module Wrappers {
  datatype Option<+T> = None | Some(value: T)
}

/** Facts about finite sets used by the table models. */
module Sets {

  /** An element of a non-empty set. */
  lemma PickElement<T>(s: set<T>) returns (x: T)
    requires s != {}
    ensures x in s
  {
    if forall y :: y !in s {
      assert false;
    }
    x :| x in s;
  }

  lemma SubsetCard<T>(a: set<T>, b: set<T>)
    requires a <= b
    ensures |a| <= |b|
  {
    assert b == a + (b - a);
  }

  /** A non-empty finite set of integers has a least element. */
  lemma {:induction false} HasMinimum(s: set<int>)
    requires s != {}
    ensures exists x :: x in s && forall y :: y in s ==> x <= y
  {
    var x := PickElement(s);
    var rest := s - {x};
    assert forall y :: y in s ==> y == x || y in rest;
    if rest != {} {
      HasMinimum(rest);
      var z :| z in rest && forall y :: y in rest ==> z <= y;
      var lo := if x < z then x else z;
      forall y | y in s ensures lo <= y {
        if y != x { assert y in rest; }
      }
    }
  }

  /** A non-empty finite set of integers has a greatest element. */
  lemma {:induction false} HasMaximum(s: set<int>)
    requires s != {}
    ensures exists x :: x in s && forall y :: y in s ==> y <= x
  {
    var x := PickElement(s);
    var rest := s - {x};
    assert forall y :: y in s ==> y == x || y in rest;
    if rest != {} {
      HasMaximum(rest);
      var z :| z in rest && forall y :: y in rest ==> y <= z;
      var hi := if x < z then z else x;
      forall y | y in s ensures y <= hi {
        if y != x { assert y in rest; }
      }
    }
  }
}
