/** Lists without repetition, and the counting argument that a distinct list of enough elements of another
    list holds all of them. */
module Pigeonhole {
  ghost predicate Distinct<T>(s: seq<T>) { forall i, j :: 0 <= i < j < |s| ==> s[i] != s[j] }

  function SetOf<T>(s: seq<T>): set<T> { set x | x in s }

  /** A list has as many different elements as positions exactly when it does not repeat any. */
  lemma {:induction false} SizeOfDistinct<T>(s: seq<T>)
    ensures |SetOf(s)| <= |s| && (|SetOf(s)| == |s| <==> Distinct(s))
    decreases |s|
  {
    if s != [] {
      var rest, last := s[..|s| - 1], s[|s| - 1];
      SizeOfDistinct(rest);
      assert SetOf(s) == SetOf(rest) + {last};
      if last in SetOf(rest) {
        var i :| 0 <= i < |rest| && rest[i] == last;
        assert s[i] == s[|s| - 1];
        assert SetOf(s) == SetOf(rest);
      } else {
        assert Distinct(s) <==> Distinct(rest);
      }
    }
  }

  lemma {:induction false} SubsetOfSameSize<T>(a: set<T>, b: set<T>)
    requires a <= b && |b| <= |a|
    ensures a == b
    decreases |a|
  {
    if a != {} {
      var x :| x in a;
      SubsetOfSameSize(a - {x}, b - {x});
      assert a == (a - {x}) + {x} && b == (b - {x}) + {x};
    } else {
      assert b == {};
    }
  }

  lemma {:induction false} SubsetSize<T>(a: set<T>, b: set<T>)
    requires a <= b
    ensures |a| <= |b|
    decreases |a|
  {
    if a != {} {
      var x :| x in a;
      SubsetSize(a - {x}, b - {x});
    }
  }

  /** Distinct elements of a list that is no longer than they are, are all of its elements. */
  lemma DistinctFillsList<T>(s: seq<T>, list: seq<T>)
    requires Distinct(s) && (forall x :: x in s ==> x in list) && |list| <= |s|
    ensures Distinct(list) && forall x :: x in list ==> x in s
  {
    SizeOfDistinct(s);
    SizeOfDistinct(list);
    assert SetOf(s) <= SetOf(list);
    SubsetOfSameSize(SetOf(s), SetOf(list));
    forall x | x in list ensures x in s { assert x in SetOf(list); }
  }
}
