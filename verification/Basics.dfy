/** Small things shared by the models. */
module Basics {

  datatype Option<T> = None | Some(value: T)

  lemma Inhabited(s: set<int>)
    requires s != {}
    ensures exists x :: x in s
  {
    if forall x :: x !in s { assert false; }
  }

  lemma InhabitedBy<T>(s: set<T>)
    requires s != {}
    ensures exists x :: x in s
  {
    if forall x :: x !in s { assert false; }
  }

  predicate NoRepeats(s: seq<int>) {
    forall i, j :: 0 <= i < j < |s| ==> s[i] != s[j]
  }

  lemma SubsetSize<T>(a: set<T>, b: set<T>)
    requires a <= b
    ensures |a| <= |b| && (|a| == |b| ==> a == b)
  {
    assert b == a + (b - a);
    assert |b| == |a| + |b - a|;
  }
}
