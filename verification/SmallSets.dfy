/** Sets with at most one element. */
module SmallSets {

  lemma OneElement<T>(x: set<T>, a: T, b: T)
    requires |x| <= 1 && a in x && b in x
    ensures a == b
  {
    var rest := x - {a};
    assert |rest| == 0;
    assert b !in rest;
  }

  lemma TwoElements<T>(x: set<T>, a: T, b: T)
    requires a in x && b in x && a != b
    ensures |x| > 1
  {
    assert b in x - {a} && |x - {a}| == |x| - 1;
  }

  lemma AllEqual<T>(x: set<T>)
    requires forall a, b :: a in x && b in x ==> a == b
    ensures |x| <= 1
  {
    if x != {} {
      var a :| a in x;
      assert x == {a};
    }
  }
}
