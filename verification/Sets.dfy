/** Sizes of finite sets. */
module Sets {

  lemma {:induction false} SubsetSize<T>(a: set<T>, b: set<T>)
    requires a <= b
    ensures |a| <= |b|
    decreases a
  {
    if a != {} {
      var x :| x in a;
      SubsetSize(a - {x}, b - {x});
    }
  }

  /** A sequence has no more elements than places, and as many if they differ. */
  lemma {:induction false} ElementsSize<T>(xs: seq<T>)
    ensures |set x | x in xs| <= |xs|
    ensures (forall i, j :: 0 <= i < j < |xs| ==> xs[i] != xs[j]) ==> |set x | x in xs| == |xs|
    decreases |xs|
  {
    if xs == [] {
      assert (set x | x in xs) == {};
    } else {
      var n := |xs| - 1;
      ElementsSize(xs[..n]);
      assert xs == xs[..n] + [xs[n]];
      assert (set x | x in xs) == (set x | x in xs[..n]) + {xs[n]};
    }
  }
}
