/** Finite sets of numbers: there is always one more, and subsets are smaller. */
module Fresh {

  lemma FreshExists(used: set<nat>)
    ensures exists a: nat :: a !in used
  {
    assert Above(used) !in used;
  }

  ghost function Above(used: set<nat>): (b: nat)
    ensures forall a :: a in used ==> a < b
  {
    if used == {} then 0 else
      var x :| x in used;
      var b := Above(used - {x});
      assert forall a :: a in used ==> a == x || a in used - {x};
      if b <= x then x + 1 else b
  }

  lemma Smaller(a: set<nat>, b: set<nat>)
    requires a <= b
    ensures |a| <= |b|
  {
    assert b == a + (b - a);
  }
}
