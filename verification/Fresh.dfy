/** Numbers not yet in use. */
module Fresh {

  lemma {:induction false} Above(ks: set<nat>) returns (k: nat)
    ensures k !in ks && forall x :: x in ks ==> x < k
  {
    k := 0;
    if ks != {} {
      var x :| x in ks;
      var rest := Above(ks - {x});
      k := if x < rest then rest else x + 1;
      forall y | y in ks ensures y < k {
        if y != x { assert y in ks - {x}; }
      }
    }
  }
}
