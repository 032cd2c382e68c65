/** Cardinalities of finite sets. */
module Sets {

  function Below(n: nat): (ret: set<nat>)
    ensures forall j :: j in ret <==> 0 <= j < n
    ensures |ret| == n
  {
    if n == 0 then {} else Below(n - 1) + {n - 1}
  }

  lemma {:induction false} SubsetCard<T>(a: set<T>, b: set<T>)
    requires a <= b
    ensures |a| <= |b| && (a != b ==> |a| < |b|)
  {
    assert b == a + (b - a);
    assert |b| == |a| + |b - a|;
    if a != b { assert b - a != {}; }
  }
}
