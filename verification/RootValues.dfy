/**
  Root-level values: two entries per variable, 1 for true, -1 for false and 0 for unknown.
 */
module RootValues {
  import opened Literals

  ghost predicate ValuesOK(values: seq<int>) {
    && (forall l: nat :: l < |values| ==> -1 <= values[l] <= 1)
    && Opposite(values)
  }

  predicate True(values: seq<int>, l: Lit) {
    l < |values| && values[l] > 0
  }

  predicate False(values: seq<int>, l: Lit) {
    l < |values| && values[l] < 0
  }

  predicate Free(values: seq<int>, l: Lit) {
    l < |values| && values[l] == 0
  }

  /** The root-level values hold in m. */
  ghost predicate ValuesHold(m: Model, values: seq<int>) {
    forall l: nat :: (True(values, l) ==> Holds(m, l)) && (False(values, l) ==> !Holds(m, l))
  }

  lemma HoldsNeg(m: Model, l: Lit)
    ensures Holds(m, Neg(l)) == !Holds(m, l) && Neg(Neg(l)) == l
  {
  }

  function Set(values: seq<int>, l: Lit): seq<int>
    requires l < |values| && Neg(l) < |values|
  {
    values[l := 1][Neg(l) := -1]
  }

  lemma SetOK(values: seq<int>, l: Lit)
    requires ValuesOK(values) && l < |values| && values[l] == 0
    ensures Neg(l) < |values| && Neg(l) != l && values[Neg(l)] == 0 && ValuesOK(Set(values, l))
  {
    var values' := Set(values, l);
    forall k: nat {:trigger Neg(k)} | k < |values| ensures Neg(k) < |values| && values'[Neg(k)] == -values'[k] {
      SameVar(k, l);
      SameVar(l, k);
    }
  }

  lemma SetHolds(m: Model, values: seq<int>, l: Lit)
    requires ValuesHold(m, values) && l < |values| && Neg(l) < |values| && Holds(m, l)
    ensures ValuesHold(m, Set(values, l))
  {
    HoldsNeg(m, l);
  }

  lemma SetGrows(values: seq<int>, l: Lit)
    requires l < |values| && Neg(l) < |values| && values[l] == 0 && values[Neg(l)] == 0 && Neg(l) != l
    ensures |Set(values, l)| == |values| && Set(values, l)[l] == 1
    ensures forall k: nat :: k < |values| && values[k] != 0 ==> Set(values, l)[k] == values[k]
  {
  }

  // ------------------------------------------------------------------ literals without a value

  /** The literals without a value. */
  function Unassigned(values: seq<int>, c: seq<Lit>): seq<Lit> {
    if c == [] then []
    else
      var n := |c| - 1;
      Unassigned(values, c[..n]) + if Free(values, c[n]) then [c[n]] else []
  }

  lemma UnassignedStep(values: seq<int>, c: seq<Lit>, k: nat)
    requires k < |c|
    ensures Unassigned(values, c[..k + 1]) == Unassigned(values, c[..k]) + if Free(values, c[k]) then [c[k]] else []
    ensures |Unassigned(values, c[..k + 1])| <= |Unassigned(values, c)|
    ensures forall l :: l in Unassigned(values, c[..k + 1]) ==> l in Unassigned(values, c)
  {
    assert c[..k + 1][..k] == c[..k];
    UnassignedPrefix(values, c, k + 1);
  }

  lemma {:induction false} UnassignedPrefix(values: seq<int>, c: seq<Lit>, k: nat)
    requires k <= |c|
    ensures |Unassigned(values, c[..k])| <= |Unassigned(values, c)|
    ensures forall l :: l in Unassigned(values, c[..k]) ==> l in Unassigned(values, c)
  {
    if k == |c| {
      assert c[..k] == c;
    } else {
      var n := |c| - 1;
      UnassignedPrefix(values, c[..n], k);
      assert c[..n][..k] == c[..k];
    }
  }

  lemma {:induction false} UnassignedMembers(values: seq<int>, c: seq<Lit>)
    ensures forall l :: l in Unassigned(values, c) <==> l in c && Free(values, l)
    ensures DistinctVars(c) ==> DistinctVars(Unassigned(values, c))
  {
    if c != [] {
      var n := |c| - 1;
      var rest := Unassigned(values, c[..n]);
      UnassignedMembers(values, c[..n]);
      assert c == c[..n] + [c[n]];
      forall i | 0 <= i < |rest| && DistinctVars(c) ensures Var(rest[i]) != Var(c[n]) {
        assert rest[i] in c[..n];
      }
    }
  }
}
