/**
  Why the counts of congruence.c never keep an XOR gate from being found: half of the patterns of a base clause contain
  a given literal, and different patterns have different side clauses.
 */
module XorCounting {
  import opened Literals
  import opened RootValues
  import opened Xor

  /** The clauses in the list of l. */
  ghost function LargeRefs(s: Closure, l: Lit): set<nat> {
    if l < |s.watches| then set i | 0 <= i < |s.watches[l]| && s.watches[l][i].Large? :: s.watches[l][i].ref else {}
  }

  /** No literal is in more clauses than counted. */
  ghost predicate Counted(s: Closure) {
    forall l: nat :: l < |s.largecount| ==> |LargeRefs(s, l)| <= s.largecount[l]
  }

  lemma {:induction false} InjectionCard(a: set<nat>, b: set<nat>, f: map<nat, nat>)
    requires forall x :: x in a ==> x in f && f[x] in b
    requires forall x, y :: x in a && y in a && f[x] == f[y] ==> x == y
    ensures |a| <= |b|
  {
    if a != {} {
      var x :| x in a;
      InjectionCard(a - {x}, b - {f[x]}, f);
    }
  }

  function Below(n: nat): set<nat> {
    if n == 0 then {} else Below(n - 1) + {n - 1}
  }

  lemma {:induction false} BelowCard(n: nat)
    ensures |Below(n)| == n && forall i: nat :: i in Below(n) <==> i < n
  {
    if n > 0 {
      BelowCard(n - 1);
    }
  }

  // ------------------------------------------------------------------ half of the patterns

  /** The patterns with l. */
  ghost function With(u: seq<Lit>, l: Lit): set<nat>
    requires u != []
  {
    set i: nat | i < Power2(|u| - 1) && l in Visited(u, i)
  }

  lemma {:induction false} FlipsParity(c: seq<Lit>, p: nat)
    requires p < |c|
    ensures Parity(c[p := Neg(c[p])]) == 1 - Parity(c)
  {
    var d := c[p := Neg(c[p])];
    if p == 0 {
      assert d[1..] == c[1..];
    } else {
      assert d[1..] == c[1..][p - 1 := Neg(c[1..][p - 1])];
      FlipsParity(c[1..], p - 1);
    }
  }

  function Flip2(c: seq<Lit>, p: nat, q: nat): seq<Lit>
    requires p < |c| && q < |c| && p != q
  {
    c[p := Neg(c[p])][q := Neg(c[q])]
  }

  lemma Flip2Facts(c: seq<Lit>, p: nat, q: nat)
    requires p < |c| && q < |c| && p != q
    ensures SameVars(c, Flip2(c, p, q)) && Parity(Flip2(c, p, q)) == Parity(c)
    ensures Flip2(c, p, q)[p] == Neg(c[p]) && Flip2(Flip2(c, p, q), p, q) == c
  {
    FlipsParity(c, p);
    FlipsParity(c[p := Neg(c[p])], q);
    SameVar(c[p], Neg(c[p]));
    SameVar(c[q], Neg(c[q]));
    SameVar(Neg(c[p]), c[p]);
    SameVar(Neg(c[q]), c[q]);
  }

  /** The pattern that differs from the i-th one at p and q. */
  ghost function Partner(u: seq<Lit>, i: nat, p: nat, q: nat): (j: nat)
    requires p < |u| && q < |u| && p != q && i < Power2(|u| - 1)
    ensures j < Power2(|u| - 1) && |Visited(u, i)| == |u| && Visited(u, j) == Flip2(Visited(u, i), p, q)
  {
    PartnerExists(u, i, p, q);
    var j: nat :| j < Power2(|u| - 1) && Visited(u, j) == Flip2(Visited(u, i), p, q);
    j
  }

  lemma PartnerExists(u: seq<Lit>, i: nat, p: nat, q: nat)
    requires p < |u| && q < |u| && p != q && i < Power2(|u| - 1)
    ensures |Visited(u, i)| == |u|
    ensures exists j: nat :: j < Power2(|u| - 1) && Visited(u, j) == Flip2(Visited(u, i), p, q)
  {
    hide Visited, Flip2, Parity;
    VisitedVars(u, i);
    VisitedParity(u, i);
    var d := Visited(u, i);
    Flip2Facts(d, p, q);
    SameVarsTrans(u, d, Flip2(d, p, q));
    var j := VisitsAll(u, Flip2(d, p, q));
  }

  lemma VisitedParity(u: seq<Lit>, i: nat)
    requires u != []
    ensures Parity(Visited(u, i)) == Parity(u)
  {
  }

  lemma SameVarsTrans(c: seq<Lit>, d: seq<Lit>, e: seq<Lit>)
    requires SameVars(c, d) && SameVars(d, e)
    ensures SameVars(c, e)
  {
  }

  lemma VisitedOnce(u: seq<Lit>, i: nat, j: nat)
    requires u != [] && i < Power2(|u| - 1) && j < Power2(|u| - 1) && Visited(u, i) == Visited(u, j)
    ensures i == j
  {
    hide Visited, Parity, Power2;
    VisitedVars(u, i);
    VisitedParity(u, i);
    var k := VisitsAll(u, Visited(u, i));
  }

  /** The literal of a pattern at p is one of the two over that variable. */
  lemma AtPosition(u: seq<Lit>, i: nat, p: nat, l: Lit)
    requires p < |u| && DistinctVars(u) && i < Power2(|u| - 1) && Var(l) == Var(u[p])
    ensures |Visited(u, i)| == |u| && (l in Visited(u, i) <==> Visited(u, i)[p] == l)
    ensures Visited(u, i)[p] == l || Visited(u, i)[p] == Neg(l)
  {
    hide Visited, Power2;
    VisitedVars(u, i);
    var d := Visited(u, i);
    SameVar(l, d[p]);
    forall k | 0 <= k < |d| && d[k] == l ensures k == p {
      assert Var(u[k]) == Var(d[k]);
    }
  }

  /** Flipping l and the literal at q turns patterns with l into patterns with its negation. */
  lemma WithSwap(u: seq<Lit>, p: nat, q: nat, l: Lit)
    requires p < |u| && q < |u| && p != q && DistinctVars(u) && Var(l) == Var(u[p])
    ensures |With(u, l)| <= |With(u, Neg(l))|
  {
    hide Visited, Power2, Flip2;
    var f := map i | i in With(u, l) :: Partner(u, i, p, q);
    SameVar(l, Neg(l));
    forall i | i in With(u, l) ensures f[i] in With(u, Neg(l)) {
      AtPosition(u, i, p, l);
      AtPosition(u, f[i], p, Neg(l));
      Flip2Facts(Visited(u, i), p, q);
    }
    forall i, j | i in With(u, l) && j in With(u, l) && f[i] == f[j] ensures i == j {
      AtPosition(u, i, p, l);
      AtPosition(u, j, p, l);
      Flip2Facts(Visited(u, i), p, q);
      Flip2Facts(Visited(u, j), p, q);
      VisitedOnce(u, i, j);
    }
    InjectionCard(With(u, l), With(u, Neg(l)), f);
  }

  /** Every pattern contains either l or its negation. */
  lemma WithEither(u: seq<Lit>, p: nat, l: Lit)
    requires p < |u| && DistinctVars(u) && Var(l) == Var(u[p])
    ensures Below(Power2(|u| - 1)) == With(u, l) + With(u, Neg(l)) && With(u, l) !! With(u, Neg(l))
  {
    hide Visited, Power2;
    SameVar(l, Neg(l));
    var all := Below(Power2(|u| - 1));
    BelowCard(Power2(|u| - 1));
    forall i | i in all ensures (i in With(u, l)) != (i in With(u, Neg(l))) {
      AtPosition(u, i, p, l);
      AtPosition(u, i, p, Neg(l));
    }
  }

  /** Half of the patterns contain l. */
  lemma HalfWith(u: seq<Lit>, p: nat, l: Lit)
    requires p < |u| && |u| >= 2 && DistinctVars(u) && Var(l) == Var(u[p])
    ensures |With(u, l)| == Power2(|u| - 2)
  {
    hide With, Below;
    SameVar(l, Neg(l));
    var q := if p == 0 then 1 else 0;
    WithSwap(u, p, q, l);
    WithSwap(u, p, q, Neg(l));
    WithEither(u, p, l);
    BelowCard(Power2(|u| - 1));
    assert |With(u, l) + With(u, Neg(l))| == |With(u, l)| + |With(u, Neg(l))|;
  }

  // ------------------------------------------------------------------ different clauses

  /** A clause is the side clause of one pattern only. */
  lemma OnePattern(s: Closure, r: nat, c: seq<Lit>, d: seq<Lit>)
    requires Exact(s, r, c) && Exact(s, r, d) && SameVars(c, d) && DistinctVars(c)
    ensures c == d
  {
    forall k | 0 <= k < |c| ensures c[k] == d[k] {
      assert c[k] in c && c[k] in d;
      var j :| 0 <= j < |d| && d[j] == c[k];
      assert Var(c[j]) == Var(d[j]);
    }
  }

  ghost function SideRef(s: Closure, d: seq<Lit>): (r: nat)
    requires HasSide(s, d)
    ensures Connected(s, r, d)
  {
    var r :| Connected(s, r, d);
    r
  }

  lemma RefListed(s: Closure, r: nat, d: seq<Lit>, l: Lit)
    requires Connected(s, r, d) && l in d
    ensures r in LargeRefs(s, l)
  {
    assert ListedFor(s, l, r);
    var i :| 0 <= i < |s.watches[l]| && s.watches[l][i] == Large(r);
    assert s.watches[l][i].ref == r;
  }

  /** As many clauses are listed for l as there are patterns with l. */
  lemma RefsWith(s: Closure, u: seq<Lit>, l: Lit)
    requires u != [] && DistinctVars(u) && SidesFrom(s, u, 0)
    ensures |With(u, l)| <= |LargeRefs(s, l)|
  {
    hide Visited, Power2, HasSide, Connected, LargeRefs;
    forall i | i in With(u, l) ensures HasSide(s, Visited(u, i)) {
    }
    var f := map i | i in With(u, l) :: SideRef(s, Visited(u, i));
    forall i | i in With(u, l) ensures f[i] in LargeRefs(s, l) {
      RefListed(s, f[i], Visited(u, i), l);
    }
    forall i, j | i in With(u, l) && j in With(u, l) && f[i] == f[j] ensures i == j {
      SameRef(s, u, i, j, f[i]);
    }
    InjectionCard(With(u, l), LargeRefs(s, l), f);
  }

  lemma SameRef(s: Closure, u: seq<Lit>, i: nat, j: nat, r: nat)
    requires u != [] && DistinctVars(u) && i < Power2(|u| - 1) && j < Power2(|u| - 1)
    requires Connected(s, r, Visited(u, i)) && Connected(s, r, Visited(u, j))
    ensures i == j
  {
    hide Visited, Power2, Exact;
    VisitedVars(u, i);
    VisitedVars(u, j);
    var c, d := Visited(u, i), Visited(u, j);
    forall k, m | 0 <= k < m < |c| ensures Var(c[k]) != Var(c[m]) {
      assert Var(u[k]) == Var(c[k]) && Var(u[m]) == Var(c[m]);
    }
    forall k | 0 <= k < |c| ensures Var(c[k]) == Var(d[k]) {
      assert Var(u[k]) == Var(c[k]) && Var(u[k]) == Var(d[k]);
    }
    OnePattern(s, r, c, d);
    VisitedOnce(u, i, j);
  }

  /** If all sides are connected, the counts are large enough. */
  lemma SidesCounted(s: Closure, u: seq<Lit>)
    requires Counted(s) && Proper(|s.largecount|, u) && |u| >= 2 && SidesFrom(s, u, 0)
    requires forall l: nat {:trigger Neg(l)} :: l < |s.largecount| ==> Neg(l) < |s.largecount|
    ensures OftenCounted(s, u)
  {
    hide SidesFrom, Power2, LargeRefs, With;
    forall l | l in u ensures s.largecount[l] >= Power2(|u| - 2) && s.largecount[Neg(l)] >= Power2(|u| - 2) {
      var p :| 0 <= p < |u| && u[p] == l;
      assert l < |s.largecount| && Neg(l) < |s.largecount|;
      SameVar(l, Neg(l));
      HalfWith(u, p, l);
      HalfWith(u, p, Neg(l));
      RefsWith(s, u, l);
      RefsWith(s, u, Neg(l));
    }
  }
}
