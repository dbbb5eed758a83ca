/**
  Literals, clauses and entailment, shared by every component.

  A literal is a natural number: variable v has the positive literal 2v and the
  negative literal 2v + 1, so negation flips the lowest bit.  A model is the
  (possibly infinite) set of the variables that are true.
*/
module Literals {

  type Lit = nat

  /** The largest 32-bit number, which is no literal. */
  const UINT_MAX := 0xFFFFFFFF
  const INVALID_LIT := UINT_MAX

  type Model = iset<nat>

  function Neg(l: Lit): Lit {
    if l % 2 == 0 then l + 1 else l - 1
  }

  function Var(l: Lit): nat {
    l / 2
  }

  ghost predicate Holds(m: Model, l: Lit) {
    l % 2 == 0 <==> Var(l) in m
  }

  ghost predicate Sat(m: Model, c: seq<Lit>) {
    exists l :: l in c && Holds(m, l)
  }

  ghost predicate AllSat(m: Model, clauses: seq<seq<Lit>>) {
    forall c :: c in clauses ==> Sat(m, c)
  }

  /** A clause in memory, which may have been deleted. */
  datatype Clause = Clause(lits: seq<Lit>, garbage: bool)

  /** A formula. */
  type Clauses = iset<seq<Lit>>

  /** Opposite literals have opposite values. */
  ghost predicate Opposite(values: seq<int>) {
    forall l: nat {:trigger Neg(l)} :: l < |values| ==> Neg(l) < |values| && values[Neg(l)] == -values[l]
  }

  ghost predicate DistinctVars(c: seq<Lit>) {
    forall i, j :: 0 <= i < j < |c| ==> Var(c[i]) != Var(c[j])
  }

  /** Literals below a bound, no variable twice (hence no tautology either). */
  predicate Proper(n: nat, c: seq<Lit>) {
    && (forall i :: 0 <= i < |c| ==> c[i] < n)
    && (forall i, j :: 0 <= i < j < |c| ==> Var(c[i]) != Var(c[j]))
  }

  lemma SameVar(k: Lit, l: Lit)
    ensures Var(k) == Var(l) <==> k == l || l == Neg(k)
    ensures Neg(Neg(l)) == l && Neg(l) != l
  {
  }
}
