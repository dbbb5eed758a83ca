/**
  Formulas as sets of clauses, entailment, and the reasons for which variables are assigned.
 */
module Entailment {
  import opened Literals

  ghost predicate IsModel(m: Model, f: Clauses) {
    forall c :: c in f ==> Sat(m, c)
  }

  ghost predicate Entails(f: Clauses, c: seq<Lit>) {
    forall m: Model | IsModel(m, f) :: Sat(m, c)
  }

  /** Why a variable is assigned: binary reasons are kept as the other literal of the clause. */
  datatype Reason = Decision | Unit | Binary(other: Lit) | Large(ref: nat)

  /** A clause with the same or more literals follows too. */
  lemma EntailsMore(f: Clauses, c: seq<Lit>, d: seq<Lit>)
    requires Entails(f, c) && forall l :: l in c ==> l in d
    ensures Entails(f, d)
  {
    forall m: Model | IsModel(m, f) ensures Sat(m, d) {
      assert Sat(m, c);
    }
  }

  lemma UnitFalse(f: Clauses, l: Lit, m: Model)
    requires Entails(f, [Neg(l)]) && IsModel(m, f)
    ensures !Holds(m, l)
  {
    assert Sat(m, [Neg(l)]);
    SameVar(l, Neg(l));
  }

  /** Resolution: the literal p of c and its negation in d go, and so do literals whose negations follow. */
  lemma ResolveEntails(f: Clauses, c: seq<Lit>, d: seq<Lit>, p: Lit, e: seq<Lit>)
    requires Entails(f, c) && Entails(f, d)
    requires forall l :: l in c && l != p ==> l in e || Entails(f, [Neg(l)])
    requires forall l :: l in d && l != Neg(p) ==> l in e || Entails(f, [Neg(l)])
    ensures Entails(f, e)
  {
    forall m: Model | IsModel(m, f) ensures Sat(m, e) {
      assert Sat(m, c) && Sat(m, d);
      var t, u :| t in c && Holds(m, t) && u in d && Holds(m, u);
      SameVar(p, Neg(p));
      if t != p && t !in e {
        UnitFalse(f, t, m);
      }
      if u != Neg(p) && u !in e {
        UnitFalse(f, u, m);
      }
    }
  }
}
