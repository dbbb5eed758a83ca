/**
  The trail of the main solver meets what minimization demands of it: deduced clauses may be
  minimized.
 */
module MinimizeTrail {
  import opened Literals
  import opened Entailment
  import opened SolverTrail
  import opened SolverDeduce
  import M = Minimize

  function Positions(s: State): seq<nat> {
    seq(|s.assignments|, v requires 0 <= v < |s.assignments| => s.assignments[v].trail)
  }

  /** The view that minimization has of the solver. */
  function View(s: State, used: seq<nat>, depth: nat): M.Solver {
    M.Solver(s.values,
             seq(|s.assignments|, v requires 0 <= v < |s.assignments| =>
               M.Assigned(s.assignments[v].level, s.assignments[v].reason, false, false)),
             s.clauses, used, depth, s.clause, [], [], [])
  }

  lemma ViewFalse(s: State, used: seq<nat>, depth: nat, l: Lit)
    requires Shape(s)
    ensures M.False(View(s, used, depth), l) <==> False(s, l)
  {
  }

  lemma TrailView(s: State, f: Clauses, used: seq<nat>, depth: nat)
    requires TrailOK(s, f) && s.level < |used|
    ensures M.Trail(View(s, used, depth), Positions(s)) && M.Implied(View(s, used, depth), f)
  {
    var m := View(s, used, depth);
    forall l: nat | M.False(m, l)
      ensures M.ReasonOK(m, Positions(s), l)
      ensures m.assignments[Var(l)].level > 0 ==> m.assignments[Var(l)].reason != Unit
      ensures m.assignments[Var(l)].level < |used|
      ensures Entails(f, if m.assignments[Var(l)].level == 0 then [Neg(l)] else M.ReasonClause(m, l))
    {
      LiteralView(s, f, used, depth, l);
      FalseLevel(s, l);
    }
  }

  /** A false literal, its reason and the positions of the literals in it. */
  lemma LiteralView(s: State, f: Clauses, used: seq<nat>, depth: nat, l: Lit)
    requires TrailOK(s, f) && M.False(View(s, used, depth), l)
    ensures var m := View(s, used, depth);
            && M.ReasonOK(m, Positions(s), l)
            && (m.assignments[Var(l)].level > 0 ==> m.assignments[Var(l)].reason != Unit)
            && Entails(f, if m.assignments[Var(l)].level == 0 then [Neg(l)] else M.ReasonClause(m, l))
  {
    FalseOnTrail(s, l);
    SameVar(l, Neg(l));
    var i := Position(s, l);
    assert ReasonAt(s, f, i);
    hide Reasons, Levels;
    var c := ReasonClause(s, Neg(l));
    if ReasonOf(s, l).Binary? || ReasonOf(s, l).Large? {
      assert Forced(s, c, i);
      forall o | o in c && o != Neg(l)
        ensures M.False(View(s, used, depth), o) && Positions(s)[Var(o)] < Positions(s)[Var(l)] {
        FalseOnTrail(s, o);
      }
    }
    if ReasonOf(s, l).Decision? {
      TautologyEntailed(f, l);
    }
  }

  lemma TautologyEntailed(f: Clauses, l: Lit)
    ensures Entails(f, [Neg(l), l])
  {
    SameVar(l, Neg(l));
    forall m: Model | IsModel(m, f) ensures Sat(m, [Neg(l), l]) {
      var c := [Neg(l), l];
      assert c[0] in c && c[1] in c && (Holds(m, l) || Holds(m, Neg(l)));
    }
  }

  /** A deduced clause may be minimized, and is a first unique implication point clause still. */
  lemma UipMinimizable(s: State, f: Clauses, used: seq<nat>, depth: nat)
    requires TrailOK(s, f) && FirstUip(s, s.clause) && |s.values| <= INVALID_LIT
    ensures M.Falsified(View(s, used, depth), s.clause)
    ensures forall c :: MinimizedFrom(s.clause, c) ==> FirstUip(s, c)
  {
    hide OnTrail, Levels, Reasons;
    forall i | 0 <= i < |s.clause| ensures M.False(View(s, used, depth), s.clause[i]) {
      assert s.clause[i] in s.clause;
      ViewFalse(s, used, depth, s.clause[i]);
    }
    forall c | MinimizedFrom(s.clause, c) ensures FirstUip(s, c) {
      forall i | 0 < i < |c| ensures Level(s, c[i]) < s.level {
        assert c[i] in c && c[i] in s.clause && Var(c[i]) != Var(c[0]);
        var j :| 0 <= j < |s.clause| && s.clause[j] == c[i];
      }
    }
  }

  /** Minimization keeps the first literal and only drops others. */
  ghost predicate MinimizedFrom(c: seq<Lit>, d: seq<Lit>) {
    c != [] && d != [] && d[0] == c[0] && DistinctVars(d) && forall l :: l in d ==> l in c
  }
}
