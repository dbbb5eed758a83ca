/**
  Conflicts on the first decision level (analyze.c): the decision has failed, and so have the literals that alone are
  left when the conflict is resolved back to it.
 */
module FailedLiteral {
  import opened Literals
  import opened Sequences
  import opened Entailment
  import opened SolverTrail
  import opened SolverDeduce

  /** The decision of level one. */
  ghost predicate IsFailed(g: State, d: Lit) {
    |g.frames| > 1 && g.frames[1] < |g.trail| && g.trail[g.frames[1]] == d && Level(g, d) == 1
  }

  /** A literal of level one goes back to the decision. */
  lemma {:induction false} DecisionBelow(s: State, f: Clauses, i: nat)
    requires TrailOK(s, f) && i < |s.trail| && Level(s, s.trail[i]) == 1
    ensures |s.frames| > 1 && s.frames[1] <= i && IsFailed(s, s.trail[s.frames[1]])
    decreases i
  {
    assert ReasonAt(s, f, i);
    var l := s.trail[i];
    if ReasonOf(s, l).Binary? || ReasonOf(s, l).Large? {
      var c := ReasonClause(s, l);
      assert Forced(s, c, i);
      var o :| o in c && o != l && Level(s, o) == Level(s, l);
      FalseOnTrail(s, o);
      SameVar(o, Neg(o));
      hide Shape, OnTrail, Levels, Reasons;
      DecisionBelow(s, f, Position(s, o));
    }
  }

  /** On level one everything assigned follows from the decision. */
  lemma {:induction false} AllFollow(s: State, f: Clauses, d: Lit, m: Model, i: nat)
    requires TrailOK(s, f) && s.level == 1 && IsFailed(s, d) && IsModel(m, f) && Holds(m, d) && i < |s.trail|
    ensures Holds(m, s.trail[i])
    decreases i
  {
    assert ReasonAt(s, f, i);
    var l := s.trail[i];
    match ReasonOf(s, l)
    case Decision =>
    case Unit => assert Sat(m, [l]);
    case Binary(o) => ForcedFollows(s, f, d, m, i, [l, o]);
    case Large(ref) => ForcedFollows(s, f, d, m, i, s.clauses[ref]);
  }

  lemma {:induction false} ForcedFollows(s: State, f: Clauses, d: Lit, m: Model, i: nat, c: seq<Lit>)
    requires TrailOK(s, f) && s.level == 1 && IsFailed(s, d) && IsModel(m, f) && Holds(m, d) && i < |s.trail|
    requires Forced(s, c, i) && Entails(f, c)
    ensures Holds(m, s.trail[i])
    decreases i, 0
  {
    assert Sat(m, c);
    var o :| o in c && Holds(m, o);
    if o != s.trail[i] {
      FalseOnTrail(s, o);
      SameVar(o, Neg(o));
      AllFollow(s, f, d, m, Position(s, o));
    }
  }

  /** A conflict on level one refutes the decision. */
  lemma DecisionFails(s: State, f: Clauses, d: Lit, conflict: seq<Lit>)
    requires TrailOK(s, f) && s.level == 1 && IsFailed(s, d)
    requires Entails(f, conflict) && forall l :: l in conflict ==> False(s, l)
    ensures Entails(f, [Neg(d)])
  {
    hide Shape, OnTrail, Levels, Reasons, IsFailed;
    forall m: Model | IsModel(m, f) ensures Sat(m, [Neg(d)]) {
      assert Neg(d) in [Neg(d)];
      SameVar(d, Neg(d));
      if Holds(m, d) {
        assert Sat(m, conflict);
        var l :| l in conflict && Holds(m, l);
        FalseOnTrail(s, l);
        SameVar(l, Neg(l));
        AllFollow(s, f, d, m, Position(s, l));
      }
    }
  }

  // ------------------------------------------------------------------ resolving back to the decision

  /** The solver is g but for the flags, which are those of the deduction t, and the units found. */
  ghost predicate Tracking(g: State, t: State, s: State) {
    s == g.(assignments := t.assignments, analyzed := t.analyzed, clause := s.clause)
  }

  /** The deduction is at position p, and has not met the negated decision. */
  ghost predicate Failing(g: State, t: State, s: State, p: nat, open: nat, notFailed: Lit) {
    Tracking(g, t, s) && Deducing(g, t, p, open) && notFailed !in t.resolvent
  }

  /** The units found so far follow; they are at or above position p. */
  ghost predicate UnitsOK(g: State, f: Clauses, units: seq<Lit>, p: nat) {
    && (forall i :: 0 <= i < |units| ==>
          Entails(f, [units[i]]) && False(g, units[i]) && Level(g, units[i]) == 1 && Position(g, units[i]) >= p)
    && DistinctVars(units)
  }

  lemma FailingStart(g: State, notFailed: Lit)
    requires g.analyzed == [] && g.resolvent == [] && g.clause == []
    requires forall v :: 0 <= v < |g.assignments| ==> !g.assignments[v].analyzed
    ensures var t := g.(clause := [INVALID_LIT], antecedentSize := 0, resolventSize := 0);
            Failing(g, t, g, |g.trail|, 0, notFailed) && forall c :: ReadConflict(g, t, c, 0)
  {
    DeducingStart(g);
  }

  /** A literal of the conflict has not been flagged before. */
  lemma ConflictFresh(g: State, t: State, open: nat, c: seq<Lit>, k: nat)
    requires Shape(g) && OnTrail(g) && Levels(g) && Deducing(g, t, |g.trail|, open) && ReadConflict(g, t, c, k)
    requires k < |c| && DistinctVars(c) && False(g, c[k]) && g.level == 1
    ensures Var(c[k]) < |t.assignments| && !t.assignments[Var(c[k])].analyzed && Level(g, c[k]) <= 1
  {
    FalseOnTrail(g, c[k]);
    FalseLevel(g, c[k]);
    SameVar(c[k], Neg(c[k]));
    forall x | x in t.resolvent ensures Var(x) != Var(c[k]) {
      var i :| 0 <= i < k && c[..k][i] == x;
      assert c[i] == x;
    }
    assert !Covered(t.resolvent, Var(c[k]));
  }

  lemma FailingConflict(g: State, t: State, s: State, open: nat, c: seq<Lit>, k: nat, notFailed: Lit)
    requires Shape(g) && OnTrail(g) && Levels(g) && Failing(g, t, s, |g.trail|, open, notFailed)
    requires ReadConflict(g, t, c, k) && k < |c| && DistinctVars(c) && False(g, c[k]) && g.level == 1
    requires c[k] != notFailed
    ensures Var(c[k]) < |t.assignments|
    ensures var t' := Touch(g, t, c[k]);
            && ReadConflict(g, t', c, k + 1)
            && if Level(g, c[k]) == 0 then Failing(g, t', s, |g.trail|, open, notFailed)
               else Failing(g, t', Flag(s, Var(c[k])), |g.trail|, open + 1, notFailed)
  {
    hide Shape, OnTrail, Levels;
    ConflictFresh(g, t, open, c, k);
    ConflictNext(g, t, open, c, k);
    assert forall l :: l in Touch(g, t, c[k]).resolvent ==> l in t.resolvent || l == c[k];
  }

  /** The variable is flagged and remembered. */
  function Flag(s: State, v: nat): State
    requires v < |s.assignments|
  {
    s.(assignments := s.assignments[v := s.assignments[v].(analyzed := true)], analyzed := s.analyzed + [v])
  }

  lemma FailingReason(g: State, f: Clauses, t: State, s: State, p: nat, open: nat, c: seq<Lit>, lit: Lit, k: nat,
                      notFailed: Lit)
    requires TrailOK(g, f) && Failing(g, t, s, p + 1, open, notFailed) && g.level == 1 && p < |g.trail|
    requires g.trail[p] == lit && Level(g, lit) == 1 && Forced(g, c, p) && DistinctVars(c) && Read(g, t, c, lit, k)
    requires k < |c| && c[k] != notFailed
    ensures c[k] == lit ==> Read(g, t, c, lit, k + 1)
    ensures c[k] != lit ==>
              && Var(c[k]) < |s.assignments| && Level(g, c[k]) <= 1
              && s.assignments[Var(c[k])].level == Level(g, c[k])
              && var t' := Touch(g, t, c[k]);
                 && Read(g, t', c, lit, k + 1) && (forall x :: x in t.resolvent ==> x in t'.resolvent)
                 && if Level(g, c[k]) == 0 || s.assignments[Var(c[k])].analyzed
                    then Failing(g, t', s, p + 1, open, notFailed)
                    else Failing(g, t', Flag(s, Var(c[k])), p + 1, open + 1, notFailed)
  {
    hide Shape, OnTrail, Levels, Reasons, Deducing, Touch, Read, Opens, Flag, Tracking;
    assert c[k] in c;
    ReadNext(g, t, p + 1, open, c, lit, k);
    if c[k] != lit {
      FalseLevel(g, c[k]);
      TouchTracks(g, t, s, p + 1, open, c[k]);
    }
  }

  lemma TouchTracks(g: State, t: State, s: State, p: nat, open: nat, l: Lit)
    requires Tracking(g, t, s) && Deducing(g, t, p, open) && Var(l) < |t.assignments| && Level(g, l) <= 1 == g.level
    ensures Var(l) < |s.assignments| && s.assignments[Var(l)].level == Level(g, l)
    ensures var keep := Level(g, l) == 0 || s.assignments[Var(l)].analyzed;
            && Tracking(g, Touch(g, t, l), if keep then s else Flag(s, Var(l)))
            && Opens(g, t, l) == !keep
  {
  }

  /** The only literal left of the conflict is a unit. */
  lemma OneLeft(g: State, f: Clauses, t: State, s: State, p: nat, notFailed: Lit)
    requires TrailOK(g, f) && g.level == 1 && Failing(g, t, s, p + 1, 1, notFailed) && p < |g.trail|
    requires Entails(f, t.resolvent) && Neg(g.trail[p]) in t.resolvent && UnitsOK(g, f, s.clause, p + 1)
    requires True(g, g.trail[p]) && Position(g, g.trail[p]) == p && Level(g, g.trail[p]) == 1
    ensures UnitsOK(g, f, s.clause + [Neg(g.trail[p])], p)
  {
    hide Shape, OnTrail, Levels, Reasons;
    var u := Neg(g.trail[p]);
    SameVar(g.trail[p], u);
    forall l | l in t.resolvent ensures l == u {
      OnlyOpen(g, t.resolvent, l, u);
    }
    EntailsMore(f, t.resolvent, [u]);
    forall i | 0 <= i < |s.clause| ensures Var(s.clause[i]) != Var(u) {
      assert Position(g, s.clause[i]) >= p + 1;
    }
  }

  lemma UnitsLower(g: State, f: Clauses, units: seq<Lit>, p: nat, q: nat)
    requires UnitsOK(g, f, units, p) && q <= p
    ensures UnitsOK(g, f, units, q)
  {
  }

  /** The literal to resolve is not the decision: it has a reason, which is not the decision's negation alone. */
  lemma HasReason(g: State, f: Clauses, t: State, s: State, p: nat, open: nat, d: Lit)
    requires TrailOK(g, f) && g.level == 1 && IsFailed(g, d) && Failing(g, t, s, p + 1, open, Neg(d))
    requires p < |g.trail| && Neg(g.trail[p]) in t.resolvent && Level(g, g.trail[p]) == 1
    ensures ReasonOf(g, g.trail[p]).Binary? || ReasonOf(g, g.trail[p]).Large?
    ensures var c := ReasonClause(g, g.trail[p]);
            Forced(g, c, p) && Entails(f, c) &&
                (ReasonOf(g, g.trail[p]).Large? ==> ReasonOf(g, g.trail[p]).ref < |g.clauses|)
  {
    assert ReasonAt(g, f, p);
  }

  /** Resolving leaves a literal of level one. */
  lemma FailingResolved(g: State, f: Clauses, r0: seq<Lit>, t: State, s: State, p: nat, open: nat, c: seq<Lit>,
                        i: nat, notFailed: Lit)
    requires TrailOK(g, f) && g.level == 1 && Failing(g, t, s, p + 1, open, notFailed) && p < |g.trail|
    requires Level(g, g.trail[p]) == 1 && i < |t.resolvent| && t.resolvent[i] == Neg(g.trail[p])
    requires Read(g, t, c, g.trail[p], |c|) && Forced(g, c, p) && Entails(f, c)
    requires Entails(f, r0) && forall x :: x in r0 ==> x in t.resolvent
    ensures t.resolventSize > 0 && open > 1
    ensures Failing(g, Resolved(t, i), s, p, open - 1, notFailed) && Entails(f, Resolved(t, i).resolvent)
    ensures forall x :: x in Resolved(t, i).resolvent <==> x in t.resolvent && x != Neg(g.trail[p])
  {
    hide Shape, OnTrail, Levels, Reasons, Read, Lower, CountLevel, ResolventOK, FlagsOK;
    ResolveStep(g, f, r0, t, open, p, c, i);
    var o :| o in c && o != g.trail[p] && Level(g, o) == 1;
    assert LiveOther(g, c, g.trail[p], o);
    var r := Resolved(t, i).resolvent;
    var j :| 0 <= j < |r| && r[j] == o;
    CountAt(g, r, 1, j);
  }

  // ------------------------------------------------------------------ which units are learned

  /** Somewhere behind position p the literal is the only one left. */
  ghost predicate LeftAlone(g: State, conflict: seq<Lit>, u: Lit, p: int) {
    exists q: nat :: p < q <= |g.trail| && Left(g, conflict, q) == {u}
  }

  ghost predicate UnitsExact(g: State, conflict: seq<Lit>, units: seq<Lit>, p: nat) {
    forall u: Lit :: u in units <==> LeftAlone(g, conflict, u, p)
  }

  lemma LeavingStart(g: State, t: State, s: State, open: nat, c: seq<Lit>, notFailed: Lit)
    requires Failing(g, t, s, |g.trail|, open, notFailed) && ReadConflict(g, t, c, |c|) && g.level == 1
    ensures Leaving(g, t, c, |g.trail|)
  {
    hide CountLive, CountLevel, Lower, FlagsOK;
    assert c[..|c|] == c;
  }

  /** A literal is found to be alone if and only if one is open. */
  lemma ExactNext(g: State, t: State, s: State, open: nat, conflict: seq<Lit>, units: seq<Lit>, p: nat, q: nat,
                  notFailed: Lit)
    requires Shape(g) && OnTrail(g) && g.level == 1 && q < p <= |g.trail|
    requires Failing(g, t, s, q + 1, open, notFailed) && Leaving(g, t, conflict, p)
    requires Neg(g.trail[q]) in t.resolvent && UnitsExact(g, conflict, units, p)
    ensures UnitsExact(g, conflict, if open == 1 then units + [Neg(g.trail[q])] else units, q)
    ensures Leaving(g, t, conflict, q + 1)
  {
    hide Shape, OnTrail, Failing, Deducing, Left;
    var left := Left(g, conflict, p);
    FailingDeducing(g, t, s, q + 1, open, notFailed);
    WalkLeft(g, t, open, conflict, p, q);
    AloneOpen(g, t, s, open, conflict, p, q, notFailed);
    forall u: Lit ensures LeftAlone(g, conflict, u, q) <==> LeftAlone(g, conflict, u, p) || left == {u} {
      if left == {u} {
        assert Left(g, conflict, p) == {u};
      }
    }
  }

  lemma AloneOpen(g: State, t: State, s: State, open: nat, conflict: seq<Lit>, p: nat, q: nat, notFailed: Lit)
    requires g.level == 1 && q < |g.trail| && Failing(g, t, s, q + 1, open, notFailed) && Leaving(g, t, conflict, p)
    requires Neg(g.trail[q]) in t.resolvent
    ensures forall u: Lit :: Left(g, conflict, p) == {u} <==> open == 1 && u == Neg(g.trail[q])
  {
    hide Lower, FlagsOK, Left;
    var r, n := t.resolvent, Neg(g.trail[q]);
    if open == 1 {
      forall l | l in r ensures l == n {
        OnlyOpen(g, r, l, n);
      }
      assert Left(g, conflict, p) == {n};
    }
    forall u: Lit | Left(g, conflict, p) == {u} ensures open == 1 && u == n {
      forall x | x in r ensures x == u {
        assert x in Left(g, conflict, p);
      }
      OneVar(r, u);
      assert r[..0] == [] && CountLevel(g, [], 1) == 0;
    }
  }

  lemma FailingDeducing(g: State, t: State, s: State, p: nat, open: nat, notFailed: Lit)
    requires Failing(g, t, s, p, open, notFailed)
    ensures Deducing(g, t, p, open)
  {
  }

  lemma OneVar(r: seq<Lit>, u: Lit)
    requires DistinctVars(r) && r != [] && forall x :: x in r ==> x == u
    ensures r == [u]
  {
    assert r[0] in r && r[|r| - 1] in r;
    assert Var(r[0]) == Var(r[|r| - 1]);
  }

  /** The negated decision stays once it is met. */
  lemma {:induction false} StaysLeft(g: State, f: Clauses, d: Lit, conflict: seq<Lit>, p: nat, q: nat)
    requires TrailOK(g, f) && IsFailed(g, d) && q <= p <= |g.trail| && Neg(d) in Left(g, conflict, p)
    ensures Neg(d) in Left(g, conflict, q)
    decreases p - q
  {
    hide Shape, OnTrail, Levels, Reasons;
    if q < p {
      StaysLeft(g, f, d, conflict, p, q + 1);
      if Neg(g.trail[q]) == Neg(d) {
        SameNeg(g.trail[q], d);
        DecisionReason(g, f, d);
        SameVar(d, Neg(d));
        assert Neg(d) in ReasonClause(g, d) && Neg(d) in LiveOthers(g, d);
      }
    }
  }

  lemma SameNeg(k: Lit, l: Lit)
    requires Neg(k) == Neg(l)
    ensures k == l
  {
  }

  lemma DecisionReason(g: State, f: Clauses, d: Lit)
    requires TrailOK(g, f) && IsFailed(g, d)
    ensures ReasonOf(g, d) == Decision
  {
    var i := g.frames[1];
    assert ReasonAt(g, f, i);
    if ReasonOf(g, d).Binary? || ReasonOf(g, d).Large? {
      var c := ReasonClause(g, d);
      assert Forced(g, c, i);
      var o :| o in c && o != d && Level(g, o) == 1;
      FalseOnTrail(g, o);
      SameVar(o, Neg(o));
      DecisionBelow(g, f, Position(g, o));
    }
  }

  lemma FailedInConflict(g: State, conflict: seq<Lit>, d: Lit)
    requires IsFailed(g, d) && Neg(d) in conflict
    ensures Neg(d) in Left(g, conflict, |g.trail|)
  {
    SameVar(d, Neg(d));
  }

  lemma FailedInReason(g: State, f: Clauses, t: State, conflict: seq<Lit>, p: nat, d: Lit)
    requires TrailOK(g, f) && IsFailed(g, d) && p < |g.trail| && Leaving(g, t, conflict, p + 1)
    requires Neg(g.trail[p]) in t.resolvent && Neg(d) in ReasonClause(g, g.trail[p])
    requires Level(g, g.trail[p]) == g.level
    ensures Neg(d) in Left(g, conflict, p)
  {
    hide Levels, Reasons;
    SameVar(d, Neg(d));
    assert True(g, d) && True(g, g.trail[p]);
    assert g.values[Neg(d)] == -g.values[d];
    assert Neg(d) in LiveOthers(g, g.trail[p]);
  }

  lemma NoneAlone(g: State, conflict: seq<Lit>)
    ensures UnitsExact(g, conflict, [], |g.trail|)
  {
  }

  lemma FoundExact(g: State, f: Clauses, t: State, s: State, open: nat, conflict: seq<Lit>,
                   p: nat, q: nat, notFailed: Lit)
    requires TrailOK(g, f) && g.level == 1 && q < p <= |g.trail|
    requires Failing(g, t, s, q + 1, open, notFailed) && Leaving(g, t, conflict, p)
    requires Neg(g.trail[q]) in t.resolvent && UnitsExact(g, conflict, s.clause, p)
    ensures UnitsExact(g, conflict, if open == 1 then s.clause + [Neg(g.trail[q])] else s.clause, q)
    ensures Leaving(g, t, conflict, q + 1)
  {
    hide Shape, OnTrail, Failing, Left;
    ExactNext(g, t, s, open, conflict, s.clause, p, q, notFailed);
  }

  /** All literals that are left alone, and the negated decision. */
  lemma AllUnits(g: State, f: Clauses, d: Lit, conflict: seq<Lit>, units: seq<Lit>, p: nat)
    requires TrailOK(g, f) && IsFailed(g, d) && p <= |g.trail| && UnitsExact(g, conflict, units, p)
    requires Neg(d) in Left(g, conflict, p)
    ensures forall u: Lit :: u in units + [Neg(d)] <==> u == Neg(d) || LeftAlone(g, conflict, u, -1)
  {
    hide Shape, OnTrail, Levels, Reasons, Left;
    forall u: Lit | LeftAlone(g, conflict, u, -1) && u != Neg(d) ensures LeftAlone(g, conflict, u, p) {
      var q: nat :| q <= |g.trail| && Left(g, conflict, q) == {u};
      if q <= p {
        StaysLeft(g, f, d, conflict, p, q);
      }
    }
  }
}
