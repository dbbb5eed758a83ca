/**
  The search of the embedded solver (kitten.c): what holds between propagation, decisions,
  conflict analysis and backtracking, and why the search ends.
 */
module KittenSearch {
  import opened Literals
  import opened Sequences
  import opened KittenModel
  import opened KittenPropagation

  lemma TrailVars(values: seq<int>, vars: seq<Kar>, trail: seq<Lit>, level: nat)
    requires Shape(values, vars) && TrailOK(values, vars, trail, level)
    ensures forall i :: 0 <= i < |trail| ==> Var(trail[i]) < |vars|
    ensures forall i, j :: 0 <= i < j < |trail| ==> Var(trail[i]) != Var(trail[j])
  {
    forall i, j | 0 <= i < j < |trail| ensures Var(trail[i]) != Var(trail[j]) {
      assert values[Neg(trail[i])] < 0;
      SameVar(trail[i], trail[j]);
    }
  }

  lemma TrailBound(s: State)
    requires Base(s)
    ensures |s.trail| <= |s.vars| && s.propagated <= |s.trail|
  {
    TrailVars(s.values, s.vars, s.trail, s.level);
    Pigeonhole(seq(|s.trail|, i requires 0 <= i < |s.trail| => Var(s.trail[i])), |s.vars|);
  }

  // ------------------------------------------------------------------ propagation to completion

  /** s' is reached from s by propagation. */
  ghost predicate Extends(s: State, s': State) {
    Advances(s, s'.(propagated := s.propagated))
  }

  lemma ExtendsRefl(s: State)
    requires Base(s)
    ensures Extends(s, s)
  {
    AdvancesRefl(s);
  }

  lemma ExtendsStep(s: State, s': State, s'': State)
    requires Extends(s, s') && Advances(s', s'')
    ensures Extends(s, s''.(propagated := s''.propagated + 1))
  {
    hide Grows, Forced, SameFormula;
    var t, t' := s'.(propagated := s.propagated), s''.(propagated := s.propagated);
    assert Advances(t, t');
    AdvancesTrans(s, t, t');
  }

  lemma ExtendsFrame(s: State, s': State)
    requires Extends(s, s')
    ensures s'.klause == s.klause && s'.resolved == s.resolved && s'.level == s.level
    ensures s'.inconsistent == s.inconsistent
    ensures s'.analyzed == s.analyzed && s'.marks == s.marks && s'.assumptions == s.assumptions && s'.failed == s.failed
    ensures s'.failing == s.failing && s'.tracked == s.tracked
    ensures s'.links == s.links && s'.first == s.first && s'.last == s.last && s'.stamp == s.stamp
  {
  }

  lemma PropagateStep(s: State, conflict: int)
    requires Base(s) && Propagated(s.klauses, s.values, s.vars, s.trail, s.propagated, s.level)
    requires s.propagated < |s.trail|
    requires if conflict == INVALID
             then Handled(s.klauses, s.values, s.vars, Neg(s.trail[s.propagated]), [], s.level)
             else Conflicting(s, conflict)
    ensures var s' := s.(propagated := s.propagated + 1);
            && Base(s') && Quiet(s', conflict) && (conflict != INVALID ==> Conflicting(s', conflict))
  {
    hide Base, Propagated, Handled, Quiet;
    PropagatedNext(s, conflict);
  }

  lemma NextLit(s: State)
    requires Base(s) && s.propagated < |s.trail|
    ensures Neg(s.trail[s.propagated]) < |s.watches|
  {
  }
}
