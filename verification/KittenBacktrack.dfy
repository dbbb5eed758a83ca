/**
  Unassigning literals (kitten.c): backtracking to a level, flushing the root-level trail,
  and the complete backtracking before a new call to the solver.
 */
module KittenBacktrack {
  import opened Literals
  import opened KittenModel
  import opened KittenPropagation
  import opened KittenSearch

  function Clear(values: seq<int>, lit: Lit): seq<int> {
    if lit < |values| && Neg(lit) < |values| then values[lit := 0][Neg(lit) := 0] else values
  }

  /** The state after unassigning a literal: the search pointer may have to move back. */
  function Unput(s: State, lit: Lit): State {
    var idx := Var(lit);
    s.(values := Clear(s.values, lit), unassigned := s.unassigned + 1,
       search := if 0 <= s.search < |s.links| && idx < |s.links| && s.links[idx].stamp > s.links[s.search].stamp
                 then idx else s.search)
  }

  /** The bookkeeping of unassigned variables and of the search pointer. */
  ghost predicate Counted(s: State) {
    && Sized(s) && Shape(s.values, s.vars)
    && SearchOK(s.links, s.search, s.values)
    && s.unassigned == CountFree(s.values, |s.vars|)
  }

  lemma UnputKeeps(s: State, lit: Lit)
    requires Counted(s) && lit < |s.values| && s.values[lit] != 0
    ensures Counted(Unput(s, lit)) && Neg(lit) < |s.values|
    ensures forall l: nat :: l < |s.values| ==>
              Unput(s, lit).values[l] == if Var(l) == Var(lit) then 0 else s.values[l]
  {
    var s' := Unput(s, lit);
    assert s.values[Neg(lit)] == -s.values[lit];
    forall l: nat | l < |s.values| ensures s'.values[l] == if Var(l) == Var(lit) then 0 else s.values[l] {
      SameVar(lit, l);
    }
    CountOneLess(s'.values, s.values, |s.vars|, Var(lit));
    forall l: nat | l < |s'.values| ensures s'.values[Neg(l)] == -s'.values[l] {
      assert s.values[Neg(l)] == -s.values[l];
    }
  }

  // ------------------------------------------------------------------ backtracking to a level

  /** Variable v occurs on the trail at position k or later. */
  ghost predicate Popped(trail: seq<Lit>, k: nat, v: nat) {
    exists i :: k <= i < |trail| && Var(trail[i]) == v
  }

  /** s differs from s0 in that the trail above position k has been unassigned. */
  ghost predicate Popping(s0: State, s: State, k: nat) {
    && Counted(s) && k <= |s0.trail|
    && s == s0.(trail := s0.trail[..k], values := s.values, unassigned := s.unassigned, search := s.search)
    && |s.values| == |s0.values|
    && (forall l: nat :: l < |s0.values| ==>
          s.values[l] == if Popped(s0.trail, k, Var(l)) then 0 else s0.values[l])
  }

  lemma PoppingStart(s: State)
    requires Base(s)
    ensures Popping(s, s, |s.trail|)
  {
    assert s.trail[..|s.trail|] == s.trail;
  }

  lemma PoppingStep(s0: State, s: State, k: nat)
    requires Base(s0) && Popping(s0, s, k) && k > 0
    ensures |s.trail| == k && s.trail[k - 1] == s0.trail[k - 1] < |s.values|
    ensures Counted(s.(trail := s.trail[..k - 1]))
    ensures Popping(s0, Unput(s.(trail := s.trail[..k - 1]), s.trail[k - 1]), k - 1)
  {
    hide FormulaOK, PendingOK, Below, Reasons, Roots, CountFree, SearchOK, Klauses;
    var lit := s0.trail[k - 1];
    assert s.trail[..k - 1] == s0.trail[..k - 1];
    PoppingLit(s0, s, k);
    var t := s.(trail := s.trail[..k - 1]);
    assert Counted(t);
    UnputKeeps(t, lit);
    var s' := Unput(t, lit);
    forall l: nat | l < |s0.values|
      ensures s'.values[l] == if Popped(s0.trail, k - 1, Var(l)) then 0 else s0.values[l]
    {
      if Var(l) == Var(lit) {
        assert Popped(s0.trail, k - 1, Var(l));
      } else if Popped(s0.trail, k, Var(l)) {
        assert Popped(s0.trail, k - 1, Var(l));
      } else {
        assert !Popped(s0.trail, k - 1, Var(l));
      }
    }
  }

  lemma PoppingLit(s0: State, s: State, k: nat)
    requires Base(s0) && Popping(s0, s, k) && k > 0
    ensures s0.trail[k - 1] < |s.values| && s.values[s0.trail[k - 1]] != 0
  {
    hide FormulaOK, PendingOK, Below, Reasons, Roots, CountFree, SearchOK, Klauses;
    TrailVars(s0.values, s0.vars, s0.trail, s0.level);
    assert !Popped(s0.trail, k, Var(s0.trail[k - 1]));
  }

  /** The state after backtracking to level jump, which keeps the first m trail positions. */
  ghost predicate CutAt(s0: State, s: State, m: nat, jump: nat) {
    && Split(s0.vars, s0.trail, m, jump) && CutTo(s0.values, s0.vars, s.values, jump)
    && s == s0.(trail := s0.trail[..m], values := s.values, unassigned := s.unassigned, search := s.search,
                propagated := m, level := jump)
    && Counted(s)
  }

  lemma PoppingEnd(s0: State, s: State, k: nat, jump: nat)
    requires Base(s0) && Popping(s0, s, k) && jump < s0.level
    requires k == 0 || Lv(s0.vars, s0.trail[k - 1]) == jump
    requires forall i :: k <= i < |s0.trail| ==> Lv(s0.vars, s0.trail[i]) != jump
    requires jump == 0 || exists i :: 0 <= i < |s0.trail| && Lv(s0.vars, s0.trail[i]) == jump
    ensures CutAt(s0, s.(propagated := k, level := jump), k, jump)
  {
    hide FormulaOK, PendingOK, Below, Reasons, Roots, CountFree, SearchOK, Klauses;
    assert Split(s0.vars, s0.trail, k, jump);
    forall l: nat | l < |s0.values|
      ensures s.values[l] == if Lv(s0.vars, l) <= jump then s0.values[l] else 0
    {
      CutLit(s0, s, k, jump, l);
    }
  }

  lemma CutLit(s0: State, s: State, k: nat, jump: nat, l: Lit)
    requires Base(s0) && Popping(s0, s, k) && Split(s0.vars, s0.trail, k, jump) && l < |s0.values|
    ensures s.values[l] == if Lv(s0.vars, l) <= jump then s0.values[l] else 0
  {
    hide FormulaOK, PendingOK, Below, Reasons, Roots, CountFree, SearchOK, Klauses;
    if Popped(s0.trail, k, Var(l)) {
      var i :| k <= i < |s0.trail| && Var(s0.trail[i]) == Var(l);
      assert Lv(s0.vars, s0.trail[i]) == Lv(s0.vars, l);
    }
    TallPopped(s0, k, jump, l);
  }

  lemma TallPopped(s0: State, k: nat, jump: nat, l: Lit)
    requires Base(s0) && Split(s0.vars, s0.trail, k, jump) && l < |s0.values|
    ensures s0.values[l] != 0 && Lv(s0.vars, l) > jump ==> Popped(s0.trail, k, Var(l))
  {
    hide FormulaOK, PendingOK, Below, Reasons, Roots, CountFree, SearchOK, Klauses;
    if s0.values[l] != 0 && Lv(s0.vars, l) > jump {
      var t := if s0.values[l] > 0 then l else Neg(l);
      assert s0.values[Neg(l)] == -s0.values[l] && Var(t) == Var(l);
      assert t in s0.trail;
      var i :| 0 <= i < |s0.trail| && s0.trail[i] == t;
    }
  }

  lemma CutBase(s0: State, s: State, m: nat, jump: nat)
    requires Base(s0) && CutAt(s0, s, m, jump)
    ensures Base(s)
  {
    hide FormulaOK, Assigned, CountFree, SearchOK, Below, CutTo, Shape;
    CutKeeps(s0.values, s0.vars, s0.trail, s0.level, s0.klauses, s.values, m, jump);
  }

  // ------------------------------------------------------------------ backtracking completely

  ghost predicate AllZero(s: State) {
    forall l: nat :: l < |s.values| ==> s.values[l] == 0
  }

  /** No variable is assigned: the state in which a call to the solver starts. */
  ghost predicate Fresh(s: State) {
    AllZero(s) && s.trail == [] && s.propagated == 0 && s.level == 0
  }

  /** s differs from s0 in that the first k trail literals and the first u units are unassigned. */
  ghost predicate Zeroing(s0: State, s: State, k: nat, u: nat) {
    && Counted(s) && k <= |s0.trail| && u <= |s0.units|
    && s == s0.(values := s.values, unassigned := s.unassigned, search := s.search)
    && |s.values| == |s0.values|
    && (forall l: nat :: l < |s0.values| ==> s.values[l] == 0 || s.values[l] == s0.values[l])
    && (forall i :: 0 <= i < |s0.trail| && s0.trail[i] < |s.values| ==>
          s.values[s0.trail[i]] == if i < k then 0 else s0.values[s0.trail[i]])
    && (forall i :: 0 <= i < u ==> UnitZero(s, s0.units[i]))
  }

  ghost predicate UnitZero(s: State, r: nat) {
    forall l :: l in Lits(s.klauses, r) ==> l < |s.values| && s.values[l] <= 0
  }

  lemma ZeroingStart(s: State)
    requires Base(s)
    ensures Zeroing(s, s, 0, 0)
  {
  }

  lemma ZeroingTrail(s0: State, s: State, k: nat)
    requires Base(s0) && Zeroing(s0, s, k, 0) && k < |s0.trail|
    ensures Zeroing(s0, Unput(s, s0.trail[k]), k + 1, 0)
  {
    hide FormulaOK, PendingOK, Below, Reasons, Roots, CountFree, SearchOK, Klauses;
    TrailVars(s0.values, s0.vars, s0.trail, s0.level);
    UnputKeeps(s, s0.trail[k]);
  }

  lemma ZeroingLive(s0: State, s: State, k: nat)
    requires Base(s0) && Zeroing(s0, s, k, 0) && k < |s0.trail|
    ensures Counted(s) && s0.trail[k] < |s.values| && s.values[s0.trail[k]] != 0
  {
  }

  lemma ZeroingUnit(s0: State, s: State, u: nat)
    requires Base(s0) && Zeroing(s0, s, |s0.trail|, u) && u < |s0.units|
    ensures s0.units[u] < |s.klauses| && |s.klauses[s0.units[u]].lits| == 1
    ensures var l := s.klauses[s0.units[u]].lits[0];
            && l < |s.values|
            && Zeroing(s0, if s.values[l] <= 0 then s else Unput(s, l), |s0.trail|, u + 1)
  {
    hide PendingOK, Below, Reasons, Roots, CountFree, SearchOK, Implied, Derived, EmptyOK;
    assert Proper(|s.values|, s.klauses[s0.units[u]].lits);
    var l := s.klauses[s0.units[u]].lits[0];
    if s.values[l] > 0 {
      UnputKeeps(s, l);
    }
  }

  lemma ZeroingEnd(s0: State, s: State)
    requires Base(s0) && Zeroing(s0, s, |s0.trail|, |s0.units|)
    ensures var s' := s.(trail := [], propagated := 0, level := 0);
            Base(s') && Fresh(s') && s'.units == s0.units && s'.klauses == s0.klauses
  {
    var s' := s.(trail := [], propagated := 0, level := 0);
    forall l: nat | l < |s.values| ensures s.values[l] == 0 {
      ZeroingLit(s0, s, l);
      ZeroingLit(s0, s, Neg(l));
      assert s.values[Neg(l)] == -s.values[l];
    }
    hide FormulaOK, CountFree, SearchOK;
    assert TrailOK(s'.values, s'.vars, s'.trail, s'.level);
  }

  lemma ZeroingLit(s0: State, s: State, l: Lit)
    requires Base(s0) && Zeroing(s0, s, |s0.trail|, |s0.units|) && l < |s.values|
    ensures s.values[l] <= 0
  {
    hide PendingOK, Below, Reasons, CountFree, SearchOK, Implied, Derived, EmptyOK, Klauses;
    if s0.values[l] > 0 {
      if l in s0.trail {
        var i :| 0 <= i < |s0.trail| && s0.trail[i] == l;
        assert s.values[s0.trail[i]] == 0;
      } else {
        var r := Why(s0.vars, l);
        assert s0.klauses[r].lits == [l];
        var i :| 0 <= i < |s0.units| && s0.units[i] == r;
        assert UnitZero(s, s0.units[i]);
        assert l in Lits(s.klauses, r);
      }
    }
  }

  // ------------------------------------------------------------------ flushing the root-level trail

  lemma FlushKeeps(s: State)
    requires Base(s) && s.level == 0 && s.propagated == |s.trail| && Quiet(s, INVALID)
    ensures var s' := s.(trail := [], propagated := 0); Base(s') && Quiet(s', INVALID)
  {
    hide FormulaOK, CountFree, SearchOK, Below, Supported;
    var s' := s.(trail := [], propagated := 0);
    forall r | 0 <= r < |s.klauses|
      ensures VisitedAt(s.klauses[r].lits, s.values, s.vars, [], 0, s.level)
    {
      assert VisitedAt(s.klauses[r].lits, s.values, s.vars, s.trail, s.propagated, s.level);
    }
  }
}
