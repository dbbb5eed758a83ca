/**
  The outcomes of the embedded solver (kitten.c, decide, inconsistent, kitten_solve): what a
  result of 10 or 20 means for the clauses and the assumptions.
 */
module KittenOutcome {
  import opened LinkedQueue
  import opened Literals
  import opened KittenModel
  import opened KittenPropagation
  import opened KittenSearch
  import opened KittenBacktrack
  import opened KittenAnalysis
  import opened KittenTermination
  import opened KittenAssumptions

  /** What holds between the steps of the search. */
  ghost predicate Searching(s: State) {
    && Base(s) && Watched(s.klauses, s.watches) && Deciding(s, s.level) && Clean(s)
    && UnitsTrue(s.klauses, s.values, s.vars, 0)
    && s.inconsistent == INVALID && s.failing == INVALID && NoFlags(s)
  }

  // ------------------------------------------------------------------ satisfiable

  /** The model that makes exactly the variables with a positive value true. */
  ghost function ModelOf(values: seq<int>): Model {
    iset v: nat | 2 * v < |values| && values[2 * v] > 0
  }

  /** All variables are assigned, all clauses satisfied, all assumptions true. */
  ghost predicate Satisfied(s: State) {
    && (forall v: nat :: 2 * v < |s.values| ==> s.values[2 * v] != 0)
    && (forall r :: 0 <= r < |s.klauses| ==> Sat(ModelOf(s.values), s.klauses[r].lits))
    && (forall a :: a in s.assumptions ==> Holds(ModelOf(s.values), a))
  }

  lemma TrueHolds(values: seq<int>, vars: seq<Kar>, l: Lit)
    requires Shape(values, vars) && l < |values| && values[l] > 0
    ensures Holds(ModelOf(values), l)
  {
    assert values[Neg(l)] == -values[l];
    SameVar(l, 2 * Var(l));
  }

  lemma AllAssignedModel(s: State, l: Lit)
    requires Base(s) && s.unassigned == 0 && l < |s.values|
    ensures s.values[l] != 0
  {
    AllAssigned(s.values, |s.vars|, Var(l));
    SameVar(l, 2 * Var(l));
    assert s.values[Neg(l)] == -s.values[l];
  }

  lemma ClauseSatisfied(s: State, r: nat)
    requires Searching(s) && Quiet(s, INVALID) && s.propagated == |s.trail| && s.unassigned == 0 && r < |s.klauses|
    ensures Sat(ModelOf(s.values), s.klauses[r].lits)
  {
    hide FormulaOK, SearchOK, CountFree, Below, TrailOK, Reasons, Roots, Deciding, Clean, NoFlags;
    var c := s.klauses[r].lits;
    assert Proper(|s.values|, c);
    NotEmpty(s, r);
    if |c| == 1 {
      assert UnitTrue(c, s.values, s.vars);
      TrueHolds(s.values, s.vars, c[0]);
    } else {
      AllAssignedModel(s, c[0]);
      if s.values[c[0]] > 0 {
        TrueHolds(s.values, s.vars, c[0]);
      } else {
        ClauseSupported(s, r);
        var t :| t in c && t < |s.values| && s.values[t] > 0;
        TrueHolds(s.values, s.vars, t);
      }
    }
  }

  lemma NotEmpty(s: State, r: nat)
    requires Searching(s) && r < |s.klauses|
    ensures |s.klauses[r].lits| > 0
  {
  }

  lemma ClauseSupported(s: State, r: nat)
    requires Searching(s) && Quiet(s, INVALID) && s.propagated == |s.trail| && r < |s.klauses|
    requires |s.klauses[r].lits| >= 2 && s.klauses[r].lits[0] < |s.values| && s.values[s.klauses[r].lits[0]] < 0
    ensures Supported(s.klauses[r].lits, s.values, s.vars, s.level)
  {
    hide FormulaOK, SearchOK, CountFree, Below, Reasons, Roots, Deciding, Clean, NoFlags;
    var c := s.klauses[r].lits;
    assert VisitedAt(c, s.values, s.vars, s.trail, s.propagated, s.level);
    assert s.values[Neg(c[0])] == -s.values[c[0]];
    SameVar(c[0], Neg(c[0]));
    assert Lv(s.vars, Neg(c[0])) <= s.level;
  }

  /** A result of 10: the values are a model of all clauses and assumptions. */
  lemma SearchSatisfied(s: State)
    requires Searching(s) && Quiet(s, INVALID) && s.propagated == |s.trail| && s.unassigned == 0
    requires s.level >= |s.assumptions|
    ensures Satisfied(s)
  {
    hide FormulaOK, SearchOK, CountFree, TrailOK, Reasons, Roots, Klauses, Clean, NoFlags, PendingOK, Propagated;
    forall v: nat | 2 * v < |s.values| ensures s.values[2 * v] != 0 {
      AllAssignedModel(s, 2 * v);
    }
    forall r | 0 <= r < |s.klauses| ensures Sat(ModelOf(s.values), s.klauses[r].lits) {
      ClauseSatisfied(s, r);
    }
    forall a | a in s.assumptions ensures Holds(ModelOf(s.values), a) {
      var j :| 0 <= j < |s.assumptions| && s.assumptions[j] == a;
      TrueHolds(s.values, s.vars, a);
    }
  }

  // ------------------------------------------------------------------ inconsistent clauses

  /** All literals of a clause are false at the root level. */
  ghost predicate RootConflict(s: State, conflict: int) {
    && 0 <= conflict < |s.klauses|
    && forall o :: o in s.klauses[conflict].lits ==> o < |s.values| && s.values[o] < 0 && Lv(s.vars, o) == 0
  }

  lemma RootConflicts(s: State, conflict: int)
    requires Base(s) && s.level == 0 && Conflicting(s, conflict)
    ensures RootConflict(s, conflict)
  {
    hide FormulaOK, SearchOK, CountFree, Reasons, Roots, Klauses, PendingOK;
    forall o | o in s.klauses[conflict].lits ensures Lv(s.vars, o) == 0 {
      assert s.values[Neg(o)] == -s.values[o];
      SameVar(o, Neg(o));
    }
  }

  /** The conflict and the units of its literals have no common model. */
  lemma RootRefuted(s: State, conflict: int, refs: seq<int>, m: Model)
    requires Base(s) && RootConflict(s, conflict) && conflict in refs
    requires forall o :: o in s.klauses[conflict].lits ==> Why(s.vars, o) in refs
    ensures !SatAll(m, s.klauses, refs)
  {
    hide FormulaOK, SearchOK, CountFree, Reasons, TrailOK, Klauses, PendingOK, Below;
    if SatAll(m, s.klauses, refs) {
      var i :| 0 <= i < |refs| && refs[i] == conflict;
      assert Sat(m, s.klauses[refs[i]].lits);
      var o :| o in s.klauses[conflict].lits && Holds(m, o);
      RootFalse(m, s.values, s.vars, s.klauses, refs, o);
    }
  }

  /** Without antecedents the conflict is just registered. */
  lemma InconsistentKeeps(s: State, conflict: int)
    requires Base(s) && RootConflict(s, conflict) && !s.tracked
    ensures Base(s.(inconsistent := conflict)) && Refuted(s.klauses)
  {
    hide SearchOK, CountFree, PendingOK, Below, Derived;
    forall m: Model ensures !Originals(m, s.klauses) {
      RootImplied(s, conflict, m);
    }
  }

  lemma RootImplied(s: State, conflict: int, m: Model)
    requires Base(s) && RootConflict(s, conflict)
    ensures !Originals(m, s.klauses)
  {
    hide SearchOK, CountFree, PendingOK, Below, Derived, Reasons, TrailOK, Klauses, UnitsOK, EmptyOK;
    var refs: seq<int> := seq(|s.klauses|, i => i);
    forall r | 0 <= r < |s.klauses| ensures r in refs {
      assert refs[r] == r;
    }
    forall o | o in s.klauses[conflict].lits ensures Why(s.vars, o) in refs {
      assert s.values[Neg(o)] == -s.values[o];
      SameVar(o, Neg(o));
    }
    assert Originals(m, s.klauses) ==> SatAll(m, s.klauses, refs);
    RootRefuted(s, conflict, refs, m);
  }

  // ------------------------------------------------------------------ units after an assertion

  lemma AssertUnits(s0: State, s: State, s': State, m: nat, c: seq<Lit>, jump: nat)
    requires UnitsTrue(s0.klauses, s0.values, s0.vars, 0) && s.values == s0.values && s.vars == s0.vars
    requires Learned(s, c, jump) && CutAt(s, s', m, jump) && SameFormula(s0.klauses, s.klauses)
    requires |s.klauses| == |s0.klauses| + 1
    ensures var t := Assigns(s', c[0], |s.klauses| - 1); UnitsTrue(t.klauses, t.values, t.vars, 0)
  {
    hide Base, Watched, Deciding, Propagated, Split, Counted, Assigns, Assignable, Set, Forced, Quiet, UnitsTrue,
         Similar, Grows, CutTo;
    var t := Assigns(s', c[0], |s.klauses| - 1);
    CutUnits(s0, s, s'.values, jump);
    AssertKeeps(s, s', m, c, jump);
    AssertNewUnits(s, s', m, c, jump);
    SameFormulaTrans(s0.klauses, s.klauses, t.klauses);
    UnitsTrueTrans(s0.klauses, s'.values, s'.vars, 0, t.klauses, t.values, t.vars, s'.level);
  }

  /** The learned clause, if it is a unit, is true at the root level, and so are the units learned with it. */
  lemma AssertNewUnits(s: State, s': State, m: nat, c: seq<Lit>, jump: nat)
    requires Learned(s, c, jump) && CutAt(s, s', m, jump)
    ensures var t := Assigns(s', c[0], |s.klauses| - 1); UnitsTrue(t.klauses, t.values, t.vars, |s.klauses| - 1)
  {
    hide Base, Watched, Deciding, Propagated, Split, Counted, Assigns, Grows, Assignable, Set, Forced, Quiet, CutTo,
         SameFormula, RootLearned;
    var n := |s.klauses| - 1;
    var t := Assigns(s', c[0], n);
    AssertKeeps(s, s', m, c, jump);
    BasicAssignable(s', c[0], n);
    AssignsKeeps(s', c[0], n);
    PutTrail(s', c[0], n);
    SetTrue(s', c[0]);
    forall r | n <= r < |t.klauses| ensures UnitTrue(t.klauses[r].lits, t.values, t.vars) {
      RootPrefix(c[0], s'.klauses, s'.units, t.klauses, t.units, r);
      if r > n {
        assert UnitTrue(t.klauses[r].lits, t.values, t.vars);
      }
    }
  }

  lemma CutUnits(s0: State, s: State, values: seq<int>, jump: nat)
    requires UnitsTrue(s0.klauses, s0.values, s0.vars, 0) && CutTo(s0.values, s0.vars, values, jump)
    ensures UnitsTrue(s0.klauses, values, s0.vars, 0)
  {
  }

  // ------------------------------------------------------------------ antecedents of the empty clause

  /** All marked variables are assigned at the root level. */
  ghost predicate RootMarked(s: State) {
    MarkedOK(s) && forall v :: v in s.analyzed ==> v < |s.vars| && s.vars[v].level == 0
  }

  ghost predicate RootLit(s: State, l: Lit) {
    Var(l) < |s.marks| && l < |s.values| && Var(l) < |s.vars| && s.values[l] != 0 && Lv(s.vars, l) == 0
  }

  lemma RootMark(s: State, l: Lit)
    requires Shape(s.values, s.vars) && RootMarked(s) && RootLit(s, l)
    ensures RootMarked(Mark(s, l)) && Marks(Mark(s, l), l)
    ensures forall x: nat :: Marks(s, x) ==> Marks(Mark(s, l), x)
  {
    SameVar(l, 2 * Var(l));
    assert s.values[Neg(l)] == -s.values[l];
    var s' := Mark(s, l);
    assert s'.analyzed[|s.analyzed|] == Var(l);
  }

  /** The reason of a marked variable is its unit clause, which marks nothing new. */
  lemma RootReasonMarked(s: State, v: nat)
    requires Base(s) && RootMarked(s) && v in s.analyzed
    ensures v < |s.vars| && 0 <= s.vars[v].reason < |s.klauses|
    ensures forall o :: o in s.klauses[s.vars[v].reason].lits ==> RootLit(s, o) && Marks(s, o)
  {
    hide FormulaOK, SearchOK, CountFree, Reasons, TrailOK, Klauses, PendingOK, Below;
    var l := if s.values[2 * v] > 0 then 2 * v else Neg(2 * v);
    assert s.values[Neg(2 * v)] == -s.values[2 * v];
    SameVar(2 * v, Neg(2 * v));
    assert Var(l) == v && s.values[l] > 0;
    assert s.klauses[Why(s.vars, l)].lits == [l];
  }

  lemma ConflictRootLits(s: State, conflict: int)
    requires Base(s) && RootConflict(s, conflict)
    ensures forall o :: o in s.klauses[conflict].lits ==> RootLit(s, o)
  {
    hide FormulaOK, SearchOK, CountFree, Reasons, TrailOK, Klauses, PendingOK, Below;
  }

  /** The reasons of the first n analyzed variables are among the resolved clauses. */
  ghost predicate RootResolved(s: State, n: nat) {
    forall j :: 0 <= j < n && j < |s.analyzed| && s.analyzed[j] < |s.vars| ==>
                s.vars[s.analyzed[j]].reason in s.resolved
  }

  lemma RootEmpty(s: State, conflict: int)
    requires Base(s) && RootConflict(s, conflict) && RootMarked(s) && RootResolved(s, |s.analyzed|)
    requires conflict in s.resolved
    requires forall o :: o in s.klauses[conflict].lits ==> Marks(s, o)
    ensures Entail(s.klauses, s.resolved, [])
  {
    hide Base, SatAll;
    forall o | o in s.klauses[conflict].lits ensures Why(s.vars, o) in s.resolved {
      assert Marks(s, o);
      assert Var(o) in s.analyzed;
      var j :| 0 <= j < |s.analyzed| && s.analyzed[j] == Var(o);
    }
    forall m: Model ensures !SatAll(m, s.klauses, s.resolved) {
      RootRefuted(s, conflict, s.resolved, m);
    }
  }

  /** Registering the empty clause makes the formula refuted. */
  lemma EmptyLearned(s: State)
    requires Base(s) && Watched(s.klauses, s.watches) && s.klause == []
    requires Refs(s.resolved, |s.klauses|) && Entail(s.klauses, s.resolved, []) && s.inconsistent == INVALID
    ensures Base(Learn(s)) && Watched(Learn(s).klauses, Learn(s).watches)
    ensures SameFormula(s.klauses, Learn(s).klauses) && Learn(s).inconsistent == |s.klauses|
    ensures Refuted(Learn(s).klauses) && Learn(s).units == s.units && Learn(s).watches == s.watches
    ensures |Learn(s).klauses| == |s.klauses| + 1 && Learn(s).klauses[|s.klauses|].lits == []
  {
    LearnKeeps(s, s.resolved);
    hide SearchOK, CountFree, PendingOK, Below, Assigned, Watched, Refs, Entail, Refuted, Derived, Implied, SameFormula;
  }

  lemma RootConflictIndex(s: State, conflict: int)
    requires RootConflict(s, conflict)
    ensures 0 <= conflict < |s.klauses|
  {
  }

  lemma SameFormulaRefl(ks: seq<Klause>)
    ensures SameFormula(ks, ks)
  {
  }

  /** The buffers of the analysis do not matter to the invariant. */
  lemma MarkedBase(s: State, s': State)
    requires Base(s) && |s'.marks| == |s.marks|
    requires s' == s.(marks := s'.marks, analyzed := s'.analyzed, klause := s'.klause, resolved := s'.resolved)
    ensures Base(s') && Shape(s'.values, s'.vars)
  {
  }

  lemma MarkedConflict(s: State, s': State, conflict: int)
    requires RootConflict(s, conflict)
    requires s' == s.(marks := s'.marks, analyzed := s'.analyzed, klause := s'.klause, resolved := s'.resolved)
    ensures RootConflict(s', conflict)
  {
  }

  lemma RootMarkedStart(s: State)
    requires Clean(s)
    ensures RootMarked(s)
  {
  }

  lemma RootResolvedStart(s: State)
    ensures RootResolved(s, 0)
  {
  }

  lemma RootResolvedNext(s: State, s': State, n: nat)
    requires RootResolved(s, n) && n < |s.analyzed| && s.analyzed[n] < |s.vars|
    requires s'.analyzed == s.analyzed && s'.vars == s.vars
    requires s'.resolved == s.resolved + [s.vars[s.analyzed[n]].reason]
    ensures RootResolved(s', n + 1)
  {
  }

  lemma RootMarkedOK(s: State)
    requires RootMarked(s)
    ensures MarkedOK(s)
  {
  }

  lemma RootMarkedPush(s: State, refs: seq<int>)
    requires RootMarked(s)
    ensures RootMarked(s.(resolved := refs))
  {
  }

  lemma RootMarkedSame(s: State, s': State)
    requires RootMarked(s) && s'.marks == s.marks && s'.analyzed == s.analyzed && s'.values == s.values
    requires s'.vars == s.vars
    ensures RootMarked(s')
  {
  }

  // ------------------------------------------------------------------ failing assumptions

  /** The analysis of a failed assumption has filled the buffer. */
  ghost predicate Blaming(s: State) {
    && Base(s) && Watched(s.klauses, s.watches) && FlagsAssumed(s) && FlagsExact(s, s.klause)
    && (forall l :: l in s.klause ==> InResolved(s, l)) && s.inconsistent == INVALID
    && Proper(|s.values|, s.klause) && s.klause != []
    && Refs(s.resolved, |s.klauses|) && Entail(s.klauses, s.resolved, s.klause)
  }

  lemma BlamesSame(m: Model, s: State, s': State)
    requires Blames(m, s) && s'.failed == s.failed
    ensures Blames(m, s')
  {
    var l :| Flagged(s, l) && !Holds(m, l);
    assert Flagged(s', l);
  }

  lemma BlamedAssumption(s: State)
    requires Blaming(s)
    ensures s.assumptions != []
  {
    hide Base, Watched, Proper, Refs, Entail;
    SameVar(s.klause[0], s.klause[0]);
    assert Flagged(s, Neg(s.klause[0]));
  }

  /** A single resolved clause is the failing one. */
  lemma FailedReused(s: State)
    requires Blaming(s) && |s.resolved| == 1
    ensures Failed(s.(failing := s.resolved[0], klause := [], resolved := []))
  {
    BlamedAssumption(s);
    hide Base, Watched, FlagsAssumed, FlagsExact;
    var s' := s.(failing := s.resolved[0], klause := [], resolved := []);
    var c := s.klauses[s.resolved[0]].lits;
    forall l | l in c ensures l in s.klause {
      ReusedLit(s, l);
    }
    forall l | l in s.klause ensures l in c {
      assert InResolved(s, l);
    }
    hide Entail, Proper, InResolved;
    ExactMembers(s, s.klause, c);
    ExactSame(s, s', c);
    FlagsSame(s, s');
  }

  lemma ExactMembers(s: State, c: seq<Lit>, d: seq<Lit>)
    requires FlagsExact(s, c) && forall l :: l in c <==> l in d
    ensures FlagsExact(s, d)
  {
  }

  /** What implies the buffer alone has no other literals: a model of just one of them would falsify the buffer. */
  lemma ReusedLit(s: State, l: Lit)
    requires Entail(s.klauses, s.resolved, s.klause) && Proper(|s.values|, s.klause) && |s.resolved| == 1
    requires 0 <= s.resolved[0] < |s.klauses| && l in s.klauses[s.resolved[0]].lits
    ensures l in s.klause
  {
    var m: Model := iset v: nat | if v == Var(l) then l % 2 == 0 else 2 * v + 1 in s.klause;
    assert Holds(m, l);
    assert SatAll(m, s.klauses, s.resolved);
    var k :| k in s.klause && Holds(m, k);
    if Var(k) == Var(l) {
      SameVar(k, l);
      HoldsOne(m, k, l);
    } else if k % 2 == 0 {
      SameVar(k, k + 1);
      var i, j :| 0 <= i < |s.klause| && 0 <= j < |s.klause| && s.klause[i] == k && s.klause[j] == k + 1;
      assert i < j || j < i;
    }
  }

  lemma HoldsOne(m: Model, k: Lit, l: Lit)
    requires Holds(m, k) && Holds(m, l) && Var(k) == Var(l)
    ensures k == l
  {
  }

  lemma FlagsSame(s: State, s': State)
    requires FlagsAssumed(s) && s'.failed == s.failed && s'.assumptions == s.assumptions
    ensures FlagsAssumed(s')
  {
    assert forall l: nat :: Flagged(s', l) <==> Flagged(s, l);
  }

  /** Otherwise the failing clause is learned. */
  lemma FailedLearned(s: State)
    requires Blaming(s)
    ensures var s' := Learn(s).(failing := |s.klauses|, klause := [], resolved := []);
            && Failed(s') && Base(s') && Watched(s'.klauses, s'.watches) && SameFormula(s.klauses, s'.klauses)
  {
    LearnKeeps(s, s.resolved);
    LearnFrame(s);
    BlamedAssumption(s);
    hide Base, Watched, Proper, FlagsAssumed, FlagsExact, SameFormula, Connect, Entail, Refs, InResolved;
    var s' := Learn(s).(failing := |s.klauses|, klause := [], resolved := []);
    ExactSame(s, s', s.klause);
    FlagsSame(s, s');
    MarkedBase(Learn(s), Learn(s).(klause := [], resolved := []));
    FailingBase(Learn(s).(klause := [], resolved := []), |s.klauses|);
  }

  lemma FailingBase(s: State, ref: int)
    requires Base(s)
    ensures Base(s.(failing := ref))
  {
  }

  // ------------------------------------------------------------------ decisions

  lemma RaiseBase(s: State)
    requires Base(s) && s.propagated == |s.trail|
    ensures Base(s.(level := s.level + 1))
  {
    hide FormulaOK, SearchOK, CountFree, Below, Reasons, Roots, Klauses;
  }

  lemma RaiseQuiet(s: State)
    requires Base(s) && Quiet(s, INVALID)
    ensures Quiet(s.(level := s.level + 1), INVALID)
  {
    hide FormulaOK, SearchOK, CountFree, Below, Reasons, Roots, Supported;
    forall r | 0 <= r < |s.klauses|
      ensures VisitedAt(s.klauses[r].lits, s.values, s.vars, s.trail, s.propagated, s.level + 1)
    {
      var c := s.klauses[r].lits;
      assert VisitedAt(c, s.values, s.vars, s.trail, s.propagated, s.level);
      forall l: nat | l < |s.values| && s.values[l] < 0 ensures Lv(s.vars, l) <= s.level {
        assert s.values[Neg(l)] == -s.values[l];
        SameVar(l, Neg(l));
      }
    }
  }

  /** A satisfied assumption opens a level without a decision. */
  lemma RaiseSearching(s: State)
    requires Searching(s) && Quiet(s, INVALID) && s.propagated == |s.trail|
    requires s.level < |s.assumptions| && s.assumptions[s.level] < |s.values| && s.values[s.assumptions[s.level]] > 0
    ensures var s' := s.(level := s.level + 1); Searching(s') && Quiet(s', INVALID)
  {
    RaiseBase(s);
    RaiseQuiet(s);
    hide FormulaOK, SearchOK, CountFree, Below, Reasons, Roots, Klauses, Watched, UnitsTrue, VisitedAt;
    var s' := s.(level := s.level + 1);
    assert Lv(s.vars, s.assumptions[s.level]) <= s.level;
    assert forall l: nat :: Flagged(s', l) <==> Flagged(s, l);
    assert Base(s');
    assert Clean(s');
    assert NoFlags(s');
    assert Assumed(s'.values, s'.vars, s'.assumptions, s'.level);
    assert Inhabited(s'.vars, s'.trail, |s'.assumptions|, s'.level);
    assert Obedient(s'.values, s'.vars, s'.assumptions);
    assert First(s'.vars, s'.trail);
  }

  /** The next decision is the next assumption, if there is one. */
  ghost predicate Decidable(s: State, lit: Lit) {
    && lit < |s.values| && s.values[lit] == 0
    && (s.level < |s.assumptions| ==> lit == s.assumptions[s.level])
  }

  lemma DecideAssignable(s: State, lit: Lit)
    requires Searching(s) && s.propagated == |s.trail| && Decidable(s, lit)
    ensures var s1 := s.(level := s.level + 1);
            Base(s1) && Assignable(s1, lit, INVALID) && s1.klause == [] && s1.resolved == []
  {
    RaiseBase(s);
  }

  lemma DecideDeciding(s: State, lit: Lit)
    requires Searching(s) && s.propagated == |s.trail| && Decidable(s, lit)
    ensures var t := Put(s.(level := s.level + 1), lit, INVALID); Deciding(t, t.level)
  {
    hide FormulaOK, SearchOK, CountFree, Below, Reasons, Roots, Klauses, Watched, UnitsTrue, Clean, NoFlags;
    var t := Put(s.(level := s.level + 1), lit, INVALID);
    AssignGrows(s.values, s.vars, lit, Kar(s.level + 1, INVALID));
    SameVar(lit, Neg(lit));
    hide Grows;
    DecideLevels(s, lit, t);
    DecideFirst(s, lit, t);
    DecideObedient(s, lit, t);
  }

  lemma DecideKept(s: State, lit: Lit, t: State)
    requires Base(s) && Decidable(s, lit) && t == Put(s.(level := s.level + 1), lit, INVALID)
    ensures |t.values| == |s.values| && t.trail == s.trail + [lit] && lit < |t.values| && t.values[lit] == 1
    ensures forall l: nat ::
              l < |s.values| && s.values[l] != 0 ==> t.values[l] == s.values[l] && t.vars[Var(l)] == s.vars[Var(l)]
    ensures forall l: nat :: l < |t.values| && t.values[l] > 0 && l != lit ==> s.values[l] > 0
    ensures Lv(t.vars, lit) == s.level + 1 && Why(t.vars, lit) == INVALID
  {
    hide FormulaOK, SearchOK, CountFree, Below, Reasons, Roots, Klauses;
    AssignGrows(s.values, s.vars, lit, Kar(s.level + 1, INVALID));
    AssignShape(s.values, s.vars, lit, Kar(s.level + 1, INVALID));
    SameVar(lit, Neg(lit));
  }

  lemma DecideLevels(s: State, lit: Lit, t: State)
    requires Searching(s) && Decidable(s, lit) && t == Put(s.(level := s.level + 1), lit, INVALID)
    ensures Inhabited(t.vars, t.trail, |t.assumptions|, t.level) && Assumed(t.values, t.vars, t.assumptions, t.level)
  {
    hide FormulaOK, SearchOK, CountFree, Below, Reasons, Roots, Klauses, Watched, UnitsTrue,
         Clean, NoFlags, Obedient, First;
    DecideKept(s, lit, t);
    forall j | |t.assumptions| < j <= t.level ensures HasLevel(t.vars, t.trail, j) {
      if j <= s.level {
        assert HasLevel(s.vars, s.trail, j);
        var i :| 0 <= i < |s.trail| && Lv(s.vars, s.trail[i]) == j;
        assert s.values[s.trail[i]] > 0;
        assert t.trail[i] == s.trail[i] && Lv(t.vars, t.trail[i]) == j;
      } else {
        assert t.trail[|s.trail|] == lit;
      }
    }
  }

  lemma DecideFirst(s: State, lit: Lit, t: State)
    requires Searching(s) && Decidable(s, lit) && t == Put(s.(level := s.level + 1), lit, INVALID)
    ensures First(t.vars, t.trail)
  {
    hide FormulaOK, SearchOK, CountFree, Below, Reasons, Roots, Klauses, Watched, UnitsTrue, Clean, NoFlags, Obedient,
         Assumed, Inhabited;
    DecideKept(s, lit, t);
    forall i | 0 <= i < |s.trail| ensures Lv(t.vars, t.trail[i]) == Lv(s.vars, s.trail[i]) <= s.level {
      assert t.trail[i] == s.trail[i] && s.values[s.trail[i]] > 0;
    }
    forall i, j | 0 <= i < j < |t.trail| && Decision(t.vars, t.trail[j])
      ensures Lv(t.vars, t.trail[i]) < Lv(t.vars, t.trail[j]) {
      if j < |s.trail| {
        assert t.trail[j] == s.trail[j] && s.values[s.trail[j]] > 0;
        assert Decision(s.vars, s.trail[j]);
      }
    }
  }

  lemma DecideObedient(s: State, lit: Lit, t: State)
    requires Searching(s) && Decidable(s, lit) && t == Put(s.(level := s.level + 1), lit, INVALID)
    ensures Obedient(t.values, t.vars, t.assumptions)
  {
    hide FormulaOK, SearchOK, CountFree, Below, Reasons, Roots, Klauses, Watched, UnitsTrue, Clean, NoFlags, First,
         Assumed, Inhabited;
    DecideKept(s, lit, t);
    forall l: nat | l < |t.values| && t.values[l] > 0 && Decision(t.vars, l) && Lv(t.vars, l) <= |t.assumptions|
      ensures t.assumptions[Lv(t.vars, l) - 1] == l
    {
      if l != lit {
        assert s.values[l] > 0 && Decision(s.vars, l);
      }
    }
  }

  /** A decision keeps the invariant of the search and makes its weight larger. */
  lemma DecideKeeps(s: State, lit: Lit)
    requires Searching(s) && Quiet(s, INVALID) && s.propagated == |s.trail| && Decidable(s, lit)
    ensures var t := Assigns(s.(level := s.level + 1), lit, INVALID);
            Searching(t) && Quiet(t, INVALID) && Weight(s) < Weight(t) && Top(t) == Top(s) && SameTask(s, t)
  {
    hide Base, Watched, Deciding, UnitsTrue, Clean, NoFlags, Quiet, Assignable, Assigns, Weight, Decidable, Grows;
    var s1 := s.(level := s.level + 1);
    var t := Assigns(s1, lit, INVALID);
    DecideAssignable(s, lit);
    AssignsKeeps(s1, lit, INVALID);
    DecideSame(s, lit);
    DecideDeciding(s, lit);
    DecideQuiet(s, lit);
    DecideUnits(s, lit);
    DecideWeight(s, lit);
    DecideTask(s, lit);
  }

  lemma DecideSame(s: State, lit: Lit)
    ensures Assigns(s.(level := s.level + 1), lit, INVALID) == Put(s.(level := s.level + 1), lit, INVALID)
  {
  }

  lemma DecideTask(s: State, lit: Lit)
    requires Searching(s) && Decidable(s, lit)
    ensures var t := Put(s.(level := s.level + 1), lit, INVALID);
            && Clean(t) && NoFlags(t) && SameTask(s, t) && Top(t) == Top(s)
            && (Watched(s.klauses, s.watches) ==> Watched(t.klauses, t.watches))
  {
    hide Base, Watched, Deciding, UnitsTrue, Propagated;
    var t := Put(s.(level := s.level + 1), lit, INVALID);
    assert forall l: nat :: Flagged(t, l) <==> Flagged(s, l);
  }

  lemma DecideQuiet(s: State, lit: Lit)
    requires Searching(s) && Quiet(s, INVALID) && s.propagated == |s.trail| && Decidable(s, lit)
    ensures Quiet(Put(s.(level := s.level + 1), lit, INVALID), INVALID)
  {
    RaiseQuiet(s);
    BaseParts(s);
    hide Base, Watched, Deciding, UnitsTrue, Clean, NoFlags, Propagated, Shape, Klauses, Assigned;
    DecideKept(s, lit, Put(s.(level := s.level + 1), lit, INVALID));
    Bounds(s, lit);
    AssignPropagated(s.klauses, s.values, s.vars, s.trail, s.propagated, s.level + 1, lit, Kar(s.level + 1, INVALID));
  }

  lemma DecideUnits(s: State, lit: Lit)
    requires Searching(s) && Decidable(s, lit)
    ensures var t := Put(s.(level := s.level + 1), lit, INVALID); UnitsTrue(t.klauses, t.values, t.vars, 0)
  {
    hide FormulaOK, SearchOK, CountFree, Below, Assigned, Watched, Deciding, Clean, NoFlags, Set;
    var t := Put(s.(level := s.level + 1), lit, INVALID);
    DecideKept(s, lit, t);
    forall r | 0 <= r < |t.klauses| ensures UnitTrue(t.klauses[r].lits, t.values, t.vars) {
      assert UnitTrue(s.klauses[r].lits, s.values, s.vars);
    }
  }

  lemma DecideWeight(s: State, lit: Lit)
    requires Searching(s) && s.propagated == |s.trail| && Decidable(s, lit)
    ensures Weight(s) < Weight(Put(s.(level := s.level + 1), lit, INVALID))
  {
    hide Watched, UnitsTrue, Clean, NoFlags, Deciding, Grows, Assigned, FormulaOK, SearchOK, Below, CountFree, Assigns;
    var s1 := s.(level := s.level + 1);
    var t := Put(s1, lit, INVALID);
    DecideAssignable(s, lit);
    DecideSame(s, lit);
    AssignsKeeps(s1, lit, INVALID);
    DecideDeciding(s, lit);
    LevelBound(t);
    PutVar(s, lit, t.values);
    MoreValue(s.values, s.vars, t.values, t.vars, s.level + 1, Var(lit), Top(s));
  }

  // ------------------------------------------------------------------ the main loop

  lemma ExtendsSearching(s: State, s': State)
    requires Searching(s) && Extends(s, s') && Base(s') && Watched(s'.klauses, s'.watches)
    ensures Searching(s') && SameTask(s, s') && SameFormula(s.klauses, s'.klauses)
  {
    hide Base, Watched, Deciding, Grows, Forced, Similar, UnitsTrue;
    ExtendsDeciding(s, s', s.level);
    ExtendsFrame(s, s');
    UnitsTrueTrans(s.klauses, s.values, s.vars, 0, s'.klauses, s'.values, s'.vars, s.level);
    assert forall l: nat :: Flagged(s', l) <==> Flagged(s, l);
    ExtendsSizes(s, s');
  }

  lemma ExtendsSizes(s: State, s': State)
    requires Extends(s, s')
    ensures |s'.values| == |s.values| && |s'.vars| == |s.vars|
  {
  }

  lemma RootDeciding(s: State)
    requires Base(s) && s.level == 0
    ensures Deciding(s, 0)
  {
    hide FormulaOK, SearchOK, CountFree, Below, Reasons, Roots, Klauses, PendingOK;
  }

  /** Before the first unit clause is assigned nothing is false. */
  lemma FreshQuiet(s: State)
    requires Fresh(s)
    ensures Quiet(s, INVALID)
  {
  }

  /** The first n unit clauses are true. */
  ghost predicate UnitsDone(s: State, n: nat) {
    forall i :: 0 <= i < n && i < |s.units| ==> UnitTrue(Lits(s.klauses, s.units[i]), s.values, s.vars)
  }

  lemma UnitsAllTrue(s: State)
    requires Base(s) && UnitsDone(s, |s.units|)
    ensures UnitsTrue(s.klauses, s.values, s.vars, 0)
  {
    hide SearchOK, CountFree, Below, Assigned, PendingOK, Implied, Derived, EmptyOK, UnitTrue;
    forall r | 0 <= r < |s.klauses| ensures UnitTrue(s.klauses[r].lits, s.values, s.vars) {
      if |s.klauses[r].lits| == 1 {
        var i :| 0 <= i < |s.units| && s.units[i] == r;
        assert UnitTrue(Lits(s.klauses, s.units[i]), s.values, s.vars);
      } else {
        NotUnit(s.klauses[r].lits, s.values, s.vars);
      }
    }
  }

  lemma NotUnit(c: seq<Lit>, values: seq<int>, vars: seq<Kar>)
    requires |c| != 1
    ensures UnitTrue(c, values, vars)
  {
  }

  lemma UnitIndex(s: State, n: nat)
    requires Base(s) && n < |s.units|
    ensures s.units[n] < |s.klauses| && |s.klauses[s.units[n]].lits| == 1
    ensures s.klauses[s.units[n]].lits[0] < |s.values|
  {
    assert Proper(|s.values|, s.klauses[s.units[n]].lits);
  }

  /** A unit clause that is already true needs no work. */
  lemma UnitSkipped(s: State, n: nat)
    requires Base(s) && s.level == 0 && n < |s.units| && UnitsDone(s, n)
    requires UnitIndexed(s, n) && s.values[s.klauses[s.units[n]].lits[0]] > 0
    ensures UnitsDone(s, n + 1)
  {
  }

  ghost predicate UnitIndexed(s: State, n: nat)
    requires n < |s.units|
  {
    && s.units[n] < |s.klauses| && |s.klauses[s.units[n]].lits| == 1
    && s.klauses[s.units[n]].lits[0] < |s.values|
  }

  /** A false unit clause is a conflict at the root level. */
  lemma UnitConflict(s: State, n: nat)
    requires Base(s) && s.level == 0 && n < |s.units| && UnitIndexed(s, n)
    requires s.values[s.klauses[s.units[n]].lits[0]] < 0
    ensures RootConflict(s, s.units[n])
  {
    hide FormulaOK, SearchOK, CountFree, Below, Reasons, Roots, Klauses, PendingOK;
    var l := s.klauses[s.units[n]].lits[0];
    assert s.values[Neg(l)] == -s.values[l];
    SameVar(l, Neg(l));
  }

  /** An unassigned unit clause is assigned. */
  lemma UnitAssigned(s: State, n: nat)
    requires Base(s) && Watched(s.klauses, s.watches) && Clean(s) && Quiet(s, INVALID)
    requires s.level == 0 && n < |s.units| && UnitsDone(s, n)
    requires UnitIndexed(s, n) && s.values[s.klauses[s.units[n]].lits[0]] == 0
    ensures var lit, ref := s.klauses[s.units[n]].lits[0], s.units[n];
            && Assignable(s, lit, ref)
            && var t := Assigns(s, lit, ref);
               && Base(t) && Watched(t.klauses, t.watches) && Clean(t) && Quiet(t, INVALID) && UnitsDone(t, n + 1)
               && t.klauses == s.klauses && t.units == s.units && t.watches == s.watches && t.propagated == s.propagated
               && t.level == 0
  {
    hide Base, Watched, Propagated, Grows, RootLearned, UnitsDone, Set;
    var lit, ref := s.klauses[s.units[n]].lits[0], s.units[n];
    var t := Assigns(s, lit, ref);
    AssignsKeeps(s, lit, ref);
    SweepAssignPropagated(s, lit, ref);
    UnitPut(s, n);
  }

  lemma UnitPut(s: State, n: nat)
    requires Base(s) && s.level == 0 && n < |s.units| && UnitsDone(s, n)
    requires UnitIndexed(s, n) && s.values[s.klauses[s.units[n]].lits[0]] == 0
    ensures UnitsDone(Put(s, s.klauses[s.units[n]].lits[0], s.units[n]), n + 1)
  {
    hide FormulaOK, SearchOK, CountFree, Below, Reasons, Roots, Klauses, PendingOK, TrailOK;
    var lit := s.klauses[s.units[n]].lits[0];
    var t := Put(s, lit, s.units[n]);
    AssignGrows(s.values, s.vars, lit, Kar(s.level, s.units[n]));
    SameVar(lit, Neg(lit));
    forall i | 0 <= i < n + 1 && i < |t.units| ensures UnitTrue(Lits(t.klauses, t.units[i]), t.values, t.vars) {
      if i < n {
        assert UnitTrue(Lits(s.klauses, s.units[i]), s.values, s.vars);
      }
    }
  }

  lemma SameFlags(s: State, s': State)
    requires NoFlags(s) && s'.failed == s.failed
    ensures NoFlags(s')
  {
    assert forall l: nat :: Flagged(s', l) <==> Flagged(s, l);
  }

  ghost predicate Falsified(s: State, l: Lit) {
    l < |s.values| && s.values[l] < 0
  }

  lemma AssumptionBounds(s: State)
    requires Searching(s)
    ensures |s.values| == 2 * |s.vars| && |s.failed| == |s.values|
    ensures forall k :: 0 <= k < |s.assumptions| ==> s.assumptions[k] < |s.values|
  {
    forall k | 0 <= k < |s.assumptions| ensures s.assumptions[k] < |s.values| {
      assert s.assumptions[k] in s.assumptions;
    }
  }

  lemma UnitFailing(s: State, l: Lit)
    requires Searching(s) && l in s.assumptions && l < |s.values| && s.values[l] < 0 && Lv(s.vars, l) == 0
    ensures l < |s.failed|
    ensures var s' := Flag(s, l).(failing := Why(s.vars, l));
            Base(s') && Failed(s') && SameFormula(s.klauses, s'.klauses)
  {
    UnitFails(s, l);
    FlagBase(s, l);
    FailingBase(Flag(s, l), Why(s.vars, l));
    SameFormulaRefl(s.klauses);
  }

  lemma ClashFailing(s: State, l: Lit)
    requires Searching(s) && s.level <= |s.assumptions|
    requires l in s.assumptions && l < |s.values| && s.values[l] < 0 && Lv(s.vars, l) > 0 && Why(s.vars, l) == INVALID
    ensures l < |s.failed| && Neg(l) < |s.failed|
    ensures var s' := Flag(Flag(s, l), Neg(l)); Base(s') && Failed(s') && SameFormula(s.klauses, s'.klauses)
  {
    ClashFails(s, l);
    FlagBase(s, l);
    FlagBase(Flag(s, l), Neg(l));
    SameFormulaRefl(s.klauses);
    Bounds(s, l);
    AssumptionBounds(s);
  }

  lemma FailingCanStart(s: State, failed: Lit)
    requires Searching(s) && failed in s.assumptions && failed < |s.values| && s.values[failed] < 0
    requires Lv(s.vars, failed) > 0 && Why(s.vars, failed) != INVALID
    ensures CanStart(s, failed)
  {
  }

  /** After the marks are gone the analysis of a failed assumption may be turned into a clause. */
  lemma BlamingDone(s0: State, s1: State, s: State)
    requires Watched(s0.klauses, s0.watches) && Base(s1)
    requires s1 == s0.(marks := s1.marks, analyzed := s1.analyzed, klause := s1.klause, resolved := s1.resolved,
                       failed := s1.failed)
    requires s == s1.(marks := s.marks, analyzed := []) && |s.marks| == |s1.marks|
    requires FlagsAssumed(s1) && FlagsExact(s1, s1.klause) && s1.inconsistent == INVALID
    requires forall l :: l in s1.klause ==> InResolved(s1, l)
    requires Proper(|s.values|, s.klause) && s.klause != []
    requires Refs(s.resolved, |s.klauses|) && Entail(s.klauses, s.resolved, s.klause)
    ensures Blaming(s) && |s.watches| == |s.values|
  {
    MarkedBase(s1, s);
    FlagsSame(s1, s);
    ExactSame(s1, s, s.klause);
    assert forall l :: InResolved(s1, l) ==> InResolved(s, l);
    assert |s.watches| == |s.values|;
  }

  lemma ReusedBase(s: State)
    requires Blaming(s) && |s.resolved| == 1
    ensures var s' := s.(failing := s.resolved[0], klause := [], resolved := []);
            Base(s') && Watched(s'.klauses, s'.watches)
  {
    FailingBase(s, s.resolved[0]);
    MarkedBase(s.(failing := s.resolved[0]), s.(failing := s.resolved[0], klause := [], resolved := []));
  }

  // ------------------------------------------------------------------ the next decision variable

  /** All variables enqueued after idx are assigned. */
  ghost predicate AssignedAfter(s: State, idx: nat) {
    && idx < |s.links|
    && forall v: nat ::
         v < |s.links| && s.links[v].stamp > s.links[idx].stamp && 2 * v < |s.values| ==> s.values[2 * v] != 0
  }

  lemma SearchStart(s: State)
    requires Base(s) && s.unassigned > 0
    ensures 0 <= s.search < |s.links| && AssignedAfter(s, s.search) && |s.values| == 2 * |s.links|
  {
    assert |s.vars| > 0;
  }

  lemma QueueSplit(s: State, order: seq<nat>, i: nat, v: nat)
    requires Queued(s, order) && i < |order| && v < |s.links|
    ensures s.links[v].stamp > s.links[order[i]].stamp || v == order[i]
         || (i > 0 && s.links[v].stamp <= s.links[order[i - 1]].stamp)
  {
    assert v in order;
    var j :| 0 <= j < |order| && order[j] == v;
    assert j < i - 1 ==> s.links[order[j]].stamp < s.links[order[i - 1]].stamp;
  }

  /** Before an assigned variable without unassigned ones after it there is another variable. */
  lemma SearchStep(s: State, order: seq<nat>, idx: nat)
    requires Base(s) && Queued(s, order) && s.unassigned > 0 && AssignedAfter(s, idx)
    requires 2 * idx < |s.values| && s.values[2 * idx] != 0
    ensures var prev := s.links[idx].prev;
            && 0 <= prev < |s.links| && s.links[prev].stamp < s.links[idx].stamp && AssignedAfter(s, prev)
  {
    hide FormulaOK, Assigned, Below, PendingOK, SearchOK;
    assert idx in order;
    var i :| 0 <= i < |order| && order[i] == idx;
    assert NodeOK(s.links, order, i);
    forall v: nat | v < |s.links|
      ensures s.links[v].stamp > s.links[idx].stamp || v == idx ||
              (i > 0 && s.links[v].stamp <= s.links[order[i - 1]].stamp)
    {
      QueueSplit(s, order, i, v);
    }
    if i == 0 {
      SomeFree(s.values, |s.vars|);
    }
  }

  /** A free variable gives a decision of either sign. */
  lemma FreeDecidable(s: State, idx: nat, phase: bool)
    requires Searching(s) && s.level >= |s.assumptions| && 2 * idx < |s.values| && s.values[2 * idx] == 0
    ensures idx < |s.phases| && Decidable(s, 2 * idx + if phase then 1 else 0)
  {
    hide FormulaOK, SearchOK, CountFree, Below, TrailOK, Reasons, Roots, Klauses, PendingOK;
    assert s.values[Neg(2 * idx)] == -s.values[2 * idx];
  }

  lemma AssumptionDecidable(s: State)
    requires Searching(s) && s.level < |s.assumptions|
    ensures s.assumptions[s.level] < |s.values|
    ensures s.values[s.assumptions[s.level]] == 0 ==> Decidable(s, s.assumptions[s.level])
    ensures s.values[s.assumptions[s.level]] == 0 ==> s.unassigned > 0
  {
    AssumptionBounds(s);
    var a := s.assumptions[s.level];
    if s.values[a] == 0 && s.unassigned <= 0 {
      AllAssignedModel(s, a);
    }
  }

  lemma FlushSearching(s: State)
    requires Searching(s) && Quiet(s, INVALID) && s.level == 0 && s.propagated == |s.trail|
    ensures var s' := s.(trail := [], propagated := 0); Searching(s') && Quiet(s', INVALID) && Weight(s') == Weight(s)
  {
    hide Watched, UnitsTrue, Quiet, Weight, Base;
    FlushKeeps(s);
    var s' := s.(trail := [], propagated := 0);
    RootDeciding(s');
    SameFlags(s, s');
    WeightSame(s, s');
  }

  lemma RaiseWeight(s: State)
    ensures Weight(s.(level := s.level + 1)) == Weight(s)
  {
    WeightSame(s, s.(level := s.level + 1));
  }

  lemma FreeSome(s: State)
    requires Searching(s)
    ensures s.unassigned >= 0
  {
  }

  /** The search pointer may move back to a free variable without free ones after it. */
  lemma SearchMoved(s: State, idx: nat)
    requires Searching(s) && Quiet(s, INVALID) && AssignedAfter(s, idx)
    ensures var s' := s.(search := idx); Searching(s') && Quiet(s', INVALID) && Weight(s') == Weight(s)
    ensures idx < |s.phases|
  {
    hide Watched, UnitsTrue, FormulaOK, Assigned, CountFree, PendingOK, Below, Propagated;
    var s' := s.(search := idx);
    SameFlags(s, s');
    WeightSame(s, s');
  }

  lemma DecideFrame(s: State, lit: Lit)
    ensures var t := Assigns(s.(level := s.level + 1), lit, INVALID);
            t.klauses == s.klauses && t.links == s.links && t.first == s.first && t.last == s.last && t.stamp == s.stamp
            && t.core == s.core
  {
  }

  lemma UnitsNone(s: State)
    ensures UnitsDone(s, 0)
  {
  }

  lemma UnitBounds(s: State, n: nat)
    requires Base(s) && n < |s.units| && UnitIndexed(s, n)
    requires s.values[s.klauses[s.units[n]].lits[0]] !in {1, -1}
    ensures s.values[s.klauses[s.units[n]].lits[0]] == 0
  {
    hide FormulaOK, SearchOK, CountFree, Below, TrailOK, Reasons, Roots, Klauses, PendingOK;
  }

  lemma UnitFrame(s: State, lit: Lit, reason: int)
    requires |Lits(s.klauses, reason)| == 1
    ensures Assigns(s, lit, reason) == Put(s, lit, reason)
    ensures |Put(s, lit, reason).values| == |s.values| && |Put(s, lit, reason).vars| == |s.vars|
  {
  }

  lemma ExtendsUnits(s: State, s': State)
    requires Extends(s, s') && UnitsTrue(s.klauses, s.values, s.vars, 0)
    ensures UnitsTrue(s'.klauses, s'.values, s'.vars, 0) && SameFormula(s.klauses, s'.klauses)
  {
    hide Grows, Forced, Similar, UnitsTrue;
    UnitsTrueTrans(s.klauses, s.values, s.vars, 0, s'.klauses, s'.values, s'.vars, s.level);
  }

  lemma ExtendsParts(s: State, s': State)
    requires Extends(s, s')
    ensures s' == s.(values := s'.values, vars := s'.vars, phases := s'.phases, trail := s'.trail,
                     unassigned := s'.unassigned, klauses := s'.klauses, units := s'.units, watches := s'.watches,
                     propagated := s'.propagated)
    ensures |s'.values| == |s.values| && |s'.vars| == |s.vars|
  {
  }
}
