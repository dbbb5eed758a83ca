/**
  Failing assumptions in the embedded solver (kitten.c, failing): which assumptions are
  flagged, and why they cannot all hold together with the clauses.
 */
module KittenAssumptions {
  import opened Literals
  import opened KittenModel
  import opened KittenPropagation
  import opened KittenSearch
  import opened KittenAnalysis
  import opened KittenTermination

  ghost predicate Flagged(s: State, l: Lit) {
    l < |s.failed| && s.failed[l]
  }

  ghost predicate FlagsAssumed(s: State) {
    forall l: nat :: Flagged(s, l) ==> l in s.assumptions
  }

  ghost predicate NoFlags(s: State) {
    forall l: nat :: !Flagged(s, l)
  }

  /** Some flagged assumption is false in m. */
  ghost predicate Blames(m: Model, s: State) {
    exists l :: Flagged(s, l) && !Holds(m, l)
  }

  /** Exactly the negations of the literals of c are flagged. */
  ghost predicate FlagsExact(s: State, c: seq<Lit>) {
    forall l: nat :: Flagged(s, l) <==> Neg(l) in c
  }

  /** Flagged is what the failing clause negates; without one, just two assumptions that clash. */
  ghost predicate Culprit(s: State) {
    if s.failing == INVALID then exists l :: FlagsExact(s, [l, Neg(l)])
    else 0 <= s.failing < |s.klauses| && FlagsExact(s, s.klauses[s.failing].lits)
  }

  /** The outcome of a call that fails because of its assumptions. */
  ghost predicate Failed(s: State) {
    s.inconsistent == INVALID && FlagsAssumed(s) && Culprit(s) && s.assumptions != []
  }

  /** The outcome of a call that fails: because of its assumptions, or whatever they are. */
  ghost predicate Explained(s: State) {
    Failed(s) || (s.inconsistent != INVALID && NoFlags(s))
  }

  lemma ExactBlames(s: State, c: seq<Lit>, m: Model)
    requires FlagsExact(s, c) && Sat(m, c)
    ensures Blames(m, s)
  {
    var l :| l in c && Holds(m, l);
    SameVar(l, Neg(l));
    assert Flagged(s, Neg(l)) && !Holds(m, Neg(l));
  }

  /** Two literals that clash cannot both hold. */
  lemma ClashBlames(s: State, m: Model)
    requires Culprit(s) && s.failing == INVALID
    ensures Blames(m, s)
  {
    var l :| FlagsExact(s, [l, Neg(l)]);
    SameVar(l, Neg(l));
    var x := if Holds(m, l) then Neg(l) else l;
    assert Flagged(s, x) && !Holds(m, x);
  }

  lemma ExactSame(s: State, s': State, c: seq<Lit>)
    requires FlagsExact(s, c) && s'.failed == s.failed
    ensures FlagsExact(s', c)
  {
    forall l: nat ensures Flagged(s', l) <==> Neg(l) in c {
      assert Flagged(s', l) <==> Flagged(s, l);
    }
  }

  /** The original clauses and the flagged assumptions contradict each other. */
  lemma FailedUnsat(s: State, m: Model)
    requires Implied(s.klauses) && Failed(s) && Originals(m, s.klauses)
    ensures Blames(m, s)
  {
    if s.failing == INVALID {
      ClashBlames(s, m);
    } else {
      ExactBlames(s, s.klauses[s.failing].lits, m);
    }
  }

  function Flag(s: State, l: Lit): State {
    s.(failed := if l < |s.failed| then s.failed[l := true] else s.failed)
  }

  lemma FlagOnly(s: State, l: Lit)
    ensures forall x: nat :: Flagged(Flag(s, l), x) <==> Flagged(s, x) || (x == l && l < |s.failed|)
  {
  }

  lemma FlagBase(s: State, l: Lit)
    requires Base(s)
    ensures Base(Flag(s, l))
  {
    hide FormulaOK, SearchOK, CountFree, Assigned, PendingOK, Below;
  }

  // ------------------------------------------------------------------ simple failures

  /** A literal assumed but false at the root level is refuted by its unit clause. */
  lemma UnitFails(s: State, l: Lit)
    requires Base(s) && NoFlags(s) && l in s.assumptions && l < |s.values| && s.values[l] < 0 && Lv(s.vars, l) == 0
    requires s.inconsistent == INVALID
    ensures Failed(Flag(s, l).(failing := Why(s.vars, l))) && Why(s.vars, l) != INVALID
    ensures 0 <= Why(s.vars, l) < |s.klauses| && |s.klauses[Why(s.vars, l)].lits| == 1
  {
    hide FormulaOK, SearchOK, CountFree, PendingOK, Below, TrailOK, Reasons, Klauses;
    var s' := Flag(s, l).(failing := Why(s.vars, l));
    assert s.values[Neg(l)] == -s.values[l];
    SameVar(l, Neg(l));
    FlagOnly(s, l);
    assert forall x: nat :: Flagged(s', x) <==> Flagged(Flag(s, l), x);
    assert s.klauses[Why(s.vars, l)].lits == [Neg(l)];
    forall x: nat ensures Flagged(s', x) <==> Neg(x) in [Neg(l)] {
      SameVar(x, l);
      SameVar(l, x);
    }
  }

  /** A literal assumed but negated by a decision clashes with another assumption. */
  lemma ClashFails(s: State, l: Lit)
    requires Base(s) && NoFlags(s) && Deciding(s, s.level) && s.level <= |s.assumptions| && s.failing == INVALID
    requires l in s.assumptions && l < |s.values| && s.values[l] < 0 && Lv(s.vars, l) > 0 && Why(s.vars, l) == INVALID
    requires s.inconsistent == INVALID
    ensures Failed(Flag(Flag(s, l), Neg(l)))
  {
    hide FormulaOK, SearchOK, CountFree, PendingOK, Reasons, Roots, Klauses;
    var s' := Flag(Flag(s, l), Neg(l));
    assert s.values[Neg(l)] == -s.values[l];
    SameVar(l, Neg(l));
    FlagOnly(s, l);
    FlagOnly(Flag(s, l), Neg(l));
    assert s.assumptions[Lv(s.vars, Neg(l)) - 1] == Neg(l);
    forall x: nat ensures Flagged(s', x) <==> Neg(x) in [l, Neg(l)] {
      SameVar(x, l);
      SameVar(l, x);
    }
    assert FlagsExact(s', [l, Neg(l)]);
  }

  // ------------------------------------------------------------------ the general case

  /** In the analysis of a failed assumption root-level literals and decisions are final. */
  function Root(failed: Lit): Final {
    Final(1, true, [Neg(failed)])
  }

  /** The decisions met so far, on the trail from p on, are flagged and buffered negated. */
  ghost predicate Collected(s: State, failed: Lit, p: nat) {
    && |s.klause| >= 1 && s.klause[0] == Neg(failed)
    && Lv(s.vars, failed) > 0 && Why(s.vars, failed) != INVALID && failed < |s.values| && s.values[failed] < 0
    && AllDecisions(s, p) && Covered(s, p) && FlagsExact(s, s.klause) && FlagsAssumed(s)
  }

  ghost predicate AllDecisions(s: State, p: nat) {
    && (forall k :: 1 <= k < |s.klause| ==> FromDecision(s, p, s.klause[k]))
    && (forall i, j :: 1 <= i < j < |s.klause| ==> Var(s.klause[i]) != Var(s.klause[j]))
  }

  ghost predicate Covered(s: State, p: nat) {
    forall i :: p <= i < |s.trail| && Marks(s, s.trail[i]) && Decision(s.vars, s.trail[i]) ==>
      Neg(s.trail[i]) in s.klause
  }

  ghost predicate FromDecision(s: State, p: nat, l: Lit) {
    exists i :: p <= i < |s.trail| && l == Neg(s.trail[i]) && Decision(s.vars, s.trail[i])
  }

  /** Marked root-level variables wait in the work list. */
  ghost predicate Working(s: State, work: seq<nat>) {
    && (forall v: nat :: v < |s.marks| && s.marks[v] && v < |s.vars| && s.vars[v].level == 0 ==> v in work)
    && (forall v :: v in work ==> v < |s.vars| && s.vars[v].level == 0 && 2 * v < |s.values| && s.values[2 * v] != 0)
  }

  ghost predicate FailingAt(s: State, failed: Lit, p: nat, open: nat, work: seq<nat>) {
    && Base(s) && p <= |s.trail| && MarkedOK(s) && open == Open(s, 1, p)
    && Refs(s.resolved, |s.klauses|) && Working(s, work)
  }

  /** The analysis of a failed assumption may start. */
  ghost predicate CanStart(s: State, failed: Lit) {
    && Base(s) && NoFlags(s) && failed in s.assumptions && failed < |s.values| && s.values[failed] < 0
    && Lv(s.vars, failed) > 0 && Why(s.vars, failed) != INVALID
    && s.analyzed == [] && s.klause == [] && s.resolved == [] && (forall v :: 0 <= v < |s.marks| ==> !s.marks[v])
  }

  function Start(s: State, failed: Lit): State {
    Mark(Flag(s, failed), failed).(klause := [Neg(failed)])
  }

  lemma StartAt(s: State, failed: Lit)
    requires CanStart(s, failed)
    ensures FailingAt(Start(s, failed), failed, |s.trail|, 1, [])
  {
    hide FormulaOK, SearchOK, CountFree, PendingOK, TrailOK, Reasons, Roots, Klauses, Before, Open;
    var t := Flag(s, failed);
    FlagBase(s, failed);
    OnTrail(s, failed);
    MarkBase(t, failed, [Neg(failed)]);
    SameVar(failed, 2 * Var(failed));
    assert s.values[Neg(failed)] == -s.values[failed];
    NothingOpen(t, 1, |s.trail|);
    MarkOpen(t, failed, 1, |s.trail|);
    BufferOpen(Mark(t, failed), [Neg(failed)], 1, |s.trail|);
  }

  lemma StartCollected(s: State, failed: Lit)
    requires CanStart(s, failed)
    ensures Collected(Start(s, failed), failed, |s.trail|)
  {
    hide FormulaOK, SearchOK, CountFree, PendingOK, Assigned, Decision;
    FlagOnly(s, failed);
    SameVar(failed, Neg(failed));
    var s' := Start(s, failed);
    forall x: nat ensures Flagged(s', x) <==> Neg(x) in [Neg(failed)] {
      assert Flagged(s', x) <==> Flagged(Flag(s, failed), x);
      SameVar(x, failed);
      SameVar(failed, x);
    }
  }

  lemma FailingStart(s: State, failed: Lit)
    requires CanStart(s, failed)
    ensures var s' := Start(s, failed);
            && FailingAt(s', failed, |s.trail|, 1, []) && Collected(s', failed, |s.trail|)
            && Resolved(s', Root(failed), |s.trail|)
  {
    hide FailingAt, Collected, Resolved, Before, Base;
    StartAt(s, failed);
    StartCollected(s, failed);
    OnTrail(s, failed);
    MarksFailed(s, failed);
    StartResolved(Start(s, failed), failed);
  }

  lemma MarksFailed(s: State, failed: Lit)
    requires CanStart(s, failed)
    ensures Marks(Start(s, failed), failed)
  {
  }

  lemma OnTrail(s: State, l: Lit)
    requires Base(s) && l < |s.values| && s.values[l] < 0 && Lv(s.vars, l) > 0
    ensures Before(s.trail, |s.trail|, Neg(l))
  {
    assert s.values[Neg(l)] == -s.values[l];
    SameVar(l, Neg(l));
    assert Neg(l) in s.trail;
  }

  lemma StartResolved(s: State, failed: Lit)
    requires failed < |s.values| && s.values[failed] < 0 && Marks(s, failed) && Before(s.trail, |s.trail|, Neg(failed))
    ensures Resolved(s, Root(failed), |s.trail|)
  {
    var f := Root(failed);
    forall m: Model | SatAll(m, s.klauses, s.resolved) ensures exists l :: Clue(s, f, |s.trail|, l) && Holds(m, l) {
      assert Clue(s, f, |s.trail|, failed) && Clue(s, f, |s.trail|, Neg(failed));
      SameVar(failed, Neg(failed));
      assert Holds(m, failed) || Holds(m, Neg(failed));
    }
  }

  // The steps of the walk along the trail

  /** A decision is flagged and buffered. */
  function Collect(s: State, a: Lit): State {
    Flag(s, a).(klause := s.klause + [Neg(a)])
  }

  lemma CollectStep(s: State, failed: Lit, p: nat, open: nat, work: seq<nat>)
    requires FailingAt(s, failed, p, open, work) && Collected(s, failed, p + 1) && p < |s.trail|
    requires Deciding(s, s.level) && s.level <= |s.assumptions|
    requires Decision(s.vars, s.trail[p])
    ensures var s' := Collect(s, s.trail[p]);
            FailingAt(s', failed, p, open, work) && Collected(s', failed, p)
  {
    CollectAt(s, failed, p, open, work);
    CollectCollected(s, failed, p);
  }

  lemma CollectAt(s: State, failed: Lit, p: nat, open: nat, work: seq<nat>)
    requires FailingAt(s, failed, p, open, work) && p < |s.trail|
    ensures FailingAt(Collect(s, s.trail[p]), failed, p, open, work)
  {
    hide FormulaOK, SearchOK, CountFree, PendingOK, Assigned, Below;
    FlagBase(s, s.trail[p]);
    CollectOpen(s, s.trail[p], 1, p);
  }

  lemma CollectOpen(s: State, a: Lit, lo: nat, p: nat)
    ensures Open(Collect(s, a), lo, p) == Open(s, lo, p)
  {
  }

  lemma CollectAll(s: State, p: nat)
    requires AllDecisions(s, p + 1) && p < |s.trail| && Decision(s.vars, s.trail[p]) && |s.klause| >= 1
    requires forall i :: 1 <= i < |s.klause| ==> Var(s.klause[i]) != Var(s.trail[p])
    ensures AllDecisions(Collect(s, s.trail[p]), p)
  {
    var a := s.trail[p];
    var s' := Collect(s, a);
    SameVar(a, Neg(a));
    forall k | 1 <= k < |s'.klause| ensures FromDecision(s', p, s'.klause[k]) {
      if k < |s.klause| {
        assert FromDecision(s, p + 1, s.klause[k]);
      }
    }
  }

  lemma CollectCovered(s: State, p: nat)
    requires Covered(s, p + 1) && p < |s.trail|
    ensures Covered(Collect(s, s.trail[p]), p)
  {
    var s' := Collect(s, s.trail[p]);
    forall i | p <= i < |s'.trail| && Marks(s', s'.trail[i]) && Decision(s'.vars, s'.trail[i])
      ensures Neg(s'.trail[i]) in s'.klause
    {
      if i == p {
        assert s'.klause[|s.klause|] == Neg(s.trail[p]);
      } else {
        assert Neg(s.trail[i]) in s.klause;
      }
    }
  }

  lemma CollectCollected(s: State, failed: Lit, p: nat)
    requires Base(s) && Collected(s, failed, p + 1) && p < |s.trail|
    requires Deciding(s, s.level) && s.level <= |s.assumptions|
    requires Decision(s.vars, s.trail[p])
    ensures Collected(Collect(s, s.trail[p]), failed, p)
  {
    CollectFlags(s, p);
    CollectDistinct(s, failed, p);
    hide Base, FlagsAssumed, Flagged, Decision, AllDecisions, Covered, Assumed, Obedient, Inhabited, First;
    SameVar(s.trail[p], Neg(s.trail[p]));
    CollectAll(s, p);
    CollectCovered(s, p);
  }

  lemma CollectFlags(s: State, p: nat)
    requires Base(s) && p < |s.trail| && FlagsAssumed(s)
    requires Deciding(s, s.level) && s.level <= |s.assumptions| && Decision(s.vars, s.trail[p])
    requires FlagsExact(s, s.klause)
    ensures var s' := Collect(s, s.trail[p]); FlagsAssumed(s') && FlagsExact(s', s'.klause)
  {
    hide FormulaOK, SearchOK, CountFree, PendingOK, Reasons, Roots, Klauses;
    var a := s.trail[p];
    FlagOnly(s, a);
    assert s.assumptions[Lv(s.vars, a) - 1] == a;
    var s' := Collect(s, a);
    assert |s.failed| == |s.values| && a < |s.values|;
    forall x: nat ensures Flagged(s', x) <==> Neg(x) in s'.klause {
      assert Flagged(s', x) <==> Flagged(Flag(s, a), x);
      SameVar(x, a);
      SameVar(a, x);
      assert Neg(x) in s'.klause <==> Neg(x) in s.klause || Neg(x) == Neg(a);
    }
    assert forall x: nat :: Flagged(s', x) <==> Flagged(Flag(s, a), x);
  }

  lemma CollectDistinct(s: State, failed: Lit, p: nat)
    requires Base(s) && Collected(s, failed, p + 1) && p < |s.trail|
    ensures forall i :: 1 <= i < |s.klause| ==> Var(s.klause[i]) != Var(s.trail[p])
  {
    hide FormulaOK, SearchOK, CountFree, PendingOK, Reasons, Roots, Klauses, Below;
    TrailVars(s.values, s.vars, s.trail, s.level);
    forall i | 1 <= i < |s.klause| ensures Var(s.klause[i]) != Var(s.trail[p]) {
      assert FromDecision(s, p + 1, s.klause[i]);
      var j :| p + 1 <= j < |s.trail| && s.klause[i] == Neg(s.trail[j]) && Decision(s.vars, s.trail[j]);
      SameVar(s.trail[j], Neg(s.trail[j]));
    }
  }

  lemma CollectResolved(s: State, failed: Lit, p: nat)
    requires Resolved(s, Root(failed), p + 1) && p < |s.trail| && Decision(s.vars, s.trail[p])
    ensures Resolved(Collect(s, s.trail[p]), Root(failed), p)
  {
    var f, s' := Root(failed), Collect(s, s.trail[p]);
    forall l | Clue(s, f, p + 1, l) ensures Clue(s', f, p, l) {
      if l !in f.extra && Before(s.trail, p + 1, Neg(l)) {
        var j :| 0 <= j < p + 1 && j < |s.trail| && s.trail[j] == Neg(l);
        SameVar(l, Neg(l));
      }
    }
    forall m: Model | SatAll(m, s'.klauses, s'.resolved) ensures exists l :: Clue(s', f, p, l) && Holds(m, l) {
      assert SatAll(m, s.klauses, s.resolved);
      var l :| Clue(s, f, p + 1, l) && Holds(m, l);
      assert Clue(s', f, p, l);
    }
  }

  /** Unmarked literals and literals with a reason need not be collected. */
  lemma SkipCollected(s: State, failed: Lit, p: nat, p': nat)
    requires Collected(s, failed, p) && p' <= p <= |s.trail|
    requires forall i :: p' <= i < p ==> !Marks(s, s.trail[i]) || !Decision(s.vars, s.trail[i])
    ensures Collected(s, failed, p')
  {
    hide Decision, Flagged, FlagsAssumed;
    forall k | 1 <= k < |s.klause| ensures FromDecision(s, p', s.klause[k]) {
      assert FromDecision(s, p, s.klause[k]);
    }
  }

  // ------------------------------------------------------------------ the literals of a reason

  function Works(s: State, work: seq<nat>, l: Lit): seq<nat> {
    if Lv(s.vars, l) == 0 then work + [Var(l)] else work
  }

  lemma MarkStep(s: State, failed: Lit, p: nat, open: nat, work: seq<nat>, l: Lit)
    requires FailingAt(s, failed, p, open, work) && Analyzable(s, 1, p, l) && !Marks(s, l)
    ensures FailingAt(Mark(s, l), failed, p, open + if Lv(s.vars, l) == 0 then 0 else 1, Works(s, work, l))
    ensures Collected(s, failed, p) ==> Collected(Mark(s, l), failed, p)
  {
    MarkStepWork(s, work, p, l);
    hide FormulaOK, SearchOK, CountFree, PendingOK, Assigned, Open, Works, Working, Collected, MarkedOK;
    MarkBase(s, l, s.klause);
    MarkOpen(s, l, 1, p);
    MarkMarked(s, 1, p, l, 0);
    MarkedSame(Analyzed(s, l, 0), Mark(s, l));
    if Collected(s, failed, p) {
      MarkStepCollected(s, failed, p, l);
    }
  }

  lemma MarkedSame(s: State, s': State)
    requires MarkedOK(s) && s'.marks == s.marks && s'.analyzed == s.analyzed && s'.values == s.values
    ensures MarkedOK(s')
  {
  }

  lemma MarkStepCollected(s: State, failed: Lit, p: nat, l: Lit)
    requires Base(s) && Collected(s, failed, p) && Analyzable(s, 1, p, l)
    ensures Collected(Mark(s, l), failed, p)
  {
    hide Base, Covered, Analyzable, Decision;
    MarkStepCovered(s, failed, p, l);
    assert forall x: nat :: Flagged(Mark(s, l), x) <==> Flagged(s, x);
    forall k | 1 <= k < |s.klause| ensures FromDecision(Mark(s, l), p, s.klause[k]) {
      assert FromDecision(s, p, s.klause[k]);
    }
  }

  lemma MarkStepWork(s: State, work: seq<nat>, p: nat, l: Lit)
    requires Base(s) && Working(s, work) && Analyzable(s, 1, p, l) && !Marks(s, l)
    ensures Working(Mark(s, l), Works(s, work, l))
  {
    hide FormulaOK, SearchOK, CountFree, PendingOK, TrailOK, Reasons, Roots, Klauses;
    var s', work' := Mark(s, l), Works(s, work, l);
    SameVar(l, 2 * Var(l));
    assert s.values[Neg(l)] == -s.values[l];
    assert Lv(s.vars, l) == 0 ==> work'[|work|] == Var(l);
  }

  lemma MarkStepCovered(s: State, failed: Lit, p: nat, l: Lit)
    requires Base(s) && Covered(s, p) && Analyzable(s, 1, p, l)
    ensures Covered(Mark(s, l), p)
  {
    hide FormulaOK, SearchOK, CountFree, PendingOK, Reasons, Roots, Klauses;
    TrailVars(s.values, s.vars, s.trail, s.level);
    forall i | p <= i < |s.trail| && Marks(Mark(s, l), s.trail[i]) && Decision(s.vars, s.trail[i])
      ensures Neg(s.trail[i]) in s.klause
    {
      if !Marks(s, s.trail[i]) {
        assert Var(s.trail[i]) == Var(l);
        SameVar(l, Neg(l));
      }
    }
  }

  /** The reason of a literal at level one or above can be analyzed. */
  lemma FailingReasonOK(s: State, p: nat)
    requires Base(s) && p < |s.trail| && Lv(s.vars, s.trail[p]) > 0 && Why(s.vars, s.trail[p]) != INVALID
    requires Marks(s, s.trail[p])
    ensures 0 <= Why(s.vars, s.trail[p]) < |s.klauses|
    ensures forall o :: o in s.klauses[Why(s.vars, s.trail[p])].lits ==> Analyzable(s, 1, p, o)
  {
    hide FormulaOK, SearchOK, CountFree, PendingOK, Below, Roots;
    assert ReasonAt(s.values, s.vars, s.trail, s.klauses, p);
  }

  lemma MarkAnalyzable(s: State, l: Lit, p: nat, x: Lit)
    requires Analyzable(s, 1, p, x)
    ensures Analyzable(Mark(s, l), 1, p, x) && (Marks(s, x) ==> Marks(Mark(s, l), x))
    ensures Var(l) < |s.marks| ==> Marks(Mark(s, l), l)
  {
  }

  lemma FailingPush(s: State, failed: Lit, p: nat, open: nat, work: seq<nat>, reason: int)
    requires FailingAt(s, failed, p, open, work) && 0 <= reason < |s.klauses|
    ensures FailingAt(s.(resolved := s.resolved + [reason]), failed, p, open, work)
    ensures Collected(s, failed, p) ==> Collected(s.(resolved := s.resolved + [reason]), failed, p)
  {
    hide FormulaOK, SearchOK, CountFree, PendingOK, Assigned, Below;
    var s' := s.(resolved := s.resolved + [reason]);
    ResolveOpen(s, s.resolved + [reason], 1, p);
    assert forall x: nat :: Flagged(s', x) <==> Flagged(s, x);
    forall k | 1 <= k < |s.klause| && FromDecision(s, p, s.klause[k]) ensures FromDecision(s', p, s.klause[k]) {
    }
  }

  lemma FailingBounds(s: State, failed: Lit, p: nat, open: nat, work: seq<nat>, l: Lit)
    requires FailingAt(s, failed, p, open, work) && Analyzable(s, 1, p, l)
    ensures Var(l) < |s.marks|
  {
  }

  // ------------------------------------------------------------------ the failing clause

  /** The reasons of all root-level variables met have been resolved too. */
  ghost predicate Worked(s: State, work: seq<nat>, n: nat) {
    forall j :: 0 <= j < n && j < |work| && work[j] < |s.vars| ==> s.vars[work[j]].reason in s.resolved
  }

  lemma WorkStep(s: State, failed: Lit, p: nat, open: nat, work: seq<nat>, n: nat)
    requires FailingAt(s, failed, p, open, work) && n < |work| && Worked(s, work, n)
    ensures work[n] < |s.vars| && 0 <= s.vars[work[n]].reason < |s.klauses|
    ensures var s' := s.(resolved := s.resolved + [s.vars[work[n]].reason]);
            && Worked(s', work, n + 1)
            && (Resolved(s, Root(failed), p) ==> Resolved(s', Root(failed), p))
  {
    hide FormulaOK, SearchOK, CountFree, PendingOK, Below, TrailOK, Reasons, Klauses;
    var v := work[n];
    assert v in work;
    var l := if s.values[2 * v] > 0 then 2 * v else Neg(2 * v);
    assert s.values[Neg(2 * v)] == -s.values[2 * v];
    SameVar(2 * v, Neg(2 * v));
    assert Var(l) == v && s.values[l] > 0;
    WorkResolved(s, failed, p, s.vars[v].reason);
  }

  lemma WorkResolved(s: State, failed: Lit, p: nat, r: int)
    ensures Resolved(s, Root(failed), p) ==> Resolved(s.(resolved := s.resolved + [r]), Root(failed), p)
  {
    var s' := s.(resolved := s.resolved + [r]);
    if Resolved(s, Root(failed), p) {
      forall m: Model | SatAll(m, s'.klauses, s'.resolved)
        ensures exists l :: Clue(s', Root(failed), p, l) && Holds(m, l)
      {
        forall i | 0 <= i < |s.resolved| ensures s'.resolved[i] == s.resolved[i] {
        }
        assert SatAll(m, s.klauses, s.resolved);
        var l :| Clue(s, Root(failed), p, l) && Holds(m, l);
        assert Clue(s', Root(failed), p, l);
      }
    }
  }

  lemma ClueBuffered(s: State, failed: Lit, p: nat, work: seq<nat>, m: Model, l: Lit)
    requires FailingAt(s, failed, p, 0, work) && Collected(s, failed, p) && Worked(s, work, |work|)
    requires SatAll(m, s.klauses, s.resolved) && Clue(s, Root(failed), p, l) && Holds(m, l)
    ensures l in s.klause
  {
    hide FormulaOK, SearchOK, CountFree, PendingOK, Below, Reasons, Klauses, FlagsAssumed, Flagged;
    if l in Root(failed).extra {
      assert l == s.klause[0];
    } else {
      SameVar(l, Neg(l));
      assert s.values[Neg(l)] == -s.values[l];
      if Lv(s.vars, l) == 0 {
        assert Var(l) in work;
        RootFalse(m, s.values, s.vars, s.klauses, s.resolved, l);
      } else {
        assert Neg(l) in s.trail;
        var i :| 0 <= i < |s.trail| && s.trail[i] == Neg(l);
        if i < p {
          OpenNone(s, 1, p, i);
        }
        ClueDecided(s, p, l, i);
      }
    }
  }

  /** With nothing open, a clue above the root level is a decision. */
  lemma ClueDecided(s: State, p: nat, l: Lit, i: nat)
    requires Base(s) && p <= i < |s.trail| && s.trail[i] == Neg(l) && Lv(s.vars, l) > 0 && Marks(s, l)
    requires Decision(s.vars, l) || Before(s.trail, p, Neg(l))
    requires Covered(s, p)
    ensures l in s.klause
  {
    hide FormulaOK, SearchOK, CountFree, PendingOK, Below, Reasons, Klauses;
    SameVar(l, Neg(l));
    assert !Before(s.trail, p, Neg(l));
    assert Neg(s.trail[i]) in s.klause;
  }

  lemma FailingEntailed(s: State, failed: Lit, p: nat, work: seq<nat>)
    requires FailingAt(s, failed, p, 0, work) && Collected(s, failed, p) && Worked(s, work, |work|)
    requires Resolved(s, Root(failed), p)
    ensures Entail(s.klauses, s.resolved, s.klause)
  {
    hide FailingAt, Collected, Worked, Clue;
    forall m: Model | SatAll(m, s.klauses, s.resolved) ensures Sat(m, s.klause) {
      var l :| Clue(s, Root(failed), p, l) && Holds(m, l);
      ClueBuffered(s, failed, p, work, m, l);
    }
  }

  lemma FailingProper(s: State, failed: Lit, p: nat)
    requires Base(s) && Collected(s, failed, p)
    ensures Proper(|s.values|, s.klause)
  {
    hide FormulaOK, SearchOK, CountFree, PendingOK, Below, Reasons, Roots, Klauses, FlagsAssumed, Flagged, Covered;
    SameVar(failed, Neg(failed));
    forall k | 1 <= k < |s.klause| ensures s.klause[k] < |s.values| && Var(s.klause[k]) != Var(failed) {
      assert FromDecision(s, p, s.klause[k]);
      var i :| p <= i < |s.trail| && s.klause[k] == Neg(s.trail[i]) && Decision(s.vars, s.trail[i]);
      SameVar(s.trail[i], Neg(s.trail[i]));
      assert s.values[Neg(s.trail[i])] == -s.values[s.trail[i]];
    }
  }

  lemma StartBounds(s: State, failed: Lit)
    requires CanStart(s, failed)
    ensures failed < |s.failed| && Var(failed) < |s.marks| && s.klause == [] && s.resolved == [] && Base(s)
  {
  }

  lemma FailingParts(s: State, failed: Lit, p: nat, open: nat, work: seq<nat>)
    requires FailingAt(s, failed, p, open, work)
    ensures Base(s) && p <= |s.trail| && MarkedOK(s) && open == Open(s, 1, p) && Refs(s.resolved, |s.klauses|)
  {
  }

  lemma WalkedAt(s: State, failed: Lit, p0: nat, p: nat, open: nat, work: seq<nat>)
    requires FailingAt(s, failed, p0, open + 1, work) && p < p0 && open == Open(s, 1, p)
    ensures FailingAt(s, failed, p, open, work)
  {
  }

  lemma CollectBounds(s: State, failed: Lit, p: nat, open: nat, work: seq<nat>)
    requires FailingAt(s, failed, p, open, work) && p < |s.trail|
    ensures s.trail[p] < |s.failed|
  {
  }

  lemma WorkedStart(s: State, work: seq<nat>)
    ensures Worked(s, work, 0)
  {
  }

  lemma CollectedParts(s: State, failed: Lit, p: nat)
    requires Collected(s, failed, p)
    ensures s.klause != [] && s.klause[0] == Neg(failed) && FlagsAssumed(s) && FlagsExact(s, s.klause)
  {
  }

  // ------------------------------------------------------------------ where the flagged literals come from

  /** The literal is in a resolved clause. */
  ghost predicate InResolved(s: State, l: Lit) {
    exists i :: 0 <= i < |s.resolved| && 0 <= s.resolved[i] < |s.klauses| && l in s.klauses[s.resolved[i]].lits
  }

  function FalseLit(values: seq<int>, v: nat): Lit {
    if 2 * v < |values| && values[2 * v] < 0 then 2 * v else 2 * v + 1
  }

  /** Marked variables, but for that of the failed assumption, and buffered literals are in resolved clauses. */
  ghost predicate Sourced(s: State, failed: Lit) {
    && (forall v: nat :: v < |s.marks| && s.marks[v] && v != Var(failed) ==> InResolved(s, FalseLit(s.values, v)))
    && (forall l :: l in s.klause && l != Neg(failed) ==> InResolved(s, l))
    && (s.resolved != [] ==> InResolved(s, Neg(failed)))
  }

  lemma SourcedStart(s: State, failed: Lit)
    requires CanStart(s, failed)
    ensures Sourced(Start(s, failed), failed)
  {
  }

  lemma SourcedPush(s: State, failed: Lit, reason: nat)
    requires Sourced(s, failed) && reason < |s.klauses|
    requires s.resolved != [] || Neg(failed) in s.klauses[reason].lits
    ensures var s' := s.(resolved := s.resolved + [reason]);
            Sourced(s', failed) && forall l :: l in s.klauses[reason].lits ==> InResolved(s', l)
  {
    var s' := s.(resolved := s.resolved + [reason]);
    forall l | InResolved(s, l) ensures InResolved(s', l) {
      var i :| 0 <= i < |s.resolved| && 0 <= s.resolved[i] < |s.klauses| && l in s.klauses[s.resolved[i]].lits;
      assert s'.resolved[i] == s.resolved[i];
    }
    assert s'.resolved[|s.resolved|] == reason;
  }

  /** A false literal of a resolved clause is marked. */
  lemma SourcedMark(s: State, failed: Lit, l: Lit)
    requires Base(s) && Sourced(s, failed) && InResolved(s, l) && l < |s.values| && s.values[l] < 0
    ensures Sourced(Mark(s, l), failed)
  {
    hide FormulaOK, SearchOK, CountFree, PendingOK, TrailOK, Reasons, Roots, Klauses, Below;
    var s' := Mark(s, l);
    assert s.values[Neg(l)] == -s.values[l];
    SameVar(l, 2 * Var(l));
    assert FalseLit(s.values, Var(l)) == l;
    forall x | InResolved(s, x) ensures InResolved(s', x) {
    }
  }

  /** A marked decision is collected. */
  lemma SourcedCollect(s: State, failed: Lit, p: nat)
    requires Base(s) && Sourced(s, failed) && p < |s.trail| && Marks(s, s.trail[p])
    requires Var(s.trail[p]) != Var(failed)
    ensures Sourced(Collect(s, s.trail[p]), failed)
  {
    hide FormulaOK, SearchOK, CountFree, PendingOK, Reasons, Roots, Klauses, Below;
    var a := s.trail[p];
    var s' := Collect(s, a);
    assert s.values[Neg(a)] == -s.values[a];
    SameVar(a, 2 * Var(a));
    SameVar(a, Neg(a));
    assert FalseLit(s.values, Var(a)) == Neg(a);
    forall x | InResolved(s, x) ensures InResolved(s', x) {
    }
  }

  lemma SourcedWalk(s: State, failed: Lit, p0: nat, p: nat, open: nat, work: seq<nat>)
    requires FailingAt(s, failed, p, open, work) && Collected(s, failed, p0) && Sourced(s, failed)
    requires p < |s.trail| && Marks(s, s.trail[p])
    ensures if Why(s.vars, s.trail[p]) == INVALID then Var(s.trail[p]) != Var(failed) && s.resolved != []
            else s.resolved != [] || (0 <= Why(s.vars, s.trail[p]) < |s.klauses| &&
                                      Neg(failed) in s.klauses[Why(s.vars, s.trail[p])].lits)
  {
    hide FormulaOK, SearchOK, CountFree, PendingOK, Roots, Klauses, Below, Assigned, Sourced, FlagsExact, FlagsAssumed;
    if s.resolved == [] {
      SourcedFirst(s, failed, p);
    }
  }

  lemma FailingFalse(s: State, failed: Lit, p: nat, open: nat, work: seq<nat>, l: Lit)
    requires FailingAt(s, failed, p, open, work) && Analyzable(s, 1, p, l) && !Marks(s, l)
    ensures Base(s) && l < |s.values| && s.values[l] < 0
  {
  }

  lemma InResolvedSame(s: State, s': State)
    requires s'.resolved == s.resolved && s'.klauses == s.klauses
    ensures forall l :: InResolved(s, l) ==> InResolved(s', l)
  {
  }

  lemma SourcedParts(s: State, failed: Lit)
    requires Sourced(s, failed) && s.resolved != []
    ensures forall l :: l in s.klause ==> InResolved(s, l)
  {
  }

  /** The first literal met is the negation of the failed assumption, which is in its reason. */
  lemma SourcedFirst(s: State, failed: Lit, p: nat)
    requires Base(s) && Sourced(s, failed) && p < |s.trail| && Marks(s, s.trail[p]) && s.resolved == []
    requires failed < |s.values| && s.values[failed] < 0 && Lv(s.vars, failed) > 0 && Why(s.vars, failed) != INVALID
    ensures s.trail[p] == Neg(failed) && 0 <= Why(s.vars, s.trail[p]) < |s.klauses|
    ensures Neg(failed) in s.klauses[Why(s.vars, s.trail[p])].lits && Why(s.vars, s.trail[p]) != INVALID
  {
    hide FormulaOK, SearchOK, CountFree, PendingOK, Roots, Klauses, Below;
    assert s.values[Neg(failed)] == -s.values[failed];
    SameVar(failed, s.trail[p]);
    SameVar(failed, Neg(failed));
    assert ReasonAt(s.values, s.vars, s.trail, s.klauses, p);
  }
}
