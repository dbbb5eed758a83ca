/**
  Conflict analysis of the embedded solver (kitten.c, analyze): the first unique implication
  point, the learned clause, and the state after backjumping and asserting it.
 */
module KittenAnalysis {
  import opened Literals
  import opened KittenModel
  import opened KittenPropagation
  import opened KittenSearch
  import opened KittenBacktrack

  // ------------------------------------------------------------------ decisions

  /** Assumption j is true no later than at level j + 1, for all levels opened so far. */
  ghost predicate Assumed(values: seq<int>, vars: seq<Kar>, assumptions: seq<Lit>, upto: nat) {
    forall j :: 0 <= j < upto && j < |assumptions| ==>
      assumptions[j] < |values| && values[assumptions[j]] > 0 && Lv(vars, assumptions[j]) <= j + 1
  }

  /** A decision at the level of an assumption is that assumption. */
  ghost predicate Obedient(values: seq<int>, vars: seq<Kar>, assumptions: seq<Lit>) {
    forall l: nat :: l < |values| && values[l] > 0 && Decision(vars, l) && Lv(vars, l) <= |assumptions| ==>
      assumptions[Lv(vars, l) - 1] == l
  }

  /** Every level above those of the assumptions has a literal on the trail. */
  ghost predicate Inhabited(vars: seq<Kar>, trail: seq<Lit>, from: nat, upto: nat) {
    forall j :: from < j <= upto ==> HasLevel(vars, trail, j)
  }

  /** A decision is the first literal of its level. */
  ghost predicate First(vars: seq<Kar>, trail: seq<Lit>) {
    forall i, j :: 0 <= i < j < |trail| && Decision(vars, trail[j]) ==> Lv(vars, trail[i]) < Lv(vars, trail[j])
  }

  ghost predicate Decision(vars: seq<Kar>, l: Lit) {
    Lv(vars, l) > 0 && Why(vars, l) == INVALID
  }

  ghost predicate HasLevel(vars: seq<Kar>, trail: seq<Lit>, j: nat) {
    exists i :: 0 <= i < |trail| && Lv(vars, trail[i]) == j
  }

  ghost predicate Deciding(s: State, upto: nat) {
    && Assumed(s.values, s.vars, s.assumptions, upto) && Obedient(s.values, s.vars, s.assumptions)
    && Inhabited(s.vars, s.trail, |s.assumptions|, upto) && First(s.vars, s.trail)
  }

  /** A decision after propagation was a decision before. */
  lemma OldDecision(s: State, s': State, l: Lit)
    requires Base(s) && Extends(s, s') && l < |s.values|
    requires s'.values[l] > 0 && Decision(s'.vars, l)
    ensures s.values[l] > 0 && Lv(s.vars, l) == Lv(s'.vars, l) && Decision(s.vars, l) && l in s.trail
  {
    hide SameFormula, FormulaOK, SearchOK, CountFree, Reasons, Roots, Klauses;
    assert s.values[l] != 0;
  }

  lemma TrailKept(s: State, s': State, i: nat)
    requires Base(s) && Extends(s, s') && i < |s.trail|
    ensures i < |s'.trail| && s'.trail[i] == s.trail[i] && Lv(s'.vars, s.trail[i]) == Lv(s.vars, s.trail[i])
    ensures Decision(s'.vars, s.trail[i]) ==> Decision(s.vars, s.trail[i])
  {
    hide SameFormula, FormulaOK, SearchOK, CountFree, Reasons, Roots, Klauses;
    assert s.values[s.trail[i]] > 0;
  }

  lemma ExtendsFirst(s: State, s': State, i: nat, j: nat)
    requires Base(s) && Extends(s, s') && Base(s') && i < j < |s'.trail| && Decision(s'.vars, s'.trail[j])
    requires forall i, j :: 0 <= i < j < |s.trail| && Decision(s.vars, s.trail[j]) ==>
               Lv(s.vars, s.trail[i]) < Lv(s.vars, s.trail[j])
    ensures Lv(s'.vars, s'.trail[i]) < Lv(s'.vars, s'.trail[j])
  {
    var l := s'.trail[j];
    assert s'.values[l] > 0;
    OldDecision(s, s', l);
    var k :| 0 <= k < |s.trail| && s.trail[k] == l;
    TrailKept(s, s', k);
    assert k == j;
    TrailKept(s, s', i);
  }

  lemma ExtendsInhabited(s: State, s': State, from: nat, upto: nat)
    requires Base(s) && Extends(s, s') && Inhabited(s.vars, s.trail, from, upto)
    ensures Inhabited(s'.vars, s'.trail, from, upto)
  {
    forall j | from < j <= upto ensures HasLevel(s'.vars, s'.trail, j) {
      assert HasLevel(s.vars, s.trail, j);
      var i :| 0 <= i < |s.trail| && Lv(s.vars, s.trail[i]) == j;
      TrailKept(s, s', i);
      assert Lv(s'.vars, s'.trail[i]) == j;
    }
  }

  lemma ExtendsObedient(s: State, s': State)
    requires Base(s) && Extends(s, s') && Obedient(s.values, s.vars, s.assumptions)
    ensures Obedient(s'.values, s'.vars, s.assumptions) && |s'.values| == |s.values|
  {
    hide SameFormula, FormulaOK, SearchOK, CountFree, Assigned;
    forall l: nat | l < |s'.values| && s'.values[l] > 0 && Decision(s'.vars, l) && Lv(s'.vars, l) <= |s.assumptions|
      ensures s.assumptions[Lv(s'.vars, l) - 1] == l
    {
      OldDecision(s, s', l);
    }
  }

  lemma ExtendsAssumed(s: State, s': State, upto: nat)
    requires Extends(s, s') && Assumed(s.values, s.vars, s.assumptions, upto)
    ensures Assumed(s'.values, s'.vars, s.assumptions, upto)
  {
  }

  lemma ExtendsDeciding(s: State, s': State, upto: nat)
    requires Base(s) && Extends(s, s') && Deciding(s, upto) && Base(s')
    ensures Deciding(s', upto)
  {
    hide Base, Inhabited, Obedient, Assumed, Grows, Forced, SameFormula;
    ExtendsAssumed(s, s', upto);
    ExtendsObedient(s, s');
    ExtendsInhabited(s, s', |s.assumptions|, upto);
    forall i, j | 0 <= i < j < |s'.trail| && Decision(s'.vars, s'.trail[j])
      ensures Lv(s'.vars, s'.trail[i]) < Lv(s'.vars, s'.trail[j])
    {
      ExtendsFirst(s, s', i, j);
    }
  }

  // ------------------------------------------------------------------ marked literals

  ghost predicate Marks(s: State, l: Lit) {
    Var(l) < |s.marks| && s.marks[Var(l)]
  }

  /** A false literal below the conflict level whose variable is marked. */
  ghost predicate Low(s: State, l: Lit) {
    l < |s.values| && s.values[l] < 0 && Marks(s, l) && Lv(s.vars, l) < s.level
  }

  ghost predicate InTail(klause: seq<Lit>, l: Lit) {
    exists i :: 1 <= i < |klause| && klause[i] == l
  }

  /**
    Which false literals are final in an analysis, rather than resolved with their reason:
    those below level lo, some extra ones and, if so told, the negated decisions.
   */
  datatype Final = Final(lo: nat, decisions: bool, extra: seq<Lit>)

  /** The literals below the conflict level are final in conflict analysis. */
  function Uip(s: State): Final {
    Final(s.level, false, [])
  }

  /** Trail literals before position p that are marked and at level lo or above. */
  ghost function Open(s: State, lo: nat, p: nat): nat {
    if p == 0 || p > |s.trail| then 0
    else Open(s, lo, p - 1) + if Marks(s, s.trail[p - 1]) && Lv(s.vars, s.trail[p - 1]) >= lo then 1 else 0
  }

  ghost predicate MarkedOK(s: State) {
    && (forall v: nat :: v < |s.marks| && s.marks[v] ==> v in s.analyzed)
    && (forall v :: v in s.analyzed ==> v < |s.marks| && s.marks[v] && 2 * v < |s.values| && s.values[2 * v] != 0)
  }

  /** The buffer: a place holder, then the marked literals below the conflict level. */
  ghost predicate Buffered(s: State, jump: nat) {
    && |s.klause| >= 1
    && (forall i :: 1 <= i < |s.klause| ==> Low(s, s.klause[i]) && Lv(s.vars, s.klause[i]) <= jump)
    && (forall i, j :: 1 <= i < j < |s.klause| ==> Var(s.klause[i]) != Var(s.klause[j]))
    && (forall l: nat :: Low(s, l) ==> InTail(s.klause, l))
    && jump < s.level
    && (if |s.klause| == 1 then jump == 0 else Lv(s.vars, s.klause[1]) == jump)
  }

  ghost predicate Analyzing(s: State, p: nat, open: nat, jump: nat) {
    && Base(s) && s.level > 0 && p <= |s.trail|
    && MarkedOK(s) && Buffered(s, jump) && open == Open(s, s.level, p)
    && Refs(s.resolved, |s.klauses|)
  }

  /** A literal of a clause under analysis: marked, or false and to be marked. */
  ghost predicate Analyzable(s: State, lo: nat, p: nat, l: Lit) {
    && l < |s.values|
    && (Marks(s, l) || (s.values[l] < 0 && (Lv(s.vars, l) < lo || Before(s.trail, p, Neg(l)))))
  }

  /** The state after marking the variable of l. */
  function Mark(s: State, l: Lit): State {
    s.(marks := if Var(l) < |s.marks| then s.marks[Var(l) := true] else s.marks, analyzed := s.analyzed + [Var(l)])
  }

  /** The buffer with l added; a literal of a new highest level goes to position 1. */
  function Buffer(s: State, l: Lit, jump: nat): seq<Lit> {
    if Lv(s.vars, l) >= s.level then s.klause
    else if Lv(s.vars, l) > jump && |s.klause| > 1 then s.klause[1 := l] + [s.klause[1]]
    else s.klause + [l]
  }

  lemma MarkOpenSame(s: State, l: Lit, lo: nat, p: nat)
    requires p <= |s.trail| && Var(l) < |s.marks|
    requires Lv(s.vars, l) < lo || forall i :: 0 <= i < p ==> Var(s.trail[i]) != Var(l)
    ensures Open(Mark(s, l), lo, p) == Open(s, lo, p)
  {
    if p > 0 {
      MarkOpenSame(s, l, lo, p - 1);
    }
  }

  lemma {:induction false} MarkOpenMore(s: State, l: Lit, lo: nat, p: nat, i: nat)
    requires p <= |s.trail| && Var(l) < |s.marks| && !s.marks[Var(l)] && Lv(s.vars, l) >= lo
    requires i < p && Var(s.trail[i]) == Var(l)
    requires forall i, j :: 0 <= i < j < |s.trail| ==> Var(s.trail[i]) != Var(s.trail[j])
    ensures Open(Mark(s, l), lo, p) == Open(s, lo, p) + 1
  {
    if i == p - 1 {
      MarkOpenSame(s, l, lo, p - 1);
    } else {
      MarkOpenMore(s, l, lo, p - 1, i);
    }
  }

  lemma MarkOpen(s: State, l: Lit, lo: nat, p: nat)
    requires Base(s) && p <= |s.trail| && Analyzable(s, lo, p, l) && !Marks(s, l)
    ensures Open(Mark(s, l), lo, p) == Open(s, lo, p) + if Lv(s.vars, l) < lo then 0 else 1
  {
    hide FormulaOK, SearchOK, CountFree, Reasons, Roots, Klauses, PendingOK, Below;
    if Lv(s.vars, l) < lo {
      MarkOpenSame(s, l, lo, p);
    } else {
      TrailVars(s.values, s.vars, s.trail, s.level);
      var i :| 0 <= i < p && i < |s.trail| && s.trail[i] == Neg(l);
      SameVar(l, Neg(l));
      assert Lv(s.vars, s.trail[i]) == Lv(s.vars, l);
      MarkOpenMore(s, l, lo, p, i);
    }
  }

  /** The state after marking and buffering l. */
  function Analyzed(s: State, l: Lit, jump: nat): State {
    Mark(s, l).(klause := Buffer(s, l, jump))
  }

  function Jump(s: State, l: Lit, jump: nat): nat {
    if jump < Lv(s.vars, l) < s.level then Lv(s.vars, l) else jump
  }

  /** Adding a literal of another variable keeps the variables in the buffer distinct. */
  lemma BufferDistinct(s: State, l: Lit, jump: nat)
    requires |s.klause| >= 1
    requires forall i :: 1 <= i < |s.klause| ==> Var(s.klause[i]) != Var(l)
    requires forall i, j :: 1 <= i < j < |s.klause| ==> Var(s.klause[i]) != Var(s.klause[j])
    ensures var d := Buffer(s, l, jump);
            && |d| >= 1
            && (forall i :: 1 <= i < |d| ==> d[i] == l || InTail(s.klause, d[i]))
            && (forall i, j :: 1 <= i < j < |d| ==> Var(d[i]) != Var(d[j]))
  {
    var d := Buffer(s, l, jump);
    forall i | 1 <= i < |s.klause| ensures InTail(s.klause, s.klause[i]) {
    }
  }

  lemma BufferHolds(s: State, l: Lit, jump: nat, x: Lit)
    requires |s.klause| >= 1 && (InTail(s.klause, x) || (x == l && Lv(s.vars, l) < s.level))
    ensures InTail(Buffer(s, l, jump), x)
  {
    var d := Buffer(s, l, jump);
    if InTail(s.klause, x) {
      var i :| 1 <= i < |s.klause| && s.klause[i] == x;
      assert d[i] == x || d[|d| - 1] == x;
    } else {
      assert d[1] == x || d[|d| - 1] == x;
    }
  }

  lemma MarkBuffered(s: State, l: Lit, jump: nat)
    requires Buffered(s, jump) && Shape(s.values, s.vars) && |s.marks| == |s.vars|
    requires l < |s.values| && s.values[l] < 0 && !Marks(s, l)
    ensures Buffered(Analyzed(s, l, jump), Jump(s, l, jump))
  {
    var s', d := Analyzed(s, l, jump), Buffer(s, l, jump);
    forall i | 1 <= i < |s.klause| ensures Var(s.klause[i]) != Var(l) {
      assert Low(s, s.klause[i]);
    }
    BufferDistinct(s, l, jump);
    forall i | 1 <= i < |d| ensures Low(s', d[i]) && Lv(s.vars, d[i]) <= Jump(s, l, jump) {
      MarkLow(s, l, jump, d[i]);
      if d[i] != l {
        var k :| 1 <= k < |s.klause| && s.klause[k] == d[i];
      } else {
        MarkNew(s, l, jump, i);
      }
    }
    forall x: nat | Low(s', x) ensures InTail(d, x) {
      MarkLow(s, l, jump, x);
      BufferHolds(s, l, jump, x);
    }
  }

  lemma MarkNew(s: State, l: Lit, jump: nat, i: nat)
    requires 1 <= i < |Buffer(s, l, jump)| && Buffer(s, l, jump)[i] == l
    requires forall i :: 1 <= i < |s.klause| ==> Var(s.klause[i]) != Var(l)
    requires |s.klause| >= 1
    ensures Lv(s.vars, l) < s.level
  {
  }

  lemma MarkLow(s: State, l: Lit, jump: nat, x: Lit)
    requires Shape(s.values, s.vars) && |s.marks| == |s.vars|
    requires l < |s.values| && s.values[l] < 0 && !Marks(s, l)
    ensures Low(Analyzed(s, l, jump), x) <==> Low(s, x) || (x == l && Lv(s.vars, l) < s.level)
  {
    SameVar(l, x);
    assert s.values[Neg(l)] == -s.values[l];
  }

  lemma MarkBase(s: State, l: Lit, klause: seq<Lit>)
    requires Base(s)
    ensures Base(Mark(s, l).(klause := klause))
  {
    hide FormulaOK, SearchOK, CountFree, Assigned, PendingOK, Below;
  }

  lemma MarkKeeps(s: State, p: nat, open: nat, jump: nat, l: Lit)
    requires Analyzing(s, p, open, jump) && Analyzable(s, s.level, p, l) && !Marks(s, l)
    ensures Analyzing(Analyzed(s, l, jump), p, open + if Lv(s.vars, l) < s.level then 0 else 1, Jump(s, l, jump))
  {
    MarkBase(s, l, Buffer(s, l, jump));
    MarkOpen(s, l, s.level, p);
    BufferOpen(Mark(s, l), Buffer(s, l, jump), s.level, p);
    MarkMarked(s, s.level, p, l, jump);
    hide FormulaOK, SearchOK, CountFree, PendingOK, Below, TrailOK, Reasons, Roots, Klauses,
         Buffered, Open, MarkedOK, Shape;
    MarkBuffered(s, l, jump);
  }

  lemma BufferOpen(s: State, klause: seq<Lit>, lo: nat, p: nat)
    ensures Open(s.(klause := klause), lo, p) == Open(s, lo, p)
  {
  }

  lemma MarkMarked(s: State, lo: nat, p: nat, l: Lit, jump: nat)
    requires Base(s) && MarkedOK(s) && Analyzable(s, lo, p, l) && !Marks(s, l)
    ensures MarkedOK(Analyzed(s, l, jump))
  {
    hide FormulaOK, SearchOK, CountFree, PendingOK, Below, TrailOK, Reasons, Roots, Klauses, Buffer;
    var s' := Analyzed(s, l, jump);
    SameVar(l, 2 * Var(l));
    assert s.values[Neg(l)] == -s.values[l];
    forall v: nat | v < |s'.marks| && s'.marks[v] ensures v in s'.analyzed {
      assert v == Var(l) ==> s'.analyzed[|s.analyzed|] == v;
    }
  }

  lemma StillAnalyzable(s: State, l: Lit, jump: nat, lo: nat, p: nat, x: Lit)
    requires Analyzable(s, lo, p, x)
    ensures Analyzable(Analyzed(s, l, jump), lo, p, x)
    ensures Marks(s, x) ==> Marks(Analyzed(s, l, jump), x)
    ensures Var(l) < |s.marks| ==> Marks(Analyzed(s, l, jump), l)
  {
  }

  // ------------------------------------------------------------------ entailment

  /** A literal of the clause derived so far: final, or on the trail before position p. */
  ghost predicate Clue(s: State, f: Final, p: nat, l: Lit) {
    || l in f.extra
    || (&& l < |s.values| && s.values[l] < 0 && Marks(s, l)
        && (Lv(s.vars, l) < f.lo || (f.decisions && Decision(s.vars, l)) || Before(s.trail, p, Neg(l))))
  }

  /** The resolved clauses imply the clause of the clues. */
  ghost predicate Resolved(s: State, f: Final, p: nat) {
    forall m: Model | SatAll(m, s.klauses, s.resolved) :: exists l :: Clue(s, f, p, l) && Holds(m, l)
  }

  /** What is left unchanged while the literals of one clause are analyzed. */
  ghost predicate SameSearch(s: State, s': State) {
    && s' == s.(marks := s'.marks, analyzed := s'.analyzed, klause := s'.klause, resolved := s'.resolved)
    && |s'.marks| == |s.marks| && (forall v :: 0 <= v < |s.marks| && s.marks[v] ==> s'.marks[v])
  }

  lemma ResolveFirst(s: State, conflict: int)
    requires Base(s) && s.level > 0 && Conflicting(s, conflict) && s.resolved == [conflict]
    requires forall o :: o in s.klauses[conflict].lits ==> Marks(s, o)
    ensures Resolved(s, Uip(s), |s.trail|)
  {
    hide FormulaOK, SearchOK, CountFree, PendingOK, Below, Reasons, Roots, Klauses;
    forall m: Model | SatAll(m, s.klauses, s.resolved)
      ensures exists l :: Clue(s, Uip(s), |s.trail|, l) && Holds(m, l) {
      assert Sat(m, s.klauses[s.resolved[0]].lits);
      var o :| o in s.klauses[conflict].lits && Holds(m, o);
      assert s.values[Neg(o)] == -s.values[o] && Var(Neg(o)) == Var(o);
      if Lv(s.vars, o) == s.level {
        assert Neg(o) in s.trail;
        var i :| 0 <= i < |s.trail| && s.trail[i] == Neg(o);
      }
      assert Clue(s, Uip(s), |s.trail|, o);
    }
  }

  /** Resolving with the reason of the literal at position p moves the clues below p. */
  lemma ResolveNext(s0: State, s: State, f: Final, p: nat, reason: int)
    requires Base(s0) && f.lo > 0 && Resolved(s0, f, p + 1) && p < |s0.trail|
    requires Lv(s0.vars, s0.trail[p]) >= f.lo && reason == Why(s0.vars, s0.trail[p]) != INVALID
    requires SameSearch(s0, s) && s.resolved == s0.resolved + [reason]
    requires forall o :: o in Lits(s0.klauses, reason) ==> Marks(s, o)
    ensures Resolved(s, f, p)
  {
    hide FormulaOK, SearchOK, CountFree, PendingOK, Below, Roots, Klauses;
    var uip := s0.trail[p];
    assert ReasonAt(s0.values, s0.vars, s0.trail, s0.klauses, p);
    forall m: Model | SatAll(m, s.klauses, s.resolved) ensures exists l :: Clue(s, f, p, l) && Holds(m, l) {
      forall i | 0 <= i < |s0.resolved| ensures s.resolved[i] == s0.resolved[i] {
      }
      assert SatAll(m, s0.klauses, s0.resolved);
      var l :| Clue(s0, f, p + 1, l) && Holds(m, l);
      if l in f.extra || Lv(s.vars, l) < f.lo || (f.decisions && Decision(s.vars, l)) || Before(s.trail, p, Neg(l)) {
        assert Clue(s, f, p, l);
      } else {
        assert Neg(l) == uip;
        assert s.resolved[|s0.resolved|] == reason;
        assert Sat(m, s.klauses[reason].lits);
        var o :| o in s.klauses[reason].lits && Holds(m, o);
        SameVar(l, uip);
        assert Clue(s, f, p, o);
      }
    }
  }

  /** Walking back over an unmarked literal changes nothing. */
  lemma WalkStep(s: State, f: Final, p: nat)
    requires 0 < p <= |s.trail| && !Marks(s, s.trail[p - 1])
    ensures Open(s, f.lo, p - 1) == Open(s, f.lo, p)
    ensures Resolved(s, f, p) ==> Resolved(s, f, p - 1)
  {
    forall l | Clue(s, f, p, l) ensures Clue(s, f, p - 1, l) {
      if l !in f.extra && Before(s.trail, p, Neg(l)) {
        var j :| 0 <= j < p && j < |s.trail| && s.trail[j] == Neg(l);
        SameVar(l, Neg(l));
        assert j != p - 1;
        assert Before(s.trail, p - 1, Neg(l));
      }
    }
  }

  lemma {:induction false} OpenExists(s: State, lo: nat, p: nat) returns (i: nat)
    requires p <= |s.trail| && Open(s, lo, p) > 0
    ensures i < p && Marks(s, s.trail[i]) && Lv(s.vars, s.trail[i]) >= lo
  {
    if Marks(s, s.trail[p - 1]) && Lv(s.vars, s.trail[p - 1]) >= lo {
      i := p - 1;
    } else {
      i := OpenExists(s, lo, p - 1);
    }
  }

  lemma {:induction false} OpenNone(s: State, lo: nat, p: nat, i: nat)
    requires p <= |s.trail| && Open(s, lo, p) == 0 && i < p && Marks(s, s.trail[i])
    ensures Lv(s.vars, s.trail[i]) < lo
  {
    if i != p - 1 {
      OpenNone(s, lo, p - 1, i);
    }
  }

  /** The last marked literal before p has level lo or above if some literal is open. */
  lemma WalkLevel(s: State, lo: nat, p: nat)
    requires Base(s) && 0 < p <= |s.trail| && Open(s, lo, p) > 0
    ensures lo <= Lv(s.vars, s.trail[p - 1]) <= s.level && s.trail[p - 1] < |s.values|
  {
    hide FormulaOK, SearchOK, CountFree, PendingOK, Below, Reasons, Roots, Klauses;
    var i := OpenExists(s, lo, p);
    assert Lv(s.vars, s.trail[i]) <= Lv(s.vars, s.trail[p - 1]);
  }

  /** A literal of the conflict level above an open one has a reason, whose literals can be analyzed. */
  lemma WalkReason(s: State, p: nat)
    requires Base(s) && s.level > 0 && First(s.vars, s.trail) && p < |s.trail| && Open(s, s.level, p) > 0
    requires Lv(s.vars, s.trail[p]) == s.level && Marks(s, s.trail[p])
    ensures var reason := Why(s.vars, s.trail[p]);
            0 <= reason < |s.klauses| && forall o :: o in s.klauses[reason].lits ==> Analyzable(s, s.level, p, o)
  {
    hide FormulaOK, SearchOK, CountFree, PendingOK, Below, Roots, Klauses;
    var i := OpenExists(s, s.level, p);
    assert ReasonAt(s.values, s.vars, s.trail, s.klauses, p);
  }

  lemma ConflictAnalyzable(s: State, conflict: int)
    requires Base(s) && s.level > 0 && Conflicting(s, conflict)
    ensures 0 <= conflict < |s.klauses|
    ensures forall o :: o in s.klauses[conflict].lits ==> Analyzable(s, s.level, |s.trail|, o)
  {
    hide FormulaOK, SearchOK, CountFree, PendingOK, Below, Reasons, Roots, Klauses;
    forall o | o in s.klauses[conflict].lits ensures Analyzable(s, s.level, |s.trail|, o) {
      assert s.values[Neg(o)] == -s.values[o] && Var(Neg(o)) == Var(o);
      if Lv(s.vars, o) > 0 {
        assert Neg(o) in s.trail;
        var i :| 0 <= i < |s.trail| && s.trail[i] == Neg(o);
      }
    }
  }

  // ------------------------------------------------------------------ the learned clause

  /** The clause learned for the implication point uip. */
  function Learnt(s: State, uip: Lit): seq<Lit> {
    if |s.klause| >= 1 then s.klause[0 := Neg(uip)] else [Neg(uip)]
  }

  lemma LearntEntailed(s: State, p: nat, jump: nat)
    requires Analyzing(s, p, 0, jump) && p < |s.trail| && Resolved(s, Uip(s), p + 1)
    requires Lv(s.vars, s.trail[p]) == s.level
    ensures Entail(s.klauses, s.resolved, Learnt(s, s.trail[p]))
  {
    hide FormulaOK, SearchOK, CountFree, PendingOK, Below, Reasons, Roots, Klauses, Shape;
    var uip := s.trail[p];
    var c := Learnt(s, uip);
    forall m: Model | SatAll(m, s.klauses, s.resolved) ensures Sat(m, c) {
      var l :| Clue(s, Uip(s), p + 1, l) && Holds(m, l);
      SameVar(l, Neg(l));
      if Lv(s.vars, l) < s.level {
        LowInTail(s, l, jump);
        var i :| 1 <= i < |s.klause| && s.klause[i] == l;
        assert c[i] == l;
      } else {
        var i :| 0 <= i < p + 1 && i < |s.trail| && s.trail[i] == Neg(l);
        if i < p {
          OpenNone(s, s.level, p, i);
        }
        SameVar(l, uip);
        assert c[0] == l;
      }
    }
  }

  lemma LowInTail(s: State, l: Lit, jump: nat)
    requires Buffered(s, jump) && l < |s.values| && s.values[l] < 0 && Marks(s, l) && Lv(s.vars, l) < s.level
    ensures InTail(s.klause, l)
  {
    assert Low(s, l);
  }

  /** The literals of the learned clause but the first are false, at most at the jump level, reached by one of them. */
  ghost predicate Asserting(s: State, c: seq<Lit>, jump: nat) {
    && |c| >= 1 && c[0] < |s.values| && Lv(s.vars, c[0]) == s.level && jump < s.level
    && (forall i :: 1 <= i < |c| ==> c[i] < |s.values| && s.values[c[i]] < 0 && Lv(s.vars, c[i]) <= jump)
    && (if |c| == 1 then jump == 0 else Lv(s.vars, c[1]) == jump)
  }

  lemma LearntProper(s: State, p: nat, jump: nat)
    requires Analyzing(s, p, 0, jump) && p < |s.trail| && Lv(s.vars, s.trail[p]) == s.level
    ensures Proper(|s.values|, Learnt(s, s.trail[p])) && Asserting(s, Learnt(s, s.trail[p]), jump)
  {
    hide FormulaOK, SearchOK, CountFree, PendingOK, Below, Reasons, Roots, Klauses;
    var uip := s.trail[p];
    assert s.values[Neg(uip)] == -s.values[uip];
    SameVar(uip, Neg(uip));
    forall i | 1 <= i < |s.klause| ensures Low(s, s.klause[i]) {
    }
  }

  lemma ResolvePush(s: State, p: nat, open: nat, jump: nat, reason: nat)
    requires Analyzing(s, p, open, jump) && reason < |s.klauses|
    ensures var s' := s.(resolved := s.resolved + [reason]);
            Analyzing(s', p, open, jump) && SameSearch(s, s')
  {
    hide FormulaOK, SearchOK, CountFree, PendingOK, Below, Assigned, InTail, MarkedOK;
    var s' := s.(resolved := s.resolved + [reason]);
    forall l: nat ensures Low(s', l) <==> Low(s, l) {
    }
    ResolveOpen(s, s.resolved + [reason], s.level, p);
    ResolveMarked(s, s.resolved + [reason]);
  }

  lemma ResolveOpen(s: State, refs: seq<int>, lo: nat, p: nat)
    ensures Open(s.(resolved := refs), lo, p) == Open(s, lo, p)
  {
  }

  lemma ResolveMarked(s: State, refs: seq<int>)
    requires MarkedOK(s)
    ensures MarkedOK(s.(resolved := refs))
  {
  }

  lemma PushAnalyzable(s: State, lo: nat, p: nat, refs: seq<int>)
    ensures forall o :: Analyzable(s, lo, p, o) ==> Analyzable(s.(resolved := refs), lo, p, o)
  {
  }

  lemma AnalyzableBounds(s: State, p: nat, open: nat, jump: nat, l: Lit)
    requires Analyzing(s, p, open, jump) && Analyzable(s, s.level, p, l)
    ensures Var(l) < |s.marks| && |s.klause| >= 1
  {
  }

  lemma MarksBound(s: State, l: Lit)
    requires Base(s) && l < |s.values|
    ensures Var(l) < |s.marks|
  {
  }

  // ------------------------------------------------------------------ bumping

  lemma BumpBounds(s0: State, s: State, k: nat)
    requires Base(s) && MarkedOK(s0) && k < |s.analyzed|
    requires s.analyzed == s0.analyzed && s.values == s0.values && |s.marks| == |s0.marks|
    ensures s.analyzed[k] < |s.marks| && s.analyzed[k] < |s.links| && 2 * s.analyzed[k] < |s.values|
    ensures s.values[2 * s.analyzed[k]] != 0 && SearchOK(s.links, s.search, s.values)
  {
  }

  lemma BumpKeeps(s: State, s': State, v: nat)
    requires Base(s) && SearchOK(s'.links, s'.search, s'.values) && |s'.links| == |s.links|
    requires s' == s.(marks := s'.marks, links := s'.links, first := s'.first, last := s'.last, stamp := s'.stamp)
    requires |s'.marks| == |s.marks|
    ensures Base(s')
  {
  }

  lemma BumpEnd(s: State, analyzed: seq<nat>)
    requires Base(s.(analyzed := analyzed))
    ensures Base(s)
  {
  }

  // ------------------------------------------------------------------ learning, jumping, asserting

  lemma LearnKeeps(s: State, refs: seq<int>)
    requires Base(s) && Watched(s.klauses, s.watches) && Proper(|s.values|, s.klause)
    requires Refs(refs, |s.klauses|) && Entail(s.klauses, refs, s.klause)
    requires s.tracked ==> refs == s.resolved
    ensures Base(Learn(s)) && Watched(Learn(s).klauses, Learn(s).watches)
    ensures SameFormula(s.klauses, Learn(s).klauses)
  {
    hide Implied, Derived, UnitsOK, EmptyOK, SearchOK, CountFree, PendingOK, Below, Shape, TrailOK, Reasons, Roots,
         Watched, Entail, Refs;
    var k := Klause(s.klause, true, false, if s.tracked then s.resolved else []);
    LearnFormula(s.klauses, s.units, s.inconsistent, s.tracked, k, refs);
    LearnKeepsAssigned(s.values, s.vars, s.trail, s.level, s.klauses, k);
    ConnectKeepsWatched(s.klauses, s.watches, k);
    assert |Connect(s.watches, s.klause, |s.klauses|)| == |s.watches|;
  }

  /** The last clause has just been learned: all others are propagated below the conflict level. */
  ghost predicate Learned(s: State, c: seq<Lit>, jump: nat) {
    && Base(s) && Watched(s.klauses, s.watches) && s.klause == [] && s.resolved == []
    && |s.klauses| > 0 && s.klauses[|s.klauses| - 1].lits == c && Asserting(s, c, jump)
    && Propagated(s.klauses[..|s.klauses| - 1], s.values, s.vars, s.trail, s.propagated, s.level - 1)
    && Deciding(s, s.level)
  }

  lemma JumpTarget(s: State, c: seq<Lit>, jump: nat)
    requires Learned(s, c, jump)
    ensures jump < s.level && (jump == 0 || exists i :: 0 <= i < |s.trail| && Lv(s.vars, s.trail[i]) == jump)
  {
    hide FormulaOK, SearchOK, CountFree, PendingOK, Below, Reasons, Roots, Watched, Propagated, Deciding;
    if jump != 0 {
      assert s.values[Neg(c[1])] == -s.values[c[1]] && Var(Neg(c[1])) == Var(c[1]);
      assert Neg(c[1]) in s.trail;
    }
  }

  lemma CutAssignable(s: State, s': State, m: nat, c: seq<Lit>, jump: nat)
    requires Learned(s, c, jump) && CutAt(s, s', m, jump)
    ensures Assignable(s', c[0], |s.klauses| - 1)
  {
    hide FormulaOK, SearchOK, CountFree, PendingOK, Below, Assigned, Watched, Propagated, Deciding, Split;
    forall o | o in c && o != c[0] ensures o < |s'.values| && s'.values[o] < 0 {
      var i :| 0 <= i < |c| && c[i] == o;
    }
  }

  lemma CutDeciding(s: State, s': State, m: nat, jump: nat)
    requires Base(s) && CutAt(s, s', m, jump) && Deciding(s, s.level) && jump < s.level
    ensures Deciding(s', jump)
  {
    hide FormulaOK, SearchOK, CountFree, PendingOK, Below, Reasons, Roots, Klauses;
    forall j | |s.assumptions| < j <= jump ensures HasLevel(s'.vars, s'.trail, j) {
      assert HasLevel(s.vars, s.trail, j);
      var i :| 0 <= i < |s.trail| && Lv(s.vars, s.trail[i]) == j;
      assert s'.trail[i] == s.trail[i];
    }
  }

  /** Asserting the learned clause after the jump restores the watch invariant. */
  lemma AssertQuiet(s: State, s': State, m: nat, c: seq<Lit>, jump: nat)
    requires Learned(s, c, jump) && CutAt(s, s', m, jump) && Base(s')
    requires Assignable(s', c[0], |s.klauses| - 1)
    ensures Quiet(Assigns(s', c[0], |s.klauses| - 1), INVALID)
  {
    hide Base, FormulaOK, SearchOK, CountFree, Counted, Watched, Deciding, Assignable, Assigns, VisitedAt, RootLearned,
         Grows;
    var n := |s.klauses| - 1;
    var t := Assigns(s', c[0], n);
    BaseParts(s);
    CutPropagated(s.values, s.vars, s.trail, s.level, s.propagated, s.klauses, n, s'.values, m, jump);
    AssignsKeeps(s', c[0], n);
    PutTrail(s', c[0], n);
    BaseParts(s');
    BasicAssignable(s', c[0], n);
    PrefixKlauses(|s'.values|, s.klauses, n);
    AssignPropagated(s.klauses[..n], s'.values, s'.vars, s'.trail, s'.propagated, jump, c[0], t.vars[Var(c[0])]);
    AssertVisited(s, s', m, c, jump);
    forall r | 0 <= r < |t.klauses|
      ensures VisitedAt(t.klauses[r].lits, t.values, t.vars, t.trail, t.propagated, t.level) {
      RootPrefix(c[0], s'.klauses, s'.units, t.klauses, t.units, r);
      if r < n {
        assert t.klauses[r] == s.klauses[..n][r];
      } else if r > n {
        ShortVisited(t.klauses[r].lits, t.values, t.vars, t.trail, t.propagated, t.level);
      }
    }
  }

  lemma BaseParts(s: State)
    requires Base(s)
    ensures Assigned(s.values, s.vars, s.trail, s.level, s.klauses)
    ensures Shape(s.values, s.vars) && Klauses(|s.values|, s.klauses)
    ensures PendingOK(s.vars, s.trail, s.propagated, s.level) && s.propagated <= |s.trail|
  {
  }

  lemma BasicAssignable(s: State, lit: Lit, reason: int)
    requires Assignable(s, lit, reason)
    ensures lit < |s.values| && s.values[lit] == 0
  {
  }

  lemma PrefixKlauses(n: nat, ks: seq<Klause>, k: nat)
    requires Klauses(n, ks) && k <= |ks|
    ensures Klauses(n, ks[..k])
  {
  }

  lemma RootPrefix(lit: Lit, ks: seq<Klause>, units: seq<nat>, ks': seq<Klause>, units': seq<nat>, r: nat)
    requires RootLearned(lit, ks, units, ks', units') && r < |ks'|
    ensures r < |ks| ==> ks'[r] == ks[r]
    ensures r >= |ks| ==> |ks'[r].lits| < 2
  {
  }

  lemma ShortVisited(c: seq<Lit>, values: seq<int>, vars: seq<Kar>, trail: seq<Lit>, from: nat, lv: int)
    requires |c| < 2
    ensures VisitedAt(c, values, vars, trail, from, lv)
  {
  }

  lemma AssertVisited(s: State, s': State, m: nat, c: seq<Lit>, jump: nat)
    requires Learned(s, c, jump) && CutAt(s, s', m, jump) && Base(s')
    requires Assignable(s', c[0], |s.klauses| - 1)
    ensures var t := Assigns(s', c[0], |s.klauses| - 1);
            VisitedAt(c, t.values, t.vars, t.trail, t.propagated, t.level)
  {
    hide Base, FormulaOK, SearchOK, CountFree, Counted, Watched, Deciding, CanForce, Assigns,
         Propagated, Split, Pending;
    var t := Assigns(s', c[0], |s.klauses| - 1);
    AssignsKeeps(s', c[0], |s.klauses| - 1);
    PutTrail(s', c[0], |s.klauses| - 1);
    assert t.values[c[0]] == 1 by { SetTrue(s', c[0]); }
    if |c| >= 2 {
      assert s'.values[c[1]] == s.values[c[1]] != 0;
      assert Supported(c, t.values, t.vars, jump);
    }
  }

  /** The state after learning, jumping and asserting is ready for propagation. */
  lemma AssertKeeps(s: State, s': State, m: nat, c: seq<Lit>, jump: nat)
    requires Learned(s, c, jump) && CutAt(s, s', m, jump)
    ensures Base(s') && Assignable(s', c[0], |s.klauses| - 1)
    ensures var t := Assigns(s', c[0], |s.klauses| - 1);
            && Base(t) && Watched(t.klauses, t.watches) && Quiet(t, INVALID) && Deciding(t, jump)
            && SameFormula(s.klauses, t.klauses) && Advances(s', t)
  {
    hide Base, Watched, CutAt, Assignable, Deciding, Assigns, Quiet, SameFormula, Propagated,
         RootLearned, Grows, Forced;
    JumpTarget(s, c, jump);
    CutBase(s, s', m, jump);
    CutFrame(s, s', m, jump);
    CutAssignable(s, s', m, c, jump);
    AssertQuiet(s, s', m, c, jump);
    CutDeciding(s, s', m, jump);
    var t := Assigns(s', c[0], |s.klauses| - 1);
    AssignsKeeps(s', c[0], |s.klauses| - 1);
    BasicAssignable(s', c[0], |s.klauses| - 1);
    AssignsAdvances(s', c[0], |s.klauses| - 1);
    AssignsFrame(s', c[0], |s.klauses| - 1);
    Bounds(s', c[0]);
    UnitWatched(c[0], s'.klauses, s'.units, t.klauses, t.units, s'.watches);
    ExtendsDeciding(s', t, jump);
  }

  lemma CutFrame(s: State, s': State, m: nat, jump: nat)
    requires CutAt(s, s', m, jump)
    ensures s'.klauses == s.klauses && s'.units == s.units && s'.watches == s.watches && s'.level == jump
    ensures s'.klause == s.klause && s'.resolved == s.resolved && s'.propagated == m
    ensures s'.marks == s.marks && s'.analyzed == s.analyzed && s'.assumptions == s.assumptions && s'.failed == s.failed
    ensures s'.links == s.links && s'.first == s.first && s'.last == s.last && s'.stamp == s.stamp
  {
  }

  // ------------------------------------------------------------------ the whole analysis

  /** s is s0 after the literals of a conflict have been analyzed and forgotten again. */
  ghost predicate AfterBump(s0: State, s: State) {
    && Base(s) && s.analyzed == []
    && (forall v :: 0 <= v < |s.marks| ==> !s.marks[v])
    && s == s0.(marks := s.marks, links := s.links, first := s.first, last := s.last, stamp := s.stamp,
                klause := s.klause, resolved := s.resolved)
  }

  /** The clause in the buffer of s may be learned; the result has forgotten the buffers. */
  lemma AnalysisLearns(s0: State, s: State, conflict: int, jump: nat)
    requires Base(s0) && s0.level > 0 && Watched(s0.klauses, s0.watches)
    requires Quiet(s0, conflict) && conflict != INVALID && Deciding(s0, s0.level)
    requires AfterBump(s0, s)
    requires Proper(|s0.values|, s.klause) && Asserting(s0, s.klause, jump)
    requires Refs(s.resolved, |s0.klauses|) && Entail(s0.klauses, s.resolved, s.klause)
    ensures Learned(Learn(s).(klause := [], resolved := []), s.klause, jump)
    ensures SameFormula(s0.klauses, Learn(s).klauses) && |Learn(s).klauses| == |s0.klauses| + 1
  {
    hide FormulaOK, SearchOK, CountFree, PendingOK, Below, Assigned, Watched, Propagated, Entail, Proper, SameFormula,
         Assumed, Obedient, Inhabited, First, Connect;
    LearnKeeps(s, s.resolved);
    var t := Learn(s).(klause := [], resolved := []);
    assert t.klauses[..|t.klauses| - 1] == s0.klauses;
    LearnFrame(s);
  }

  lemma LearnFrame(s: State)
    ensures Learn(s) == s.(klauses := Learn(s).klauses, units := Learn(s).units, watches := Learn(s).watches,
                           inconsistent := Learn(s).inconsistent)
    ensures s.klause != [] ==> Learn(s).inconsistent == s.inconsistent
  {
    hide Connect;
  }

  /** The conflict clause itself starts the analysis. */
  lemma AnalysisStart(s: State, conflict: int)
    requires Base(s) && s.level > 0 && Conflicting(s, conflict)
    requires s.analyzed == [] && s.resolved == [] && forall v :: 0 <= v < |s.marks| ==> !s.marks[v]
    ensures Analyzing(s.(klause := [0]), |s.trail|, 0, 0)
    ensures 0 <= conflict < |s.klauses|
    ensures forall o :: o in s.klauses[conflict].lits ==> Analyzable(s.(klause := [0]), s.level, |s.trail|, o)
  {
    hide FormulaOK, SearchOK, CountFree, PendingOK, Below, Assigned;
    ConflictAnalyzable(s, conflict);
    NothingOpen(s.(klause := [0]), s.level, |s.trail|);
    ClauseAnalyzable(s, conflict);
  }

  lemma ClauseAnalyzable(s: State, conflict: int)
    requires 0 <= conflict < |s.klauses|
    requires forall o :: o in s.klauses[conflict].lits ==> Analyzable(s, s.level, |s.trail|, o)
    ensures forall o :: o in s.klauses[conflict].lits ==> Analyzable(s.(klause := [0]), s.level, |s.trail|, o)
  {
  }

  lemma NothingOpen(s: State, lo: nat, p: nat)
    requires forall v :: 0 <= v < |s.marks| ==> !s.marks[v]
    ensures Open(s, lo, p) == 0
  {
  }

  /** After the conflict clause some literal of the conflict level is open. */
  lemma ConflictOpen(s0: State, s: State, conflict: int)
    requires Base(s0) && s0.level > 0 && Conflicting(s0, conflict) && SameSearch(s0.(klause := [0]), s)
    requires forall o :: o in s0.klauses[conflict].lits ==> Marks(s, o)
    ensures Open(s, s.level, |s.trail|) > 0
  {
    hide FormulaOK, SearchOK, CountFree, PendingOK, Below, Reasons, Roots, Klauses;
    var o :| o in s0.klauses[conflict].lits && Lv(s0.vars, o) == s0.level;
    assert s0.values[Neg(o)] == -s0.values[o] && Var(Neg(o)) == Var(o);
    assert Neg(o) in s0.trail;
    var i :| 0 <= i < |s0.trail| && s0.trail[i] == Neg(o);
    if Open(s, s.level, |s.trail|) == 0 {
      OpenNone(s, s.level, |s.trail|, i);
    }
  }

  lemma ConflictStays(s0: State, s: State, conflict: int)
    requires Conflicting(s0, conflict) && SameSearch(s0.(klause := [0]), s)
    ensures Conflicting(s, conflict)
  {
  }

  /** Marking more literals leaves some open ones open. */
  lemma StillOpen(s: State, s': State, lo: nat, p: nat)
    requires SameSearch(s, s') && p <= |s.trail| && Open(s, lo, p) > 0
    ensures Open(s', lo, p) > 0
  {
    var i := OpenExists(s, lo, p);
    if Open(s', lo, p) == 0 {
      OpenNone(s', lo, p, i);
    }
  }

  lemma PokeKeeps(s: State, p: nat, open: nat, jump: nat, l: Lit)
    requires Analyzing(s, p, open, jump) && p < |s.trail|
    ensures |s.klause| >= 1 && s.trail[p] < |s.values|
    ensures var s' := s.(klause := s.klause[0 := l]);
            Base(s') && MarkedOK(s') && (Asserting(s, s'.klause, jump) ==> Asserting(s', s'.klause, jump))
  {
    hide FormulaOK, SearchOK, CountFree, PendingOK, Below, Reasons, Roots, Klauses, Open, Shape;
  }

  lemma BumpedAfter(s0: State, s1: State, s: State)
    requires s1 == s0.(marks := s1.marks, analyzed := s1.analyzed, klause := s1.klause, resolved := s1.resolved)
    requires Base(s) && s.analyzed == [] && s0.analyzed == []
    requires forall v :: 0 <= v < |s.marks| ==> !s.marks[v]
    requires s == s1.(marks := s.marks, analyzed := [], links := s.links, first := s.first,
                      last := s.last, stamp := s.stamp)
    ensures AfterBump(s0, s)
  {
  }
}
