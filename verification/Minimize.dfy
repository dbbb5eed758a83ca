/**
  Minimization of learned clauses (minimize.c): dropping all literals found removable, though
  the memoized flags of some rest on literals that are dropped themselves.
 */
module Minimize {
  import opened Literals
  import opened Entailment
  import RV = RootValues

  datatype Assigned = Assigned(level: nat, reason: Reason, removable: bool, poisoned: bool)

  /** The parts of the solver that minimization works on. */
  datatype Solver = Solver(values: seq<int>, assignments: seq<Assigned>, clauses: seq<seq<Lit>>, used: seq<nat>,
                           minimizedepth: nat, clause: seq<Lit>, minimize: seq<nat>,
                               removable: seq<nat>, poisoned: seq<nat>)

  ghost predicate False(s: Solver, l: Lit) {
    RV.False(s.values, l) && Var(l) < |s.assignments|
  }

  /** The literal l is false because of literals that are false and earlier on the trail. */
  ghost predicate ReasonOK(s: Solver, pos: seq<nat>, l: Lit)
    requires False(s, l) && |pos| == |s.assignments|
  {
    match s.assignments[Var(l)].reason
    case Binary(o) => False(s, o) && pos[Var(o)] < pos[Var(l)]
    case Large(ref) =>
      && ref < |s.clauses| && Neg(l) in s.clauses[ref]
      && forall o :: o in s.clauses[ref] && o != Neg(l) ==> False(s, o) && pos[Var(o)] < pos[Var(l)]
    case Decision => true
    case Unit => true
  }

  /** The reason clause of the variable of l. */
  function ReasonClause(s: Solver, l: Lit): seq<Lit>
    requires Var(l) < |s.assignments|
  {
    match s.assignments[Var(l)].reason
    case Binary(o) => [Neg(l), o]
    case Large(ref) => if ref < |s.clauses| then s.clauses[ref] else [Neg(l)]
    case Decision => [Neg(l), l]
    case Unit => [Neg(l)]
  }

  /** Literals at the root level are consequences of the formula, and so are the reasons of the others. */
  ghost predicate Implied(s: Solver, f: Clauses) {
    forall l: nat {:trigger False(s, l)} :: False(s, l) ==>
      Entails(f, if s.assignments[Var(l)].level == 0 then [Neg(l)] else ReasonClause(s, l))
  }

  ghost predicate Trail(s: Solver, pos: seq<nat>) {
    && |pos| == |s.assignments| && |s.values| == 2 * |s.assignments|
    && Opposite(s.values)
    && (forall l: nat {:trigger False(s, l)} :: False(s, l) ==>
          && ReasonOK(s, pos, l) && (s.assignments[Var(l)].level > 0 ==> s.assignments[Var(l)].reason != Unit)
          && s.assignments[Var(l)].level < |s.used|)
  }

  // ------------------------------------------------------------------ what the flags mean

  /** The literal is false at the root level, or flagged as removable. */
  ghost predicate Safe(s: Solver, l: Lit) {
    False(s, l) && (s.assignments[Var(l)].level == 0 || s.assignments[Var(l)].removable)
  }

  ghost predicate Root(s: Solver, l: Lit) {
    False(s, l) && s.assignments[Var(l)].level == 0
  }

  /** All other literals of the reason of l are safe. */
  ghost predicate Justified(s: Solver, l: Lit) {
    && False(s, l)
    && match s.assignments[Var(l)].reason
       case Binary(o) => Safe(s, o)
       case Large(ref) => ref < |s.clauses| && forall o :: o in s.clauses[ref] && o != Neg(l) ==> Safe(s, o)
       case Decision => false
       case Unit => false
  }

  /** Every removable literal is one of the clause c, or justified. */
  ghost predicate Flags(s: Solver, c: seq<Lit>) {
    forall l: nat :: False(s, l) && s.assignments[Var(l)].removable ==> l in c || Justified(s, l)
  }

  /** In a model of the formula that falsifies the kept literals, all safe literals are false. */
  lemma SafeFalse(s: Solver, pos: seq<nat>, f: Clauses, c: seq<Lit>, kept: seq<Lit>, m: Model, l: Lit)
    requires Trail(s, pos) && Implied(s, f) && Flags(s, c) && IsModel(m, f)
    requires forall o :: o in c ==> o in kept || Justified(s, o) || Root(s, o)
    requires !Sat(m, kept) && Safe(s, l)
    ensures !Holds(m, l)
    decreases pos[Var(l)]
  {
    if s.assignments[Var(l)].level == 0 {
      RootFalse(s, f, m, l);
    } else if l !in kept {
      assert Justified(s, l);
      var r := ReasonClause(s, l);
      assert Sat(m, r) && ReasonOK(s, pos, l);
      forall o | o in r && o != Neg(l) ensures !Holds(m, o) {
        SafeFalse(s, pos, f, c, kept, m, o);
      }
      SameVar(l, Neg(l));
    }
  }

  lemma RootFalse(s: Solver, f: Clauses, m: Model, l: Lit)
    requires Implied(s, f) && IsModel(m, f) && False(s, l) && s.assignments[Var(l)].level == 0
    ensures !Holds(m, l)
  {
    assert Sat(m, [Neg(l)]);
    SameVar(l, Neg(l));
  }

  /** Dropping all justified literals at once leaves an entailed clause. */
  lemma MinimizedEntailed(s: Solver, pos: seq<nat>, f: Clauses, c: seq<Lit>, kept: seq<Lit>)
    requires Trail(s, pos) && Implied(s, f) && Flags(s, c) && Entails(f, c)
    requires forall o :: o in c ==> Safe(s, o)
    requires forall o :: o in c ==> o in kept || Justified(s, o) || Root(s, o)
    ensures Entails(f, kept)
  {
    forall m: Model | IsModel(m, f) ensures Sat(m, kept) {
      if !Sat(m, kept) {
        forall o | o in c ensures !Holds(m, o) {
          SafeFalse(s, pos, f, c, kept, m, o);
        }
      }
    }
  }

  // ------------------------------------------------------------------ how the flags change

  /** Flags are only set, those of variables at trail positions below the bound. */
  ghost predicate Grows(s: Solver, s': Solver, pos: seq<nat>, bound: int) {
    && s' == s.(assignments := s'.assignments, removable := s'.removable, poisoned := s'.poisoned)
    && |s'.assignments| == |s.assignments| == |pos|
    && forall v :: 0 <= v < |s.assignments| ==>
         && s'.assignments[v] ==
              s.assignments[v].(removable := s'.assignments[v].removable, poisoned := s'.assignments[v].poisoned)
         && (s.assignments[v].removable ==> s'.assignments[v].removable)
         && (s.assignments[v].poisoned ==> s'.assignments[v].poisoned)
         && (pos[v] >= bound ==> s'.assignments[v] == s.assignments[v])
  }

  lemma GrowsRefl(s: Solver, pos: seq<nat>, bound: int)
    requires |pos| == |s.assignments|
    ensures Grows(s, s, pos, bound)
  {
  }

  lemma GrowsTrans(s: Solver, s': Solver, s'': Solver, pos: seq<nat>, bound: int, bound': int, bound'': int)
    requires Grows(s, s', pos, bound) && Grows(s', s'', pos, bound') && bound <= bound'' && bound' <= bound''
    ensures Grows(s, s'', pos, bound'')
  {
  }

  lemma GrowsKeeps(s: Solver, s': Solver, pos: seq<nat>, bound: int)
    requires Grows(s, s', pos, bound)
    ensures forall l: nat :: False(s', l) <==> False(s, l)
    ensures forall l: nat :: Safe(s, l) ==> Safe(s', l)
    ensures forall l: nat :: Justified(s, l) ==> Justified(s', l)
    ensures Trail(s, pos) ==> Trail(s', pos)
  {
    forall l: nat | False(s, l) && Trail(s, pos) ensures ReasonOK(s', pos, l) {
      assert ReasonOK(s, pos, l);
    }
  }

  /** The poisoned variables are those on the stack. */
  ghost predicate PoisonedOK(s: Solver) {
    && (forall i :: 0 <= i < |s.poisoned| ==> s.poisoned[i] < |s.assignments|)
    && (forall v: nat :: v < |s.assignments| && s.assignments[v].poisoned ==> v in s.poisoned)
  }

  /** What holds whenever a literal is tried. */
  ghost predicate Minimizing(s: Solver, pos: seq<nat>, c: seq<Lit>) {
    Trail(s, pos) && Flags(s, c) && PoisonedOK(s)
  }

  function Removable(s: Solver, idx: nat): Solver
    requires idx < |s.assignments|
  {
    s.(assignments := s.assignments[idx := s.assignments[idx].(removable := true)], removable := s.removable + [idx])
  }

  function Poisoned(s: Solver, idx: nat): Solver
    requires idx < |s.assignments|
  {
    s.(assignments := s.assignments[idx := s.assignments[idx].(poisoned := true)], poisoned := s.poisoned + [idx])
  }

  lemma RemovableKeeps(s: Solver, pos: seq<nat>, c: seq<Lit>, l: Lit)
    requires Minimizing(s, pos, c) && Justified(s, l)
    ensures var s' := Removable(s, Var(l)); Minimizing(s', pos, c) && Grows(s, s', pos, pos[Var(l)] + 1) && Safe(s', l)
  {
    var s' := Removable(s, Var(l));
    GrowsKeeps(s, s', pos, pos[Var(l)] + 1);
    forall k: nat | False(s', k) && s'.assignments[Var(k)].removable ensures k in c || Justified(s', k) {
      if Var(k) == Var(l) {
        OneFalse(s, pos, k, l);
      }
    }
  }

  lemma OneFalse(s: Solver, pos: seq<nat>, k: Lit, l: Lit)
    requires False(s, k) && False(s, l) && Var(k) == Var(l) && Opposite(s.values)
    ensures k == l
  {
    SameVar(k, l);
    assert s.values[Neg(k)] == -s.values[k];
  }

  lemma PoisonedKeeps(s: Solver, pos: seq<nat>, c: seq<Lit>, idx: nat)
    requires Minimizing(s, pos, c) && idx < |s.assignments|
    ensures var s' := Poisoned(s, idx); Minimizing(s', pos, c) && Grows(s, s', pos, pos[idx] + 1)
  {
    var s' := Poisoned(s, idx);
    GrowsKeeps(s, s', pos, pos[idx] + 1);
    forall v: nat | v < |s'.assignments| && s'.assignments[v].poisoned ensures v in s'.poisoned {
      assert s'.poisoned[|s.poisoned|] == idx;
      assert v != idx ==> v in s.poisoned;
    }
  }

  // ------------------------------------------------------------------ what minimization looks for

  /**
    The literal need not be in clause c: it has a reason, its level occurs more than once, and every other literal
    of the reason is false at the root level, in c, or redundant itself.
   */
  ghost predicate Redundant(s: Solver, pos: seq<nat>, c: seq<Lit>, l: Lit)
    decreases if Var(l) < |pos| then pos[Var(l)] else 0
  {
    && |pos| == |s.assignments| && Removable0(s, l)
    && HasClause(s, l)
    && forall o :: o in ReasonClause(s, l) && o != Neg(l) ==>
         False(s, o) && pos[Var(o)] < pos[Var(l)] && (Root(s, o) || o in c || Redundant(s, pos, c, o))
  }

  /** The reason is a clause. */
  ghost predicate HasClause(s: Solver, l: Lit)
    requires Var(l) < |s.assignments|
  {
    var r := s.assignments[Var(l)].reason;
    r.Binary? || (r.Large? && r.ref < |s.clauses|)
  }

  /** Above the root level, and not alone on its level. */
  ghost predicate Removable0(s: Solver, l: Lit) {
    && False(s, l)
    && 0 < s.assignments[Var(l)].level < |s.used| && s.used[s.assignments[Var(l)].level] > 1
  }

  ghost predicate Gone(s: Solver, pos: seq<nat>, c: seq<Lit>, l: Lit) {
    Root(s, l) || l in c || Redundant(s, pos, c, l)
  }

  ghost predicate AllGone(s: Solver, pos: seq<nat>, c: seq<Lit>, d: seq<Lit>, l: Lit) {
    forall o :: o in d && o != Neg(l) ==> Gone(s, pos, c, o)
  }

  /** On the trail a literal is redundant exactly if the rest of its reason is gone. */
  lemma RedundantReason(s: Solver, pos: seq<nat>, c: seq<Lit>, l: Lit)
    requires Trail(s, pos) && Removable0(s, l)
    ensures Redundant(s, pos, c, l) <==> HasClause(s, l) && AllGone(s, pos, c, ReasonClause(s, l), l)
    ensures var r := s.assignments[Var(l)].reason;
            && (r.Large? ==> r.ref < |s.clauses|)
            && (r.Binary? ==> r.other != Neg(l) && (Redundant(s, pos, c, l) <==> Gone(s, pos, c, r.other)))
  {
    assert ReasonOK(s, pos, l);
    if s.assignments[Var(l)].reason.Binary? {
      var o := s.assignments[Var(l)].reason.other;
      SameVar(l, Neg(l));
      assert o in ReasonClause(s, l);
    }
  }

  /** The state without flags. */
  function Static(s: Solver): Solver {
    s.(assignments := seq(|s.assignments|, v requires 0 <= v < |s.assignments| =>
                            s.assignments[v].(removable := false, poisoned := false)),
       clause := [], minimize := [], removable := [], poisoned := [])
  }

  lemma StaticSame(s: Solver, s': Solver)
    requires s' == s.(assignments := s'.assignments, clause := s'.clause, minimize := s'.minimize,
                      removable := s'.removable, poisoned := s'.poisoned)
    requires |s'.assignments| == |s.assignments|
    requires forall v :: 0 <= v < |s.assignments| ==>
               s'.assignments[v].level == s.assignments[v].level && s'.assignments[v].reason == s.assignments[v].reason
    ensures Static(s') == Static(s)
  {
    assert Static(s').assignments == Static(s).assignments;
  }

  lemma StaticFacts(s: Solver, pos: seq<nat>)
    ensures var t := Static(s);
      && (forall l: nat :: False(t, l) <==> False(s, l)) && (forall l: nat :: Root(t, l) <==> Root(s, l))
      && (Trail(s, pos) ==> Trail(t, pos)) && t.clauses == s.clauses && t.used == s.used
      && |t.assignments| == |s.assignments| && t.minimizedepth == s.minimizedepth
      && forall v :: 0 <= v < |s.assignments| ==>
           t.assignments[v].level == s.assignments[v].level && t.assignments[v].reason == s.assignments[v].reason
  {
    var t := Static(s);
    forall l: nat | False(t, l) && Trail(s, pos)
      ensures ReasonOK(t, pos, l) && t.assignments[Var(l)].level < |t.used|
      ensures t.assignments[Var(l)].level > 0 ==> t.assignments[Var(l)].reason != Unit {
      assert False(s, l) && ReasonOK(s, pos, l);
    }
  }

  /** The limit on the depth is never reached. */
  ghost predicate Deep(s: Solver, pos: seq<nat>) {
    forall v :: 0 <= v < |pos| ==> pos[v] < s.minimizedepth
  }

  /** The answer yes is right, and so is the answer no unless the limit on the depth is in the way. */
  ghost predicate Judged(s: Solver, pos: seq<nat>, fact: bool, res: bool) {
    (res ==> fact) && (!res && Deep(s, pos) ==> !fact)
  }

  /** What the flags say about literals: the removable ones are gone, the poisoned ones are not. */
  ghost predicate Exact(s: Solver, pos: seq<nat>, c: seq<Lit>) {
    forall l: nat :: False(s, l) ==> ExactAt(s, pos, c, l)
  }

  ghost predicate ExactAt(s: Solver, pos: seq<nat>, c: seq<Lit>, l: Lit)
    requires Var(l) < |s.assignments|
  {
    var a := s.assignments[Var(l)];
    && (l in c ==> a.removable)
    && (a.removable ==> l in c || Redundant(Static(s), pos, c, l))
    && (a.poisoned ==> !a.removable && (Deep(s, pos) ==> !Redundant(Static(s), pos, c, l)))
  }

  /** A literal is flagged according to what has been found out. */
  lemma FlagExact(s: Solver, s': Solver, pos: seq<nat>, c: seq<Lit>, l: Lit, res: bool)
    requires Exact(s, pos, c) && False(s, l) && Opposite(s.values)
    requires !s.assignments[Var(l)].removable && !s.assignments[Var(l)].poisoned
    requires s' == if res then Removable(s, Var(l)) else Poisoned(s, Var(l))
    requires Judged(s, pos, Redundant(Static(s), pos, c, l), res)
    ensures Exact(s', pos, c) && Static(s') == Static(s)
  {
    hide Redundant;
    StaticSame(s, s');
    forall k: nat | False(s', k) ensures ExactAt(s', pos, c, k) {
      assert ExactAt(s, pos, c, k);
      if Var(k) == Var(l) {
        OneFalse(s, pos, k, l);
      }
    }
  }

  lemma {:induction false} FlagAllExact(s: Solver, pos: seq<nat>, c: seq<Lit>, chain: seq<Lit>, k: nat, res: bool)
    requires Exact(s, pos, c) && Opposite(s.values) && k <= |chain| && Chain(s, pos, chain)
    requires forall i :: 0 <= i < |Vars(chain)| ==> Vars(chain)[i] < |s.assignments|
    requires forall i :: 0 <= i < |chain| ==> Judged(s, pos, Redundant(Static(s), pos, c, chain[i]), res)
    ensures var s' := if res then RemovableAll(s, Vars(chain), k) else PoisonedAll(s, Vars(chain), k);
            Exact(s', pos, c) && Static(s') == Static(s)
  {
    hide Redundant, Exact, Chain, Opposite, Judged;
    if k > 0 {
      FlagAllExact(s, pos, c, chain, k - 1, res);
      var idxs := Vars(chain);
      var s1 := if res then RemovableAll(s, idxs, k - 1) else PoisonedAll(s, idxs, k - 1);
      ChainUntouched(s, pos, chain, k - 1, res);
      JudgedSame(s, s1, pos, Redundant(Static(s), pos, c, chain[k - 1]), res);
      FlagExact(s1, if res then Removable(s1, idxs[k - 1]) else Poisoned(s1, idxs[k - 1]), pos, c, chain[k - 1], res);
    }
  }

  lemma JudgedSame(s: Solver, s': Solver, pos: seq<nat>, fact: bool, res: bool)
    requires Judged(s, pos, fact, res) && s'.minimizedepth == s.minimizedepth
    ensures Judged(s', pos, fact, res)
  {
  }

  lemma ChainUntouched(s: Solver, pos: seq<nat>, chain: seq<Lit>, k: nat, res: bool)
    requires Chain(s, pos, chain) && k < |chain|
    requires forall i :: 0 <= i < |Vars(chain)| ==> Vars(chain)[i] < |s.assignments|
    ensures var s1 := if res then RemovableAll(s, Vars(chain), k) else PoisonedAll(s, Vars(chain), k);
            && False(s1, chain[k]) && s1.values == s.values
            && s1.assignments[Var(chain[k])] == s.assignments[Var(chain[k])]
            && !s.assignments[Var(chain[k])].removable && !s.assignments[Var(chain[k])].poisoned
            && s1.minimizedepth == s.minimizedepth && |s1.assignments| == |s.assignments|
  {
    assert Unflagged(s, chain[k]);
    forall j | 0 <= j < k ensures Vars(chain)[..k][j] != Vars(chain)[k] {
      assert pos[Var(chain[j])] > pos[Var(chain[k])];
    }
    if res {
      RemovableAllFlags(s, Vars(chain), k);
    } else {
      PoisonedAllSame(s, Vars(chain), k);
      PoisonedAllStatic(s, Vars(chain), k);
    }
  }

  lemma {:induction false} PoisonedAllStatic(s: Solver, idxs: seq<nat>, k: nat)
    requires k <= |idxs| && forall i :: 0 <= i < |idxs| ==> idxs[i] < |s.assignments|
    ensures var s' := PoisonedAll(s, idxs, k); s' == s.(assignments := s'.assignments, poisoned := s'.poisoned)
  {
    if k > 0 {
      PoisonedAllStatic(s, idxs, k - 1);
    }
  }

  lemma ExactSame(s: Solver, s': Solver, pos: seq<nat>, c: seq<Lit>)
    requires Exact(s, pos, c) && s' == s.(clause := s'.clause, minimize := s'.minimize)
    ensures Exact(s', pos, c) && Static(s') == Static(s)
  {
    StaticSame(s, s');
    forall l: nat | False(s', l) ensures ExactAt(s', pos, c, l) {
      assert False(s, l) && ExactAt(s, pos, c, l);
    }
  }

  ghost predicate Near(s: Solver, c: seq<Lit>, l: Lit) {
    Root(s, l) || l in c
  }

  ghost predicate AllNear(s: Solver, c: seq<Lit>, d: seq<Lit>, l: Lit) {
    forall o :: o in d && o != Neg(l) ==> Near(s, c, o)
  }

  /** The other literals of the reason are false at the root level or in c. */
  ghost predicate Direct(s: Solver, c: seq<Lit>, l: Lit) {
    Removable0(s, l) && HasClause(s, l) && AllNear(s, c, ReasonClause(s, l), l)
  }

  /** Nothing but flags has changed, which are right; so is the answer about the fact. */
  ghost predicate Found(s0: Solver, s: Solver, pos: seq<nat>, c: seq<Lit>, fact: bool, res: bool) {
    Static(s) == Static(s0) && Exact(s, pos, c) && Judged(s, pos, fact, res)
  }

  lemma FoundParts(s0: Solver, s: Solver, pos: seq<nat>, c: seq<Lit>, fact: bool, res: bool)
    requires Found(s0, s, pos, c, fact, res)
    ensures Static(s) == Static(s0) && Exact(s, pos, c) && s.minimizedepth == s0.minimizedepth
    ensures (res ==> fact) && (!res && Deep(s0, pos) ==> !fact)
  {
    assert s.minimizedepth == Static(s).minimizedepth;
  }

  /** One more literal of a reason has been tried. */
  lemma ReferenceStep(s0: Solver, s1: Solver, s: Solver, pos: seq<nat>, c: seq<Lit>, d: seq<Lit>, l: Lit, k: nat,
                      depth: nat, res: bool)
    requires k < |d| && d[k] != Neg(l) && Static(s1) == Static(s0) && depth > 0
    requires Found(s1, s, pos, c, Verdict(s, pos, c, d[k], depth), res)
    requires forall i :: 0 <= i < k && d[i] != Neg(l) ==> Gone(Static(s0), pos, c, d[i])
    ensures Static(s) == Static(s0) && Exact(s, pos, c) && s.minimizedepth == s0.minimizedepth
    ensures if res then forall i :: 0 <= i < k + 1 && d[i] != Neg(l) ==> Gone(Static(s0), pos, c, d[i])
            else Found(s0, s, pos, c, AllGone(Static(s), pos, c, d, l), false)
  {
    hide Redundant, Exact;
    FoundParts(s1, s, pos, c, Verdict(s, pos, c, d[k], depth), res);
    assert s.minimizedepth == Static(s).minimizedepth && s0.minimizedepth == Static(s0).minimizedepth;
    assert d[k] in d;
  }

  lemma ReferenceEnd(s0: Solver, s: Solver, pos: seq<nat>, c: seq<Lit>, d: seq<Lit>, l: Lit)
    requires Static(s) == Static(s0) && Exact(s, pos, c)
    requires forall i :: 0 <= i < |d| && d[i] != Neg(l) ==> Gone(Static(s0), pos, c, d[i])
    ensures Found(s0, s, pos, c, AllGone(Static(s), pos, c, d, l), true)
  {
  }

  /** What an answer about a literal at the given depth is about: the clause counts only below the top. */
  ghost predicate Verdict(s: Solver, pos: seq<nat>, c: seq<Lit>, l: Lit, depth: nat) {
    Root(Static(s), l) || Redundant(Static(s), pos, c, l) || (depth > 0 && l in c)
  }

  /** The recursion has room if the limit is beyond the trail. */
  ghost predicate Room(s: Solver, pos: seq<nat>, l: Lit, depth: nat) {
    Var(l) < |pos| && (Deep(s, pos) ==> depth + pos[Var(l)] < s.minimizedepth)
  }

  /** What the first look at a literal tells. */
  lemma IndexJudged(s: Solver, pos: seq<nat>, c: seq<Lit>, l: Lit, depth: nat)
    requires Exact(s, pos, c) && Minimizing(s, pos, c) && False(s, l) && s.assignments[Var(l)].level < |s.used|
    ensures var a, t := s.assignments[Var(l)], Static(s);
            var fact := Verdict(s, pos, c, l, depth);
            if a.level == 0 || (a.removable && depth > 0) then fact
            else if a.reason == Decision || a.poisoned || s.used[a.level] <= 1 then Judged(s, pos, fact, false)
            else Removable0(t, l) && (depth > 0 ==> l !in c) && (fact <==> Redundant(t, pos, c, l))
  {
    StaticFacts(s, pos);
    assert ExactAt(s, pos, c, l);
    var t := Static(s);
    if s.assignments[Var(l)].level > 0 && s.assignments[Var(l)].reason == Decision {
      assert t.assignments[Var(l)].reason == Decision;
    }
  }

  // ------------------------------------------------------------------ chains of binary reasons

  ghost predicate Unflagged(s: Solver, l: Lit) {
    && False(s, l) && s.assignments[Var(l)].level > 0
    && !s.assignments[Var(l)].removable && !s.assignments[Var(l)].poisoned
  }

  /** Each literal is false because of the next one alone. */
  ghost predicate Chain(s: Solver, pos: seq<nat>, chain: seq<Lit>) {
    && |pos| == |s.assignments|
    && (forall k :: 0 <= k < |chain| ==> Unflagged(s, chain[k]))
    && (forall k :: 0 <= k < |chain| - 1 ==> Leads(s, chain, k))
    && (forall j, k :: 0 <= j < k < |chain| ==> pos[Var(chain[j])] > pos[Var(chain[k])])
  }

  ghost predicate Leads(s: Solver, chain: seq<Lit>, k: nat)
    requires k < |chain| - 1
  {
    Var(chain[k]) < |s.assignments| && s.assignments[Var(chain[k])].reason == Binary(chain[k + 1])
  }

  function Vars(chain: seq<Lit>): seq<nat> {
    seq(|chain|, k requires 0 <= k < |chain| => Var(chain[k]))
  }

  /** The state after flagging the first k variables. */
  function RemovableAll(s: Solver, idxs: seq<nat>, k: nat): (s': Solver)
    requires k <= |idxs| && forall i :: 0 <= i < |idxs| ==> idxs[i] < |s.assignments|
    ensures |s'.assignments| == |s.assignments|
  {
    if k == 0 then s else Removable(RemovableAll(s, idxs, k - 1), idxs[k - 1])
  }

  function PoisonedAll(s: Solver, idxs: seq<nat>, k: nat): (s': Solver)
    requires k <= |idxs| && forall i :: 0 <= i < |idxs| ==> idxs[i] < |s.assignments|
    ensures |s'.assignments| == |s.assignments|
  {
    if k == 0 then s else Poisoned(PoisonedAll(s, idxs, k - 1), idxs[k - 1])
  }

  lemma {:induction false} RemovableAllFlags(s: Solver, idxs: seq<nat>, k: nat)
    requires k <= |idxs| && forall i :: 0 <= i < |idxs| ==> idxs[i] < |s.assignments|
    ensures var s' := RemovableAll(s, idxs, k);
            && s' == s.(assignments := s'.assignments, removable := s'.removable)
            && forall v :: 0 <= v < |s.assignments| ==>
                 s'.assignments[v] == s.assignments[v].(removable := s.assignments[v].removable || v in idxs[..k])
  {
    if k > 0 {
      RemovableAllFlags(s, idxs, k - 1);
      assert idxs[..k] == idxs[..k - 1] + [idxs[k - 1]];
    }
  }

  lemma {:induction false} PoisonedAllKeeps(s: Solver, pos: seq<nat>, c: seq<Lit>, idxs: seq<nat>, k: nat, bound: int)
    requires k <= |idxs| && forall i :: 0 <= i < |idxs| ==> idxs[i] < |s.assignments| == |pos| && pos[idxs[i]] < bound
    requires Minimizing(s, pos, c) && |pos| == |s.assignments|
    ensures var s' := PoisonedAll(s, idxs, k); Minimizing(s', pos, c) && Grows(s, s', pos, bound)
  {
    hide Minimizing, Grows;
    if k == 0 {
      GrowsRefl(s, pos, bound);
    } else {
      PoisonedAllKeeps(s, pos, c, idxs, k - 1, bound);
      var s' := PoisonedAll(s, idxs, k - 1);
      PoisonedKeeps(s', pos, c, idxs[k - 1]);
      GrowsTrans(s, s', PoisonedAll(s, idxs, k), pos, bound, pos[idxs[k - 1]] + 1, bound);
    }
  }

  lemma {:induction false} PoisonedAllSame(s: Solver, idxs: seq<nat>, k: nat)
    requires k <= |idxs| && forall i :: 0 <= i < |idxs| ==> idxs[i] < |s.assignments|
    ensures PoisonedAll(s, idxs, k).minimize == s.minimize
    ensures forall v ::
              0 <= v < |s.assignments| && v !in idxs[..k] ==> PoisonedAll(s, idxs, k).assignments[v] == s.assignments[v]
  {
    if k > 0 {
      PoisonedAllSame(s, idxs, k - 1);
      assert idxs[..k] == idxs[..k - 1] + [idxs[k - 1]];
    }
  }

  /** Flagging a whole chain, the last literal of which is justified, keeps the invariant. */
  lemma ChainKeeps(s: Solver, pos: seq<nat>, c: seq<Lit>, chain: seq<Lit>, bound: int)
    requires Minimizing(s, pos, c) && Chain(s, pos, chain) && (chain != [] ==> Justified(s, chain[|chain| - 1]))
    requires chain != [] ==> pos[Var(chain[0])] < bound
    ensures forall i :: 0 <= i < |Vars(chain)| ==> Vars(chain)[i] < |s.assignments|
    ensures var s' := RemovableAll(s, Vars(chain), |chain|);
            Minimizing(s', pos, c) && Grows(s, s', pos, bound) && (chain != [] ==> Safe(s', chain[0]))
  {
    hide Chain, Justified, Grows, Trail, Safe, Flags, PoisonedOK, RemovableAll, Opposite;
    ChainVars(s, pos, chain);
    var s' := RemovableAll(s, Vars(chain), |chain|);
    ChainGrows(s, pos, chain, bound);
    GrowsKeeps(s, s', pos, bound);
    TrailOpposite(s, pos);
    ChainFlags(s, s', pos, c, chain);
    ChainPoisoned(s, chain);
  }

  lemma TrailOpposite(s: Solver, pos: seq<nat>)
    requires Trail(s, pos)
    ensures Opposite(s.values)
  {
  }

  lemma ChainPoisoned(s: Solver, chain: seq<Lit>)
    requires PoisonedOK(s) && forall i :: 0 <= i < |Vars(chain)| ==> Vars(chain)[i] < |s.assignments|
    ensures PoisonedOK(RemovableAll(s, Vars(chain), |chain|))
  {
    RemovableAllFlags(s, Vars(chain), |chain|);
  }

  lemma ChainFlags(s: Solver, s': Solver, pos: seq<nat>, c: seq<Lit>, chain: seq<Lit>)
    requires Flags(s, c) && Opposite(s.values) && Chain(s, pos, chain)
    requires (chain != [] ==> Justified(s', chain[|chain| - 1]))
    requires forall i :: 0 <= i < |Vars(chain)| ==> Vars(chain)[i] < |s.assignments|
    requires s' == RemovableAll(s, Vars(chain), |chain|) && forall k :: 0 <= k < |chain| ==> Safe(s', chain[k])
    requires forall l: nat :: False(s', l) <==> False(s, l)
    requires forall l: nat :: Justified(s, l) ==> Justified(s', l)
    ensures Flags(s', c)
  {
    hide Chain, Justified, Safe, RemovableAll, Opposite;
    forall k: nat | False(s', k) && s'.assignments[Var(k)].removable ensures k in c || Justified(s', k) {
      if !s.assignments[Var(k)].removable {
        ChainMember(s, s', pos, chain, k);
      }
    }
  }

  lemma ChainGrows(s: Solver, pos: seq<nat>, chain: seq<Lit>, bound: int)
    requires Chain(s, pos, chain) && (chain != [] ==> pos[Var(chain[0])] < bound)
    requires forall i :: 0 <= i < |Vars(chain)| ==> Vars(chain)[i] < |s.assignments|
    ensures var s' := RemovableAll(s, Vars(chain), |chain|);
            Grows(s, s', pos, bound) && forall k :: 0 <= k < |chain| ==> Safe(s', chain[k])
  {
    var idxs := Vars(chain);
    RemovableAllFlags(s, idxs, |chain|);
    assert idxs[..|chain|] == idxs;
    forall k | 0 <= k < |chain| ensures Safe(RemovableAll(s, idxs, |chain|), chain[k]) && pos[idxs[k]] < bound {
      assert Unflagged(s, chain[k]) && idxs[k] == Var(chain[k]);
      assert k > 0 ==> pos[Var(chain[0])] > pos[Var(chain[k])];
    }
  }

  /** A literal flagged with the chain is one of its literals, and justified by the next one. */
  lemma ChainMember(s: Solver, s': Solver, pos: seq<nat>, chain: seq<Lit>, l: Lit)
    requires Chain(s, pos, chain) && Opposite(s.values) && (chain != [] ==> Justified(s', chain[|chain| - 1]))
    requires forall i :: 0 <= i < |Vars(chain)| ==> Vars(chain)[i] < |s.assignments|
    requires s' == RemovableAll(s, Vars(chain), |chain|) && forall k :: 0 <= k < |chain| ==> Safe(s', chain[k])
    requires False(s, l) && !s.assignments[Var(l)].removable && s'.assignments[Var(l)].removable
    ensures Justified(s', l)
  {
    var idxs := Vars(chain);
    RemovableAllFlags(s, idxs, |chain|);
    assert idxs[..|chain|] == idxs;
    var i :| 0 <= i < |idxs| && idxs[i] == Var(l);
    assert Unflagged(s, chain[i]);
    OneFalse(s, pos, l, chain[i]);
    ChainJustified(s, s', pos, chain, i);
  }

  lemma ChainJustified(s: Solver, s': Solver, pos: seq<nat>, chain: seq<Lit>, i: nat)
    requires Chain(s, pos, chain) && i < |chain| && Justified(s', chain[|chain| - 1])
    requires |s'.assignments| == |s.assignments| && s'.clauses == s.clauses && s'.values == s.values
    requires forall v :: 0 <= v < |s.assignments| ==> s'.assignments[v].reason == s.assignments[v].reason
    requires forall k :: 0 <= k < |chain| ==> Safe(s', chain[k])
    ensures Justified(s', chain[i])
  {
    if i < |chain| - 1 {
      assert Leads(s, chain, i) && Unflagged(s, chain[i]);
    }
  }

  // ------------------------------------------------------------------ walking along a chain

  /** The chain leads from lit to next. */
  ghost predicate Walking(s: Solver, pos: seq<nat>, c: seq<Lit>, chain: seq<Lit>, lit: Lit, next: Lit) {
    && Minimizing(s, pos, c) && Chain(s, pos, chain) && False(s, next) && False(s, lit) &&
       pos[Var(next)] <= pos[Var(lit)]
    && (chain == [] ==> next == lit)
    && (chain != [] ==> chain[0] == lit && Var(chain[|chain| - 1]) < |s.assignments| &&
                        s.assignments[Var(chain[|chain| - 1])].reason == Binary(next))
    && forall k :: 0 <= k < |chain| ==> pos[Var(next)] < pos[Var(chain[k])] <= pos[Var(lit)]
  }

  /** The walk has ended; with success, the last literal of the chain is justified. */
  ghost predicate Stopped(u0: Solver, s: Solver, pos: seq<nat>, c: seq<Lit>, chain: seq<Lit>, lit: Lit, res: bool) {
    && Minimizing(s, pos, c) && Chain(s, pos, chain) && False(s, lit) && Grows(u0, s, pos, pos[Var(lit)] + 1)
    && (chain != [] ==> chain[0] == lit)
    && (forall k :: 0 <= k < |chain| ==> Var(chain[k]) < |pos| && pos[Var(chain[k])] <= pos[Var(lit)])
    && (res ==> if chain == [] then Safe(s, lit) else Justified(s, chain[|chain| - 1]))
  }

  lemma WalkStart(s: Solver, pos: seq<nat>, c: seq<Lit>, lit: Lit)
    requires Minimizing(s, pos, c) && False(s, lit)
    ensures Walking(s, pos, c, [], lit, lit) && s == s.(minimize := s.minimize + Vars([]))
    ensures |pos| == |s.assignments|
  {
    assert s.minimize + Vars([]) == s.minimize;
  }

  lemma WalkFacts(s: Solver, pos: seq<nat>, c: seq<Lit>, chain: seq<Lit>, lit: Lit, next: Lit)
    requires Walking(s, pos, c, chain, lit, next)
    ensures False(s, next) && |pos| == |s.assignments| && s.assignments[Var(next)].level < |s.used|
    ensures Minimizing(s, pos, c) && pos[Var(next)] <= pos[Var(lit)]
  {
  }

  lemma WalkStops(s: Solver, pos: seq<nat>, c: seq<Lit>, chain: seq<Lit>, lit: Lit, next: Lit, res: bool)
    requires Walking(s, pos, c, chain, lit, next) && (res ==> Root(s, next) || Safe(s, next))
    ensures Stopped(s, s, pos, c, chain, lit, res)
  {
    GrowsRefl(s, pos, pos[Var(lit)] + 1);
    hide Flags, PoisonedOK, Trail;
    if chain != [] {
      assert Unflagged(s, chain[|chain| - 1]);
    }
  }

  /** The next literal extends the chain; its reason, if binary, leads on. */
  lemma WalkNext(s: Solver, pos: seq<nat>, c: seq<Lit>, chain: seq<Lit>, lit: Lit, next: Lit)
    requires Walking(s, pos, c, chain, lit, next)
    requires Unflagged(s, next) && s.assignments[Var(next)].reason != Decision
    ensures var s' := s.(minimize := s.minimize + [Var(next)]);
            var r := s.assignments[Var(next)].reason;
            && (r.Binary? ==> False(s, r.other) && pos[Var(r.other)] < pos[Var(next)] &&
                              Walking(s', pos, c, chain + [next], lit, r.other))
            && (!r.Binary? ==> r.Large?)
            && Minimizing(s', pos, c) && Chain(s', pos, chain + [next]) && False(s', next) &&
               Vars(chain + [next]) == Vars(chain) + [Var(next)]
            && (forall k :: 0 <= k < |chain + [next]| ==>
                            Var((chain + [next])[k]) < |pos| && pos[Var((chain + [next])[k])] <= pos[Var(lit)])
            && (chain + [next])[0] == lit && False(s', lit) && |pos| == |s'.assignments|
  {
    var s' := s.(minimize := s.minimize + [Var(next)]);
    StackSame(s, s', pos, c);
    assert ReasonOK(s, pos, next);
    hide Flags, PoisonedOK, Trail, Minimizing;
    var chain' := chain + [next];
    forall k | 0 <= k < |chain'|
      ensures Unflagged(s', chain'[k]) && Var(chain'[k]) < |pos| && pos[Var(chain'[k])] <= pos[Var(lit)] {
      assert k < |chain| ==> Unflagged(s, chain[k]);
    }
    forall k | 0 <= k < |chain'| - 1 ensures Leads(s', chain', k) {
      assert k < |chain| - 1 ==> Leads(s, chain, k);
    }
  }

  lemma StackSame(s: Solver, s': Solver, pos: seq<nat>, c: seq<Lit>)
    requires s' == s.(minimize := s'.minimize)
    ensures Minimizing(s, pos, c) ==> Minimizing(s', pos, c)
    ensures forall l: nat :: False(s', l) <==> False(s, l)
    ensures forall l: nat :: Safe(s', l) <==> Safe(s, l)
  {
    forall l: nat | False(s', l) && Trail(s, pos)
      ensures ReasonOK(s', pos, l) && s'.assignments[Var(l)].level < |s'.used|
      ensures s'.assignments[Var(l)].level > 0 ==> s'.assignments[Var(l)].reason != Unit
    {
      assert False(s, l) && ReasonOK(s, pos, l);
    }
    forall l: nat | Justified(s, l) ensures Justified(s', l) {
    }
  }

  /** The last reason of the chain has been tried. */
  lemma WalkEnds(u0: Solver, s: Solver, pos: seq<nat>, c: seq<Lit>, chain: seq<Lit>, lit: Lit, next: Lit, res: bool)
    requires Chain(u0, pos, chain) && chain != [] && chain[0] == lit && chain[|chain| - 1] == next
    requires False(u0, next) && False(u0, lit) && |pos| == |u0.assignments|
    requires forall k :: 0 <= k < |chain| ==> Var(chain[k]) < |pos| && pos[Var(chain[k])] <= pos[Var(lit)]
    requires Minimizing(s, pos, c) && Grows(u0, s, pos, pos[Var(next)]) && (res ==> Justified(s, next))
    ensures Stopped(u0, s, pos, c, chain, lit, res) && s.minimize == u0.minimize
  {
    hide Minimizing, Justified;
    forall k | 0 <= k < |chain| ensures Unflagged(s, chain[k]) {
      assert Unflagged(u0, chain[k]);
      assert pos[Var(chain[k])] >= pos[Var(next)];
    }
    forall k | 0 <= k < |chain| - 1 ensures Leads(s, chain, k) {
      assert Leads(u0, chain, k);
    }
  }

  lemma StoppedParts(u0: Solver, s: Solver, pos: seq<nat>, c: seq<Lit>, chain: seq<Lit>, lit: Lit, res: bool)
    requires Stopped(u0, s, pos, c, chain, lit, res)
    ensures Minimizing(s, pos, c) && Chain(s, pos, chain) && False(s, lit) && |pos| == |s.assignments|
  {
  }

  lemma StoppedRemovable(u0: Solver, s: Solver, pos: seq<nat>, c: seq<Lit>, chain: seq<Lit>, lit: Lit)
    requires Stopped(u0, s, pos, c, chain, lit, true)
    ensures forall i :: 0 <= i < |Vars(chain)| ==> Vars(chain)[i] < |s.assignments|
    ensures var s' := RemovableAll(s, Vars(chain), |chain|);
            Minimizing(s', pos, c) && Grows(u0, s', pos, pos[Var(lit)] + 1) && Safe(s', lit)
  {
    hide Minimizing, Grows, Chain, Justified;
    StoppedParts(u0, s, pos, c, chain, lit, true);
    ChainKeeps(s, pos, c, chain, pos[Var(lit)] + 1);
    GrowsTrans(u0, s, RemovableAll(s, Vars(chain), |chain|), pos, pos[Var(lit)] + 1,
               pos[Var(lit)] + 1, pos[Var(lit)] + 1);
  }

  lemma StoppedPoisoned(u0: Solver, s: Solver, pos: seq<nat>, c: seq<Lit>, chain: seq<Lit>, lit: Lit)
    requires Stopped(u0, s, pos, c, chain, lit, false)
    ensures forall i :: 0 <= i < |Vars(chain)| ==> Vars(chain)[i] < |s.assignments|
    ensures var s' := PoisonedAll(s, Vars(chain), |chain|);
            Minimizing(s', pos, c) && Grows(u0, s', pos, pos[Var(lit)] + 1)
  {
    hide Minimizing, Grows, Justified, Chain;
    StoppedParts(u0, s, pos, c, chain, lit, false);
    ChainVars(s, pos, chain);
    PoisonedAllKeeps(s, pos, c, Vars(chain), |chain|, pos[Var(lit)] + 1);
    GrowsTrans(u0, s, PoisonedAll(s, Vars(chain), |chain|), pos, pos[Var(lit)] + 1,
               pos[Var(lit)] + 1, pos[Var(lit)] + 1);
  }

  lemma DropStack(s0: Solver, u0: Solver, s: Solver, pos: seq<nat>, c: seq<Lit>, bound: int, lit: Lit)
    requires u0 == s0.(minimize := u0.minimize) && |s0.minimize| <= |u0.minimize|
    requires u0.minimize[..|s0.minimize|] == s0.minimize
    requires Minimizing(s, pos, c) && Grows(u0, s, pos, bound)
    ensures |s0.minimize| <= |s.minimize|
    ensures var s' := s.(minimize := s.minimize[..|s0.minimize|]);
            Minimizing(s', pos, c) && Grows(s0, s', pos, bound) && (Safe(s, lit) ==> Safe(s', lit))
  {
    StackSame(s, s.(minimize := s.minimize[..|s0.minimize|]), pos, c);
  }

  lemma ChainVars(s: Solver, pos: seq<nat>, chain: seq<Lit>)
    requires Chain(s, pos, chain)
    ensures forall i :: 0 <= i < |Vars(chain)| ==> Vars(chain)[i] < |s.assignments|
  {
    forall i | 0 <= i < |chain| ensures Vars(chain)[i] < |s.assignments| {
      assert Unflagged(s, chain[i]);
    }
  }

  lemma ChainUnflagged(s: Solver, pos: seq<nat>, chain: seq<Lit>, k: nat)
    requires Chain(s, pos, chain) && k < |chain| && forall i :: 0 <= i < |chain| ==> Vars(chain)[i] < |s.assignments|
    ensures !RemovableAll(s, Vars(chain), k).assignments[Vars(chain)[k]].removable
    ensures RemovableAll(s, Vars(chain), k).minimize == s.minimize
  {
    RemovableAllFlags(s, Vars(chain), k);
    assert Unflagged(s, chain[k]);
    forall j | 0 <= j < k ensures Vars(chain)[..k][j] != Vars(chain)[k] {
      assert pos[Var(chain[j])] > pos[Var(chain[k])];
    }
  }

  lemma ChainUnpoisoned(s: Solver, pos: seq<nat>, c: seq<Lit>, chain: seq<Lit>, k: nat)
    requires Chain(s, pos, chain) && k < |chain| && forall i :: 0 <= i < |chain| ==> Vars(chain)[i] < |s.assignments|
    requires Minimizing(s, pos, c)
    ensures !PoisonedAll(s, Vars(chain), k).assignments[Vars(chain)[k]].poisoned
    ensures PoisonedAll(s, Vars(chain), k).minimize == s.minimize
  {
    PoisonedAllSame(s, Vars(chain), k);
    assert Unflagged(s, chain[k]);
    forall j | 0 <= j < k ensures Vars(chain)[..k][j] != Vars(chain)[k] {
      assert pos[Var(chain[j])] > pos[Var(chain[k])];
    }
  }

  /** All literals of the chain stand or fall with the literal it leads to. */
  ghost predicate Together(s: Solver, pos: seq<nat>, c: seq<Lit>, chain: seq<Lit>, lit: Lit, next: Lit) {
    && (forall k :: 0 <= k < |chain| ==> (Redundant(Static(s), pos, c, chain[k]) <==> Gone(Static(s), pos, c, next)))
    && (Gone(Static(s), pos, c, lit) <==> Gone(Static(s), pos, c, next))
  }

  lemma TogetherNext(s: Solver, s': Solver, pos: seq<nat>, c: seq<Lit>, chain: seq<Lit>, lit: Lit, next: Lit)
    requires Exact(s, pos, c) && Minimizing(s, pos, c) && Unflagged(s, next) && Removable0(Static(s), next)
    requires Together(s, pos, c, chain, lit, next) && s' == s.(minimize := s'.minimize)
    ensures Static(s') == Static(s) && Exact(s', pos, c) && Minimizing(s', pos, c)
    ensures Gone(Static(s), pos, c, next) <==> Redundant(Static(s), pos, c, next)
    ensures var r := s.assignments[Var(next)].reason;
            r.Binary? ==> Together(s', pos, c, chain + [next], lit, r.other)
  {
    StaticFacts(s, pos);
    StackSame(s, s', pos, c);
    ExactSame(s, s', pos, c);
    assert ExactAt(s, pos, c, next);
    hide Trail;
    TrailStatic(s, pos, c);
    RedundantReason(Static(s), pos, c, next);
    hide Redundant, Exact, Gone;
    var chain' := chain + [next];
    assert Gone(Static(s), pos, c, next) <==> Redundant(Static(s), pos, c, next) by { NotGone(s, pos, c, next); }
  }

  lemma TrailStatic(s: Solver, pos: seq<nat>, c: seq<Lit>)
    requires Minimizing(s, pos, c)
    ensures Trail(Static(s), pos) && Opposite(s.values)
  {
    StaticFacts(s, pos);
  }

  lemma NotGone(s: Solver, pos: seq<nat>, c: seq<Lit>, l: Lit)
    requires Exact(s, pos, c) && Unflagged(s, l)
    ensures Gone(Static(s), pos, c, l) <==> Redundant(Static(s), pos, c, l)
  {
    StaticFacts(s, pos);
    assert ExactAt(s, pos, c, l);
  }

  lemma TogetherStart(s: Solver, pos: seq<nat>, c: seq<Lit>, lit: Lit)
    ensures Together(s, pos, c, [], lit, lit)
  {
  }

  /** The walk has ended: the literals of the chain are redundant, or they are not. */
  ghost predicate Ended(u0: Solver, s: Solver, pos: seq<nat>, c: seq<Lit>, chain: seq<Lit>, lit: Lit, res: bool) {
    && Found(u0, s, pos, c, Gone(Static(s), pos, c, lit), res)
    && forall k :: 0 <= k < |chain| ==> Judged(s, pos, Redundant(Static(s), pos, c, chain[k]), res)
  }

  lemma ChainStops(s: Solver, pos: seq<nat>, c: seq<Lit>, chain: seq<Lit>, lit: Lit, next: Lit, res: bool)
    requires Exact(s, pos, c) && Together(s, pos, c, chain, lit, next)
    requires if res then Verdict(s, pos, c, next, 1) else Judged(s, pos, Verdict(s, pos, c, next, 1), false)
    ensures Ended(s, s, pos, c, chain, lit, res)
  {
    hide Redundant, Exact;
  }

  /** The literal that ends the chain is not gone unless it is redundant, and neither are the others. */
  ghost predicate Pending(s: Solver, pos: seq<nat>, c: seq<Lit>, chain: seq<Lit>, lit: Lit, next: Lit) {
    && Removable0(Static(s), next)
    && (Gone(Static(s), pos, c, lit) <==> Redundant(Static(s), pos, c, next))
    && forall k :: 0 <= k < |chain| ==>
         (Redundant(Static(s), pos, c, chain[k]) <==> Redundant(Static(s), pos, c, next))
  }

  lemma ChainNext(s: Solver, s': Solver, pos: seq<nat>, c: seq<Lit>, chain: seq<Lit>, lit: Lit, next: Lit, depth: nat)
    requires Exact(s, pos, c) && Minimizing(s, pos, c) && Unflagged(s, next) && Removable0(Static(s), next)
    requires Together(s, pos, c, chain, lit, next) && s' == s.(minimize := s'.minimize) && Room(s, pos, next, depth + 1)
    ensures Exact(s', pos, c) && Pending(s', pos, c, chain + [next], lit, next) && Room(s', pos, next, depth + 1)
    ensures var r := s.assignments[Var(next)].reason;
            r.Binary? ==> Together(s', pos, c, chain + [next], lit, r.other) && Room(s', pos, r.other, depth + 1)
  {
    TogetherNext(s, s', pos, c, chain, lit, next);
    RoomBinary(s, pos, c, next, depth + 1);
    hide Redundant, Exact, Minimizing, Static;
    if s.assignments[Var(next)].reason.Binary? {
      RoomSame(s, s', pos, s.assignments[Var(next)].reason.other, depth + 1);
    }
  }

  lemma RoomSame(s: Solver, s': Solver, pos: seq<nat>, l: Lit, depth: nat)
    requires Room(s, pos, l, depth) && s'.minimizedepth == s.minimizedepth
    ensures Room(s', pos, l, depth)
  {
  }

  lemma RoomLess(s: Solver, pos: seq<nat>, l: Lit, depth: nat, depth': nat)
    requires depth' <= depth
    ensures Room(s, pos, l, depth) ==> Room(s, pos, l, depth')
  {
  }

  lemma ChainEnds(u0: Solver, s: Solver, pos: seq<nat>, c: seq<Lit>, chain: seq<Lit>, lit: Lit, next: Lit, ref: nat,
                  res: bool)
    requires Pending(u0, pos, c, chain, lit, next) && Minimizing(s, pos, c) && False(s, next)
    requires s.assignments[Var(next)].reason == Large(ref) && ref < |s.clauses|
    requires Found(u0, s, pos, c, AllGone(Static(s), pos, c, s.clauses[ref], next), res)
    ensures Ended(u0, s, pos, c, chain, lit, res)
  {
    StaticFacts(s, pos);
    TrailStatic(s, pos, c);
    RedundantReason(Static(s), pos, c, next);
    assert ReasonClause(Static(s), next) == s.clauses[ref];
    hide Redundant, Exact, Minimizing, AllGone, Gone;
  }

  /** The chain has been flagged and dropped from the stack. */
  lemma BinaryFound(s0: Solver, u0: Solver, s3: Solver, s: Solver, pos: seq<nat>, c: seq<Lit>, chain: seq<Lit>,
                    lit: Lit, res: bool, n: nat)
    requires u0 == s0.(minimize := u0.minimize) && Ended(u0, s3, pos, c, chain, lit, res)
    requires Chain(s3, pos, chain) && Minimizing(s3, pos, c) && n <= |s.minimize|
    requires forall i :: 0 <= i < |Vars(chain)| ==> Vars(chain)[i] < |s3.assignments|
    requires s == if res then RemovableAll(s3, Vars(chain), |chain|) else PoisonedAll(s3, Vars(chain), |chain|)
    ensures var s' := s.(minimize := s.minimize[..n]); Found(s0, s', pos, c, Gone(Static(s'), pos, c, lit), res)
    ensures Near(s0, c, lit) <==> Near(s.(minimize := s.minimize[..n]), c, lit)
  {
    hide Redundant, Exact, Chain, Gone, RemovableAll, PoisonedAll, Opposite;
    var s' := s.(minimize := s.minimize[..n]);
    FoundParts(u0, s3, pos, c, Gone(Static(s3), pos, c, lit), res);
    StaticSame(s0, u0);
    TrailStatic(s3, pos, c);
    FlagAllExact(s3, pos, c, chain, |chain|, res);
    ExactSame(s, s', pos, c);
    StaticFacts(s0, pos);
    StaticFacts(s', pos);
    assert s3.minimizedepth == Static(s3).minimizedepth && s'.minimizedepth == Static(s').minimizedepth;
  }

  // ------------------------------------------------------------------ one literal

  lemma RoomBelow(s0: Solver, s: Solver, pos: seq<nat>, lit: Lit, other: Lit, depth: nat, depth': nat)
    requires Var(lit) < |pos| && Var(other) < |pos| && pos[Var(other)] < pos[Var(lit)] && depth' <= depth + 1
    requires Grows(s0, s, pos, pos[Var(lit)])
    ensures Room(s0, pos, lit, depth) ==> Room(s, pos, other, depth')
  {
  }

  lemma RoomBinary(s: Solver, pos: seq<nat>, c: seq<Lit>, lit: Lit, depth: nat)
    requires Minimizing(s, pos, c) && False(s, lit)
    ensures var r := s.assignments[Var(lit)].reason;
            r.Binary? && Room(s, pos, lit, depth) ==> Room(s, pos, r.other, depth + 1) && Room(s, pos, r.other, depth)
  {
    assert ReasonOK(s, pos, lit);
  }

  lemma NoRoom(s: Solver, pos: seq<nat>, c: seq<Lit>, lit: Lit, depth: nat)
    requires Exact(s, pos, c) && Room(s, pos, lit, depth) && depth >= s.minimizedepth
    ensures Found(s, s, pos, c, Verdict(s, pos, c, lit, depth), false)
  {
  }

  lemma ClauseFlagged(s: Solver, pos: seq<nat>, c: seq<Lit>, lit: Lit)
    requires Exact(s, pos, c) && False(s, lit)
    ensures lit in c ==> s.assignments[Var(lit)].removable && !s.assignments[Var(lit)].poisoned
    ensures Near(s, c, lit) ==> s.assignments[Var(lit)].level == 0 || s.assignments[Var(lit)].removable
  {
    assert ExactAt(s, pos, c, lit);
  }

  lemma FoundNow(s: Solver, pos: seq<nat>, c: seq<Lit>, fact: bool, res: bool)
    requires Exact(s, pos, c) && if res then fact else Judged(s, pos, fact, false)
    ensures Found(s, s, pos, c, fact, res)
  {
  }

  lemma DirectFacts(s: Solver, pos: seq<nat>, c: seq<Lit>, lit: Lit)
    requires Minimizing(s, pos, c) && False(s, lit)
    ensures var a := s.assignments[Var(lit)];
            Direct(s, c, lit) ==>
              && 0 < a.level < |s.used| && s.used[a.level] > 1 && a.reason != Decision
              && (a.reason.Binary? ==> Near(s, c, a.reason.other))
              && (a.reason.Large? ==> a.reason.ref < |s.clauses| && AllNear(s, c, s.clauses[a.reason.ref], lit))
  {
    if Direct(s, c, lit) && s.assignments[Var(lit)].reason.Binary? {
      assert ReasonOK(s, pos, lit);
      SameVar(lit, Neg(lit));
      assert s.assignments[Var(lit)].reason.other in ReasonClause(s, lit);
    }
  }

  /** The reason has been tried: the literal is redundant, or it is not. */
  lemma LiteralFound(s0: Solver, s: Solver, pos: seq<nat>, c: seq<Lit>, lit: Lit, depth: nat, res: bool)
    requires False(s, lit) && Minimizing(s, pos, c) && Removable0(Static(s0), lit) && (depth > 0 ==> lit !in c)
    requires var r := s.assignments[Var(lit)].reason;
             if r.Binary? then Found(s0, s, pos, c, Gone(Static(s), pos, c, r.other), res)
             else r.Large? && r.ref < |s.clauses| &&
                  Found(s0, s, pos, c, AllGone(Static(s), pos, c, s.clauses[r.ref], lit), res)
    ensures Found(s0, s, pos, c, Redundant(Static(s), pos, c, lit), res)
    ensures Found(s0, s, pos, c, Verdict(s, pos, c, lit, depth), res)
  {
    StaticFacts(s, pos);
    TrailStatic(s, pos, c);
    RedundantReason(Static(s), pos, c, lit);
    var r := s.assignments[Var(lit)].reason;
    if r.Large? {
      assert ReasonClause(Static(s), lit) == s.clauses[r.ref];
    }
    hide Redundant, Exact, Minimizing, AllGone, Gone;
  }

  lemma FlagFound(s0: Solver, s1: Solver, s: Solver, pos: seq<nat>, c: seq<Lit>, lit: Lit, depth: nat, res: bool)
    requires Found(s0, s1, pos, c, Redundant(Static(s1), pos, c, lit), res) && False(s1, lit) && Opposite(s1.values)
    requires !s1.assignments[Var(lit)].removable && !s1.assignments[Var(lit)].poisoned && depth > 0 && lit !in c
    requires s1.assignments[Var(lit)].level > 0
    requires s == if res then Removable(s1, Var(lit)) else Poisoned(s1, Var(lit))
    ensures Found(s0, s, pos, c, Verdict(s, pos, c, lit, depth), res)
    ensures Root(s, lit) <==> Root(s1, lit)
  {
    hide Redundant, Exact, Opposite;
    FlagExact(s1, s, pos, c, lit, res);
    StaticFacts(s, pos);
  }

  lemma ReasonFacts(s: Solver, pos: seq<nat>, c: seq<Lit>, lit: Lit)
    requires Minimizing(s, pos, c) && False(s, lit) && s.assignments[Var(lit)].reason.Large?
    ensures var ref := s.assignments[Var(lit)].reason.ref;
            && ref < |s.clauses| && |pos| == |s.assignments|
            && forall o :: o in s.clauses[ref] && o != Neg(lit) ==> False(s, o) && pos[Var(o)] < pos[Var(lit)]
  {
    assert ReasonOK(s, pos, lit);
  }

  lemma RootSafe(s: Solver, l: Lit)
    requires Root(s, l) || Safe(s, l)
    ensures Safe(s, l)
  {
  }

  lemma GrowsFacts(s0: Solver, s: Solver, pos: seq<nat>, bound: int, lit: Lit)
    requires Grows(s0, s, pos, bound) && False(s0, lit)
    ensures False(s, lit) && s.assignments[Var(lit)].reason == s0.assignments[Var(lit)].reason
    ensures s.clauses == s0.clauses
    ensures s.assignments[Var(lit)].level == s0.assignments[Var(lit)].level
  {
  }

  /** After the reason of lit has been tried, lit itself may be flagged. */
  lemma LiteralTried(s0: Solver, s: Solver, pos: seq<nat>, c: seq<Lit>, lit: Lit, res: bool)
    requires False(s0, lit) && |pos| == |s0.assignments| && s0.assignments[Var(lit)].reason != Decision
    requires s0.assignments[Var(lit)].level > 0
    requires ReasonOK(s0, pos, lit) && Minimizing(s, pos, c)
    requires match s0.assignments[Var(lit)].reason
             case Binary(o) => Grows(s0, s, pos, pos[Var(o)] + 1) && (res ==> Safe(s, o))
             case Large(_) => Grows(s0, s, pos, pos[Var(lit)]) && (res ==> Justified(s, lit))
             case Decision => false
             case Unit => false
    ensures Grows(s0, s, pos, pos[Var(lit)]) && Grows(s0, s, pos, pos[Var(lit)] + 1) && False(s, lit)
    ensures s.assignments[Var(lit)] == s0.assignments[Var(lit)] && (res ==> Justified(s, lit))
    ensures res ==> var s' := Removable(s, Var(lit));
              Minimizing(s', pos, c) && Safe(s', lit) && Grows(s0, s', pos, pos[Var(lit)] + 1)
    ensures var s' := Poisoned(s, Var(lit)); Minimizing(s', pos, c) && Grows(s0, s', pos, pos[Var(lit)] + 1)
    ensures res && s.assignments[Var(lit)].removable ==> Safe(s, lit)
  {
    var n := pos[Var(lit)];
    if s0.assignments[Var(lit)].reason.Binary? {
      var o := s0.assignments[Var(lit)].reason.other;
      GrowsRefl(s, pos, 0);
      GrowsTrans(s0, s, s, pos, pos[Var(o)] + 1, 0, n);
    } else {
      GrowsRefl(s, pos, 0);
    }
    GrowsTrans(s0, s, s, pos, n, 0, n + 1);
    GrowsKeeps(s0, s, pos, n);
    if res {
      RemovableKeeps(s, pos, c, lit);
      GrowsTrans(s0, s, Removable(s, Var(lit)), pos, n, n + 1, n + 1);
    }
    PoisonedKeeps(s, pos, c, Var(lit));
    GrowsTrans(s0, s, Poisoned(s, Var(lit)), pos, n, n + 1, n + 1);
  }

  // ------------------------------------------------------------------ a whole clause

  /** Marks a dropped literal. */
  function Compact(c: seq<Lit>): seq<Lit> {
    if c == [] then []
    else Compact(c[..|c| - 1]) + if c[|c| - 1] == INVALID_LIT then [] else [c[|c| - 1]]
  }

  /** The literals are false, of different variables, and no literal has the value of the mark. */
  ghost predicate Falsified(s: Solver, c: seq<Lit>) {
    && |s.values| <= INVALID_LIT
    && (forall i :: 0 <= i < |c| ==> False(s, c[i]))
    && DistinctVars(c)
  }

  /** The literals c[..k], and no others, are flagged as removable. */
  ghost predicate Flagging(s: Solver, c: seq<Lit>, k: nat) {
    && k <= |c|
    && forall v: nat ::
         v < |s.assignments| ==> (s.assignments[v].removable <==> exists i :: 0 <= i < k && Var(c[i]) == v)
  }

  /** The literals from position p on have been tried: dropped ones are justified. */
  ghost predicate Tried(s: Solver, c: seq<Lit>, p: nat) {
    && |s.clause| == |c|
    && (forall i :: 0 <= i < |c| ==> Safe(s, c[i]) && c[i] != INVALID_LIT)
    && (forall i :: 0 <= i < p && i < |c| ==> s.clause[i] == c[i])
    && (forall i :: p <= i < |c| ==>
          s.clause[i] == c[i] || (s.clause[i] == INVALID_LIT && (Root(s, c[i]) || Justified(s, c[i]))))
  }

  lemma FlaggingNext(s: Solver, c: seq<Lit>, k: nat)
    requires Falsified(s, c) && Flagging(s, c, k) && k < |c|
    ensures !s.assignments[Var(c[k])].removable && Flagging(Removable(s, Var(c[k])), c, k + 1)
  {
    assert False(s, c[k]);
    var s' := Removable(s, Var(c[k]));
    forall v: nat | v < |s'.assignments|
      ensures s'.assignments[v].removable <==> exists i :: 0 <= i < k + 1 && Var(c[i]) == v
    {
      if s'.assignments[v].removable && v != Var(c[k]) {
        var i :| 0 <= i < k && Var(c[i]) == v;
      }
    }
  }

  /** Once the whole clause is flagged, the search for removable literals may start. */
  lemma FlaggingDone(s0: Solver, s: Solver, pos: seq<nat>, c: seq<Lit>)
    requires Trail(s0, pos) && PoisonedOK(s0) && Falsified(s0, c) && Flagging(s, c, |c|) && s0.clause == c
    requires s == s0.(assignments := s.assignments, removable := s.removable) && |s.assignments| == |s0.assignments|
    requires forall v :: 0 <= v < |s.assignments| ==>
                         s.assignments[v] == s0.assignments[v].(removable := s.assignments[v].removable)
    ensures Minimizing(s, pos, c) && Tried(s, c, |c|)
  {
    TrailSame(s0, s, pos);
    assert Opposite(s.values);
    FlaggedOnly(s0, s, pos, c);
    forall i | 0 <= i < |c| ensures Safe(s, c[i]) && c[i] != INVALID_LIT {
      assert False(s0, c[i]);
    }
  }

  lemma TrailSame(s0: Solver, s: Solver, pos: seq<nat>)
    requires Trail(s0, pos)
    requires s == s0.(assignments := s.assignments, removable := s.removable) && |s.assignments| == |s0.assignments|
    requires forall v :: 0 <= v < |s.assignments| ==>
                         s.assignments[v] == s0.assignments[v].(removable := s.assignments[v].removable)
    ensures Trail(s, pos)
  {
    forall l: nat | False(s, l)
      ensures ReasonOK(s, pos, l) && s.assignments[Var(l)].level < |s.used|
      ensures s.assignments[Var(l)].level > 0 ==> s.assignments[Var(l)].reason != Unit
    {
      assert False(s0, l) && ReasonOK(s0, pos, l);
    }
  }

  lemma FlaggedOnly(s0: Solver, s: Solver, pos: seq<nat>, c: seq<Lit>)
    requires Opposite(s.values) && Falsified(s0, c) && Flagging(s, c, |c|) && s.values == s0.values
    requires |s.assignments| == |s0.assignments|
    ensures Flags(s, c)
  {
    forall l: nat | False(s, l) && s.assignments[Var(l)].removable ensures l in c {
      var i :| 0 <= i < |c| && Var(c[i]) == Var(l);
      assert False(s0, c[i]);
      OneFalse(s, pos, l, c[i]);
    }
  }

  lemma TriedNext(s: Solver, s': Solver, pos: seq<nat>, c: seq<Lit>, p: nat, bound: int, drop: bool)
    requires Tried(s, c, p + 1) && p < |c| && Grows(s, s', pos, bound) && Minimizing(s', pos, c)
    requires drop ==> Root(s', c[p]) || Justified(s', c[p])
    ensures |s'.clause| == |c|
    ensures var t := if drop then s'.(clause := s'.clause[p := INVALID_LIT]) else s';
            Tried(t, c, p) && Minimizing(t, pos, c)
  {
    GrowsKeeps(s, s', pos, bound);
    var t := if drop then s'.(clause := s'.clause[p := INVALID_LIT]) else s';
    ClauseSame(s', t, pos, c);
  }

  lemma ClauseSame(s: Solver, s': Solver, pos: seq<nat>, c: seq<Lit>)
    requires s' == s.(clause := s'.clause)
    ensures Minimizing(s, pos, c) ==> Minimizing(s', pos, c)
    ensures forall l: nat :: False(s', l) <==> False(s, l)
    ensures forall l: nat :: Root(s', l) <==> Root(s, l)
    ensures forall l: nat :: Safe(s', l) <==> Safe(s, l)
    ensures forall l: nat :: Justified(s', l) <==> Justified(s, l)
  {
    forall l: nat | False(s', l) && Trail(s, pos)
      ensures ReasonOK(s', pos, l) && s'.assignments[Var(l)].level < |s'.used|
      ensures s'.assignments[Var(l)].level > 0 ==> s'.assignments[Var(l)].reason != Unit
    {
      assert False(s, l) && ReasonOK(s, pos, l);
    }
    forall l: nat | Justified(s, l) ensures Justified(s', l) {
    }
  }

  /** What minimization may change: flags are only set. */
  ghost predicate SameButFlags(s0: Solver, s: Solver) {
    && s == s0.(assignments := s.assignments, clause := s.clause, removable := s.removable, poisoned := s.poisoned)
    && |s.assignments| == |s0.assignments|
    && forall v :: 0 <= v < |s.assignments| ==>
         s.assignments[v].level == s0.assignments[v].level && s.assignments[v].reason == s0.assignments[v].reason
  }

  /** The kept literals form a clause that follows from the formula if the whole clause does. */
  lemma TriedEntailed(s0: Solver, s: Solver, pos: seq<nat>, f: Clauses, c: seq<Lit>)
    requires Minimizing(s, pos, c) && Tried(s, c, 1) && SameButFlags(s0, s) && Implied(s0, f) && Entails(f, c)
    ensures Entails(f, Compact(s.clause))
  {
    forall l: nat | False(s, l)
      ensures Entails(f, if s.assignments[Var(l)].level == 0 then [Neg(l)] else ReasonClause(s, l))
    {
      assert False(s0, l);
    }
    forall o | o in c ensures Safe(s, o) && (o in Compact(s.clause) || Justified(s, o) || Root(s, o)) {
      var i :| 0 <= i < |c| && c[i] == o;
      assert Safe(s, c[i]);
      if s.clause[i] == c[i] {
        CompactKeeps(s.clause, i);
      }
    }
    MinimizedEntailed(s, pos, f, c, Compact(s.clause));
  }

  lemma {:induction false} CompactKeeps(c: seq<Lit>, i: nat)
    requires i < |c| && c[i] != INVALID_LIT
    ensures c[i] in Compact(c)
  {
    if i < |c| - 1 {
      CompactKeeps(c[..|c| - 1], i);
    }
  }

  lemma {:induction false} CompactDistinct(d: seq<Lit>, c: seq<Lit>)
    requires DistinctVars(c) && |d| == |c| && forall i :: 0 <= i < |c| ==> d[i] == c[i] || d[i] == INVALID_LIT
    ensures DistinctVars(Compact(d)) && forall l :: l in Compact(d) ==> l in c
  {
    if d != [] {
      var n := |d| - 1;
      CompactDistinct(d[..n], c[..n]);
      assert c == c[..n] + [c[n]];
      var e := Compact(d[..n]);
      forall i | 0 <= i < |e| ensures Var(e[i]) != Var(c[n]) {
        assert e[i] in e && e[i] in c[..n];
        var j :| 0 <= j < n && c[..n][j] == e[i];
        assert c[j] == e[i];
      }
    }
  }

  lemma {:induction false} CompactOnly(c: seq<Lit>)
    ensures |Compact(c)| <= |c| && forall l :: l in Compact(c) ==> l in c && l != INVALID_LIT
    ensures c != [] && c[0] != INVALID_LIT ==> Compact(c) != [] && Compact(c)[0] == c[0]
  {
    if c != [] {
      CompactOnly(c[..|c| - 1]);
    }
  }

  // ------------------------------------------------------------------ what remains

  /** What is redundant depends on the trail, not on flags. */
  lemma {:induction false} RedundantStatic(s: Solver, pos: seq<nat>, c: seq<Lit>, l: Lit)
    ensures Redundant(Static(s), pos, c, l) <==> Redundant(s, pos, c, l)
    decreases if Var(l) < |pos| then pos[Var(l)] else 0
  {
    StaticFacts(s, pos);
    if |pos| == |s.assignments| && Removable0(s, l) && HasClause(s, l) {
      forall o | o in ReasonClause(s, l) && o != Neg(l) && False(s, o) && pos[Var(o)] < pos[Var(l)]
        ensures Redundant(Static(s), pos, c, o) <==> Redundant(s, pos, c, o) {
        RedundantStatic(s, pos, c, o);
      }
    }
  }

  /** The first k literals without those behind the first that are false at the root level or redundant. */
  ghost function Remaining(s: Solver, pos: seq<nat>, c: seq<Lit>, k: nat): seq<Lit>
    requires k <= |c|
  {
    if k == 0 then []
    else
      Remaining(s, pos, c, k - 1) +
      if k > 1 && (Root(s, c[k - 1]) || Redundant(s, pos, c, c[k - 1])) then [] else [c[k - 1]]
  }

  /**
    Only literals that are false at the root level or redundant are dropped, all of them if the depth is no limit, and
    those with reasons within the clause in any case.
   */
  ghost predicate Minimal(s0: Solver, s: Solver, pos: seq<nat>) {
    var c := s0.clause;
    && (forall i :: 0 < i < |c| && c[i] !in s.clause ==> Root(s0, c[i]) || Redundant(s0, pos, c, c[i]))
    && (1 < s0.minimizedepth ==>
          forall i :: 0 < i < |c| && (Root(s0, c[i]) || Direct(s0, c, c[i])) ==> c[i] !in s.clause)
    && (Deep(s0, pos) ==> s.clause == Remaining(s0, pos, c, |c|))
  }

  /** The literals from position p on have been dropped exactly as they should be. */
  ghost predicate TriedExact(s: Solver, pos: seq<nat>, c: seq<Lit>, p: nat) {
    |s.clause| == |c| && forall i :: p <= i < |c| ==> DroppedAt(s, pos, c, i)
  }

  ghost predicate DroppedAt(s: Solver, pos: seq<nat>, c: seq<Lit>, i: nat)
    requires i < |s.clause| == |c|
  {
    && Judged(s, pos, Verdict(s, pos, c, c[i], 0), s.clause[i] == INVALID_LIT)
    && (1 < s.minimizedepth && (Root(s, c[i]) || Direct(s, c, c[i])) ==> s.clause[i] == INVALID_LIT)
  }

  lemma DirectStatic(s: Solver, c: seq<Lit>, l: Lit)
    ensures Direct(Static(s), c, l) <==> Direct(s, c, l)
  {
    StaticFacts(s, []);
  }

  /** Once the whole clause is flagged, the flags are right. */
  lemma ExactStart(s: Solver, pos: seq<nat>, c: seq<Lit>)
    requires Falsified(s, c) && Flagging(s, c, |c|) && Opposite(s.values)
    requires forall v :: 0 <= v < |s.assignments| ==> !s.assignments[v].poisoned
    ensures Exact(s, pos, c)
  {
    hide Redundant, Opposite, Static;
    forall l: nat | False(s, l) ensures ExactAt(s, pos, c, l) {
      if l in c {
        var i :| 0 <= i < |c| && c[i] == l;
      }
      if s.assignments[Var(l)].removable {
        var i :| 0 <= i < |c| && Var(c[i]) == Var(l);
        assert False(s, c[i]);
        OneFalse(s, pos, l, c[i]);
      }
    }
  }

  lemma TriedExactNext(s: Solver, s': Solver, pos: seq<nat>, c: seq<Lit>, p: nat, drop: bool)
    requires TriedExact(s, pos, c, p + 1) && p < |c| && s'.clause == s.clause && s.clause[p] != INVALID_LIT
    requires Found(s, s', pos, c, Verdict(s', pos, c, c[p], 0), drop)
    requires 1 < s'.minimizedepth && (Root(s', c[p]) || Direct(s', c, c[p])) ==> drop
    ensures var t := if drop then s'.(clause := s'.clause[p := INVALID_LIT]) else s';
            TriedExact(t, pos, c, p) && Exact(t, pos, c) && Static(t) == Static(s)
  {
    var t := if drop then s'.(clause := s'.clause[p := INVALID_LIT]) else s';
    FoundParts(s, s', pos, c, Verdict(s', pos, c, c[p], 0), drop);
    ExactSame(s', t, pos, c);
    forall i | p <= i < |c| ensures DroppedAt(t, pos, c, i) {
      if i > p {
        assert DroppedAt(s, pos, c, i);
        DirectStatic(s, c, c[i]);
      }
      DirectStatic(s', c, c[p]);
      DirectStatic(t, c, c[i]);
      StaticFacts(s, pos);
      StaticFacts(t, pos);
      StaticFacts(s', pos);
      assert t.minimizedepth == Static(t).minimizedepth && s.minimizedepth == Static(s).minimizedepth;
    }
  }

  lemma {:induction false} CompactRemaining(s: Solver, pos: seq<nat>, d: seq<Lit>, c: seq<Lit>, k: nat)
    requires |d| == |c| && k <= |c| && (forall i :: 0 <= i < |c| ==> c[i] != INVALID_LIT)
    requires forall i :: 0 < i < |c| ==> (d[i] == INVALID_LIT <==> Root(s, c[i]) || Redundant(s, pos, c, c[i]))
    requires forall i :: 0 <= i < |c| ==> d[i] == c[i] || d[i] == INVALID_LIT
    requires c != [] ==> d[0] == c[0]
    ensures Compact(d[..k]) == Remaining(s, pos, c, k)
  {
    if k > 0 {
      CompactRemaining(s, pos, d, c, k - 1);
      assert d[..k][..k - 1] == d[..k - 1];
    }
  }

  /** The compacted clause is what should remain. */
  lemma MinimalEnd(s0: Solver, s: Solver, s': Solver, pos: seq<nat>, c: seq<Lit>)
    requires s0.clause == c != [] && Static(s) == Static(s0) && TriedExact(s, pos, c, 1) && Tried(s, c, 1)
    requires DistinctVars(c) && s'.clause == Compact(s.clause)
    ensures Minimal(s0, s', pos)
  {
    hide Static, Redundant, Tried, Direct;
    TriedLits(s, c);
    assert s.minimizedepth == Static(s).minimizedepth ==
             s0.minimizedepth by { StaticFacts(s, pos); StaticFacts(s0, pos); }
    CompactOnly(s.clause);
    StaticFacts(s, pos);
    StaticFacts(s0, pos);
    forall i | 0 < i < |c|
      ensures c[i] in s'.clause <==> s.clause[i] == c[i]
      ensures Judged(s0, pos, Root(s0, c[i]) || Redundant(s0, pos, c, c[i]), s.clause[i] == INVALID_LIT)
      ensures 1 < s0.minimizedepth && (Root(s0, c[i]) || Direct(s0, c, c[i])) ==> s.clause[i] == INVALID_LIT
    {
      assert DroppedAt(s, pos, c, i);
      RedundantStatic(s0, pos, c, c[i]);
      DirectStatic(s, c, c[i]);
      DirectStatic(s0, c, c[i]);
      if s.clause[i] == c[i] {
        CompactKeeps(s.clause, i);
      }
      assert s.clause[i] != c[i] ==> forall j :: 0 <= j < |c| ==> s.clause[j] != c[i];
    }
    if Deep(s0, pos) {
      CompactRemaining(s0, pos, s.clause, c, |c|);
      assert s.clause[..|c|] == s.clause;
    }
  }

  lemma MinimalSame(s0: Solver, s: Solver, s': Solver, pos: seq<nat>)
    requires Minimal(s0, s, pos) && s'.clause == s.clause
    ensures Minimal(s0, s', pos)
  {
  }

  lemma TriedLits(s: Solver, c: seq<Lit>)
    requires Tried(s, c, 1) && c != []
    ensures |s.clause| == |c| && s.clause[0] == c[0] && forall i :: 0 <= i < |c| ==> c[i] != INVALID_LIT
    ensures forall i :: 0 <= i < |c| ==> s.clause[i] == c[i] || s.clause[i] == INVALID_LIT
  {
  }

  // ------------------------------------------------------------------ the minimizer

  class Minimizer {
    var s: Solver

    /** Works on the state of a solver. */
    constructor (solver: Solver)
      ensures s == solver
    {
      s := solver;
    }

    method PushRemovable(idx: nat)
      requires idx < |s.assignments| && !s.assignments[idx].removable
      modifies this`s
      ensures s == Removable(old(s), idx)
    {
      s := s.(assignments := s.assignments[idx := s.assignments[idx].(removable := true)]);
      s := s.(removable := s.removable + [idx]);
    }

    method PushPoisoned(idx: nat)
      requires idx < |s.assignments| && !s.assignments[idx].poisoned
      modifies this`s
      ensures s == Poisoned(old(s), idx)
    {
      s := s.(assignments := s.assignments[idx := s.assignments[idx].(poisoned := true)]);
      s := s.(poisoned := s.poisoned + [idx]);
    }

    /** Whether the literal is known to be removable (1), known not to be (-1), or has to be tried. */
    method MinimizedIndex(minimizing: bool, lit: Lit, depth: nat) returns (res: int)
      requires False(s, lit) && s.assignments[Var(lit)].level < |s.used|
      ensures res > 0 ==> Root(s, lit) || (Safe(s, lit) && depth > 0)
      ensures var a := s.assignments[Var(lit)]; res > 0 <==> a.level == 0 || (a.removable && depth > 0)
      ensures var a := s.assignments[Var(lit)];
              res < 0 <==> a.level > 0 && !(a.removable && depth > 0) &&
                           (a.reason == Decision || a.poisoned || ((minimizing || depth == 0) && s.used[a.level] <= 1))
    {
      var a := s.assignments[Var(lit)];
      if a.level == 0 {
        return 1;
      }
      if a.removable && depth > 0 {
        return 1;
      }
      if a.reason == Decision {
        return -1;
      }
      if a.poisoned {
        return -1;
      }
      if minimizing || depth == 0 {
        if s.used[a.level] <= 1 {
          return -1;
        }
      }
      return 0;
    }

    /** Tries to resolve a literal away with the clause that is the reason for its falsity. */
    method MinimizeReference(minimizing: bool, ref: nat, lit: Lit, depth: nat, ghost pos: seq<nat>, ghost c: seq<Lit>)
      returns (res: bool)
      requires Minimizing(s, pos, c) && False(s, lit) && s.assignments[Var(lit)].reason == Large(ref)
      requires minimizing ==> Exact(s, pos, c) && Room(s, pos, lit, depth)
      modifies this`s
      ensures Minimizing(s, pos, c) && Grows(old(s), s, pos, pos[Var(lit)])
      ensures res ==> Justified(s, lit)
      ensures minimizing ==> ref < |s.clauses| &&
                             Found(old(s), s, pos, c, AllGone(Static(s), pos, c, s.clauses[ref], lit), res)
      ensures minimizing && depth + 1 < s.minimizedepth && ref < |s.clauses| && AllNear(s, c, s.clauses[ref], lit) ==>
                res
      decreases pos[Var(lit)], 0
    {
      hide Flags, PoisonedOK, Grows, Safe, Exact, Redundant, Static, Found, Gone, Deep, Verdict, AllGone, Opposite,
           Room;
      var nextDepth := if depth == UINT_MAX then depth else depth + 1;
      ReasonFacts(s, pos, c, lit);
      GrowsRefl(s, pos, pos[Var(lit)]);
      var lits := s.clauses[ref];
      res := true;
      for k := 0 to |lits|
        invariant Minimizing(s, pos, c) && Grows(old(s), s, pos, pos[Var(lit)]) && res
        invariant forall i :: 0 <= i < k ==> lits[i] == Neg(lit) || Safe(s, lits[i])
        invariant minimizing ==>
                    Exact(s, pos, c) && Static(s) == Static(old(s)) && s.minimizedepth == old(s).minimizedepth
        invariant minimizing ==>
                    forall i :: 0 <= i < k && lits[i] != Neg(lit) ==> Gone(Static(old(s)), pos, c, lits[i])
      {
        var other := lits[k];
        if other != Neg(lit) {
          assert lits[k] in lits;
          ghost var s1 := s;
          GrowsKeeps(old(s), s, pos, pos[Var(lit)]);
          RoomBelow(old(s), s, pos, lit, other, depth, nextDepth);
          res := MinimizeLiteral(minimizing, other, nextDepth, pos, c);
          if minimizing {
            ReferenceStep(old(s), s1, s, pos, c, lits, lit, k, nextDepth, res);
          }
          GrowsTrans(old(s), s1, s, pos, pos[Var(lit)], pos[Var(other)] + 1, pos[Var(lit)]);
          GrowsKeeps(s1, s, pos, pos[Var(other)] + 1);
          if !res {
            break;
          }
          RootSafe(s, other);
        }
      }
      GrowsFacts(old(s), s, pos, pos[Var(lit)], lit);
      assert res ==> forall o :: o in lits && o != Neg(lit) ==> Safe(s, o);
      if res && minimizing {
        ReferenceEnd(old(s), s, pos, c, lits, lit);
      }
    }

    /** Flags the variables of a chain as removable. */
    method PushAllRemovable(saved: nat, ghost pos: seq<nat>, ghost chain: seq<Lit>)
      requires saved <= |s.minimize| && s.minimize[saved..] == Vars(chain) && Chain(s, pos, chain)
      modifies this`s
      ensures (forall i :: 0 <= i < |chain| ==> Vars(chain)[i] < |old(s).assignments|)
      ensures s == RemovableAll(old(s), Vars(chain), |chain|)
    {
      hide Chain;
      ChainVars(s, pos, chain);
      for k := saved to |s.minimize|
        invariant s == RemovableAll(old(s), Vars(chain), k - saved) && s.minimize == old(s).minimize
      {
        assert s.minimize[k] == s.minimize[saved..][k - saved];
        ChainUnflagged(old(s), pos, chain, k - saved);
        PushRemovable(s.minimize[k]);
      }
    }

    /** Flags the variables of a chain as poisoned. */
    method PushAllPoisoned(saved: nat, ghost pos: seq<nat>, ghost c: seq<Lit>, ghost chain: seq<Lit>)
      requires saved <= |s.minimize| && s.minimize[saved..] == Vars(chain) && Chain(s, pos, chain)
      requires Minimizing(s, pos, c)
      modifies this`s
      ensures (forall i :: 0 <= i < |chain| ==> Vars(chain)[i] < |old(s).assignments|)
      ensures s == PoisonedAll(old(s), Vars(chain), |chain|)
    {
      hide Chain, Minimizing;
      ChainVars(s, pos, chain);
      for k := saved to |s.minimize|
        invariant s == PoisonedAll(old(s), Vars(chain), k - saved) && s.minimize == old(s).minimize
      {
        assert s.minimize[k] == s.minimize[saved..][k - saved];
        ChainUnpoisoned(old(s), pos, c, chain, k - saved);
        PushPoisoned(s.minimize[k]);
      }
    }

    /** Follows a chain of binary reasons, and flags the whole chain at its end. */
    method MinimizeBinary(minimizing: bool, lit: Lit, depth: nat, ghost pos: seq<nat>, ghost c: seq<Lit>)
      returns (res: bool)
      requires Minimizing(s, pos, c) && False(s, lit)
      requires minimizing ==> Exact(s, pos, c) && Room(s, pos, lit, depth + 1)
      modifies this`s
      ensures Minimizing(s, pos, c) && Grows(old(s), s, pos, pos[Var(lit)] + 1)
      ensures res ==> Safe(s, lit)
      ensures minimizing ==> Found(old(s), s, pos, c, Gone(Static(s), pos, c, lit), res)
      ensures minimizing && Near(s, c, lit) ==> res
      decreases pos[Var(lit)], 2
    {
      hide Minimizing, Grows, Chain, Justified, Walking, Stopped, RemovableAll, PoisonedAll, Exact, Redundant, Static,
           Found, Gone, Deep, Together, Room, Near, Safe;
      var saved := |s.minimize|;
      ghost var chain: seq<Lit>;
      ghost var u0: Solver;
      res, chain, u0 := WalkChain(minimizing, lit, depth, pos, c);
      StoppedParts(u0, s, pos, c, chain, lit, res);
      ghost var s3 := s;
      if res {
        PushAllRemovable(saved, pos, chain);
        StoppedRemovable(u0, s3, pos, c, chain, lit);
      } else {
        PushAllPoisoned(saved, pos, c, chain);
        StoppedPoisoned(u0, s3, pos, c, chain, lit);
      }
      DropStack(old(s), u0, s, pos, c, pos[Var(lit)] + 1, lit);
      if minimizing {
        BinaryFound(old(s), u0, s3, s, pos, c, chain, lit, res, saved);
      }
      s := s.(minimize := s.minimize[..saved]);
    }

    /** Collects a chain of binary reasons on the stack, up to a literal that decides about all of it. */
    method WalkChain(minimizing: bool, lit: Lit, depth: nat, ghost pos: seq<nat>, ghost c: seq<Lit>)
      returns (res: bool, ghost chain: seq<Lit>, ghost u0: Solver)
      requires Minimizing(s, pos, c) && False(s, lit)
      requires minimizing ==> Exact(s, pos, c) && Room(s, pos, lit, depth + 1)
      modifies this`s
      ensures u0 == old(s).(minimize := old(s).minimize + Vars(chain)) && Stopped(u0, s, pos, c, chain, lit, res)
      ensures s.minimize == u0.minimize
      ensures minimizing ==> Ended(u0, s, pos, c, chain, lit, res)
      ensures minimizing && Near(old(s), c, lit) ==> res
      decreases pos[Var(lit)], 1
    {
      hide Minimizing, Grows, Chain, Justified, Walking, Stopped, Exact, Redundant, Static, Found, Gone, Deep, Together,
           Room, Near, AllGone, Ended;
      res, chain, u0 := false, [], s;
      var next := lit;
      WalkStart(s, pos, c, lit);
      TogetherStart(s, pos, c, lit);
      while true
        invariant s == u0 == old(s).(minimize := old(s).minimize + Vars(chain))
        invariant Walking(s, pos, c, chain, lit, next) && Var(next) < |pos| && pos[Var(next)] <= pos[Var(lit)]
        invariant minimizing ==>
                    Exact(s, pos, c) && Together(s, pos, c, chain, lit, next) && Room(s, pos, next, depth + 1)
        invariant chain == [] ==> next == lit && s == old(s)
        invariant minimizing && chain != [] ==> !Near(old(s), c, lit)
        decreases pos[Var(next)]
      {
        WalkFacts(s, pos, c, chain, lit, next);
        if minimizing {
          IndexJudged(s, pos, c, next, 1);
          ClauseFlagged(s, pos, c, next);
        }
        var tmp := MinimizedIndex(minimizing, next, 1);
        if tmp != 0 {
          res := tmp > 0;
          WalkStops(s, pos, c, chain, lit, next, res);
          if minimizing {
            ChainStops(s, pos, c, chain, lit, next, res);
          }
          return;
        }
        if minimizing {
          ChainNext(s, s.(minimize := s.minimize + [Var(next)]), pos, c, chain, lit, next, depth);
        }
        WalkNext(s, pos, c, chain, lit, next);
        var a := s.assignments[Var(next)];
        s := s.(minimize := s.minimize + [Var(next)]);
        chain, u0 := chain + [next], s;
        assert s == old(s).(minimize := old(s).minimize + Vars(chain));
        if !a.reason.Binary? {
          var nextDepth := if depth == UINT_MAX then depth else depth + 1;
          RoomLess(s, pos, next, depth + 1, nextDepth);
          res := MinimizeReference(minimizing, a.reason.ref, next, nextDepth, pos, c);
          WalkEnds(u0, s, pos, c, chain, lit, next, res);
          GrowsFacts(u0, s, pos, pos[Var(next)], next);
          if minimizing {
            ChainEnds(u0, s, pos, c, chain, lit, next, a.reason.ref, res);
          }
          return;
        }
        next := a.reason.other;
      }
    }

    /** Tries to show that a false literal is implied by flagged ones; the outcome is remembered. */
    method MinimizeLiteral(minimizing: bool, lit: Lit, depth: nat, ghost pos: seq<nat>, ghost c: seq<Lit>)
      returns (res: bool)
      requires Minimizing(s, pos, c) && False(s, lit)
      requires minimizing ==> Exact(s, pos, c) && Room(s, pos, lit, depth)
      modifies this`s
      ensures Minimizing(s, pos, c) && Grows(old(s), s, pos, pos[Var(lit)] + 1)
      ensures res ==> Root(s, lit) || if depth > 0 then Safe(s, lit) else Justified(s, lit)
      ensures minimizing ==> Found(old(s), s, pos, c, Verdict(s, pos, c, lit, depth), res)
      ensures minimizing && depth < s.minimizedepth && (Root(s, lit) || (depth > 0 && lit in c)) ==> res
      ensures minimizing && depth == 0 && 1 < s.minimizedepth && lit in c && Direct(s, c, lit) ==> res
      decreases pos[Var(lit)], 2
    {
      hide Flags, PoisonedOK, Grows, Safe, Justified, Exact, Redundant, Static, Found, Deep, Verdict, Opposite, Direct,
           Judged, AllGone, Room;
      GrowsRefl(s, pos, pos[Var(lit)] + 1);
      if depth >= s.minimizedepth {
        if minimizing {
          NoRoom(s, pos, c, lit, depth);
        }
        return false;
      }
      var idx := Var(lit);
      if minimizing {
        IndexJudged(s, pos, c, lit, depth);
        ClauseFlagged(s, pos, c, lit);
      }
      var tmp := MinimizedIndex(minimizing, lit, depth);
      if tmp > 0 {
        if minimizing {
          FoundNow(s, pos, c, Verdict(s, pos, c, lit, depth), true);
        }
        return true;
      }
      if tmp < 0 {
        if minimizing {
          FoundNow(s, pos, c, Verdict(s, pos, c, lit, depth), false);
          DirectFacts(s, pos, c, lit);
        }
        return false;
      }
      assert ReasonOK(s, pos, lit);
      var a := s.assignments[idx];
      RoomBinary(s, pos, c, lit, depth);
      if a.reason.Binary? {
        res := MinimizeBinary(minimizing, a.reason.other, depth, pos, c);
      } else {
        res := MinimizeReference(minimizing, a.reason.ref, lit, depth, pos, c);
      }
      ghost var s1 := s;
      LiteralTried(old(s), s, pos, c, lit, res);
      if minimizing {
        LiteralFound(old(s), s, pos, c, lit, depth, res);
        DirectFacts(s, pos, c, lit);
      }
      if depth == 0 {
        return;
      }
      if !res {
        PushPoisoned(idx);
      } else if !s.assignments[idx].removable {
        PushRemovable(idx);
      }
      if minimizing {
        FlagFound(old(s), s1, s, pos, c, lit, depth, res);
      }
    }

    method ResetPoisoned()
      requires PoisonedOK(s)
      modifies this`s
      ensures s == old(s).(assignments := s.assignments, poisoned := []) && |s.assignments| == |old(s).assignments|
      ensures forall v :: 0 <= v < |s.assignments| ==> s.assignments[v] == old(s).assignments[v].(poisoned := false)
    {
      for k := 0 to |s.poisoned|
        invariant s == old(s).(assignments := s.assignments) && |s.assignments| == |old(s).assignments|
        invariant forall v :: 0 <= v < |s.assignments| ==>
                    s.assignments[v] == old(s).assignments[v].(poisoned := s.assignments[v].poisoned)
        invariant forall v: nat :: v < |s.assignments| && s.assignments[v].poisoned ==> v in s.poisoned[k..]
      {
        var idx := s.poisoned[k];
        s := s.(assignments := s.assignments[idx := s.assignments[idx].(poisoned := false)]);
      }
      s := s.(poisoned := []);
    }

    method FlagClause(ghost pos: seq<nat>)
      requires Trail(s, pos) && PoisonedOK(s) && Falsified(s, s.clause)
      requires forall v :: 0 <= v < |s.assignments| ==> !s.assignments[v].removable
      modifies this`s
      ensures SameButFlags(old(s), s) && s.clause == old(s).clause && Minimizing(s, pos, s.clause)
      ensures Tried(s, s.clause, |s.clause|) && Flagging(s, s.clause, |s.clause|)
      ensures s.poisoned == old(s).poisoned && |s.assignments| == |old(s).assignments|
      ensures forall v :: 0 <= v < |s.assignments| ==> s.assignments[v].poisoned == old(s).assignments[v].poisoned
    {
      ghost var c := s.clause;
      for k := 0 to |s.clause|
        invariant s == old(s).(assignments := s.assignments, removable := s.removable)
        invariant |s.assignments| == |old(s).assignments|
        invariant Flagging(s, c, k)
        invariant forall v :: 0 <= v < |s.assignments| ==>
                    s.assignments[v] == old(s).assignments[v].(removable := s.assignments[v].removable)
      {
        assert False(old(s), c[k]);
        FalsifiedSame(old(s), s, c);
        FlaggingNext(s, c, k);
        PushRemovable(Var(s.clause[k]));
      }
      FlaggingDone(old(s), s, pos, c);
    }

    /** Moves the literals that were not dropped to the front. */
    method CompactClause()
      modifies this`s
      ensures s == old(s).(clause := Compact(old(s).clause))
    {
      var q: nat, p: nat := 0, 0;
      ghost var c := s.clause;
      while p != |s.clause|
        invariant s == old(s).(clause := s.clause) && q <= p <= |c| == |s.clause|
        invariant s.clause[..q] == Compact(c[..p]) && s.clause[p..] == c[p..]
        decreases |c| - p
      {
        var lit := s.clause[p];
        assert lit == c[p] by {
          assert s.clause[p..][0] == c[p..][0];
        }
        assert c[..p + 1] == c[..p] + [c[p]] && c[..p + 1][..p] == c[..p];
        assert c[p + 1..] == c[p..][1..] && s.clause[p + 1..] == s.clause[p..][1..];
        p := p + 1;
        if lit != INVALID_LIT {
          ghost var front, back := s.clause[..q], s.clause[p..];
          s := s.(clause := s.clause[q := lit]);
          q := q + 1;
          assert s.clause[..q] == front + [lit] && s.clause[p..] == back;
        }
      }
      assert c[..p] == c;
      s := s.(clause := s.clause[..q]);
    }

    /**
      Drops the literals of the learned clause that the others imply: the rest still follows from every
      formula that implies the clause, the reasons and the root-level literals.
     */
    method MinimizeClause(shrink: nat, ghost pos: seq<nat>)
      requires Trail(s, pos) && PoisonedOK(s) && s.clause != [] && Falsified(s, s.clause)
      requires forall v :: 0 <= v < |s.assignments| ==> !s.assignments[v].removable && !s.assignments[v].poisoned
      requires s.poisoned == []
      modifies this`s
      ensures SameButFlags(old(s), s)
      ensures s.clause != [] && s.clause[0] == old(s).clause[0] && forall l :: l in s.clause ==> l in old(s).clause
      ensures DistinctVars(s.clause)
      ensures if shrink > 2 then s.clause == old(s).clause else Minimal(old(s), s, pos)
      ensures forall f | Implied(old(s), f) && Entails(f, old(s).clause) :: Entails(f, s.clause)
      ensures s.poisoned == [] && forall v :: 0 <= v < |s.assignments| ==> !s.assignments[v].poisoned
    {
      hide Minimizing, Tried, Grows, SameButFlags, Trail, Falsified, Implied, Entails,
           Compact, Justified, Root, PoisonedOK, Static, Exact, TriedExact, Flagging, Minimal, Found, Verdict, Direct,
           Room, Opposite;
      ghost var c := s.clause;
      FalsifiedDistinct(s, c);
      FlagClause(pos);
      FlaggedExact(old(s), s, pos, c);
      if shrink > 2 {
        return;
      }
      var p: nat := |s.clause| - 1;
      TriedMore(s, c);
      while p > 0
        invariant p < |c| == |s.clause| && Minimizing(s, pos, c) && Tried(s, c, p + 1) && SameButFlags(old(s), s)
        invariant Static(s) == Static(old(s)) && Exact(s, pos, c) && TriedExact(s, pos, c, p + 1)
        decreases p
      {
        ghost var s1 := s;
        TriedLit(s, pos, c, p);
        var lit := s.clause[p];
        RoomTop(s, pos, lit);
        var removable := MinimizeLiteral(true, lit, 0, pos, c);
        GrowsClause(s1, s, pos, pos[Var(lit)] + 1);
        TriedExactNext(s1, s, pos, c, p, removable);
        TriedNext(s1, s, pos, c, p, pos[Var(lit)] + 1, removable);
        GrowsSame(old(s), s1, s, pos, pos[Var(lit)] + 1);
        if removable {
          s := s.(clause := s.clause[p := INVALID_LIT]);
        }
        p := p - 1;
      }
      TriedFacts(s, pos, c);
      forall f | Implied(old(s), f) && Entails(f, c) ensures Entails(f, Compact(s.clause)) {
        TriedEntailed(old(s), s, pos, f, c);
      }
      ghost var s2 := s;
      TriedDistinct(old(s), s, c);
      CompactClause();
      MinimalEnd(old(s), s2, s, pos, c);
      CompactedFacts(old(s), s2, s, c);
      ghost var s3 := s;
      ResetPoisoned();
      MinimalSame(old(s), s3, s, pos);
      ResetSame(old(s), s3, s);
    }
  }

  lemma FalsifiedSame(s0: Solver, s: Solver, c: seq<Lit>)
    requires Falsified(s0, c) && s.values == s0.values && |s.assignments| == |s0.assignments|
    ensures Falsified(s, c)
  {
    forall i | 0 <= i < |c| ensures False(s, c[i]) {
      assert False(s0, c[i]);
    }
  }

  lemma FlaggedExact(s0: Solver, s: Solver, pos: seq<nat>, c: seq<Lit>)
    requires Falsified(s0, c) && SameButFlags(s0, s) && Flagging(s, c, |c|) && s.clause == c && Minimizing(s, pos, c)
    requires forall v :: 0 <= v < |s.assignments| ==> !s.assignments[v].poisoned
    ensures Static(s) == Static(s0) && Exact(s, pos, c) && TriedExact(s, pos, c, |c|)
  {
    StaticSame(s0, s);
    FalsifiedSame(s0, s, c);
    ExactStart(s, pos, c);
  }

  lemma RoomTop(s: Solver, pos: seq<nat>, l: Lit)
    requires Var(l) < |pos|
    ensures Room(s, pos, l, 0)
  {
  }

  lemma GrowsClause(s: Solver, s': Solver, pos: seq<nat>, bound: int)
    requires Grows(s, s', pos, bound)
    ensures s'.clause == s.clause
  {
  }

  lemma TriedMore(s: Solver, c: seq<Lit>)
    requires Tried(s, c, |c|) && c != []
    ensures Tried(s, c, |c| - 1 + 1)
  {
  }

  lemma TriedLit(s: Solver, pos: seq<nat>, c: seq<Lit>, p: nat)
    requires Tried(s, c, p + 1) && p < |c| && Minimizing(s, pos, c)
    ensures |s.clause| == |c| && s.clause[p] == c[p] && False(s, c[p]) && |pos| == |s.assignments|
    ensures Var(c[p]) < |pos| && c[p] in c && c[p] != INVALID_LIT
  {
    assert Safe(s, c[p]);
  }

  lemma GrowsSame(s0: Solver, s: Solver, s': Solver, pos: seq<nat>, bound: int)
    requires SameButFlags(s0, s) && Grows(s, s', pos, bound)
    ensures SameButFlags(s0, s') && forall c :: SameButFlags(s0, s'.(clause := c))
  {
  }

  lemma TriedFacts(s: Solver, pos: seq<nat>, c: seq<Lit>)
    requires Tried(s, c, 1) && Minimizing(s, pos, c) && c != []
    ensures PoisonedOK(s) && s.clause != [] && s.clause[0] == c[0] && c[0] != INVALID_LIT
    ensures forall l :: l in s.clause ==> l in c || l == INVALID_LIT
  {
    assert Safe(s, c[0]);
  }

  lemma TriedDistinct(s0: Solver, s: Solver, c: seq<Lit>)
    requires Falsified(s0, c) && Tried(s, c, 1)
    ensures DistinctVars(Compact(s.clause))
  {
    CompactDistinct(s.clause, c);
  }

  lemma FalsifiedDistinct(s: Solver, c: seq<Lit>)
    requires Falsified(s, c)
    ensures DistinctVars(c)
  {
  }

  lemma CompactedFacts(s0: Solver, s: Solver, s': Solver, c: seq<Lit>)
    requires SameButFlags(s0, s) && s' == s.(clause := Compact(s.clause)) && PoisonedOK(s)
    requires s.clause != [] && c != [] && s.clause[0] == c[0] != INVALID_LIT
    requires forall l :: l in s.clause ==> l in c || l == INVALID_LIT
    ensures SameButFlags(s0, s') && PoisonedOK(s') && s'.clause != [] && s'.clause[0] == c[0]
    ensures forall l :: l in s'.clause ==> l in c
  {
    CompactOnly(s.clause);
  }

  lemma ResetSame(s0: Solver, s: Solver, s': Solver)
    requires SameButFlags(s0, s) && s' == s.(assignments := s'.assignments, poisoned := [])
    requires |s'.assignments| == |s.assignments|
    requires forall v :: 0 <= v < |s.assignments| ==> s'.assignments[v] == s.assignments[v].(poisoned := false)
    ensures SameButFlags(s0, s') && forall v :: 0 <= v < |s'.assignments| ==> !s'.assignments[v].poisoned
  {
  }
}
