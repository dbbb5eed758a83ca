/**
  The analysis of a conflict as a whole (analyze.c): a conflict with one literal on its level forces it, a conflict on
  the first level gives units, and otherwise a clause is deduced, minimized and learned, possibly after a reason was
  strengthened to a new conflict.
 */
module Analysis {
  import opened Literals
  import opened Entailment
  import opened SolverTrail
  import opened SolverDeduce
  import opened SolverCore
  import opened FailedLiteral
  import opened MinimizeTrail
  import M = Minimize

  /** No variable is flagged, and the stacks of the analysis are empty. */
  ghost predicate Clean(s: State) {
    && s.analyzed == [] && s.resolvent == [] && s.clause == []
    && (forall v :: 0 <= v < |s.assignments| ==> !s.assignments[v].analyzed)
    && (forall r :: 0 <= r < |s.clauses| ==> DistinctVars(s.clauses[r]))
  }

  /** The conflict is an implied clause, all literals of which are false; a large one is stored. */
  ghost predicate Conflict(s: State, f: Clauses, c: seq<Lit>, ref: nat) {
    && |c| > 1 && DistinctVars(c) && Entails(f, c) && (forall l :: l in c ==> False(s, l))
    && (|c| > 2 ==> ref < |s.clauses| && s.clauses[ref] == c)
  }

  ghost predicate Below(s: State, c: seq<Lit>, bound: nat) {
    forall l :: l in c ==> Position(s, l) < bound
  }

  /** Literals were only unassigned. */
  ghost predicate Still(s0: State, s: State) {
    s.level <= s0.level && |s.values| == |s0.values| && forall l: nat :: False(s, l) ==> False(s0, l)
  }

  /** All literals of an implied clause were false before, and now all but one are, which is true. */
  ghost predicate Asserted(s0: State, s: State, f: Clauses, c: seq<Lit>, l: Lit) {
    Entails(f, c) && l in c && True(s, l) && forall o :: o in c ==> False(s0, o) && (o != l ==> False(s, o))
  }

  /** How many literals of the clause each level has. */
  ghost function Used(s: State): seq<nat> {
    seq(s.level + 1, k requires 0 <= k <= s.level => CountLevel(s, s.clause, k))
  }

  // ------------------------------------------------------------------ what an analysis ends with

  /** The deduced clause of the solver as it is learned. */
  ghost predicate Shortened(s: State, c: seq<Lit>, minimize: bool, shrink: nat, depth: nat) {
    if minimize && shrink <= 2
      then M.Minimal(View(s, Used(s), depth), View(s.(clause := c), Used(s), depth), Positions(s))
    else c == s.clause
  }

  /** The solver at the level of the conflict, on which there are several literals. */
  ghost predicate Raised(s: State, c: seq<Lit>, s': State) {
    && 0 < s'.level && (s' == s || SameKept(s, s', s'.level)) && (forall l :: l in c ==> Level(s, l) <= s'.level)
    && CountLevel(s', c, s'.level) > 1
  }

  /** The conflict c' is the strengthened reason found when analyzing c, which is stored if it is large. */
  ghost predicate Stronger(s: State, c: seq<Lit>, s': State, c': seq<Lit>) {
    && (exists ref: nat, lit, subsumed: bool ::
          ref < |s.clauses| && Deduced(s, c, [], Strengthened(ref, lit, subsumed)) &&
          c' == Live(s, s.clauses[ref], lit, |s.clauses[ref]|))
    && Stored(s, s', c')
  }

  ghost predicate Stored(s: State, s': State, c: seq<Lit>) {
    && SameSolver(s.(clauses := s'.clauses), s')
    && s'.clauses == if |c| > 2 then s.clauses + [c] else s.clauses
  }

  /** After n strengthened reasons the conflict is c. */
  ghost predicate Reached(n: nat, s0: State, c0: seq<Lit>, s: State, c: seq<Lit>) {
    if n == 0 then
      s == s0 && c == c0
    else
      exists s1, c1, s2 :: Reached(n - 1, s0, c0, s1, c1) && Raised(s1, c1, s2) && Stronger(s2, c1, s, c)
  }

  /**
    What is learned from the conflict c: itself, if one of its literals is alone on its level; on level one, a unit
    found on the way back to the decision; or the clause of the first unique implication point, minimized.
   */
  ghost predicate Concludes(s: State, c: seq<Lit>, learned: seq<Lit>, minimize: bool, shrink: nat, depth: nat) {
    || (exists level: nat :: OneOnTop(s, c, level) && learned == c)
    || exists s2 :: Raised(s, c, s2) && if s2.level == 1 then Failed(s2, c, learned)
                                        else exists d :: Deduced(s2, c, d, Learned) &&
                                                         Shortened(s2.(clause := d), learned, minimize, shrink, depth)
  }

  ghost predicate Failed(s: State, c: seq<Lit>, learned: seq<Lit>) {
    && |learned| == 1 && |s.frames| > 1 && s.frames[1] < |s.trail|
    && (learned[0] == Neg(s.trail[s.frames[1]]) || LeftAlone(s, c, learned[0], -1))
  }

  ghost predicate Ends(s0: State, c0: seq<Lit>, learned: seq<Lit>, minimize: bool, shrink: nat, depth: nat) {
    exists n: nat, s, c :: Reached(n, s0, c0, s, c) && Concludes(s, c, learned, minimize, shrink, depth)
  }

  class Analyzer {
    const solver: Solver

    constructor (solver: Solver)
      ensures this.solver == solver
    {
      this.solver := solver;
    }

    // -------------------------------------------------------------- failed literals

    /** Flags a variable. */
    method PushAnalyzed(idx: nat)
      requires idx < |solver.s.assignments|
      modifies solver
      ensures solver.s == Flag(old(solver.s), idx)
    {
      var s := solver.s;
      solver.s := s.(assignments := s.assignments[idx := s.assignments[idx].(analyzed := true)]);
      solver.s := solver.s.(analyzed := solver.s.analyzed + [idx]);
    }

    /** Reads a conflict on level one, unless it contains the negated decision. */
    method ReadFailedConflict(conflict: seq<Lit>, notFailed: Lit, ghost f: Clauses)
      returns (done: bool, unresolved: nat, ghost t: State)
      requires TrailOK(solver.s, f) && solver.s.level == 1 && Clean(solver.s) && DistinctVars(conflict)
      requires forall l :: l in conflict ==> False(solver.s, l)
      modifies solver
      ensures solver.s.clause == []
      ensures Failing(old(solver.s), t, solver.s, |old(solver.s).trail|, unresolved, notFailed)
      ensures if done then notFailed in conflict else ReadConflict(old(solver.s), t, conflict, |conflict|)
    {
      hide Shape, OnTrail, Levels, Reasons, Failing, ReadConflict, Touch, Flag;
      ghost var g := solver.s;
      done, unresolved := false, 0;
      FailingStart(g, notFailed);
      t := g.(clause := [INVALID_LIT], antecedentSize := 0, resolventSize := 0);
      for k := 0 to |conflict|
        invariant !done && Failing(g, t, solver.s, |g.trail|, unresolved, notFailed) && ReadConflict(g, t, conflict, k)
        invariant solver.s.clause == []
      {
        var lit := conflict[k];
        assert lit in conflict;
        if lit == notFailed {
          done := true;
          return;
        }
        FailingSame(g, t, solver.s, |g.trail|, unresolved, notFailed);
        FailingConflict(g, t, solver.s, unresolved, conflict, k, notFailed);
        FlagClause(solver.s, Var(lit));
        t := Touch(g, t, lit);
        if solver.s.assignments[Var(lit)].level == 0 {
          continue;
        }
        PushAnalyzed(Var(lit));
        unresolved := unresolved + 1;
      }
    }

    /** Reads the other literals of a reason on level one, unless the negated decision is among them. */
    method ReadFailedReason(reason: seq<Lit>, p: nat, open: nat, notFailed: Lit, ghost g: State, ghost f: Clauses,
                            ghost t: State)
      returns (done: bool, unresolved: nat, ghost t': State)
      requires TrailOK(g, f) && g.level == 1 && p < |g.trail| && Level(g, g.trail[p]) == 1
      requires Failing(g, t, solver.s, p + 1, open, notFailed) && Forced(g, reason, p) && DistinctVars(reason)
      modifies solver
      ensures Failing(g, t', solver.s, p + 1, unresolved, notFailed) && solver.s.clause == old(solver.s).clause
      ensures forall x :: x in t.resolvent ==> x in t'.resolvent
      ensures if done then notFailed in reason else Read(g, t', reason, g.trail[p], |reason|)
      ensures forall x :: x in t'.resolvent ==> x in t.resolvent || (x in reason && x != g.trail[p] && Level(g, x) == 1)
    {
      hide Shape, OnTrail, Levels, Reasons, Failing, Read, Touch, Flag;
      FailingSame(g, t, solver.s, p + 1, open, notFailed);
      var lit := solver.s.trail[p];
      done, unresolved := false, open;
      t' := t.(antecedentSize := 1);
      FailingSize(g, t, solver.s, p + 1, open, notFailed);
      ReadStart(g, t', reason, lit);
      for k := 0 to |reason|
        invariant !done && Failing(g, t', solver.s, p + 1, unresolved, notFailed) && Read(g, t', reason, lit, k)
        invariant solver.s.clause == old(solver.s).clause && forall x :: x in t.resolvent ==> x in t'.resolvent
        invariant forall x ::
                    x in t'.resolvent ==> x in t.resolvent || (x in reason && x != g.trail[p] && Level(g, x) == 1)
      {
        var other := reason[k];
        if other == notFailed {
          done := true;
          return;
        }
        FailingSame(g, t', solver.s, p + 1, unresolved, notFailed);
        FailingReason(g, f, t', solver.s, p, unresolved, reason, lit, k, notFailed);
        if other == lit {
          continue;
        }
        TouchAdds(g, t', other);
        t' := Touch(g, t', other);
        FlagClause(solver.s, Var(other));
        if solver.s.assignments[Var(other)].level == 0 || solver.s.assignments[Var(other)].analyzed {
          continue;
        }
        PushAnalyzed(Var(other));
        unresolved := unresolved + 1;
      }
    }

    /** The next flagged literal further down the trail. */
    method NextAnalyzed(p: nat, open: nat, notFailed: Lit, ghost g: State, ghost f: Clauses, ghost t: State)
      returns (q: nat)
      requires TrailOK(g, f) && g.level == 1 && p <= |g.trail| && open > 0
      requires Failing(g, t, solver.s, p, open, notFailed)
      ensures q < p && Failing(g, t, solver.s, q + 1, open, notFailed) && Neg(g.trail[q]) in t.resolvent
      ensures True(g, g.trail[q]) && Position(g, g.trail[q]) == q && Level(g, g.trail[q]) == 1
    {
      hide Deducing, Reasons, Levels, Passed;
      q := p;
      FailingSame(g, t, solver.s, p, open, notFailed);
      while true
        invariant q <= p && forall i :: q <= i < p ==> Passed(g, t, i)
        decreases q
      {
        WalkOn(g, t, p, open, q);
        q := q - 1;
        var lit := solver.s.trail[q];
        WalkVar(g, f, q);
        if solver.s.assignments[Var(lit)].analyzed {
          break;
        }
        PassedUnflagged(g, t, p, open, q);
      }
      FlaggedOpen(g, t, p, open, q);
      WalkFound(g, t, p, open, q);
    }

    /**
      Learns the negation of the decision of level one, and the units met on the way from the conflict back to it: the
      literals that are left alone somewhere.  They are assigned at the root level.
     */
    method AnalyzeFailedLiteral(conflict: seq<Lit>, ghost f: Clauses) returns (ghost units: seq<Lit>)
      requires TrailOK(solver.s, f) && solver.s.level == 1 && Clean(solver.s) && DistinctVars(conflict)
      requires Entails(f, conflict) && (forall l :: l in conflict ==> False(solver.s, l))
      requires CountLevel(solver.s, conflict, 1) > 1
      modifies solver
      ensures TrailOK(solver.s, f) && solver.s.level == 0 && solver.s.clauses == old(solver.s).clauses
      ensures FlagsListed(solver.s) && solver.s.clause == [] && solver.s.resolvent == []
      ensures |old(solver.s).frames| > 1 && old(solver.s).frames[1] < |old(solver.s).trail|
      ensures DistinctVars(units)
      ensures var g := old(solver.s);
              forall u :: u in units <==> u == Neg(g.trail[g.frames[1]]) || LeftAlone(g, conflict, u, -1)
      ensures forall u :: u in units ==> Entails(f, [u]) && False(old(solver.s), u) && True(solver.s, u)
    {
      hide TrailOK, Failing, ReadConflict, Read, CountLevel, FlagsListed, Left, Leaving, UnitsExact, LeftAlone;
      ghost var g := solver.s;
      ConflictDecision(g, f, conflict);
      var failed := solver.s.trail[solver.s.frames[1]];
      var notFailed := Neg(failed);
      DecisionFails(g, f, failed, conflict);
      var done, unresolved, t := ReadFailedConflict(conflict, notFailed, f);
      if !done {
        FailingRead(g, f, t, solver.s, unresolved, conflict, notFailed);
        LeavingStart(g, t, solver.s, unresolved, conflict, notFailed);
      } else {
        FailedInConflict(g, conflict, failed);
      }
      NoneAlone(g, conflict);
      FailingSame(g, t, solver.s, |g.trail|, unresolved, notFailed);
      var p: nat := |solver.s.trail|;
      ghost var at: nat := p;
      while !done
        invariant p <= |g.trail| && Failing(g, t, solver.s, at, unresolved, notFailed) && (!done ==> at == p)
        invariant UnitsOK(g, f, solver.s.clause, p) && notFailed !in solver.s.clause
        invariant UnitsExact(g, conflict, solver.s.clause, p)
        invariant if done then notFailed in Left(g, conflict, p) else Leaving(g, t, conflict, p)
        invariant !done ==> unresolved > 0 && Entails(f, t.resolvent)
        decreases !done, p
      {
        ghost var p0 := p;
        p := NextAnalyzed(p, unresolved, notFailed, g, f, t);
        FailingSame(g, t, solver.s, p + 1, unresolved, notFailed);
        FoundExact(g, f, t, solver.s, unresolved, conflict, p0, p, notFailed);
        done, unresolved, t := ResolveFailed(p, unresolved, notFailed, failed, conflict, g, f, t);
        at := if done then p + 1 else p;
      }
      FailingSame(g, t, solver.s, at, unresolved, notFailed);
      UnitsAndFailed(g, f, solver.s.clause, p, failed);
      AllUnits(g, f, failed, conflict, solver.s.clause, p);
      ghost var s1 := solver.s;
      solver.s := solver.s.(clause := solver.s.clause + [notFailed]);
      units := solver.s.clause;
      FailingTrail(g, f, t, s1, solver.s, at, unresolved, notFailed);
      LearnUnits(g, f);
    }

    /** Notes a unit if the literal is the only one left, and resolves it with its reason. */
    method ResolveFailed(p: nat, open: nat, notFailed: Lit, ghost failed: Lit, ghost conflict: seq<Lit>,
                         ghost g: State, ghost f: Clauses, ghost t: State)
      returns (done: bool, unresolved: nat, ghost t': State)
      requires TrailOK(g, f) && g.level == 1 && p < |g.trail| && open > 0 && Clean(g)
      requires IsFailed(g, failed) && notFailed == Neg(failed)
      requires Failing(g, t, solver.s, p + 1, open, notFailed) && Neg(g.trail[p]) in t.resolvent
      requires Entails(f, t.resolvent) && UnitsOK(g, f, solver.s.clause, p + 1) && notFailed !in solver.s.clause
      requires True(g, g.trail[p]) && Position(g, g.trail[p]) == p && Level(g, g.trail[p]) == 1
      requires Leaving(g, t, conflict, p + 1)
      requires UnitsExact(g, conflict, if open == 1 then solver.s.clause + [Neg(g.trail[p])] else solver.s.clause, p)
      modifies solver
      ensures UnitsExact(g, conflict, solver.s.clause, p)
      ensures if done then notFailed in Left(g, conflict, p) else Leaving(g, t', conflict, p)
      ensures Failing(g, t', solver.s, if done then p + 1 else p, unresolved, notFailed)
      ensures UnitsOK(g, f, solver.s.clause, p) && notFailed !in solver.s.clause
      ensures !done ==> unresolved > 0 && Entails(f, t'.resolvent)
    {
      hide TrailOK, Failing, Read, IsFailed, UnitsOK, Forced, Resolved, Left, Leaving, UnitsExact;
      FailingSame(g, t, solver.s, p + 1, open, notFailed);
      var lit := solver.s.trail[p];
      if open == 1 {
        OneLeft(g, f, t, solver.s, p, notFailed);
        FailingUnit(g, t, solver.s, p + 1, open, notFailed, Neg(lit));
        solver.s := solver.s.(clause := solver.s.clause + [Neg(lit)]);
      } else {
        UnitsLower(g, f, solver.s.clause, p + 1, p);
      }
      ghost var s1 := solver.s;
      FailingSame(g, t, solver.s, p + 1, open, notFailed);
      HasReason(g, f, t, solver.s, p, open, failed);
      WalkVar(g, f, p);
      var a := solver.s.assignments[Var(lit)];
      var reason := if a.reason.Binary? then [lit, a.reason.other] else solver.s.clauses[a.reason.ref];
      assert reason == ReasonClause(g, lit);
      if a.reason.Binary? {
        BinaryDistinct(g, f, lit, a.reason.other, p);
      }
      done, unresolved, t' := ReadFailedReason(reason, p, open, notFailed, g, f, t);
      if !done {
        ghost var i :| 0 <= i < |t'.resolvent| && t'.resolvent[i] == Neg(lit);
        ghost var t1 := t';
        FailingResolved(g, f, t.resolvent, t', solver.s, p, unresolved, reason, i, notFailed);
        t' := Resolved(t', i);
        LeavingResolved(g, f, t, t1, t', conflict, p, reason);
        unresolved := unresolved - 1;
      } else {
        FailedInReason(g, f, t, conflict, p, failed);
      }
    }

    // -------------------------------------------------------------- strengthening, minimizing, resetting

    /** The literals of a clause but for one and those of the root level. */
    method Strengthen(ref: nat, lit: Lit) returns (lits: seq<Lit>)
      requires ref < |solver.s.clauses|
      requires forall l :: l in solver.s.clauses[ref] ==> Var(l) < |solver.s.assignments|
      ensures lits == Live(solver.s, solver.s.clauses[ref], lit, |solver.s.clauses[ref]|)
    {
      var c := solver.s.clauses[ref];
      lits := [];
      for k := 0 to |c|
        invariant lits == Live(solver.s, c, lit, k)
      {
        assert c[k] in c;
        if c[k] != lit && solver.s.assignments[Var(c[k])].level > 0 {
          lits := lits + [c[k]];
        }
      }
    }

    /** How many literals of the clause each level has. */
    method CountUsed() returns (used: seq<nat>)
      requires forall l :: l in solver.s.clause ==> Var(l) < |solver.s.assignments|
      requires forall l :: l in solver.s.clause ==> Level(solver.s, l) <= solver.s.level
      ensures |used| == solver.s.level + 1
      ensures forall k :: 0 <= k < |used| ==> used[k] == CountLevel(solver.s, solver.s.clause, k)
    {
      var c := solver.s.clause;
      used := seq(solver.s.level + 1, _ => 0);
      for i := 0 to |c|
        invariant |used| == solver.s.level + 1
        invariant forall k :: 0 <= k < |used| ==> used[k] == CountLevel(solver.s, c[..i], k)
      {
        assert c[i] in c && c[..i + 1][..i] == c[..i];
        var level := solver.s.assignments[Var(c[i])].level;
        used := used[level := used[level] + 1];
      }
      assert c[..|c|] == c;
    }

    /** Minimizes the deduced clause on the trail of the solver. */
    method Minimize(shrink: nat, depth: nat, ghost f: Clauses)
      requires TrailOK(solver.s, f) && FirstUip(solver.s, solver.s.clause) && Entails(f, solver.s.clause)
      requires |solver.s.values| <= INVALID_LIT && FlagsListed(solver.s)
      modifies solver
      ensures solver.s == old(solver.s).(clause := solver.s.clause)
      ensures TrailOK(solver.s, f) && FirstUip(solver.s, solver.s.clause) && Entails(f, solver.s.clause)
      ensures FlagsListed(solver.s)
      ensures forall l :: l in solver.s.clause ==> l in old(solver.s).clause
      ensures var s0, used := old(solver.s), Used(old(solver.s));
              if shrink > 2 then solver.s == s0
              else M.Minimal(View(s0, used, depth), View(solver.s, used, depth), Positions(s0))
    {
      hide TrailOK, FlagsListed, FirstUip, M.Falsified, M.Trail, M.Implied, Entails, CountLevel, M.Minimal;
      UipVars(solver.s, f);
      var used := CountUsed();
      assert used == Used(solver.s);
      TrailView(solver.s, f, used, depth);
      UipMinimizable(solver.s, f, used, depth);
      UipParts(solver.s, solver.s.clause);
      var m := new M.Minimizer(View(solver.s, used, depth));
      m.MinimizeClause(shrink, Positions(solver.s));
      ghost var s0 := solver.s;
      assert MinimizedFrom(s0.clause, m.s.clause);
      solver.s := solver.s.(clause := m.s.clause);
      ClauseOnly(s0, solver.s, f);
      if shrink <= 2 {
        M.MinimalSame(View(s0, used, depth), m.s, View(solver.s, used, depth), Positions(s0));
      }
    }

    /** Forgets the deduced clause. */
    method ResetClause(ghost f: Clauses)
      requires TrailOK(solver.s, f) && FlagsListed(solver.s)
      modifies solver
      ensures solver.s == old(solver.s).(clause := [], resolvent := []) && TrailOK(solver.s, f) && FlagsListed(solver.s)
    {
      ResetKeeps(solver.s, f);
      solver.s := solver.s.(clause := [], resolvent := []);
    }

    /** Takes back the flags of the analyzed variables. */
    method ResetAnalyzed(ghost f: Clauses)
      requires TrailOK(solver.s, f) && FlagsListed(solver.s) && solver.s.clause == [] && solver.s.resolvent == []
      requires forall r :: 0 <= r < |solver.s.clauses| ==> DistinctVars(solver.s.clauses[r])
      modifies solver
      ensures TrailOK(solver.s, f) && Clean(solver.s) && SameSolver(old(solver.s), solver.s)
    {
      hide TrailOK, Clean;
      var analyzed := solver.s.analyzed;
      for i := 0 to |analyzed|
        invariant solver.s == old(solver.s).(assignments := solver.s.assignments)
        invariant SameSolver(old(solver.s), solver.s)
        invariant forall v: nat :: Flagged(solver.s, v) ==> v in analyzed[i..]
      {
        var idx := analyzed[i];
        assert idx in analyzed && analyzed[i..] == [idx] + analyzed[i + 1..];
        var s := solver.s;
        assert forall v: nat :: v != idx && v < |s.assignments| && s.assignments[v].analyzed ==> Flagged(s, v);
        solver.s := s.(assignments := s.assignments[idx := s.assignments[idx].(analyzed := false)]);
      }
      ResetClean(old(solver.s), solver.s, f);
      solver.s := solver.s.(analyzed := []);
    }

    /** A strengthened reason becomes the conflict; a large one is stored. */
    method TakeStrengthened(ref: nat, lit: Lit, ghost bound: nat, ghost g: State, ghost f: Clauses)
      returns (conflict: seq<Lit>, ref': nat)
      requires TrailOK(g, f) && g.level > 0 && Clean(g) && SameSolver(g, solver.s) && TrailOK(solver.s, f)
      requires Strengthens(g, f, ref, lit) && StrengthenedAt(g, ref, lit, bound) && FlagsListed(solver.s)
      modifies solver
      ensures TrailOK(solver.s, f) && Clean(solver.s) && Conflict(solver.s, f, conflict, ref')
      ensures Below(solver.s, conflict, Position(g, lit)) && Position(g, lit) < bound
      ensures ref < |g.clauses| && conflict == Live(g, g.clauses[ref], lit, |g.clauses[ref]|)
      ensures Stored(g, solver.s, conflict)
      ensures solver.s.level == g.level && Still(g, solver.s)
    {
      hide TrailOK, Clean, Strengthens, SameSolver, FlagsListed, Live, Stored;
      ghost var s0 := solver.s;
      SolverSame(g, solver.s, f);
      CleanParts(g);
      StrengthenedConflict(g, f, ref, lit, bound);
      StrengthenedVars(g, f, ref, lit, bound);
      conflict := Strengthen(ref, lit);
      LiveSame(g, solver.s, g.clauses[ref], lit, |g.clauses[ref]|);
      ResetClause(f);
      ghost var s1 := solver.s;
      ref' := |solver.s.clauses|;
      if |conflict| > 2 {
        StoreKeeps(solver.s, f, conflict);
        solver.s := solver.s.(clauses := solver.s.clauses + [conflict]);
      }
      ghost var s2 := solver.s;
      ResetAnalyzed(f);
      SolverSame(s2, solver.s, f);
      StoredSteps(g, s0, s1, s2, solver.s, conflict);
    }

    /** Minimizes the deduced clause and learns it. */
    method LearnDeduced(minimize: bool, shrink: nat, depth: nat, ghost g: State, ghost f: Clauses)
      returns (ghost learned: seq<Lit>)
      requires TrailOK(g, f) && g.level > 0 && Clean(g) && SameSolver(g, solver.s) && TrailOK(solver.s, f)
      requires FirstUip(g, solver.s.clause) && Entails(f, solver.s.clause) && FlagsListed(solver.s)
      requires |g.values| <= INVALID_LIT
      modifies solver
      ensures TrailOK(solver.s, f) && Clean(solver.s) && solver.s.level < g.level
      ensures learned != [] && Asserted(g, solver.s, f, learned, learned[0])
      ensures Shortened(g.(clause := old(solver.s).clause), learned, minimize, shrink, depth)
    {
      hide TrailOK, Clean, FirstUip, SameSolver, FlagsListed, FlagsKept, Entails, M.Minimal,
           View, Positions, Used, Shortened;
      ghost var s0 := solver.s;
      SolverSame(g, solver.s, f);
      CleanParts(g);
      UipSame(g, solver.s);
      if minimize {
        Minimize(shrink, depth, f);
      }
      ghost var s1 := solver.s;
      learned := solver.s.clause;
      ShortenedBy(g, s0, s1, minimize, shrink, depth);
      UipParts(s1, learned);
      solver.LearnClause(f);
      FlagsFewer(s1, solver.s);
      ghost var s2 := solver.s;
      ResetClause(f);
      ResetAnalyzed(f);
      SolverSame(s2.(clause := [], resolvent := []), solver.s, f);
    }

    // -------------------------------------------------------------- the whole analysis

    /**
      Analyzes a conflict: false if the formula is unsatisfiable; otherwise the solver has backtracked to where an
      implied clause that was falsified before forces a literal, which is assigned.
     */
    method Analyze(conflict0: seq<Lit>, ref0: nat, minimize: bool, shrink: nat, depth: nat, ghost f: Clauses)
      returns (ok: bool, ghost learned: seq<Lit>, ghost forced: Lit)
      requires TrailOK(solver.s, f) && Clean(solver.s) && Conflict(solver.s, f, conflict0, ref0)
      requires |solver.s.values| <= INVALID_LIT
      modifies solver
      ensures ok ==> TrailOK(solver.s, f) && Clean(solver.s) && solver.s.level < old(solver.s).level
      ensures if ok then Asserted(old(solver.s), solver.s, f, learned, forced) else Entails(f, [])
      ensures ok ==> Ends(old(solver.s), conflict0, learned, minimize, shrink, depth)
    {
      hide TrailOK, Clean, Conflict, FirstUip, Strengthens, StrengthenedAt, CountLevel,
           FlagsListed, FlagsKept, SameSolver,
           Asserted, Entails, Below, Reached, Raised, Stronger, Stored, Deduced, Failed, Ends, Shortened, SameKept,
           LeftAlone, OneOnTop, Concludes;
      var conflict, ref := conflict0, ref0;
      ghost var n: nat := 0;
      ReachedStart(solver.s, conflict);
      ghost var bound: nat := |solver.s.trail|;
      ConflictBelow(solver.s, f, conflict, ref);
      while true
        invariant TrailOK(solver.s, f) && Clean(solver.s) && Conflict(solver.s, f, conflict, ref)
        invariant Below(solver.s, conflict, bound) && Still(old(solver.s), solver.s)
        invariant Reached(n, old(solver.s), conflict0, solver.s, conflict)
        decreases solver.s.level, bound
      {
        ghost var s1 := solver.s;
        ConflictParts(s1, f, conflict, ref);
        CleanParts(s1);
        var done, level := solver.OneLiteralOnConflictLevel(conflict, ref, f);
        CleanKept(s1, solver.s);
        ghost var s2 := solver.s;
        if done {
          forced := ForcedLit(old(solver.s), s1, s2, f, conflict);
          EndsTop(n, old(solver.s), conflict0, s1, conflict, level, minimize, shrink, depth);
          return true, conflict, forced;
        }
        if level == 0 {
          return false, [], 0;
        }
        RaisedTo(s1, conflict, s2, level);
        if level == 1 {
          ghost var units := AnalyzeFailedLiteral(conflict, f);
          assert Neg(s2.trail[s2.frames[1]]) in units;
          forced := units[0];
          ghost var s3 := solver.s;
          SameClauses(s2, s3);
          ResetAnalyzed(f);
          UnitAsserted(old(solver.s), s2, s3, solver.s, f, forced);
          FailedUnit(s2, conflict, units, forced);
          EndsFailed(n, old(solver.s), conflict0, s1, conflict, s2, [forced], minimize, shrink, depth);
          return true, [forced], forced;
        }
        ghost var bound2: nat := if s2 == s1 then bound else |s2.trail|;
        ConflictAfter(s1, s2, f, conflict, ref, bound, bound2);
        var d := solver.DeduceFirstUipClause(conflict, f, bound2);
        ghost var c := solver.s.clause;
        if d.Learned? {
          learned := LearnDeduced(minimize, shrink, depth, s2, f);
          AssertedBefore(old(solver.s), s2, solver.s, f, learned, learned[0]);
          EndsLearned(n, old(solver.s), conflict0, s1, conflict, s2, c, learned, minimize, shrink, depth);
          return true, learned, learned[0];
        }
        ghost var conflict1 := conflict;
        conflict, ref := TakeStrengthened(d.ref, d.lit, bound2, s2, f);
        ReachedNext(n, old(solver.s), conflict0, s1, conflict1, s2, c, d, solver.s, conflict);
        n := n + 1;
        bound := Position(s2, d.lit);
      }
    }

    /** Backtracks to the root level and assigns the units in the buffer. */
    method LearnUnits(ghost g: State, ghost f: Clauses)
      requires TrailOK(g, f) && SameSolver(g, solver.s) && TrailOK(solver.s, f) && FlagsListed(solver.s)
      requires DistinctVars(solver.s.clause) && solver.s.resolvent == []
      requires forall u :: u in solver.s.clause ==> Entails(f, [u]) && False(g, u) && Level(g, u) == 1
      modifies solver
      ensures TrailOK(solver.s, f) && solver.s.level == 0 && solver.s.clauses == g.clauses && FlagsListed(solver.s)
      ensures solver.s.clause == [] && solver.s.resolvent == []
      ensures forall u :: u in old(solver.s).clause ==> True(solver.s, u)
    {
      hide TrailOK, SameKept, FlagsKept, Entails, FlagsListed;
      ghost var s0 := solver.s;
      var units := solver.s.clause;
      solver.Backtrack(0, f);
      KeptFlags(s0, solver.s, 0);
      KeptClauses(s0, solver.s, 0);
      UnitsUnassigned(g, s0, solver.s, f, units);
      for i := 0 to |units|
        invariant TrailOK(solver.s, f) && FlagsKept(s0, solver.s) && solver.s.clauses == g.clauses
        invariant solver.s.level == 0
        invariant forall k :: 0 <= k < i ==> True(solver.s, units[k])
        invariant forall k :: i <= k < |units| ==> units[k] < |solver.s.values| && solver.s.values[units[k]] == 0
      {
        assert units[i] in units;
        ghost var s1 := solver.s;
        solver.AssignUnit(units[i], f);
        FlagsTrans(s0, s1, solver.s);
        UnitsLeft(s1, units, i);
      }
      FlagsFewer(s0, solver.s);
      ClearKeeps(solver.s, f);
      solver.s := solver.s.(clause := []);
    }
  }

  // ------------------------------------------------------------------ the new conflict

  /** A strengthened reason is a conflict, further down the trail. */
  lemma StrengthenedConflict(g: State, f: Clauses, ref: nat, lit: Lit, bound: nat)
    requires TrailOK(g, f) && Strengthens(g, f, ref, lit) && StrengthenedAt(g, ref, lit, bound)
    requires DistinctVars(g.clauses[ref]) && g.level > 0
    ensures var c := Live(g, g.clauses[ref], lit, |g.clauses[ref]|);
            && |c| > 1 && DistinctVars(c) && Entails(f, c)
            && (forall l :: l in c ==> False(g, l) && Position(g, l) < Position(g, lit))
  {
    var d := g.clauses[ref];
    var c := Live(g, d, lit, |d|);
    assert d[..|d|] == d;
    LiveMembers(g, d, lit, |d|);
    var i :| 0 <= i < |d| && d[i] == lit;
    LiveCount(g, d, lit, i, |d|);
    assert ReasonAt(g, f, Position(g, lit));
  }

  lemma FlaggedOpen(g: State, t: State, p: nat, open: nat, q: nat)
    requires Shape(g) && OnTrail(g) && Deducing(g, t, p, open) && g.level == 1 && q < |g.trail|
    requires Var(g.trail[q]) < |t.assignments| && t.assignments[Var(g.trail[q])].analyzed
    ensures !Passed(g, t, q)
  {
    assert Flagged(t, Var(g.trail[q]));
    if l :| l in t.resolvent && Var(l) == Var(g.trail[q]) {
      assert Level(g, l) == 1;
    }
  }

  // ------------------------------------------------------------------ the ends of an analysis

  lemma ReachedStart(s: State, c: seq<Lit>)
    ensures Reached(0, s, c, s, c)
  {
  }

  lemma ReachedNext(n: nat, s0: State, c0: seq<Lit>, s1: State, c1: seq<Lit>, s2: State, c: seq<Lit>, d: Deduction,
                    s': State, c': seq<Lit>)
    requires Reached(n, s0, c0, s1, c1) && Raised(s1, c1, s2) && Deduced(s2, c1, c, d) && d.Strengthened?
    requires d.ref < |s2.clauses| && c' == Live(s2, s2.clauses[d.ref], d.lit, |s2.clauses[d.ref]|) && Stored(s2, s', c')
    ensures Reached(n + 1, s0, c0, s', c')
  {
    hide Raised, Going, Shrinks, Left, Stored;
    assert Deduced(s2, c1, [], Strengthened(d.ref, d.lit, d.subsumed));
    assert Stronger(s2, c1, s', c');
  }

  lemma RaisedTo(s1: State, c: seq<Lit>, s2: State, level: nat)
    requires 0 < level == s2.level && (s2 == s1 || SameKept(s1, s2, level))
    requires forall l :: l in c ==> Level(s1, l) <= level
    requires CountLevel(s2, c, level) > 1
    ensures Raised(s1, c, s2)
  {
  }

  lemma EndsTop(n: nat, s0: State, c0: seq<Lit>, s: State, c: seq<Lit>, level: nat, minimize: bool, shrink: nat,
                depth: nat)
    requires Reached(n, s0, c0, s, c) && OneOnTop(s, c, level)
    ensures Ends(s0, c0, c, minimize, shrink, depth)
  {
    hide Reached, OneOnTop, Raised, Deduced, Shortened, Failed;
    assert Concludes(s, c, c, minimize, shrink, depth);
  }

  lemma EndsFailed(n: nat, s0: State, c0: seq<Lit>, s: State, c: seq<Lit>, s2: State, learned: seq<Lit>,
                   minimize: bool, shrink: nat, depth: nat)
    requires Reached(n, s0, c0, s, c) && Raised(s, c, s2) && s2.level == 1 && Failed(s2, c, learned)
    ensures Ends(s0, c0, learned, minimize, shrink, depth)
  {
    hide Reached, OneOnTop, Raised, Deduced, Shortened, Failed;
    assert Concludes(s, c, learned, minimize, shrink, depth);
  }

  lemma EndsLearned(n: nat, s0: State, c0: seq<Lit>, s: State, c: seq<Lit>, s2: State, d: seq<Lit>, learned: seq<Lit>,
                    minimize: bool, shrink: nat, depth: nat)
    requires Reached(n, s0, c0, s, c) && Raised(s, c, s2) && s2.level != 1 && Deduced(s2, c, d, Learned)
    requires Shortened(s2.(clause := d), learned, minimize, shrink, depth)
    ensures Ends(s0, c0, learned, minimize, shrink, depth)
  {
    hide Reached, OneOnTop, Raised, Deduced, Shortened, Failed;
    assert Concludes(s, c, learned, minimize, shrink, depth);
  }

  lemma ShortenedBy(g: State, s0: State, s: State, minimize: bool, shrink: nat, depth: nat)
    requires SameSolver(g, s0) && s == s0.(clause := s.clause)
    requires if !minimize || shrink > 2 then s == s0
             else M.Minimal(View(s0, Used(s0), depth), View(s, Used(s0), depth), Positions(s0))
    ensures Shortened(g.(clause := s0.clause), s.clause, minimize, shrink, depth)
  {
    hide SameSolver, M.Minimal, View, Positions, Used;
    ViewSame(g, s0, depth);
    assert s0.(clause := s0.clause) == s0 && s0.(clause := s.clause) == s;
    assert g.(clause := s0.clause).(clause := s.clause) == g.(clause := s.clause);
  }

  lemma FailedUnit(g: State, conflict: seq<Lit>, units: seq<Lit>, u: Lit)
    requires |g.frames| > 1 && g.frames[1] < |g.trail| && u in units
    requires forall u: Lit :: u in units ==> u == Neg(g.trail[g.frames[1]]) || LeftAlone(g, conflict, u, -1)
    ensures Failed(g, conflict, [u])
  {
    hide LeftAlone;
  }

  lemma StoredSteps(g: State, s0: State, s1: State, s2: State, s: State, c: seq<Lit>)
    requires SameSolver(g, s0) && s1 == s0.(clause := s1.clause, resolvent := s1.resolvent) && SameSolver(s2, s)
    requires s2 == if |c| > 2 then s1.(clauses := s1.clauses + [c]) else s1
    ensures Stored(g, s, c)
  {
  }

  lemma ConflictDecision(g: State, f: Clauses, conflict: seq<Lit>)
    requires TrailOK(g, f) && CountLevel(g, conflict, 1) > 1 && forall l :: l in conflict ==> False(g, l)
    ensures |g.frames| > 1 && g.frames[1] < |g.trail| && IsFailed(g, g.trail[g.frames[1]])
    ensures False(g, Neg(g.trail[g.frames[1]]))
  {
    var i := CountSome(g, conflict, 1);
    var l := conflict[i];
    assert l in conflict;
    FalseOnTrail(g, l);
    SameVar(l, Neg(l));
    DecisionBelow(g, f, Position(g, l));
    var d := g.trail[g.frames[1]];
    assert True(g, d);
    SameVar(d, Neg(d));
  }

  lemma FailingRead(g: State, f: Clauses, t: State, s: State, open: nat, c: seq<Lit>, notFailed: Lit)
    requires TrailOK(g, f) && Failing(g, t, s, |g.trail|, open, notFailed) && ReadConflict(g, t, c, |c|)
    requires DistinctVars(c) && Entails(f, c) && forall l :: l in c ==> False(g, l)
    requires g.level == 1 && CountLevel(g, c, 1) > 1
    ensures open > 0 && Entails(f, t.resolvent)
  {
    hide Shape, OnTrail, Levels, Reasons, Deducing, CountLevel, ReadConflict;
    ConflictRead(g, f, t, open, c);
  }

  lemma FailingUnit(g: State, t: State, s: State, p: nat, open: nat, notFailed: Lit, u: Lit)
    requires Failing(g, t, s, p, open, notFailed)
    ensures Failing(g, t, s.(clause := s.clause + [u]), p, open, notFailed)
    ensures u in t.resolvent ==> u != notFailed
  {
  }

  lemma UnitsAndFailed(g: State, f: Clauses, units: seq<Lit>, p: nat, d: Lit)
    requires TrailOK(g, f) && UnitsOK(g, f, units, p) && IsFailed(g, d) && Entails(f, [Neg(d)]) && False(g, Neg(d))
    requires Neg(d) !in units
    ensures DistinctVars(units + [Neg(d)])
    ensures forall u :: u in units + [Neg(d)] ==> Entails(f, [u]) && False(g, u) && Level(g, u) == 1
  {
    SameVar(d, Neg(d));
    forall i | 0 <= i < |units| ensures Var(units[i]) != Var(d) {
      FalseOnTrail(g, units[i]);
      SameVar(units[i], Neg(d));
      SameVar(units[i], d);
      assert units[i] in units;
    }
  }

  lemma FailingTrail(g: State, f: Clauses, t: State, s0: State, s: State, p: nat, open: nat, notFailed: Lit)
    requires TrailOK(g, f) && Clean(g) && Failing(g, t, s0, p, open, notFailed) && s == s0.(clause := s.clause)
    ensures SameSolver(g, s) && TrailOK(s, f) && FlagsListed(s) && s.resolvent == []
  {
    assert SameSolver(g, s);
    SameSolverTrail(g, f, s);
    forall v: nat | Flagged(s, v) ensures v in s.analyzed {
      assert Flagged(t, v);
    }
  }

  lemma UnitsUnassigned(g: State, s0: State, s: State, f: Clauses, units: seq<Lit>)
    requires TrailOK(s, f) && SameKept(s0, s, 0) && SameSolver(g, s0)
    requires forall u :: u in units ==> False(g, u) && Level(g, u) == 1
    ensures forall k :: 0 <= k < |units| ==> units[k] < |s.values| && s.values[units[k]] == 0
  {
    forall k | 0 <= k < |units| ensures units[k] < |s.values| && s.values[units[k]] == 0 {
      assert units[k] in units;
      assert False(s0, units[k]) && Level(s0, units[k]) == 1;
      Unassigned(s0, s, f, 0, units[k]);
    }
  }

  lemma UnitsLeft(s: State, units: seq<Lit>, i: nat)
    requires i < |units| && DistinctVars(units) && units[i] < |s.values| && Neg(units[i]) < |s.values|
    requires Var(units[i]) < |s.assignments|
    requires forall k :: i <= k < |units| ==> units[k] < |s.values| && s.values[units[k]] == 0
    ensures var s' := Put(s, 0, units[i], Unit);
            && (forall k :: i < k < |units| ==> units[k] < |s'.values| && s'.values[units[k]] == 0)
            && (forall k :: 0 <= k < i && True(s, units[k]) ==> True(s', units[k])) && s'.level == s.level
            && s'.clauses == s.clauses
  {
    SameVar(units[i], Neg(units[i]));
    forall k | 0 <= k < |units| && k != i ensures Var(units[k]) != Var(units[i]) {
    }
  }

  lemma UipVars(s: State, f: Clauses)
    requires TrailOK(s, f) && FirstUip(s, s.clause)
    ensures forall l :: l in s.clause ==> Var(l) < |s.assignments| && Level(s, l) <= s.level
  {
    forall l | l in s.clause ensures Var(l) < |s.assignments| && Level(s, l) <= s.level {
      FalseOnTrail(s, l);
      FalseLevel(s, l);
    }
  }

  lemma SolverSame(g: State, s: State, f: Clauses)
    requires TrailOK(g, f) && SameSolver(g, s)
    ensures s.level == g.level && s.clauses == g.clauses && s.values == g.values && |s.assignments| == |g.assignments|
    ensures forall l: nat :: Level(s, l) == Level(g, l) && Position(s, l) == Position(g, l)
    ensures forall l: nat :: (True(s, l) <==> True(g, l)) && (False(s, l) <==> False(g, l))
    ensures s.options == g.options && s.trail == g.trail
  {
    SameSolverTrail(g, f, s);
  }

  lemma CleanParts(s: State)
    requires Clean(s)
    ensures s.analyzed == [] && s.resolvent == [] && s.clause == []
    ensures forall v :: 0 <= v < |s.assignments| ==> !s.assignments[v].analyzed
    ensures forall r :: 0 <= r < |s.clauses| ==> DistinctVars(s.clauses[r])
  {
  }

  lemma CleanKept(s0: State, s: State)
    requires Clean(s0) && FlagsKept(s0, s) && s.clause == s0.clause && s.clauses == s0.clauses
    ensures Clean(s) && |s.values| == |s0.values|
  {
  }

  lemma ConflictParts(s: State, f: Clauses, c: seq<Lit>, ref: nat)
    requires Conflict(s, f, c, ref)
    ensures |c| > 1 && DistinctVars(c) && Entails(f, c) && (forall l :: l in c ==> False(s, l))
    ensures |c| > 2 ==> ref < |s.clauses| && s.clauses[ref] == c
  {
  }

  lemma ConflictBelow(s: State, f: Clauses, c: seq<Lit>, ref: nat)
    requires TrailOK(s, f) && Conflict(s, f, c, ref)
    ensures Below(s, c, |s.trail|) && Still(s, s)
  {
    forall l | l in c ensures Position(s, l) < |s.trail| {
      FalseOnTrail(s, l);
    }
  }

  /** The conflict after backtracking to its level. */
  lemma ConflictAfter(s1: State, s2: State, f: Clauses, c: seq<Lit>, ref: nat, bound: nat, bound2: nat)
    requires TrailOK(s2, f) && Clean(s2) && Below(s1, c, bound) && Conflict(s1, f, c, ref)
    requires forall l :: l in c ==> False(s2, l)
    requires bound2 == if s2 == s1 then bound else |s2.trail|
    ensures forall l :: l in c ==> Position(s2, l) < bound2
    ensures s2.analyzed == [] && s2.resolvent == [] && s2.clause == []
    ensures forall v :: 0 <= v < |s2.assignments| ==> !s2.assignments[v].analyzed
    ensures forall r :: 0 <= r < |s2.clauses| ==> DistinctVars(s2.clauses[r])
  {
    forall l | l in c ensures Position(s2, l) < bound2 {
      FalseOnTrail(s2, l);
    }
  }

  lemma ForcedLit(s0: State, s1: State, s: State, f: Clauses, c: seq<Lit>) returns (l: Lit)
    requires Still(s0, s1) && Entails(f, c) && (forall o :: o in c ==> False(s1, o))
    requires exists l :: l in c && True(s, l) && forall o :: o in c && o != l ==> False(s, o)
    ensures Asserted(s0, s, f, c, l)
  {
    l :| l in c && True(s, l) && forall o :: o in c && o != l ==> False(s, o);
  }

  lemma SameClauses(s0: State, s: State)
    requires Clean(s0) && s.clauses == s0.clauses
    ensures forall r :: 0 <= r < |s.clauses| ==> DistinctVars(s.clauses[r])
  {
  }

  lemma UnitAsserted(s0: State, s2: State, s3: State, s: State, f: Clauses, u: Lit)
    requires Still(s0, s2) && Entails(f, [u]) && False(s2, u) && True(s3, u) && TrailOK(s3, f) && SameSolver(s3, s)
    ensures Asserted(s0, s, f, [u], u) && s.level == s3.level
  {
    SolverSame(s3, s, f);
  }

  lemma ViewSame(g: State, s: State, depth: nat)
    requires SameSolver(g, s)
    ensures forall c: seq<Lit> :: Positions(g.(clause := c)) == Positions(s)
    ensures Used(s) == Used(g.(clause := s.clause))
    ensures forall c: seq<Lit>, used: seq<nat> ::
              View(s.(clause := c), used, depth) == View(g.(clause := c), used, depth)
  {
    forall k: nat ensures CountLevel(s, s.clause, k) == CountLevel(g.(clause := s.clause), s.clause, k) {
      LevelsCount(s, g.(clause := s.clause), s.clause, k);
    }
  }

  lemma {:induction false} LevelsCount(s: State, s': State, c: seq<Lit>, level: nat)
    requires forall l: nat :: Level(s', l) == Level(s, l)
    ensures CountLevel(s', c, level) == CountLevel(s, c, level)
  {
    if c != [] {
      LevelsCount(s, s', c[..|c| - 1], level);
    }
  }

  lemma AssertedBefore(s0: State, s2: State, s: State, f: Clauses, c: seq<Lit>, l: Lit)
    requires Still(s0, s2) && Asserted(s2, s, f, c, l)
    ensures Asserted(s0, s, f, c, l)
  {
  }

  lemma UipSame(g: State, s: State)
    requires FirstUip(g, s.clause) && SameSolver(g, s)
    ensures FirstUip(s, s.clause)
  {
    forall l | l in s.clause ensures False(s, l) && Level(s, l) == Level(g, l) {
    }
    forall i | 0 <= i < |s.clause| ensures Level(s, s.clause[i]) == Level(g, s.clause[i]) {
    }
  }

  lemma UipParts(s: State, c: seq<Lit>)
    requires FirstUip(s, c)
    ensures c != [] && forall l :: l in c ==> False(s, l)
  {
  }

  lemma {:induction false} LiveSame(g: State, s: State, c: seq<Lit>, p: Lit, k: nat)
    requires k <= |c| && forall l: nat :: Level(s, l) == Level(g, l)
    ensures Live(s, c, p, k) == Live(g, c, p, k)
  {
    if k > 0 {
      LiveSame(g, s, c, p, k - 1);
    }
  }

  lemma StrengthenedVars(g: State, f: Clauses, ref: nat, lit: Lit, bound: nat)
    requires TrailOK(g, f) && Strengthens(g, f, ref, lit) && StrengthenedAt(g, ref, lit, bound) && g.level > 0
    ensures ref < |g.clauses| && forall l :: l in g.clauses[ref] ==> Var(l) < |g.assignments|
  {
    assert ReasonAt(g, f, Position(g, lit));
    forall l | l in g.clauses[ref] ensures Var(l) < |g.assignments| {
      if l != lit {
        FalseOnTrail(g, l);
      }
    }
  }

  /** Storing a clause changes nothing else. */
  lemma StoreKeeps(s: State, f: Clauses, c: seq<Lit>)
    requires TrailOK(s, f) && FlagsListed(s)
    ensures TrailOK(s.(clauses := s.clauses + [c]), f) && FlagsListed(s.(clauses := s.clauses + [c]))
  {
    AddClauseKeeps(s, f, c);
    assert forall v: nat :: Flagged(s.(clauses := s.clauses + [c]), v) <==> Flagged(s, v);
  }

  lemma ClauseOnly(s0: State, s: State, f: Clauses)
    requires TrailOK(s0, f) && s == s0.(clause := s.clause) && FlagsListed(s0)
    ensures TrailOK(s, f) && FlagsListed(s) && forall c :: FirstUip(s0, c) ==> FirstUip(s, c)
  {
    SameSolverTrail(s0, f, s);
    hide TrailOK;
    assert forall v: nat :: Flagged(s, v) <==> Flagged(s0, v);
  }

  lemma ResetKeeps(s: State, f: Clauses)
    requires TrailOK(s, f) && FlagsListed(s)
    ensures var s' := s.(clause := [], resolvent := []); TrailOK(s', f) && FlagsListed(s')
  {
    var s' := s.(clause := [], resolvent := []);
    SameSolverTrail(s, f, s');
    assert forall v: nat :: Flagged(s', v) <==> Flagged(s, v);
  }

  lemma ResetClean(s0: State, s: State, f: Clauses)
    requires TrailOK(s0, f) && SameSolver(s0, s) && s0.clause == [] && s0.resolvent == []
    requires s == s0.(assignments := s.assignments) && forall v: nat :: !Flagged(s, v)
    requires forall r :: 0 <= r < |s0.clauses| ==> DistinctVars(s0.clauses[r])
    ensures var s' := s.(analyzed := []); TrailOK(s', f) && Clean(s') && SameSolver(s0, s')
  {
    var s' := s.(analyzed := []);
    SameSolverTrail(s0, f, s');
    forall v | 0 <= v < |s.assignments| ensures !s.assignments[v].analyzed {
      assert !Flagged(s, v);
    }
  }

  lemma FlagsFewer(s0: State, s: State)
    requires FlagsKept(s0, s) && FlagsListed(s0)
    ensures FlagsListed(s) && FlagsListed(s.(clause := [])) && s.resolvent == s0.resolvent
  {
    forall v: nat | Flagged(s, v) ensures v in s.analyzed {
      assert Flagged(s0, v);
    }
    assert forall v: nat :: Flagged(s.(clause := []), v) <==> Flagged(s, v);
  }

  lemma ClearKeeps(s: State, f: Clauses)
    requires TrailOK(s, f)
    ensures TrailOK(s.(clause := []), f)
    ensures forall l: nat :: True(s, l) <==> True(s.(clause := []), l)
  {
    SameSolverTrail(s, f, s.(clause := []));
  }

  lemma FailingSame(g: State, t: State, s: State, p: nat, open: nat, notFailed: Lit)
    requires Failing(g, t, s, p, open, notFailed)
    ensures s == g.(assignments := s.assignments, analyzed := s.analyzed, clause := s.clause)
    ensures |s.assignments| == |g.assignments| && s.assignments == t.assignments
    ensures forall l: nat :: Level(s, l) == Level(g, l) && ReasonOf(s, l) == ReasonOf(g, l)
  {
  }

  lemma FailingSize(g: State, t: State, s: State, p: nat, open: nat, notFailed: Lit)
    requires Failing(g, t, s, p, open, notFailed)
    ensures Failing(g, t.(antecedentSize := 1), s, p, open, notFailed)
  {
    hide Deducing;
    SetSize(g, t, p, open, 1);
  }

  lemma FlagClause(s: State, v: nat)
    requires v < |s.assignments|
    ensures Flag(s, v).clause == s.clause
  {
  }

  lemma PassedUnflagged(g: State, t: State, p: nat, open: nat, q: nat)
    requires Deducing(g, t, p, open) && q < |g.trail| && Var(g.trail[q]) < |t.assignments|
    requires !t.assignments[Var(g.trail[q])].analyzed
    ensures Passed(g, t, q)
  {
  }
}
