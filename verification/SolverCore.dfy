/**
  Assigning, backtracking and conflict analysis in the main solver (assign.c, backtrack.c,
  deduce.c, learn.c, analyze.c) as updates of one state.
 */
module SolverCore {
  import opened Literals
  import opened Sequences
  import opened Entailment
  import opened SolverTrail
  import opened SolverDeduce

  class Solver {
    var s: State

    /** Nothing is assigned; the invariant of the trail holds for any formula. */
    constructor (variables: nat, clauses: seq<seq<Lit>>, options: Options)
      ensures s.clauses == clauses && s.trail == [] && s.level == 0 && |s.assignments| == variables
      ensures s.analyzed == [] && s.clause == [] && s.resolvent == []
      ensures forall v :: 0 <= v < |s.assignments| ==> !s.assignments[v].analyzed
      ensures forall f :: TrailOK(s, f)
    {
      s := State(seq(2 * variables, _ => 0), seq(variables, _ => Assigned(0, 0, Decision, false)),
                 [], [0], 0, 0, variables,
                 clauses, [], [], [], 0, 0, options);
    }

    // -------------------------------------------------------------- assigning

    /** Writes a literal; at the root level its reason becomes a unit. */
    method Assign(level: nat, lit: Lit, reason: Reason, ghost f: Clauses)
      requires TrailOK(s, f) && lit < |s.values| && s.values[lit] == 0 && MayForce(s, f, level, lit, reason)
      modifies this`s
      ensures Neg(lit) < |s.values| && Var(lit) < |old(s).assignments| && |s.values| == |old(s).values|
      ensures s == Put(old(s), level, lit, reason) && TrailOK(s, f)
      ensures True(s, lit) && (forall l: nat :: False(old(s), l) ==> False(s, l)) && FlagsKept(old(s), s)
    {
      hide TrailOK, MayForce, FlagsKept;
      PutKeeps(s, f, level, lit, reason);
      PutFalse(s, f, level, lit, reason);
      PutFlags(s, level, lit, reason);
      s := s.(values := s.values[lit := 1][Neg(lit) := -1]);
      s := s.(unassigned := s.unassigned - 1);
      var reason' := if level == 0 then Unit else reason;
      var trail := |s.trail|;
      s := s.(trail := s.trail + [lit]);
      s := s.(assignments := s.assignments[Var(lit) := Assigned(level, trail, reason', false)]);
    }

    method AssignUnit(lit: Lit, ghost f: Clauses)
      requires TrailOK(s, f) && lit < |s.values| && s.values[lit] == 0 && Entails(f, [lit])
      modifies this`s
      ensures Neg(lit) < |s.values| && Var(lit) < |old(s).assignments| && |s.values| == |old(s).values|
      ensures s == Put(old(s), 0, lit, Unit) && TrailOK(s, f)
      ensures True(s, lit) && (forall l: nat :: False(old(s), l) ==> False(s, l)) && FlagsKept(old(s), s)
    {
      hide TrailOK;
      Assign(0, lit, Unit, f);
    }

    /** Opens the next level with a decision. */
    method Decide(lit: Lit, ghost f: Clauses)
      requires TrailOK(s, f) && lit < |s.values| && s.values[lit] == 0
      modifies this`s
      ensures TrailOK(s, f) && s.level == old(s).level + 1 && True(s, lit) && s.trail == old(s).trail + [lit]
      ensures Level(s, lit) == s.level && ReasonOf(s, lit) == Decision
    {
      hide TrailOK;
      OpenKeeps(s, f, lit);
      s := s.(frames := s.frames + [|s.trail|]);
      s := s.(level := s.level + 1);
      PutDecision(s, f, lit);
      Assign(s.level, lit, Decision, f);
    }

    /** Assigns a literal forced by a binary clause; its reason may be jumped over. */
    method AssignBinary(lit: Lit, other: Lit, ghost f: Clauses)
      requires TrailOK(s, f) && lit < |s.values| && s.values[lit] == 0 && False(s, other) && Entails(f, [lit, other])
      modifies this`s
      ensures TrailOK(s, f) && True(s, lit) && s.trail == old(s).trail + [lit] && s.level == old(s).level
      ensures Level(s, lit) == Level(old(s), other) && s.clause == old(s).clause && s.clauses == old(s).clauses
      ensures (forall l: nat :: False(old(s), l) ==> False(s, l)) && FlagsKept(old(s), s)
    {
      hide TrailOK, FlagsKept;
      BinaryFacts(s, f, lit, other);
      var a := s.assignments[Var(other)];
      var level := a.level;
      var other' := other;
      if s.options.jumpreasons && level > 0 && a.reason.Binary? {
        JumpedReason(s, f, lit, other);
        other' := a.reason.other;
      }
      Assign(a.level, lit, Binary(other'), f);
    }

    /** The highest level among the other literals of a reason. */
    method AssignmentLevel(lit: Lit, reason: seq<Lit>) returns (res: nat)
      requires forall o :: o in reason && o != lit ==> Var(o) < |s.assignments|
      ensures forall o :: o in reason && o != lit ==> Level(s, o) <= res
      ensures res > 0 ==> exists o :: o in reason && o != lit && Level(s, o) == res
    {
      res := 0;
      for k := 0 to |reason|
        invariant forall i :: 0 <= i < k && reason[i] != lit ==> Level(s, reason[i]) <= res
        invariant res > 0 ==> exists o :: o in reason && o != lit && Level(s, o) == res
      {
        var other := reason[k];
        assert other in reason;
        if other == lit {
          continue;
        }
        var level := s.assignments[Var(other)].level;
        if res < level {
          res := level;
        }
      }
    }

    method AssignReference(lit: Lit, ref: nat, ghost f: Clauses)
      requires TrailOK(s, f) && lit < |s.values| && s.values[lit] == 0
      requires ref < |s.clauses| && lit in s.clauses[ref] && Entails(f, s.clauses[ref])
      requires forall o :: o in s.clauses[ref] && o != lit ==> False(s, o)
      modifies this`s
      ensures TrailOK(s, f) && True(s, lit) && s.trail == old(s).trail + [lit] && s.level == old(s).level
      ensures forall o :: o in old(s).clauses[ref] && o != lit ==> Level(old(s), o) <= Level(s, lit)
      ensures Level(s, lit) > 0 ==>
                exists o :: o in old(s).clauses[ref] && o != lit && Level(old(s), o) == Level(s, lit)
      ensures s.clauses == old(s).clauses && s.clause == old(s).clause && FlagsKept(old(s), s)
      ensures forall l: nat :: False(old(s), l) ==> False(s, l)
    {
      hide TrailOK, FlagsKept;
      ReferenceFacts(s, f, lit, ref);
      var level := AssignmentLevel(lit, s.clauses[ref]);
      ReferenceForces(s, f, lit, ref, level);
      Assign(level, lit, Large(ref), f);
    }

    // -------------------------------------------------------------- backtracking

    method Unassign(lit: Lit)
      requires lit < |s.values| && Neg(lit) < |s.values|
      modifies this`s
      ensures s == Drop(old(s), lit)
    {
      s := s.(values := s.values[lit := 0][Neg(lit) := 0]);
      s := s.(unassigned := s.unassigned + 1);
    }

    /** Unassigns all literals above the new level; the others move up on the trail, in order. */
    method Backtrack(newLevel: nat, ghost f: Clauses)
      requires TrailOK(s, f) && newLevel <= s.level
      modifies this`s
      ensures TrailOK(s, f) && s.level == newLevel
      ensures s.trail == if newLevel == old(s).level
              then old(s).trail else Kept(old(s), newLevel, old(s).trail, |old(s).trail|)
      ensures newLevel < old(s).level ==> s.propagate == Start(old(s), newLevel)
      ensures SameKept(old(s), s, newLevel)
    {
      hide TrailOK, Filtering, SameKept;
      SameKeptRefl(s, f, newLevel);
      if s.level == newLevel {
        return;
      }
      BacktrackStart(s, f, newLevel);
      var start := s.frames[newLevel + 1];
      s := s.(frames := s.frames[..newLevel + 1]);
      var q: nat, p: nat := start, start;
      while p != |s.trail|
        invariant q <= p <= |s.trail| == |old(s).trail| && Filtering(old(s), s, newLevel, q, p)
        decreases |s.trail| - p
      {
        BacktrackNext(old(s), f, s, newLevel, q, p);
        var lit := s.trail[p];
        var a := s.assignments[Var(lit)];
        if a.level <= newLevel {
          s := s.(assignments := s.assignments[Var(lit) := a.(trail := q)], trail := s.trail[q := lit]);
          q := q + 1;
        } else {
          Unassign(lit);
        }
        p := p + 1;
      }
      BacktrackEnd(old(s), f, s, newLevel, q);
      s := s.(trail := s.trail[..q]);
      s := s.(level := newLevel);
      s := s.(propagate := start);
    }

    method BacktrackAfterConflict(newLevel: nat, ghost f: Clauses)
      requires TrailOK(s, f) && newLevel <= s.level && (s.level > 0 ==> newLevel < s.level)
      modifies this`s
      ensures TrailOK(s, f) && s.level == newLevel && SameKept(old(s), s, newLevel)
    {
      hide TrailOK, SameKept, Kept, Start;
      if s.level > 0 {
        Backtrack(s.level - 1, f);
        ghost var s1 := s;
        Backtrack(newLevel, f);
        SameKeptTrans(old(s), s1, s, newLevel);
      } else {
        Backtrack(newLevel, f);
      }
    }

    // -------------------------------------------------------------- deduction

    /** Analyzes one literal of an antecedent: whether it is a new one on the conflict level. */
    method AnalyzeLiteral(lit: Lit, ghost g: State) returns (res: bool)
      requires Var(lit) < |s.assignments| && Level(s, lit) == Level(g, lit) && s.level == g.level
      modifies this`s
      ensures s == Touch(g, old(s), lit) && res == Opens(g, old(s), lit)
    {
      var a := s.assignments[Var(lit)];
      if a.level == 0 {
        return false;
      }
      s := s.(antecedentSize := s.antecedentSize + 1);
      if a.analyzed {
        return false;
      }
      s := s.(assignments := s.assignments[Var(lit) := a.(analyzed := true)]);
      s := s.(analyzed := s.analyzed + [Var(lit)]);
      s := s.(resolvent := s.resolvent + [lit]);
      s := s.(resolventSize := s.resolventSize + 1);
      if a.level == s.level {
        return true;
      }
      s := s.(clause := s.clause + [lit]);
      return false;
    }

    /** Reads the conflict: its literals above the root level make up the first resolvent. */
    method AnalyzeConflict(conflict: seq<Lit>, ghost g: State, ghost f: Clauses) returns (open: nat, conflictSize: nat)
      requires TrailOK(g, f) && g.level > 0 && Deducing(g, s, |g.trail|, 0) && ReadConflict(g, s, conflict, 0)
      requires forall l :: l in conflict ==> False(g, l)
      modifies this`s
      ensures Deducing(g, s, |g.trail|, open) && ReadConflict(g, s, conflict, |conflict|)
      ensures conflictSize == CountLive(g, conflict, |conflict|)
    {
      hide Deducing, ReadConflict, Reasons, Touch, Shape, OnTrail, Levels;
      open, conflictSize := 0, 0;
      for k := 0 to |conflict|
        invariant Deducing(g, s, |g.trail|, open) && ReadConflict(g, s, conflict, k)
        invariant conflictSize == CountLive(g, conflict, k)
      {
        var lit := conflict[k];
        assert lit in conflict;
        ConflictNext(g, s, open, conflict, k);
        DeducingSame(g, s, |g.trail|, open);
        if s.assignments[Var(lit)].level > 0 {
          conflictSize := conflictSize + 1;
        }
        var onLevel := AnalyzeLiteral(lit, g);
        if onLevel {
          open := open + 1;
        }
      }
    }

    /** Finds the next literal on the conflict level to resolve, walking back along the trail. */
    method NextUip(p: nat, open: nat, ghost g: State, ghost f: Clauses) returns (t: nat)
      requires TrailOK(g, f) && Deducing(g, s, p, open) && open > 0 && p <= |g.trail|
      ensures t < p && Deducing(g, s, t + 1, open) && Neg(g.trail[t]) in s.resolvent
      ensures True(g, g.trail[t]) && Position(g, g.trail[t]) == t && Level(g, g.trail[t]) == g.level
      ensures Var(g.trail[t]) < |s.assignments|
    {
      hide Deducing, Reasons, Levels, Passed;
      t := p;
      DeducingSame(g, s, p, open);
      while true
        invariant t <= p && forall i :: t <= i < p ==> Passed(g, s, i)
        decreases t
      {
        WalkOn(g, s, p, open, t);
        t := t - 1;
        var uip := s.trail[t];
        WalkVar(g, f, t);
        var a := s.assignments[Var(uip)];
        WalkPassed(g, s, p, open, t);
        if a.analyzed && a.level == s.level {
          break;
        }
      }
      WalkFound(g, s, p, open, t);
    }

    /** Reads the other literals of a reason. */
    method AnalyzeReason(reason: seq<Lit>, uip: Lit, t: nat, open: nat, ghost g: State, ghost f: Clauses)
      returns (open': nat)
      requires TrailOK(g, f) && g.level > 0 && t < |g.trail| && g.trail[t] == uip && Level(g, uip) == g.level
      requires Deducing(g, s, t + 1, open) && s.antecedentSize == 1 && Forced(g, reason, t) && DistinctVars(reason)
      modifies this`s
      ensures Deducing(g, s, t + 1, open') && Read(g, s, reason, uip, |reason|)
      ensures forall x :: x in old(s).resolvent ==> x in s.resolvent
      ensures forall x :: x in s.resolvent ==> x in old(s).resolvent || LiveOther(g, reason, uip, x)
    {
      hide Deducing, Read, Reasons, Touch, Shape, OnTrail, Levels;
      open' := open;
      ReadStart(g, s, reason, uip);
      for k := 0 to |reason|
        invariant Deducing(g, s, t + 1, open') && Read(g, s, reason, uip, k)
        invariant forall x :: x in old(s).resolvent ==> x in s.resolvent
        invariant forall x :: x in s.resolvent ==> x in old(s).resolvent || LiveOther(g, reason, uip, x)
      {
        var lit := reason[k];
        assert lit in reason;
        ReadNext(g, s, t + 1, open', reason, uip, k);
        DeducingSame(g, s, t + 1, open');
        if lit != uip {
          TouchAdds(g, s, lit);
          var onLevel := AnalyzeLiteral(lit, g);
          if onLevel {
            open' := open' + 1;
          }
        }
      }
    }

    /** Removes the negation of the resolved literal from the resolvent. */
    method RemoveResolved(lit: Lit) returns (ghost i: nat)
      requires lit in s.resolvent && s.resolventSize > 0
      modifies this`s
      ensures i < |old(s).resolvent| && old(s).resolvent[i] == lit && s == Resolved(old(s), i)
    {
      var k: nat := 0;
      while s.resolvent[k] != lit
        invariant k < |s.resolvent| && lit in s.resolvent[k..]
        decreases |s.resolvent| - k
      {
        k := k + 1;
      }
      i := k;
      s := s.(resolventSize := s.resolventSize - 1);
      s := s.(resolvent := s.resolvent[..k] + s.resolvent[k + 1..]);
    }

    /** Reads the other literal of a binary reason. */
    method AnalyzeBinary(other: Lit, uip: Lit, t: nat, open: nat, ghost g: State, ghost f: Clauses) returns (open': nat)
      requires TrailOK(g, f) && g.level > 0 && t < |g.trail| && g.trail[t] == uip && Level(g, uip) == g.level
      requires Deducing(g, s, t + 1, open) && s.antecedentSize == 1 && Forced(g, [uip, other], t)
      modifies this`s
      ensures Deducing(g, s, t + 1, open') && Read(g, s, [uip, other], uip, 2) && s.antecedentSize == 2
      ensures forall x :: x in old(s).resolvent ==> x in s.resolvent
      ensures forall x :: x in s.resolvent ==> x in old(s).resolvent || LiveOther(g, [uip, other], uip, x)
    {
      hide Deducing, Read, Reasons, Touch;
      BinaryDistinct(g, f, uip, other, t);
      ReadStart(g, s, [uip, other], uip);
      ReadNext(g, s, t + 1, open, [uip, other], uip, 0);
      ReadNext(g, s, t + 1, open, [uip, other], uip, 1);
      DeducingSame(g, s, t + 1, open);
      open' := open;
      var onLevel := AnalyzeLiteral(other, g);
      if onLevel {
        open' := open' + 1;
      }
      BinaryCount(g, s, uip, other);
    }

    /** Resolves the reason of the literal found with the resolvent. */
    method ResolveReason(t: nat, open: nat, ghost conflict: seq<Lit>, ghost g: State, ghost f: Clauses)
      returns (open': nat)
      requires TrailOK(g, f) && g.level > 0 && t < |g.trail| && Deducing(g, s, t + 1, open) && open > 1
      requires Neg(g.trail[t]) in s.resolvent && Level(g, g.trail[t]) == g.level && Entails(f, s.resolvent)
      requires forall r :: 0 <= r < |g.clauses| ==> DistinctVars(g.clauses[r])
      requires Leaving(g, s, conflict, t + 1)
      modifies this`s
      ensures Deducing(g, s, t, open') && open' > 0 && Entails(f, s.resolvent)
      ensures Leaving(g, s, conflict, t) && Resolves(g, conflict, t)
      ensures forall x :: x in old(s).resolvent && x != Neg(g.trail[t]) ==> x in s.resolvent
      ensures forall x :: x in s.resolvent ==> x in old(s).resolvent || Position(g, x) < t
      ensures var c := ReasonClause(g, g.trail[t]);
              && (forall l :: LiveOther(g, c, g.trail[t], l) ==> l in s.resolvent) && g.trail[t] in c
              && s.antecedentSize == CountLive(g, c, |c|)
      ensures s.antecedentSize > 2 ==> ReasonOf(g, g.trail[t]).Large? && ReasonOf(g, g.trail[t]).ref < |g.clauses|
    {
      hide Deducing, Read, Resolved, Reasons, Shape, OnTrail, Levels, Leaving, Resolves;
      NotDecision(g, f, s, open, t);
      DeducingSame(g, s, t + 1, open);
      var uip := s.trail[t];
      WalkVar(g, f, t);
      ghost var s0, r0 := s, s.resolvent;
      DeducingCount(g, s, t + 1, open);
      SetSize(g, s, t + 1, open, 1);
      s := s.(antecedentSize := 1);
      var a := s.assignments[Var(uip)];
      ghost var c := ReasonClause(g, uip);
      if a.reason.Binary? {
        open' := AnalyzeBinary(a.reason.other, uip, t, open, g, f);
      } else {
        open' := AnalyzeReason(s.clauses[a.reason.ref], uip, t, open, g, f);
      }
      ghost var s1 := s;
      DeducingSame(g, s, t + 1, open');
      ResolventSize(g, s, t + 1, open');
      ghost var i := RemoveResolved(Neg(uip));
      ResolveStep(g, f, r0, s1, open', t, c, i);
      ResolvedRead(g, s1, s, c, uip, i);
      LiveReason(g, c, uip, t);
      LeavingSame(g, old(s), s0, conflict, t + 1);
      LeavingResolved(g, f, s0, s1, s, conflict, t, c);
      open' := open' - 1;
      StillOneOpen(g, f, r0, s, t, open, open');
    }

    /**
      Deduces the clause of the first unique implication point, or finds that the reason just resolved
      may be strengthened, and whether it then subsumes the conflict.
     */
    method DeduceFirstUipClause(conflict: seq<Lit>, ghost f: Clauses, ghost bound: nat) returns (d: Deduction)
      requires TrailOK(s, f) && s.level > 0 && Entails(f, conflict) && DistinctVars(conflict)
      requires (forall l :: l in conflict ==> False(s, l)) && CountLevel(s, conflict, s.level) > 1
      requires s.analyzed == [] && s.resolvent == [] && s.clause == []
      requires forall v :: 0 <= v < |s.assignments| ==> !s.assignments[v].analyzed
      requires forall r :: 0 <= r < |s.clauses| ==> DistinctVars(s.clauses[r])
      requires forall l :: l in conflict ==> Position(s, l) < bound
      modifies this`s
      ensures SameSolver(old(s), s) && TrailOK(s, f) && FlagsListed(s)
      ensures d.Learned? ==> FirstUip(old(s), s.clause) && Entails(f, s.clause)
      ensures d.Strengthened? ==> Strengthens(old(s), f, d.ref, d.lit) && StrengthenedAt(old(s), d.ref, d.lit, bound)
      ensures d.Strengthened? && d.subsumed ==>
                forall l :: LiveOther(old(s), old(s).clauses[d.ref], d.lit, l) <==>
                            LiveOther(old(s), conflict, Neg(d.lit), l)
      ensures Deduced(old(s), conflict, s.clause, d)
    {
      hide Deducing, Reasons, Shape, OnTrail, Levels, SameSolver, Strengthens, FirstUip, CountLevel, CountLive,
           FlagsListed, Leaving, Going, NoneResolved, Deduced, StoppedAt, Resolves,
           Left, OneOpen;
      ghost var g := s;
      DeducingStart(s);
      s := s.(clause := s.clause + [INVALID_LIT]);
      assert s.clause == [INVALID_LIT];
      s := s.(antecedentSize := 0);
      s := s.(resolventSize := 0);
      var open, conflictSize := AnalyzeConflict(conflict, g, f);
      ConflictRead(g, f, s, open, conflict);
      DeducingSame(g, s, |g.trail|, open);
      LeavingConflict(g, s, conflict);
      var p: nat, resolved: nat := |s.trail|, 0;
      while true
        invariant p <= |g.trail| && Deducing(g, s, p, open) && open > 0 && Entails(f, s.resolvent)
        invariant resolved == 0 ==> forall l :: l in s.resolvent <==> l in conflict && Level(g, l) > 0
        invariant forall l :: l in s.resolvent ==> Position(g, l) < bound
        invariant Leaving(g, s, conflict, p) && Going(g, conflict, p)
        invariant (resolved == 0 <==> NoneResolved(g, conflict, p))
        decreases p
      {
        var t := NextUip(p, open, g, f);
        DeducingSame(g, s, t + 1, open);
        OpenLeft(g, s, conflict, p, t, open);
        var uip := s.trail[t];
        if open == 1 {
          UipLearned(g, f, s, t);
          LearnedLeft(g, s, conflict, p, s.clause[0 := Neg(uip)]);
          DeducedSame(g, f, s, t + 1, open, Neg(uip));
          s := s.(clause := s.clause[0 := Neg(uip)]);
          return Learned;
        }
        SameVar(uip, Neg(uip));
        assert Position(g, Neg(uip)) == t < bound;
        open := ResolveReason(t, open, conflict, g, f);
        ghost var before := NoneResolved(g, conflict, t + 1);
        resolved := resolved + 1;
        DeducingSame(g, s, t, open);
        LeftSize(g, s, conflict, t, open);
        assert before <==> resolved == 1;
        if s.options.otfs && s.antecedentSize > 2 && s.resolventSize < s.antecedentSize {
          WalkVar(g, f, t);
          var ref := s.assignments[Var(uip)].reason.ref;
          CountedStrengthens(g, f, s, open, t, ref);
          var subsumed := false;
          if resolved == 1 && s.resolventSize < conflictSize {
            CountedSubsumes(g, s, open, t, conflict);
            subsumed := true;
          }
          DeducedParts(g, f, s, t, open);
          StoppedHere(g, conflict, t, s.clause, Strengthened(ref, uip, subsumed));
          return Strengthened(ref, uip, subsumed);
        }
        GoesOn(g, conflict, t);
        p := t;
      }
    }

    // -------------------------------------------------------------- learning

    /** The level to backtrack to: the jump level, or just below if jumping would undo too many levels. */
    method DetermineNewLevel(jump: nat) returns (res: nat)
      requires jump < s.level
      ensures jump <= res < s.level && (res == jump || res == s.level - 1)
      ensures res == s.level - 1 || s.level - 1 - jump <= BackjumpLimit(s.options)
    {
      var back := s.level - 1;
      var delta := back - jump;
      var limit := BackjumpLimit(s.options);
      if delta == 0 {
        res := jump;
      } else if delta > limit {
        res := back;
      } else {
        res := jump;
      }
    }

    method LearnUnit(notUip: Lit, ghost f: Clauses)
      requires TrailOK(s, f) && s.level > 0 && Entails(f, [notUip]) && False(s, notUip) && Level(s, notUip) == s.level
      modifies this`s
      ensures TrailOK(s, f) && True(s, notUip) && Level(s, notUip) == 0
      ensures s.level == 0 || s.level == old(s).level - 1
      ensures s.clauses == old(s).clauses && FlagsKept(old(s), s)
    {
      hide TrailOK, SameKept, FlagsKept;
      var newLevel := DetermineNewLevel(0);
      BacktrackAfterConflict(newLevel, f);
      Unassigned(old(s), s, f, newLevel, notUip);
      KeptFlags(old(s), s, newLevel);
      KeptClauses(old(s), s, newLevel);
      ghost var s1 := s;
      PutLevel(s, f, 0, notUip, Unit);
      AssignUnit(notUip, f);
      FlagsTrans(old(s), s1, s);
    }

    method LearnBinary(notUip: Lit, other: Lit, ghost f: Clauses)
      requires TrailOK(s, f) && s.level > 0 && Entails(f, [notUip, other]) && False(s, notUip) && False(s, other)
      requires Level(s, other) < Level(s, notUip) == s.level
      modifies this`s
      ensures TrailOK(s, f) && True(s, notUip) && Level(s, notUip) == Level(old(s), other) && False(s, other)
      ensures s.level == Level(old(s), other) || s.level == old(s).level - 1
      ensures s.clauses == old(s).clauses && FlagsKept(old(s), s)
    {
      hide TrailOK, SameKept, FlagsKept;
      var jumpLevel := Level(s, other);
      var newLevel := DetermineNewLevel(jumpLevel);
      BacktrackAfterConflict(newLevel, f);
      Unassigned(old(s), s, f, newLevel, notUip);
      StillFalse(old(s), s, newLevel, other);
      KeptFlags(old(s), s, newLevel);
      KeptClauses(old(s), s, newLevel);
      ghost var s1 := s;
      AssignBinary(notUip, other, f);
      FlagsTrans(old(s), s1, s);
    }

    /** Moves a literal of the highest level below the first one to the second position. */
    method FindJump() returns (jumpLevel: nat)
      requires |s.clause| > 2
      requires forall i :: 0 < i < |s.clause| ==> Level(s, s.clause[i]) < s.level && Var(s.clause[i]) < |s.assignments|
      modifies this`s
      ensures exists q :: 1 <= q < |old(s).clause| && s == old(s).(clause := Swap(old(s).clause, 1, q))
      ensures Level(s, s.clause[1]) == jumpLevel
      ensures forall i :: 0 < i < |s.clause| ==> Level(s, s.clause[i]) <= jumpLevel
    {
      var lits := s.clause;
      var q := 1;
      jumpLevel := s.assignments[Var(lits[1])].level;
      var p: nat := 2;
      while p != |lits|
        invariant 2 <= p <= |lits| && 1 <= q < p && Level(s, lits[q]) == jumpLevel
        invariant forall i :: 0 < i < p ==> Level(s, lits[i]) <= jumpLevel
        decreases |lits| - p
      {
        var level := s.assignments[Var(lits[p])].level;
        if jumpLevel < level {
          jumpLevel := level;
          q := p;
          if level == s.level - 1 {
            break;
          }
        }
        p := p + 1;
      }
      s := s.(clause := lits[q := lits[1]][1 := lits[q]]);
      assert s.clause == Swap(lits, 1, q);
    }

    method LearnReference(notUip: Lit, ghost f: Clauses) returns (ref: nat)
      requires TrailOK(s, f) && s.level > 0 && Entails(f, s.clause) && FirstUip(s, s.clause) && |s.clause| > 2
      requires notUip == s.clause[0]
      modifies this`s
      ensures TrailOK(s, f) && True(s, notUip) && ref < |s.clauses| && s.clauses[..ref] == old(s).clauses
      ensures ref == |old(s).clauses| == |s.clauses| - 1 && DistinctVars(s.clauses[ref]) && FlagsKept(old(s), s)
      ensures forall l :: l in s.clauses[ref] <==> l in old(s).clause
      ensures forall l :: l in old(s).clause && l != notUip ==> False(s, l) && Level(old(s), l) <= Level(s, notUip)
      ensures exists l :: l in old(s).clause && l != notUip && Level(old(s), l) == Level(s, notUip)
      ensures s.level == Level(s, notUip) || s.level == old(s).level - 1
    {
      hide TrailOK, SameKept, Entails, FlagsKept, FirstUip, DistinctVars, MayForce;
      UipBounds(s, s.clause);
      var jumpLevel := FindJump();
      ghost var q :| 1 <= q < |old(s).clause| && s == old(s).(clause := Swap(old(s).clause, 1, q));
      SwapMembers(old(s), s, f, q, notUip);
      ref := |s.clauses|;
      ghost var s1 := s;
      AddClauseKeeps(s, f, s.clause);
      s := s.(clauses := s.clauses + [s.clause]);
      ghost var s2 := s;
      var newLevel := DetermineNewLevel(jumpLevel);
      BacktrackAfterConflict(newLevel, f);
      KeptClauses(s2, s, newLevel);
      KeptFlags(s2, s, newLevel);
      Unassigned(s2, s, f, newLevel, notUip);
      LearnedFalse(old(s), s2, s, newLevel, jumpLevel, notUip);
      ghost var s3 := s;
      AssignReference(notUip, ref, f);
      LearnedLevel(old(s), s2, s3, s, newLevel, notUip, jumpLevel);
      ClauseFlags(old(s), s2);
      FlagsTrans(old(s), s2, s3);
      FlagsTrans(old(s), s3, s);
    }

    /**
      Learns the deduced clause: after backtracking it forces its first literal, at the highest level of
      the other literals.
     */
    method LearnClause(ghost f: Clauses)
      requires TrailOK(s, f) && s.level > 0 && Entails(f, s.clause) && FirstUip(s, s.clause)
      modifies this`s
      ensures TrailOK(s, f) && True(s, old(s).clause[0])
      ensures forall l :: l in old(s).clause && l != old(s).clause[0] ==>
                False(s, l) && Level(old(s), l) <= Level(s, old(s).clause[0])
      ensures Level(s, old(s).clause[0]) == 0 ||
              exists l :: l in old(s).clause && l != old(s).clause[0] && Level(old(s), l) == Level(s, old(s).clause[0])
      ensures s.level == Level(s, old(s).clause[0]) || s.level == old(s).level - 1
      ensures s.level < old(s).level && FlagsKept(old(s), s) && |s.clauses| <= |old(s).clauses| + 1
      ensures forall r :: 0 <= r < |s.clauses| ==>
                if r < |old(s).clauses| then s.clauses[r] == old(s).clauses[r] else DistinctVars(s.clauses[r])
    {
      hide TrailOK, SameKept, FlagsKept;
      var notUip := s.clause[0];
      assert notUip in s.clause;
      var size := |s.clause|;
      if size == 1 {
        assert s.clause == [notUip];
        LearnUnit(notUip, f);
      } else if size == 2 {
        var other := s.clause[1];
        assert s.clause == [notUip, other] && other in s.clause;
        LearnBinary(notUip, other, f);
      } else {
        var ref := LearnReference(notUip, f);
      }
    }

    /** Counts the literals of a conflict on its highest level, and finds the second highest one. */
    method FindConflictLevel(conflict: seq<Lit>, ghost f: Clauses)
      returns (conflictLevel: int, jumpLevel: int, count: nat, forced: Lit)
      requires TrailOK(s, f) && |conflict| > 1 && forall l :: l in conflict ==> False(s, l)
      ensures 0 <= conflictLevel <= s.level && count > 0 && forced in conflict && Level(s, forced) == conflictLevel
      ensures forall l :: l in conflict ==> Level(s, l) <= conflictLevel
      ensures count > 1 ==>
                exists i, j ::
                      0 <= i < j < |conflict| && Level(s, conflict[i]) == Level(s, conflict[j]) == conflictLevel
      ensures count == 1 ==>
                0 <= jumpLevel < conflictLevel && forall l :: l in conflict && l != forced ==> Level(s, l) <= jumpLevel
      ensures count == 1 ==> exists l :: l in conflict && l != forced && Level(s, l) == jumpLevel
    {
      conflictLevel, jumpLevel, count, forced := -1, -1, 0, 0;
      ghost var at: nat := 0;
      for k := 0 to |conflict|
        invariant k == 0 <==> conflictLevel == -1
        invariant k == 0 ==> jumpLevel == -1
        invariant k > 0 ==>
                    count > 0 && at < k && conflict[at] == forced && Level(s, forced) == conflictLevel <= s.level
        invariant k > 0 ==> -1 <= jumpLevel <= conflictLevel && (count == 1 ==> jumpLevel < conflictLevel)
        invariant forall i :: 0 <= i < k ==>
                              Level(s, conflict[i]) <= conflictLevel && (i != at ==> Level(s, conflict[i]) <= jumpLevel)
        invariant count > 1 ==>
                    exists i, j :: 0 <= i < j < k && Level(s, conflict[i]) == Level(s, conflict[j]) == conflictLevel
        invariant k > 1 ==> jumpLevel >= 0 && exists i :: 0 <= i < k && i != at && Level(s, conflict[i]) == jumpLevel
        invariant k == 1 ==> jumpLevel == -1
      {
        var lit := conflict[k];
        assert lit in conflict;
        ConflictBound(s, f, lit);
        var litLevel := s.assignments[Var(lit)].level;
        if conflictLevel == -1 || conflictLevel < litLevel {
          count := 1;
          jumpLevel := conflictLevel;
          conflictLevel := litLevel;
          forced := lit;
          at := k;
        } else {
          if jumpLevel == -1 || jumpLevel < litLevel {
            jumpLevel := litLevel;
          }
          if conflictLevel == litLevel {
            count := count + 1;
          }
        }
        if count > 1 && conflictLevel == s.level {
          forall l | l in conflict ensures Level(s, l) <= conflictLevel {
            ConflictBound(s, f, l);
          }
          return;
        }
      }
      OtherForced(s, conflict, at, forced, conflictLevel, jumpLevel, count);
    }

    /**
      Prepares a conflict for analysis: it is inconsistent, or forces a literal after backtracking, or has
      several literals on what is now the current level.
     */
    method OneLiteralOnConflictLevel(conflict: seq<Lit>, ref: nat, ghost f: Clauses)
      returns (forced: bool, conflictLevel: nat)
      requires TrailOK(s, f) && |conflict| > 1 && DistinctVars(conflict) && Entails(f, conflict)
      requires forall l :: l in conflict ==> False(s, l)
      requires |conflict| > 2 ==> ref < |s.clauses| && s.clauses[ref] == conflict
      modifies this`s
      ensures TrailOK(s, f) && (forall l :: l in conflict ==> Level(old(s), l) <= conflictLevel)
      ensures conflictLevel == 0 ==> !forced && Entails(f, [])
      ensures conflictLevel > 0 && !forced ==> s.level == conflictLevel && (forall l :: l in conflict ==> False(s, l))
      ensures conflictLevel > 0 && !forced ==> CountLevel(s, conflict, s.level) > 1
      ensures conflictLevel > 0 && !forced ==> s == old(s) || SameKept(old(s), s, conflictLevel)
      ensures !forced && conflictLevel == old(s).level ==> s == old(s)
      ensures forced ==> OneOnTop(old(s), conflict, conflictLevel)
      ensures s.level <= old(s).level && (forced ==> s.level < old(s).level) && s.clauses == old(s).clauses
      ensures FlagsKept(old(s), s) && s.clause == old(s).clause
      ensures !forced ==> forall l: nat :: False(s, l) ==> False(old(s), l)
      ensures forced ==> exists l :: l in conflict && True(s, l) && forall o :: o in conflict && o != l ==>
                False(s, o) && Level(old(s), o) <= Level(s, l)
    {
      hide TrailOK, SameKept, CountLevel, FlagsKept;
      FlagsRefl(s);
      var level, jumpLevel, count, lit := FindConflictLevel(conflict, f);
      forced, conflictLevel := false, level;
      if conflictLevel == 0 {
        ConflictEmpty(s, f, conflict);
        return;
      }
      if conflictLevel < s.level {
        BacktrackAfterConflict(conflictLevel, f);
        KeptFlags(old(s), s, conflictLevel);
      } else {
        SameKeptRefl(s, f, s.level);
      }
      ghost var s1 := s;
      ConflictKept(old(s), s, conflict, conflictLevel);
      if count > 1 {
        CountTwo(s, conflict, conflictLevel);
        return;
      }
      assert OneOnTop(old(s), conflict, conflictLevel);
      ForceLiteral(conflict, ref, lit, jumpLevel, f);
      FlagsTrans(old(s), s1, s);
      forced := true;
    }

    /** The conflict becomes the reason of its only literal on the conflict level. */
    method ForceLiteral(conflict: seq<Lit>, ref: nat, lit: Lit, jumpLevel: nat, ghost f: Clauses)
      requires TrailOK(s, f) && |conflict| > 1 && DistinctVars(conflict) && Entails(f, conflict) && lit in conflict
      requires (forall l :: l in conflict ==> False(s, l)) && jumpLevel < Level(s, lit) == s.level
      requires forall l :: l in conflict && l != lit ==> Level(s, l) <= jumpLevel
      requires |conflict| > 2 ==> ref < |s.clauses| && s.clauses[ref] == conflict
      modifies this`s
      ensures TrailOK(s, f) && s.level < old(s).level && s.clauses == old(s).clauses && FlagsKept(old(s), s)
      ensures s.clause == old(s).clause
      ensures True(s, lit) && forall o :: o in conflict && o != lit ==>
                False(s, o) && Level(old(s), o) <= Level(s, lit)
    {
      hide TrailOK, SameKept, FlagsKept;
      var newLevel := DetermineNewLevel(jumpLevel);
      BacktrackAfterConflict(newLevel, f);
      KeptFlags(old(s), s, newLevel);
      KeptClauses(old(s), s, newLevel);
      ghost var s1 := s;
      Unassigned(old(s), s, f, newLevel, lit);
      OthersFalse(old(s), s, conflict, newLevel, lit, jumpLevel);
      if |conflict| == 2 {
        var other := if conflict[0] == lit then conflict[1] else conflict[0];
        BinaryConflict(f, conflict, lit, other);
        AssignBinary(lit, other, f);
      } else {
        AssignReference(lit, ref, f);
      }
      FlagsTrans(old(s), s1, s);
    }
  }

  /** Only one literal of the clause is on the given level, and the others are on lower ones. */
  ghost predicate OneOnTop(s: State, c: seq<Lit>, level: nat) {
    exists l :: l in c && Level(s, l) == level && forall o :: o in c && o != l ==> Level(s, o) < level
  }

  lemma DeducingSame(g: State, s: State, p: nat, open: nat)
    requires Deducing(g, s, p, open)
    ensures s.level == g.level && s.trail == g.trail && |s.assignments| == |g.assignments| && s.clauses == g.clauses
    ensures s.options == g.options && s.values == g.values && s.resolventSize == |s.resolvent|
    ensures forall l: nat :: Level(s, l) == Level(g, l) && ReasonOf(s, l) == ReasonOf(g, l)
  {
  }

  lemma WalkVar(g: State, f: Clauses, t: nat)
    requires TrailOK(g, f) && t < |g.trail|
    ensures Var(g.trail[t]) < |g.assignments|
  {
    assert True(g, g.trail[t]);
  }

  lemma WalkPassed(g: State, s: State, p: nat, open: nat, t: nat)
    requires Deducing(g, s, p, open) && t < |g.trail| && Var(g.trail[t]) < |s.assignments|
    ensures Passed(g, s, t) <==>
              !(s.assignments[Var(g.trail[t])].analyzed && s.assignments[Var(g.trail[t])].level == s.level)
  {
  }

  lemma ReadStart(g: State, s: State, c: seq<Lit>, uip: Lit)
    requires s.antecedentSize == 1
    ensures Read(g, s, c, uip, 0)
  {
  }

  lemma BinaryDistinct(g: State, f: Clauses, uip: Lit, other: Lit, t: nat)
    requires TrailOK(g, f) && t < |g.trail| && g.trail[t] == uip && Forced(g, [uip, other], t)
    ensures DistinctVars([uip, other]) && other != uip && Level(g, other) == Level(g, uip) && False(g, other)
    ensures Position(g, other) < t
    ensures Var(other) < |g.assignments|
  {
    hide Reasons, Levels;
    assert True(g, uip);
    var c := [uip, other];
    assert c[1] in c;
    var o :| o in c && o != uip && Level(g, o) == Level(g, uip);
    assert o == other;
    FalseOnTrail(g, other);
  }

  lemma BinaryCount(g: State, s: State, uip: Lit, other: Lit)
    requires Read(g, s, [uip, other], uip, 2) && Level(g, uip) == Level(g, other) > 0
    ensures s.antecedentSize == 2
  {
    var c := [uip, other];
    assert c[0] == uip && c[1] == other && c[..2] == c;
    assert CountLive(g, c, 1) == 1 && CountLive(g, c, 2) == 2;
  }

  lemma SetSize(g: State, s: State, p: nat, open: nat, size: nat)
    requires Deducing(g, s, p, open)
    ensures Deducing(g, s.(antecedentSize := size), p, open)
  {
    var s' := s.(antecedentSize := size);
    assert forall v: nat :: Flagged(s', v) <==> Flagged(s, v);
  }

  lemma DeducingCount(g: State, s: State, p: nat, open: nat)
    requires Deducing(g, s, p, open)
    ensures open == CountLevel(g, s.resolvent, g.level) && DistinctVars(s.resolvent)
  {
  }

  lemma ResolventSize(g: State, s: State, p: nat, open: nat)
    requires Deducing(g, s, p, open) && s.resolvent != []
    ensures s.resolventSize > 0
  {
  }

  lemma ResolvedRead(g: State, s: State, s': State, c: seq<Lit>, uip: Lit, i: nat)
    requires Read(g, s, c, uip, |c|) && uip in c && i < |s.resolvent| && s.resolventSize > 0 && s' == Resolved(s, i)
    ensures s'.antecedentSize == s.antecedentSize == CountLive(g, c, |c|)
  {
    assert c[..|c|] == c;
  }

  /** Another open literal is left after resolving one of several. */
  lemma StillOneOpen(g: State, f: Clauses, r0: seq<Lit>, s: State, t: nat, open: nat, open': nat)
    requires TrailOK(g, f) && t < |g.trail| && Level(g, g.trail[t]) == g.level && open > 1 && DistinctVars(r0)
    requires open == CountLevel(g, r0, g.level) && Neg(g.trail[t]) in r0 && Deducing(g, s, t, open')
    requires forall x :: x in r0 && x != Neg(g.trail[t]) ==> x in s.resolvent
    ensures open' > 0
  {
    hide Reasons, Levels, Lower, FlagsOK, CountLevel;
    var uip := g.trail[t];
    assert True(g, uip);
    SameVar(uip, Neg(uip));
    var l := OtherOpen(g, r0, Neg(uip));
    var i :| 0 <= i < |s.resolvent| && s.resolvent[i] == l;
    CountAt(g, s.resolvent, g.level, i);
  }

  lemma DeducedSame(g: State, f: Clauses, s: State, p: nat, open: nat, l: Lit)
    requires TrailOK(g, f) && Deducing(g, s, p, open)
    ensures |s.clause| > 0
    ensures var s' := s.(clause := s.clause[0 := l]); SameSolver(g, s') && TrailOK(s', f) && FlagsListed(s')
  {
    hide Reasons, Shape, OnTrail, Levels;
    SameSolverTrail(g, f, s.(clause := s.clause[0 := l]));
  }

  lemma DeducedParts(g: State, f: Clauses, s: State, p: nat, open: nat)
    requires TrailOK(g, f) && Deducing(g, s, p, open)
    ensures SameSolver(g, s) && TrailOK(s, f) && FlagsListed(s)
  {
    hide Reasons, Shape, OnTrail, Levels;
    SameSolverTrail(g, f, s);
  }

  lemma PutFalse(s: State, f: Clauses, level: nat, l: Lit, reason: Reason)
    requires TrailOK(s, f) && l < |s.values| && s.values[l] == 0
    ensures Neg(l) < |s.values| && Var(l) < |s.assignments|
    ensures var t := Put(s, level, l, reason); True(t, l) && forall x: nat :: False(s, x) ==> False(t, x)
  {
    PutOthers(s, level, l, reason);
  }

  lemma PutLevel(s: State, f: Clauses, level: nat, l: Lit, reason: Reason)
    requires TrailOK(s, f) && l < |s.values| && s.values[l] == 0
    ensures Neg(l) < |s.values| && Var(l) < |s.assignments|
    ensures Level(Put(s, level, l, reason), l) == level && Put(s, level, l, reason).level == s.level
  {
    PutOthers(s, level, l, reason);
  }

  /** A literal above the new level is unassigned by backtracking. */
  lemma Unassigned(s0: State, s: State, f: Clauses, level: nat, l: Lit)
    requires TrailOK(s, f) && SameKept(s0, s, level) && False(s0, l) && Level(s0, l) > level
    ensures l < |s.values| && s.values[l] == 0
  {
    hide OnTrail, Levels, Reasons;
    assert !False(s, l) && !True(s, l);
  }

  lemma StillFalse(s0: State, s: State, level: nat, l: Lit)
    requires SameKept(s0, s, level) && False(s0, l) && Level(s0, l) <= level
    ensures False(s, l) && Level(s, l) == Level(s0, l)
  {
  }

  lemma UipBounds(s: State, c: seq<Lit>)
    requires FirstUip(s, c)
    ensures c != [] && False(s, c[0]) && Level(s, c[0]) == s.level
    ensures forall i :: 0 < i < |c| ==> Level(s, c[i]) < s.level && Var(c[i]) < |s.assignments|
  {
    assert c[0] in c;
    forall i | 0 < i < |c| ensures Var(c[i]) < |s.assignments| {
      assert c[i] in c;
    }
  }

  lemma SwapMembers(s0: State, s: State, f: Clauses, q: nat, notUip: Lit)
    requires TrailOK(s0, f) && FirstUip(s0, s0.clause) && |s0.clause| > 2 && Entails(f, s0.clause)
    requires notUip == s0.clause[0]
    requires 1 <= q < |s0.clause| && s == s0.(clause := Swap(s0.clause, 1, q))
    ensures TrailOK(s, f) && Entails(f, s.clause) && s.clause[0] == notUip
    ensures (forall l :: l in s.clause <==> l in s0.clause) && DistinctVars(s.clause)
    ensures forall l :: l in s.clause && l != notUip ==> exists i :: 0 < i < |s.clause| && s.clause[i] == l
  {
    var c, d := s0.clause, s.clause;
    forall l | l in c ensures l in d {
      var i :| 0 <= i < |c| && c[i] == l;
      assert d[if i == 1 then q else if i == q then 1 else i] == l;
    }
    forall l | l in d ensures l in c {
      var i :| 0 <= i < |d| && d[i] == l;
      assert c[if i == 1 then q else if i == q then 1 else i] == l;
    }
    EntailsMore(f, c, d);
    SameTrail(s0, s);
    hide Shape, OnTrail;
    forall i | 0 <= i < |s.trail| ensures ReasonAt(s, f, i) {
      SameReason(s0, f, s, i);
    }
  }

  lemma AddClauseKeeps(s: State, f: Clauses, c: seq<Lit>)
    requires TrailOK(s, f)
    ensures TrailOK(s.(clauses := s.clauses + [c]), f)
  {
    var t := s.(clauses := s.clauses + [c]);
    SameTrail(s, t);
    hide Shape, OnTrail;
    forall i | 0 <= i < |t.trail| ensures ReasonAt(t, f, i) {
      assert ReasonAt(s, f, i);
    }
  }

  lemma FlagsRefl(s: State)
    ensures FlagsKept(s, s)
  {
  }

  lemma ClauseFlags(s0: State, s: State)
    requires s == s0.(clause := s.clause, clauses := s.clauses)
    ensures FlagsKept(s0, s)
  {
  }

  lemma KeptClauses(s0: State, s: State, level: nat)
    requires SameKept(s0, s, level)
    ensures s.clauses == s0.clauses && s.clause == s0.clause
  {
  }

  lemma LearnedFalse(s0: State, s2: State, s: State, level: nat, jump: nat, notUip: Lit)
    requires FirstUip(s0, s0.clause) && notUip == s0.clause[0] && SameKept(s2, s, level) && jump <= level
    requires s2 == s0.(clause := s2.clause, clauses := s0.clauses + [s2.clause])
    requires forall l :: l in s2.clause <==> l in s0.clause
    requires forall l :: l in s2.clause && l != notUip ==> Level(s0, l) <= jump
    ensures |s0.clauses| < |s.clauses| && s.clauses[|s0.clauses|] == s2.clause
    ensures forall o :: o in s.clauses[|s0.clauses|] && o != notUip ==> False(s, o)
  {
    forall o | o in s2.clause && o != notUip ensures False(s, o) {
      assert False(s0, o);
      assert False(s2, o) && Level(s2, o) == Level(s0, o);
    }
  }

  /** The learned clause forces its first literal at the jump level. */
  lemma LearnedLevel(s0: State, s2: State, s3: State, s: State, level: nat, notUip: Lit, jump: nat)
    requires FirstUip(s0, s0.clause) && |s0.clause| > 2 && notUip == s0.clause[0] && SameKept(s2, s3, level)
    requires s2 == s0.(clause := s2.clause, clauses := s0.clauses + [s2.clause]) && |s2.clause| == |s0.clause|
    requires forall l :: l in s2.clause <==> l in s0.clause
    requires forall l :: l in s2.clause && l != notUip ==> Level(s0, l) <= jump
    requires s2.clause[1] != notUip && Level(s0, s2.clause[1]) == jump
    requires forall o :: o in s2.clause && o != notUip ==> Level(s3, o) <= Level(s, notUip)
    requires Level(s, notUip) > 0 ==> exists o :: o in s2.clause && o != notUip && Level(s3, o) == Level(s, notUip)
    ensures Level(s, notUip) == jump
    ensures exists l :: l in s0.clause && l != notUip && Level(s0, l) == Level(s, notUip)
    ensures forall l :: l in s0.clause && l != notUip ==> Level(s0, l) <= Level(s, notUip)
  {
    assert forall l: nat :: Level(s3, l) == Level(s0, l);
    assert s2.clause[1] in s2.clause;
  }

  function BackjumpLimit(options: Options): nat {
    if options.chrono then options.chronolevels else INVALID_LIT
  }

  lemma ConflictBound(s: State, f: Clauses, l: Lit)
    requires TrailOK(s, f) && False(s, l)
    ensures Level(s, l) <= s.level && Var(l) < |s.assignments|
  {
    FalseLevel(s, l);
  }

  lemma OtherForced(s: State, conflict: seq<Lit>, at: nat, forced: Lit, level: int, jump: int, count: nat)
    requires |conflict| > 1 && at < |conflict| && conflict[at] == forced && Level(s, forced) == level
    requires count == 1 ==> jump < level
    requires forall i :: 0 <= i < |conflict| && i != at ==> Level(s, conflict[i]) <= jump
    requires exists i :: 0 <= i < |conflict| && i != at && Level(s, conflict[i]) == jump
    ensures forall l :: l in conflict && l != forced ==> Level(s, l) <= jump
    ensures count == 1 ==> exists l :: l in conflict && l != forced && Level(s, l) == jump
  {
    var i :| 0 <= i < |conflict| && i != at && Level(s, conflict[i]) == jump;
    assert conflict[i] in conflict;
  }

  /** A conflict at the root level refutes the formula. */
  lemma ConflictEmpty(s: State, f: Clauses, c: seq<Lit>)
    requires TrailOK(s, f) && Entails(f, c) && forall l :: l in c ==> False(s, l) && Level(s, l) == 0
    ensures Entails(f, [])
  {
    hide Shape, OnTrail, Levels, Reasons;
    forall l | l in c ensures Entails(f, [Neg(l)]) {
      RootFalse(s, f, l);
    }
    DropRoots(f, c, []);
  }

  lemma ConflictKept(s0: State, s: State, c: seq<Lit>, level: nat)
    requires SameKept(s0, s, level) && forall l :: l in c ==> False(s0, l) && Level(s0, l) <= level
    ensures forall l :: l in c ==> False(s, l)
    ensures forall l: nat :: Level(s, l) == Level(s0, l)
    ensures s.clauses == s0.clauses && s.clause == s0.clause
    ensures forall l: nat :: False(s, l) ==> False(s0, l)
  {
  }

  lemma CountTwo(s: State, c: seq<Lit>, level: nat)
    requires exists i, j :: 0 <= i < j < |c| && Level(s, c[i]) == Level(s, c[j]) == level
    ensures CountLevel(s, c, level) > 1
  {
    var i, j :| 0 <= i < j < |c| && Level(s, c[i]) == Level(s, c[j]) == level;
    CountWithout(s, c, i, level);
    CountAt(s, Without(c, i), level, j - 1);
  }

  lemma OthersFalse(s0: State, s: State, c: seq<Lit>, level: nat, lit: Lit, jump: nat)
    requires SameKept(s0, s, level) && jump <= level
    requires forall l :: l in c ==> False(s0, l)
    requires forall l :: l in c && l != lit ==> Level(s0, l) <= jump
    ensures forall l :: l in c && l != lit ==> False(s, l) && Level(s, l) == Level(s0, l)
  {
  }

  lemma BinaryConflict(f: Clauses, c: seq<Lit>, lit: Lit, other: Lit)
    requires Entails(f, c) && |c| == 2 && lit in c && other == if c[0] == lit then c[1] else c[0]
    ensures Entails(f, [lit, other]) && other in c && forall l :: l in c && l != lit ==> l == other
  {
    EntailsMore(f, c, [lit, other]);
  }
}
