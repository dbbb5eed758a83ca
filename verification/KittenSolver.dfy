/**
  The embedded solver (kitten.c).  The struct kitten is the record `s`; each method
  updates its fields in place and is specified by the new record.
 */
module KittenSolver {
  import opened LinkedQueue
  import opened Literals
  import opened KittenModel
  import opened KittenPropagation
  import opened KittenSearch
  import opened KittenBacktrack
  import opened KittenAnalysis
  import opened KittenTermination
  import opened KittenAssumptions
  import opened KittenOutcome
  import opened KittenApi
  import opened KittenCore

  class Kitten {
    var s: State
    /** The variables in queue order. */
    ghost var order: seq<nat>

    // -------------------------------------------------------------- interface

    /** A solver for the variables below n, without clauses; tracked ones keep antecedents. */
    constructor (n: nat, tracked: bool)
      ensures Idle(s) && Queued(s, order) && s.status == 0 && s.klauses == [] && s.assumptions == []
      ensures |s.values| == 2 * n && s.tracked == tracked
    {
      s := Blank(n, tracked);
      order := [];
      new;
      hide Idle, CountFree, Base, QueueOK;
      BlankQueue(n, tracked);
      for idx := 0 to n
        invariant QueueOK(s.links, s.first, s.last, s.stamp, order) && |s.links| == n
        invariant |order| == idx && forall v :: 0 <= v < idx ==> order[v] == v
        invariant s == Blank(n, tracked).(links := s.links, first := s.first, last := s.last, stamp := s.stamp,
                                          unassigned := idx)
      {
        s := s.(unassigned := s.unassigned + 1);
        Enqueue(idx);
      }
      BlankIdle(n, tracked, s, order);
      s := s.(search := s.last);
    }

    /** Collects the literals of a new clause, but for one; the marks tell that no variable occurs twice. */
    method ImportClause(elits: seq<Lit>, except: int)
      requires s.klause == [] && |s.values| == 2 * |s.marks| && Proper(|s.values|, Excluding(elits, except, |elits|))
      requires forall v :: 0 <= v < |s.marks| ==> !s.marks[v]
      modifies this`s
      ensures s == old(s).(klause := Excluding(elits, except, |elits|), marks := s.marks) && |s.marks| == |old(s).marks|
      ensures forall v :: 0 <= v < |s.marks| ==> !s.marks[v]
    {
      ghost var c := Excluding(elits, except, |elits|);
      for k := 0 to |elits|
        invariant s == old(s).(klause := Excluding(elits, except, k), marks := s.marks) && |s.marks| == |old(s).marks|
        invariant forall v :: 0 <= v < |s.marks| && s.marks[v] ==> OfVar(s.klause, 0, v)
      {
        var elit := elits[k];
        if elit != except {
          WithoutBound(elits, except, k, |s.values|);
          assert !s.marks[Var(elit)];
          s := s.(marks := s.marks[Var(elit) := true]);
          OfVarPush(s.klause, elit);
          s := s.(klause := s.klause + [elit]);
        }
      }
      for k := 0 to |s.klause|
        invariant s == old(s).(klause := c, marks := s.marks) && |s.marks| == |old(s).marks|
        invariant forall v :: 0 <= v < |s.marks| && s.marks[v] ==> OfVar(c, k, v)
      {
        s := s.(marks := s.marks[Var(s.klause[k]) := false]);
      }
    }

    /** Adds an original clause, leaving out one literal; a status from an earlier search is reset. */
    method AddClause(elits: seq<Lit>, except: int)
      requires Idle(s) && Queued(s, order) && Proper(|s.values|, Excluding(elits, except, |elits|))
      modifies this`s
      ensures Idle(s) && Queued(s, order) && s.status == 0
      ensures s.assumptions == if old(s).status == 0 then old(s).assumptions else []
      ensures |s.klauses| == |old(s).klauses| + 1 && Similar(old(s).klauses, s.klauses)
      ensures s.klauses[|old(s).klauses|] == Klause(Excluding(elits, except, |elits|), false, false, [])
      ensures s.tracked == old(s).tracked && |s.values| == |old(s).values|
    {
      hide Base, Watched, Queued, Satisfied, Failed, Similar, NoCore, NoFlags, FlagsAssumed, Proper, Connect, Idle;
      if s.status != 0 {
        ResetIncremental();
      } else {
        SimilarRefl(s.klauses);
      }
      ghost var s1 := s;
      IdleParts(s);
      ImportClause(elits, except);
      var ref := |s.klauses|;
      s := s.(klauses := s.klauses + [Klause(s.klause, false, false, [])]);
      ConnectNewKlause(ref);
      s := s.(klause := []);
      AddIdle(s1, s, Excluding(elits, except, |elits|));
      QueueStays(s1, s, order);
      SimilarTrans(old(s).klauses, s1.klauses, s.klauses);
    }

    /** Assumes a literal for the next search; a status from an earlier search is reset. */
    method Assume(elit: Lit)
      requires Idle(s) && Queued(s, order) && elit < |s.values|
      modifies this`s
      ensures Idle(s) && Queued(s, order) && s.status == 0
      ensures s.assumptions == (if old(s).status == 0 then old(s).assumptions else []) + [elit]
      ensures Similar(old(s).klauses, s.klauses) && |s.klauses| == |old(s).klauses|
      ensures s.tracked == old(s).tracked && |s.values| == |old(s).values|
    {
      hide Base, Watched, Queued, Satisfied, Failed, Similar, NoCore, NoFlags, FlagsAssumed, Idle;
      if s.status != 0 {
        ResetIncremental();
      } else {
        SimilarRefl(s.klauses);
      }
      ghost var s1 := s;
      AssumeIdle(s, elit);
      s := s.(assumptions := s.assumptions + [elit]);
      QueueStays(s1, s, order);
    }

    // -------------------------------------------------------------- decision queue

    method UpdateSearch(idx: nat)
      modifies this`s
      ensures s == old(s).(search := idx)
    {
      if s.search == idx {
        return;
      }
      s := s.(search := idx);
    }

    method Enqueue(idx: nat)
      requires QueueOK(s.links, s.first, s.last, s.stamp, order)
      requires idx < |s.links| && idx !in order
      modifies this
      ensures QueueOK(s.links, s.first, s.last, s.stamp, order) && order == old(order) + [idx]
      ensures s == old(s).(links := s.links, first := s.first, last := s.last, stamp := old(s).stamp + 1)
      ensures SameStamps(old(s).links, s.links, idx) && s.links[idx].stamp == old(s).stamp
    {
      hide QueueOK;
      LinkKeeps(s.links, s.first, s.last, s.stamp, order, idx);
      var last := s.last;
      if last == INVALID {
        s := s.(first := idx);
      } else {
        s := s.(links := s.links[last := s.links[last].(next := idx)]);
      }
      s := s.(links := s.links[idx := Link(last, INVALID, s.stamp)], last := idx, stamp := s.stamp + 1);
      order := order + [idx];
    }

    method Dequeue(idx: nat, ghost i: nat)
      requires QueueOK(s.links, s.first, s.last, s.stamp, order)
      requires i < |order| && order[i] == idx && idx < |s.links|
      modifies this
      ensures QueueOK(s.links, s.first, s.last, s.stamp, order)
      ensures order == old(order)[..i] + old(order)[i + 1..]
      ensures s == old(s).(links := s.links, first := s.first, last := s.last)
      ensures SameStamps(old(s).links, s.links, idx) && s.links[idx].stamp == old(s).links[idx].stamp
    {
      hide QueueOK;
      UnlinkKeeps(s.links, s.first, s.last, s.stamp, order, i);
      var l := s.links[idx];
      var prev, next := l.prev, l.next;
      if prev == INVALID {
        s := s.(first := next);
      } else {
        s := s.(links := s.links[prev := s.links[prev].(next := next)]);
      }
      if next == INVALID {
        s := s.(last := prev);
      } else {
        s := s.(links := s.links[next := s.links[next].(prev := prev)]);
      }
      order := order[..i] + order[i + 1..];
    }

    method MoveToFront(idx: nat)
      requires Queued(s, order) && SearchOK(s.links, s.search, s.values)
      requires idx < |s.links| && 2 * idx < |s.values| && s.values[2 * idx] != 0
      modifies this
      ensures Queued(s, order) && SearchOK(s.links, s.search, s.values) && |s.links| == |old(s).links|
      ensures s == old(s).(links := s.links, first := s.first, last := s.last, stamp := s.stamp)
    {
      hide QueueOK, SearchOK, Complete;
      if idx == s.last {
        return;
      }
      ghost var i := MovedAbsent(s.links, s.first, s.last, s.stamp, order, idx);
      Dequeue(idx, i);
      Enqueue(idx);
      MovedComplete(old(s).links, old(order), i, s.links);
      MovedSearch(old(s).links, s.links, s.search, s.values, idx);
    }

    // -------------------------------------------------------------- clauses

    method WatchKlause(lit: Lit, ref: nat)
      requires ref < |s.klauses| && |s.klauses[ref].lits| >= 2 && lit < |s.watches|
      requires lit == s.klauses[ref].lits[0] || lit == s.klauses[ref].lits[1]
      modifies this`s
      ensures s == old(s).(watches := Watch(old(s).watches, lit, old(s).klauses[ref].lits, ref))
    {
      var c := s.klauses[ref];
      var blit := Other(c.lits, lit);
      s := s.(watches := s.watches[lit := s.watches[lit] + [Katch(blit, ref, |c.lits| == 2)]]);
    }

    method ConnectNewKlause(ref: nat)
      requires ref < |s.klauses| && Proper(|s.watches|, s.klauses[ref].lits)
      modifies this`s
      ensures s == Connected(old(s), ref)
    {
      var c := s.klauses[ref];
      if |c.lits| == 0 {
        if s.inconsistent == INVALID {
          s := s.(inconsistent := ref);
        }
      } else if |c.lits| == 1 {
        s := s.(units := s.units + [ref]);
      } else {
        WatchKlause(c.lits[0], ref);
        WatchKlause(c.lits[1], ref);
      }
    }

    /** Stores the clause in the buffer as a learned one. */
    method NewLearnedKlause() returns (res: nat)
      requires Proper(|s.watches|, s.klause)
      modifies this`s
      ensures res == |old(s).klauses| && s == Learn(old(s))
    {
      hide Proper, Connect;
      res := |s.klauses|;
      var aux := if s.tracked then s.resolved else [];
      s := s.(klauses := s.klauses + [Klause(s.klause, true, false, aux)]);
      ConnectNewKlause(res);
    }

    // -------------------------------------------------------------- assignment

    /** Collects the antecedents of a root-level unit: its reason and the units of the other literals. */
    method RootAntecedents(lit: Lit, reason: nat)
      requires reason < |s.klauses| && s.resolved == []
      modifies this`s
      ensures s == old(s).(resolved := RootRefs(old(s).vars, old(s).klauses[reason].lits, lit, reason,
                                                |old(s).klauses[reason].lits|))
    {
      hide RootRefs;
      var c := s.klauses[reason].lits;
      s := s.(resolved := s.resolved + [reason]);
      RootRefsStart(s.vars, c, lit, reason);
      for k := 0 to |c|
        invariant s == old(s).(resolved := RootRefs(old(s).vars, c, lit, reason, k))
      {
        RootRefsStep(s.vars, c, lit, reason, k);
        if c[k] != lit {
          s := s.(resolved := s.resolved + [Why(s.vars, c[k])]);
        }
      }
    }

    /** Learns the unit clause of a root-level literal. */
    method LearnUnit(lit: Lit, reason: nat) returns (unit: nat)
      requires reason < |s.klauses| && s.klause == [] && s.resolved == [] && lit < |s.watches|
      modifies this`s
      ensures unit == |old(s).klauses| && s == LearnRoot(old(s), lit, reason)
    {
      hide RootRefs, Connect;
      if s.tracked {
        RootAntecedents(lit, reason);
      }
      s := s.(klause := s.klause + [lit]);
      assert s.klause == [lit];
      unit := NewLearnedKlause();
      s := s.(resolved := []);
      s := s.(klause := []);
    }

    /** Assigns lit; at the root level its reason becomes a unit clause, learned if need be. */
    method Assign(lit: Lit, reason: int)
      requires Base(s) && s.klause == [] && s.resolved == [] && Assignable(s, lit, reason)
      modifies this`s
      ensures s == Assigns(old(s), lit, reason)
    {
      hide Base, LearnRoot;
      AssignsKeeps(s, lit, reason);
      var reason' := reason;
      if s.level == 0 {
        var c := s.klauses[reason];
        if |c.lits| > 1 {
          reason' := LearnUnit(lit, reason);
          LearnRootFrame(old(s), lit, reason);
        }
      }
      s := s.(values := s.values[lit := 1][Neg(lit) := -1], phases := s.phases[Var(lit) := lit % 2 == 1]);
      s := s.(trail := s.trail + [lit]);
      s := s.(vars := s.vars[Var(lit) := Kar(s.level, reason')]);
      s := s.(unassigned := s.unassigned - 1);
    }

    // -------------------------------------------------------------- propagation

    /** Finds a literal that is not false beyond the two watches. */
    method FindReplacement(c: seq<Lit>) returns (r: nat)
      requires |c| >= 2 && forall i :: 0 <= i < |c| ==> c[i] < |s.values|
      ensures 2 <= r <= |c|
      ensures r < |c| ==> s.values[c[r]] >= 0
      ensures forall j :: 2 <= j < r ==> s.values[c[j]] < 0
    {
      r := 2;
      while r != |c| && s.values[c[r]] < 0
        invariant 2 <= r <= |c|
        invariant forall j :: 2 <= j < r ==> s.values[c[j]] < 0
      {
        r := r + 1;
      }
    }

    /** Stores a katch in place; blit replaces its blocking literal. */
    method CopyKatch(l: Lit, q: nat, k: Katch)
      requires l < |s.watches| && q < |s.watches[l]|
      modifies this`s
      ensures s == old(s).(watches := old(s).watches[l := old(s).watches[l][q := k]])
    {
      s := s.(watches := s.watches[l := s.watches[l][q := k]]);
    }

    /** Exchanges the watch l of a clause for its literal j. */
    method Unwatch(l: Lit, p: nat, j: nat)
      requires l < |s.watches| && p < |s.watches[l]| && 2 <= j < |Lits(s.klauses, s.watches[l][p].ref)|
      requires Lits(s.klauses, s.watches[l][p].ref)[j] < |s.watches|
      modifies this`s
      ensures s == Move(old(s), l, p, j)
    {
      var ref := s.watches[l][p].ref;
      var c := s.klauses[ref].lits;
      var other, replacement := Other(c, l), c[j];
      s := s.(klauses := s.klauses[ref := s.klauses[ref].(lits := c[0 := other][1 := replacement][j := l])]);
      WatchKlause(replacement, ref);
    }

    /** Visits one katch of notLit: keeps it (at q), moves it elsewhere, or reports a conflict. */
    method VisitKatch(notLit: Lit, q: nat, p: nat) returns (conflict: int, q': nat)
      requires Sweeping(s, notLit, q, p) && HandledTo(s, notLit, p) && p < |s.watches[notLit]|
      requires s.klause == [] && s.resolved == []
      requires s.propagated < |s.trail| && notLit == Neg(s.trail[s.propagated])
      modifies this`s
      ensures Advances(old(s), s)
      ensures notLit < |s.watches| && |s.watches[notLit]| == |old(s).watches[notLit]|
      ensures Sweeping(s, notLit, q', p + 1)
      ensures conflict == INVALID ==> HandledTo(s, notLit, p + 1)
      ensures conflict != INVALID ==> Conflicting(s, conflict)
    {
      hide Sweeping, HandledTo, Advances, Assigns, Assignable, Conflicting, Base;
      conflict := INVALID;
      VisitingNext(s, notLit, q, p);
      CopyCase(s, notLit, q, p);
      var katch := s.watches[notLit][p];
      CopyKatch(notLit, q, katch);
      q' := q + 1;
      var ref, blit := katch.ref, katch.blit;
      ghost var s1 := s;
      if s.values[blit] > 0 {
        KeepCase(s, notLit, q', p, blit);
        return;
      }
      if katch.binary {
        BinaryForces(s, notLit, katch);
        if s.values[blit] < 0 {
          conflict := ref;
        } else {
          AssignCase(s, notLit, q', p, blit);
          Assign(blit, ref);
          AdvancesTrans(old(s), s1, s);
        }
        return;
      }
      conflict, q' := VisitKlause(notLit, q, p, katch);
      AdvancesTrans(old(s), s1, s);
    }

    /** Visits the clause of a katch whose blocking literal did not decide: looks at its other literals. */
    method VisitKlause(notLit: Lit, q: nat, p: nat, katch: Katch) returns (conflict: int, q': nat)
      requires Sweeping(s, notLit, q + 1, p + 1) && HandledTo(s, notLit, p) && q <= p < |s.watches[notLit]|
      requires s.watches[notLit][q] == s.watches[notLit][p] == katch && Visiting(s, notLit, katch) && !katch.binary
      requires s.klause == [] && s.resolved == []
      modifies this`s
      ensures Advances(old(s), s)
      ensures notLit < |s.watches| && |s.watches[notLit]| == |old(s).watches[notLit]|
      ensures Sweeping(s, notLit, q', p + 1)
      ensures conflict == INVALID ==> HandledTo(s, notLit, p + 1)
      ensures conflict != INVALID ==> Conflicting(s, conflict)
    {
      hide Sweeping, HandledTo, Advances, Assigns, Assignable, Conflicting, Base;
      conflict, q' := INVALID, q + 1;
      StayCase(s, notLit, q, p);
      var ref := katch.ref;
      var c := s.klauses[ref].lits;
      var other := Other(c, notLit);
      if s.values[other] > 0 {
        SweepReblit(s, notLit, q, p, katch.(blit := other));
        CopyKatch(notLit, q, katch.(blit := other));
        KeepCase(s, notLit, q', p, other);
        return;
      }
      var r := FindReplacement(c);
      if r != |c| {
        MoveCase(s, notLit, q, p, r);
        Unwatch(notLit, p, r);
        q' := q;
        return;
      }
      LastForces(s, notLit, katch);
      if s.values[other] < 0 {
        conflict := ref;
      } else {
        AssignCase(s, notLit, q', p, other);
        Assign(other, ref);
      }
    }

    /** Propagates one literal through the watch list of its negation, which is compacted in place. */
    method PropagateLiteral(lit: Lit) returns (conflict: int)
      requires Base(s) && Watched(s.klauses, s.watches) && s.klause == [] && s.resolved == []
      requires Propagated(s.klauses, s.values, s.vars, s.trail, s.propagated, s.level)
      requires s.propagated < |s.trail| && lit == s.trail[s.propagated] && Neg(lit) < |s.watches|
      modifies this`s
      ensures Advances(old(s), s) && Base(s) && Watched(s.klauses, s.watches)
      ensures Propagated(s.klauses, s.values, s.vars, s.trail, s.propagated, s.level)
      ensures conflict == INVALID ==> Handled(s.klauses, s.values, s.vars, Neg(lit), [], s.level)
      ensures conflict != INVALID ==> Conflicting(s, conflict)
    {
      hide Sweeping, HandledTo, Advances, Conflicting, Base, Watched, Propagated, Handled;
      var notLit := Neg(lit);
      var q: nat, p: nat := 0, 0;
      conflict := INVALID;
      SweepStart(s, notLit);
      AdvancesRefl(s);
      while p != |s.watches[notLit]| && conflict == INVALID
        invariant notLit < |s.watches| && 0 <= p <= |s.watches[notLit]| == |old(s).watches[notLit]|
        invariant Advances(old(s), s) && Sweeping(s, notLit, q, p)
        invariant conflict == INVALID ==> HandledTo(s, notLit, p)
        invariant conflict != INVALID ==> Conflicting(s, conflict)
        invariant s.klause == [] && s.resolved == []
        invariant s.propagated < |s.trail| && lit == s.trail[s.propagated]
        decreases |s.watches[notLit]| - p
      {
        ghost var s1 := s;
        conflict, q := VisitKatch(notLit, q, p);
        AdvancesTrans(old(s), s1, s);
        AdvancesFrame(s1, s);
        p := p + 1;
      }
      while p != |s.watches[notLit]|
        invariant notLit < |s.watches| && 0 <= p <= |s.watches[notLit]|
        invariant Advances(old(s), s) && Sweeping(s, notLit, q, p)
        invariant conflict == INVALID ==> p == |s.watches[notLit]| && HandledTo(s, notLit, p)
        invariant conflict != INVALID ==> Conflicting(s, conflict)
        decreases |s.watches[notLit]| - p
      {
        RestCase(s, notLit, q, p, conflict);
        AdvancesTrans(old(s), s, s.(watches := s.watches[notLit := s.watches[notLit][q := s.watches[notLit][p]]]));
        CopyKatch(notLit, q, s.watches[notLit][p]);
        q, p := q + 1, p + 1;
      }
      EndCase(s, notLit, q, conflict);
      AdvancesTrans(old(s), s, s.(watches := s.watches[notLit := s.watches[notLit][..q]]));
      s := s.(watches := s.watches[notLit := s.watches[notLit][..q]]);
    }

    /** Propagates until nothing is left to propagate or a clause is falsified. */
    method Propagate() returns (conflict: int)
      requires Base(s) && Watched(s.klauses, s.watches) && s.klause == [] && s.resolved == []
      requires Quiet(s, INVALID)
      modifies this`s
      ensures Extends(old(s), s) && Base(s) && Watched(s.klauses, s.watches) && Quiet(s, conflict)
      ensures conflict == INVALID ==> s.propagated == |s.trail|
      ensures conflict != INVALID ==> Conflicting(s, conflict)
    {
      hide Extends, Advances, Base, Watched, Propagated, Handled, Conflicting;
      conflict := INVALID;
      TrailBound(s);
      ExtendsRefl(s);
      while conflict == INVALID && s.propagated < |s.trail|
        invariant Extends(old(s), s) && Base(s) && Watched(s.klauses, s.watches) && Quiet(s, conflict)
        invariant s.klause == [] && s.resolved == [] && s.propagated <= |s.trail| && |s.vars| == |old(s).vars|
        invariant conflict != INVALID ==> Conflicting(s, conflict)
        decreases |old(s).vars| - s.propagated
      {
        var lit := s.trail[s.propagated];
        ghost var s1 := s;
        NextLit(s);
        TrailBound(s);
        conflict := PropagateLiteral(lit);
        AdvancesFrame(s1, s);
        PropagateStep(s, conflict);
        ExtendsStep(old(s), s1, s);
        s := s.(propagated := s.propagated + 1);
        TrailBound(s);
      }
    }

    // -------------------------------------------------------------- unassigning

    method Unassign(lit: Lit)
      requires Counted(s) && lit < |s.values| && s.values[lit] != 0
      modifies this`s
      ensures s == Unput(old(s), lit)
    {
      UnputKeeps(s, lit);
      var idx := Var(lit);
      s := s.(values := s.values[lit := 0][Neg(lit) := 0]);
      s := s.(unassigned := s.unassigned + 1);
      if s.links[idx].stamp > s.links[s.search].stamp {
        UpdateSearch(idx);
      }
    }

    /** Unassigns all literals above level jump. */
    method Backtrack(jump: nat)
      requires Base(s) && jump < s.level
      requires jump == 0 || exists i :: 0 <= i < |s.trail| && Lv(s.vars, s.trail[i]) == jump
      modifies this`s
      ensures exists m: nat :: CutAt(old(s), s, m, jump)
    {
      hide Base, Counted, Split, CutTo;
      ghost var k: nat := |s.trail|;
      PoppingStart(s);
      while |s.trail| != 0
        invariant Popping(old(s), s, k) && |s.trail| == k <= |old(s).trail|
        invariant forall i :: k <= i < |old(s).trail| ==> Lv(old(s).vars, old(s).trail[i]) != jump
        decreases |s.trail|
      {
        PoppingLit(old(s), s, k);
        var lit := s.trail[|s.trail| - 1];
        if Lv(s.vars, lit) == jump {
          break;
        }
        PoppingStep(old(s), s, k);
        s := s.(trail := s.trail[..|s.trail| - 1]);
        Unassign(lit);
        k := k - 1;
      }
      PoppingEnd(old(s), s, k, jump);
      s := s.(propagated := |s.trail|);
      s := s.(level := jump);
    }

    method CompletelyBacktrack()
      requires Base(s)
      modifies this`s
      ensures Base(s) && Fresh(s)
      ensures s == old(s).(values := s.values, unassigned := s.unassigned, search := s.search,
                           trail := [], propagated := 0, level := 0)
      ensures |s.values| == |old(s).values|
    {
      hide Base, Counted, UnitZero;
      ZeroingStart(s);
      for k := 0 to |s.trail|
        invariant Zeroing(old(s), s, k, 0)
      {
        ZeroingTrail(old(s), s, k);
        ZeroingLive(old(s), s, k);
        Unassign(s.trail[k]);
      }
      for u := 0 to |s.units|
        invariant Zeroing(old(s), s, |old(s).trail|, u)
      {
        ZeroingUnit(old(s), s, u);
        var unit := s.klauses[s.units[u]].lits[0];
        if s.values[unit] > 0 {
          Unassign(unit);
        }
      }
      ZeroingEnd(old(s), s);
      s := s.(trail := []);
      s := s.(propagated := 0);
      s := s.(level := 0);
    }

    method FlushTrail()
      requires Base(s) && s.level == 0 && s.propagated == |s.trail| && Quiet(s, INVALID)
      modifies this`s
      ensures s == old(s).(trail := [], propagated := 0) && Base(s) && Quiet(s, INVALID)
    {
      hide Base, Quiet;
      FlushKeeps(s);
      s := s.(propagated := 0);
      s := s.(trail := []);
    }

    // -------------------------------------------------------------- conflict analysis

    /** Marks the literals of a conflict or reason and buffers those below the conflict level. */
    method AnalyzeReason(reason: nat, ghost p: nat, open: nat, jump: nat) returns (open': nat, jump': nat)
      requires Analyzing(s, p, open, jump) && reason < |s.klauses|
      requires forall o :: o in s.klauses[reason].lits ==> Analyzable(s, s.level, p, o)
      modifies this`s
      ensures Analyzing(s, p, open', jump') && SameSearch(old(s), s)
      ensures s.resolved == old(s).resolved + [reason]
      ensures forall o :: o in s.klauses[reason].lits ==> Marks(s, o)
    {
      hide Analyzing, Analyzable, Buffered, Buffer;
      open', jump' := open, jump;
      var c := s.klauses[reason].lits;
      ResolvePush(s, p, open, jump, reason);
      PushAnalyzable(s, s.level, p, s.resolved + [reason]);
      s := s.(resolved := s.resolved + [reason]);
      for k := 0 to |c|
        invariant Analyzing(s, p, open', jump') && SameSearch(old(s), s) && s.resolved == old(s).resolved + [reason]
        invariant forall o :: o in c ==> Analyzable(s, s.level, p, o)
        invariant forall i :: 0 <= i < k ==> Marks(s, c[i])
      {
        var lit := c[k];
        AnalyzableBounds(s, p, open', jump', lit);
        if !s.marks[Var(lit)] {
          MarkKeeps(s, p, open', jump', lit);
          forall x | Analyzable(s, s.level, p, x) ensures Analyzable(Analyzed(s, lit, jump'), s.level, p, x) {
            StillAnalyzable(s, lit, jump', s.level, p, x);
          }
          open', jump' := MarkLiteral(lit, open', jump');
        }
      }
    }

    /** Marks one literal; a new highest level below that of the conflict moves it to the second position. */
    method MarkLiteral(lit: Lit, open: nat, jump: nat) returns (open': nat, jump': nat)
      requires Var(lit) < |s.marks| && |s.klause| >= 1
      modifies this`s
      ensures s == Analyzed(old(s), lit, jump) && jump' == Jump(old(s), lit, jump)
      ensures open' == open + if Lv(s.vars, lit) < s.level then 0 else 1
    {
      var pushed := lit;
      open', jump' := open, jump;
      s := s.(marks := s.marks[Var(lit) := true]);
      s := s.(analyzed := s.analyzed + [Var(lit)]);
      var tmp := Lv(s.vars, lit);
      if tmp < s.level {
        if tmp > jump {
          jump' := tmp;
          if |s.klause| > 1 {
            pushed := s.klause[1];
            s := s.(klause := s.klause[1 := lit]);
          }
        }
        s := s.(klause := s.klause + [pushed]);
      } else {
        open' := open + 1;
      }
    }

    /** Finds the last marked trail literal before position p. */
    method LastMarked(p: nat, ghost f: Final) returns (p': nat)
      requires Base(s) && p <= |s.trail| && Open(s, f.lo, p) > 0
      ensures p' < p && Marks(s, s.trail[p']) && f.lo <= Lv(s.vars, s.trail[p']) <= s.level
      ensures Open(s, f.lo, p) == Open(s, f.lo, p') + 1
      ensures Resolved(s, f, p) ==> Resolved(s, f, p' + 1)
      ensures forall i :: p' < i < p ==> !Marks(s, s.trail[i])
    {
      hide Base, Resolved;
      p' := p;
      while true
        invariant p' <= p && Open(s, f.lo, p') == Open(s, f.lo, p)
        invariant Resolved(s, f, p) ==> Resolved(s, f, p')
        invariant forall i :: p' <= i < p ==> !Marks(s, s.trail[i])
        decreases p'
      {
        WalkLevel(s, f.lo, p');
        MarksBound(s, s.trail[p' - 1]);
        p' := p' - 1;
        if s.marks[Var(s.trail[p'])] {
          break;
        }
        WalkStep(s, f, p' + 1);
      }
    }

    /** Unmarks the analyzed variables and moves them to the end of the decision queue. */
    method Bump()
      requires Base(s) && Queued(s, order) && MarkedOK(s)
      modifies this
      ensures Base(s) && Queued(s, order) && s.analyzed == []
      ensures forall v :: 0 <= v < |s.marks| ==> !s.marks[v]
      ensures s == old(s).(marks := s.marks, analyzed := [], links := s.links, first := s.first, last := s.last,
                           stamp := s.stamp)
    {
      hide Base, QueueOK, Complete, SearchOK;
      for k := 0 to |s.analyzed|
        invariant Base(s) && Queued(s, order) && |s.marks| == |old(s).marks|
        invariant s == old(s).(marks := s.marks, links := s.links, first := s.first, last := s.last, stamp := s.stamp)
        invariant forall v :: 0 <= v < |s.marks| && s.marks[v] ==> old(s).marks[v] && v !in s.analyzed[..k]
      {
        BumpBounds(old(s), s, k);
        ghost var s1 := s;
        s := s.(marks := s.marks[s.analyzed[k] := false]);
        MoveToFront(s.analyzed[k]);
        BumpKeeps(s1, s, s.analyzed[k]);
      }
      s := s.(analyzed := []);
      BumpEnd(s, old(s).analyzed);
    }

    /**
      Derives the clause of the first unique implication point into the buffer: it is implied by
      the resolved clauses, and false but for its first literal once the solver has jumped back.
     */
    method DeriveClause(conflict: nat) returns (jump: nat)
      requires Base(s) && s.level > 0 && Conflicting(s, conflict) && First(s.vars, s.trail)
      requires s.analyzed == [] && s.klause == [] && s.resolved == []
      requires forall v :: 0 <= v < |s.marks| ==> !s.marks[v]
      modifies this`s
      ensures Base(s) && MarkedOK(s)
      ensures s == old(s).(marks := s.marks, analyzed := s.analyzed, klause := s.klause, resolved := s.resolved)
      ensures Proper(|s.values|, s.klause) && Asserting(s, s.klause, jump)
      ensures Refs(s.resolved, |s.klauses|) && Entail(s.klauses, s.resolved, s.klause)
    {
      hide Base, Analyzable, Buffered, Resolved, MarkedOK, Refs, Conflicting, First, Proper, Asserting, Entail;
      AnalysisStart(s, conflict);
      s := s.(klause := s.klause + [0]);
      assert s.klause == [0];
      var open: nat, p: nat := 0, |s.trail|;
      open, jump := AnalyzeReason(conflict, p, 0, 0);
      assert s.resolved == [conflict];
      ConflictOpen(old(s), s, conflict);
      ConflictStays(old(s), s, conflict);
      ResolveFirst(s, conflict);
      p := LastMarked(p, Uip(s));
      open := open - 1;
      while open != 0
        invariant Analyzing(s, p, open, jump) && SameSearch(old(s).(klause := [0]), s)
        invariant p < |s.trail| && Marks(s, s.trail[p]) && Lv(s.vars, s.trail[p]) == s.level
        invariant Resolved(s, Uip(s), p + 1)
        decreases p
      {
        ghost var s1 := s;
        WalkReason(s, p);
        var reason := Why(s.vars, s.trail[p]);
        open, jump := AnalyzeReason(reason, p, open, jump);
        ResolveNext(s1, s, Uip(s), p, reason);
        StillOpen(s1, s, s.level, p);
        p := LastMarked(p, Uip(s));
        open := open - 1;
      }
      LearntEntailed(s, p, jump);
      LearntProper(s, p, jump);
      PokeKeeps(s, p, open, jump, Neg(s.trail[p]));
      s := s.(klause := s.klause[0 := Neg(s.trail[p])]);
    }

    /** Learns from a conflict, jumps back and asserts the learned clause. */
    method Analyze(conflict: nat)
      requires Searching(s) && Queued(s, order)
      requires s.level > 0 && Quiet(s, conflict) && Conflicting(s, conflict)
      modifies this
      ensures Searching(s) && Queued(s, order) && Quiet(s, INVALID)
      ensures SameFormula(old(s).klauses, s.klauses) && SameTask(old(s), s)
      ensures Weight(old(s)) < Weight(s)
    {
      hide Base, QueueOK, Complete, Watched, Quiet, Conflicting, MarkedOK, Proper, Refs, Entail, SameFormula,
           Connect, CutAt, Assigns, Weight, Assumed, Obedient, Inhabited, First, Learned, AfterBump, Learn, Assignable,
           Advances, UnitsTrue, NoFlags;
      var jump := DeriveClause(conflict);
      ghost var s1 := s;
      Bump();
      BumpedAfter(old(s), s1, s);
      BumpParts(old(s), s);
      AnalysisLearns(old(s), s, conflict, jump);
      ghost var c := s.klause;
      LearnFrame(s);
      var learnedRef := NewLearnedKlause();
      s := s.(resolved := []);
      s := s.(klause := []);
      ghost var s3 := s;
      JumpTarget(s, c, jump);
      LearnedParts(s, c, jump);
      var notUip := s.klauses[learnedRef].lits[0];
      Backtrack(jump);
      ghost var m: nat :| CutAt(s3, s, m, jump);
      AssertKeeps(s3, s, m, c, jump);
      AssertWeight(s3, s, m, c, jump);
      AssertFrame(s3, s, m, c, jump);
      AssertUnits(old(s), s3, s, m, c, jump);
      WeightSame(old(s), s3);
      SameFormulaTrans(old(s).klauses, s3.klauses, Assigns(s, c[0], learnedRef).klauses);
      CutFrame(s3, s, m, jump);
      Assign(notUip, learnedRef);
      SameFlags(old(s), s);
    }

    // -------------------------------------------------------------- failing assumptions

    /** Picks a false assumption: a root-level one, else one negated by a decision, else the first. */
    method FindFailed() returns (failed: Lit, unit: bool, clashing: bool)
      requires forall k :: 0 <= k < |s.assumptions| ==> s.assumptions[k] < |s.values|
      requires exists k :: 0 <= k < |s.assumptions| && s.values[s.assumptions[k]] < 0
      ensures failed in s.assumptions && failed < |s.values| && s.values[failed] < 0
      ensures unit <==> Lv(s.vars, failed) == 0
      ensures unit <==> exists k ::
                        0 <= k < |s.assumptions| && s.values[s.assumptions[k]] < 0 && Lv(s.vars, s.assumptions[k]) == 0
      ensures !unit ==> (clashing <==> Why(s.vars, failed) == INVALID)
    {
      var firstFailed, failedClashing, failedUnit := INVALID, INVALID, INVALID;
      for k := 0 to |s.assumptions|
        invariant failedUnit == INVALID
        invariant firstFailed == INVALID ==> forall j :: 0 <= j < k ==> s.values[s.assumptions[j]] >= 0
        invariant forall j :: 0 <= j < k && s.values[s.assumptions[j]] < 0 ==> Lv(s.vars, s.assumptions[j]) > 0
        invariant firstFailed != INVALID ==>
                    firstFailed >= 0 && firstFailed in s.assumptions && s.values[firstFailed] < 0 &&
                        Lv(s.vars, firstFailed) > 0
        invariant failedClashing == INVALID ==> firstFailed == INVALID || Why(s.vars, firstFailed) != INVALID
        invariant failedClashing != INVALID ==>
                    && failedClashing >= 0 && failedClashing in s.assumptions && s.values[failedClashing] < 0
                    && Lv(s.vars, failedClashing) > 0 && Why(s.vars, failedClashing) == INVALID
      {
        var lit := s.assumptions[k];
        if s.values[lit] < 0 {
          if Lv(s.vars, lit) == 0 {
            failedUnit := lit;
            break;
          }
          if firstFailed == INVALID {
            firstFailed := lit;
          }
          if failedClashing == INVALID && Why(s.vars, lit) == INVALID {
            failedClashing := lit;
          }
        }
      }
      unit, clashing := failedUnit != INVALID, failedClashing != INVALID;
      failed := if failedUnit != INVALID then failedUnit
                else if failedClashing != INVALID then failedClashing
                else firstFailed;
    }

    /** Marks the literals of a reason; root-level ones join the work list. */
    method FailingReason(reason: nat, ghost failed: Lit, ghost p: nat, open: nat, work: seq<nat>)
      returns (open': nat, work': seq<nat>)
      requires FailingAt(s, failed, p, open, work) && Collected(s, failed, p) && reason < |s.klauses|
      requires Sourced(s, failed) && (s.resolved != [] || Neg(failed) in s.klauses[reason].lits)
      requires forall o :: o in s.klauses[reason].lits ==> Analyzable(s, 1, p, o)
      modifies this`s
      ensures FailingAt(s, failed, p, open', work') && Collected(s, failed, p) && Sourced(s, failed)
      ensures SameSearch(old(s), s) && s.resolved == old(s).resolved + [reason]
      ensures forall o :: o in s.klauses[reason].lits ==> Marks(s, o)
    {
      hide FailingAt, Collected, Analyzable, Sourced, InResolved;
      open', work' := open, work;
      var c := s.klauses[reason].lits;
      SourcedPush(s, failed, reason);
      FailingPush(s, failed, p, open, work, reason);
      PushAnalyzable(s, 1, p, s.resolved + [reason]);
      s := s.(resolved := s.resolved + [reason]);
      for k := 0 to |c|
        invariant FailingAt(s, failed, p, open', work') && Collected(s, failed, p)
        invariant SameSearch(old(s), s) && s.resolved == old(s).resolved + [reason]
        invariant forall o :: o in c ==> Analyzable(s, 1, p, o)
        invariant forall i :: 0 <= i < k ==> Marks(s, c[i])
        invariant Sourced(s, failed) && forall o :: o in c ==> InResolved(s, o)
      {
        var other := c[k];
        FailingBounds(s, failed, p, open', work', other);
        if !s.marks[Var(other)] {
          FailingFalse(s, failed, p, open', work', other);
          SourcedMark(s, failed, other);
          InResolvedSame(s, Mark(s, other));
          MarkStep(s, failed, p, open', work', other);
          forall x | Analyzable(s, 1, p, x) ensures Analyzable(Mark(s, other), 1, p, x) {
            MarkAnalyzable(s, other, p, x);
          }
          s := s.(marks := s.marks[Var(other) := true]);
          if Lv(s.vars, other) > 0 {
            open' := open' + 1;
          } else {
            work' := work' + [Var(other)];
          }
          s := s.(analyzed := s.analyzed + [Var(other)]);
        }
      }
    }

    /**
      Walks back along the trail from a failed assumption: decisions are flagged and buffered,
      other literals resolved with their reasons.
     */
    method DeriveFailing(failed: Lit)
      requires CanStart(s, failed) && Deciding(s, s.level) && s.level <= |s.assumptions|
      modifies this`s
      ensures Base(s) && MarkedOK(s) && FlagsAssumed(s) && FlagsExact(s, s.klause)
      ensures forall l :: l in s.klause ==> InResolved(s, l)
      ensures s == old(s).(marks := s.marks, analyzed := s.analyzed, klause := s.klause, resolved := s.resolved,
                           failed := s.failed)
      ensures Proper(|s.values|, s.klause) && s.klause != []
      ensures Refs(s.resolved, |s.klauses|) && Entail(s.klauses, s.resolved, s.klause)
    {
      hide FailingAt, Collected, Analyzable, Resolved, CanStart, Base, Proper, Refs, Entail, MarkedOK, FlagsAssumed,
           Flagged, Assumed, Obedient, Inhabited, First, Worked, Sourced, FlagsExact, InResolved;
      StartBounds(s, failed);
      SourcedStart(s, failed);
      FailingStart(s, failed);
      s := s.(failed := s.failed[failed := true]);
      s := s.(marks := s.marks[Var(failed) := true]);
      s := s.(analyzed := s.analyzed + [Var(failed)]);
      s := s.(klause := s.klause + [Neg(failed)]);
      assert s.klause == [Neg(failed)];
      var work: seq<nat>, p: nat, open: nat := [], |s.trail|, 1;
      while open != 0
        invariant FailingAt(s, failed, p, open, work) && Collected(s, failed, p) && Resolved(s, Root(failed), p)
        invariant Sourced(s, failed) && (s.resolved != [] || open != 0)
        invariant s == old(s).(marks := s.marks, analyzed := s.analyzed, klause := s.klause, resolved := s.resolved,
                               failed := s.failed)
        decreases p
      {
        ghost var p0 := p;
        FailingParts(s, failed, p, open, work);
        p := LastMarked(p, Root(failed));
        open := open - 1;
        var uip := s.trail[p];
        var reason := Why(s.vars, uip);
        WalkedAt(s, failed, p0, p, open, work);
        SourcedWalk(s, failed, p0, p, open, work);
        if reason == INVALID {
          SkipCollected(s, failed, p0, p + 1);
          CollectStep(s, failed, p, open, work);
          CollectResolved(s, failed, p);
          CollectBounds(s, failed, p, open, work);
          SourcedCollect(s, failed, p);
          s := s.(failed := s.failed[uip := true]);
          s := s.(klause := s.klause + [Neg(uip)]);
        } else {
          SkipCollected(s, failed, p0, p);
          FailingReasonOK(s, p);
          ghost var s1 := s;
          open, work := FailingReason(reason, failed, p, open, work);
          ResolveNext(s1, s, Root(failed), p, reason);
        }
      }
      WorkedStart(s, work);
      for next := 0 to |work|
        invariant FailingAt(s, failed, p, 0, work) && Collected(s, failed, p) && Resolved(s, Root(failed), p)
        invariant Worked(s, work, next) && Sourced(s, failed) && s.resolved != []
        invariant s == old(s).(marks := s.marks, analyzed := s.analyzed, klause := s.klause, resolved := s.resolved,
                               failed := s.failed)
      {
        WorkStep(s, failed, p, 0, work, next);
        var reason := s.vars[work[next]].reason;
        FailingPush(s, failed, p, 0, work, reason);
        SourcedPush(s, failed, reason);
        s := s.(resolved := s.resolved + [reason]);
      }
      FailingParts(s, failed, p, 0, work);
      FailingEntailed(s, failed, p, work);
      FailingProper(s, failed, p);
      CollectedParts(s, failed, p);
      SourcedParts(s, failed);
    }

    /** Forgets the marks of the analyzed variables. */
    method Unmark()
      requires MarkedOK(s)
      modifies this`s
      ensures s == old(s).(marks := s.marks, analyzed := []) && |s.marks| == |old(s).marks|
      ensures forall v :: 0 <= v < |s.marks| ==> !s.marks[v]
    {
      for k := 0 to |s.analyzed|
        invariant s == old(s).(marks := s.marks) && |s.marks| == |old(s).marks|
        invariant forall v :: 0 <= v < |s.marks| && s.marks[v] ==> old(s).marks[v] && v !in s.analyzed[..k]
      {
        assert s.analyzed[k] in s.analyzed;
        s := s.(marks := s.marks[s.analyzed[k] := false]);
      }
      s := s.(analyzed := []);
    }

    // -------------------------------------------------------------- inconsistent clauses

    /** Marks the literals of a clause falsified at the root level. */
    method InconsistentReason(ref: nat)
      requires Shape(s.values, s.vars) && RootMarked(s) && ref < |s.klauses|
      requires forall o :: o in s.klauses[ref].lits ==> RootLit(s, o)
      modifies this`s
      ensures RootMarked(s) && SameSearch(old(s), s)
      ensures s.resolved == old(s).resolved + [ref] && s.klause == old(s).klause
      ensures forall o :: o in s.klauses[ref].lits ==> Marks(s, o)
      ensures (forall o :: o in s.klauses[ref].lits ==> Marks(old(s), o)) ==>
                s.analyzed == old(s).analyzed && s.marks == old(s).marks
    {
      hide RootMarked, Shape;
      var c := s.klauses[ref].lits;
      RootMarkedPush(s, s.resolved + [ref]);
      s := s.(resolved := s.resolved + [ref]);
      for k := 0 to |c|
        invariant RootMarked(s) && SameSearch(old(s), s)
        invariant s.resolved == old(s).resolved + [ref] && s.klause == old(s).klause
        invariant forall i :: 0 <= i < k ==> Marks(s, c[i])
        invariant (forall o :: o in c ==> Marks(old(s), o)) ==> s.analyzed == old(s).analyzed && s.marks == old(s).marks
      {
        var lit := c[k];
        assert lit in c && RootLit(old(s), lit);
        if !s.marks[Var(lit)] {
          RootMark(s, lit);
          s := s.(marks := s.marks[Var(lit) := true]);
          s := s.(analyzed := s.analyzed + [Var(lit)]);
        }
      }
    }

    /** Registers or, with antecedents, derives the reason for a conflict at the root level. */
    method Inconsistent(conflict: nat)
      requires Base(s) && Watched(s.klauses, s.watches) && Clean(s)
      requires s.inconsistent == INVALID && RootConflict(s, conflict)
      modifies this`s
      ensures Base(s) && Watched(s.klauses, s.watches) && Clean(s)
      ensures s == old(s).(inconsistent := s.inconsistent, klauses := s.klauses, marks := s.marks)
      ensures s.inconsistent != INVALID && SameFormula(old(s).klauses, s.klauses) && |s.marks| == |old(s).marks|
    {
      hide Base, Watched, RootConflict, RootLit, RootMarked, RootResolved, SameFormula, Entail;
      RootConflictIndex(s, conflict);
      if !s.tracked {
        InconsistentKeeps(s, conflict);
        SameFormulaRefl(s.klauses);
        s := s.(inconsistent := conflict);
        return;
      }
      ConflictRootLits(s, conflict);
      RootMarkedStart(s);
      MarkedBase(s, s);
      InconsistentReason(conflict);
      var next := 0;
      ghost var s1 := s;
      RootResolvedStart(s);
      while next != |s.analyzed|
        invariant 0 <= next <= |s.analyzed| && RootMarked(s) && RootResolved(s, next)
        invariant s == s1.(resolved := s.resolved) && conflict in s.resolved && Refs(s.resolved, |s.klauses|)
        decreases |s.analyzed| - next
      {
        var idx := s.analyzed[next];
        MarkedBase(old(s), s);
        RootReasonMarked(s, idx);
        ghost var s2 := s;
        InconsistentReason(s.vars[idx].reason);
        RootResolvedNext(s2, s, next);
        next := next + 1;
      }
      MarkedBase(old(s), s);
      MarkedConflict(old(s), s, conflict);
      RootEmpty(s, conflict);
      EmptyLearned(s);
      LearnFrame(s);
      var ref := NewLearnedKlause();
      s := s.(inconsistent := ref);
      ghost var s3 := s;
      RootMarkedSame(s1, s);
      RootMarkedOK(s);
      Unmark();
      s := s.(resolved := []);
      MarkedBase(s3, s);
    }

    /** Finds out which assumptions are to blame for a false one. */
    method Failing()
      requires Searching(s) && s.level <= |s.assumptions|
      requires exists k :: 0 <= k < |s.assumptions| && Falsified(s, s.assumptions[k])
      modifies this`s
      ensures Base(s) && Watched(s.klauses, s.watches) && Clean(s) && Failed(s)
      ensures SameFormula(old(s).klauses, s.klauses)
      ensures s == old(s).(failed := s.failed, failing := s.failing, klauses := s.klauses, units := s.units,
                           watches := s.watches, marks := s.marks)
    {
      hide Base, Watched, Deciding, UnitsTrue, NoFlags, Failed, SameFormula, MarkedOK, FlagsAssumed, Flagged, Proper,
           Refs, Entail, Blaming, CanStart, Learn, FlagsExact, InResolved;
      AssumptionBounds(s);
      var failed, unit, clashing := FindFailed();
      if unit {
        UnitFailing(s, failed);
        s := s.(failed := s.failed[failed := true]);
        s := s.(failing := Why(s.vars, failed));
        return;
      }
      if clashing {
        ClashFailing(s, failed);
        s := s.(failed := s.failed[failed := true]);
        s := s.(failed := s.failed[Neg(failed) := true]);
        return;
      }
      FailingCanStart(s, failed);
      DeriveFailing(failed);
      ghost var s1 := s;
      Unmark();
      BlamingDone(old(s), s1, s);
      SameFormulaRefl(s.klauses);
      if |s.resolved| == 1 {
        FailedReused(s);
        ReusedBase(s);
        s := s.(failing := s.resolved[0]);
      } else {
        FailedLearned(s);
        LearnFrame(s);
        var ref := NewLearnedKlause();
        s := s.(failing := ref);
      }
      s := s.(resolved := []);
      s := s.(klause := []);
    }

    // -------------------------------------------------------------- decisions

    /** The last enqueued unassigned variable, found by walking back from the search pointer. */
    method NextVariable() returns (idx: nat)
      requires Base(s) && Queued(s, order) && s.unassigned > 0
      ensures idx < |s.links| && 2 * idx < |s.values| && s.values[2 * idx] == 0 && AssignedAfter(s, idx)
    {
      hide Base, Queued, AssignedAfter;
      SearchStart(s);
      idx := s.search;
      while s.values[2 * idx] != 0
        invariant idx < |s.links| && AssignedAfter(s, idx)
        decreases s.links[idx].stamp
      {
        SearchStep(s, order, idx);
        idx := s.links[idx].prev;
      }
    }

    /** Skips assumptions that are true, one level each, up to one that is false or to be decided. */
    method NextAssumption() returns (decision: int, falsified: bool)
      requires Searching(s) && Quiet(s, INVALID) && s.propagated == |s.trail|
      modifies this`s
      ensures Searching(s) && Quiet(s, INVALID) && s == old(s).(level := s.level) && Weight(s) == Weight(old(s))
      ensures falsified ==> s.level < |s.assumptions| && Falsified(s, s.assumptions[s.level])
      ensures decision != INVALID ==> decision >= 0 && Decidable(s, decision) && s.unassigned > 0
      ensures !falsified && decision == INVALID ==> s.level >= |s.assumptions|
    {
      hide Base, QueueOK, Complete, Quiet, Watched, Deciding, UnitsTrue, NoFlags, Weight, Decidable;
      decision, falsified := INVALID, false;
      while s.level < |s.assumptions| && decision == INVALID
        invariant Searching(s) && Quiet(s, INVALID) && s == old(s).(level := s.level) && Weight(s) == Weight(old(s))
        invariant decision != INVALID ==> decision >= 0 && Decidable(s, decision) && s.unassigned > 0
        invariant !falsified
        decreases |s.assumptions| - s.level, decision == INVALID
      {
        var assumption := s.assumptions[s.level];
        AssumptionDecidable(s);
        var value := s.values[assumption];
        if value < 0 {
          falsified := true;
          return;
        } else if value > 0 {
          RaiseSearching(s);
          RaiseWeight(s);
          s := s.(level := s.level + 1);
        } else {
          decision := assumption;
        }
      }
    }

    /**
      Opens the next level: 10 if all variables are assigned, 20 if an assumption is false, -1 if
      the limit is reached (only if there is one), 0 after a decision.
     */
    method Decide(limited: bool, expired: bool) returns (res: int)
      requires Searching(s) && Queued(s, order) && Quiet(s, INVALID) && s.propagated == |s.trail|
      modifies this`s
      ensures Queued(s, order) && SameFormula(old(s).klauses, s.klauses) && s.assumptions == old(s).assumptions
      ensures Base(s) && Watched(s.klauses, s.watches) && Clean(s)
      ensures res == 0 || res == 10 || res == 20 || (res == -1 && limited && expired)
      ensures res == 0 ==> Searching(s) && Quiet(s, INVALID) && SameTask(old(s), s) && Weight(old(s)) < Weight(s)
      ensures res == 10 ==> Satisfied(s) && s.failing == INVALID && NoFlags(s)
      ensures res == 20 ==> Failed(s)
      ensures res == -1 ==> Searching(s)
      ensures s.tracked == old(s).tracked && s.core == old(s).core && s.status == old(s).status
      ensures |s.values| == |old(s).values| && |s.vars| == |old(s).vars|
    {
      hide Base, QueueOK, Complete, Quiet, Watched, Deciding, UnitsTrue, NoFlags, SameFormula, Assigns, Weight, Failed,
           Satisfied, Decidable;
      SameFormulaRefl(s.klauses);
      if s.level == 0 && |s.trail| != 0 {
        FlushSearching(s);
        FlushTrail();
      }
      var decision, falsified := NextAssumption();
      if falsified {
        Failing();
        return 20;
      }
      if s.unassigned == 0 {
        SearchSatisfied(s);
        return 10;
      }
      if limited && expired {
        return -1;
      }
      if decision == INVALID {
        FreeSome(s);
        var idx := NextVariable();
        SearchMoved(s, idx);
        UpdateSearch(idx);
        var phase := s.phases[idx];
        FreeDecidable(s, idx, phase);
        decision := 2 * idx + if phase then 1 else 0;
      }
      DecideKeeps(s, decision);
      DecideAssignable(s, decision);
      DecideFrame(s, decision);
      s := s.(level := s.level + 1);
      Assign(decision, INVALID);
      return 0;
    }

    // -------------------------------------------------------------- solving

    /** Assigns and propagates the unit clauses: 20 if they contradict the other clauses. */
    method PropagateUnits() returns (res: int)
      requires Base(s) && Watched(s.klauses, s.watches) && Clean(s) && Fresh(s)
      modifies this`s
      ensures Base(s) && Watched(s.klauses, s.watches) && Clean(s) && SameFormula(old(s).klauses, s.klauses)
      ensures res == 0 || res == 20
      ensures res == 0 ==> SameTask(old(s), s) && s.inconsistent == INVALID && s.level == 0
      ensures res == 0 ==> UnitsTrue(s.klauses, s.values, s.vars, 0) && Quiet(s, INVALID)
      ensures res == 20 ==> s.inconsistent != INVALID
      ensures s == old(s).(values := s.values, vars := s.vars, phases := s.phases, trail := s.trail,
                           unassigned := s.unassigned, klauses := s.klauses, units := s.units, watches := s.watches,
                           propagated := s.propagated, inconsistent := s.inconsistent, marks := s.marks)
    {
      hide Base, Watched, Quiet, SameFormula, UnitsTrue, UnitsDone, Assigns, AllZero, RootConflict, Conflicting,
           Extends, Assignable, UnitTrue;
      SameFormulaRefl(s.klauses);
      if s.inconsistent != INVALID {
        return 20;
      }
      FreshQuiet(s);
      UnitsNone(s);
      if |s.units| == 0 {
        UnitsAllTrue(s);
        return 0;
      }
      ghost var units := s.units;
      for next := 0 to |s.units|
        invariant Base(s) && Watched(s.klauses, s.watches) && Clean(s) && Quiet(s, INVALID) && UnitsDone(s, next)
        invariant s.level == 0 && s.units == units && s.klauses == old(s).klauses
        invariant s == old(s).(values := s.values, vars := s.vars, phases := s.phases, trail := s.trail,
                               unassigned := s.unassigned)
        invariant |s.values| == |old(s).values| && |s.vars| == |old(s).vars|
      {
        var ref := s.units[next];
        UnitIndex(s, next);
        var unit := s.klauses[ref].lits[0];
        var value := s.values[unit];
        if value > 0 {
          UnitSkipped(s, next);
        } else if value < 0 {
          UnitConflict(s, next);
          Inconsistent(ref);
          return 20;
        } else {
          UnitBounds(s, next);
          UnitAssigned(s, next);
          UnitFrame(s, unit, ref);
          Assign(unit, ref);
        }
      }
      UnitsAllTrue(s);
      ghost var s1 := s;
      var conflict := Propagate();
      ExtendsUnits(s1, s);
      ExtendsParts(s1, s);
      if conflict == INVALID {
        return 0;
      }
      RootConflicts(s, conflict);
      RootConflictIndex(s, conflict);
      ghost var s2 := s;
      Inconsistent(conflict);
      SameFormulaTrans(old(s).klauses, s2.klauses, s.klauses);
      return 20;
    }

    /** Forgets the assumptions, which of them failed and why. */
    method ResetAssumptions()
      requires Base(s) && FlagsAssumed(s)
      modifies this`s
      ensures Base(s) && NoFlags(s)
      ensures s == old(s).(assumptions := [], failed := s.failed, failing := INVALID)
    {
      hide Base;
      while |s.assumptions| != 0
        invariant Base(s) && FlagsAssumed(s) && |s.failed| == |old(s).failed|
        invariant s == old(s).(assumptions := s.assumptions, failed := s.failed)
        decreases |s.assumptions|
      {
        var n := |s.assumptions| - 1;
        var assumption := s.assumptions[n];
        ResetFlag(s, assumption);
        ResetBase(s, n, s.failed[assumption := false]);
        ghost var s1 := s;
        s := s.(assumptions := s.assumptions[..n]);
        s := s.(failed := s.failed[assumption := false]);
        ResetFlags(s1, s, n);
      }
      FailingBase(s, INVALID);
      ResetNone(s);
      s := s.(failing := INVALID);
    }

    /** Clears the core. */
    method ResetCore()
      requires Base(s) && Watched(s.klauses, s.watches)
      modifies this`s
      ensures Base(s) && Watched(s.klauses, s.watches) && NoCore(s.klauses)
      ensures s == old(s).(klauses := s.klauses, core := []) && Similar(old(s).klauses, s.klauses)
      ensures |s.klauses| == |old(s).klauses|
    {
      hide Base, Watched, Similar;
      for k := 0 to |s.klauses|
        invariant s == old(s).(klauses := s.klauses) && |s.klauses| == |old(s).klauses|
        invariant forall r :: 0 <= r < |s.klauses| ==> s.klauses[r] == old(s).klauses[r].(core := s.klauses[r].core)
        invariant forall r :: 0 <= r < k ==> !s.klauses[r].core
      {
        if s.klauses[k].core {
          s := s.(klauses := s.klauses[k := s.klauses[k].(core := false)]);
        }
      }
      CoreFlagsKeep(old(s), s.klauses);
      FlagsSimilar(old(s).klauses, s.klauses);
      CoreBase(s, []);
      s := s.(core := []);
    }

    /** Forgets the assumptions, if there are any. */
    method DropAssumptions()
      requires Base(s) && FlagsAssumed(s) && (s.assumptions == [] ==> s.failing == INVALID)
      modifies this`s
      ensures Base(s) && NoFlags(s)
      ensures s == old(s).(assumptions := [], failed := s.failed, failing := INVALID)
    {
      hide Base;
      if |s.assumptions| != 0 {
        ResetAssumptions();
      } else {
        FlagsNone(s);
      }
    }

    /** Returns to the initial status before the formula or the assumptions change. */
    method ResetIncremental()
      requires Idle(s) && Queued(s, order)
      modifies this`s
      ensures Idle(s) && Queued(s, order) && s.status == 0 && s.assumptions == [] && Fresh(s)
      ensures Similar(old(s).klauses, s.klauses) && |s.klauses| == |old(s).klauses|
      ensures s.tracked == old(s).tracked && |s.values| == |old(s).values|
    {
      hide Base, Watched, FlagsAssumed, Queued, AllZero, NoFlags, Satisfied, Failed, NoCore, Similar;
      SimilarRefl(s.klauses);
      CompletelyBacktrack();
      ghost var s1 := s;
      FlagsSame(old(s), s);
      DropAssumptions();
      ghost var s2 := s;
      if s.status == 21 {
        ResetCore();
      }
      ResetStatus(s, 0);
      s := s.(status := 0);
      ResetDone(s1, s2, s);
      QueueStays(old(s), s, order);
    }

    /** Unassigns everything before a search; a status from an earlier search is reset. */
    method Restart()
      requires Idle(s) && Queued(s, order)
      modifies this`s
      ensures Ready(s) && Queued(s, order) && Grown(old(s).klauses, s.klauses)
      ensures s.assumptions == if old(s).status == 0 then old(s).assumptions else []
      ensures s.tracked == old(s).tracked && |s.values| == |old(s).values|
    {
      hide Base, Watched, Queued, Satisfied, Failed, Similar, NoCore, AllZero, NoFlags, FlagsAssumed;
      if s.status != 0 {
        ResetIncremental();
        FlagsNone(s);
      } else {
        CompletelyBacktrack();
        SimilarRefl(s.klauses);
        SameFlags(old(s), s);
        QueueStays(old(s), s, order);
      }
    }

    /** Publishes the result of a search; without a result the assumptions are forgotten. */
    method Conclude(result: int, ghost s0: State) returns (res: int)
      requires Ready(s0) && Ongoing(s0, s, result) && Queued(s, order)
      requires result == 10 || result == 20 || result == -1
      modifies this`s
      ensures res == if result < 0 then 0 else result
      ensures Idle(s) && Queued(s, order) && s.status == res
      ensures Grown(s0.klauses, s.klauses) && s.tracked == s0.tracked && |s.values| == |s0.values|
      ensures s.assumptions == if res == 0 then [] else s0.assumptions
      ensures res == 20 ==> Explained(s)
      ensures res == 10 ==> Satisfied(s)
    {
      hide Base, Watched, Queued, Satisfied, Failed, Similar, AllZero, NoFlags, FlagsAssumed,
           Searching, UnitsTrue, Quiet;
      res := if result < 0 then 0 else result;
      OngoingParts(s0, s, result);
      if res == 0 && |s.assumptions| != 0 {
        ResetAssumptions();
      }
      Concluded(s0, old(s), s, result);
      s := s.(status := res);
      StatusOutcome(old(s), res);
      QueueStays(old(s), s, order);
    }

    /**
      Decides whether the clauses and the assumptions have a common model: 10 if so, 20 if not, and
      0, forgetting the assumptions, if a limit was set and reached.
     */
    method Solve(limited: bool) returns (res: int)
      requires Idle(s) && Queued(s, order)
      modifies this
      ensures Idle(s) && Queued(s, order) && s.status == res && Grown(old(s).klauses, s.klauses)
      ensures res == 10 || res == 20 || (res == 0 && limited)
      ensures s.assumptions == if old(s).status == 0 && res != 0 then old(s).assumptions else []
      ensures Answered(old(s).klauses, s)
      ensures res == 10 ==> Consistent(old(s).klauses, s.assumptions)
      ensures res == 20 ==> !Consistent(old(s).klauses, s.assumptions)
      ensures s.tracked == old(s).tracked && |s.values| == |old(s).values|
    {
      hide Base, Watched, Queued, Satisfied, Failed, NoCore, SameFormula, Grown, Consistent, Answered, Ongoing, Quiet,
           Searching, Weight, WeightLimit, NoFlags, UnitsTrue, Extends, Ready, Idle, SameTask, RootConflict;
      Restart();
      ghost var s0 := s;
      ReadyParts(s);
      res := PropagateUnits();
      OngoingUnits(s0, s, res);
      QueueStays(s0, s, order);
      ghost var limit := WeightLimit(s);
      while res == 0
        invariant Ongoing(s0, s, res) && Queued(s, order)
        invariant res == 10 || res == 20 || res == 0 || (res == -1 && limited)
        invariant res == 0 ==> WeightLimit(s) == limit
        decreases if res == 0 then limit - Weight(s) + 1 else 0
      {
        ghost var s1 := s;
        OngoingParts(s0, s, res);
        WeightBound(s);
        var conflict := Propagate();
        OngoingExtends(s0, s1, s);
        QueueStays(s1, s, order);
        ghost var s2 := s;
        if conflict != INVALID {
          ConflictIndex(s, conflict);
          if s.level > 0 {
            Analyze(conflict);
            OngoingTask(s0, s2, s);
          } else {
            RootConflicts(s, conflict);
            Inconsistent(conflict);
            OngoingInconsistent(s0, s2, s);
            QueueStays(s2, s, order);
            res := 20;
          }
        } else {
          var expired: bool := *;
          res := Decide(limited, expired);
          OngoingDecided(s0, s2, s, res);
        }
      }
      res := Conclude(res, s0);
      GrownTrans(old(s).klauses, s0.klauses, s.klauses);
      Outcome(old(s).klauses, s);
    }

    // -------------------------------------------------------------- the core

    /** Pushes the antecedents that are not core yet. */
    method PushAntecedents(c: Klause)
      requires Refs(c.antecedents, |s.klauses|)
      modifies this`s
      ensures s == old(s).(resolved := Pushed(s.klauses, old(s).resolved, c.antecedents, |c.antecedents|))
    {
      for k := 0 to |c.antecedents|
        invariant s == old(s).(resolved := Pushed(s.klauses, old(s).resolved, c.antecedents, k))
      {
        var a := c.antecedents[k];
        if !s.klauses[a].core {
          s := s.(resolved := s.resolved + [a]);
        }
      }
    }

    /** Opens the clause on top of the stack: its antecedents that are not core come first. */
    method OpenKlause(ref: nat)
      requires ref < |s.klauses|
      requires s.klauses[ref].learned ==> Refs(s.klauses[ref].antecedents, |s.klauses|)
      modifies this`s
      ensures s == old(s).(resolved := Opened(s.klauses, old(s).resolved + [ref], ref))
    {
      hide Pushed, Refs;
      var c := s.klauses[ref];
      s := s.(resolved := s.resolved + [ref]);
      s := s.(resolved := s.resolved + [INVALID]);
      if c.learned {
        PushAntecedents(c);
      }
    }

    /** Lists a clause after the clauses from which it was derived, with an explicit stack. */
    method ListCore(reason: nat) returns (original: nat, learned: nat)
      requires s.resolved == [reason] && s.core == [] && Derived(s.klauses)
      requires Collecting(s.klauses, [], [reason], reason)
      modifies this`s
      ensures s == old(s).(klauses := s.klauses, core := s.core, resolved := [])
      ensures CoreFlags(old(s).klauses, s.klauses) && Derived(s.klauses) && Collecting(s.klauses, s.core, [], reason)
      ensures original == CountKind(s.klauses, s.core, false) && learned == CountKind(s.klauses, s.core, true)
    {
      hide Derived, Collecting, Needed, Rest, CountKind, CoreFlags, Opened;
      original, learned := 0, 0;
      CoreFlagsRefl(s);
      while |s.resolved| != 0
        invariant s == old(s).(klauses := s.klauses, core := s.core, resolved := s.resolved)
        invariant CoreFlags(old(s).klauses, s.klauses) && Derived(s.klauses)
        invariant Collecting(s.klauses, s.core, s.resolved, reason)
        invariant original == CountKind(s.klauses, s.core, false) && learned == CountKind(s.klauses, s.core, true)
        decreases Rest(s.klauses, s.resolved), |s.resolved|
      {
        ghost var s1 := s;
        var cRef := s.resolved[|s.resolved| - 1];
        s := s.(resolved := s.resolved[..|s.resolved| - 1]);
        if cRef == INVALID {
          CoreClose(s1.klauses, s1.core, s1.resolved, reason);
          CloseCount(s1.klauses, s1.core, s1.resolved[|s1.resolved| - 2]);
          CloseFlags(old(s).klauses, s1.klauses, s1.resolved[|s1.resolved| - 2]);
          var dRef := s.resolved[|s.resolved| - 1];
          s := s.(resolved := s.resolved[..|s.resolved| - 1]);
          assert s.resolved == s1.resolved[..|s1.resolved| - 2];
          s := s.(core := s.core + [dRef]);
          s := s.(klauses := s.klauses[dRef := s.klauses[dRef].(core := true)]);
          if s.klauses[dRef].learned {
            learned := learned + 1;
          } else {
            original := original + 1;
          }
        } else {
          TopEntry(s1.klauses, s1.core, s1.resolved, reason);
          if s.klauses[cRef].core {
            CoreDrop(s1.klauses, s1.core, s1.resolved, reason);
          } else {
            CoreOpen(s1.klauses, s1.core, s1.resolved, reason);
            assert s.resolved + [cRef] == s1.resolved;
            OpenKlause(cRef);
          }
        }
      }
    }

    /** Lists a core of clauses that refutes, counting its original and its learned clauses. */
    method ComputeClausalCore() returns (original: nat, learned: nat)
      requires Idle(s) && Queued(s, order) && s.status == 20 && s.tracked
      modifies this`s
      ensures Idle(s) && Queued(s, order) && CoreOK(s)
      ensures s == old(s).(klauses := s.klauses, core := s.core, status := 21)
      ensures CoreFlags(old(s).klauses, s.klauses)
      ensures original == CountKind(s.klauses, s.core, false) && learned == CountKind(s.klauses, s.core, true)
    {
      hide Base, Watched, Failed, Idle, Derived, Collecting, CoreOK, CoreListed, Needed,
           Rest, NoCore, Blames, CountKind,
           Queued, CoreFlags, Opened;
      original, learned := 0, 0;
      CoreStarts(s);
      var reason := s.inconsistent;
      if reason == INVALID {
        reason := s.failing;
        if reason == INVALID {
          ClashCore(s);
          CoreOKSame(s);
          CoreFlagsRefl(s);
          CoreIdle(s, s);
          s := s.(status := 21);
          QueueStays(old(s), s, order);
          return;
        }
      }
      s := s.(resolved := s.resolved + [reason]);
      assert s.resolved == [reason];
      CoreSearch(s.klauses, reason);
      original, learned := ListCore(reason);
      CoreIdle(old(s), s);
      CoreDone(s);
      CoreOKSame(s);
      s := s.(status := 21);
      QueueStays(old(s), s, order);
    }
  }
}
