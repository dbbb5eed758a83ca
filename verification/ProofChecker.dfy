/**
  The internal proof checker (check.c): propagation, checking a clause by assigning its negation,
  and storing it.  Whatever is accepted keeps the clauses satisfiable.
 */
module ProofChecker {
  import opened Literals
  import opened Sequences
  import opened RootValues
  import opened CheckerModel
  import opened Sorting
  import opened LineTable

  class Checker {
    var s: State
    const index: LineTable.Index
    const hashOf: seq<Lit> -> nat
    ghost var added: seq<seq<Lit>>

    /** What holds between two calls: the root level. */
    ghost predicate Valid()
      reads this, index
    {
      && TableOK(s.lines, index.table, index.buckets)
      && Good(s) && Sound(s, added, []) && Covers(s, added) && (!s.inconsistent ==> Propagated(s, s.propagated))
      && (s.inconsistent ==> forall m: Model :: !AllSat(m, added))
    }

    constructor (n: nat, hashOf: seq<Lit> -> nat)
      requires n % 2 == 0
      ensures Valid() && fresh(index) && added == [] && |s.values| == n && !s.inconsistent
    {
      s := State(false, [], seq(n, _ => []), seq(n, _ => 0), [], 0, seq(n, _ => false), seq(n, _ => false));
      index := new LineTable.Index();
      this.hashOf := hashOf;
      added := [];
    }

    method Assign(lit: Lit)
      requires lit < |s.values| && Neg(lit) < |s.values|
      modifies this`s
      ensures s == Assigned(old(s), lit)
    {
      s := s.(values := s.values[lit := 1][Neg(lit) := -1]);
      s := s.(trail := s.trail + [lit]);
    }

    /** Searches an unwatched literal of a line that is not false. */
    method FindReplacement(b: nat, notLit: Lit, other: Lit) returns (r: nat)
      requires b < |s.lines| && |s.lines[b].lits| >= 2 && ValuesOK(s.values)
      requires forall l :: l in s.lines[b].lits ==> l < |s.values|
      requires False(s.values, notLit) && (s.lines[b].lits[0] == notLit || s.lines[b].lits[1] == notLit)
      requires other == Other(s.lines[b].lits, notLit)
      ensures 2 <= r <= |s.lines[b].lits|
      ensures var c := s.lines[b].lits;
              r < |c| ==> c[r] != other && c[r] != notLit && c[r] < |s.values| && !False(s.values, c[r])
      ensures var c := s.lines[b].lits; r == |c| ==> forall l :: l in c ==> l == other || False(s.values, l)
    {
      var c := s.lines[b].lits;
      r := 2;
      while r < |c|
        invariant 2 <= r <= |c|
        invariant forall k :: 0 <= k < r ==> c[k] == other || False(s.values, c[k])
      {
        assert c[r] in c;
        if c[r] != other && c[r] != notLit && s.values[c[r]] >= 0 {
          return;
        }
        r := r + 1;
      }
    }

    /**
      Visits one line in the list of a false literal: kept, watched elsewhere, or, if its other watch is all that
      is left, unit or falsified.
     */
    method VisitLine(notLit: Lit, ghost p: nat, ghost kept: seq<nat>, ghost rest: seq<nat>,
                     b: nat, ghost ds: seq<Lit>, ghost root: seq<int>, ghost base: seq<int>)
      returns (keep: bool, ok: bool)
      requires Sweeping(s, p, notLit, kept, rest) && rest != [] && rest[0] == b && Sound(s, added, ds)
      requires RootSafe(s.lines, root) && Extends(root, s.values) && Least(s.lines, base, s.values)
      modifies this`s
      ensures s.inconsistent == old(s).inconsistent && s.used == old(s).used && s.large == old(s).large
      ensures s.propagated == old(s).propagated
      ensures old(s).trail <= s.trail
      ensures SameLines(old(s).lines, s.lines) && Extends(old(s).values, s.values) && Sound(s, added, ds)
      ensures RootSafe(s.lines, root) && Extends(root, s.values) && Least(s.lines, base, s.values)
      ensures ok ==> Sweeping(s, p, notLit, if keep then kept + [b] else kept, rest[1..])
      ensures !ok ==> keep && s == old(s) && b < |s.lines| && s.lines[b].live && Falsified(s.values, s.lines[b].lits)
      ensures notLit < |s.watches| == |old(s).watches| && s.watches[notLit] == old(s).watches[notLit]
    {
      hide Sweeping, Sound, RootSafe, Good, Virtual, Least;
      SweepFacts(s, p, notLit, kept, rest);
      SameLinesRefl(s.lines);
      var c := s.lines[b].lits;
      var other := Other(c, notLit);
      if s.values[other] > 0 {
        SweepKeep(s, p, notLit, kept, rest);
        return true, true;
      }
      var r := FindReplacement(b, notLit, other);
      if r < |c| {
        var replacement := c[r];
        SweepMove(s, p, notLit, kept, rest, r);
        MovedSame(s, notLit, b, r);
        LeastSame(s.lines, Moved(s, notLit, b, r).lines, base, s.values);
        MoveRootSafe(s, notLit, b, r, root);
        SoundSame(s, Moved(s, notLit, b, r), added, ds);
        s := s.(lines := s.lines[b := s.lines[b].(lits := c[0 := other][1 := replacement][r := notLit])]);
        s := s.(watches := s.watches[replacement := s.watches[replacement] + [b]]);
        return false, true;
      }
      if s.values[other] < 0 {
        return true, false;
      }
      LineImplied(s, added, ds, b);
      UnitForced(s, added, ds, c, other);
      LeastAssign(s.lines, base, s.values, b, other);
      SweepAssign(s, p, notLit, kept, rest, other);
      AssignSound(s, added, ds, other);
      Assign(other);
      return true, true;
    }

    /** Propagates the next literal of the trail. */
    method PropagateNext(ghost ds: seq<Lit>, ghost root: seq<int>, ghost base: seq<int>) returns (ok: bool)
      requires Good(s) && s.propagated < |s.trail| && Propagated(s, s.propagated) && Sound(s, added, ds)
      requires RootSafe(s.lines, root) && Extends(root, s.values) && Least(s.lines, base, s.values)
      modifies this`s
      ensures Good(s) && s.inconsistent == old(s).inconsistent && old(s).trail <= s.trail
      ensures s.used == old(s).used && s.large == old(s).large
      ensures s.propagated == old(s).propagated + 1 && (ok ==> Propagated(s, s.propagated))
      ensures SameLines(old(s).lines, s.lines) && Extends(old(s).values, s.values) && Sound(s, added, ds)
      ensures RootSafe(s.lines, root) && Extends(root, s.values) && Least(s.lines, base, s.values)
      ensures !ok ==> exists b :: 0 <= b < |s.lines| && s.lines[b].live && Falsified(s.values, s.lines[b].lits)
    {
      hide Sweeping, Sound, RootSafe, Good, Propagated, Falsified, Least;
      NextFacts(s);
      var lit := s.trail[s.propagated];
      var notLit := Neg(lit);
      SweepStart(s, s.propagated, notLit);
      SoundPropagated(s, added, ds);
      s := s.(propagated := s.propagated + 1);
      SweepingCount(old(s), s, s.propagated, notLit, s.watches[notLit]);
      ghost var p := s.propagated;
      var ws := s.watches[notLit];
      var kept: seq<nat> := [];
      ok := true;
      var i := 0;
      SameLinesRefl(s.lines);
      while i < |ws|
        invariant 0 <= i <= |ws| && notLit < |s.watches| && s.watches[notLit] == ws && s.propagated == p
        invariant s.inconsistent == old(s).inconsistent && old(s).trail <= s.trail
        invariant s.used == old(s).used && s.large == old(s).large
        invariant SameLines(old(s).lines, s.lines) && Extends(old(s).values, s.values) && Sound(s, added, ds)
        invariant RootSafe(s.lines, root) && Extends(root, s.values) && Least(s.lines, base, s.values)
        invariant ok ==> Sweeping(s, p, notLit, kept, ws[i..])
        invariant !ok ==> Good(Virtual(s, notLit, kept, ws[i..]))
        invariant !ok ==> exists b :: 0 <= b < |s.lines| && s.lines[b].live && Falsified(s.values, s.lines[b].lits)
      {
        if !ok {
          VirtualStep(s, notLit, kept, ws[i..]);
          kept := kept + [ws[i]];
        } else {
          ghost var lines1, values1 := s.lines, s.values;
          SweepingGood(s, p, notLit, kept, ws[i..]);
          VirtualStep(s, notLit, kept, ws[i..]);
          var keep, fine := VisitLine(notLit, p, kept, ws[i..], ws[i], ds, root, base);
          SameLinesTrans(old(s).lines, lines1, s.lines);
          if keep {
            kept := kept + [ws[i]];
          }
          ok := fine;
        }
        assert ws[i..][1..] == ws[i + 1..];
        i := i + 1;
      }
      assert ws[|ws|..] == [];
      if ok {
        SweepEnd(s, p, notLit, kept);
      }
      VirtualEnd(s, notLit, kept);
      WatchesOnly(s, added, ds, s.watches[notLit := kept], root);
      s := s.(watches := s.watches[notLit := kept]);
    }

    /** Propagates to the end, which is the closure under unit propagation, or to a conflict, if there is none. */
    method Propagate(ghost ds: seq<Lit>, ghost root: seq<int>, ghost base: seq<int>) returns (ok: bool)
      requires Good(s) && Propagated(s, s.propagated) && Sound(s, added, ds) && RootSafe(s.lines, root)
      requires Extends(root, s.values) && Extends(base, s.values) && Least(s.lines, base, s.values)
      modifies this`s
      ensures Good(s) && s.inconsistent == old(s).inconsistent && old(s).trail <= s.trail
      ensures s.used == old(s).used && s.large == old(s).large
      ensures Least(s.lines, base, s.values)
      ensures if ok then UnitClosure(s.lines, base, s.values) else forall w :: !Closed(s.lines, base, w)
      ensures SameLines(old(s).lines, s.lines) && Extends(old(s).values, s.values) && Sound(s, added, ds)
      ensures RootSafe(s.lines, root) && Extends(root, s.values)
      ensures ok ==> s.propagated == |s.trail| && Propagated(s, |s.trail|)
      ensures old(s).propagated == |old(s).trail| ==> ok && s == old(s)
      ensures ok ==> forall b :: 0 <= b < |s.lines| && s.lines[b].live ==> Quiet(s.values, s.lines[b].lits)
      ensures !ok ==> exists b :: 0 <= b < |s.lines| && s.lines[b].live && Falsified(s.values, s.lines[b].lits)
    {
      hide Sound, RootSafe, Good, Propagated, Falsified, Quiet, Least;
      ok := true;
      SameLinesRefl(s.lines);
      GoodFacts(s);
      while ok && s.propagated < |s.trail|
        invariant Good(s) && s.inconsistent == old(s).inconsistent && old(s).trail <= s.trail
        invariant s.used == old(s).used && s.large == old(s).large
        invariant SameLines(old(s).lines, s.lines) && Extends(old(s).values, s.values) && Sound(s, added, ds)
        invariant RootSafe(s.lines, root) && Extends(root, s.values) && |s.values| == |old(s).values|
        invariant s.propagated <= |s.trail| && Extends(base, s.values) && Least(s.lines, base, s.values)
        invariant ok ==> Propagated(s, s.propagated)
        invariant !ok ==> exists b :: 0 <= b < |s.lines| && s.lines[b].live && Falsified(s.values, s.lines[b].lits)
        invariant old(s).propagated == |old(s).trail| ==> ok && s == old(s)
        decreases ok, |s.values| - s.propagated
      {
        TrailBound(s);
        ghost var lines1, values1 := s.lines, s.values;
        ok := PropagateNext(ds, root, base);
        SameLinesTrans(old(s).lines, lines1, s.lines);
        GoodFacts(s);
      }
      GoodFacts(s);
      if ok {
        forall b | 0 <= b < |s.lines| && s.lines[b].live ensures Quiet(s.values, s.lines[b].lits) {
          PropagatedQuiet(s, b);
        }
        ClosedHere(s.lines, base, s.values);
      } else {
        ghost var b :| 0 <= b < |s.lines| && s.lines[b].live && Falsified(s.values, s.lines[b].lits);
        FalsifiedNoneClosed(s.lines, base, s.values, b);
      }
    }

    /** Undoes the assignments since the trail had the given size. */
    method Backtrack(saved: nat, ghost root: seq<int>)
      requires Good(s) && saved <= |s.trail| && ValuesOK(root) && TrailOK(root, s.trail[..saved])
      requires Extends(root, s.values)
      requires RootSafe(s.lines, root)
      modifies this`s
      ensures s == old(s).(values := root, trail := old(s).trail[..saved], propagated := saved) && Good(s)
      ensures Propagated(s, saved)
    {
      hide Watched, RootSafe, Propagated;
      var p := |s.trail|;
      while p != saved
        invariant saved <= p <= |s.trail| && s == old(s).(values := s.values) && |s.values| == |old(s).values|
        invariant Undone(old(s), s.values, p)
      {
        p := p - 1;
        UndoStep(old(s), s.values, p);
        var lit := s.trail[p];
        s := s.(values := s.values[lit := 0][Neg(lit) := 0]);
      }
      UndoneRoot(old(s), s.values, saved, root);
      BackGood(old(s), old(s).(values := root, trail := old(s).trail[..saved], propagated := saved), root, saved);
      s := s.(propagated := saved);
      s := s.(trail := s.trail[..saved]);
    }

    // -------------------------------------------------------------- storing clauses

    /**
      Sees to clauses that need not be stored: trivial and satisfied ones, units, which are assigned, and
      falsified ones, which make the checker inconsistent.  Otherwise the first two literals are unassigned.
     */
    method SimplifyImported(imported: seq<Lit>) returns (res: bool, lits: seq<Lit>)
      requires Good(s) && forall l :: l in imported ==> l < |s.values|
      modifies this`s
      ensures |lits| == |imported| && forall l :: l in lits <==> l in imported
      ensures !res ==> s == old(s) && !s.inconsistent && LineOK(|s.watches|, lits) &&
                       Free(s.values, lits[0]) && Free(s.values, lits[1])
      ensures res ==> SimplifiedTo(old(s), s, imported)
    {
      hide Watched, TrailOK;
      lits := imported;
      if s.inconsistent {
        return true, lits;
      }
      var nonFalse, marks: set<Lit> := 0, {};
      var p := 0;
      while p < |lits|
        invariant s == old(s) && 0 <= p <= |lits| == |imported| && (forall l :: l in lits <==> l in imported)
        invariant (forall l :: l in marks <==> l in lits[..p]) && Scan(s.values, lits, p, nonFalse)
      {
        var lit := lits[p];
        assert lit in lits;
        ScanStep(s.values, lits, p, nonFalse);
        if lit !in marks {
          var notLit := Neg(lit);
          if notLit in marks {
            TrivialAt(imported, lit);
            return true, lits;
          }
          var value := s.values[lit];
          if value > 0 {
            return true, lits;
          }
          if value == 0 {
            if nonFalse == 0 {
              SwapMembers(lits, p, 0);
              lits := lits[p := lits[0]][0 := lits[p]];
            } else if nonFalse == 1 {
              SwapMembers(lits, p, 1);
              lits := lits[p := lits[1]][1 := lits[p]];
            }
            nonFalse := nonFalse + 1;
          }
          marks := marks + {lit};
        }
        p := p + 1;
      }
      assert lits[..p] == lits;
      if nonFalse == 0 {
        s := s.(inconsistent := true);
        return true, lits;
      }
      if nonFalse == 1 {
        GoodFacts(s);
        assert UnitLine(s.values, imported, lits[0]);
        Assign(lits[0]);
        return true, lits;
      }
      return false, lits;
    }

    method InsertImported(lits: seq<Lit>, hash: nat)
      requires LineOK(|s.watches|, lits) && TableOK(s.lines, index.table, index.buckets)
      modifies this`s, index
      ensures s == Inserted(old(s), Line(lits, hash, true)) && TableOK(s.lines, index.table, index.buckets)
    {
      hide TableOK;
      var b := |s.lines|;
      var line := Line(lits, hash, true);
      index.Insert(s.lines, line);
      s := s.(lines := s.lines + [line]);
      s := s.(watches := s.watches[lits[0] := s.watches[lits[0]] + [b]]);
      s := s.(watches := s.watches[lits[1] := s.watches[lits[1]] + [b]]);
    }

    /** Marks the literals of a line as used, and those of a large one as large. */
    method UseLine(lits: seq<Lit>)
      requires |s.used| == |s.large| && forall l :: l in lits ==> l < |s.used|
      modifies this`s
      ensures s == old(s).(used := s.used, large := s.large) && UsedWith(old(s), s, lits, lits)
    {
      var large := |lits| > 2;
      for i := 0 to |lits|
        invariant s == old(s).(used := s.used, large := s.large) && UsedWith(old(s), s, lits, lits[..i])
      {
        assert lits[i] in lits && lits[..i + 1] == lits[..i] + [lits[i]];
        if !s.used[lits[i]] {
          s := s.(used := s.used[lits[i] := true]);
        }
        if large && !s.large[lits[i]] {
          s := s.(large := s.large[lits[i] := true]);
        }
      }
      assert lits[..|lits|] == lits;
    }

    /** Adds a clause without checking it; its literals are sorted for the hash value. */
    method AddImported(imported: seq<Lit>)
      requires Valid() && forall l :: l in imported ==> l < |s.values|
      modifies this, index
      ensures Valid() && added == old(added) + [imported] && Extends(old(s).values, s.values)
    {
      hide Good, Propagated, Sound, Covers, Watched, TableOK, Sort;
      GoodFacts(s);
      var sorted := Sort(imported);
      SortSorted(imported);
      var hash := hashOf(sorted);
      var res, lits := SimplifyImported(sorted);
      if res {
        SimplifiedSorted(old(s), s, sorted, imported);
        SimplifiedKeeps(old(s), s, added, imported);
      } else {
        ghost var k := Line(lits, hash, true);
        InsertGood(s, k, s.propagated);
        InsertSound(s, k, added, imported);
        InsertImported(lits, hash);
        ghost var s1 := s;
        GoodFacts(s);
        UseLine(lits);
        UsedKeeps(old(s), s1, s, added, imported, lits);
      }
      added := added + [imported];
    }

    // -------------------------------------------------------------- checking clauses

    /** Assigns the negations of the literals up to one that is satisfied or pure. */
    method DecideNegations(imported: seq<Lit>, ghost root: State)
      returns (satisfied: bool, pureLit: int, ghost ds: seq<Lit>)
      requires Good(s) && s == root && !s.inconsistent && Sound(s, added, []) && s.propagated == |s.trail|
      requires Propagated(s, |s.trail|)
      requires forall l :: l in imported ==> l < |s.values|
      modifies this`s
      ensures Good(s) && Sound(s, added, ds) && s == root.(values := s.values, trail := s.trail)
      ensures root.trail <= s.trail
      ensures Extends(root.values, s.values) && Propagated(s, |root.trail|)
      ensures forall d :: d in ds ==> Neg(d) in imported
      ensures satisfied ==> Implied(added, imported)
      ensures pureLit >= 0 ==>
                pureLit in imported && Free(root.values, pureLit) && Neg(pureLit) < |s.used| && !s.used[Neg(pureLit)]
      ensures !satisfied && pureLit < 0 ==> forall l :: l in imported ==> False(s.values, l)
      ensures Falsified(root.values, imported) ==> !satisfied && pureLit < 0 && s == root
      ensures if satisfied then forall w :: !Negated(root.values, imported, w)
              else forall w :: Negated(root.values, imported, w) ==> Extends(s.values, w)
    {
      hide Good, Propagated, Sound, Implied, Negated;
      satisfied, pureLit, ds := false, -1, [];
      GoodFacts(s);
      NegatedStart(root.values, imported);
      for i := 0 to |imported|
        invariant Good(s) && Sound(s, added, ds) && s == root.(values := s.values, trail := s.trail)
        invariant root.trail <= s.trail
        invariant Extends(root.values, s.values) && Propagated(s, |root.trail|) && |s.values| == |s.used|
        invariant forall d :: d in ds ==> Neg(d) in imported
        invariant forall k :: 0 <= k < i ==> False(s.values, imported[k])
        invariant Falsified(root.values, imported) ==> s == root
        invariant forall w :: Negated(root.values, imported, w) ==> Extends(s.values, w)
      {
        var lit := imported[i];
        assert lit in imported;
        GoodFacts(s);
        NegatedLit(root.values, imported, s.values, lit);
        if s.values[lit] < 0 {
          continue;
        }
        if s.values[lit] > 0 {
          SatisfiedImplied(s, added, ds, imported, lit);
          satisfied := true;
          return;
        }
        var notLit := Neg(lit);
        if !s.used[notLit] {
          pureLit := lit;
          return;
        }
        NegFree(s.values, lit);
        AssignGood(s, notLit);
        AssignPropagated(s, |root.trail|, notLit);
        DecisionSound(s, added, ds, notLit);
        ghost var values1 := s.values;
        Assign(notLit);
        ds := ds + [notLit];
        GoodFacts(s);
        DecidedFalse(s.values, lit);
      }
    }

    /** Every line watched by the negation of lit has another literal that is true, and there are no large ones. */
    method BlockedLiteral(lit: Lit) returns (res: bool)
      requires Good(s) && lit < |s.values|
      ensures res <==> BlockedAt(s, lit)
    {
      GoodNeg(s, lit);
      var notLit := Neg(lit);
      if s.large[notLit] {
        return false;
      }
      var ws := s.watches[notLit];
      for i := 0 to |ws|
        invariant forall k :: 0 <= k < i ==> TrueBut(s.values, s.lines[ws[k]].lits, notLit)
      {
        var found := TrueOther(s.lines[ws[i]].lits, notLit);
        if !found {
          return false;
        }
      }
      return true;
    }

    method TrueOther(lits: seq<Lit>, notLit: Lit) returns (found: bool)
      requires forall l :: l in lits ==> l < |s.values|
      ensures found <==> TrueBut(s.values, lits, notLit)
    {
      for j := 0 to |lits|
        invariant forall k :: 0 <= k < j ==> lits[k] == notLit || !True(s.values, lits[k])
      {
        var other := lits[j];
        assert other in lits;
        if other != notLit && s.values[other] > 0 {
          return true;
        }
      }
      return false;
    }

    /** The position of the first blocked literal, if there is one. */
    method BlockedImported(imported: seq<Lit>) returns (found: int)
      requires Good(s) && forall l :: l in imported ==> l < |s.values|
      ensures -1 <= found < |imported| && (found >= 0 ==> BlockedAt(s, imported[found]))
      ensures forall k :: 0 <= k < (if found < 0 then |imported| else found) ==> !BlockedAt(s, imported[k])
    {
      hide BlockedAt;
      for i := 0 to |imported|
        invariant forall k :: 0 <= k < i ==> !BlockedAt(s, imported[k])
      {
        var lit := imported[i];
        assert lit in imported;
        var blocked := BlockedLiteral(lit);
        if blocked {
          return i;
        }
      }
      return -1;
    }

    /**
      Checks that a clause follows by unit propagation, or has a pure or a blocked literal; leaves the root level as
      it was.  The verdict is that of naive unit propagation: the clause does not follow if and only if propagating its
      negation ends without a conflict, and then a blocked literal is searched in what propagation ends with.
     */
    method CheckLine(imported: seq<Lit>) returns (verdict: Verdict)
      requires Valid() && forall l :: l in imported ==> l < |s.values|
      modifies this`s
      ensures Valid() && SameLines(old(s).lines, s.lines) && s.used == old(s).used && s.large == old(s).large
      ensures Extends(old(s).values, s.values) && Least(old(s).lines, old(s).values, s.values)
      ensures !s.inconsistent ==> UnitClosure(old(s).lines, old(s).values, s.values) && s.propagated == |s.trail|
      ensures s.inconsistent && !old(s).inconsistent ==> forall w :: !Closed(old(s).lines, old(s).values, w)
      ensures verdict.Follows? ==> Implied(added, imported)
      ensures verdict.Follows? && !old(s).inconsistent ==> Refuted(old(s).lines, old(s).values, imported)
      ensures verdict.Pure? ==> IsPure(s, imported, verdict.lit)
      ensures verdict.Blocked? ==> BlockedIn(s.values, added, imported, verdict.lit)
      ensures verdict.Blocked? || verdict.Failed? ==>
                !s.inconsistent && JudgedBy(old(s).lines, old(s).values, s.large, imported, verdict)
      ensures !verdict.Failed? && SafeAtRoot(old(s), imported) ==> KeepsModels(added, added + [imported])
      ensures !s.inconsistent && Falsified(s.values, imported) ==>
                && (verdict.Failed? || verdict.Blocked?)
                && (verdict.Failed? <==> forall l :: l in imported ==> !LineBlocked(s.lines, s.large, s.values, l))
    {
      hide Good, Propagated, Sound, Covers, Implied, RootSafe, TrailOK, Watched, Quiet, TableOK, Falsified, BlockedAt,
           Closed, Least, Negated, JudgedBy, Refuted, SafeAtRoot, KeepsModels, BlockedIn, LineBlocked;
      SameLinesRefl(s.lines);
      LeastStart(s.lines, s.values);
      if s.inconsistent {
        NothingSat(added, imported);
        FollowsKeeps(added, imported);
        return Follows;
      }
      ghost var zeros := seq(|s.values|, _ => 0);
      NoRoot(s, zeros);
      var ok := Propagate([], zeros, s.values);
      CoversLater(old(s), s, added);
      SameTable(old(s).lines, s.lines, index.table, index.buckets);
      SameLinesBack(old(s).lines, s.lines);
      LeastSame(s.lines, old(s).lines, old(s).values, s.values);
      if !ok {
        ghost var b :| 0 <= b < |s.lines| && s.lines[b].live && Falsified(s.values, s.lines[b].lits);
        RootConflict(s, added, b);
        NothingSat(added, imported);
        FollowsKeeps(added, imported);
        NoneRefuted(old(s).lines, s.lines, old(s).values, imported);
        s := s.(inconsistent := true);
        return Follows;
      }
      ghost var root := s;
      GoodFacts(s);
      RootSafeFrom(s);
      ClosureSame(root.lines, old(s).lines, old(s).values, root.values);
      var saved := |s.trail|;
      var satisfied, pureLit, ds := DecideNegations(imported, s);
      ExtendsRoot(root, s);
      verdict := if satisfied then Follows else if pureLit >= 0 then Pure(pureLit) else Failed;
      if satisfied {
        NoneNegated(root.lines, root.values, imported);
      } else if pureLit < 0 {
        verdict := Refute(imported, root, ds);
      }
      VerdictFrom(old(s), root, imported, verdict);
      BackFacts(root, s);
      Backtrack(saved, root.values);
      BackSound(root, s, added);
      SameLinesTrans(old(s).lines, root.lines, s.lines);
      SameTable(old(s).lines, s.lines, index.table, index.buckets);
      VerdictMeans(old(s), s, added, imported, verdict);
    }

    /** Propagates the negated clause; without a conflict, searches a blocked literal. */
    method Refute(imported: seq<Lit>, ghost root: State, ghost ds: seq<Lit>) returns (verdict: Verdict)
      requires Good(root) && Sound(root, added, []) && Covers(root, added) && !root.inconsistent
      requires RootSafe(root.lines, root.values)
      requires Good(s) && Sound(s, added, ds) && s == root.(values := s.values, trail := s.trail)
      requires root.propagated == |root.trail| && Propagated(s, |root.trail|)
      requires Extends(root.values, s.values) && root.trail <= s.trail && forall d :: d in ds ==> Neg(d) in imported
      requires forall l :: l in imported ==> False(s.values, l)
      requires forall w :: Negated(root.values, imported, w) ==> Extends(s.values, w)
      modifies this`s
      ensures Good(s) && s.inconsistent == root.inconsistent && root.trail <= s.trail
      ensures s.used == root.used && s.large == root.large
      ensures SameLines(root.lines, s.lines) && RootSafe(s.lines, root.values) && Extends(root.values, s.values)
      ensures verdict.Follows? ==> Implied(added, imported) && Refuted(root.lines, root.values, imported)
      ensures !verdict.Pure? && (verdict.Blocked? ==> BlockedIn(root.values, added, imported, verdict.lit))
      ensures !verdict.Follows? ==> JudgedBy(root.lines, root.values, root.large, imported, verdict)
    {
      hide Good, Propagated, Sound, Covers, Implied, RootSafe, TrailOK, Watched, Quiet, BlockedAt, LineBlocked,
           Closed, Least, Negated, JudgedBy, BlockedIn;
      GoodFacts(s);
      ghost var decided := s.values;
      LeastStart(s.lines, decided);
      var ok := Propagate(ds, root.values, decided);
      GoodFacts(s);
      if !ok {
        ghost var b :| 0 <= b < |s.lines| && s.lines[b].live && Falsified(s.values, s.lines[b].lits);
        RefutedImplied(s, added, ds, imported, b);
        DecidedRefuted(root.lines, s.lines, root.values, imported, decided);
        return Follows;
      }
      DecidedSurvives(root.lines, s.lines, root.values, imported, decided, s.values);
      var found := BlockedImported(imported);
      verdict := if found < 0 then Failed else Blocked(imported[found]);
      JudgedHere(root, s, added, imported, found);
      if found >= 0 {
        BlockedAccepted(root, s, added, ds, imported, imported[found]);
      }
    }

    /**
      Adds a clause that passes the check.  Whether this keeps the clauses satisfiable can be told from the values v
      that unit propagation at the root level leads to: it does if each literal of the clause that is false there has
      its negation in a large line, and if all are false there, it does exactly if none of them is blocked.  Otherwise
      the false literals do not matter, and the question is whether the clause without them keeps the clauses
      satisfiable.
     */
    method CheckAndAdd(imported: seq<Lit>) returns (verdict: Verdict)
      requires Valid() && forall l :: l in imported ==> l < |s.values|
      modifies this, index
      ensures Valid() && Extends(old(s).values, s.values)
      ensures added == if verdict.Failed? then old(added) else old(added) + [imported]
      ensures s.inconsistent ==> forall m: Model :: !AllSat(m, added)
      ensures verdict.Follows? && !old(s).inconsistent ==> Refuted(old(s).lines, old(s).values, imported)
      ensures verdict.Blocked? || verdict.Failed? ==>
                JudgedBy(old(s).lines, old(s).values, old(s).large, imported, verdict)
      ensures SafeAtRoot(old(s), imported) ==> KeepsModels(old(added), added)
      ensures forall v :: UnitClosure(old(s).lines, old(s).values, v) && Falsified(v, imported) ==>
                (KeepsModels(old(added), added) <==>
                 Unsatisfiable(old(added)) ||
                 forall l :: l in imported ==> !LineBlocked(old(s).lines, old(s).large, v, l))
      ensures !verdict.Failed? ==>
                forall v, m: Model :: UnitClosure(old(s).lines, old(s).values, v) ==>
                (AllSat(m, added) <==> AllSat(m, old(added) + [NonFalse(v, imported)]))
      ensures verdict.Failed? ==>
                forall v, l | UnitClosure(old(s).lines, old(s).values, v) && l in imported ::
                  !LineBlocked(old(s).lines, old(s).large, v, l)
      ensures !(verdict.Blocked? && False(s.values, verdict.lit)) ==> KeepsModels(old(added), added)
    {
      hide Good, Propagated, Sound, Covers, Implied, AllSat, TableOK, BlockedIn, JudgedBy, Refuted, SafeAtRoot,
           KeepsModels, UnitClosure, Least, Closed, Falsified, LineBlocked, Unsatisfiable, NonFalse;
      verdict := CheckLine(imported);
      CheckedExact(old(s), s, added, imported, verdict);
      if verdict.Blocked? {
        BlockedLit(s, added, imported, verdict.lit);
      }
      AcceptedKeeps(s, added, imported, verdict);
      KeepsSame(added);
      if verdict.Failed? {
        return;
      }
      AddImported(imported);
    }

    // -------------------------------------------------------------- removing clauses

    method UnwatchLiteral(b: nat, lit: Lit)
      requires lit < |s.watches| && b in s.watches[lit]
      modifies this`s
      ensures s == old(s).(watches := old(s).watches[lit := Dropped(old(s).watches[lit], b)])
    {
      var ws := s.watches[lit];
      var p := 0;
      while ws[p] != b
        invariant 0 <= p < |ws| && b !in ws[..p]
        decreases |ws| - p
      {
        p := p + 1;
      }
      DroppedAt(ws, b, p);
      s := s.(watches := s.watches[lit := ws[..p] + ws[p + 1..]]);
    }

    /** Removes a stored line with the given literals; there is one unless the removal is an error. */
    method RemoveLine(imported: seq<Lit>) returns (ok: bool)
      requires Valid() && !s.inconsistent
      modifies this, index
      ensures Valid() && s.values == old(s).values && s.trail == old(s).trail && s.inconsistent == old(s).inconsistent
      ensures added == if ok then Remaining(s) else old(added)
      ensures forall m: Model :: AllSat(m, old(added)) ==> AllSat(m, added)
      ensures ok <==> exists b :: 0 <= b < |old(s).lines| && old(s).lines[b].live &&
                                  Matches(old(s).lines[b], hashOf(Sort(imported)), Sort(imported))
      ensures if !ok then s == old(s)
              else exists b :: LineGone(old(s).lines, s.lines, b, hashOf(Sort(imported)), Sort(imported))
    {
      hide Good, Propagated, Sound, Covers, TableOK, Sort, AllSat, Remaining;
      var sorted := Sort(imported);
      SortSorted(imported);
      var b := index.FindLine(s.lines, hashOf(sorted), sorted, true);
      if b < 0 {
        return false;
      }
      LineWatched(s, b);
      var lits := s.lines[b].lits;
      RemovedKeeps(s, b, added);
      UnwatchLiteral(b, lits[0]);
      UnwatchLiteral(b, lits[1]);
      s := s.(lines := s.lines[b := s.lines[b].(live := false)]);
      assert LineGone(old(s).lines, s.lines, b, hashOf(sorted), sorted);
      added := Remaining(s);
      return true;
    }

    /** Removes a clause unless it is satisfied at the root level or trivial. */
    method RemoveImported(imported: seq<Lit>) returns (ok: bool)
      requires Valid() && forall l :: l in imported ==> l < |s.values|
      modifies this, index
      ensures Valid() && |s.values| == |old(s).values| && Extends(old(s).values, s.values)
      ensures forall m: Model :: AllSat(m, old(added)) ==> AllSat(m, added)
      ensures if old(s).inconsistent then ok && s == old(s)
              else if s.inconsistent then ok && forall w :: !Closed(old(s).lines, old(s).values, w)
              else UnitClosure(old(s).lines, old(s).values, s.values) &&
                   Removes(old(s).lines, s, imported, hashOf(Sort(imported)), ok)
    {
      hide Good, Propagated, Sound, Covers, RootSafe, TableOK, Quiet, AllSat, Removes, UnitClosure, Closed, Sort,
           Remaining, Matches, SameLines;
      if s.inconsistent {
        return true;
      }
      ghost var zeros := seq(|s.values|, _ => 0);
      NoRoot(s, zeros);
      LeastStart(s.lines, s.values);
      ok := Propagate([], zeros, s.values);
      CoversLater(old(s), s, added);
      SameTable(old(s).lines, s.lines, index.table, index.buckets);
      GoodFacts(s);
      SameLinesBack(old(s).lines, s.lines);
      if !ok {
        ghost var b :| 0 <= b < |s.lines| && s.lines[b].live && Falsified(s.values, s.lines[b].lits);
        RootConflict(s, added, b);
        NoneRefuted(old(s).lines, s.lines, old(s).values, imported);
        s := s.(inconsistent := true);
        return true;
      }
      ghost var s1 := s;
      ClosureSame(s.lines, old(s).lines, old(s).values, s.values);
      NothingRemoved(old(s).lines, s, imported, hashOf(Sort(imported)));
      if |imported| == 0 {
        return false;
      }
      if |imported| == 1 {
        assert imported[0] in imported;
        return s.values[imported[0]] > 0;
      }
      var redundant := SatisfiedOrTrivial(imported);
      if redundant {
        return true;
      }
      ok := RemoveLine(imported);
      LineRemoved(old(s).lines, s1, s, imported, hashOf(Sort(imported)), ok);
    }

    method SatisfiedOrTrivial(imported: seq<Lit>) returns (res: bool)
      requires forall l :: l in imported ==> l < |s.values|
      ensures res <==> Tautology(imported) || exists l :: l in imported && True(s.values, l)
    {
      var marks: set<Lit> := {};
      for p := 0 to |imported|
        invariant forall l :: l in marks <==> l in imported[..p]
        invariant forall l :: l in imported[..p] ==> Neg(l) !in imported[..p] && !True(s.values, l)
      {
        var lit := imported[p];
        assert lit in imported && imported[..p + 1] == imported[..p] + [lit];
        if lit !in marks {
          HoldsNeg(iset{}, lit);
          if Neg(lit) in marks {
            TrivialAt(imported, lit);
            return true;
          }
          if s.values[lit] > 0 {
            return true;
          }
          marks := marks + {lit};
          forall l | l in imported[..p + 1] ensures Neg(l) !in imported[..p + 1] {
            HoldsNeg(iset{}, l);
          }
        }
      }
      assert imported[..|imported|] == imported;
      return false;
    }
  }

  /** Line b has been removed, which has the given hash value and literals. */
  ghost predicate LineGone(lines: seq<Line>, lines': seq<Line>, b: int, hash: nat, c: seq<Lit>) {
    && 0 <= b < |lines| && lines[b].live && Matches(lines[b], hash, c)
    && lines' == lines[b := lines[b].(live := false)]
  }

  /**
    A line with the literals is removed if there is one, unless the clause is satisfied at the root level or trivial.
    A unit has to be true, and the empty clause cannot be removed.  Propagation may have reordered the literals.
   */
  ghost predicate Removes(lines: seq<Line>, s: State, imported: seq<Lit>, hash: nat, ok: bool) {
    if |imported| < 2 then
      ok == (imported != [] && True(s.values, imported[0])) && SameLines(lines, s.lines)
    else if Tautology(imported) || exists l :: l in imported && True(s.values, l) then
      ok && SameLines(lines, s.lines)
    else if ok then
      exists lines', b :: SameLines(lines, lines') && LineGone(lines', s.lines, b, hash, Sort(imported))
    else
      SameLines(lines, s.lines) && forall b :: 0 <= b < |lines| && lines[b].live ==>
        !Matches(lines[b], hash, Sort(imported))
  }

  lemma NothingRemoved(lines: seq<Line>, s: State, imported: seq<Lit>, hash: nat)
    requires SameLines(lines, s.lines)
    ensures |imported| < 2 ==>
              Removes(lines, s, imported, hash, imported != [] && True(s.values, imported[0]))
    ensures |imported| >= 2 && (Tautology(imported) || exists l :: l in imported && True(s.values, l)) ==>
              Removes(lines, s, imported, hash, true)
  {
    hide SameLines, Sort;
  }

  lemma LineRemoved(lines: seq<Line>, s1: State, s: State, imported: seq<Lit>, hash: nat, ok: bool)
    requires SameLines(lines, s1.lines) && |imported| >= 2 && s.values == s1.values
    requires !Tautology(imported) && forall l :: l in imported ==> !True(s.values, l)
    requires ok <==> exists b :: 0 <= b < |s1.lines| && s1.lines[b].live && Matches(s1.lines[b], hash, Sort(imported))
    requires if !ok then s == s1 else exists b :: LineGone(s1.lines, s.lines, b, hash, Sort(imported))
    ensures Removes(lines, s, imported, hash, ok)
  {
    hide Sort;
    if !ok {
      forall b | 0 <= b < |lines| && lines[b].live ensures !Matches(lines[b], hash, Sort(imported)) {
        assert SameLine(lines[b], s1.lines[b]);
      }
    }
  }

  lemma SimplifiedSorted(s: State, s': State, sorted: seq<Lit>, c: seq<Lit>)
    requires SimplifiedTo(s, s', sorted) && forall l :: l in sorted <==> l in c
    ensures SimplifiedTo(s, s', c)
  {
    assert Tautology(sorted) == Tautology(c);
    if l: nat :| UnitLine(s.values, sorted, l) && Free(s.values, l) && l < |s.values| && Neg(l) < |s.values| &&
                 s' == Assigned(s, l) {
      assert UnitLine(s.values, c, l);
    }
  }

  // ------------------------------------------------------------------ removing

  /** A list with the first occurrence of b removed. */
  function Dropped(ws: seq<nat>, b: nat): seq<nat> {
    if ws == [] then [] else if ws[0] == b then ws[1..] else [ws[0]] + Dropped(ws[1..], b)
  }

  lemma {:induction false} DroppedAt(ws: seq<nat>, b: nat, p: nat)
    requires p < |ws| && ws[p] == b && b !in ws[..p]
    ensures Dropped(ws, b) == ws[..p] + ws[p + 1..]
  {
    if p > 0 {
      assert ws[1..][..p - 1] == ws[..p][1..];
      DroppedAt(ws[1..], b, p - 1);
      assert ws[..p] + ws[p + 1..] == [ws[0]] + (ws[1..][..p - 1] + ws[1..][p..]);
    }
  }

  lemma DroppedMembers(ws: seq<nat>, b: nat)
    requires b in ws && forall i, j :: 0 <= i < j < |ws| ==> ws[i] != ws[j]
    ensures forall x :: x in Dropped(ws, b) <==> x in ws && x != b
    ensures forall i, j :: 0 <= i < j < |Dropped(ws, b)| ==> Dropped(ws, b)[i] != Dropped(ws, b)[j]
  {
    hide Dropped;
    var p :| 0 <= p < |ws| && ws[p] == b;
    DroppedAt(ws, b, p);
    var d := ws[..p] + ws[p + 1..];
    forall i, j | 0 <= i < j < |d| ensures d[i] != d[j] {
      assert d[i] == ws[if i < p then i else i + 1] && d[j] == ws[if j < p then j else j + 1];
    }
    forall x | x in ws && x != b ensures x in d {
      var i :| 0 <= i < |ws| && ws[i] == x;
      assert d[if i < p then i else i - 1] == x;
    }
    forall x | x in d ensures x in ws && x != b {
      var i :| 0 <= i < |d| && d[i] == x;
      assert ws[if i < p then i else i + 1] == x;
    }
  }

  lemma LineWatched(s: State, b: nat)
    requires Good(s) && b < |s.lines| && s.lines[b].live
    ensures LineOK(|s.watches|, s.lines[b].lits) && b in s.watches[s.lines[b].lits[0]]
    ensures b in s.watches[s.lines[b].lits[1]]
  {
    assert Listed(s.lines, s.watches, b);
  }

  function Unwatched(s: State, b: nat): State
    requires b < |s.lines| && LineOK(|s.watches|, s.lines[b].lits)
  {
    var c := s.lines[b].lits;
    var w1 := s.watches[c[0] := Dropped(s.watches[c[0]], b)];
    s.(watches := w1[c[1] := Dropped(w1[c[1]], b)], lines := s.lines[b := s.lines[b].(live := false)])
  }

  function LiveClauses(lines: seq<Line>): seq<seq<Lit>> {
    if lines == [] then [] else (if lines[0].live then [lines[0].lits] else []) + LiveClauses(lines[1..])
  }

  /** The clauses that a checker without conflict stands for: its lines and the units on its trail. */
  function Remaining(s: State): seq<seq<Lit>> {
    LiveClauses(s.lines) + seq(|s.trail|, i requires 0 <= i < |s.trail| => [s.trail[i]])
  }

  lemma {:induction false} LiveMembers(lines: seq<Line>)
    ensures forall b :: 0 <= b < |lines| && lines[b].live ==> lines[b].lits in LiveClauses(lines)
    ensures forall c :: c in LiveClauses(lines) ==> exists b :: 0 <= b < |lines| && lines[b].live && lines[b].lits == c
  {
    if lines != [] {
      LiveMembers(lines[1..]);
      forall b | 0 <= b < |lines| && lines[b].live ensures lines[b].lits in LiveClauses(lines) {
        if b > 0 {
          assert lines[1..][b - 1] == lines[b];
        }
      }
      forall c | c in LiveClauses(lines) ensures exists b :: 0 <= b < |lines| && lines[b].live && lines[b].lits == c {
        if c in LiveClauses(lines[1..]) {
          var b :| 0 <= b < |lines[1..]| && lines[1..][b].live && lines[1..][b].lits == c;
          assert lines[b + 1].lits == c;
        }
      }
    }
  }

  lemma RemainingMembers(s: State)
    ensures forall b :: 0 <= b < |s.lines| && s.lines[b].live ==> s.lines[b].lits in Remaining(s)
    ensures forall i :: 0 <= i < |s.trail| ==> [s.trail[i]] in Remaining(s)
    ensures forall c :: c in Remaining(s) ==> IsRemaining(s, c)
  {
    LiveMembers(s.lines);
    var units := seq(|s.trail|, i requires 0 <= i < |s.trail| => [s.trail[i]]);
    forall i | 0 <= i < |s.trail| ensures [s.trail[i]] in Remaining(s) {
      assert units[i] in units;
    }
  }

  ghost predicate IsRemaining(s: State, c: seq<Lit>) {
    (exists b :: Stores(s, b, c) && s.lines[b].lits == c) || exists t :: t in s.trail && c == [t]
  }

  /** What remains follows from what was added, and is all that lines and values need. */
  lemma RemainingKeeps(s: State, added: seq<seq<Lit>>)
    requires Good(s) && Sound(s, added, []) && Covers(s, [])
    ensures Sound(s, Remaining(s), []) && Covers(s, Remaining(s))
    ensures forall m: Model :: AllSat(m, added) ==> AllSat(m, Remaining(s))
  {
    hide Remaining, Watched;
    RemainingMembers(s);
    forall c | c in Remaining(s) ensures CoveredClause(s, c) && Implied(added, c) {
      assert IsRemaining(s, c);
      if t :| t in s.trail && c == [t] {
        var i :| 0 <= i < |s.trail| && s.trail[i] == t;
        UnitImplied(added, t);
        assert t in c && True(s.values, t);
      }
    }
    forall i | 0 <= i < |s.trail| ensures Forced(Remaining(s), [], s.trail[i]) {
      forall m: Model | AllSat(m, Remaining(s)) ensures Holds(m, s.trail[i]) {
        assert Sat(m, [s.trail[i]]);
      }
    }
  }

  lemma UnitImplied(added: seq<seq<Lit>>, l: Lit)
    requires Forced(added, [], l)
    ensures Implied(added, [l])
  {
    forall m: Model | AllSat(m, added) ensures Sat(m, [l]) {
      assert AllHold(m, []) && l in [l];
    }
  }

  lemma RemovedKeeps(s: State, b: nat, added: seq<seq<Lit>>)
    requires Good(s) && Sound(s, added, []) && Covers(s, added) && b < |s.lines| && s.lines[b].live
    ensures LineOK(|s.watches|, s.lines[b].lits)
    ensures var s' := Unwatched(s, b); Good(s') && Sound(s', Remaining(s'), []) && Covers(s', Remaining(s'))
    ensures forall m: Model :: AllSat(m, added) ==> AllSat(m, Remaining(Unwatched(s, b)))
    ensures Propagated(s, s.propagated) ==> Propagated(Unwatched(s, b), s.propagated)
  {
    LineWatched(s, b);
    RemovedWatched(s, b);
    hide Watched, Done, Remaining;
    var s' := Unwatched(s, b);
    assert forall a: nat :: a < |s.lines| && s'.lines[a].live ==> s'.lines[a] == s.lines[a];
    RemainingKeeps(s', added);
    if Propagated(s, s.propagated) {
      forall a: nat | a < |s'.lines| && s'.lines[a].live ensures Safe(s', s.propagated, s'.lines[a].lits) {
        SafeFrame(s, s', s.propagated, s.lines[a].lits);
      }
    }
  }

  lemma RemovedWatched(s: State, b: nat)
    requires Good(s) && b < |s.lines| && s.lines[b].live
    ensures LineOK(|s.watches|, s.lines[b].lits) && Watched(Unwatched(s, b).lines, Unwatched(s, b).watches)
  {
    LineWatched(s, b);
    var s', c := Unwatched(s, b), s.lines[b].lits;
    DroppedMembers(s.watches[c[0]], b);
    DroppedMembers(s.watches[c[1]], b);
    forall l: nat | l < |s.watches|
      ensures (forall x :: x in s'.watches[l] <==> x in s.watches[l] && x != b)
      ensures forall i, j :: 0 <= i < j < |s'.watches[l]| ==> s'.watches[l][i] != s'.watches[l][j]
    {
      forall i | 0 <= i < |s.watches[l]| && l != c[0] && l != c[1] ensures s.watches[l][i] != b {
        assert Watches(s.lines, l, s.watches[l][i]);
      }
    }
    forall l: nat, i: nat | l < |s'.watches| && i < |s'.watches[l]| ensures Watches(s'.lines, l, s'.watches[l][i]) {
      assert s'.watches[l][i] in s'.watches[l];
      var k :| 0 <= k < |s.watches[l]| && s.watches[l][k] == s'.watches[l][i];
      assert Watches(s.lines, l, s.watches[l][k]);
    }
    forall a: nat | a < |s'.lines| ensures Listed(s'.lines, s'.watches, a) {
      assert Listed(s.lines, s.watches, a);
    }
  }

  /** The outcome of a check. */
  datatype Verdict = Follows | Pure(lit: Lit) | Blocked(lit: Lit) | Failed

  // ------------------------------------------------------------------ simplifying

  /** What simplification has done with a clause that is not stored. */
  ghost predicate SimplifiedTo(s: State, s': State, c: seq<Lit>) {
    if s.inconsistent then s' == s
    else if Tautology(c) || (exists l :: l in c && True(s.values, l)) then s' == s
    else if Falsified(s.values, c) then s' == s.(inconsistent := true)
    else exists l: nat ::
         UnitLine(s.values, c, l) && Free(s.values, l) && l < |s.values| && Neg(l) < |s.values| && s' == Assigned(s, l)
  }

  /** The first p literals: none is true, none the negation of another one, the first ones are unassigned. */
  ghost predicate Scan(values: seq<int>, lits: seq<Lit>, p: nat, nonFalse: nat) {
    && p <= |lits| && (forall l :: l in lits ==> l < |values|)
    && (forall l :: l in lits[..p] ==> !True(values, l) && Neg(l) !in lits[..p])
    && (nonFalse == 0 ==> forall l :: l in lits[..p] ==> False(values, l))
    && (nonFalse == 1 ==>
          p >= 1 && Free(values, lits[0]) && forall l :: l in lits[..p] ==> l == lits[0] || False(values, l))
    && (nonFalse >= 2 ==> p >= 2 && lits[0] != lits[1] && Free(values, lits[0]) && Free(values, lits[1]))
  }

  lemma SwapMembers(lits: seq<Lit>, p: nat, q: nat)
    requires q <= p < |lits|
    ensures forall l :: l in Swap(lits, p, q) <==> l in lits
    ensures forall l :: l in Swap(lits, p, q)[..p + 1] <==> l in lits[..p] || l == lits[p]
  {
    var d := Swap(lits, p, q);
    forall l | l in lits ensures l in d {
      var i :| 0 <= i < |lits| && lits[i] == l;
      assert d[if i == p then q else if i == q then p else i] == l;
    }
    forall l | l in lits[..p] || l == lits[p] ensures l in d[..p + 1] {
      var i :| 0 <= i <= p && lits[i] == l;
      assert d[..p + 1][if i == p then q else if i == q then p else i] == l;
    }
    forall l | l in d[..p + 1] ensures l in lits[..p] || l == lits[p] {
      var i :| 0 <= i <= p && d[i] == l;
      assert lits[..p + 1] == lits[..p] + [lits[p]] && lits[q] in lits[..p + 1] && lits[i] in lits[..p + 1];
    }
  }

  lemma ScanStep(values: seq<int>, lits: seq<Lit>, p: nat, nonFalse: nat)
    requires p < |lits| && Scan(values, lits, p, nonFalse) && ValuesOK(values)
    ensures forall l :: l in lits[..p + 1] <==> l in lits[..p] || l == lits[p]
    ensures lits[p] < |values|
    ensures lits[p] in lits[..p] ==> Scan(values, lits, p + 1, nonFalse)
    ensures lits[p] !in lits[..p] && Neg(lits[p]) !in lits[..p] && values[lits[p]] < 0 ==>
              Scan(values, lits, p + 1, nonFalse)
    ensures lits[p] !in lits[..p] && Neg(lits[p]) !in lits[..p] && values[lits[p]] == 0 ==>
              && (nonFalse == 0 ==> Scan(values, Swap(lits, p, 0), p + 1, 1))
              && (nonFalse == 1 ==> |lits| >= 2 && Scan(values, Swap(lits, p, 1), p + 1, 2))
              && (nonFalse >= 2 ==> Scan(values, lits, p + 1, nonFalse + 1))
  {
    var lit := lits[p];
    assert lit in lits;
    assert lits[..p + 1] == lits[..p] + [lit];
    HoldsNeg(iset{}, lit);
    forall l | l in lits[..p] ensures Neg(l) == lit ==> Neg(lit) == l {
      HoldsNeg(iset{}, l);
    }
    if nonFalse == 0 {
      SwapMembers(lits, p, 0);
    }
    if nonFalse == 1 && lit !in lits[..p] {
      assert lits[0] in lits[..p];
      SwapMembers(lits, p, if p >= 1 then 1 else 0);
    }
  }

  lemma TrivialAt(c: seq<Lit>, l: Lit)
    requires l in c && Neg(l) in c
    ensures Tautology(c)
  {
  }

  /** A clause that was simplified away is accounted for. */
  lemma SimplifiedKeeps(s: State, s': State, added: seq<seq<Lit>>, c: seq<Lit>)
    requires Good(s) && (!s.inconsistent ==> Propagated(s, s.propagated)) && Sound(s, added, []) && Covers(s, added)
    requires SimplifiedTo(s, s', c)
    requires s.inconsistent ==> forall m: Model :: !AllSat(m, added)
    ensures Good(s') && (!s'.inconsistent ==> Propagated(s', s'.propagated)) && Sound(s', added + [c], [])
    ensures Covers(s', added + [c])
    ensures |s'.values| == |s.values| && (s'.inconsistent ==> forall m: Model :: !AllSat(m, added + [c]))
  {
    hide Watched, Done;
    AddSound(s, added, c);
    forall m: Model | AllSat(m, added + [c]) ensures AllSat(m, added) && Sat(m, c) {
      assert (added + [c])[|added|] == c;
      assert forall d :: d in added ==> d in added + [c];
    }
    if s.inconsistent {
    } else if Tautology(c) || (exists l :: l in c && True(s.values, l)) {
      CoversMore(s, s', added, c);
    } else if Falsified(s.values, c) {
      ConflictRefutes(s, added + [c], [], c);
      forall m: Model ensures !AllSat(m, added + [c]) {
        assert AllHold(m, []);
      }
    } else {
      var l: nat :| UnitLine(s.values, c, l) && Free(s.values, l) && l < |s.values| &&
          Neg(l) < |s.values| && s' == Assigned(s, l);
      UnitForced(s, added + [c], [], c, l);
      AssignGood(s, l);
      AssignPropagated(s, s.propagated, l);
      AssignSound(s, added + [c], [], l);
      CoversMore(s, s', added, c);
    }
  }

  lemma CoversMore(s: State, s': State, added: seq<seq<Lit>>, c: seq<Lit>)
    requires Covers(s, added) && !s.inconsistent && Extends(s.values, s'.values)
    requires s'.lines == s.lines && s'.used == s.used && s'.large == s.large
    requires CoveredClause(s', c)
    ensures Covers(s', added + [c])
  {
    forall d | d in added + [c] ensures CoveredClause(s', d) {
      if d in added {
        CoveredLater(s, s', d);
      }
    }
  }

  ghost predicate LinesKept(lines: seq<Line>, lines': seq<Line>) {
    forall b :: 0 <= b < |lines| && lines[b].live ==> b < |lines'| && SameLine(lines[b], lines'[b])
  }

  lemma CoveredLater(s: State, s': State, d: seq<Lit>)
    requires CoveredClause(s, d) && Extends(s.values, s'.values) && LinesKept(s.lines, s'.lines)
    ensures CoveredClause(s', d)
  {
    if l :| l in d && True(s.values, l) {
      assert True(s'.values, l);
    } else if b :| Stores(s, b, d) {
      assert SameLine(s.lines[b], s'.lines[b]);
      assert Stores(s', b, d);
    }
  }

  lemma CoversLater(s: State, s': State, added: seq<seq<Lit>>)
    requires Covers(s, added) && Extends(s.values, s'.values) && SameLines(s.lines, s'.lines)
    requires s'.used == s.used && s'.large == s.large && s'.inconsistent == s.inconsistent
    ensures Covers(s', added)
  {
    forall b | 0 <= b < |s'.lines| && s'.lines[b].live ensures MarkedLine(s'.used, s'.large, s'.lines[b].lits) {
      assert SameLine(s.lines[b], s'.lines[b]) && MarkedLine(s.used, s.large, s.lines[b].lits);
    }
    if !s.inconsistent {
      forall d | d in added ensures CoveredClause(s', d) {
        CoveredLater(s, s', d);
      }
    }
  }

  /** The literals of done, which are among those of a line, have been marked. */
  ghost predicate UsedWith(s: State, s': State, lits: seq<Lit>, done: seq<Lit>) {
    && |s'.used| == |s.used| == |s'.large| == |s.large|
    && (forall l: nat :: l < |s.used| ==> s'.used[l] == (s.used[l] || l in done))
    && (forall l: nat :: l < |s.large| ==> s'.large[l] == (s.large[l] || (|lits| > 2 && l in done)))
  }

  /** A stored clause has its literals marked. */
  lemma UsedKeeps(s: State, s1: State, s': State, added: seq<seq<Lit>>, c: seq<Lit>, lits: seq<Lit>)
    requires Good(s1) && Propagated(s1, s1.propagated) && Sound(s1, added + [c], []) && Covers(s, added)
    requires !s.inconsistent
    requires |lits| >= 2 && lits[0] < |s.watches| && lits[1] < |s.watches|
    requires exists h :: s1 == Inserted(s, Line(lits, h, true))
    requires s' == s1.(used := s'.used, large := s'.large) && UsedWith(s1, s', lits, lits)
    requires forall l :: l in lits <==> l in c
    requires forall l :: l in c ==> l < |s.used|
    ensures Good(s') && Propagated(s', s'.propagated) && Sound(s', added + [c], []) && Covers(s', added + [c])
  {
    hide Watched;
    forall b: nat | b < |s'.lines| && s'.lines[b].live ensures Safe(s', s'.propagated, s'.lines[b].lits) {
      SafeFrame(s1, s', s'.propagated, s1.lines[b].lits);
    }
    forall b | 0 <= b < |s'.lines| && s'.lines[b].live ensures MarkedLine(s'.used, s'.large, s'.lines[b].lits) {
      if b < |s.lines| {
        assert s'.lines[b] == s.lines[b] && MarkedLine(s.used, s.large, s.lines[b].lits);
      }
    }
    forall d | d in added + [c] ensures CoveredClause(s', d) {
      if d in added {
        CoveredLater(s, s', d);
      } else {
        assert Stores(s', |s.lines|, c);
      }
    }
  }

  // ------------------------------------------------------------------ checking

  /** An extension of the values in which c is false. */
  ghost predicate Negated(values: seq<int>, c: seq<Lit>, w: seq<int>) {
    ValuesOK(w) && Extends(values, w) && Falsified(w, c)
  }

  lemma NegatedStart(values: seq<int>, c: seq<Lit>)
    ensures forall w :: Negated(values, c, w) ==> Extends(values, w)
  {
  }

  lemma NegatedLit(values: seq<int>, c: seq<Lit>, v: seq<int>, l: Lit)
    requires l in c && ValuesOK(v) && l < |v| && forall w :: Negated(values, c, w) ==> Extends(v, w)
    ensures v[l] > 0 ==> forall w :: !Negated(values, c, w)
    ensures Neg(l) < |v| && forall w :: Negated(values, c, w) ==> Extends(Set(v, Neg(l)), w)
  {
    HoldsNeg(iset{}, l);
    forall w | Negated(values, c, w) ensures v[l] <= 0 && Extends(Set(v, Neg(l)), w) {
      assert Extends(v, w) && False(w, l) && w[Neg(l)] == -w[l];
    }
  }

  /** Propagating the negation of c from the values ends in a conflict. */
  ghost predicate Refuted(lines: seq<Line>, values: seq<int>, c: seq<Lit>) {
    forall w :: !(Closed(lines, values, w) && Falsified(w, c))
  }

  /**
    Propagating the negation of c ends with values under which the first blocked literal, if any, gives the
    verdict.
   */
  ghost predicate JudgedBy(lines: seq<Line>, values: seq<int>, large: seq<bool>, c: seq<Lit>, verdict: Verdict) {
    exists w :: Survives(lines, values, c, w) && Judged(lines, large, w, c, verdict)
  }

  ghost predicate Judged(lines: seq<Line>, large: seq<bool>, w: seq<int>, c: seq<Lit>, verdict: Verdict) {
    if verdict.Blocked? then
      exists k :: 0 <= k < |c| && verdict.lit == c[k] && LineBlocked(lines, large, w, c[k]) &&
                  forall j :: 0 <= j < k ==> !LineBlocked(lines, large, w, c[j])
    else forall l :: l in c ==> !LineBlocked(lines, large, w, l)
  }

  /** Literals that the root level makes false have their negations in large lines. */
  ghost predicate SafeAtRoot(s: State, c: seq<Lit>) {
    forall v, l :: UnitClosure(s.lines, s.values, v) && l in c && False(v, l) ==>
      Neg(l) < |s.large| && s.large[Neg(l)]
  }

  ghost predicate Unsatisfiable(clauses: seq<seq<Lit>>) {
    forall m: Model :: !AllSat(m, clauses)
  }

  ghost predicate KeepsModels(clauses: seq<seq<Lit>>, clauses': seq<seq<Lit>>) {
    (exists m: Model :: AllSat(m, clauses)) ==> exists m: Model :: AllSat(m, clauses')
  }

  /** The literals that are not false. */
  function NonFalse(values: seq<int>, c: seq<Lit>): seq<Lit> {
    if c == [] then [] else (if False(values, c[0]) then [] else [c[0]]) + NonFalse(values, c[1..])
  }

  lemma ClosedHere(lines: seq<Line>, values: seq<int>, v: seq<int>)
    requires ValuesOK(v) && Extends(values, v) && Least(lines, values, v)
    requires forall b :: 0 <= b < |lines| && lines[b].live ==> Quiet(v, lines[b].lits)
    ensures UnitClosure(lines, values, v)
  {
  }

  lemma {:induction false} NonFalseMembers(values: seq<int>, c: seq<Lit>)
    ensures forall l :: l in NonFalse(values, c) <==> l in c && !False(values, l)
  {
    if c != [] {
      NonFalseMembers(values, c[1..]);
      assert c == [c[0]] + c[1..];
    }
  }

  lemma KeepsSame(clauses: seq<seq<Lit>>)
    ensures KeepsModels(clauses, clauses)
  {
  }

  lemma SameLinesBack(lines: seq<Line>, lines': seq<Line>)
    requires SameLines(lines, lines')
    ensures SameLines(lines', lines)
  {
    forall b | 0 <= b < |lines'| ensures SameLine(lines'[b], lines[b]) {
      assert SameLine(lines[b], lines'[b]);
    }
  }

  lemma ClosureSame(lines: seq<Line>, lines': seq<Line>, values: seq<int>, v: seq<int>)
    requires SameLines(lines, lines') && UnitClosure(lines, values, v)
    ensures UnitClosure(lines', values, v)
  {
    ClosedSame(lines, lines', values, v);
    LeastSame(lines, lines', values, v);
  }

  lemma NoneRefuted(lines: seq<Line>, lines': seq<Line>, values: seq<int>, c: seq<Lit>)
    requires SameLines(lines, lines') && forall w :: !Closed(lines', values, w)
    ensures Refuted(lines, values, c) && forall w :: !Closed(lines, values, w)
  {
    hide Closed;
    forall w ensures !Closed(lines, values, w) {
      ClosedSame(lines, lines', values, w);
    }
  }

  lemma NoneNegated(lines: seq<Line>, values: seq<int>, c: seq<Lit>)
    requires forall w :: !Negated(values, c, w)
    ensures Refuted(lines, values, c)
  {
    forall w | Closed(lines, values, w) ensures !Falsified(w, c) {
      assert !Negated(values, c, w);
    }
  }

  lemma DecidedClosed(lines: seq<Line>, lines': seq<Line>, values: seq<int>, c: seq<Lit>, decided: seq<int>,
                      w: seq<int>)
    requires SameLines(lines, lines') && (forall u :: Negated(values, c, u) ==> Extends(decided, u))
    requires Closed(lines, values, w) && Falsified(w, c)
    ensures Closed(lines', decided, w)
  {
    assert Negated(values, c, w);
    ClosedSame(lines, lines', decided, w);
  }

  /** A conflict after deciding the negations means that there was no way to extend the root values by them. */
  lemma DecidedRefuted(lines: seq<Line>, lines': seq<Line>, values: seq<int>, c: seq<Lit>, decided: seq<int>)
    requires SameLines(lines, lines') && (forall w :: Negated(values, c, w) ==> Extends(decided, w))
    requires forall w :: !Closed(lines', decided, w)
    ensures Refuted(lines, values, c)
  {
    forall w ensures !(Closed(lines, values, w) && Falsified(w, c)) {
      if Closed(lines, values, w) && Falsified(w, c) {
        DecidedClosed(lines, lines', values, c, decided, w);
      }
    }
  }

  lemma DecidedSurvives(lines: seq<Line>, lines': seq<Line>, values: seq<int>, c: seq<Lit>, decided: seq<int>,
                        w: seq<int>)
    requires SameLines(lines, lines') && (forall u :: Negated(values, c, u) ==> Extends(decided, u))
    requires Extends(values, decided) && Falsified(decided, c) && UnitClosure(lines', decided, w)
    ensures Survives(lines, values, c, w)
  {
    hide Quiet;
    ClosedSame(lines, lines', decided, w);
    ExtendsTrans(values, decided, w);
    forall u | Closed(lines, values, u) && Falsified(u, c) ensures Extends(w, u) {
      assert Negated(values, c, u);
      ClosedSame(lines, lines', decided, u);
    }
  }

  lemma JudgedHere(root: State, s: State, added: seq<seq<Lit>>, c: seq<Lit>, found: int)
    requires Good(root) && Covers(root, added) && Good(s) && SameLines(root.lines, s.lines)
    requires s.used == root.used && s.large == root.large && Survives(root.lines, root.values, c, s.values)
    requires -1 <= found < |c| && (found >= 0 ==> BlockedAt(s, c[found]))
    requires forall k :: 0 <= k < (if found < 0 then |c| else found) ==> !BlockedAt(s, c[k])
    ensures JudgedBy(root.lines, root.values, root.large, c, if found < 0 then Failed else Blocked(c[found]))
  {
    hide Good, Survives, LineBlocked, BlockedAt, Covers;
    forall k | 0 <= k < |c|
      ensures BlockedAt(s, c[k]) <==> LineBlocked(root.lines, root.large, s.values, c[k])
    {
      MarkedLater(root, s, added);
      BlockedLines(s, c[k]);
      LineBlockedSame(root.lines, s.lines, s.large, s.values, c[k]);
    }
  }

  lemma MarkedLater(root: State, s: State, added: seq<seq<Lit>>)
    requires Covers(root, added) && SameLines(root.lines, s.lines) && s.used == root.used && s.large == root.large
    ensures Covers(s, [])
  {
    forall b | 0 <= b < |s.lines| && s.lines[b].live ensures MarkedLine(s.used, s.large, s.lines[b].lits) {
      assert SameLine(root.lines[b], s.lines[b]) && MarkedLine(root.used, root.large, root.lines[b].lits);
    }
  }

  /** A verdict from the propagated root level is one from the values before. */
  lemma VerdictFrom(s: State, root: State, c: seq<Lit>, verdict: Verdict)
    requires SameLines(s.lines, root.lines) && root.large == s.large
    requires UnitClosure(s.lines, s.values, root.values)
    ensures verdict.Follows? && Refuted(root.lines, root.values, c) ==> Refuted(s.lines, s.values, c)
    ensures JudgedBy(root.lines, root.values, root.large, c, verdict) ==>
              JudgedBy(s.lines, s.values, s.large, c, verdict)
  {
    hide Closed, Falsified, LineBlocked;
    forall w ensures Closed(root.lines, root.values, w) <==> Closed(s.lines, s.values, w) {
      ClosedSame(s.lines, root.lines, root.values, w);
      ClosureFrom(s.lines, s.values, root.values, w);
    }
    if JudgedBy(root.lines, root.values, root.large, c, verdict) {
      var w :| Survives(root.lines, root.values, c, w) && Judged(root.lines, root.large, w, c, verdict);
      forall l ensures LineBlocked(s.lines, s.large, w, l) <==> LineBlocked(root.lines, root.large, w, l) {
        LineBlockedSame(s.lines, root.lines, s.large, w, l);
      }
      assert Survives(s.lines, s.values, c, w) && Judged(s.lines, s.large, w, c, verdict);
    }
  }

  lemma FollowsKeeps(added: seq<seq<Lit>>, c: seq<Lit>)
    requires Implied(added, c)
    ensures KeepsModels(added, added + [c])
  {
    if m: Model :| AllSat(m, added) {
      OneMore(m, added, c);
    }
  }

  lemma UnsatKeeps(added: seq<seq<Lit>>, added': seq<seq<Lit>>)
    requires Unsatisfiable(added)
    ensures KeepsModels(added, added')
  {
  }

  /** Values closed under propagation that falsify c are what propagating the negation of c ends with. */
  lemma FalsifiedSurvives(lines: seq<Line>, values: seq<int>, v: seq<int>, c: seq<Lit>, w: seq<int>)
    requires UnitClosure(lines, values, v) && Falsified(v, c) && Survives(lines, values, c, w)
    ensures w == v
  {
    hide Quiet, Falsified;
    forall l: nat | l < |v| ensures v[l] == w[l] {
      assert Extends(v, w) && Extends(w, v);
      assert v[l] != 0 ==> w[l] == v[l];
      assert w[l] != 0 ==> v[l] == w[l];
    }
  }

  /** What a verdict on a consistent root level says about the clause. */
  lemma VerdictMeans(s0: State, s: State, added: seq<seq<Lit>>, c: seq<Lit>, verdict: Verdict)
    requires Good(s) && Sound(s, added, []) && Covers(s, added) && !s.inconsistent
    requires SameLines(s0.lines, s.lines) && s.large == s0.large && UnitClosure(s0.lines, s0.values, s.values)
    requires verdict.Follows? ==> Implied(added, c) && Refuted(s0.lines, s0.values, c)
    requires verdict.Pure? ==> IsPure(s, c, verdict.lit)
    requires verdict.Blocked? ==> BlockedIn(s.values, added, c, verdict.lit)
    requires verdict.Blocked? || verdict.Failed? ==> JudgedBy(s0.lines, s0.values, s0.large, c, verdict)
    ensures !verdict.Failed? && SafeAtRoot(s0, c) ==> KeepsModels(added, added + [c])
    ensures Falsified(s.values, c) ==>
              && (verdict.Failed? || verdict.Blocked?)
              && (verdict.Failed? <==> forall l :: l in c ==> !LineBlocked(s.lines, s.large, s.values, l))
  {
    hide Good, Sound, Covers, Implied, Closed, LineBlocked, BlockedIn, KeepsModels, Least;
    if !verdict.Failed? && SafeAtRoot(s0, c) {
      if verdict.Blocked? {
        BlockedLit(s, added, c, verdict.lit);
        var w :| Survives(s0.lines, s0.values, c, w) && Judged(s0.lines, s0.large, w, c, verdict);
        NotLarge(s0.lines, s0.large, w, verdict.lit);
        assert verdict.lit in c;
      }
      AcceptedKeeps(s, added, c, verdict);
    }
    if Falsified(s.values, c) {
      assert Closed(s0.lines, s0.values, s.values);
      assert verdict.Blocked? || verdict.Failed?;
      var w :| Survives(s0.lines, s0.values, c, w) && Judged(s0.lines, s0.large, w, c, verdict);
      FalsifiedSurvives(s0.lines, s0.values, s.values, c, w);
      JudgedSame(s0.lines, s.lines, s.large, w, c, verdict);
    }
  }

  lemma JudgedSame(lines: seq<Line>, lines': seq<Line>, large: seq<bool>, w: seq<int>, c: seq<Lit>, verdict: Verdict)
    requires SameLines(lines, lines') && Judged(lines, large, w, c, verdict) && (verdict.Blocked? || verdict.Failed?)
    ensures verdict.Failed? <==> forall l :: l in c ==> !LineBlocked(lines', large, w, l)
  {
    hide LineBlocked;
    forall l ensures LineBlocked(lines, large, w, l) <==> LineBlocked(lines', large, w, l) {
      LineBlockedSame(lines, lines', large, w, l);
    }
    if verdict.Blocked? {
      var k :| 0 <= k < |c| && LineBlocked(lines, large, w, c[k]);
      assert c[k] in c;
    }
  }

  lemma NotLarge(lines: seq<Line>, large: seq<bool>, w: seq<int>, l: Lit)
    requires LineBlocked(lines, large, w, l)
    ensures Neg(l) < |large| && !large[Neg(l)]
  {
  }

  /** At the root level literals that are false add nothing to a clause. */
  lemma NonFalseExact(s: State, added: seq<seq<Lit>>, c: seq<Lit>, m: Model)
    requires Good(s) && Sound(s, added, [])
    ensures AllSat(m, added + [c]) <==> AllSat(m, added + [NonFalse(s.values, c)])
  {
    hide NonFalse, AllSat, Watched;
    NonFalseMembers(s.values, c);
    OneMore(m, added, c);
    OneMore(m, added, NonFalse(s.values, c));
    assert AllHold(m, []);
    if AllSat(m, added) && Sat(m, c) {
      var k :| k in c && Holds(m, k);
      HoldsNeg(m, k);
      if False(s.values, k) {
        FalseForced(s, added, [], k);
      }
      assert k in NonFalse(s.values, c);
    }
  }

  /** A clause falsified at the root level contradicts the clauses. */
  lemma FalsifiedContradicts(s: State, added: seq<seq<Lit>>, c: seq<Lit>)
    requires Good(s) && Sound(s, added, []) && Falsified(s.values, c)
    ensures Unsatisfiable(added + [c])
  {
    NonFalseMembers(s.values, c);
    forall m: Model ensures !AllSat(m, added + [c]) {
      NonFalseExact(s, added, c, m);
      OneMore(m, added, NonFalse(s.values, c));
    }
  }

  /** The exact conditions for a clause to keep the clauses satisfiable, in terms of the state before the check. */
  lemma CheckedExact(s0: State, s: State, added: seq<seq<Lit>>, c: seq<Lit>, verdict: Verdict)
    requires Good(s) && Sound(s, added, []) && (s.inconsistent ==> forall m: Model :: !AllSat(m, added))
    requires SameLines(s0.lines, s.lines) && s.large == s0.large
    requires !s.inconsistent ==> UnitClosure(s0.lines, s0.values, s.values)
    requires verdict.Blocked? || verdict.Failed? ==> JudgedBy(s0.lines, s0.values, s.large, c, verdict)
    requires !verdict.Failed? && SafeAtRoot(s0, c) ==> KeepsModels(added, added + [c])
    requires !s.inconsistent && Falsified(s.values, c) ==>
               && (verdict.Failed? || verdict.Blocked?)
               && (verdict.Failed? <==> forall l :: l in c ==> !LineBlocked(s.lines, s.large, s.values, l))
    ensures var added' := if verdict.Failed? then added else added + [c];
            && (SafeAtRoot(s0, c) ==> KeepsModels(added, added'))
            && (forall v :: UnitClosure(s0.lines, s0.values, v) && Falsified(v, c) ==>
                  (KeepsModels(added, added') <==>
                   Unsatisfiable(added) || forall l :: l in c ==> !LineBlocked(s0.lines, s0.large, v, l)))
    ensures !verdict.Failed? ==> forall v, m: Model :: UnitClosure(s0.lines, s0.values, v) ==>
              (AllSat(m, added + [c]) <==> AllSat(m, added + [NonFalse(v, c)]))
    ensures verdict.Failed? ==>
              forall v, l | UnitClosure(s0.lines, s0.values, v) && l in c :: !LineBlocked(s0.lines, s0.large, v, l)
  {
    hide Good, Sound, LineBlocked, KeepsModels, UnitClosure, SafeAtRoot, Falsified, NonFalse, JudgedBy, AllSat;
    KeepsSame(added);
    forall v | UnitClosure(s0.lines, s0.values, v) && Falsified(v, c)
      ensures KeepsModels(added, if verdict.Failed? then added else added + [c]) <==>
              Unsatisfiable(added) || forall l :: l in c ==> !LineBlocked(s0.lines, s0.large, v, l)
    {
      if s.inconsistent {
        UnsatKeeps(added, if verdict.Failed? then added else added + [c]);
      } else {
        ClosureUnique(s0.lines, s0.values, s.values, v);
        RootExact(s0, s, added, c, verdict);
      }
    }
    forall v, m: Model | UnitClosure(s0.lines, s0.values, v)
      ensures AllSat(m, added + [c]) <==> AllSat(m, added + [NonFalse(v, c)])
    {
      if s.inconsistent {
        OneMore(m, added, c);
        OneMore(m, added, NonFalse(v, c));
      } else {
        ClosureUnique(s0.lines, s0.values, s.values, v);
        NonFalseExact(s, added, c, m);
      }
    }
    if verdict.Failed? {
      forall v, l | UnitClosure(s0.lines, s0.values, v) && l in c ensures !LineBlocked(s0.lines, s0.large, v, l) {
        FailedNoneBlocked(s0, s.large, v, c, l, verdict);
      }
    }
  }

  lemma RootExact(s0: State, s: State, added: seq<seq<Lit>>, c: seq<Lit>, verdict: Verdict)
    requires Good(s) && Sound(s, added, []) && SameLines(s0.lines, s.lines) && s.large == s0.large
    requires Falsified(s.values, c)
    requires verdict.Failed? <==> forall l :: l in c ==> !LineBlocked(s.lines, s.large, s.values, l)
    ensures KeepsModels(added, if verdict.Failed? then added else added + [c]) <==>
            Unsatisfiable(added) || forall l :: l in c ==> !LineBlocked(s0.lines, s0.large, s.values, l)
  {
    hide Good, Sound, LineBlocked;
    FalsifiedContradicts(s, added, c);
    forall l ensures LineBlocked(s0.lines, s0.large, s.values, l) <==> LineBlocked(s.lines, s.large, s.values, l) {
      LineBlockedSame(s0.lines, s.lines, s.large, s.values, l);
    }
  }

  lemma FailedNoneBlocked(s: State, large: seq<bool>, v: seq<int>, c: seq<Lit>, l: Lit, verdict: Verdict)
    requires JudgedBy(s.lines, s.values, large, c, verdict) && verdict.Failed? && UnitClosure(s.lines, s.values, v)
    requires l in c
    ensures !LineBlocked(s.lines, large, v, l)
  {
    hide LineBlocked, Closed;
    var w :| Survives(s.lines, s.values, c, w) && Judged(s.lines, large, w, c, verdict);
    if LineBlocked(s.lines, large, v, l) {
      assert Closed(s.lines, s.values, w);
      LineBlockedLater(s.lines, large, v, w, l);
    }
  }

  lemma ClosureFrom(lines: seq<Line>, values: seq<int>, v: seq<int>, w: seq<int>)
    requires UnitClosure(lines, values, v)
    ensures Closed(lines, v, w) <==> Closed(lines, values, w)
  {
    ClosedFrom(lines, values, v, w);
  }

  ghost predicate IsPure(s: State, c: seq<Lit>, l: Lit) {
    !s.inconsistent && l in c && Free(s.values, l) && Neg(l) < |s.used| && !s.used[Neg(l)]
  }

  /** Making the blocked literal true turns models of the clauses into models that satisfy c, too. */
  ghost predicate Blocking(added: seq<seq<Lit>>, c: seq<Lit>, l: Lit) {
    forall m: Model :: AllSat(m, added) ==> Sat(m, c) || AllSat(WithLiteral(m, l), added + [c])
  }

  /** The literal is not true at the root level, and if it has no value there it is blocked. */
  ghost predicate BlockedIn(values: seq<int>, added: seq<seq<Lit>>, c: seq<Lit>, l: Lit) {
    l in c && (Free(values, l) || False(values, l)) && (Free(values, l) ==> Blocking(added, c, l))
  }

  lemma BlockedAccepted(root: State, s: State, added: seq<seq<Lit>>, ds: seq<Lit>, c: seq<Lit>, l: Lit)
    requires Good(root) && Sound(root, added, []) && Covers(root, added) && !root.inconsistent
    requires Good(s) && Sound(s, added, ds) && SameLines(root.lines, s.lines) && Extends(root.values, s.values)
    requires s.used == root.used && s.large == root.large
    requires l in c && False(s.values, l) && BlockedAt(s, l) && (forall d :: d in ds ==> Neg(d) in c)
    ensures BlockedIn(root.values, added, c, l)
  {
    if Free(root.values, l) {
      forall m: Model | AllSat(m, added) ensures Sat(m, c) || AllSat(WithLiteral(m, l), added + [c]) {
        BlockedKeeps(root, s, added, ds, c, l, m);
      }
    }
  }

  lemma BlockedLit(s: State, added: seq<seq<Lit>>, c: seq<Lit>, l: Lit)
    requires BlockedIn(s.values, added, c, l)
    ensures Free(s.values, l) || False(s.values, l)
  {
  }

  lemma SatisfiedImplied(s: State, added: seq<seq<Lit>>, ds: seq<Lit>, c: seq<Lit>, l: Lit)
    requires Good(s) && Sound(s, added, ds) && l in c && True(s.values, l) && forall d :: d in ds ==> Neg(d) in c
    ensures Implied(added, c)
  {
    assert l in s.trail;
    var i :| 0 <= i < |s.trail| && s.trail[i] == l;
    assert Forced(added, ds, s.trail[i]);
    forall m: Model | AllSat(m, added) ensures Sat(m, c) {
      if !AllHold(m, ds) {
        var d :| d in ds && !Holds(m, d);
        HoldsNeg(m, d);
      }
    }
  }

  lemma NegFree(values: seq<int>, l: Lit)
    requires ValuesOK(values) && Free(values, l)
    ensures Neg(l) < |values| && values[Neg(l)] == 0
  {
  }

  lemma DecisionSound(s: State, added: seq<seq<Lit>>, ds: seq<Lit>, l: Lit)
    requires Good(s) && Sound(s, added, ds) && l < |s.values| && Neg(l) < |s.values|
    ensures Sound(Assigned(s, l), added, ds + [l])
  {
    forall m: Model | AllHold(m, ds + [l]) ensures AllHold(m, ds) && Holds(m, l) {
      assert (ds + [l])[|ds|] == l;
      assert forall d :: d in ds ==> d in ds + [l];
    }
  }

  lemma DecidedFalse(values: seq<int>, l: Lit)
    requires ValuesOK(values) && True(values, Neg(l))
    ensures False(values, l)
  {
    HoldsNeg(iset{}, l);
    assert values[Neg(Neg(l))] == -values[Neg(l)];
  }

  lemma NothingSat(added: seq<seq<Lit>>, c: seq<Lit>)
    ensures (forall m: Model :: !AllSat(m, added)) ==> Implied(added, c)
  {
  }

  lemma NoRoot(s: State, zeros: seq<int>)
    requires |zeros| == |s.values| && forall i :: 0 <= i < |zeros| ==> zeros[i] == 0
    ensures RootSafe(s.lines, zeros) && Extends(zeros, s.values)
  {
  }

  lemma RootConflict(s: State, added: seq<seq<Lit>>, b: nat)
    requires Good(s) && Sound(s, added, []) && Covers(s, added)
    requires b < |s.lines| && s.lines[b].live && Falsified(s.values, s.lines[b].lits)
    ensures forall m: Model :: !AllSat(m, added)
    ensures var s' := s.(inconsistent := true); Good(s') && Sound(s', added, []) && Covers(s', added)
  {
    ConflictRefutes(s, added, [], s.lines[b].lits);
    forall m: Model ensures !AllSat(m, added) {
      assert AllHold(m, []);
    }
  }

  lemma ExtendsRoot(root: State, s: State)
    requires Good(root) && Good(s) && root.trail <= s.trail
    ensures ValuesOK(root.values) && TrailOK(root.values, s.trail[..|root.trail|])
  {
    assert s.trail[..|root.trail|] == root.trail;
  }

  /** A falsified line refutes the negation of the clause. */
  lemma RefutedImplied(s: State, added: seq<seq<Lit>>, ds: seq<Lit>, c: seq<Lit>, b: nat)
    requires Good(s) && Sound(s, added, ds) && b < |s.lines| && s.lines[b].live && Falsified(s.values, s.lines[b].lits)
    requires forall d :: d in ds ==> Neg(d) in c
    ensures Implied(added, c)
  {
    ConflictRefutes(s, added, ds, s.lines[b].lits);
    forall m: Model | AllSat(m, added) ensures Sat(m, c) {
      var d :| d in ds && !Holds(m, d);
      HoldsNeg(m, d);
    }
  }

  lemma BackFacts(root: State, s: State)
    requires Good(root) && Good(s) && root.trail <= s.trail
    ensures |root.trail| <= |s.trail| && ValuesOK(root.values) && TrailOK(root.values, s.trail[..|root.trail|])
    ensures s.trail[..|root.trail|] == root.trail
  {
    assert s.trail[..|root.trail|] == root.trail;
  }

  /** Back at the root level the facts of the root level hold again. */
  lemma BackSound(root: State, s: State, added: seq<seq<Lit>>)
    requires Sound(root, added, []) && Covers(root, added) && SameLines(root.lines, s.lines)
    requires s.trail == root.trail && s.values == root.values && s.used == root.used && s.large == root.large
    requires s.inconsistent == root.inconsistent
    ensures Sound(s, added, []) && Covers(s, added)
  {
    SoundSame(root, s, added, []);
    CoversLater(root, s, added);
  }

  /**
    An accepted clause does not make the clauses unsatisfiable, unless it was accepted for a blocked literal that is
    false at the root level.
   */
  lemma AcceptedKeeps(s: State, added: seq<seq<Lit>>, c: seq<Lit>, verdict: Verdict)
    requires Good(s) && Sound(s, added, []) && Covers(s, added)
    requires verdict.Follows? ==> Implied(added, c)
    requires verdict.Pure? ==> IsPure(s, c, verdict.lit)
    requires verdict.Blocked? ==> BlockedIn(s.values, added, c, verdict.lit)
    ensures !verdict.Failed? && !(verdict.Blocked? && False(s.values, verdict.lit)) ==> KeepsModels(added, added + [c])
  {
    hide Watched;
    if !verdict.Failed? && !(verdict.Blocked? && False(s.values, verdict.lit)) {
      forall m: Model | AllSat(m, added) ensures exists m': Model :: AllSat(m', added + [c]) {
        if verdict.Pure? {
          PureKeeps(s, added, c, verdict.lit, m);
        } else if !verdict.Blocked? || Sat(m, c) {
          assert AllSat(m, added + [c]);
        }
      }
    }
  }

  lemma GoodFacts(s: State)
    requires Good(s)
    ensures ValuesOK(s.values) && |s.watches| == |s.values| == |s.used| == |s.large| && s.propagated <= |s.trail|
  {
  }

  lemma GoodNeg(s: State, l: Lit)
    requires Good(s) && l < |s.values|
    ensures Neg(l) < |s.watches| == |s.values| == |s.large|
    ensures forall i :: 0 <= i < |s.watches[Neg(l)]| ==>
              var b := s.watches[Neg(l)][i];
              b < |s.lines| && forall k :: k in s.lines[b].lits ==> k < |s.values|
  {
    forall i | 0 <= i < |s.watches[Neg(l)]|
      ensures var b := s.watches[Neg(l)][i]; b < |s.lines| && forall k :: k in s.lines[b].lits ==> k < |s.values|
    {
      var b := s.watches[Neg(l)][i];
      assert Watches(s.lines, Neg(l), b) && Listed(s.lines, s.watches, b);
    }
  }

  lemma NextFacts(s: State)
    requires Good(s) && s.propagated < |s.trail|
    ensures var l := s.trail[s.propagated];
            Neg(l) < |s.values| == |s.watches| && Neg(Neg(l)) == l && False(s.values, Neg(l))
  {
    var l := s.trail[s.propagated];
    assert True(s.values, l);
    assert s.values[Neg(l)] == -s.values[l];
    HoldsNeg(iset{}, l);
  }

  lemma SoundPropagated(s: State, added: seq<seq<Lit>>, ds: seq<Lit>)
    requires Sound(s, added, ds)
    ensures Sound(s.(propagated := s.propagated + 1), added, ds)
  {
  }

  lemma SweepingCount(s: State, s': State, p: nat, l: Lit, rest: seq<nat>)
    requires Sweeping(s, p, l, [], rest) && s' == s.(propagated := s.propagated + 1) && s.propagated < |s.trail|
    ensures Sweeping(s', p, l, [], rest)
  {
    hide Watched;
    forall b: nat | b < |s'.lines| && s'.lines[b].live
      ensures if b in rest then !Done(s', p, Other(s'.lines[b].lits, l)) else Safe(s', p, s'.lines[b].lits)
    {
      assert Done(s', p, Other(s'.lines[b].lits, l)) == Done(s, p, Other(s.lines[b].lits, l));
      if b !in rest {
        SafeFrame(s, s', p, s.lines[b].lits);
      }
    }
  }

  lemma VirtualStep(s: State, l: Lit, kept: seq<nat>, rest: seq<nat>)
    requires rest != []
    ensures Virtual(s, l, kept + [rest[0]], rest[1..]) == Virtual(s, l, kept, rest)
  {
    assert kept + [rest[0]] + rest[1..] == kept + rest;
  }

  lemma VirtualEnd(s: State, l: Lit, kept: seq<nat>)
    requires l < |s.watches|
    ensures Virtual(s, l, kept, []) == s.(watches := s.watches[l := kept])
  {
    assert kept + [] == kept;
  }

  lemma SweepingGood(s: State, p: nat, l: Lit, kept: seq<nat>, rest: seq<nat>)
    requires Sweeping(s, p, l, kept, rest)
    ensures Good(Virtual(s, l, kept, rest))
  {
  }

  lemma WatchesOnly(s: State, added: seq<seq<Lit>>, ds: seq<Lit>, watches: seq<seq<nat>>, root: seq<int>)
    requires Sound(s, added, ds) && RootSafe(s.lines, root)
    ensures Sound(s.(watches := watches), added, ds)
  {
  }

  /** The literals of the trail from p on have lost their values. */
  ghost predicate Undone(s: State, values: seq<int>, p: nat) {
    && |values| == |s.values| && p <= |s.trail|
    && forall l: nat ::
         l < |values| ==> values[l] == if l in s.trail[p..] || Neg(l) in s.trail[p..] then 0 else s.values[l]
  }

  lemma UndoStep(s: State, values: seq<int>, p: nat)
    requires Good(s) && p < |s.trail| && Undone(s, values, p + 1)
    ensures s.trail[p] < |values| && Neg(s.trail[p]) < |values|
    ensures Undone(s, values[s.trail[p] := 0][Neg(s.trail[p]) := 0], p)
  {
    var lit := s.trail[p];
    assert True(s.values, lit);
    assert s.trail[p..] == [lit] + s.trail[p + 1..];
    forall l: nat | l < |values| ensures (l == lit || l == Neg(lit)) <==> (l == lit || Neg(l) == lit) {
      HoldsNeg(iset{}, l);
      HoldsNeg(iset{}, lit);
    }
    assert s.values[Neg(lit)] == -s.values[lit];
  }

  lemma UndoneRoot(s: State, values: seq<int>, saved: nat, root: seq<int>)
    requires Good(s) && saved <= |s.trail| && Undone(s, values, saved)
    requires ValuesOK(root) && TrailOK(root, s.trail[..saved]) && Extends(root, s.values)
    ensures values == root
  {
    assert s.trail == s.trail[..saved] + s.trail[saved..];
    forall l: nat | l < |values| ensures values[l] == root[l] {
      HoldsNeg(iset{}, l);
      UndoneAt(s, saved, root, l);
      assert s.values[Neg(l)] == -s.values[l] && root[Neg(l)] == -root[l];
      UndoneAt(s, saved, root, Neg(l));
    }
  }

  lemma UndoneAt(s: State, saved: nat, root: seq<int>, l: Lit)
    requires Good(s) && saved <= |s.trail| && ValuesOK(root) && TrailOK(root, s.trail[..saved])
    requires Extends(root, s.values)
    ensures True(root, l) ==> l !in s.trail[saved..] && Neg(l) !in s.trail[saved..] && True(s.values, l)
    ensures !True(root, l) && True(s.values, l) ==> l in s.trail[saved..]
  {
    assert s.trail == s.trail[..saved] + s.trail[saved..];
    if True(root, l) {
      assert l in s.trail[..saved];
      var i :| 0 <= i < saved && s.trail[i] == l;
      forall j | 0 <= j < |s.trail[saved..]| ensures s.trail[saved..][j] != l && s.trail[saved..][j] != Neg(l) {
        assert s.trail[saved..][j] == s.trail[saved + j] && s.trail[i] != s.trail[saved + j];
        assert True(s.values, s.trail[saved + j]) && s.values[Neg(l)] == -s.values[l];
      }
    } else if True(s.values, l) {
      assert l in s.trail;
      assert forall x :: x in s.trail[..saved] ==> True(root, x);
    }
  }

  lemma SweepFacts(s: State, p: nat, l: Lit, kept: seq<nat>, rest: seq<nat>)
    requires Sweeping(s, p, l, kept, rest) && rest != []
    ensures ValuesOK(s.values) && TrailOK(s.values, s.trail) && |s.watches| == |s.values| && l < |s.values|
    ensures False(s.values, l)
    ensures rest[0] < |s.lines| && s.lines[rest[0]].live && LineOK(|s.watches|, s.lines[rest[0]].lits)
    ensures var c := s.lines[rest[0]].lits;
            (c[0] == l || c[1] == l) && Other(c, l) in c && Other(c, l) != l && Other(c, l) < |s.values|
    ensures forall k: nat {:trigger Neg(k)} :: k < |s.values| ==> Neg(k) < |s.values|
  {
    GoodParts(s, l, kept, rest);
    RestDistinct(s, l, kept, rest);
  }

  lemma LineImplied(s: State, added: seq<seq<Lit>>, ds: seq<Lit>, b: nat)
    requires Sound(s, added, ds) && b < |s.lines| && s.lines[b].live
    ensures Implied(added, s.lines[b].lits)
  {
  }
}
