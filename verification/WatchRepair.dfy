/**
  Repairing the watches of a conflict (analyze.c): on a trail that is not sorted by level its two literals of the
  highest levels may be anywhere in the clause, and have to become the watched ones.
 */
module WatchRepair {
  import opened Literals
  import opened Sequences

  /** An entry of a watch list: a binary clause, or a large one with a blocking literal. */
  datatype Watch = Binary(lit: Lit) | Blocking(lit: Lit, ref: nat)

  ghost predicate Refers(w: Watch, ref: nat) {
    w.Blocking? && w.ref == ref
  }

  /** The clause is in the list exactly once, with one of its literals as the blocking one. */
  ghost predicate Once(ws: seq<Watch>, ref: nat, lits: seq<Lit>) {
    && (exists i :: 0 <= i < |ws| && Refers(ws[i], ref))
    && (forall i, j :: 0 <= i < j < |ws| && Refers(ws[i], ref) ==> !Refers(ws[j], ref))
    && (forall i :: 0 <= i < |ws| && Refers(ws[i], ref) ==> ws[i].lit in lits)
  }

  ghost predicate Never(ws: seq<Watch>, ref: nat) {
    forall i :: 0 <= i < |ws| ==> !Refers(ws[i], ref)
  }

  /** The clause is watched by its first two literals and by no others. */
  ghost predicate WatchedFirst(watches: seq<seq<Watch>>, ref: nat, lits: seq<Lit>) {
    && |lits| > 1 && lits[0] != lits[1]
    && forall l: nat :: l < |watches| ==>
         if l == lits[0] || l == lits[1] then Once(watches[l], ref, lits) else Never(watches[l], ref)
  }

  /** A list without its entries for the clause. */
  function OtherWatches(ws: seq<Watch>, ref: nat): seq<Watch> {
    if ws == [] then []
    else
      var n := |ws| - 1;
      OtherWatches(ws[..n], ref) + if ws[n].Blocking? && ws[n].ref == ref then [] else [ws[n]]
  }

  /** Only the entries for this clause have changed. */
  ghost predicate OthersKept(watches: seq<seq<Watch>>, watches': seq<seq<Watch>>, ref: nat) {
    |watches'| == |watches| && forall l: nat :: l < |watches| ==> KeptList(watches[l], watches'[l], ref)
  }

  ghost predicate KeptList(ws: seq<Watch>, ws': seq<Watch>, ref: nat) {
    OtherWatches(ws', ref) == OtherWatches(ws, ref)
  }

  lemma {:induction false} Unwatched(ws: seq<Watch>, ref: nat)
    ensures Never(OtherWatches(ws, ref), ref) && KeptList(ws, OtherWatches(ws, ref), ref)
  {
    if ws != [] {
      var n := |ws| - 1;
      Unwatched(ws[..n], ref);
      var d := OtherWatches(ws[..n], ref);
      assert (d + [ws[n]])[..|d|] == d && d + [] == d;
      assert OtherWatches(ws, ref) == if Refers(ws[n], ref) then d else d + [ws[n]];
    }
  }

  lemma NowWatched(ws: seq<Watch>, ref: nat, lits: seq<Lit>, blocking: Lit)
    requires Never(ws, ref) && blocking in lits
    ensures Once(ws + [Blocking(blocking, ref)], ref, lits) && KeptList(ws, ws + [Blocking(blocking, ref)], ref)
  {
    var d := ws + [Blocking(blocking, ref)];
    assert d[..|ws|] == ws;
    assert Refers(d[|ws|], ref);
    assert forall i :: 0 <= i < |ws| ==> d[i] == ws[i] && !Refers(d[i], ref);
  }

  // ------------------------------------------------------------------ levels

  ghost predicate Sorted2(levels: seq<nat>, lits: seq<Lit>, k: nat) {
    forall i, j :: 0 <= i < k && i < j < |lits| ==> LevelOf(levels, lits[j]) <= LevelOf(levels, lits[i])
  }

  function LevelOf(levels: seq<nat>, l: Lit): nat {
    if Var(l) < |levels| then levels[Var(l)] else 0
  }

  /** Exchanging the i-th literal with one of the highest level among the rest. */
  lemma SwapSorted(levels: seq<nat>, lits: seq<Lit>, i: nat, h: nat)
    requires i <= h < |lits| && Sorted2(levels, lits, i)
    requires forall j :: i <= j < |lits| ==> LevelOf(levels, lits[j]) <= LevelOf(levels, lits[h])
    ensures Sorted2(levels, Swap(lits, h, i), i + 1)
  {
    var d := Swap(lits, h, i);
    forall a, b | 0 <= a < i + 1 && a < b < |d| ensures LevelOf(levels, d[b]) <= LevelOf(levels, d[a]) {
      assert d[b] == lits[if b == h then i else if b == i then h else b];
    }
  }

  class Repairer {
    var lits: seq<Lit>
    var watches: seq<seq<Watch>>
    const ref: nat
    const levels: seq<nat>

    ghost predicate Valid()
      reads this
    {
      && |lits| > 1 && WatchedFirst(watches, ref, lits) && DistinctVars(lits)
      && forall l :: l in lits ==> l < |watches| && Var(l) < |levels|
    }

    constructor (lits: seq<Lit>, ref: nat, watches: seq<seq<Watch>>, levels: seq<nat>)
      requires WatchedFirst(watches, ref, lits) && DistinctVars(lits)
      requires forall l :: l in lits ==> l < |watches| && Var(l) < |levels|
      ensures Valid() && this.lits == lits && this.watches == watches && this.ref == ref && this.levels == levels
    {
      this.lits, this.watches, this.ref, this.levels := lits, watches, ref, levels;
    }

    /** Takes the clause out of the list of a literal, keeping the order of the others. */
    method UnwatchBlocking(lit: Lit)
      requires lit < |watches|
      modifies this`watches
      ensures |watches| == |old(watches)| && Never(watches[lit], ref) && OthersKept(old(watches), watches, ref)
      ensures forall l: nat :: l < |watches| && l != lit ==> watches[l] == old(watches)[l]
    {
      var ws, kept := watches[lit], [];
      for p := 0 to |ws|
        invariant kept == OtherWatches(ws[..p], ref) && watches == old(watches)
      {
        assert ws[..p + 1][..p] == ws[..p];
        if !(ws[p].Blocking? && ws[p].ref == ref) {
          kept := kept + [ws[p]];
        }
      }
      assert ws[..|ws|] == ws;
      Unwatched(ws, ref);
      watches := watches[lit := kept];
    }

    /** Puts the clause at the end of the list of a literal. */
    method WatchBlocking(lit: Lit, blocking: Lit)
      requires lit < |watches| && Never(watches[lit], ref) && blocking in lits
      modifies this`watches
      ensures |watches| == |old(watches)| && Once(watches[lit], ref, lits) && OthersKept(old(watches), watches, ref)
      ensures forall l: nat :: l < |watches| && l != lit ==> watches[l] == old(watches)[l]
    {
      NowWatched(watches[lit], ref, lits, blocking);
      watches := watches[lit := watches[lit] + [Blocking(blocking, ref)]];
    }

    /** The position of a literal of the highest level from position i on; the conflict level is the highest of all. */
    method FindHighest(i: nat, conflictLevel: nat) returns (h: nat)
      requires Valid() && i < |lits| && forall l :: l in lits ==> LevelOf(levels, l) <= conflictLevel
      ensures i <= h < |lits| && forall j :: i <= j < |lits| ==> LevelOf(levels, lits[j]) <= LevelOf(levels, lits[h])
    {
      h := i;
      assert lits[i] in lits;
      var highest := levels[Var(lits[i])];
      for j := i + 1 to |lits|
        invariant i <= h < j && highest == LevelOf(levels, lits[h])
        invariant forall k :: i <= k < j ==> LevelOf(levels, lits[k]) <= highest
      {
        assert lits[j] in lits;
        var level := levels[Var(lits[j])];
        if highest >= level {
          continue;
        }
        h, highest := j, level;
        if highest == conflictLevel {
          forall k | i <= k < |lits| ensures LevelOf(levels, lits[k]) <= highest {
            assert lits[k] in lits;
          }
          return;
        }
      }
    }

    /** Moves a literal of the highest level to the first or second position, and watches it. */
    method RepairWatch(i: nat, conflictLevel: nat)
      requires Valid() && i < 2 && Sorted2(levels, lits, i)
      requires forall l :: l in lits ==> LevelOf(levels, l) <= conflictLevel
      modifies this
      ensures Valid() && Sorted2(levels, lits, i + 1) && OthersKept(old(watches), watches, ref)
      ensures multiset(lits) == multiset(old(lits)) && forall l :: l in lits <==> l in old(lits)
    {
      hide Once, Never, Sorted2, WatchedFirst, OthersKept, DistinctVars, LevelOf;
      var h := FindHighest(i, conflictLevel);
      SwapSorted(levels, lits, i, h);
      if h == i {
        assert Swap(lits, h, i) == lits;
        KeptRefl(watches, ref);
        return;
      }
      Exchange(i, h);
    }

    /** Exchanges a literal further behind with a watched one, which loses its watch unless it stays in front. */
    method Exchange(i: nat, h: nat)
      requires Valid() && i < 2 && i < h < |lits|
      modifies this
      ensures Valid() && lits == Swap(old(lits), h, i) && OthersKept(old(watches), watches, ref)
      ensures multiset(lits) == multiset(old(lits)) && forall l :: l in lits <==> l in old(lits)
    {
      hide Once, Never, WatchedFirst, OthersKept, DistinctVars;
      SwapSame(lits, h, i);
      SameMembers(Swap(lits, h, i), lits);
      KeptRefl(watches, ref);
      ghost var lits0, watches0 := lits, watches;
      var lit, highest := lits[i], lits[h];
      SwapWatched(watches, ref, lits, i, h);
      if h > 1 {
        assert lit in lits;
        UnwatchBlocking(lit);
      }
      ghost var watches1 := watches;
      lits := lits[h := lit][i := highest];
      assert lits == Swap(lits0, h, i);
      if h > 1 {
        assert lits[i] in lits && lits[1 - i] in lits;
        WatchBlocking(lits[i], lits[1 - i]);
        KeptTrans(watches0, watches1, watches, ref);
        MovedWatched(watches0, watches, ref, lits0, i, h);
      }
      SwapDistinct(lits0, i, h);
    }

    /** Afterwards the clause is watched by two literals of the highest levels; nothing else has changed. */
    method RepairWatches(conflictLevel: nat)
      requires Valid() && forall l :: l in lits ==> LevelOf(levels, l) <= conflictLevel
      modifies this
      ensures Valid() && OthersKept(old(watches), watches, ref) && multiset(lits) == multiset(old(lits))
      ensures LevelOf(levels, lits[1]) <= LevelOf(levels, lits[0])
      ensures forall k :: 2 <= k < |lits| ==> LevelOf(levels, lits[k]) <= LevelOf(levels, lits[1])
    {
      ghost var watches0 := watches;
      RepairWatch(0, conflictLevel);
      ghost var watches1 := watches;
      RepairWatch(1, conflictLevel);
      KeptTrans(watches0, watches1, watches, ref);
    }
  }

  lemma KeptRefl(watches: seq<seq<Watch>>, ref: nat)
    ensures OthersKept(watches, watches, ref)
  {
  }

  lemma KeptTrans(w0: seq<seq<Watch>>, w1: seq<seq<Watch>>, w2: seq<seq<Watch>>, ref: nat)
    requires OthersKept(w0, w1, ref) && OthersKept(w1, w2, ref)
    ensures OthersKept(w0, w2, ref)
  {
    forall l: nat | l < |w0| ensures KeptList(w0[l], w2[l], ref) {
      assert KeptList(w0[l], w1[l], ref) && KeptList(w1[l], w2[l], ref);
    }
  }

  lemma SwapDistinct(lits: seq<Lit>, i: nat, h: nat)
    requires DistinctVars(lits) && i < |lits| && h < |lits|
    ensures DistinctVars(Swap(lits, h, i))
  {
    var d := Swap(lits, h, i);
    forall a, b | 0 <= a < b < |d| ensures Var(d[a]) != Var(d[b]) {
      assert d[a] == lits[if a == h then i else if a == i then h else a];
      assert d[b] == lits[if b == h then i else if b == i then h else b];
    }
  }

  /** The watched literals before; exchanging the first two changes nothing. */
  lemma SwapWatched(watches: seq<seq<Watch>>, ref: nat, lits: seq<Lit>, i: nat, h: nat)
    requires WatchedFirst(watches, ref, lits) && DistinctVars(lits) && i < 2 && i < h < |lits|
    requires forall l :: l in lits ==> l < |watches|
    ensures lits[i] < |watches| && Once(watches[lits[i]], ref, lits)
    ensures h > 1 ==> lits[h] != lits[0] && lits[h] != lits[1] && lits[h] < |watches| && Never(watches[lits[h]], ref)
    ensures h == 1 ==> WatchedFirst(watches, ref, Swap(lits, h, i))
  {
    assert lits[i] in lits && lits[h] in lits;
    assert Var(lits[i]) != Var(lits[h]);
    SameMembersSwap(lits, i, h);
    if h > 1 {
      assert Var(lits[0]) != Var(lits[h]) && Var(lits[1]) != Var(lits[h]);
    }
  }

  lemma SameMembersSwap(lits: seq<Lit>, i: nat, h: nat)
    requires i < |lits| && h < |lits|
    ensures forall l :: l in Swap(lits, h, i) <==> l in lits
  {
    SwapSame(lits, h, i);
    SameMembers(Swap(lits, h, i), lits);
  }

  /** One watch has moved to the literal that was exchanged. */
  lemma MovedWatched(w0: seq<seq<Watch>>, w: seq<seq<Watch>>, ref: nat, lits: seq<Lit>, i: nat, h: nat)
    requires WatchedFirst(w0, ref, lits) && DistinctVars(lits) && i < 2 <= h < |lits| && |w| == |w0|
    requires (forall l :: l in lits ==> l < |w|) && lits[i] < |w| && lits[h] < |w|
    requires Never(w[lits[i]], ref) && Once(w[lits[h]], ref, Swap(lits, h, i))
    requires forall l: nat :: l < |w| && l != lits[i] && l != lits[h] ==> w[l] == w0[l]
    ensures WatchedFirst(w, ref, Swap(lits, h, i))
  {
    SameMembersSwap(lits, i, h);
    assert Var(lits[0]) != Var(lits[h]) && Var(lits[1]) != Var(lits[h]) && Var(lits[0]) != Var(lits[1]);
    var d := Swap(lits, h, i);
    forall l: nat | l < |w| ensures if l == d[0] || l == d[1] then Once(w[l], ref, d) else Never(w[l], ref) {
      if l != lits[i] && l != lits[h] {
        OnceSame(w0[l], ref, lits, d);
      }
    }
  }

  lemma OnceSame(ws: seq<Watch>, ref: nat, lits: seq<Lit>, d: seq<Lit>)
    requires forall l :: l in d <==> l in lits
    ensures Once(ws, ref, lits) <==> Once(ws, ref, d)
  {
  }
}
