/**
  Extraction of a clausal core in the embedded solver (kitten.c,
  kitten_compute_clausal_core): the depth-first search over antecedents and what the
  clauses it lists imply.
 */
module KittenCore {
  import opened Literals
  import opened KittenModel
  import opened KittenAssumptions
  import opened KittenOutcome
  import opened KittenApi

  // ------------------------------------------------------------------ the list of core clauses

  /** The list contains each flagged clause once, and a learned clause after all its antecedents. */
  ghost predicate CoreListed(ks: seq<Klause>, core: seq<nat>) {
    && (forall i :: 0 <= i < |core| ==> core[i] < |ks| && ks[core[i]].core)
    && (forall i, j :: 0 <= i < j < |core| ==> core[i] != core[j])
    && (forall r: nat :: r < |ks| && ks[r].core ==> r in core)
    && (forall i :: 0 <= i < |core| ==> AntecedentsBefore(ks, core, i))
  }

  ghost predicate AntecedentsBefore(ks: seq<Klause>, core: seq<nat>, i: nat)
    requires i < |core|
  {
    core[i] < |ks| && ks[core[i]].learned ==> forall a :: a in ks[core[i]].antecedents ==> a in core[..i]
  }

  /** Model m satisfies the flagged original clauses. */
  ghost predicate SatCore(m: Model, ks: seq<Klause>) {
    forall r :: 0 <= r < |ks| && ks[r].core && !ks[r].learned ==> Sat(m, ks[r].lits)
  }

  /** The flagged original clauses imply every listed clause. */
  lemma {:induction false} CoreImplies(ks: seq<Klause>, core: seq<nat>, m: Model, i: nat)
    requires Derived(ks) && CoreListed(ks, core) && SatCore(m, ks) && i < |core|
    ensures Sat(m, ks[core[i]].lits)
  {
    var r := core[i];
    if ks[r].learned {
      assert DerivedAt(ks, r) && AntecedentsBefore(ks, core, i);
      forall k | 0 <= k < |ks[r].antecedents| ensures Sat(m, ks[ks[r].antecedents[k]].lits) {
        var a := ks[r].antecedents[k];
        assert a in ks[r].antecedents;
        var j :| 0 <= j < i && core[..i][j] == a;
        CoreImplies(ks, core, m, j);
      }
      assert SatAll(m, ks, ks[r].antecedents);
    }
  }

  // ------------------------------------------------------------------ the depth-first search

  /** The clause at position i of the stack waits for its antecedents above. */
  ghost predicate OpenAt(st: seq<int>, i: nat) {
    i + 1 < |st| && st[i] >= 0 && st[i + 1] == INVALID
  }

  ghost predicate IsOpen(st: seq<int>, r: int) {
    exists i: nat :: OpenAt(st, i) && st[i] == r
  }

  ghost predicate Waiting(st: seq<int>, i: nat, a: int) {
    a >= 0 && exists j: nat :: i < j < |st| && st[j] == a
  }

  /** What an open clause looks forward to. */
  ghost predicate OpenOK(ks: seq<Klause>, st: seq<int>, i: nat) {
    OpenAt(st, i) && st[i] < |ks| ==>
      && !ks[st[i]].core
      && (forall j: nat :: i < j < |st| ==> st[j] < st[i])
      && (ks[st[i]].learned ==> forall a :: a in ks[st[i]].antecedents ==> Marked(ks, a) || Waiting(st, i, a))
  }

  ghost predicate Marked(ks: seq<Klause>, a: int) {
    0 <= a < |ks| && ks[a].core
  }

  ghost predicate Entry(ks: seq<Klause>, st: seq<int>, i: nat)
    requires i < |st|
  {
    if st[i] == INVALID then i > 0 && st[i - 1] >= 0 else 0 <= st[i] < |ks|
  }

  /** Clause r is an antecedent of a core or open clause, or the one the search started from. */
  ghost predicate Needed(ks: seq<Klause>, st: seq<int>, start: nat, r: int) {
    r == start || exists p :: NeededBy(ks, st, p, r)
  }

  ghost predicate NeededBy(ks: seq<Klause>, st: seq<int>, p: nat, r: int) {
    p < |ks| && ks[p].learned && (ks[p].core || IsOpen(st, p)) && r in ks[p].antecedents
  }

  ghost predicate Collecting(ks: seq<Klause>, core: seq<nat>, st: seq<int>, start: nat) {
    && CoreListed(ks, core)
    && (forall i: nat :: i < |st| ==> Entry(ks, st, i))
    && (forall i: nat :: OpenOK(ks, st, i))
    && (if st == [] then Marked(ks, start) else st[0] == start)
    && (forall r :: r in st && r >= 0 ==> Needed(ks, st, start, r))
    && (forall r :: r in core ==> Needed(ks, st, start, r))
  }

  /** Clauses that are neither core nor open: each is opened at most once. */
  ghost function Rest(ks: seq<Klause>, st: seq<int>): set<nat> {
    set r: nat | r < |ks| && !ks[r].core && !IsOpen(st, r)
  }

  lemma CoreSearch(ks: seq<Klause>, start: nat)
    requires start < |ks| && NoCore(ks)
    ensures Collecting(ks, [], [start], start)
  {
  }

  /** A core clause on top of the stack is dropped. */
  lemma CoreDrop(ks: seq<Klause>, core: seq<nat>, st: seq<int>, start: nat)
    requires Collecting(ks, core, st, start) && st != [] && Marked(ks, st[|st| - 1])
    ensures Collecting(ks, core, st[..|st| - 1], start)
    ensures Rest(ks, st[..|st| - 1]) == Rest(ks, st)
  {
    var n := |st| - 1;
    var st' := st[..n];
    assert Entry(ks, st, n);
    PoppedOpen(ks, st, n);
    forall i: nat ensures OpenOK(ks, st', i) {
      assert OpenOK(ks, st, i);
      if OpenAt(st', i) {
        forall a | Waiting(st, i, a) && !Marked(ks, a) ensures Waiting(st', i, a) {
          var j: nat :| i < j < |st| && st[j] == a;
          assert st'[j] == a;
        }
      }
    }
    forall r | Needed(ks, st, start, r) ensures Needed(ks, st', start, r) {
      if r != start {
        var p :| NeededBy(ks, st, p, r);
        assert NeededBy(ks, st', p, r);
      }
    }
    forall i: nat | i < |st'| ensures Entry(ks, st', i) {
      assert Entry(ks, st, i);
    }
  }

  lemma PoppedOpen(ks: seq<Klause>, st: seq<int>, n: nat)
    requires n < |st| && st[n] != INVALID && n + 1 == |st|
    ensures forall i: nat :: OpenAt(st[..n], i) <==> OpenAt(st, i)
    ensures forall r :: IsOpen(st[..n], r) <==> IsOpen(st, r)
  {
    forall i: nat ensures OpenAt(st[..n], i) <==> OpenAt(st, i) {
    }
    forall r ensures IsOpen(st[..n], r) <==> IsOpen(st, r) {
      if IsOpen(st, r) {
        var i: nat :| OpenAt(st, i) && st[i] == r;
        assert OpenAt(st[..n], i);
      }
    }
  }

  /** An open clause on top of the stack, whose antecedents are all core, becomes core. */
  lemma CoreClose(ks: seq<Klause>, core: seq<nat>, st: seq<int>, start: nat)
    requires Collecting(ks, core, st, start) && st != [] && st[|st| - 1] == INVALID
    ensures |st| >= 2 && 0 <= st[|st| - 2] < |ks| && !ks[st[|st| - 2]].core
    ensures var d := st[|st| - 2];
            var ks' := ks[d := ks[d].(core := true)];
            Collecting(ks', core + [d], st[..|st| - 2], start) && Rest(ks', st[..|st| - 2]) == Rest(ks, st)
  {
    var n := |st| - 2;
    assert Entry(ks, st, n + 1);
    assert Entry(ks, st, n);
    assert OpenAt(st, n) && OpenOK(ks, st, n);
    var d := st[n];
    var ks', st' := ks[d := ks[d].(core := true)], st[..n];
    ClosedOpen(ks, st, n);
    CloseListed(ks, core, st, n);
    forall i: nat ensures OpenOK(ks', st', i) {
      assert OpenOK(ks, st, i);
      if OpenAt(st', i) {
        assert OpenAt(st, i) && st[n] < st[i];
        forall a | Waiting(st, i, a) && !Marked(ks', a) ensures Waiting(st', i, a) {
          var j: nat :| i < j < |st| && st[j] == a;
          assert st'[j] == a;
        }
      }
    }
    forall r | Needed(ks, st, start, r) ensures Needed(ks', st', start, r) {
      if r != start {
        var p :| NeededBy(ks, st, p, r);
        assert NeededBy(ks', st', p, r);
      }
    }
    forall i: nat | i < |st'| ensures Entry(ks', st', i) {
      assert Entry(ks, st, i);
    }
  }

  lemma ClosedOpen(ks: seq<Klause>, st: seq<int>, n: nat)
    requires |st| == n + 2 && OpenAt(st, n) && forall i: nat :: OpenOK(ks, st, i)
    ensures forall i: nat :: OpenAt(st[..n], i) ==> OpenAt(st, i)
    ensures forall r :: IsOpen(st, r) <==> IsOpen(st[..n], r) || r == st[n]
  {
    forall i: nat ensures OpenAt(st[..n], i) <==> OpenAt(st, i) && i < n - 1 {
    }
    forall r ensures IsOpen(st, r) <==> IsOpen(st[..n], r) || r == st[n] {
      if IsOpen(st, r) {
        var i: nat :| OpenAt(st, i) && st[i] == r;
        if i != n {
          assert st[..n][i] == r && OpenAt(st[..n], i);
        }
      }
      if IsOpen(st[..n], r) {
        var i: nat :| OpenAt(st[..n], i) && st[..n][i] == r;
        assert OpenAt(st, i);
      }
    }
  }

  lemma CloseListed(ks: seq<Klause>, core: seq<nat>, st: seq<int>, n: nat)
    requires CoreListed(ks, core) && |st| == n + 2 && OpenAt(st, n) && OpenOK(ks, st, n) && st[n] < |ks|
    ensures CoreListed(ks[st[n] := ks[st[n]].(core := true)], core + [st[n]])
  {
    var d := st[n];
    var ks', core' := ks[d := ks[d].(core := true)], core + [d];
    forall i | 0 <= i < |core'| ensures AntecedentsBefore(ks', core', i) {
      if i < |core| {
        assert AntecedentsBefore(ks, core, i) && core'[..i] == core[..i];
      } else {
        assert core'[..i] == core;
        forall a | a in ks[d].antecedents && ks[d].learned ensures a in core {
          assert !Waiting(st, n, a);
        }
      }
    }
    forall r: nat | r < |ks'| && ks'[r].core ensures r in core' {
      if r == d {
        assert core'[|core|] == d;
      } else {
        assert r in core;
      }
    }
  }

  /** Antecedents that are not core yet, pushed on the stack. */
  function Pushed(ks: seq<Klause>, st: seq<int>, refs: seq<int>, k: nat): (st': seq<int>)
    requires k <= |refs|
    ensures |st| <= |st'| && st'[..|st|] == st
    ensures forall j :: |st| <= j < |st'| ==> st'[j] in refs
    ensures forall i :: 0 <= i < k && 0 <= refs[i] < |ks| && !ks[refs[i]].core ==> refs[i] in st'[|st|..]
  {
    if k == 0 then st
    else
      var st' := Pushed(ks, st, refs, k - 1);
      if 0 <= refs[k - 1] < |ks| && !ks[refs[k - 1]].core then
        assert (st' + [refs[k - 1]])[|st|..] == st'[|st|..] + [refs[k - 1]];
        st' + [refs[k - 1]]
      else st'
  }

  function Opened(ks: seq<Klause>, st: seq<int>, c: nat): seq<int> {
    if c < |ks| && ks[c].learned then Pushed(ks, st + [INVALID], ks[c].antecedents, |ks[c].antecedents|)
    else st + [INVALID]
  }

  /** A clause on top of the stack that is not core is opened: its antecedents go on top. */
  lemma CoreOpen(ks: seq<Klause>, core: seq<nat>, st: seq<int>, start: nat)
    requires Collecting(ks, core, st, start) && Derived(ks)
    requires st != [] && st[|st| - 1] != INVALID && !Marked(ks, st[|st| - 1])
    ensures 0 <= st[|st| - 1] < |ks|
    ensures Collecting(ks, core, Opened(ks, st, st[|st| - 1]), start)
    ensures Rest(ks, Opened(ks, st, st[|st| - 1])) < Rest(ks, st)
  {
    hide CoreListed, Needed, Rest, OpenOK, Opened, DerivedAt, Derived;
    assert Entry(ks, st, |st| - 1);
    var c := st[|st| - 1];
    CoreDerived(ks, c);
    OpenedShape(ks, st);
    forall i: nat ensures OpenOK(ks, Opened(ks, st, c), i) {
      OpenedOK(ks, core, st, start, i);
    }
    OpenedNeeded(ks, core, st, start);
    OpenedEntries(ks, st);
    OpenedRest(ks, core, st, start);
  }

  lemma OpenedEntries(ks: seq<Klause>, st: seq<int>)
    requires st != [] && 0 <= st[|st| - 1] < |ks| && DerivedAt(ks, st[|st| - 1])
    requires forall i: nat :: i < |st| ==> Entry(ks, st, i)
    ensures var st' := Opened(ks, st, st[|st| - 1]); forall i: nat :: i < |st'| ==> Entry(ks, st', i)
  {
    hide Opened, DerivedAt;
    var st' := Opened(ks, st, st[|st| - 1]);
    OpenedShape(ks, st);
    forall i: nat | i < |st'| ensures Entry(ks, st', i) {
      if i < |st| {
        assert Entry(ks, st, i) && st'[i] == st[i];
        assert i > 0 ==> st'[i - 1] == st[i - 1];
      } else if i == |st| {
        assert st'[i - 1] == st[i - 1];
      }
    }
  }

  lemma OpenedShape(ks: seq<Klause>, st: seq<int>)
    requires st != [] && 0 <= st[|st| - 1] < |ks| && DerivedAt(ks, st[|st| - 1])
    ensures var st' := Opened(ks, st, st[|st| - 1]);
            && |st'| > |st| && st'[..|st|] == st && st'[|st|] == INVALID
            && (forall j :: |st| < j < |st'| ==> ks[st[|st| - 1]].learned && st'[j] in ks[st[|st| - 1]].antecedents &&
                                                 0 <= st'[j] < st[|st| - 1])
  {
  }

  lemma OpenedOpen(ks: seq<Klause>, st: seq<int>)
    requires st != [] && 0 <= st[|st| - 1] < |ks| && DerivedAt(ks, st[|st| - 1])
    ensures forall i: nat :: OpenAt(Opened(ks, st, st[|st| - 1]), i) <==> OpenAt(st, i) || i == |st| - 1
    ensures forall r :: IsOpen(Opened(ks, st, st[|st| - 1]), r) <==> IsOpen(st, r) || r == st[|st| - 1]
  {
    var n := |st| - 1;
    var st' := Opened(ks, st, st[n]);
    OpenedShape(ks, st);
    forall i: nat ensures OpenAt(st', i) <==> OpenAt(st, i) || i == n {
      if i < n {
        assert st'[i] == st[i] && st'[i + 1] == st[i + 1];
      }
    }
    forall r ensures IsOpen(st', r) <==> IsOpen(st, r) || r == st[n] {
      if IsOpen(st', r) {
        var i: nat :| OpenAt(st', i) && st'[i] == r;
      }
      if IsOpen(st, r) {
        var i: nat :| OpenAt(st, i) && st[i] == r;
        assert OpenAt(st', i) && st'[i] == r;
      }
      assert OpenAt(st', n);
    }
  }

  lemma OpenedOK(ks: seq<Klause>, core: seq<nat>, st: seq<int>, start: nat, i: nat)
    requires Collecting(ks, core, st, start) && st != [] && 0 <= st[|st| - 1] < |ks|
    requires DerivedAt(ks, st[|st| - 1]) && !Marked(ks, st[|st| - 1])
    ensures OpenOK(ks, Opened(ks, st, st[|st| - 1]), i)
  {
    hide CoreListed, Needed, Opened, DerivedAt;
    var n := |st| - 1;
    var c := st[n];
    var st' := Opened(ks, st, c);
    OpenedShape(ks, st);
    OpenedOpen(ks, st);
    if ks[c].learned {
      OpenedAll(ks, st);
    }
    if OpenAt(st', i) {
      if i < n {
        assert OpenOK(ks, st, i) && OpenAt(st, i);
        forall a | Waiting(st, i, a) ensures Waiting(st', i, a) {
          var j: nat :| i < j < |st| && st[j] == a;
          assert st'[j] == a;
        }
      } else if ks[c].learned {
        forall a | a in ks[c].antecedents && !Marked(ks, a) ensures Waiting(st', i, a) {
          var j :| |st| < j < |st'| && st'[j] == a;
        }
      }
    }
  }

  lemma OpenedRest(ks: seq<Klause>, core: seq<nat>, st: seq<int>, start: nat)
    requires Collecting(ks, core, st, start) && st != [] && 0 <= st[|st| - 1] < |ks|
    requires DerivedAt(ks, st[|st| - 1]) && !Marked(ks, st[|st| - 1])
    ensures Rest(ks, Opened(ks, st, st[|st| - 1])) < Rest(ks, st)
  {
    hide CoreListed, Needed, DerivedAt;
    var c := st[|st| - 1];
    var st' := Opened(ks, st, c);
    OpenedOpen(ks, st);
    forall i: nat ensures !(OpenAt(st, i) && st[i] == c) {
      assert OpenOK(ks, st, i);
    }
    assert c in Rest(ks, st);
    assert IsOpen(st', c);
  }

  lemma CoreDerived(ks: seq<Klause>, c: nat)
    requires Derived(ks) && c < |ks|
    ensures DerivedAt(ks, c)
  {
  }

  lemma OpenedNeeded(ks: seq<Klause>, core: seq<nat>, st: seq<int>, start: nat)
    requires Collecting(ks, core, st, start) && st != [] && 0 <= st[|st| - 1] < |ks|
    requires DerivedAt(ks, st[|st| - 1])
    ensures var st' := Opened(ks, st, st[|st| - 1]);
            && (forall r :: r in st' && r >= 0 ==> Needed(ks, st', start, r))
            && (forall r :: r in core ==> Needed(ks, st', start, r))
  {
    hide CoreListed, OpenOK, Opened, DerivedAt;
    var c := st[|st| - 1];
    var st' := Opened(ks, st, c);
    OpenedShape(ks, st);
    OpenedOpen(ks, st);
    forall r | Needed(ks, st, start, r) ensures Needed(ks, st', start, r) {
      if r != start {
        var p :| NeededBy(ks, st, p, r);
        assert NeededBy(ks, st', p, r);
      }
    }
    forall r | r in st' && r >= 0 ensures Needed(ks, st', start, r) {
      if r !in st {
        assert NeededBy(ks, st', c, r);
      }
    }
  }

  // ------------------------------------------------------------------ the result

  /** ks differs from ks0 in core flags only. */
  ghost predicate CoreFlags(ks0: seq<Klause>, ks: seq<Klause>) {
    |ks| == |ks0| && forall r :: 0 <= r < |ks| ==> ks[r] == ks0[r].(core := ks[r].core)
  }

  lemma FlagsDerived(ks0: seq<Klause>, ks: seq<Klause>)
    requires CoreFlags(ks0, ks) && Derived(ks0)
    ensures Derived(ks)
  {
    hide Derived;
    FlagsSimilar(ks0, ks);
    SimilarKeepsDerived(ks0, ks);
  }

  /** The clause the search starts from: the empty clause, or the failing one if there is one. */
  function CoreStart(s: State): int {
    if s.inconsistent != INVALID then s.inconsistent else s.failing
  }

  /** The number of listed clauses that are learned, or that are not. */
  function CountKind(ks: seq<Klause>, core: seq<nat>, learned: bool): nat {
    if core == [] then 0
    else
      var r := core[|core| - 1];
      CountKind(ks, core[..|core| - 1], learned) + if r < |ks| && ks[r].learned == learned then 1 else 0
  }

  lemma CountFlags(ks0: seq<Klause>, ks: seq<Klause>, core: seq<nat>, learned: bool)
    requires CoreFlags(ks0, ks)
    ensures CountKind(ks, core, learned) == CountKind(ks0, core, learned)
  {
  }

  /** What the core promises: its order, why each clause is in it, and that it refutes. */
  ghost predicate CoreOK(s: State) {
    && CoreListed(s.klauses, s.core)
    && (forall r :: r in s.core ==> CoreStart(s) >= 0 && Needed(s.klauses, [], CoreStart(s), r))
    && (forall m: Model | SatCore(m, s.klauses) :: s.inconsistent == INVALID && Blames(m, s))
  }

  /** Two clashing assumptions need no clause to fail. */
  lemma ClashCore(s: State)
    requires NoCore(s.klauses) && s.core == [] && s.inconsistent == INVALID && Failed(s) && s.failing == INVALID
    ensures CoreOK(s)
  {
    forall m: Model | SatCore(m, s.klauses) ensures Blames(m, s) {
      ClashBlames(s, m);
    }
  }

  /** At the end of the search the flagged originals refute what the start clause refutes. */
  lemma CoreDone(s: State)
    requires Base(s) && s.tracked && CoreStart(s) >= 0 && Explained(s)
    requires Collecting(s.klauses, s.core, [], CoreStart(s)) && Derived(s.klauses)
    ensures CoreOK(s)
  {
    hide Assigned, SearchOK, CountFree, PendingOK, Implied, UnitsOK, Derived, Needed, AntecedentsBefore, Blames;
    forall m: Model | SatCore(m, s.klauses) ensures s.inconsistent == INVALID && Blames(m, s) {
      var i :| 0 <= i < |s.core| && s.core[i] == CoreStart(s);
      CoreImplies(s.klauses, s.core, m, i);
      if s.inconsistent == INVALID {
        ExactBlames(s, s.klauses[s.failing].lits, m);
      }
    }
  }

  lemma CoreIdle(s0: State, s: State)
    requires Idle(s0) && s0.status == 20 && CoreFlags(s0.klauses, s.klauses)
    requires s == s0.(klauses := s.klauses, core := s.core)
    ensures Idle(s.(status := 21)) && Grown(s0.klauses, s.klauses) && Base(s)
    ensures Explained(s)
  {
    CoreFlagsKeep(s0, s.klauses);
    FlagsSimilar(s0.klauses, s.klauses);
    hide Base, Watched;
    var s1 := s0.(klauses := s.klauses);
    CoreBase(s1, s.core);
    ResetStatus(s, 21);
    var t := s.(status := 21);
    assert forall l: nat :: Flagged(t, l) <==> Flagged(s0, l);
    forall c | FlagsExact(s0, c) ensures FlagsExact(t, c) {
      ExactSame(s0, t, c);
    }
    StatusOutcome(t, s.status);
  }

  lemma CoreStarts(s: State)
    requires Idle(s) && s.status == 20 && s.tracked
    ensures CoreStart(s) == INVALID || 0 <= CoreStart(s) < |s.klauses|
    ensures Derived(s.klauses) && NoCore(s.klauses) && s.core == [] && s.resolved == []
    ensures CoreStart(s) == INVALID ==> s.inconsistent == INVALID && Failed(s) && s.failing == INVALID
  {
  }

  lemma CoreOKSame(s: State)
    requires CoreOK(s)
    ensures CoreOK(s.(status := 21, resolved := []))
  {
    var t := s.(status := 21, resolved := []);
    forall m: Model | Blames(m, s) ensures Blames(m, t) {
      BlamesSame(m, s, t);
    }
  }

  lemma CoreFlagsRefl(s: State)
    ensures CoreFlags(s.klauses, s.klauses)
    ensures CountKind(s.klauses, [], false) == CountKind(s.klauses, [], true) == 0
  {
  }

  lemma CloseCount(ks: seq<Klause>, core: seq<nat>, d: nat)
    requires d < |ks|
    ensures forall b :: CountKind(ks[d := ks[d].(core := true)], core + [d], b) ==
                        CountKind(ks, core, b) + if ks[d].learned == b then 1 else 0
  {
    forall b ensures CountKind(ks[d := ks[d].(core := true)], core + [d], b) ==
                     CountKind(ks, core, b) + if ks[d].learned == b then 1 else 0 {
      assert (core + [d])[..|core|] == core;
      CountFlags(ks, ks[d := ks[d].(core := true)], core, b);
    }
  }

  lemma CloseFlags(ks0: seq<Klause>, ks: seq<Klause>, d: nat)
    requires CoreFlags(ks0, ks) && Derived(ks) && d < |ks|
    ensures CoreFlags(ks0, ks[d := ks[d].(core := true)]) && Derived(ks[d := ks[d].(core := true)])
  {
    hide Derived;
    FlagsDerived(ks, ks[d := ks[d].(core := true)]);
  }

  lemma TopEntry(ks: seq<Klause>, core: seq<nat>, st: seq<int>, start: nat)
    requires Collecting(ks, core, st, start) && st != [] && st[|st| - 1] != INVALID && Derived(ks)
    ensures 0 <= st[|st| - 1] < |ks|
    ensures ks[st[|st| - 1]].learned ==> Refs(ks[st[|st| - 1]].antecedents, |ks|)
  {
    assert Entry(ks, st, |st| - 1);
    assert DerivedAt(ks, st[|st| - 1]);
  }

  lemma OpenedAll(ks: seq<Klause>, st: seq<int>)
    requires st != [] && 0 <= st[|st| - 1] < |ks| && DerivedAt(ks, st[|st| - 1]) && ks[st[|st| - 1]].learned
    ensures var st' := Opened(ks, st, st[|st| - 1]);
            forall a :: a in ks[st[|st| - 1]].antecedents && !Marked(ks, a) ==>
                        a >= 0 && exists j :: |st| < j < |st'| && st'[j] == a
  {
    var refs := ks[st[|st| - 1]].antecedents;
    var st' := Opened(ks, st, st[|st| - 1]);
    forall a | a in refs && !Marked(ks, a) ensures a >= 0 && exists j :: |st| < j < |st'| && st'[j] == a {
      var k :| 0 <= k < |refs| && refs[k] == a;
      assert a in st'[|st| + 1..];
      var j :| 0 <= j < |st'| - |st| - 1 && st'[|st| + 1..][j] == a;
      assert st'[|st| + 1 + j] == a;
    }
  }
}
