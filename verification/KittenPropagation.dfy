/**
  Watched-literal propagation (kitten.c, propagate_literal and propagate): the invariant of
  the sweep over one watch list, and what each of its steps keeps.
 */
module KittenPropagation {
  import opened Literals
  import opened KittenModel

  // ------------------------------------------------------------------ progress of the solver

  /** The literals added in values' are not decisions. */
  ghost predicate Forced(values: seq<int>, values': seq<int>, vars': seq<Kar>) {
    forall l: nat :: l < |values| && l < |values'| && values[l] == 0 && values'[l] != 0 ==> Why(vars', l) != INVALID
  }

  ghost predicate UnitTrue(c: seq<Lit>, values: seq<int>, vars: seq<Kar>) {
    |c| == 1 ==> c[0] < |values| && values[c[0]] > 0 && Lv(vars, c[0]) == 0
  }

  /** The unit clauses from position `from` on are true at the root level. */
  ghost predicate UnitsTrue(ks: seq<Klause>, values: seq<int>, vars: seq<Kar>, from: nat) {
    forall r :: from <= r < |ks| ==> UnitTrue(ks[r].lits, values, vars)
  }

  lemma UnitsTrueTrans(ks: seq<Klause>, values: seq<int>, vars: seq<Kar>, from: nat,
                       ks': seq<Klause>, values': seq<int>, vars': seq<Kar>, lv: nat)
    requires UnitsTrue(ks, values, vars, from) && UnitsTrue(ks', values', vars', |ks|)
    requires Similar(ks, ks') && Grows(values, vars, values', vars', lv)
    ensures UnitsTrue(ks', values', vars', from)
  {
    forall r | from <= r < |ks'| ensures UnitTrue(ks'[r].lits, values', vars') {
      if r < |ks| {
        assert UnitTrue(ks[r].lits, values, vars) && SameLits(ks[r].lits, ks'[r].lits);
        if |ks[r].lits| == 1 {
          assert ks'[r].lits[0] in ks[r].lits;
        }
      }
    }
  }

  /** s' differs from s by literals forced at the current level and by bookkeeping of clauses. */
  ghost predicate Advances(s: State, s': State) {
    && s' == s.(values := s'.values, vars := s'.vars, phases := s'.phases, trail := s'.trail,
                unassigned := s'.unassigned, klauses := s'.klauses, units := s'.units, watches := s'.watches)
    && Grows(s.values, s.vars, s'.values, s'.vars, s.level)
    && Forced(s.values, s'.values, s'.vars)
    && SameFormula(s.klauses, s'.klauses)
    && UnitsTrue(s'.klauses, s'.values, s'.vars, |s.klauses|)
    && s.trail <= s'.trail
  }

  lemma AdvancesRefl(s: State)
    requires Base(s)
    ensures Advances(s, s)
  {
  }

  lemma GrowsTrans(values: seq<int>, vars: seq<Kar>, values': seq<int>, vars': seq<Kar>,
                   values'': seq<int>, vars'': seq<Kar>, lv: nat)
    requires Grows(values, vars, values', vars', lv) && Grows(values', vars', values'', vars'', lv)
    requires Forced(values, values', vars') && Forced(values', values'', vars'')
    ensures Grows(values, vars, values'', vars'', lv) && Forced(values, values'', vars'')
  {
    forall l: nat | l < |values| && values[l] == 0 && values''[l] != 0
      ensures Lv(vars'', l) == lv && Why(vars'', l) != INVALID
    {
      if values'[l] != 0 {
        assert vars''[Var(l)] == vars'[Var(l)];
      }
    }
  }

  lemma SameFormulaTrans(ks: seq<Klause>, ks': seq<Klause>, ks'': seq<Klause>)
    requires SameFormula(ks, ks') && SameFormula(ks', ks'')
    ensures SameFormula(ks, ks'')
  {
    forall r | 0 <= r < |ks| ensures SameLits(ks[r].lits, ks''[r].lits) {
      assert SameLits(ks[r].lits, ks'[r].lits) && SameLits(ks'[r].lits, ks''[r].lits);
    }
  }

  lemma AdvancesTrans(s: State, s': State, s'': State)
    requires Advances(s, s') && Advances(s', s'')
    ensures Advances(s, s'')
  {
    hide Grows, Forced, Similar, UnitsTrue;
    UnitsTrueTrans(s'.klauses, s'.values, s'.vars, |s.klauses|, s''.klauses, s''.values, s''.vars, s.level);
    hide SameFormula;
    GrowsTrans(s.values, s.vars, s'.values, s'.vars, s''.values, s''.vars, s.level);
    SameFormulaTrans(s.klauses, s'.klauses, s''.klauses);
  }

  lemma AssignsAdvances(s: State, lit: Lit, reason: int)
    requires Base(s) && Assignable(s, lit, reason) && s.klause == [] && s.resolved == [] && reason != INVALID
    ensures Advances(s, Assigns(s, lit, reason))
  {
    hide Base, Assignable, Grows, Forced, LearnRoot, CanForce, Assigns;
    AssignsForced(s, lit, reason);
    AssignsFrame(s, lit, reason);
    AssignsUnits(s, lit, reason);
    AssignsKeeps(s, lit, reason);
    LearnRootFrame(s, lit, reason);
    RootLearnedSame(lit, s.klauses, s.units, Assigns(s, lit, reason).klauses, Assigns(s, lit, reason).units);
  }

  lemma AssignsFrame(s: State, lit: Lit, reason: int)
    requires s.klause == [] && s.resolved == []
    ensures var s' := Assigns(s, lit, reason);
            && s' == s.(values := s'.values, vars := s'.vars, phases := s'.phases, trail := s'.trail,
                        unassigned := s'.unassigned, klauses := s'.klauses, units := s'.units, watches := s'.watches)
            && s'.trail == s.trail + [lit] && s'.watches == s.watches
  {
    hide LearnRoot, Set;
    LearnRootFrame(s, lit, reason);
  }

  lemma AssignsUnits(s: State, lit: Lit, reason: int)
    requires Base(s) && Assignable(s, lit, reason)
    ensures var s' := Assigns(s, lit, reason); UnitsTrue(s'.klauses, s'.values, s'.vars, |s.klauses|)
  {
    hide Base, CanForce, Grows, LearnRoot;
    AssignsKeeps(s, lit, reason);
    LearnRootFrame(s, lit, reason);
    Bounds(s, lit);
    if s.level > 0 {
      assert Assigns(s, lit, reason).klauses == s.klauses;
    }
  }

  lemma AssignsForced(s: State, lit: Lit, reason: int)
    requires Base(s) && Assignable(s, lit, reason) && reason != INVALID
    ensures var s' := Assigns(s, lit, reason); Forced(s.values, s'.values, s'.vars)
  {
    hide Base, CanForce, LearnRoot;
    LearnRootFrame(s, lit, reason);
    Bounds(s, lit);
  }

  lemma RootLearnedSame(lit: Lit, ks: seq<Klause>, units: seq<nat>, ks': seq<Klause>, units': seq<nat>)
    requires RootLearned(lit, ks, units, ks', units')
    ensures SameFormula(ks, ks')
  {
  }

  // ------------------------------------------------------------------ the sweep

  /**
    Every clause watched by l is either satisfied, no later than at level lv, or still ahead
    in the list of katches to be visited.
   */
  ghost predicate Handled(ks: seq<Klause>, values: seq<int>, vars: seq<Kar>, l: Lit, ahead: seq<Katch>, lv: nat) {
    forall r :: 0 <= r < |ks| ==> HandledAt(ks, values, vars, l, ahead, lv, r)
  }

  ghost predicate HandledAt(ks: seq<Klause>, values: seq<int>, vars: seq<Kar>, l: Lit,
                            ahead: seq<Katch>, lv: nat, r: nat)
    requires r < |ks|
  {
    |ks[r].lits| >= 2 && (ks[r].lits[0] == l || ks[r].lits[1] == l) ==>
      Supported(ks[r].lits, values, vars, lv) || Listed(ahead, r)
  }

  /** The katches of l from position h on are those still to be dealt with. */
  ghost predicate HandledTo(s: State, l: Lit, h: nat) {
    l < |s.watches| && h <= |s.watches[l]| &&
    Handled(s.klauses, s.values, s.vars, l, s.watches[l][h..], s.level)
  }

  /** The watch lists, with the list of l compacted in place: its live part is ws[..q] + ws[p..]. */
  function Live(watches: seq<seq<Katch>>, l: Lit, q: nat, p: nat): seq<seq<Katch>> {
    if l < |watches| && q <= p <= |watches[l]| then watches[l := watches[l][..q] + watches[l][p..]] else watches
  }

  ghost predicate Sweeping(s: State, l: Lit, q: nat, p: nat) {
    && l < |s.watches| && q <= p <= |s.watches[l]|
    && Base(s)
    && Watched(s.klauses, Live(s.watches, l, q, p))
    && Propagated(s.klauses, s.values, s.vars, s.trail, s.propagated, s.level)
  }

  lemma SweepStart(s: State, l: Lit)
    requires Base(s) && Watched(s.klauses, s.watches) && l < |s.watches|
    requires Propagated(s.klauses, s.values, s.vars, s.trail, s.propagated, s.level)
    ensures Sweeping(s, l, 0, 0) && HandledTo(s, l, 0)
  {
    hide Base, Propagated;
    assert s.watches[l][..0] + s.watches[l][0..] == s.watches[l] == s.watches[l][0..];
    assert s.watches[l := s.watches[l]] == s.watches;
    forall r | 0 <= r < |s.klauses|
      ensures HandledAt(s.klauses, s.values, s.vars, l, s.watches[l][0..], s.level, r)
    {
      assert WatchedAt(s.klauses, s.watches, r);
    }
  }

  lemma SameBase(s: State, watches: seq<seq<Katch>>)
    requires Base(s) && |watches| == |s.watches|
    ensures Base(s.(watches := watches))
  {
  }

  /** A katch may be replaced by another one for the same clause. */
  lemma ReplaceKatch(ks: seq<Klause>, watches: seq<seq<Katch>>, l: Lit, i: nat, k: Katch)
    requires Watched(ks, watches) && l < |watches| && i < |watches[l]|
    requires k.ref == watches[l][i].ref && KatchOK(ks, l, k)
    ensures Watched(ks, watches[l := watches[l][i := k]])
  {
    var watches' := watches[l := watches[l][i := k]];
    forall m: nat | m < |watches'| ensures ListOK(ks, m, watches'[m]) {
      assert ListOK(ks, m, watches[m]);
    }
    forall r | 0 <= r < |ks| ensures WatchedAt(ks, watches', r) {
      assert WatchedAt(ks, watches, r);
      forall m: nat | m < |watches| && Listed(watches[m], r) ensures Listed(watches'[m], r) {
        var j :| 0 <= j < |watches[m]| && watches[m][j].ref == r;
        assert watches'[m][j].ref == r;
      }
    }
  }

  /** The katch at position p is copied to position q, possibly with another blocking literal. */
  lemma SweepCopy(s: State, l: Lit, q: nat, p: nat, k: Katch)
    requires Sweeping(s, l, q, p) && p < |s.watches[l]|
    requires k.ref == s.watches[l][p].ref && KatchOK(s.klauses, l, k)
    ensures Sweeping(s.(watches := s.watches[l := s.watches[l][q := k]]), l, q + 1, p + 1)
  {
    hide Base, Propagated, Watched, KatchOK;
    var ws := s.watches[l];
    var s' := s.(watches := s.watches[l := ws[q := k]]);
    SameBase(s, s'.watches);
    assert ws[q := k][..q + 1] + ws[q := k][p + 1..] == (ws[..q] + ws[p..])[q := k];
    ReplaceKatch(s.klauses, Live(s.watches, l, q, p), l, q, k);
    assert Live(s'.watches, l, q + 1, p + 1) == Live(s.watches, l, q, p)[l := (ws[..q] + ws[p..])[q := k]];
  }

  lemma CopyHandled(s: State, l: Lit, q: nat, p: nat, k: Katch)
    requires HandledTo(s, l, p) && q <= p < |s.watches[l]| && k.ref == s.watches[l][p].ref
    ensures HandledTo(s.(watches := s.watches[l := s.watches[l][q := k]]), l, p)
  {
    hide Supported;
    var ws, ws' := s.watches[l], s.watches[l][q := k];
    forall r | 0 <= r < |s.klauses|
      ensures HandledAt(s.klauses, s.values, s.vars, l, ws'[p..], s.level, r)
    {
      assert HandledAt(s.klauses, s.values, s.vars, l, ws[p..], s.level, r);
      if Listed(ws[p..], r) {
        var i :| 0 <= i < |ws[p..]| && ws[p..][i].ref == r;
        assert ws'[p..][i].ref == r;
      }
    }
  }

  /** The clause of the katch at position p is satisfied: the katch is dealt with. */
  lemma HandledNext(s: State, l: Lit, p: nat)
    requires HandledTo(s, l, p) && p < |s.watches[l]|
    requires Supported(Lits(s.klauses, s.watches[l][p].ref), s.values, s.vars, s.level)
    ensures HandledTo(s, l, p + 1)
  {
    hide Supported;
    var ws, ahead := s.watches[l], s.watches[l][p + 1..];
    forall r | 0 <= r < |s.klauses|
      ensures HandledAt(s.klauses, s.values, s.vars, l, ahead, s.level, r)
    {
      assert HandledAt(s.klauses, s.values, s.vars, l, ws[p..], s.level, r);
      if r != ws[p].ref && Listed(ws[p..], r) {
        var i :| 0 <= i < |ws[p..]| && ws[p..][i].ref == r;
        assert ahead[i - 1].ref == r;
      }
    }
  }

  // ------------------------------------------------------------------ assigning during the sweep

  lemma SupportedGrows(c: seq<Lit>, values: seq<int>, vars: seq<Kar>, values': seq<int>,
                       vars': seq<Kar>, lv: nat, lv': nat)
    requires Grows(values, vars, values', vars', lv) && Supported(c, values, vars, lv')
    ensures Supported(c, values', vars', lv')
  {
    var t :| t in c && t < |values| && values[t] > 0 && Lv(vars, t) <= lv';
    assert Lv(vars', t) <= lv';
  }

  /** A learned unit clause is not watched and needs no visit. */
  lemma UnitWatched(lit: Lit, ks: seq<Klause>, units: seq<nat>, ks': seq<Klause>, units': seq<nat>,
                    watches: seq<seq<Katch>>)
    requires RootLearned(lit, ks, units, ks', units') && Watched(ks, watches) && lit < |watches|
    ensures Watched(ks', watches)
  {
    if ks' != ks {
      ConnectKeepsWatched(ks, watches, ks'[|ks|]);
    }
  }

  lemma UnitPropagated(lit: Lit, ks: seq<Klause>, units: seq<nat>, ks': seq<Klause>, units': seq<nat>,
                       values: seq<int>, vars: seq<Kar>, trail: seq<Lit>, from: nat, lv: int)
    requires RootLearned(lit, ks, units, ks', units') && Propagated(ks, values, vars, trail, from, lv)
    ensures Propagated(ks', values, vars, trail, from, lv)
  {
  }

  lemma AssignHandled(ks: seq<Klause>, values: seq<int>, vars: seq<Kar>, l: Lit, ahead: seq<Katch>, level: nat, lv: nat,
                      ks': seq<Klause>, values': seq<int>, vars': seq<Kar>, lit: Lit, units: seq<nat>, units': seq<nat>)
    requires Handled(ks, values, vars, l, ahead, lv) && Grows(values, vars, values', vars', level)
    requires RootLearned(lit, ks, units, ks', units')
    ensures Handled(ks', values', vars', l, ahead, lv)
  {
    hide Supported, Grows, Listed;
    forall r | 0 <= r < |ks'| ensures HandledAt(ks', values', vars', l, ahead, lv, r) {
      if r < |ks| {
        assert ks'[r] == ks[r] && HandledAt(ks, values, vars, l, ahead, lv, r);
        if Supported(ks[r].lits, values, vars, lv) {
          SupportedGrows(ks[r].lits, values, vars, values', vars', level, lv);
        }
      }
    }
  }

  lemma PutTrail(s: State, lit: Lit, reason: int)
    requires Base(s) && Assignable(s, lit, reason)
    ensures var s' := Assigns(s, lit, reason);
            && s'.trail == s.trail + [lit] && s'.values == Set(s.values, lit) && s'.level == s.level
            && s'.watches == s.watches && s'.propagated == s.propagated
            && Var(lit) < |s.vars| && s'.vars == s.vars[Var(lit) := s'.vars[Var(lit)]]
            && Lv(s'.vars, lit) == s.level
  {
    hide Base, Set, LearnRoot;
    LearnRootFrame(s, lit, reason);
    Bounds(s, lit);
  }

  lemma SweepAssign(s: State, l: Lit, q: nat, p: nat, h: nat, lit: Lit, reason: int)
    requires Sweeping(s, l, q, p) && HandledTo(s, l, h) && Assignable(s, lit, reason)
    ensures var s' := Assigns(s, lit, reason); Sweeping(s', l, q, p) && HandledTo(s', l, h)
  {
    hide Watched, Assignable, Grows, RootLearned, Assigns, Set, Handled, Propagated, Assigned;
    var s' := Assigns(s, lit, reason);
    AssignsKeeps(s, lit, reason);
    PutTrail(s, lit, reason);
    UnitWatched(lit, s.klauses, s.units, s'.klauses, s'.units, Live(s.watches, l, q, p));
    SweepAssignPropagated(s, lit, reason);
    AssignHandled(s.klauses, s.values, s.vars, l, s.watches[l][h..], s.level, s.level, s'.klauses, s'.values, s'.vars,
                  lit, s.units, s'.units);
  }

  lemma SweepAssignPropagated(s: State, lit: Lit, reason: int)
    requires Base(s) && Assignable(s, lit, reason)
    requires Propagated(s.klauses, s.values, s.vars, s.trail, s.propagated, s.level)
    ensures var s' := Assigns(s, lit, reason);
            Propagated(s'.klauses, s'.values, s'.vars, s'.trail, s'.propagated, s'.level)
  {
    hide Grows, RootLearned, Assigns, Set, Propagated, CanForce;
    var s' := Assigns(s, lit, reason);
    AssignsKeeps(s, lit, reason);
    PutTrail(s, lit, reason);
    AssignPropagated(s.klauses, s.values, s.vars, s.trail, s.propagated, s.level, lit, s'.vars[Var(lit)]);
    UnitPropagated(lit, s.klauses, s.units, s'.klauses, s'.units, s'.values, s'.vars,
                   s'.trail, s'.propagated, s'.level);
  }

  // ------------------------------------------------------------------ moving a watch

  /** The clause with its watch l exchanged for the literal at position j. */
  function Exchanged(c: seq<Lit>, l: Lit, j: nat): seq<Lit>
    requires 2 <= j < |c|
  {
    c[0 := Other(c, l)][1 := c[j]][j := l]
  }

  lemma ExchangedSame(n: nat, c: seq<Lit>, l: Lit, j: nat)
    requires Proper(n, c) && 2 <= j < |c| && (c[0] == l || c[1] == l)
    ensures Proper(n, Exchanged(c, l, j)) && SameLits(c, Exchanged(c, l, j))
    ensures l != Other(c, l) && l != c[j] && Other(c, l) != c[j]
  {
    var d := Exchanged(c, l, j);
    forall i | 0 <= i < |d|
      ensures d[i] == c[if c[0] == l then (if i == 0 then 1 else if i == 1 then j else if i == j then 0 else i)
                        else (if i == 1 then j else if i == j then 1 else i)]
    {
    }
    forall i | 0 <= i < |c| ensures c[i] in d {
      if c[0] == l {
        assert d[if i == 1 then 0 else if i == j then 1 else if i == 0 then j else i] == c[i];
      } else {
        assert d[if i == j then 1 else if i == 1 then j else i] == c[i];
      }
    }
  }

  function Swapped(ks: seq<Klause>, r: nat, c: seq<Lit>): seq<Klause>
    requires r < |ks|
  {
    ks[r := ks[r].(lits := c)]
  }

  lemma SwappedSimilar(n: nat, ks: seq<Klause>, r: nat, c: seq<Lit>)
    requires Klauses(n, ks) && r < |ks| && SameLits(ks[r].lits, c) && Proper(n, c)
    ensures Similar(ks, Swapped(ks, r, c)) && SameFormula(ks, Swapped(ks, r, c)) && Klauses(n, Swapped(ks, r, c))
  {
  }

  lemma SimilarKeepsBase(s: State, ks: seq<Klause>)
    requires Base(s) && Similar(s.klauses, ks) && |ks| == |s.klauses| && Klauses(|s.values|, ks)
    ensures Base(s.(klauses := ks))
  {
    hide Assigned, Implied, Derived, SearchOK, PendingOK, Below, CountFree, Klauses;
    SimilarKeepsAssigned(s.values, s.vars, s.trail, s.level, s.klauses, ks);
    SimilarKeepsImplied(s.klauses, ks);
    if s.tracked {
      SimilarKeepsDerived(s.klauses, ks);
    }
    SimilarKeepsFormula(s.klauses, s.units, s.inconsistent, s.tracked, ks);
  }

  lemma SimilarKeepsFormula(ks: seq<Klause>, units: seq<nat>, inconsistent: int, tracked: bool, ks': seq<Klause>)
    requires UnitsOK(ks, units) && EmptyOK(ks, inconsistent, tracked)
    requires Similar(ks, ks') && |ks| == |ks'|
    ensures UnitsOK(ks', units) && EmptyOK(ks', inconsistent, tracked)
  {
    hide Originals;
    forall r | 0 <= r < |ks| ensures |ks'[r].lits| == |ks[r].lits| {
      assert SameLits(ks[r].lits, ks'[r].lits);
    }
    forall m: Model ensures Originals(m, ks) <==> Originals(m, ks') {
      SameOriginals(m, ks, ks');
    }
  }

  /** The watch lists after katch i of l has moved to the list of the replacement. */
  function MovedLists(watches: seq<seq<Katch>>, l: Lit, i: nat, d: seq<Lit>, r: nat): seq<seq<Katch>>
    requires l < |watches| && i < |watches[l]| && |d| >= 2
  {
    Watch(watches[l := watches[l][..i] + watches[l][i + 1..]], d[1], d, r)
  }

  lemma MoveKeepsWatched(ks: seq<Klause>, watches: seq<seq<Katch>>, l: Lit, i: nat, j: nat)
    requires Klauses(|watches|, ks) && Watched(ks, watches)
    requires l < |watches| && i < |watches[l]| && 2 <= j < |Lits(ks, watches[l][i].ref)|
    ensures var r := watches[l][i].ref; var d := Exchanged(ks[r].lits, l, j);
            Watched(Swapped(ks, r, d), MovedLists(watches, l, i, d, r))
  {
    var r := watches[l][i].ref;
    assert ListOK(ks, l, watches[l]) && KatchOK(ks, l, watches[l][i]);
    var c := ks[r].lits;
    var d := Exchanged(c, l, j);
    ExchangedSame(|watches|, c, l, j);
    var ks', watches' := Swapped(ks, r, d), MovedLists(watches, l, i, d, r);
    forall m: nat | m < |watches'| ensures ListOK(ks', m, watches'[m]) {
      MoveList(ks, watches, l, i, j, m);
    }
    forall t | 0 <= t < |ks'| ensures WatchedAt(ks', watches', t) {
      MoveWatchedAt(ks, watches, l, i, j, t);
    }
  }

  lemma MoveKatch(ks: seq<Klause>, r: nat, d: seq<Lit>, m: Lit, k: Katch)
    requires r < |ks| && |d| >= 2 && d[0] != d[1] && SameLits(ks[r].lits, d)
    requires KatchOK(ks, m, k) && (k.ref != r || m == d[0])
    ensures KatchOK(Swapped(ks, r, d), m, k)
  {
  }

  /** A list of a literal that does not watch clause r has no katch for it. */
  lemma MoveFresh(ks: seq<Klause>, r: nat, m: Lit, ws: seq<Katch>)
    requires r < |ks| && ListOK(ks, m, ws) && m != Other(ks[r].lits, m)
    requires m != ks[r].lits[0] && m != ks[r].lits[1]
    ensures forall k :: 0 <= k < |ws| ==> ws[k].ref != r
  {
    assert forall k :: 0 <= k < |ws| ==> KatchOK(ks, m, ws[k]);
  }

  lemma MoveOut(ks: seq<Klause>, r: nat, d: seq<Lit>, m: Lit, ws: seq<Katch>, i: nat)
    requires r < |ks| && |d| >= 2 && d[0] != d[1] && SameLits(ks[r].lits, d)
    requires ListOK(ks, m, ws) && i < |ws| && ws[i].ref == r
    ensures ListOK(Swapped(ks, r, d), m, ws[..i] + ws[i + 1..])
  {
    hide KatchOK, SameLits;
    var ws' := ws[..i] + ws[i + 1..];
    forall k | 0 <= k < |ws'| ensures KatchOK(Swapped(ks, r, d), m, ws'[k]) {
      assert ws'[k] == ws[if k < i then k else k + 1];
      MoveKatch(ks, r, d, m, ws'[k]);
    }
  }

  lemma MoveStay(ks: seq<Klause>, r: nat, d: seq<Lit>, m: Lit, ws: seq<Katch>)
    requires r < |ks| && |d| >= 2 && d[0] != d[1] && SameLits(ks[r].lits, d) && ListOK(ks, m, ws)
    requires m == d[0] || forall k :: 0 <= k < |ws| ==> ws[k].ref != r
    ensures ListOK(Swapped(ks, r, d), m, ws)
  {
    hide KatchOK, SameLits;
    forall k | 0 <= k < |ws| ensures KatchOK(Swapped(ks, r, d), m, ws[k]) {
      MoveKatch(ks, r, d, m, ws[k]);
    }
  }

  lemma MoveIn(ks: seq<Klause>, r: nat, d: seq<Lit>, ws: seq<Katch>)
    requires r < |ks| && |d| >= 3 && SameLits(ks[r].lits, d) && d[0] != d[1] && ListOK(ks, d[1], ws)
    requires forall k :: 0 <= k < |ws| ==> ws[k].ref != r
    ensures ListOK(Swapped(ks, r, d), d[1], ws + [Katch(d[0], r, false)])
  {
    MoveStay(ks, r, d, d[1], ws);
  }

  lemma MoveList(ks: seq<Klause>, watches: seq<seq<Katch>>, l: Lit, i: nat, j: nat, m: nat)
    requires Klauses(|watches|, ks) && Watched(ks, watches)
    requires l < |watches| && i < |watches[l]| && 2 <= j < |Lits(ks, watches[l][i].ref)| && m < |watches|
    ensures var r := watches[l][i].ref; var d := Exchanged(ks[r].lits, l, j);
            ListOK(Swapped(ks, r, d), m, MovedLists(watches, l, i, d, r)[m])
  {
    hide Proper, SameLits;
    var r := watches[l][i].ref;
    assert ListOK(ks, l, watches[l]) && KatchOK(ks, l, watches[l][i]) && ListOK(ks, m, watches[m]);
    var c := ks[r].lits;
    var d := Exchanged(c, l, j);
    ExchangedSame(|watches|, c, l, j);
    if m == l {
      MoveOut(ks, r, d, m, watches[m], i);
    } else if m == d[0] {
      MoveStay(ks, r, d, m, watches[m]);
    } else {
      MoveFresh(ks, r, m, watches[m]);
      MoveStay(ks, r, d, m, watches[m]);
      if m == d[1] {
        MoveIn(ks, r, d, watches[m]);
      }
    }
  }

  lemma MoveWatchedAt(ks: seq<Klause>, watches: seq<seq<Katch>>, l: Lit, i: nat, j: nat, t: nat)
    requires Klauses(|watches|, ks) && Watched(ks, watches) && t < |ks|
    requires l < |watches| && i < |watches[l]| && 2 <= j < |Lits(ks, watches[l][i].ref)|
    ensures var r := watches[l][i].ref; var d := Exchanged(ks[r].lits, l, j);
            WatchedAt(Swapped(ks, r, d), MovedLists(watches, l, i, d, r), t)
  {
    hide Proper, SameLits, MovedLists, Listed;
    var r := watches[l][i].ref;
    assert ListOK(ks, l, watches[l]) && KatchOK(ks, l, watches[l][i]);
    var d := Exchanged(ks[r].lits, l, j);
    ExchangedSame(|watches|, ks[r].lits, l, j);
    assert WatchedAt(ks, watches, t);
    MovedListed(watches, l, i, d, r, t);
  }

  lemma MovedListed(watches: seq<seq<Katch>>, l: Lit, i: nat, d: seq<Lit>, r: nat, t: nat)
    requires l < |watches| && i < |watches[l]| && |d| >= 2 && d[1] < |watches| && d[1] != l
    requires watches[l][i].ref == r
    ensures |MovedLists(watches, l, i, d, r)| == |watches|
    ensures forall m: nat :: m < |watches| && Listed(watches[m], t) && (m != l || t != r) ==>
              Listed(MovedLists(watches, l, i, d, r)[m], t)
    ensures Listed(MovedLists(watches, l, i, d, r)[d[1]], r)
  {
    var watches' := MovedLists(watches, l, i, d, r);
    forall m: nat | m < |watches| && Listed(watches[m], t) && (m != l || t != r) ensures Listed(watches'[m], t) {
      var k :| 0 <= k < |watches[m]| && watches[m][k].ref == t;
      if m == l {
        assert watches'[m][if k < i then k else k - 1].ref == t;
      } else {
        assert watches'[m][k].ref == t;
      }
    }
    assert watches'[d[1]][|watches[d[1]]|].ref == r;
  }

  /** The state after the watch at position p, copied to position q, has moved to literal j of its clause. */
  function Move(s: State, l: Lit, p: nat, j: nat): State
    requires l < |s.watches| && p < |s.watches[l]| && 2 <= j < |Lits(s.klauses, s.watches[l][p].ref)|
  {
    var r := s.watches[l][p].ref;
    var d := Exchanged(s.klauses[r].lits, l, j);
    s.(klauses := Swapped(s.klauses, r, d), watches := Watch(s.watches, d[1], d, r))
  }

  lemma SweepMove(s: State, l: Lit, q: nat, p: nat, j: nat)
    requires Sweeping(s, l, q + 1, p + 1) && HandledTo(s, l, p) && q <= p
    requires s.watches[l][q].ref == s.watches[l][p].ref
    requires 2 <= j < |Lits(s.klauses, s.watches[l][p].ref)|
    requires Lits(s.klauses, s.watches[l][p].ref)[j] < |s.values|
    requires s.values[Lits(s.klauses, s.watches[l][p].ref)[j]] >= 0
    ensures Sweeping(Move(s, l, p, j), l, q, p + 1) && HandledTo(Move(s, l, p, j), l, p + 1)
    ensures SameFormula(s.klauses, Move(s, l, p, j).klauses)
  {
    var r := s.watches[l][p].ref;
    var c := s.klauses[r].lits;
    var d := Exchanged(c, l, j);
    var live := Live(s.watches, l, q + 1, p + 1);
    assert live[l][q] == s.watches[l][q];
    SweepWatch(s, l, q, p);
    hide Base, Watched, Propagated, Handled, SameLits, Proper, Assigned, Klauses, SameFormula, Similar;
    ExchangedSame(|s.values|, c, l, j);
    var s' := Move(s, l, p, j);
    MoveKeepsWatched(s.klauses, live, l, q, j);
    assert live[l][..q] + live[l][q + 1..] == s.watches[l][..q] + s.watches[l][p + 1..];
    assert MovedLists(live, l, q, d, r) == Live(s'.watches, l, q, p + 1);
    SwappedSimilar(|s.values|, s.klauses, r, d);
    SimilarKeepsBase(s, s'.klauses);
    SameBase(s.(klauses := s'.klauses), s'.watches);
    MovePropagated(s.klauses, s.values, s.vars, s.trail, s.propagated, s.level, l, r, j);
    MoveHandled(s.klauses, s.values, s.vars, l, s.watches[l][p..], s.level, r, j);
    assert s.watches[l][p..][1..] == s'.watches[l][p + 1..];
  }

  lemma SweepWatch(s: State, l: Lit, q: nat, p: nat)
    requires Sweeping(s, l, q + 1, p + 1) && q <= p
    ensures KatchOK(s.klauses, l, s.watches[l][q])
    ensures Klauses(|s.values|, s.klauses) && |s.watches| == |s.values|
    ensures Proper(|s.values|, s.klauses[s.watches[l][q].ref].lits)
  {
    var live := Live(s.watches, l, q + 1, p + 1);
    assert ListOK(s.klauses, l, live[l]);
    assert live[l][q] == s.watches[l][q];
  }

  lemma SupportedSame(c: seq<Lit>, d: seq<Lit>, values: seq<int>, vars: seq<Kar>, lv: nat)
    requires SameLits(c, d) && Supported(c, values, vars, lv)
    ensures Supported(d, values, vars, lv)
  {
    var t :| t in c && t < |values| && values[t] > 0 && Lv(vars, t) <= lv;
    assert t in d;
  }

  lemma MovePropagated(ks: seq<Klause>, values: seq<int>, vars: seq<Kar>, trail: seq<Lit>, from: nat, lv: int,
                       l: Lit, r: nat, j: nat)
    requires Propagated(ks, values, vars, trail, from, lv) && Klauses(|values|, ks)
    requires 2 <= j < |Lits(ks, r)| && (ks[r].lits[0] == l || ks[r].lits[1] == l)
    requires ks[r].lits[j] < |values| && values[ks[r].lits[j]] >= 0
    ensures Propagated(Swapped(ks, r, Exchanged(ks[r].lits, l, j)), values, vars, trail, from, lv)
  {
    hide Supported, Pending, Proper, SameLits;
    var c := ks[r].lits;
    var d := Exchanged(c, l, j);
    ExchangedSame(|values|, c, l, j);
    assert VisitedAt(c, values, vars, trail, from, lv);
    if Supported(c, values, vars, Lv(vars, d[0])) {
      SupportedSame(c, d, values, vars, Lv(vars, d[0]));
    }
    assert Visited(d[0], d, values, vars, trail, from, lv);
  }

  lemma MoveHandled(ks: seq<Klause>, values: seq<int>, vars: seq<Kar>, l: Lit, ahead: seq<Katch>,
                    lv: nat, r: nat, j: nat)
    requires Handled(ks, values, vars, l, ahead, lv) && ahead != [] && ahead[0].ref == r && Klauses(|values|, ks)
    requires 2 <= j < |Lits(ks, r)| && (ks[r].lits[0] == l || ks[r].lits[1] == l)
    ensures Handled(Swapped(ks, r, Exchanged(ks[r].lits, l, j)), values, vars, l, ahead[1..], lv)
  {
    hide Supported, Proper, SameLits;
    var d := Exchanged(ks[r].lits, l, j);
    var ks', rest := Swapped(ks, r, d), ahead[1..];
    ExchangedSame(|values|, ks[r].lits, l, j);
    forall t | 0 <= t < |ks'| ensures HandledAt(ks', values, vars, l, rest, lv, t) {
      assert HandledAt(ks, values, vars, l, ahead, lv, t);
      if t != r && Listed(ahead, t) {
        var i :| 0 <= i < |ahead| && ahead[i].ref == t;
        assert rest[i - 1].ref == t;
      }
    }
  }

  // ------------------------------------------------------------------ after the sweep

  /** All literals of the clause are false, one of them at the current level. */
  ghost predicate Conflicting(s: State, conflict: int) {
    && 0 <= conflict < |s.klauses|
    && (forall o :: o in s.klauses[conflict].lits ==> o < |s.values| && s.values[o] < 0)
    && (exists o :: o in s.klauses[conflict].lits && Lv(s.vars, o) == s.level)
  }

  /** All is propagated, except that on a conflict the current level may be incomplete. */
  ghost predicate Quiet(s: State, conflict: int) {
    Propagated(s.klauses, s.values, s.vars, s.trail, s.propagated, if conflict == INVALID then s.level else s.level - 1)
  }

  lemma SweepEnd(s: State, l: Lit, q: nat)
    requires l < |s.watches| && Sweeping(s, l, q, |s.watches[l]|)
    ensures q <= |s.watches[l]|
    ensures var s' := s.(watches := s.watches[l := s.watches[l][..q]]);
            && Base(s') && Watched(s'.klauses, s'.watches)
            && Propagated(s'.klauses, s'.values, s'.vars, s'.trail, s'.propagated, s'.level)
  {
    hide Base, Watched, Propagated;
    var ws := s.watches[l];
    assert ws[..q] + ws[|ws|..] == ws[..q];
    SameBase(s, s.watches[l := ws[..q]]);
  }

  /** One literal that is false at the head of the queue, or not. */
  lemma VisitedNext(s: State, conflict: int, c: seq<Lit>, l: Lit)
    requires s.propagated < |s.trail| && Lv(s.vars, Neg(s.trail[s.propagated])) == s.level
    requires Visited(l, c, s.values, s.vars, s.trail, s.propagated, s.level)
    requires conflict == INVALID && l == Neg(s.trail[s.propagated]) ==> Supported(c, s.values, s.vars, s.level)
    ensures Visited(l, c, s.values, s.vars, s.trail, s.propagated + 1, if conflict == INVALID
                    then s.level else s.level - 1)
  {
    hide Supported;
    var lit, from := s.trail[s.propagated], s.propagated;
    SameVar(l, lit);
    if l != Neg(lit) && Pending(s.trail, from, Neg(l)) {
      var i :| from <= i < |s.trail| && s.trail[i] == Neg(l);
      SameVar(lit, l);
      assert i != from;
      assert Pending(s.trail, from + 1, Neg(l));
    }
  }

  lemma PropagatedNext(s: State, conflict: int)
    requires Base(s) && Propagated(s.klauses, s.values, s.vars, s.trail, s.propagated, s.level)
    requires s.propagated < |s.trail|
    requires conflict == INVALID ==>
               Handled(s.klauses, s.values, s.vars, Neg(s.trail[s.propagated]), [], s.level)
    ensures var s' := s.(propagated := s.propagated + 1); Base(s') && Quiet(s', conflict)
  {
    hide Supported, FormulaOK, SearchOK, CountFree, Assigned, Visited, Below;
    var lit, from := s.trail[s.propagated], s.propagated;
    var lv := if conflict == INVALID then s.level else s.level - 1;
    assert Lv(s.vars, lit) == s.level && Var(Neg(lit)) == Var(lit) by {
      SameVar(lit, Neg(lit));
    }
    forall r | 0 <= r < |s.klauses|
      ensures VisitedAt(s.klauses[r].lits, s.values, s.vars, s.trail, from + 1, lv)
    {
      var c := s.klauses[r].lits;
      assert VisitedAt(c, s.values, s.vars, s.trail, from, s.level);
      forall k | 0 <= k < 2 && |c| >= 2 ensures Visited(c[k], c, s.values, s.vars, s.trail, from + 1, lv) {
        assert conflict == INVALID ==> HandledAt(s.klauses, s.values, s.vars, Neg(lit), [], s.level, r);
        VisitedNext(s, conflict, c, c[k]);
      }
    }
  }

  // ------------------------------------------------------------------ visiting one katch

  /** What is known of the clause of the katch about to be visited. */
  ghost predicate Visiting(s: State, l: Lit, k: Katch) {
    && KatchOK(s.klauses, l, k) && Proper(|s.values|, s.klauses[k.ref].lits)
    && |s.watches| == |s.values| && l < |s.values|
    && (forall o: nat :: o < |s.values| ==> -1 <= s.values[o] <= 1)
    && s.values[l] < 0 && Lv(s.vars, l) == s.level
  }

  lemma VisitingNext(s: State, l: Lit, q: nat, p: nat)
    requires Sweeping(s, l, q, p) && p < |s.watches[l]|
    requires s.propagated < |s.trail| && l == Neg(s.trail[s.propagated])
    ensures Visiting(s, l, s.watches[l][p])
  {
    hide FormulaOK, SearchOK, CountFree, Reasons, Roots, Below, Propagated;
    var live := Live(s.watches, l, q, p);
    assert ListOK(s.klauses, l, live[l]);
    assert live[l][q] == s.watches[l][p];
    var lit := s.trail[s.propagated];
    assert s.values[Neg(lit)] == -s.values[lit] && Var(Neg(lit)) == Var(lit);
  }

  lemma TrueSupports(s: State, c: seq<Lit>, t: Lit)
    requires Base(s) && t in c && t < |s.values| && s.values[t] > 0
    ensures Supported(c, s.values, s.vars, s.level)
  {
    hide FormulaOK, SearchOK, CountFree, Reasons, Roots, Below, PendingOK;
    assert Lv(s.vars, t) <= s.level;
  }

  /** Assigning a literal of the clause satisfies it. */
  lemma AssignSupports(s: State, l: Lit, p: nat, lit: Lit)
    requires Base(s) && l < |s.watches| && p < |s.watches[l]|
    requires lit in Lits(s.klauses, s.watches[l][p].ref) && Assignable(s, lit, s.watches[l][p].ref)
    ensures var s' := Assigns(s, lit, s.watches[l][p].ref);
            Supported(Lits(s'.klauses, s.watches[l][p].ref), s'.values, s'.vars, s'.level)
  {
    hide Base, Assignable, LearnRoot, Assigns, Grows;
    var r := s.watches[l][p].ref;
    AssignsKeeps(s, lit, r);
    PutTrail(s, lit, r);
    var s' := Assigns(s, lit, r);
    assert s'.values[lit] > 0 by { SetTrue(s, lit); }
  }

  lemma SetTrue(s: State, lit: Lit)
    requires Base(s) && lit < |s.values|
    ensures lit < |Set(s.values, lit)| && Set(s.values, lit)[lit] == 1
  {
    Bounds(s, lit);
  }

  lemma BinaryForces(s: State, l: Lit, k: Katch)
    requires Visiting(s, l, k) && k.binary
    ensures k.blit < |s.values|
    ensures s.values[k.blit] == 0 ==> Assignable(s, k.blit, k.ref)
    ensures s.values[k.blit] < 0 ==> Conflicting(s, k.ref)
  {
    var c := s.klauses[k.ref].lits;
    assert forall o :: o in c ==> o == c[0] || o == c[1];
    assert l in c;
  }

  /** With all literals but the two watches false, the other watch is forced or the clause falsified. */
  lemma LastForces(s: State, l: Lit, k: Katch)
    requires Visiting(s, l, k)
    requires forall j :: 2 <= j < |s.klauses[k.ref].lits| ==> s.values[s.klauses[k.ref].lits[j]] < 0
    ensures var other := Other(s.klauses[k.ref].lits, l);
            && other < |s.values|
            && (s.values[other] == 0 ==> Assignable(s, other, k.ref))
            && (s.values[other] < 0 ==> Conflicting(s, k.ref))
  {
    var c := s.klauses[k.ref].lits;
    forall o | o in c && o != c[0] && o != c[1] ensures s.values[o] < 0 {
      var j :| 0 <= j < |c| && c[j] == o;
    }
    assert l in c;
  }

  // The outcomes of visiting the katch at position p of the list of l

  lemma KeepCase(s: State, l: Lit, q: nat, p: nat, t: Lit)
    requires Sweeping(s, l, q, p + 1) && HandledTo(s, l, p)
    requires t in Lits(s.klauses, s.watches[l][p].ref) && t < |s.values| && s.values[t] > 0
    ensures HandledTo(s, l, p + 1)
  {
    hide Base, Watched, Propagated, Handled, Supported;
    TrueSupports(s, Lits(s.klauses, s.watches[l][p].ref), t);
    HandledNext(s, l, p);
  }

  lemma AssignCase(s: State, l: Lit, q: nat, p: nat, lit: Lit)
    requires Sweeping(s, l, q, p + 1) && HandledTo(s, l, p) && s.klause == [] && s.resolved == []
    requires lit in Lits(s.klauses, s.watches[l][p].ref) && Assignable(s, lit, s.watches[l][p].ref)
    ensures Base(s)
    ensures var s' := Assigns(s, lit, s.watches[l][p].ref);
            && Sweeping(s', l, q, p + 1) && HandledTo(s', l, p + 1)
            && Advances(s, s') && s'.watches == s.watches
  {
    hide Base, Watched, Propagated, Handled, Supported, Assigns, Assignable, Advances;
    var r := s.watches[l][p].ref;
    SweepAssign(s, l, q, p + 1, p, lit, r);
    AssignSupports(s, l, p, lit);
    PutTrail(s, lit, r);
    HandledNext(Assigns(s, lit, r), l, p);
    AssignsAdvances(s, lit, r);
  }

  lemma MoveCase(s: State, l: Lit, q: nat, p: nat, j: nat)
    requires Sweeping(s, l, q + 1, p + 1) && HandledTo(s, l, p) && q <= p
    requires s.watches[l][q].ref == s.watches[l][p].ref
    requires 2 <= j < |Lits(s.klauses, s.watches[l][p].ref)|
    requires Lits(s.klauses, s.watches[l][p].ref)[j] < |s.values|
    requires s.values[Lits(s.klauses, s.watches[l][p].ref)[j]] >= 0
    ensures var s' := Move(s, l, p, j);
            && Sweeping(s', l, q, p + 1) && HandledTo(s', l, p + 1)
            && Advances(s, s') && |s'.watches| == |s.watches| && s'.watches[l] == s.watches[l]
  {
    SweepMove(s, l, q, p, j);
    SweepWatch(s, l, q, p);
    hide Watched, Propagated, Handled, Supported, SameFormula, Proper, Assigned, FormulaOK, SearchOK, PendingOK, Below;
    ExchangedSame(|s.values|, Lits(s.klauses, s.watches[l][p].ref), l, j);
    WatchesAdvance(s, s.watches);
  }

  lemma WatchesAdvance(s: State, watches: seq<seq<Katch>>)
    requires Base(s)
    ensures Advances(s, s.(watches := watches))
  {
  }

  lemma SweepReblit(s: State, l: Lit, q: nat, p: nat, k: Katch)
    requires Sweeping(s, l, q + 1, p + 1) && q <= p && HandledTo(s, l, p)
    requires k.ref == s.watches[l][q].ref == s.watches[l][p].ref && KatchOK(s.klauses, l, k)
    ensures var s' := s.(watches := s.watches[l := s.watches[l][q := k]]);
            Sweeping(s', l, q + 1, p + 1) && HandledTo(s', l, p) && Advances(s, s')
  {
    hide Base, Propagated, Watched, KatchOK, HandledTo, Advances;
    WatchesAdvance(s, s.watches[l := s.watches[l][q := k]]);
    var ws := s.watches[l];
    var s' := s.(watches := s.watches[l := ws[q := k]]);
    CopyHandled(s, l, q, p, k);
    SameBase(s, s'.watches);
    assert ws[q := k][..q + 1] + ws[q := k][p + 1..] == (ws[..q + 1] + ws[p + 1..])[q := k];
    ReplaceKatch(s.klauses, Live(s.watches, l, q + 1, p + 1), l, q, k);
    assert Live(s'.watches, l, q + 1, p + 1)
        == Live(s.watches, l, q + 1, p + 1)[l := (ws[..q + 1] + ws[p + 1..])[q := k]];
  }

  /** The state after the katch at p has been copied to q is ready for its visit. */
  lemma CopyCase(s: State, l: Lit, q: nat, p: nat)
    requires Sweeping(s, l, q, p) && HandledTo(s, l, p) && p < |s.watches[l]|
    requires Visiting(s, l, s.watches[l][p])
    ensures q <= p && l < |s.watches|
    ensures var k := s.watches[l][p];
            var s' := s.(watches := s.watches[l := s.watches[l][q := k]]);
            && Sweeping(s', l, q + 1, p + 1) && HandledTo(s', l, p) && Advances(s, s')
            && Visiting(s', l, k) && s'.watches[l][p] == k && s'.watches[l][q] == k
  {
    hide Base, Propagated, Watched, KatchOK, HandledTo, Advances, Proper;
    SweepCopy(s, l, q, p, s.watches[l][p]);
    CopyHandled(s, l, q, p, s.watches[l][p]);
    WatchesAdvance(s, s.watches[l := s.watches[l][q := s.watches[l][p]]]);
  }

  lemma AdvancesFrame(s: State, s': State)
    requires Advances(s, s')
    ensures s'.klause == s.klause && s'.resolved == s.resolved && s'.propagated == s.propagated && s'.level == s.level
    ensures s'.analyzed == s.analyzed && s'.marks == s.marks && s'.assumptions == s.assumptions && s'.failed == s.failed
    ensures |s'.vars| == |s.vars| && |s'.values| == |s.values|
    ensures |s.trail| <= |s'.trail| && forall i :: 0 <= i < |s.trail| ==> s'.trail[i] == s.trail[i]
  {
  }

  /** After a conflict the remaining katches are kept. */
  lemma RestCase(s: State, l: Lit, q: nat, p: nat, conflict: int)
    requires Sweeping(s, l, q, p) && p < |s.watches[l]| && Conflicting(s, conflict)
    ensures q <= p
    ensures var s' := s.(watches := s.watches[l := s.watches[l][q := s.watches[l][p]]]);
            Sweeping(s', l, q + 1, p + 1) && Advances(s, s') && Conflicting(s', conflict)
  {
    var live := Live(s.watches, l, q, p);
    assert ListOK(s.klauses, l, live[l]);
    assert live[l][q] == s.watches[l][p];
    hide Base, Propagated, KatchOK, Advances;
    SweepCopy(s, l, q, p, s.watches[l][p]);
    WatchesAdvance(s, s.watches[l := s.watches[l][q := s.watches[l][p]]]);
  }

  lemma EndCase(s: State, l: Lit, q: nat, conflict: int)
    requires l < |s.watches| && Sweeping(s, l, q, |s.watches[l]|)
    requires if conflict == INVALID then HandledTo(s, l, |s.watches[l]|) else Conflicting(s, conflict)
    ensures q <= |s.watches[l]|
    ensures var s' := s.(watches := s.watches[l := s.watches[l][..q]]);
            && Base(s') && Watched(s'.klauses, s'.watches) && Advances(s, s')
            && Propagated(s'.klauses, s'.values, s'.vars, s'.trail, s'.propagated, s'.level)
            && (if conflict == INVALID then Handled(s'.klauses, s'.values, s'.vars, l, [], s'.level)
                else Conflicting(s', conflict))
  {
    hide Base, Propagated, Watched, Advances;
    SweepEnd(s, l, q);
    assert s.watches[l][|s.watches[l]|..] == [];
    WatchesAdvance(s, s.watches[l := s.watches[l][..q]]);
  }

  lemma StayCase(s: State, l: Lit, q: nat, p: nat)
    requires Sweeping(s, l, q + 1, p + 1)
    ensures Advances(s, s)
  {
    AdvancesRefl(s);
  }
}
