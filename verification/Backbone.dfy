/**
  The backbone of the binary clauses (backbone.c): probes are assumed one after the other as long as
  they propagate; a probe that fails yields a unit, the negation of a dominator of the conflict.
 */
module Backbone {
  import opened Literals
  import opened RootValues
  import opened Sequences

  /** An entry of a watch list: a binary clause with its other literal, or a larger clause. */
  datatype Watch = Binary(lit: Lit) | Large

  /** No reason: the literal was decided, or it is a unit. */
  const DECISION_REASON := -1
  const UNIT_REASON := -2

  /** Reasons are literals; level and reason belong to variables; the units are those of the failed probes. */
  datatype State = State(values: seq<int>, trail: seq<Lit>, reasons: seq<int>, levels: seq<nat>,
                         level: nat, propagate: nat, units: seq<Lit>)

  // ------------------------------------------------------------------ the binary clauses

  /** Binary clauses are listed for both literals, before the larger ones if propagation may stop early. */
  ghost predicate WatchesOK(watches: seq<seq<Watch>>, stopEarly: bool) {
    && |watches| % 2 == 0
    && (forall a: nat, i: nat :: a < |watches| && i < |watches[a]| && watches[a][i].Binary? ==>
          var b := watches[a][i].lit; b < |watches| && Var(b) != Var(a) && Binary(a) in watches[b])
    && (stopEarly ==> forall a: nat, i: nat, j: nat ::
                      a < |watches| && i < j < |watches[a]| && watches[a][j].Binary? ==> watches[a][i].Binary?)
  }

  /** l implies o by a binary clause. */
  ghost predicate Edge(watches: seq<seq<Watch>>, l: Lit, o: Lit) {
    Neg(l) < |watches| && Binary(o) in watches[Neg(l)]
  }

  ghost predicate BinariesHold(m: Model, watches: seq<seq<Watch>>) {
    forall l: Lit, o: Lit :: Edge(watches, l, o) ==> Holds(m, l) ==> Holds(m, o)
  }

  /** A model of the binary clauses and the root-level values. */
  ghost predicate Fits(m: Model, watches: seq<seq<Watch>>, root: seq<int>) {
    BinariesHold(m, watches) && ValuesHold(m, root)
  }

  ghost predicate Leads(watches: seq<seq<Watch>>, root: seq<int>, k: Lit, l: Lit) {
    forall m: Model :: Fits(m, watches, root) && Holds(m, k) ==> Holds(m, l)
  }

  ghost predicate Entailed(watches: seq<seq<Watch>>, root: seq<int>, l: Lit) {
    forall m: Model :: Fits(m, watches, root) ==> Holds(m, l)
  }

  /** A set of literals without contradiction that contains what its literals imply. */
  ghost predicate ClosedSet(watches: seq<seq<Watch>>, c: set<Lit>) {
    && (forall l, o :: l in c && Edge(watches, l, o) ==> o in c)
    && (forall l :: l in c ==> Neg(l) !in c)
  }

  /** Assigning the units and following the implications from them and the root-level values yields the literal. */
  ghost predicate Derived(watches: seq<seq<Watch>>, root: seq<int>, units: seq<Lit>, l: Lit) {
    forall c: set<Lit> :: ClosedSet(watches, c) && Includes(c, root, units) ==> l in c
  }

  ghost predicate Includes(c: set<Lit>, root: seq<int>, units: seq<Lit>) {
    (forall u :: u in units ==> u in c) && forall k: nat :: True(root, k) ==> k in c
  }

  /** The literal follows, and the units are enough to find out by propagation. */
  ghost predicate Known(watches: seq<seq<Watch>>, root: seq<int>, units: seq<Lit>, l: Lit) {
    Entailed(watches, root, l) && Derived(watches, root, units, l)
  }

  /** The literal does not fail: following the implications from it never leads to a contradiction. */
  ghost predicate NotFailed(watches: seq<seq<Watch>>, l: Lit) {
    exists c: set<Lit> :: ClosedSet(watches, c) && l in c
  }

  /** What the implications lead to, step by step. */
  ghost predicate Reaches(watches: seq<seq<Watch>>, path: seq<Lit>) {
    path != [] && forall i :: 0 <= i < |path| - 1 ==> Edge(watches, path[i], path[i + 1])
  }

  /** No two paths from a literal that does not fail end in opposite literals. */
  lemma NotFailedPaths(watches: seq<seq<Watch>>, l: Lit, p: seq<Lit>, q: seq<Lit>)
    requires NotFailed(watches, l) && Reaches(watches, p) && Reaches(watches, q) && p[0] == l && q[0] == l
    ensures p[|p| - 1] != Neg(q[|q| - 1])
  {
    var c: set<Lit> :| ClosedSet(watches, c) && l in c;
    InClosed(watches, c, p, |p| - 1);
    InClosed(watches, c, q, |q| - 1);
  }

  lemma {:induction false} InClosed(watches: seq<seq<Watch>>, c: set<Lit>, p: seq<Lit>, i: nat)
    requires ClosedSet(watches, c) && Reaches(watches, p) && p[0] in c && i < |p|
    ensures p[i] in c
  {
    if i > 0 {
      InClosed(watches, c, p, i - 1);
      assert Edge(watches, p[i - 1], p[i]);
    }
  }

  /** Implications hold backwards for the negated literals. */
  lemma Contraposition(watches: seq<seq<Watch>>, stopEarly: bool, l: Lit, o: Lit)
    requires WatchesOK(watches, stopEarly) && Edge(watches, l, o)
    ensures o < |watches| && Neg(o) < |watches| && Edge(watches, Neg(o), Neg(l)) && Var(o) != Var(l)
  {
    HoldsNeg(iset{}, l);
    HoldsNeg(iset{}, o);
    var i :| 0 <= i < |watches[Neg(l)]| && watches[Neg(l)][i] == Binary(o);
    assert watches[Neg(l)][i].Binary?;
    SameVar(l, l);
  }

  // ------------------------------------------------------------------ the state

  /** Every true literal is on the trail or true at the root level, where nothing is left to propagate. */
  ghost predicate Good(s: State, watches: seq<seq<Watch>>, root: seq<int>) {
    && ValuesOK(s.values) && |s.values| == |watches| == |root| == 2 * |s.reasons| && |s.levels| == |s.reasons|
    && (forall i :: 0 <= i < |s.trail| ==> True(s.values, s.trail[i]) && !True(root, s.trail[i]))
    && (forall i, j :: 0 <= i < j < |s.trail| ==> s.trail[i] != s.trail[j])
    && (forall l: nat :: True(s.values, l) <==> l in s.trail || True(root, l))
    && s.propagate <= |s.trail|
    && (forall l: nat :: True(root, l) ==> LevelOf(s, l) == 0)
  }

  ghost predicate RootClosed(watches: seq<seq<Watch>>, root: seq<int>) {
    ValuesOK(root) && forall l: nat, o: nat :: True(root, l) && Edge(watches, l, o) ==> True(root, o)
  }

  /** The first p literals of the trail have been propagated. */
  ghost predicate ClosedTo(s: State, watches: seq<seq<Watch>>, p: nat) {
    p <= |s.trail| && forall i: nat, o: nat :: i < p && Edge(watches, s.trail[i], o) ==> True(s.values, o)
  }

  function Reason(s: State, l: Lit): int {
    if Var(l) < |s.reasons| then s.reasons[Var(l)] else UNIT_REASON
  }

  /** The literals behind position saved are implied one by the other, from the one at position saved. */
  ghost predicate TreeFrom(s: State, watches: seq<seq<Watch>>, saved: nat) {
    forall i: nat :: saved < i < |s.trail| ==> HasParent(s, watches, saved, i)
  }

  ghost predicate HasParent(s: State, watches: seq<seq<Watch>>, saved: nat, i: nat)
    requires i < |s.trail|
  {
    exists j :: saved <= j < i && Reason(s, s.trail[i]) == s.trail[j] && Edge(watches, s.trail[j], s.trail[i])
  }

  function Put(s: State, l: Lit, reason: int): State
    requires l < |s.values| && Neg(l) < |s.values| && Var(l) < |s.reasons| == |s.levels|
  {
    s.(values := Set(s.values, l), trail := s.trail + [l], reasons := s.reasons[Var(l) := reason],
       levels := s.levels[Var(l) := s.level])
  }

  lemma PutGood(s: State, watches: seq<seq<Watch>>, root: seq<int>, l: Lit, reason: int)
    requires Good(s, watches, root) && l < |s.values| && s.values[l] == 0
    ensures Neg(l) < |s.values| && Var(l) < |s.reasons| && Good(Put(s, l, reason), watches, root)
    ensures forall k: nat :: True(s.values, k) ==> True(Put(s, l, reason).values, k)
  {
    SetOK(s.values, l);
    SetGrows(s.values, l);
    var s' := Put(s, l, reason);
    assert !True(s.values, l);
    assert s'.trail[|s.trail|] == l && forall k :: k in s'.trail <==> k in s.trail || k == l;
    forall k: nat ensures True(s'.values, k) <==> k in s'.trail || True(root, k) {
      SameVar(k, l);
      SameVar(l, k);
      assert True(s.values, k) <==> k in s.trail || True(root, k);
    }
  }

  lemma PutClosed(s: State, watches: seq<seq<Watch>>, root: seq<int>, l: Lit, reason: int, p: nat)
    requires Good(s, watches, root) && ClosedTo(s, watches, p) && l < |s.values| && s.values[l] == 0
    ensures Neg(l) < |s.values| && Var(l) < |s.reasons| && ClosedTo(Put(s, l, reason), watches, p)
  {
    PutGood(s, watches, root, l, reason);
    var s' := Put(s, l, reason);
    forall i: nat, o: nat | i < p && Edge(watches, s'.trail[i], o) ensures True(s'.values, o) {
      assert s'.trail[i] == s.trail[i];
    }
  }

  /** A new literal with a reason on the trail is another node of the tree. */
  lemma PutTree(s: State, watches: seq<seq<Watch>>, root: seq<int>, l: Lit, j: nat, saved: nat)
    requires Good(s, watches, root) && TreeFrom(s, watches, saved) && l < |s.values| && s.values[l] == 0
    requires saved <= j < |s.trail| && Edge(watches, s.trail[j], l)
    ensures Neg(l) < |s.values| && Var(l) < |s.reasons| && TreeFrom(Put(s, l, s.trail[j]), watches, saved)
  {
    PutGood(s, watches, root, l, s.trail[j]);
    var s' := Put(s, l, s.trail[j]);
    forall i: nat | saved < i < |s'.trail| ensures HasParent(s', watches, saved, i) {
      if i < |s.trail| {
        assert HasParent(s, watches, saved, i);
        var k :| saved <= k < i && Reason(s, s.trail[i]) == s.trail[k] && Edge(watches, s.trail[k], s.trail[i]);
        assert s'.trail[i] == s.trail[i] && s'.trail[k] == s.trail[k];
        assert Var(s.trail[i]) != Var(l) by {
          SameVar(s.trail[i], l);
          SetOK(s.values, l);
          assert True(s.values, s.trail[i]);
        }
      } else {
        assert s'.trail[j] == s.trail[j] && s'.trail[i] == l;
      }
    }
  }

  /** Everything in the tree follows from its first literal. */
  lemma {:induction false} TreeLeads(s: State, watches: seq<seq<Watch>>, root: seq<int>, saved: nat, i: nat)
    requires TreeFrom(s, watches, saved) && saved <= i < |s.trail|
    ensures Leads(watches, root, s.trail[saved], s.trail[i])
    decreases i
  {
    if i > saved {
      assert HasParent(s, watches, saved, i);
      var j: nat :| saved <= j < i && Reason(s, s.trail[i]) == s.trail[j] && Edge(watches, s.trail[j], s.trail[i]);
      TreeLeads(s, watches, root, saved, j);
    }
  }

  /** A conflicting implication is one between literals of the current tree. */
  lemma ConflictInTree(s: State, watches: seq<seq<Watch>>, stopEarly: bool, root: seq<int>, saved: nat, i: nat, o: Lit)
    returns (j: nat)
    requires Good(s, watches, root) && WatchesOK(watches, stopEarly) && RootClosed(watches, root)
    requires ClosedTo(s, watches, saved)
    requires saved <= i < |s.trail| && Edge(watches, s.trail[i], o) && False(s.values, o)
    ensures saved <= j < |s.trail| && s.trail[j] == Neg(o) && j != i
  {
    var l := s.trail[i];
    Contraposition(watches, stopEarly, l, o);
    HoldsNeg(iset{}, o);
    assert s.values[Neg(o)] == -s.values[o];
    assert True(s.values, Neg(o)) && True(s.values, l);
    assert s.values[Neg(l)] == -s.values[l];
    assert !True(root, Neg(o)) by {
      assert True(root, Neg(o)) ==> True(root, Neg(l)) && True(s.values, Neg(l));
    }
    j :| 0 <= j < |s.trail| && s.trail[j] == Neg(o);
    assert j < saved ==> True(s.values, Neg(l));
    SameVar(o, o);
  }

  /** Nothing left to propagate: what is true is a closed set. */
  lemma AllClosed(s: State, watches: seq<seq<Watch>>, root: seq<int>, l: Lit)
    requires Good(s, watches, root) && RootClosed(watches, root) && ClosedTo(s, watches, |s.trail|) && True(s.values, l)
    ensures NotFailed(watches, l)
  {
    var c := set k: nat | k < |s.values| && True(s.values, k);
    forall k, o | k in c && Edge(watches, k, o) ensures o in c {
      if k in s.trail {
        var i :| 0 <= i < |s.trail| && s.trail[i] == k;
        assert True(s.values, o);
      } else {
        assert True(root, o) && True(s.values, o);
      }
    }
    forall k | k in c ensures Neg(k) !in c {
      assert s.values[Neg(k)] == -s.values[k];
    }
    assert ClosedSet(watches, c) && l in c;
  }

  // ------------------------------------------------------------------ levels

  /** What is assigned without a decision follows. */
  ghost predicate ZeroOK(s: State, watches: seq<seq<Watch>>, root: seq<int>) {
    forall i :: 0 <= i < |s.trail| && (s.level == 0 || LevelOf(s, s.trail[i]) == 0) ==>
                Known(watches, root, s.units, s.trail[i])
  }

  function LevelOf(s: State, l: Lit): nat {
    if Var(l) < |s.levels| then s.levels[Var(l)] else 0
  }

  lemma PutZero(s: State, watches: seq<seq<Watch>>, root: seq<int>, l: Lit, reason: int)
    requires Good(s, watches, root) && ZeroOK(s, watches, root) && l < |s.values| && s.values[l] == 0
    requires s.level == 0 ==> Known(watches, root, s.units, l)
    ensures Neg(l) < |s.values| && Var(l) < |s.reasons| && ZeroOK(Put(s, l, reason), watches, root)
  {
    PutGood(s, watches, root, l, reason);
    var s' := Put(s, l, reason);
    forall i | 0 <= i < |s'.trail| && (s'.level == 0 || LevelOf(s', s'.trail[i]) == 0)
      ensures Known(watches, root, s.units, s'.trail[i]) {
      if i < |s.trail| {
        assert s'.trail[i] == s.trail[i];
        OtherVariable(s, watches, root, i, l);
      }
    }
  }

  lemma OtherVariable(s: State, watches: seq<seq<Watch>>, root: seq<int>, i: nat, l: Lit)
    requires Good(s, watches, root) && i < |s.trail| && l < |s.values| && s.values[l] == 0
    ensures Var(s.trail[i]) != Var(l)
  {
    SameVar(s.trail[i], l);
    SetOK(s.values, l);
    assert True(s.values, s.trail[i]);
  }

  lemma EdgeKnown(watches: seq<seq<Watch>>, root: seq<int>, units: seq<Lit>, l: Lit, o: Lit)
    requires Known(watches, root, units, l) && Edge(watches, l, o)
    ensures Known(watches, root, units, o)
  {
  }

  lemma MoreKnown(watches: seq<seq<Watch>>, root: seq<int>, units: seq<Lit>, units': seq<Lit>, l: Lit)
    requires Known(watches, root, units, l) && units <= units'
    ensures Known(watches, root, units', l)
  {
    hide ClosedSet, Entailed;
    forall c: set<Lit> | ClosedSet(watches, c) && Includes(c, root, units') ensures l in c {
      assert Includes(c, root, units);
    }
  }

  /** A new unit does no harm. */
  lemma PushUnit(s: State, watches: seq<seq<Watch>>, root: seq<int>, unit: Lit)
    requires Quiet(s, watches, root) && Entailed(watches, root, unit)
    ensures var s' := s.(units := s.units + [unit]);
            Quiet(s', watches, root) && Known(watches, root, s'.units, unit)
  {
    hide Known, Entailed, Edge;
    var s' := s.(units := s.units + [unit]);
    forall i | 0 <= i < |s.trail| && (s.level == 0 || LevelOf(s, s.trail[i]) == 0)
      ensures Known(watches, root, s'.units, s'.trail[i]) {
      MoreKnown(watches, root, s.units, s'.units, s.trail[i]);
    }
    assert Known(watches, root, s'.units, unit) by { UnitKnown(watches, root, s.units, unit); }
  }

  lemma UnitKnown(watches: seq<seq<Watch>>, root: seq<int>, units: seq<Lit>, unit: Lit)
    requires Entailed(watches, root, unit)
    ensures Known(watches, root, units + [unit], unit)
  {
    hide Entailed, ClosedSet;
    assert (units + [unit])[|units|] == unit;
  }

  /** Through the implications backwards the negation of a dominator leads to that of the first literal of the tree. */
  lemma {:induction false} TreeBack(s: State, watches: seq<seq<Watch>>, stopEarly: bool,
                                    saved: nat, i: nat, c: set<Lit>)
    requires WatchesOK(watches, stopEarly) && TreeFrom(s, watches, saved) && saved <= i < |s.trail|
    requires ClosedSet(watches, c) && Neg(s.trail[i]) in c
    ensures Neg(s.trail[saved]) in c
    decreases i
  {
    if i > saved {
      hide WatchesOK;
      assert HasParent(s, watches, saved, i);
      var j: nat :| saved <= j < i && Reason(s, s.trail[i]) == s.trail[j] && Edge(watches, s.trail[j], s.trail[i]);
      Contraposition(watches, stopEarly, s.trail[j], s.trail[i]);
      TreeBack(s, watches, stopEarly, saved, j, c);
    }
  }

  /** The unit of a failed probe leads to the negation of the probe. */
  lemma ProbeKnown(s: State, watches: seq<seq<Watch>>, stopEarly: bool, root: seq<int>, saved: nat, uip: Lit)
    requires WatchesOK(watches, stopEarly) && TreeFrom(s, watches, saved) && saved < |s.trail|
    requires exists i :: saved <= i < |s.trail| && s.trail[i] == uip
    requires Entailed(watches, root, Neg(s.trail[saved]))
    ensures Known(watches, root, s.units + [Neg(uip)], Neg(s.trail[saved]))
  {
    hide WatchesOK, TreeFrom, ClosedSet, Entailed;
    var i: nat :| saved <= i < |s.trail| && s.trail[i] == uip;
    var units := s.units + [Neg(uip)];
    assert units[|s.units|] == Neg(uip);
    forall c: set<Lit> | ClosedSet(watches, c) && Includes(c, root, units) ensures Neg(s.trail[saved]) in c {
      TreeBack(s, watches, stopEarly, saved, i, c);
    }
  }

  /** What holds when nothing is left to propagate. */
  ghost predicate Quiet(s: State, watches: seq<seq<Watch>>, root: seq<int>) {
    && Good(s, watches, root) && ClosedTo(s, watches, |s.trail|) && s.propagate == |s.trail| && ZeroOK(s, watches, root)
  }

  /** A conflict: an implication of the current tree is violated. */
  ghost predicate Violated(s: State, watches: seq<seq<Watch>>, saved: nat, lit: Lit, other: Lit) {
    && Edge(watches, lit, other) && False(s.values, other)
    && exists i :: saved <= i < |s.trail| && s.trail[i] == lit
  }

  /** Positions on the trail, each the reason of the next. */
  ghost predicate Chain(s: State, p: seq<nat>) {
    && p != [] && (forall k :: 0 <= k < |p| ==> p[k] < |s.trail|)
    && forall k :: 0 <= k < |p| - 1 ==> Reason(s, s.trail[p[k + 1]]) == s.trail[p[k]]
  }

  /** The last common dominator: chains of reasons lead from it to both literals and have nothing else in common. */
  ghost predicate Dominates(s: State, uip: Lit, lit: Lit, other: Lit, p: seq<nat>, q: seq<nat>) {
    && Chain(s, p) && Chain(s, q) && p[0] == q[0] && s.trail[p[0]] == uip
    && s.trail[p[|p| - 1]] == lit && s.trail[q[|q| - 1]] == other
    && forall i, j :: 0 < i < |p| && 0 < j < |q| ==> p[i] != q[j]
  }

  /** In the walk two chains lead from positions i and j to x and y; all but these positions have been passed. */
  ghost predicate Walk(s: State, i: nat, j: nat, x: Lit, y: Lit, p: seq<nat>, q: seq<nat>, t: nat) {
    && Chain(s, p) && Chain(s, q) && p[0] == i && q[0] == j && s.trail[p[|p| - 1]] == x && s.trail[q[|q| - 1]] == y
    && (forall k :: 0 < k < |p| ==> p[k] >= t) && (forall k :: 0 < k < |q| ==> q[k] >= t)
    && forall a, b :: 0 < a < |p| && 0 < b < |q| ==> p[a] != q[b]
  }

  lemma WalkStep(s: State, i: nat, j: nat, x: Lit, y: Lit, p: seq<nat>, q: seq<nat>, t: nat, k: nat)
    requires Walk(s, i, j, x, y, p, q, t + 1) && j == t && i < t && k < t
    requires Reason(s, s.trail[t]) == s.trail[k]
    ensures k != i ==> Walk(s, i, k, x, y, p, [k] + q, t)
    ensures k == i ==> Dominates(s, s.trail[k], x, y, p, [k] + q)
  {
    var q' := [k] + q;
    assert forall b :: 0 < b < |q'| ==> q'[b] == q[b - 1];
  }

  lemma WalkStart(s: State, i: nat, j: nat, t: nat)
    requires i < |s.trail| && j < |s.trail|
    ensures Walk(s, i, j, s.trail[i], s.trail[j], [i], [j], t)
  {
  }

  lemma DominatesTurn(s: State, uip: Lit, x: Lit, y: Lit, p: seq<nat>, q: seq<nat>)
    requires Dominates(s, uip, x, y, p, q)
    ensures Dominates(s, uip, y, x, q, p)
  {
  }

  lemma WalkTurn(s: State, i: nat, j: nat, x: Lit, y: Lit, p: seq<nat>, q: seq<nat>, t: nat)
    requires Walk(s, i, j, x, y, p, q, t)
    ensures Walk(s, j, i, y, x, q, p, t)
  {
  }

  lemma WalkLower(s: State, i: nat, j: nat, x: Lit, y: Lit, p: seq<nat>, q: seq<nat>, t: nat)
    requires Walk(s, i, j, x, y, p, q, t + 1)
    ensures Walk(s, i, j, x, y, p, q, t)
  {
  }

  /** A probe fails: the unit is the negation of the last dominator of some conflict. */
  ghost predicate FailsBy(s0: State, s: State, watches: seq<seq<Watch>>, probe: Lit, uip: Lit) {
    s0.trail + [probe] <= s.trail &&
    exists lit, other, p, q :: Violated(s, watches, |s0.trail|, lit, other) && Dominates(s, uip, lit, Neg(other), p, q)
  }

  /** A literal that leads to both literals of a conflict fails. */
  lemma DominatorFails(watches: seq<seq<Watch>>, root: seq<int>, d: Lit, lit: Lit, other: Lit)
    requires Edge(watches, lit, other) && Leads(watches, root, d, lit) && Leads(watches, root, d, Neg(other))
    ensures Entailed(watches, root, Neg(d))
  {
    forall m: Model | Fits(m, watches, root) ensures Holds(m, Neg(d)) {
      HoldsNeg(m, d);
      HoldsNeg(m, other);
    }
  }

  class Prober {
    var s: State
    const watches: seq<seq<Watch>>
    const stopEarly: bool
    ghost const root: seq<int>

    ghost predicate Valid()
      reads this
    {
      WatchesOK(watches, stopEarly) && RootClosed(watches, root) && Quiet(s, watches, root)
    }

    /** Root-level values to which nothing is left to propagate; the trail is empty. */
    constructor (watches: seq<seq<Watch>>, stopEarly: bool, values: seq<int>)
      requires WatchesOK(watches, stopEarly) && RootClosed(watches, values) && |values| == |watches|
      ensures Valid() && this.watches == watches && this.root == values && s.values == values && s.trail == []
      ensures s.units == []
    {
      this.watches, this.stopEarly, this.root := watches, stopEarly, values;
      s := State(values, [], seq(|values| / 2, _ => UNIT_REASON), seq(|values| / 2, _ => 0), 0, 0, []);
    }

    method Assign(lit: Lit, reason: int)
      requires lit < |s.values| && Neg(lit) < |s.values| && Var(lit) < |s.reasons| == |s.levels|
      modifies this`s
      ensures s == Put(old(s), lit, reason)
    {
      s := s.(values := s.values[lit := 1][Neg(lit) := -1]);
      s := s.(trail := s.trail + [lit]);
      s := s.(reasons := s.reasons[Var(lit) := reason]);
      s := s.(levels := s.levels[Var(lit) := s.level]);
    }

    /** Assigns what a literal implies, up to a conflict. */
    method PropagateLiteral(i: nat, ghost saved: nat) returns (conflict: bool, other: Lit)
      requires WatchesOK(watches, stopEarly) && RootClosed(watches, root) && Good(s, watches, root)
      requires ZeroOK(s, watches, root)
      requires saved <= i < |s.trail| && ClosedTo(s, watches, i) && TreeFrom(s, watches, saved)
      modifies this`s
      ensures Good(s, watches, root) && ZeroOK(s, watches, root) && TreeFrom(s, watches, saved)
      ensures old(s).trail <= s.trail
      ensures s.level == old(s).level && s.propagate == old(s).propagate && ClosedTo(s, watches, i)
      ensures s.units == old(s).units
      ensures if conflict then Edge(watches, s.trail[i], other) &&
                               False(s.values, other) else ClosedTo(s, watches, i + 1)
    {
      hide Good, ZeroOK, TreeFrom, ClosedTo, Edge;
      GoodFacts(s, watches, root, i);
      var lit := s.trail[i];
      var notLit := Neg(lit);
      var ws := watches[notLit];
      conflict, other := false, 0;
      var p := 0;
      while p < |ws|
        invariant 0 <= p <= |ws| && Good(s, watches, root) && ZeroOK(s, watches, root) && TreeFrom(s, watches, saved)
        invariant old(s).trail <= s.trail && s.level == old(s).level && s.propagate == old(s).propagate
        invariant s.units == old(s).units
        invariant ClosedTo(s, watches, i)
        invariant forall k :: 0 <= k < p && ws[k].Binary? ==> True(s.values, ws[k].lit)
      {
        var watch := ws[p];
        p := p + 1;
        if watch.Binary? {
          other := watch.lit;
          WatchEdge(watches, stopEarly, lit, p - 1);
          GoodFacts(s, watches, root, i);
          if s.values[other] > 0 {
            continue;
          }
          if s.values[other] < 0 {
            conflict := true;
            return;
          }
          PutGood(s, watches, root, other, lit);
          PutClosed(s, watches, root, other, lit, i);
          PutTree(s, watches, root, other, i, saved);
          KnownNext(s, watches, root, i, other);
          PutZero(s, watches, root, other, lit);
          Assign(other, lit);
          NewTrue(s, watches, root);
        } else if stopEarly {
          OnlyLarge(watches, stopEarly, notLit, p - 1);
          break;
        }
      }
      LiteralClosed(s, watches, i);
    }

    /** Propagates all literals of the trail, up to a conflict. */
    method Propagate(ghost saved: nat) returns (conflict: bool, lit: Lit, other: Lit)
      requires WatchesOK(watches, stopEarly) && RootClosed(watches, root) && Good(s, watches, root)
      requires ZeroOK(s, watches, root)
      requires saved <= s.propagate && ClosedTo(s, watches, s.propagate) && TreeFrom(s, watches, saved)
      modifies this`s
      ensures Good(s, watches, root) && ZeroOK(s, watches, root) && TreeFrom(s, watches, saved)
      ensures old(s).trail <= s.trail && s.level == old(s).level && s.units == old(s).units
      ensures if conflict then Violated(s, watches, saved, lit, other) &&
                               ClosedTo(s, watches, saved) else Quiet(s, watches, root)
    {
      hide Good, ZeroOK, TreeFrom, ClosedTo, Edge;
      conflict, lit, other := false, 0, 0;
      ClosedPrefix(s, watches, s.propagate, saved);
      PropagateBound(s, watches, root);
      while !conflict && s.propagate < |s.trail|
        invariant saved <= s.propagate <= |s.trail| && Good(s, watches, root) && ZeroOK(s, watches, root)
        invariant TreeFrom(s, watches, saved)
        invariant old(s).trail <= s.trail && s.level == old(s).level && |s.values| == |old(s).values|
        invariant s.units == old(s).units
        invariant ClosedTo(s, watches, saved)
        invariant if conflict then Violated(s, watches, saved, lit, other) else ClosedTo(s, watches, s.propagate)
        decreases !conflict, |s.values| - s.propagate
      {
        TrailBound(s, watches, root);
        var i := s.propagate;
        lit := s.trail[i];
        conflict, other := PropagateLiteral(i, saved);
        Advance(s, watches, root, saved);
        s := s.(propagate := s.propagate + 1);
        ClosedPrefix(s, watches, i, saved);
        assert s.trail[i] == lit;
        TrailBound(s, watches, root);
      }
      PropagateBound(s, watches, root);
    }

    /**
      Walks the trail backwards from both literals of a conflict until the reasons meet: the literal found leads
      to both.
     */
    method Analyze(lit: Lit, other: Lit, ghost saved: nat) returns (uip: Lit, ghost p: seq<nat>, ghost q: seq<nat>)
      requires WatchesOK(watches, stopEarly) && RootClosed(watches, root) && Good(s, watches, root)
      requires ClosedTo(s, watches, saved)
      requires TreeFrom(s, watches, saved) && Violated(s, watches, saved, lit, other)
      ensures exists i :: saved <= i < |s.trail| && s.trail[i] == uip
      ensures Leads(watches, root, uip, lit) && Leads(watches, root, uip, Neg(other))
      ensures Dominates(s, uip, lit, Neg(other), p, q)
    {
      hide Good, TreeFrom, ClosedTo, Edge, Leads, Walk, Dominates;
      ghost var i: nat :| saved <= i < |s.trail| && s.trail[i] == lit;
      ghost var j: nat := ConflictInTree(s, watches, stopEarly, root, saved, i, other);
      DifferentVars(s, watches, root, i, j);
      LeadsSelf(watches, root, s.trail[i]);
      LeadsSelf(watches, root, s.trail[j]);
      SameVar(other, other);
      ghost var x, y := s.trail[i], s.trail[j];
      var analyzed: set<nat> := {Var(lit), Var(other)};
      var t := |s.trail|;
      p, q := [i], [j];
      WalkStart(s, i, j, t);
      if i > j {
        WalkTurn(s, i, j, x, y, p, q, t);
        i, j := j, i;
        x, y := y, x;
        p, q := q, p;
      }
      while true
        invariant saved <= i < j < t <= |s.trail| && {x, y} == {lit, Neg(other)}
        invariant Leads(watches, root, s.trail[i], x) && Leads(watches, root, s.trail[j], y)
        invariant forall k :: 0 <= k < t ==> (Var(s.trail[k]) in analyzed <==> k == i || k == j)
        invariant Walk(s, i, j, x, y, p, q, t)
        decreases t
      {
        t := t - 1;
        var l := s.trail[t];
        if Var(l) !in analyzed {
          WalkLower(s, i, j, x, y, p, q, t);
          continue;
        }
        ghost var k: nat := Parent(s, watches, root, saved, t);
        LeadsStep(watches, root, s.trail[k], l, y);
        var reason: Lit := s.reasons[Var(l)];
        WalkStep(s, i, j, x, y, p, q, t, k);
        q := [k] + q;
        if Var(reason) !in analyzed {
          analyzed := analyzed + {Var(reason)};
          OneVariable(s, watches, root, k);
          j := k;
          if i > j {
            WalkTurn(s, i, j, x, y, p, q, t);
            i, j := j, i;
            x, y := y, x;
            p, q := q, p;
          }
        } else {
          assert k == i;
          assert lit in {x, y} && Neg(other) in {x, y};
          DominatesTurn(s, reason, x, y, p, q);
          if x != lit {
            p, q := q, p;
          }
          return reason, p, q;
        }
      }
    }

    /** Undoes the assignments since the trail had the given size. */
    method Backtrack(saved: nat, decisionLevel: nat)
      requires Good(s, watches, root) && saved <= |s.trail| && PrefixClosed(s, watches, root, saved)
      requires forall i :: 0 <= i < saved && (decisionLevel == 0 || LevelOf(s, s.trail[i]) == 0) ==>
                           Known(watches, root, s.units, s.trail[i])
      modifies this`s
      ensures s ==
                old(s).(values := s.values, trail := old(s).trail[..saved], level := decisionLevel, propagate := saved)
      ensures Quiet(s, watches, root)
      ensures forall k: nat :: True(s.values, k) <==> k in s.trail || True(root, k)
    {
      hide Good, ClosedTo, Known, PrefixClosed;
      var p := |s.trail|;
      UndoStart(s, watches, root);
      while p != saved
        invariant saved <= p <= |old(s).trail| && s == old(s).(values := s.values)
        invariant Undone(old(s), watches, root, s.values, p)
      {
        p := p - 1;
        UndoStep(old(s), watches, root, s.values, p);
        var lit := s.trail[p];
        s := s.(values := s.values[lit := 0][Neg(lit) := 0]);
      }
      UndoEnd(old(s), watches, root, s.values, saved, decisionLevel);
      s := s.(trail := s.trail[..saved]);
      s := s.(level := decisionLevel);
      s := s.(propagate := saved);
    }

    /** Assigns a literal at the given level and propagates it. */
    method AssignAndPropagate(l: Lit, reason: int, level: nat) returns (conflict: bool, lit: Lit, other: Lit)
      requires Valid() && l < |s.values| && s.values[l] == 0 && (level == s.level || level == s.level + 1)
      requires level == 0 ==> Known(watches, root, s.units, l)
      modifies this`s
      ensures Good(s, watches, root) && ZeroOK(s, watches, root) && TreeFrom(s, watches, |old(s).trail|)
      ensures s.level == level && s.units == old(s).units
      ensures old(s).trail + [l] <= s.trail && True(s.values, l)
      ensures if conflict then Violated(s, watches, |old(s).trail|, lit, other) &&
                               ClosedTo(s, watches, |old(s).trail|) else Quiet(s, watches, root)
    {
      hide Good, ZeroOK, TreeFrom, ClosedTo, Edge, Known, WatchesOK, RootClosed;
      QuietFacts(s, watches, root);
      ghost var saved := |s.trail|;
      Leveled(s, watches, root);
      s := s.(level := level);
      PutGood(s, watches, root, l, reason);
      PutClosed(s, watches, root, l, reason, saved);
      PutZero(s, watches, root, l, reason);
      StartTree(s, watches, l, reason);
      Assign(l, reason);
      ghost var s1 := s;
      conflict, lit, other := Propagate(saved);
      assert s.trail[saved] == l;
      Still(s, watches, root, saved);
    }

    /** Assumes a probe; if it fails, the negation of a dominator is assigned instead. */
    method Probe(probe: Lit) returns (unit: int, inconsistent: bool, ghost t: State)
      requires Valid() && probe < |s.values| && s.values[probe] == 0
      modifies this`s
      ensures !inconsistent ==> Valid()
      ensures Good(s, watches, root) && old(s).trail <= s.trail && s.trail != old(s).trail
      ensures unit < 0 ==> !inconsistent && True(s.values, probe)
      ensures unit >= 0 ==>
                Entailed(watches, root, unit) && Known(watches, root, s.units, Neg(probe)) &&
                    (!inconsistent ==> True(s.values, unit))
      ensures s.units == old(s).units + if unit >= 0 then [unit] else []
      ensures unit >= 0 ==> FailsBy(old(s), t, watches, probe, Neg(unit))
      ensures inconsistent ==> forall m: Model :: !Fits(m, watches, root)
    {
      hide Good, ZeroOK, TreeFrom, ClosedTo, Edge, Entailed, Known, Leads, WatchesOK,
           RootClosed, PrefixClosed, Violated,
           Fits, Dominates;
      var level := s.level;
      var saved := |s.trail|;
      ghost var s0 := s;
      var conflict, lit, other := AssignAndPropagate(probe, DECISION_REASON, level + 1);
      t := s;
      if !conflict {
        return -1, false, t;
      }
      var uip, p, q := Analyze(lit, other, saved);
      UipEntailed(s, watches, root, saved, lit, other, uip);
      ProbeKnown(s, watches, stopEarly, root, saved, uip);
      var notUip := Neg(uip);
      SameVar(uip, uip);
      BackPrefix(s0, s, watches, root, saved);
      ghost var s2 := s;
      Backtrack(saved, level);
      FreeAgain(s2, s, watches, root, saved, uip);
      assert s.trail == s0.trail;
      unit := notUip;
      PushUnit(s, watches, root, unit);
      s := s.(units := s.units + [unit]);
      conflict, lit, other := AssignAndPropagate(notUip, UNIT_REASON, level);
      if conflict {
        assert s.trail[saved] == notUip;
        ForcedConflict(s, watches, stopEarly, root, saved, lit, other);
        return unit, true, t;
      }
      return unit, false, t;
    }

    /**
      Probes the candidates that are unassigned, at most limit of them, and compacts the candidates in place. The
      decisions pile up: a candidate that is falsified by earlier ones stays for the next round.
     */
    method ProbeCandidates(candidates: seq<Lit>, limit: nat)
      returns (kept: seq<Lit>, inconsistent: bool, complete: bool)
      requires Valid() && s.trail == [] && s.units == [] && InRange(candidates, |s.values|)
      modifies this`s
      ensures Good(s, watches, root) && (!inconsistent ==> Valid()) && (s.trail == [] ==> s == old(s))
      ensures InRange(kept, |s.values|)
      ensures inconsistent ==> forall m: Model :: !Fits(m, watches, root)
      ensures forall u :: u in s.units ==> Entailed(watches, root, u)
      ensures forall c :: c in kept ==> c in candidates
      ensures forall c :: c in candidates ==> c in kept || Settled(watches, root, s.units, c)
      ensures !inconsistent && complete ==> forall c :: c in kept ==> True(s.values, c) || False(s.values, c)
      ensures !inconsistent && limit > 0 && candidates != [] ==> |kept| < |candidates| || True(s.values, kept[0])
      ensures |kept| <= |candidates| && (limit >= |candidates| && !inconsistent ==> complete)
    {
      hide Good, ClosedTo, ZeroOK, Entailed, WatchesOK, RootClosed, Fits, Settled, Visited;
      kept, inconsistent, complete := candidates, false, true;
      var p, q, probes := 0, 0, 0;
      VisitedStart(s, watches, root, candidates);
      while p < |kept|
        invariant q <= p <= |kept| == |candidates| && probes <= p && kept[p..] == candidates[p..]
        invariant !inconsistent && complete && Valid() && InRange(candidates, |s.values|)
        invariant forall u :: u in s.units ==> Entailed(watches, root, u)
        invariant Visited(s, watches, root, candidates, p, kept[..q])
        invariant (p == 0 ==> s.trail == []) && (s.trail == [] ==> s == old(s))
      {
        ghost var s0 := s;
        var probe := kept[p];
        MoveEntry(kept, candidates, p, q);
        kept := kept[q := probe];
        p, q := p + 1, q + 1;
        var keep;
        if s.values[probe] == 0 && probes == limit {
          complete := false;
          break;
        }
        keep, inconsistent := ProbeCandidate(probe);
        VisitedStep(s0, s, watches, root, candidates, p - 1, kept[..q - 1], keep);
        probes := probes + 1;
        if !keep {
          q := q - 1;
        }
        if inconsistent {
          break;
        }
      }
      ghost var d := if complete then 0 else 1;
      VisitedEnd(s, watches, root, candidates, p - d, kept[..q - d], complete && !inconsistent);
      assert kept[..q] + kept[p..] == kept[..q - d] + candidates[p - d..];
      kept := CopyRest(kept, p, q);
    }

    /** Probes an unassigned candidate, and tells whether to keep it. */
    method ProbeCandidate(probe: Lit) returns (keep: bool, inconsistent: bool)
      requires Valid() && probe < |s.values|
      modifies this`s
      ensures Good(s, watches, root) && (!inconsistent ==> Valid()) && old(s).trail <= s.trail
      ensures (s.trail == old(s).trail ==> s == old(s))
      ensures inconsistent ==> forall m: Model :: !Fits(m, watches, root)
      ensures old(s).units <= s.units && forall u :: u in s.units ==> u in old(s).units || Entailed(watches, root, u)
      ensures if keep then Assigned(s, probe) && !inconsistent else Settled(watches, root, s.units, probe)
      ensures keep && old(s).trail == [] ==> True(s.values, probe)
    {
      hide Good, ClosedTo, ZeroOK, Entailed, Known, WatchesOK, RootClosed, Fits, NotFailed, Settled;
      CandidateFacts(s, watches, root, [probe], 0);
      keep, inconsistent := true, false;
      if s.values[probe] > 0 {
        SatisfiedSettled(s, watches, root, probe);
        keep := false;
      } else if s.values[probe] < 0 {
        FalsifiedSettled(s, watches, root, probe);
        keep := s.levels[Var(probe)] != 0;
      } else {
        var unit;
        ghost var t;
        unit, inconsistent, t := Probe(probe);
        if unit >= 0 {
          FailedSettled(watches, root, s.units, probe);
          keep := false;
        }
      }
    }

    /** Moves the candidates from position p on to position q and cuts the rest. */
    method CopyRest(candidates: seq<Lit>, p: nat, q: nat) returns (kept: seq<Lit>)
      requires q <= p <= |candidates|
      ensures kept == candidates[..q] + candidates[p..]
    {
      kept := candidates;
      var p', q' := p, q;
      while p' < |kept|
        invariant q' - q == p' - p && q' <= p' <= |kept| == |candidates| && kept[p'..] == candidates[p'..]
        invariant kept[..q'] == candidates[..q] + candidates[p..p']
      {
        MoveEntry(kept, candidates, p', q');
        assert candidates[p..p' + 1] == candidates[p..p'] + [candidates[p']];
        kept := kept[q' := kept[p']];
        p', q' := p' + 1, q' + 1;
      }
      kept := kept[..q'];
    }

    /** Removes the candidates that are true. */
    method FlushSatisfied(candidates: seq<Lit>) returns (kept: seq<Lit>)
      requires Good(s, watches, root) && InRange(candidates, |s.values|)
      ensures kept == Unsatisfied(s.values, candidates)
    {
      hide Good, Unsatisfied;
      kept := candidates;
      var p, q := 0, 0;
      UnsatisfiedNone(s.values);
      while p < |kept|
        invariant q <= p <= |kept| == |candidates| && kept[p..] == candidates[p..]
        invariant kept[..q] == Unsatisfied(s.values, candidates[..p])
      {
        var probe := kept[p];
        MoveEntry(kept, candidates, p, q);
        UnsatisfiedStep(s.values, candidates, p);
        kept := kept[q := probe];
        p, q := p + 1, q + 1;
        if s.values[probe] > 0 {
          q := q - 1;
        }
      }
      assert candidates[..p] == candidates;
      kept := kept[..q];
    }

    /** A round: probe, remove the satisfied candidates, undo all assignments. */
    method Round(candidates: seq<Lit>, limit: nat) returns (kept: seq<Lit>, units: seq<Lit>, inconsistent: bool)
      requires Valid() && s.trail == [] && s.level == 0 && InRange(candidates, |s.values|)
      modifies this`s
      ensures Valid() && s.trail == [] && s.level == 0 && forall k: nat :: True(s.values, k) <==> True(root, k)
      ensures inconsistent ==> forall m: Model :: !Fits(m, watches, root)
      ensures forall u :: u in units ==> Entailed(watches, root, u)
      ensures forall c :: c in kept ==> c in candidates
      ensures forall c :: c in candidates ==> c in kept || Settled(watches, root, units, c)
      ensures limit >= |candidates| && !inconsistent ==> forall c :: c in kept ==> NotFailed(watches, Neg(c))
      ensures !inconsistent && limit > 0 && candidates != [] ==> |kept| < |candidates|
    {
      hide Good, Quiet, Entailed, WatchesOK, RootClosed, Fits, NotFailed, Settled;
      ForgetUnits(s, watches, root);
      s := s.(units := []);
      var complete;
      kept, inconsistent, complete := ProbeCandidates(candidates, limit);
      units := s.units;
      if !inconsistent {
        ghost var probed := kept;
        kept := FlushSatisfied(kept);
        FlushedSettled(s, watches, root, probed);
      }
      BackToRoot(s, watches, root);
      if s.trail != [] {
        Backtrack(0, 0);
      }
    }
  }

  function Unsatisfied(values: seq<int>, candidates: seq<Lit>): (r: seq<Lit>)
    ensures |r| <= |candidates| && forall c :: c in r <==> c in candidates && !True(values, c)
  {
    if candidates == [] then []
    else
      var n := |candidates| - 1;
      assert candidates == candidates[..n] + [candidates[n]];
      Unsatisfied(values, candidates[..n]) + if True(values, candidates[n]) then [] else [candidates[n]]
  }

  lemma UnsatisfiedNone(values: seq<int>)
    ensures Unsatisfied(values, []) == []
  {
  }

  lemma UnsatisfiedStep(values: seq<int>, candidates: seq<Lit>, p: nat)
    requires p < |candidates|
    ensures Unsatisfied(values, candidates[..p + 1]) == Unsatisfied(values, candidates[..p])
            + if True(values, candidates[p]) then [] else [candidates[p]]
  {
    assert candidates[..p + 1][..p] == candidates[..p];
  }

  /** A true candidate is removed. */
  lemma UnsatisfiedFewer(values: seq<int>, candidates: seq<Lit>, c: Lit)
    requires c in candidates && True(values, c)
    ensures |Unsatisfied(values, candidates)| < |candidates|
  {
    var n := |candidates| - 1;
    assert candidates == candidates[..n] + [candidates[n]];
    if !True(values, candidates[n]) {
      UnsatisfiedFewer(values, candidates[..n], c);
    }
  }

  /** What removing the satisfied candidates means: they are settled, and the others are not false by accident. */
  lemma FlushedSettled(s: State, watches: seq<seq<Watch>>, root: seq<int>, candidates: seq<Lit>)
    requires Quiet(s, watches, root) && RootClosed(watches, root)
    ensures forall c :: c in candidates ==> c in Unsatisfied(s.values, candidates) || Settled(watches, root, s.units, c)
    ensures forall c :: c in Unsatisfied(s.values, candidates) && False(s.values, c) ==> NotFailed(watches, Neg(c))
    ensures candidates != [] && True(s.values, candidates[0]) ==> |Unsatisfied(s.values, candidates)| < |candidates|
  {
    hide Quiet, RootClosed, NotFailed, Settled;
    forall c | c in candidates && c !in Unsatisfied(s.values, candidates) ensures Settled(watches, root, s.units, c) {
      SatisfiedSettled(s, watches, root, c);
    }
    forall c | c in Unsatisfied(s.values, candidates) && False(s.values, c) ensures NotFailed(watches, Neg(c)) {
      NegTrue(s, watches, root, c);
      AllClosed(s, watches, root, Neg(c));
    }
    if candidates != [] && True(s.values, candidates[0]) {
      UnsatisfiedFewer(s.values, candidates, candidates[0]);
    }
  }

  lemma NegTrue(s: State, watches: seq<seq<Watch>>, root: seq<int>, c: Lit)
    requires Quiet(s, watches, root) && False(s.values, c)
    ensures Good(s, watches, root) && ClosedTo(s, watches, |s.trail|) && True(s.values, Neg(c))
  {
    assert s.values[Neg(c)] == -s.values[c];
  }

  lemma BackToRoot(s: State, watches: seq<seq<Watch>>, root: seq<int>)
    requires Good(s, watches, root)
    ensures PrefixClosed(s, watches, root, 0)
    ensures s.trail == [] ==> forall k: nat :: True(s.values, k) <==> True(root, k)
  {
  }

  lemma CandidateFacts(s: State, watches: seq<seq<Watch>>, root: seq<int>, candidates: seq<Lit>, p: nat)
    requires Good(s, watches, root) && InRange(candidates, |s.values|) && p < |candidates|
    ensures candidates[p] < |s.values| && Var(candidates[p]) < |s.levels|
  {
    SetVarRange(s.values, |s.levels|, candidates[p]);
  }

  lemma SetVarRange(values: seq<int>, n: nat, l: Lit)
    requires |values| == 2 * n && l < |values|
    ensures Var(l) < n
  {
  }

  /** A true candidate does not fail: all that follows from it is true. */
  lemma SatisfiedSettled(s: State, watches: seq<seq<Watch>>, root: seq<int>, c: Lit)
    requires Quiet(s, watches, root) && RootClosed(watches, root) && True(s.values, c)
    ensures Settled(watches, root, s.units, c)
  {
    AllClosed(s, watches, root, c);
  }

  /** A candidate falsified without a decision fails. */
  lemma FalsifiedSettled(s: State, watches: seq<seq<Watch>>, root: seq<int>, c: Lit)
    requires Quiet(s, watches, root) && False(s.values, c)
    ensures LevelOf(s, c) == 0 ==> Settled(watches, root, s.units, c)
    ensures s.trail == [] ==> LevelOf(s, c) == 0
  {
    assert s.values[Neg(c)] == -s.values[c];
    assert Var(Neg(c)) == Var(c);
    if True(root, Neg(c)) {
      assert LevelOf(s, Neg(c)) == 0;
    } else {
      var i :| 0 <= i < |s.trail| && s.trail[i] == Neg(c);
    }
  }

  /** The candidates before position p have been visited, and those to keep are in front. */
  ghost predicate Visited(s: State, watches: seq<seq<Watch>>, root: seq<int>, candidates: seq<Lit>,
                          p: nat, front: seq<Lit>) {
    && |front| <= p <= |candidates|
    && (forall c :: c in front ==> c in candidates && Assigned(s, c))
    && (forall i :: 0 <= i < p ==> candidates[i] in front || Settled(watches, root, s.units, candidates[i]))
    && (p > 0 ==> |front| < p || True(s.values, front[0]))
  }

  lemma VisitedStart(s: State, watches: seq<seq<Watch>>, root: seq<int>, candidates: seq<Lit>)
    ensures Visited(s, watches, root, candidates, 0, candidates[..0])
  {
  }

  lemma VisitedStep(s: State, s': State, watches: seq<seq<Watch>>, root: seq<int>,
                    candidates: seq<Lit>, p: nat, front: seq<Lit>, keep: bool)
    requires Good(s, watches, root) && Good(s', watches, root) && s.trail <= s'.trail && s.units <= s'.units
    requires p < |candidates| && Visited(s, watches, root, candidates, p, front)
    requires if keep then Assigned(s', candidates[p]) &&
                          (p == 0 ==> True(s'.values, candidates[p]))
             else Settled(watches, root, s'.units, candidates[p])
    ensures |s'.values| == |s.values|
    ensures Visited(s', watches, root, candidates, p + 1, if keep then front + [candidates[p]] else front)
  {
    hide Good, Settled;
    ValuesStay(s, s', watches, root);
    forall c | Settled(watches, root, s.units, c) ensures Settled(watches, root, s'.units, c) {
      MoreSettled(watches, root, s.units, s'.units, c);
    }
  }

  /** The rest of the candidates is kept. */
  lemma VisitedEnd(s: State, watches: seq<seq<Watch>>, root: seq<int>, candidates: seq<Lit>,
                   p: nat, front: seq<Lit>, complete: bool)
    requires Visited(s, watches, root, candidates, p, front)
    requires complete ==> p == |candidates|
    requires InRange(candidates, |s.values|)
    ensures var kept := front + candidates[p..];
      && (forall c :: c in kept ==> c in candidates)
      && (forall c :: c in candidates ==> c in kept || Settled(watches, root, s.units, c))
      && (complete ==> forall c :: c in kept ==> True(s.values, c) || False(s.values, c))
      && (p > 0 ==> |kept| < |candidates| || True(s.values, kept[0]))
      && |kept| <= |candidates| && InRange(kept, |s.values|)
  {
    hide Settled;
    var kept := front + candidates[p..];
    forall c | c in candidates ensures c in kept || Settled(watches, root, s.units, c) {
      var i :| 0 <= i < |candidates| && candidates[i] == c;
      assert i >= p ==> candidates[p..][i - p] == c;
    }
    assert forall i :: 0 <= i < |kept| ==> kept[i] in front || kept[i] in candidates[p..];
    assert complete ==> kept == front;
  }

  lemma FailedSettled(watches: seq<seq<Watch>>, root: seq<int>, units: seq<Lit>, c: Lit)
    requires Known(watches, root, units, Neg(c))
    ensures Settled(watches, root, units, c)
  {
  }

  /** What is assigned stays as the trail grows. */
  lemma ValuesStay(s: State, s': State, watches: seq<seq<Watch>>, root: seq<int>)
    requires Good(s, watches, root) && Good(s', watches, root) && s.trail <= s'.trail
    ensures |s'.values| == |s.values|
    ensures forall k: nat :: True(s.values, k) ==> True(s'.values, k)
    ensures forall k: nat :: False(s.values, k) ==> False(s'.values, k)
  {
    forall k: nat | True(s.values, k) ensures True(s'.values, k) {
      assert k in s.trail ==> k in s'.trail;
    }
    forall k: nat | False(s.values, k) ensures False(s'.values, k) {
      assert s.values[Neg(k)] == -s.values[k];
      assert s'.values[Neg(k)] == -s'.values[k];
      assert Neg(k) in s.trail ==> Neg(k) in s'.trail;
    }
  }

  ghost predicate InRange(candidates: seq<Lit>, n: nat) {
    forall i :: 0 <= i < |candidates| ==> candidates[i] < n
  }

  predicate Assigned(s: State, l: Lit) {
    True(s.values, l) || False(s.values, l)
  }

  /** A candidate that needs no further probing: it does not fail, or its negation follows from the units found. */
  ghost predicate Settled(watches: seq<seq<Watch>>, root: seq<int>, units: seq<Lit>, c: Lit) {
    NotFailed(watches, c) || Known(watches, root, units, Neg(c))
  }

  lemma MoreSettled(watches: seq<seq<Watch>>, root: seq<int>, units: seq<Lit>, units': seq<Lit>, c: Lit)
    requires Settled(watches, root, units, c) && units <= units'
    ensures Settled(watches, root, units', c)
  {
    hide Known;
    if Known(watches, root, units, Neg(c)) {
      MoreKnown(watches, root, units, units', Neg(c));
    }
  }

  lemma ForgetUnits(s: State, watches: seq<seq<Watch>>, root: seq<int>)
    requires Quiet(s, watches, root) && s.trail == []
    ensures Quiet(s.(units := []), watches, root)
  {
  }

  /** The negation of the dominator follows, and so does that of the probe. */
  lemma UipEntailed(s: State, watches: seq<seq<Watch>>, root: seq<int>, saved: nat, lit: Lit, other: Lit, uip: Lit)
    requires TreeFrom(s, watches, saved) && saved < |s.trail| && Violated(s, watches, saved, lit, other)
    requires Leads(watches, root, uip, lit) && Leads(watches, root, uip, Neg(other))
    requires exists i :: saved <= i < |s.trail| && s.trail[i] == uip
    ensures Entailed(watches, root, Neg(uip)) && Entailed(watches, root, Neg(s.trail[saved]))
  {
    DominatorFails(watches, root, uip, lit, other);
    ProbeFails(s, watches, root, saved, uip);
  }

  lemma QuietFacts(s: State, watches: seq<seq<Watch>>, root: seq<int>)
    requires Quiet(s, watches, root)
    ensures Good(s, watches, root) && ClosedTo(s, watches, |s.trail|) && s.propagate == |s.trail|
    ensures ZeroOK(s, watches, root)
    ensures |s.values| == |watches| == 2 * |s.reasons| && |s.levels| == |s.reasons|
    ensures forall k: nat {:trigger Neg(k)} :: k < |s.values| ==> Neg(k) < |s.values|
  {
  }

  /** Two literals of the trail belong to different variables. */
  lemma DifferentVars(s: State, watches: seq<seq<Watch>>, root: seq<int>, i: nat, j: nat)
    requires Good(s, watches, root) && i < |s.trail| && j < |s.trail| && i != j
    ensures forall a, b :: 0 <= a < |s.trail| && 0 <= b < |s.trail| && a != b ==> Var(s.trail[a]) != Var(s.trail[b])
  {
    forall a, b | 0 <= a < |s.trail| && 0 <= b < |s.trail| && a != b ensures Var(s.trail[a]) != Var(s.trail[b]) {
      SameVar(s.trail[a], s.trail[b]);
      assert True(s.values, s.trail[a]) && True(s.values, s.trail[b]) && s.trail[a] != s.trail[b];
      assert s.values[Neg(s.trail[a])] == -s.values[s.trail[a]];
    }
  }

  lemma OneVariable(s: State, watches: seq<seq<Watch>>, root: seq<int>, k: nat)
    requires Good(s, watches, root) && k < |s.trail|
    ensures forall a :: 0 <= a < |s.trail| && a != k ==> Var(s.trail[a]) != Var(s.trail[k])
  {
    forall a | 0 <= a < |s.trail| && a != k ensures Var(s.trail[a]) != Var(s.trail[k]) {
      DifferentVars(s, watches, root, a, k);
    }
  }

  lemma LeadsSelf(watches: seq<seq<Watch>>, root: seq<int>, l: Lit)
    ensures Leads(watches, root, l, l)
  {
  }

  lemma LeadsStep(watches: seq<seq<Watch>>, root: seq<int>, k: Lit, l: Lit, x: Lit)
    requires Edge(watches, k, l) && Leads(watches, root, l, x)
    ensures Leads(watches, root, k, x)
  {
  }

  lemma Parent(s: State, watches: seq<seq<Watch>>, root: seq<int>, saved: nat, t: nat) returns (k: nat)
    requires Good(s, watches, root) && TreeFrom(s, watches, saved) && saved < t < |s.trail|
    ensures saved <= k < t && Var(s.trail[t]) < |s.reasons| && s.reasons[Var(s.trail[t])] == s.trail[k]
    ensures Edge(watches, s.trail[k], s.trail[t])
    ensures forall a :: 0 <= a < t && Var(s.trail[a]) == Var(s.trail[k]) ==> a == k
  {
    assert HasParent(s, watches, saved, t) && True(s.values, s.trail[t]);
    k :| saved <= k < t && Reason(s, s.trail[t]) == s.trail[k] && Edge(watches, s.trail[k], s.trail[t]);
    OneVariable(s, watches, root, k);
  }

  /** The literals of the trail from p on have lost their values. */
  ghost predicate Undone(s: State, watches: seq<seq<Watch>>, root: seq<int>, values: seq<int>, p: nat) {
    && p <= |s.trail| && Good(s.(values := values, trail := s.trail[..p], propagate := 0), watches, root)
    && forall l: nat :: True(values, l) ==> True(s.values, l)
  }

  lemma UndoStart(s: State, watches: seq<seq<Watch>>, root: seq<int>)
    requires Good(s, watches, root)
    ensures Undone(s, watches, root, s.values, |s.trail|)
  {
    assert s.trail[..|s.trail|] == s.trail;
  }

  lemma UndoValues(values: seq<int>, lit: Lit)
    requires ValuesOK(values) && True(values, lit)
    ensures Neg(lit) < |values| && Neg(lit) != lit && ValuesOK(values[lit := 0][Neg(lit) := 0])
    ensures forall k: nat :: True(values[lit := 0][Neg(lit) := 0], k) <==> True(values, k) && k != lit
  {
    assert values[Neg(lit)] == -values[lit];
    var values' := values[lit := 0][Neg(lit) := 0];
    forall k: nat {:trigger Neg(k)} | k < |values| ensures Neg(k) < |values| && values'[Neg(k)] == -values'[k] {
      SameVar(k, lit);
      SameVar(lit, k);
    }
  }

  lemma UndoStep(s: State, watches: seq<seq<Watch>>, root: seq<int>, values: seq<int>, p: nat)
    requires Good(s, watches, root) && p < |s.trail| && Undone(s, watches, root, values, p + 1)
    ensures s.trail[p] < |values| && Neg(s.trail[p]) < |values|
    ensures Undone(s, watches, root, values[s.trail[p] := 0][Neg(s.trail[p]) := 0], p)
  {
    hide ValuesOK, True;
    var lit := s.trail[p];
    var trail := s.trail[..p + 1];
    assert trail[p] == lit && trail[..p] == s.trail[..p] && trail == s.trail[..p] + [lit];
    assert True(values, lit);
    UndoValues(values, lit);
    var values' := values[lit := 0][Neg(lit) := 0];
    forall l: nat ensures True(values', l) <==> l in s.trail[..p] || True(root, l) {
      assert True(values, l) <==> l in trail || True(root, l);
      assert l in trail <==> l in s.trail[..p] || l == lit;
      assert lit !in s.trail[..p] && !True(root, lit);
    }
  }

  lemma UndoEnd(s: State, watches: seq<seq<Watch>>, root: seq<int>, values: seq<int>, saved: nat, level: nat)
    requires Undone(s, watches, root, values, saved) && PrefixClosed(s, watches, root, saved) && Good(s, watches, root)
    requires forall i :: 0 <= i < saved && (level == 0 || LevelOf(s, s.trail[i]) == 0) ==>
                         Known(watches, root, s.units, s.trail[i])
    ensures var s' := s.(values := values, trail := s.trail[..saved], level := level, propagate := saved);
            Quiet(s', watches, root) && forall k: nat :: True(values, k) <==> k in s'.trail || True(root, k)
  {
    hide Edge, Known;
    var s' := s.(values := values, trail := s.trail[..saved], level := level, propagate := saved);
    forall i: nat, o: nat | i < saved && Edge(watches, s'.trail[i], o) ensures True(s'.values, o) {
      assert s'.trail[i] == s.trail[i];
    }
  }

  /** What the first literals of the trail imply is among them. */
  ghost predicate PrefixClosed(s: State, watches: seq<seq<Watch>>, root: seq<int>, saved: nat) {
    saved <= |s.trail| &&
    forall i: nat, o: nat :: i < saved && Edge(watches, s.trail[i], o) ==> o in s.trail[..saved] || True(root, o)
  }

  lemma BackPrefix(s0: State, s: State, watches: seq<seq<Watch>>, root: seq<int>, saved: nat)
    requires Quiet(s0, watches, root) && ZeroOK(s, watches, root) && s0.trail <= s.trail && saved == |s0.trail|
    requires s.units == s0.units
    ensures PrefixClosed(s, watches, root, saved)
    ensures forall i :: 0 <= i < saved && (s0.level == 0 || LevelOf(s, s.trail[i]) == 0) ==>
                        Known(watches, root, s.units, s.trail[i])
  {
    hide Edge, Known;
    assert s.trail[..saved] == s0.trail;
    forall i: nat, o: nat | i < saved && Edge(watches, s.trail[i], o) ensures o in s.trail[..saved] || True(root, o) {
      assert s.trail[i] == s0.trail[i] && True(s0.values, o);
    }
    forall i | 0 <= i < saved && s0.level == 0 ensures Known(watches, root, s.units, s.trail[i]) {
      assert s.trail[i] == s0.trail[i];
    }
  }

  /** A literal assigned since the trail had the given size is free again. */
  lemma FreeAgain(s: State, s': State, watches: seq<seq<Watch>>, root: seq<int>, saved: nat, l: Lit)
    requires Good(s, watches, root) && Good(s', watches, root) && saved <= |s.trail| && s'.trail == s.trail[..saved]
    requires exists i :: saved <= i < |s.trail| && s.trail[i] == l
    ensures l < |s'.values| && Neg(l) < |s'.values| && s'.values[Neg(l)] == 0 && Neg(Neg(l)) == l
  {
    var i :| saved <= i < |s.trail| && s.trail[i] == l;
    HoldsNeg(iset{}, l);
    assert True(s.values, l) && s.values[Neg(l)] == -s.values[l];
    forall j | 0 <= j < |s'.trail| ensures s'.trail[j] != l && s'.trail[j] != Neg(l) {
      assert s'.trail[j] == s.trail[j] && True(s.values, s.trail[j]);
    }
    assert !True(s'.values, l) && !True(s'.values, Neg(l)) by {
      assert True(root, Neg(l)) ==> True(s.values, Neg(l));
    }
    assert s'.values[Neg(l)] == -s'.values[l];
  }

  lemma Leveled(s: State, watches: seq<seq<Watch>>, root: seq<int>)
    requires Quiet(s, watches, root)
    ensures forall level :: level == s.level || level == s.level + 1 ==>
              var s' := s.(level := level);
              Good(s', watches, root) && ZeroOK(s', watches, root) && ClosedTo(s', watches, |s.trail|)
  {
  }

  lemma StartTree(s: State, watches: seq<seq<Watch>>, l: Lit, reason: int)
    requires l < |s.values| && Neg(l) < |s.values| && Var(l) < |s.reasons| == |s.levels|
    ensures TreeFrom(Put(s, l, reason), watches, |s.trail|)
  {
  }

  lemma Still(s: State, watches: seq<seq<Watch>>, root: seq<int>, i: nat)
    requires Good(s, watches, root) && i < |s.trail|
    ensures True(s.values, s.trail[i])
  {
  }

  lemma ProbeFails(s: State, watches: seq<seq<Watch>>, root: seq<int>, saved: nat, uip: Lit)
    requires TreeFrom(s, watches, saved) && saved < |s.trail| && Entailed(watches, root, Neg(uip))
    requires exists i :: saved <= i < |s.trail| && s.trail[i] == uip
    ensures Entailed(watches, root, Neg(s.trail[saved]))
  {
    var i: nat :| saved <= i < |s.trail| && s.trail[i] == uip;
    TreeLeads(s, watches, root, saved, i);
    forall m: Model | Fits(m, watches, root) ensures Holds(m, Neg(s.trail[saved])) {
      HoldsNeg(m, uip);
      HoldsNeg(m, s.trail[saved]);
    }
  }

  /** A conflict of a literal that follows refutes the clauses. */
  lemma ForcedConflict(s: State, watches: seq<seq<Watch>>, stopEarly: bool, root: seq<int>,
                       saved: nat, lit: Lit, other: Lit)
    requires WatchesOK(watches, stopEarly) && RootClosed(watches, root) && Good(s, watches, root)
    requires ClosedTo(s, watches, saved)
    requires TreeFrom(s, watches, saved) && Violated(s, watches, saved, lit, other)
    requires saved < |s.trail| && Entailed(watches, root, s.trail[saved])
    ensures forall m: Model :: !Fits(m, watches, root)
  {
    var i: nat :| saved <= i < |s.trail| && s.trail[i] == lit;
    var j := ConflictInTree(s, watches, stopEarly, root, saved, i, other);
    TreeLeads(s, watches, root, saved, i);
    TreeLeads(s, watches, root, saved, j);
    var d := s.trail[saved];
    DominatorFails(watches, root, d, lit, other);
    forall m: Model ensures !Fits(m, watches, root) {
      HoldsNeg(m, d);
    }
  }
  lemma PropagateBound(s: State, watches: seq<seq<Watch>>, root: seq<int>)
    requires Good(s, watches, root)
    ensures s.propagate <= |s.trail|
  {
  }

  lemma GoodFacts(s: State, watches: seq<seq<Watch>>, root: seq<int>, i: nat)
    requires Good(s, watches, root) && i < |s.trail|
    ensures ValuesOK(s.values) && |s.values| == |watches| == 2 * |s.reasons| && |s.levels| == |s.reasons|
    ensures s.trail[i] < |s.values| && Neg(s.trail[i]) < |s.values| && Neg(Neg(s.trail[i])) == s.trail[i]
    ensures forall k: nat {:trigger Neg(k)} :: k < |s.values| ==> Neg(k) < |s.values|
  {
    assert True(s.values, s.trail[i]);
    HoldsNeg(iset{}, s.trail[i]);
  }

  lemma WatchEdge(watches: seq<seq<Watch>>, stopEarly: bool, l: Lit, i: nat)
    requires WatchesOK(watches, stopEarly) && Neg(l) < |watches| && i < |watches[Neg(l)]| && watches[Neg(l)][i].Binary?
    ensures Edge(watches, l, watches[Neg(l)][i].lit) && watches[Neg(l)][i].lit < |watches|
  {
  }

  lemma KnownNext(s: State, watches: seq<seq<Watch>>, root: seq<int>, i: nat, o: Lit)
    requires ZeroOK(s, watches, root) && i < |s.trail| && Edge(watches, s.trail[i], o)
    ensures s.level == 0 ==> Known(watches, root, s.units, o)
  {
    if s.level == 0 {
      EdgeKnown(watches, root, s.units, s.trail[i], o);
    }
  }

  lemma NewTrue(s: State, watches: seq<seq<Watch>>, root: seq<int>)
    requires Good(s, watches, root) && s.trail != []
    ensures True(s.values, s.trail[|s.trail| - 1])
  {
  }

  lemma OnlyLarge(watches: seq<seq<Watch>>, stopEarly: bool, a: Lit, i: nat)
    requires WatchesOK(watches, stopEarly) && stopEarly && a < |watches| && i < |watches[a]| && watches[a][i].Large?
    ensures forall j: nat :: i <= j < |watches[a]| ==> watches[a][j].Large?
  {
  }

  /** All implied literals are true. */
  lemma LiteralClosed(s: State, watches: seq<seq<Watch>>, i: nat)
    requires ClosedTo(s, watches, i) && i < |s.trail| && Neg(s.trail[i]) < |watches|
    requires forall k :: 0 <= k < |watches[Neg(s.trail[i])]| && watches[Neg(s.trail[i])][k].Binary? ==>
                         True(s.values, watches[Neg(s.trail[i])][k].lit)
    ensures ClosedTo(s, watches, i + 1)
  {
    forall o: nat | Edge(watches, s.trail[i], o) ensures True(s.values, o) {
      var k :| 0 <= k < |watches[Neg(s.trail[i])]| && watches[Neg(s.trail[i])][k] == Binary(o);
    }
  }

  lemma ClosedPrefix(s: State, watches: seq<seq<Watch>>, p: nat, q: nat)
    requires ClosedTo(s, watches, p) && q <= p
    ensures ClosedTo(s, watches, q)
  {
  }

  lemma TrailBound(s: State, watches: seq<seq<Watch>>, root: seq<int>)
    requires Good(s, watches, root)
    ensures |s.trail| <= |s.values| == |watches|
  {
    Pigeonhole(s.trail, |s.values|);
  }

  lemma Advance(s: State, watches: seq<seq<Watch>>, root: seq<int>, saved: nat)
    requires Good(s, watches, root) && ZeroOK(s, watches, root) && TreeFrom(s, watches, saved)
    requires s.propagate < |s.trail|
    ensures var s' := s.(propagate := s.propagate + 1);
            && Good(s', watches, root) && ZeroOK(s', watches, root) && TreeFrom(s', watches, saved)
            && forall p :: ClosedTo(s, watches, p) ==> ClosedTo(s', watches, p)
  {
    var s' := s.(propagate := s.propagate + 1);
    forall i: nat | saved < i < |s'.trail| ensures HasParent(s', watches, saved, i) {
      assert HasParent(s, watches, saved, i);
      var j :| saved <= j < i && Reason(s, s.trail[i]) == s.trail[j] && Edge(watches, s.trail[j], s.trail[i]);
      assert Reason(s', s'.trail[i]) == s'.trail[j];
    }
  }
}
