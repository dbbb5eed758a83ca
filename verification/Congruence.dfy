/**
  Congruence closure (congruence.c): units, merged literals and gates.  Every unit learned, every
  merge and every gate is a consequence of the clauses the closure started with.
 */
module Congruence {
  import opened Literals
  import opened GateTable
  import opened GateMeaning
  import opened GateFunctions
  import opened RootValues
  import opened Sorting
  import opened Sequences
  import X = Xor

  /** The closure without its gates: root-level values, representatives and the work left. */
  datatype State = State(values: seq<int>, repr: seq<Lit>, clauses: seq<seq<Lit>>, occurrences: seq<seq<nat>>,
                         schedule: seq<Lit>, scheduled: seq<bool>, trail: seq<Lit>, units: nat, inconsistent: bool)

  // ------------------------------------------------------------------ values and representatives

  /** Representatives are smaller, and symmetric under negation. */
  ghost predicate ReprOK(repr: seq<Lit>) {
    && |repr| % 2 == 0
    && (forall l: nat :: l < |repr| ==> repr[l] <= l)
    && (forall l: nat :: Symmetric(repr, l))
    && (forall l: nat :: l < |repr| && repr[l] != l ==> Var(repr[l]) != Var(l))
  }

  ghost predicate Symmetric(repr: seq<Lit>, l: nat) {
    l < |repr| ==> Neg(l) < |repr| && repr[Neg(l)] == Neg(repr[l])
  }

  function Root(repr: seq<Lit>, l: Lit): Lit
    requires forall k: nat :: k < |repr| ==> repr[k] <= k
    requires l < |repr|
    decreases l
  {
    if repr[l] == l then l else Root(repr, repr[l])
  }

  ghost predicate MergesHold(m: Model, repr: seq<Lit>) {
    forall l: nat :: l < |repr| ==> Holds(m, l) == Holds(m, repr[l])
  }

  lemma {:induction false} RootFacts(repr: seq<Lit>, l: Lit)
    requires ReprOK(repr) && l < |repr|
    ensures Root(repr, l) <= l && repr[Root(repr, l)] == Root(repr, l)
    ensures Neg(l) < |repr| && Root(repr, Neg(l)) == Neg(Root(repr, l))
    ensures repr[l] != l ==> Var(Root(repr, l)) < Var(l)
    decreases l
  {
    assert Symmetric(repr, l);
    if repr[l] != l {
      RootFacts(repr, repr[l]);
      SameVar(l, l);
      SameVar(repr[l], repr[l]);
    }
  }

  lemma {:induction false} RootHolds(m: Model, repr: seq<Lit>, l: Lit)
    requires ReprOK(repr) && l < |repr| && MergesHold(m, repr)
    ensures Holds(m, Root(repr, l)) == Holds(m, l)
    decreases l
  {
    if repr[l] != l {
      RootHolds(m, repr, repr[l]);
    }
  }

  // ------------------------------------------------------------------ what always holds

  /** Everything known is true in m. */
  ghost predicate ModelOf(m: Model, s: State) {
    !s.inconsistent && ValuesHold(m, s.values) && MergesHold(m, s.repr) && AllSat(m, s.clauses)
  }

  ghost predicate Base(s: State, ms: iset<Model>) {
    && ValuesOK(s.values) && ReprOK(s.repr) && |s.repr| == |s.values| == |s.occurrences| == 2 * |s.scheduled|
    && (forall l :: l in s.schedule ==> l < |s.values| && s.repr[l] != l)
    && (forall l :: l in s.trail ==> True(s.values, l)) && s.units <= |s.trail|
    && (forall c, l :: c in s.clauses && l in c ==> l < |s.values|)
    && (forall m :: m in ms ==> ModelOf(m, s))
  }

  /** Literals in range; no input is repeated, those of XOR are positive, and those of ITE have three variables. */
  ghost predicate GateOK(g: Gate, n: nat) {
    && g.lhs < n && (forall l :: l in g.rhs ==> l < n)
    && (g.tag == Xor ==> forall l :: l in g.rhs ==> l % 2 == 0)
    && (if g.tag == Ite then |g.rhs| == 3 && ThreeVars(g.rhs) else Distinct(g.rhs))
  }

  ghost predicate ThreeVars(c: seq<Lit>) {
    |c| == 3 && Var(c[0]) != Var(c[1]) && Var(c[0]) != Var(c[2]) && Var(c[1]) != Var(c[2])
  }

  ghost predicate GateSound(g: Gate, n: nat, ms: iset<Model>) {
    g.garbage || (GateOK(g, n) && forall m :: m in ms ==> GateHolds(m, g))
  }

  ghost predicate GatesOK(gates: seq<Gate>, n: nat, ms: iset<Model>) {
    forall g :: 0 <= g < |gates| ==> GateSound(gates[g], n, ms)
  }

  ghost predicate HasVar(c: seq<Lit>, v: nat) {
    exists l :: l in c && Var(l) == v
  }

  /** A live ITE gate is listed for its variables only; variable except is being replaced. */
  ghost predicate Listed(g: Gate, l: Lit, except: int) {
    g.garbage || g.tag != Ite || Var(l) == except || HasVar(g.rhs, Var(l))
  }

  ghost predicate OccurrencesOK(occurrences: seq<seq<nat>>, gates: seq<Gate>, except: int) {
    forall l: nat, i: nat :: l < |occurrences| && i < |occurrences[l]| ==>
      occurrences[l][i] < |gates| && Listed(gates[occurrences[l][i]], l, except)
  }

  /** Merged literals never become roots again, and stay equal. */
  ghost predicate StayMerged(repr: seq<Lit>, repr': seq<Lit>) {
    && |repr'| == |repr| && (forall l: nat :: l < |repr| && repr[l] != l ==> repr'[l] != l)
    && forall m: Model :: MergesHold(m, repr') ==> MergesHold(m, repr)
  }

  /** What is known only grows. */
  ghost predicate Grown(s: State, s': State) {
    && |s'.values| == |s.values| && s'.occurrences == s.occurrences
    && (forall l: nat :: l < |s.values| && s.values[l] != 0 ==> s'.values[l] == s.values[l])
    && (s.inconsistent ==> s'.inconsistent) && Work(s') <= Work(s) && Todo(s') <= Todo(s) && s'.units == s.units
    && s.trail <= s'.trail && StayMerged(s.repr, s'.repr)
  }

  /** The variables without a value and those on the trail: a bound for the units to come. */
  ghost function Work(s: State): nat {
    CountZeros(s.values) + |s.trail|
  }

  /** The literals that represent themselves and those scheduled: a bound for the equivalences to come. */
  ghost function Todo(s: State): nat {
    Roots(s.repr) + |s.schedule|
  }

  ghost function Roots(repr: seq<Lit>): nat {
    if repr == [] then 0
    else
      var n := |repr| - 1;
      Roots(repr[..n]) + if repr[n] == n then 1 else 0
  }

  lemma {:induction false} RootsUpdate(repr: seq<Lit>, l: Lit, r: Lit)
    requires l < |repr| && r != l
    ensures Roots(repr[l := r]) == Roots(repr) - if repr[l] == l then 1 else 0
  {
    var n := |repr| - 1;
    if l == n {
      assert repr[l := r][..n] == repr[..n];
    } else {
      RootsUpdate(repr[..n], l, r);
      assert repr[l := r][..n] == repr[..n][l := r];
    }
  }

  /** A merge takes away two roots, more than it schedules. */
  lemma JoinedRoots(repr: seq<Lit>, smaller: Lit, larger: Lit)
    requires ReprOK(repr) && smaller < larger < |repr| && Var(smaller) != Var(larger) && repr[larger] == larger
    ensures Neg(larger) < |repr| && Roots(Joined(repr, smaller, larger)) == Roots(repr) - 2
  {
    assert Symmetric(repr, larger);
    SameVar(larger, larger);
    NegOrder(smaller, larger);
    RootsUpdate(repr, larger, smaller);
    RootsUpdate(repr[larger := smaller], Neg(larger), Neg(smaller));
  }

  /** l holds in all models. */
  ghost predicate Follows(ms: iset<Model>, l: Lit) {
    forall m :: m in ms ==> Holds(m, l)
  }

  ghost predicate Equivalent(ms: iset<Model>, k: Lit, l: Lit) {
    forall m :: m in ms ==> Holds(m, k) == Holds(m, l)
  }

  // ------------------------------------------------------------------ units

  lemma AssignKeeps(s: State, ms: iset<Model>, l: Lit)
    requires Base(s, ms) && l < |s.values| && s.values[l] == 0 && Follows(ms, l)
    ensures Neg(l) < |s.values|
    ensures var s' := s.(values := Set(s.values, l), trail := s.trail + [l]);
            Base(s', ms) && Grown(s, s') && True(s'.values, l)
    ensures CountZeros(Set(s.values, l)) < CountZeros(s.values)
  {
    SetOK(s.values, l);
    AssignZeros(s.values, l);
    SetGrows(s.values, l);
    hide Set, ValuesOK, ReprOK, ValuesHold, MergesHold, CountZeros;
    var s' := s.(values := Set(s.values, l), trail := s.trail + [l]);
    forall m | m in ms ensures ModelOf(m, s') {
      assert ModelOf(m, s) && Holds(m, l);
      SetHolds(m, s.values, l);
    }
  }

  lemma AssignZeros(values: seq<int>, l: Lit)
    requires l < |values| && Neg(l) < |values| && Neg(l) != l && values[l] == 0
    ensures CountZeros(Set(values, l)) < CountZeros(values)
  {
    ZerosUpdate(values, l, 1);
    ZerosUpdate(values[l := 1], Neg(l), -1);
  }

  function CountZeros(values: seq<int>): nat {
    if values == [] then 0 else CountZeros(values[..|values| - 1]) + if values[|values| - 1] == 0 then 1 else 0
  }

  lemma {:induction false} ZerosUpdate(values: seq<int>, l: nat, v: int)
    requires l < |values| && v != 0
    ensures CountZeros(values[l := v]) == CountZeros(values) - if values[l] == 0 then 1 else 0
  {
    var n := |values| - 1;
    if l == n {
      assert values[l := v][..n] == values[..n];
    } else {
      ZerosUpdate(values[..n], l, v);
      assert values[l := v][..n] == values[..n][l := v];
    }
  }

  datatype Status = Quiet | Conflict | Unit(lit: Lit)

  /** The status of a clause under the values. */
  ghost predicate HasStatus(values: seq<int>, c: seq<Lit>, r: Status) {
    match r
    case Conflict => forall l :: l in c ==> False(values, l)
    case Unit(u) => u in c && Free(values, u) && forall l :: l in c ==> l == u || False(values, l)
    case Quiet => (exists l :: l in c && True(values, l)) ||
                  (exists k, l :: k in c && l in c && k != l && Free(values, k) && Free(values, l))
  }

  lemma UnitFollows(s: State, ms: iset<Model>, c: seq<Lit>, r: Status)
    requires Base(s, ms) && c in s.clauses && HasStatus(s.values, c, r)
    ensures r.Unit? ==> Follows(ms, r.lit)
    ensures r.Conflict? ==> Base(s.(inconsistent := true), ms)
  {
    forall m | m in ms ensures !r.Conflict? && (r.Unit? ==> Holds(m, r.lit)) {
      assert ModelOf(m, s);
      var l :| l in c && Holds(m, l);
      assert !False(s.values, l);
    }
  }

  // ------------------------------------------------------------------ merging

  function Joined(repr: seq<Lit>, smaller: Lit, larger: Lit): seq<Lit>
    requires larger < |repr| && Neg(larger) < |repr|
  {
    repr[larger := smaller][Neg(larger) := Neg(smaller)]
  }

  lemma JoinedOK(repr: seq<Lit>, smaller: Lit, larger: Lit)
    requires ReprOK(repr) && smaller < larger < |repr| && Var(smaller) != Var(larger)
    ensures Neg(larger) < |repr| && ReprOK(Joined(repr, smaller, larger))
  {
    var repr' := Joined(repr, smaller, larger);
    forall k: nat | k < |repr| ensures repr'[k] <= k {
      NegOrder(smaller, larger);
    }
    forall k: nat ensures Symmetric(repr', k) {
      assert Symmetric(repr, k);
      if k < |repr| {
        JoinedAt(repr, smaller, larger, k);
      }
    }
  }

  lemma JoinedAt(repr: seq<Lit>, smaller: Lit, larger: Lit, k: Lit)
    requires smaller < larger < |repr| && Var(smaller) != Var(larger) && Neg(larger) < |repr|
    requires k < |repr| && Neg(k) < |repr| && repr[k] <= k && repr[Neg(k)] == Neg(repr[k])
    ensures |Joined(repr, smaller, larger)| == |repr|
    ensures Joined(repr, smaller, larger)[k] <= k
    ensures Joined(repr, smaller, larger)[Neg(k)] == Neg(Joined(repr, smaller, larger)[k])
  {
    NegOrder(smaller, larger);
    SameVar(k, larger);
    SameVar(larger, k);
    SameVar(smaller, smaller);
  }

  lemma NegOrder(smaller: Lit, larger: Lit)
    requires smaller < larger && Var(smaller) != Var(larger)
    ensures Neg(smaller) < Neg(larger)
  {
  }

  lemma JoinedHolds(m: Model, repr: seq<Lit>, smaller: Lit, larger: Lit)
    requires MergesHold(m, repr) && larger < |repr| && Neg(larger) < |repr| && Holds(m, smaller) == Holds(m, larger)
    ensures MergesHold(m, Joined(repr, smaller, larger))
  {
    HoldsNeg(m, smaller);
    HoldsNeg(m, larger);
  }

  lemma JoinedMore(repr: seq<Lit>, smaller: Lit, larger: Lit)
    requires ReprOK(repr) && smaller < larger < |repr| && Var(smaller) != Var(larger) && repr[larger] == larger
    ensures Neg(larger) < |repr|
    ensures forall m: Model :: MergesHold(m, Joined(repr, smaller, larger)) ==> MergesHold(m, repr)
  {
    assert Symmetric(repr, larger);
    forall m: Model | MergesHold(m, Joined(repr, smaller, larger)) ensures MergesHold(m, repr) {
      forall l: nat | l < |repr| ensures Holds(m, l) == Holds(m, repr[l]) {
        if l != larger && l != Neg(larger) {
          assert Joined(repr, smaller, larger)[l] == repr[l];
        }
      }
    }
  }

  lemma MergeKeeps(s: State, ms: iset<Model>, smaller: Lit, larger: Lit)
    requires Base(s, ms) && smaller < larger < |s.repr| && Var(smaller) != Var(larger)
    requires Equivalent(ms, smaller, larger)
    requires s.repr[larger] == larger
    ensures Neg(larger) < |s.repr|
    ensures var s' := s.(repr := Joined(s.repr, smaller, larger));
            Base(s', ms) && Grown(s, s') && Todo(s') + 2 == Todo(s)
  {
    JoinedMore(s.repr, smaller, larger);
    JoinedRoots(s.repr, smaller, larger);
    JoinedOK(s.repr, smaller, larger);
    hide ValuesOK, ReprOK, ValuesHold, MergesHold, Roots;
    var s' := s.(repr := Joined(s.repr, smaller, larger));
    forall m | m in ms ensures ModelOf(m, s') {
      assert ModelOf(m, s);
      JoinedHolds(m, s.repr, smaller, larger);
    }
  }

  /** After merging, the two roots have become one. */
  lemma {:induction false} MergedRoot(repr: seq<Lit>, smaller: Lit, larger: Lit, l: Lit)
    requires ReprOK(repr) && smaller < larger < |repr| && repr[smaller] == smaller && repr[larger] == larger
    requires Var(smaller) != Var(larger) && l < |repr| && Neg(larger) < |repr|
    requires ReprOK(Joined(repr, smaller, larger))
    ensures var repr' := Joined(repr, smaller, larger); var r := Root(repr, l);
            Root(repr', l) == if r == larger then smaller else if r == Neg(larger) then Neg(smaller) else r
    decreases l
  {
    var repr' := Joined(repr, smaller, larger);
    SameVar(smaller, larger);
    SameVar(larger, larger);
    SameVar(smaller, smaller);
    assert Symmetric(repr, larger) && Symmetric(repr, smaller);
    assert repr'[smaller] == smaller && repr'[Neg(smaller)] == Neg(smaller);
    if repr[l] != l {
      assert l != larger && l != Neg(larger);
      MergedRoot(repr, smaller, larger, repr[l]);
    } else if l == larger {
      assert Root(repr', smaller) == smaller;
    } else if l == Neg(larger) {
      assert Root(repr', Neg(smaller)) == Neg(smaller);
    }
  }

  /** The binary clause is present or trivially true. */
  ghost predicate BinaryKnown(s: State, a: Lit, b: Lit) {
    [a, b] in s.clauses || a == Neg(b) || True(s.values, a) || True(s.values, b)
  }

  // ------------------------------------------------------------------ what is still to be done

  ghost predicate OnTrail(s: State, v: nat) {
    exists k :: 0 <= k < |s.trail| && Var(s.trail[k]) == v
  }

  ghost predicate Waiting(s: State, v: nat) {
    exists k :: 0 <= k < |s.schedule| && Var(s.schedule[k]) == v
  }

  /** Values are on the trail, merged variables wait or are done, and merges are among the clauses. */
  ghost predicate Loose(s: State, done: set<nat>, e: int) {
    && (forall l: nat :: l < |s.values| && s.values[l] != 0 ==> OnTrail(s, Var(l)))
    && (forall l: nat :: l < |s.repr| && s.repr[l] != l ==> Var(l) in done || Var(l) == e || Waiting(s, Var(l)))
    && (forall v: nat :: v < |s.scheduled| && s.scheduled[v] ==> Waiting(s, v))
    && (forall l: nat :: l < |s.repr| && s.repr[l] != l ==> [Neg(l), s.repr[l]] in s.clauses)
    && (forall v :: v in done ==> Processed(s, v))
  }

  ghost predicate Processed(s: State, v: nat) {
    2 * v < |s.values| == |s.repr| && (s.values[2 * v] != 0 || s.repr[2 * v] != 2 * v)
  }

  /** Merged literals have the same value. */
  ghost predicate Agree(s: State) {
    |s.repr| == |s.values| &&
        forall l: nat :: l < |s.repr| ==> s.repr[l] < |s.values| && s.values[l] == s.values[s.repr[l]]
  }

  /** Everything that gates may still have to be told is on the trail or scheduled; variable e is being handled. */
  ghost predicate Tidy(s: State, done: set<nat>, e: int) {
    s.inconsistent || (Loose(s, done, e) && Agree(s))
  }

  lemma AssignLoose(s: State, ms: iset<Model>, done: set<nat>, l: Lit)
    requires Base(s, ms) && l < |s.values| && s.values[l] == 0
    ensures Neg(l) < |s.values|
    ensures var s' := s.(values := Set(s.values, l), trail := s.trail + [l]);
            forall e :: Loose(s, done, e) ==> Loose(s', done, e)
  {
    SetOK(s.values, l);
    SetGrows(s.values, l);
    var s' := s.(values := Set(s.values, l), trail := s.trail + [l]);
    SameVar(l, Neg(l));
    forall e | Loose(s, done, e) ensures Loose(s', done, e) {
      forall k: nat | k < |s'.values| && s'.values[k] != 0 ensures OnTrail(s', Var(k)) {
        if k == l || k == Neg(l) {
          assert s'.trail[|s.trail|] == l;
        } else {
          assert OnTrail(s, Var(k));
          var i :| 0 <= i < |s.trail| && Var(s.trail[i]) == Var(k);
          assert s'.trail[i] == s.trail[i];
        }
      }
      forall v | v in done ensures Processed(s', v) {
        assert Processed(s, v);
      }
      assert forall v: nat :: Waiting(s, v) ==> Waiting(s', v);
    }
  }

  /** Once all clauses are quiet, the two binary clauses of a merge make the values agree. */
  lemma QuietAgree(s: State, ms: iset<Model>, done: set<nat>, e: int)
    requires Base(s, ms) && Loose(s, done, e) && forall d :: d in s.clauses ==> HasStatus(s.values, d, Quiet)
    ensures Agree(s)
  {
    hide HasStatus, ModelOf;
    forall l: nat | l < |s.repr| ensures s.repr[l] < |s.values| && s.values[l] == s.values[s.repr[l]] {
      var r := s.repr[l];
      if r != l {
        assert Symmetric(s.repr, l);
        SameVar(l, r);
        SameVar(r, l);
        assert s.repr[Neg(l)] == Neg(r) && Neg(Neg(l)) == l;
        QuietBinary(s.values, Neg(l), r);
        QuietBinary(s.values, l, Neg(r));
      }
    }
  }

  lemma QuietBinary(values: seq<int>, a: Lit, b: Lit)
    requires ValuesOK(values) && HasStatus(values, [a, b], Quiet) && a < |values| && b < |values|
    ensures values[a] < 0 ==> values[b] > 0
    ensures values[b] < 0 ==> values[a] > 0
  {
  }

  lemma TidyOccurrences(s: State, s': State, done: set<nat>)
    requires s' == s.(occurrences := s'.occurrences)
    ensures forall e :: Tidy(s, done, e) ==> Tidy(s', done, e)
  {
    forall e | Tidy(s, done, e) ensures Tidy(s', done, e) {
      assert forall v: nat :: (OnTrail(s, v) ==> OnTrail(s', v)) && (Waiting(s, v) ==> Waiting(s', v));
      assert forall v: nat :: Processed(s, v) ==> Processed(s', v);
    }
  }

  lemma ClausesTidy(s: State, done: set<nat>, c: seq<Lit>)
    ensures forall e :: Tidy(s, done, e) ==> Tidy(s.(clauses := s.clauses + [c]), done, e)
  {
    var s' := s.(clauses := s.clauses + [c]);
    forall e | Tidy(s, done, e) ensures Tidy(s', done, e) {
      assert forall v: nat :: (OnTrail(s, v) ==> OnTrail(s', v)) && (Waiting(s, v) ==> Waiting(s', v));
      assert forall v: nat :: Processed(s, v) ==> Processed(s', v);
    }
  }

  lemma {:induction false} RootAgrees(s: State, ms: iset<Model>, l: Lit)
    requires Base(s, ms) && Agree(s) && l < |s.repr|
    ensures Root(s.repr, l) < |s.values| && s.values[Root(s.repr, l)] == s.values[l]
    decreases l
  {
    if s.repr[l] != l {
      RootAgrees(s, ms, s.repr[l]);
    }
  }

  lemma NegatedValues(s: State, ms: iset<Model>, smaller: Lit, larger: Lit)
    requires Base(s, ms) && smaller < |s.values| && larger < |s.values| && Var(smaller) != Var(larger)
    ensures Neg(smaller) < |s.values| && Neg(larger) < |s.values|
    ensures s.values[Neg(smaller)] == -s.values[smaller] && s.values[Neg(larger)] == -s.values[larger]
    ensures Var(Neg(larger)) != Var(smaller) && Var(larger) != Var(Neg(smaller))
  {
    SameVar(smaller, Neg(smaller));
    SameVar(larger, Neg(larger));
  }

  /** Merging two roots without values: both binary clauses are added and the larger one waits. */
  lemma JoinTidy(s: State, ms: iset<Model>, s': State, done: set<nat>, smaller: Lit, larger: Lit)
    requires Base(s, ms) && !s.inconsistent && smaller < larger < |s.repr| && Var(smaller) != Var(larger)
    requires s.repr[smaller] == smaller && s.repr[larger] == larger && s.values[smaller] == s.values[larger] == 0
    requires Neg(larger) < |s.repr|
    requires s' == s.(repr := Joined(s.repr, smaller, larger), schedule := s'.schedule, scheduled := s'.scheduled,
                      clauses := s.clauses + [[Neg(larger), smaller]] + [[larger, Neg(smaller)]])
    requires s'.schedule == if s.scheduled[Var(larger)] then s.schedule else s.schedule + [larger]
    requires s'.scheduled == s.scheduled[Var(larger) := true]
    ensures forall e :: Tidy(s, done, e) ==> Tidy(s', done, e)
  {
    NegatedValues(s, ms, smaller, larger);
    forall e | Tidy(s, done, e) ensures Tidy(s', done, e) {
      JoinWaits(s, s', done, e, smaller, larger);
      JoinClauses(s, s', done, e, smaller, larger);
      JoinValues(s, s', done, e, smaller, larger);
    }
  }

  lemma JoinClauses(s: State, s': State, done: set<nat>, e: int, smaller: Lit, larger: Lit)
    requires Loose(s, done, e) && smaller < larger < |s.repr| && Neg(larger) < |s.repr|
    requires s'.repr == Joined(s.repr, smaller, larger)
    requires s'.clauses == s.clauses + [[Neg(larger), smaller]] + [[larger, Neg(smaller)]]
    ensures forall l: nat :: l < |s'.repr| && s'.repr[l] != l ==> [Neg(l), s'.repr[l]] in s'.clauses
  {
    SameVar(larger, Neg(larger));
    SameVar(Neg(larger), larger);
    assert s'.clauses[|s.clauses|] == [Neg(larger), smaller];
    assert s'.clauses[|s.clauses| + 1] == [larger, Neg(smaller)];
    forall l: nat | l < |s'.repr| && s'.repr[l] != l && l != larger && l != Neg(larger)
      ensures [Neg(l), s'.repr[l]] in s'.clauses {
      assert [Neg(l), s.repr[l]] in s.clauses;
    }
  }

  lemma JoinValues(s: State, s': State, done: set<nat>, e: int, smaller: Lit, larger: Lit)
    requires Loose(s, done, e) && Agree(s) && smaller < larger < |s.repr| && Neg(larger) < |s.repr|
    requires Neg(smaller) < |s.repr| && s.values[smaller] == s.values[larger] == 0
    requires s.values[Neg(smaller)] == s.values[Neg(larger)] == 0
    requires s'.repr == Joined(s.repr, smaller, larger) && s'.values == s.values && s'.trail == s.trail
    requires Var(smaller) != Var(larger)
    ensures forall v :: v in done ==> Processed(s', v)
    ensures (forall l: nat :: l < |s'.values| && s'.values[l] != 0 ==> OnTrail(s', Var(l))) && Agree(s')
  {
    SameVar(smaller, larger);
    SameVar(larger, smaller);
    forall v | v in done ensures Processed(s', v) {
      assert Processed(s, v);
    }
    forall l: nat | l < |s'.values| && s'.values[l] != 0 ensures OnTrail(s', Var(l)) {
      assert OnTrail(s, Var(l));
    }
    forall l: nat | l < |s'.repr| ensures s'.repr[l] < |s'.values| && s'.values[l] == s'.values[s'.repr[l]] {
      assert s.values[l] == s.values[s.repr[l]];
    }
  }

  lemma JoinWaits(s: State, s': State, done: set<nat>, e: int, smaller: Lit, larger: Lit)
    requires Loose(s, done, e) && smaller < larger < |s.repr| && Neg(larger) < |s.repr| && Var(larger) < |s.scheduled|
    requires s'.repr == Joined(s.repr, smaller, larger)
    requires s'.schedule == if s.scheduled[Var(larger)] then s.schedule else s.schedule + [larger]
    requires s'.scheduled == s.scheduled[Var(larger) := true]
    ensures forall v: nat :: v < |s'.scheduled| && s'.scheduled[v] ==> Waiting(s', v)
    ensures forall l: nat :: l < |s'.repr| && s'.repr[l] != l ==>
              Var(l) in done || Var(l) == e || Waiting(s', Var(l))
  {
    forall v: nat | Waiting(s, v) ensures Waiting(s', v) {
      var k :| 0 <= k < |s.schedule| && Var(s.schedule[k]) == v;
      assert s'.schedule[k] == s.schedule[k];
    }
    assert Waiting(s', Var(larger)) by {
      if !s.scheduled[Var(larger)] {
        assert s'.schedule[|s.schedule|] == larger;
      }
    }
    SameVar(larger, Neg(larger));
  }

  // ------------------------------------------------------------------ gates in order

  /** An input that is not done, and for which the gate is listed. */
  ghost predicate InputOK(s: State, done: set<nat>, g: nat, l: Lit) {
    Var(l) !in done && l < |s.occurrences| && g in s.occurrences[l]
  }

  /** The inputs of all gates are fine, but for gate x, or its input y alone. */
  ghost predicate InputsOK(s: State, gates: seq<Gate>, done: set<nat>, x: int, y: int) {
    forall g: nat, l: Lit | g < |gates| && !gates[g].garbage && l in gates[g].rhs && !(g == x && (y < 0 || l == y)) ::
      InputOK(s, done, g, l)
  }

  /** All gates but z are in normal form and in the table under their hash values, and no two of them are alike. */
  ghost predicate Unlike(gates: seq<Gate>, hashOf: (Tag, seq<Lit>) -> nat, z: int) {
    && (forall g :: 0 <= g < |gates| && !gates[g].garbage && g != z ==>
          gates[g].indexed && gates[g].hash == hashOf(gates[g].tag, gates[g].rhs) && Shaped(gates[g]))
    && (forall g, h | 0 <= g < |gates| && 0 <= h < |gates| && g != h && g != z && h != z &&
                      !gates[g].garbage && !gates[h].garbage :: !SameFunction(gates[g], gates[h]))
  }

  ghost predicate Order(s: State, gates: seq<Gate>, done: set<nat>, hashOf: (Tag, seq<Lit>) -> nat,
                        x: int, y: int, z: int) {
    s.inconsistent || (InputsOK(s, gates, done, x, y) && Unlike(gates, hashOf, z))
  }

  /** Only gate g and hash values and index flags may have changed. */
  ghost predicate OthersKept(gates: seq<Gate>, gates': seq<Gate>, g: nat) {
    |gates'| == |gates| && forall h :: 0 <= h < |gates| && h != g ==>
      gates'[h] == gates[h].(hash := gates'[h].hash, indexed := gates'[h].indexed)
  }

  lemma OthersRefl(gates: seq<Gate>, g: nat)
    ensures OthersKept(gates, gates, g)
  {
  }

  lemma OthersTrans(gates: seq<Gate>, gates1: seq<Gate>, gates2: seq<Gate>, g: nat)
    requires OthersKept(gates, gates1, g) && OthersKept(gates1, gates2, g)
    ensures OthersKept(gates, gates2, g)
  {
  }

  lemma ReindexedOthers(gates: seq<Gate>, gates': seq<Gate>, g: nat)
    requires Reindexed(gates, gates')
    ensures OthersKept(gates, gates', g)
  {
  }

  lemma OrderWeaker(s: State, gates: seq<Gate>, done: set<nat>, hashOf: (Tag, seq<Lit>) -> nat, g: nat)
    requires Order(s, gates, done, hashOf, -1, -1, -1)
    ensures forall y :: Order(s, gates, done, hashOf, g, y, -1) && Order(s, gates, done, hashOf, g, y, g)
  {
  }

  lemma OrderWritten(s: State, gates: seq<Gate>, done: set<nat>, hashOf: (Tag, seq<Lit>) -> nat, g: nat, gate: Gate)
    requires Order(s, gates, done, hashOf, g, -1, g) && g < |gates|
    ensures Order(s, gates[g := gate], done, hashOf, g, -1, g)
    ensures gate.garbage ==> Order(s, gates[g := gate], done, hashOf, -1, -1, -1)
  {
  }

  /** Units and merges leave the gates in order. */
  lemma OrderGrown(s: State, s': State, gates: seq<Gate>, done: set<nat>, hashOf: (Tag, seq<Lit>) -> nat)
    requires Grown(s, s')
    ensures forall x, y, z :: Order(s, gates, done, hashOf, x, y, z) ==> Order(s', gates, done, hashOf, x, y, z)
  {
    forall x, y, z | Order(s, gates, done, hashOf, x, y, z) ensures Order(s', gates, done, hashOf, x, y, z) {
      assert forall g: nat, l: Lit :: InputOK(s, done, g, l) ==> InputOK(s', done, g, l);
    }
  }

  lemma OrderAdvanced(s: State, s': State, gates: seq<Gate>, done: set<nat>, hashOf: (Tag, seq<Lit>) -> nat, e: int)
    requires Advanced(s, s', e)
    ensures forall x, y, z :: Order(s, gates, done, hashOf, x, y, z) ==> Order(s', gates, done, hashOf, x, y, z)
    ensures forall g: nat, l: Lit :: InputOK(s, done, g, l) ==> InputOK(s', done, g, l)
  {
    forall x, y, z | Order(s, gates, done, hashOf, x, y, z) ensures Order(s', gates, done, hashOf, x, y, z) {
      assert forall g: nat, l: Lit :: InputOK(s, done, g, l) ==> InputOK(s', done, g, l);
    }
  }

  /** Looking for a gate only removes garbage from the table. */
  lemma OrderSwept(s: State, t: Table, t': Table, done: set<nat>, hashOf: (Tag, seq<Lit>) -> nat)
    requires Swept(t, t')
    ensures forall x, y, z :: Order(s, t.gates, done, hashOf, x, y, z) ==> Order(s, t'.gates, done, hashOf, x, y, z)
  {
    assert forall g :: 0 <= g < |t.gates| && !t.gates[g].garbage ==> t'.gates[g] == t.gates[g];
    assert forall g :: 0 <= g < |t.gates| ==> t'.gates[g].garbage == t.gates[g].garbage;
  }

  /** A gate that is in the table and unlike all others is in order there. */
  lemma OrderIndexed(s: State, gates: seq<Gate>, done: set<nat>, hashOf: (Tag, seq<Lit>) -> nat, g: nat)
    requires Order(s, gates, done, hashOf, g, -1, g) && g < |gates|
    requires gates[g].indexed && gates[g].hash == hashOf(gates[g].tag, gates[g].rhs) && Shaped(gates[g])
    requires forall k :: 0 <= k < |gates| && k != g && Rival(gates[k], gates[g]) ==> !SameFunction(gates[k], gates[g])
    ensures Order(s, gates, done, hashOf, g, -1, -1)
  {
    if !s.inconsistent {
      forall k | 0 <= k < |gates| && k != g && !gates[k].garbage
        ensures !SameFunction(gates[k], gates[g]) && !SameFunction(gates[g], gates[k]) {
        if SameFunction(gates[k], gates[g]) {
          assert Rival(gates[k], gates[g]);
        }
      }
    }
  }

  lemma OrderInconsistent(s: State, gates: seq<Gate>, done: set<nat>, hashOf: (Tag, seq<Lit>) -> nat)
    ensures s.inconsistent ==> forall x, y, z :: Order(s, gates, done, hashOf, x, y, z)
  {
  }

  /** Marking the gate in flux as garbage. */
  lemma OrderGarbage(s: State, gates: seq<Gate>, done: set<nat>, hashOf: (Tag, seq<Lit>) -> nat, g: nat,
                     gates0: seq<Gate>)
    requires Order(s, gates, done, hashOf, g, -1, g) && g < |gates| && OthersKept(gates0, gates, g)
    ensures var gates' := gates[g := gates[g].(garbage := true)];
            && Order(s, gates', done, hashOf, -1, -1, -1) && Order(s, gates', done, hashOf, g, -1, -1)
            && OthersKept(gates0, gates', g)
  {
    var gates' := gates[g := gates[g].(garbage := true)];
    OrderWritten(s, gates, done, hashOf, g, gates[g].(garbage := true));
    OrderWeaker(s, gates', done, hashOf, g);
  }

  /** With its inputs in order, but for y, so is the gate. */
  lemma OrderInputs(s: State, gates: seq<Gate>, done: set<nat>, hashOf: (Tag, seq<Lit>) -> nat, g: nat, y: int)
    requires Order(s, gates, done, hashOf, g, -1, -1) && g < |gates|
    requires s.inconsistent || gates[g].garbage || forall l :: l in gates[g].rhs ==> InputOK(s, done, g, l) || l == y
    ensures Order(s, gates, done, hashOf, if y < 0 then -1 else g, y, -1)
  {
  }

  /** A gate is in order if its inputs, but for y, are among those it had before. */
  lemma OrderKept(s0: State, s: State, gates0: seq<Gate>, gates: seq<Gate>, done: set<nat>,
                  hashOf: (Tag, seq<Lit>) -> nat, g: nat, y: int, e: int)
    requires Order(s0, gates0, done, hashOf, -1, -1, -1) && !s0.inconsistent && g < |gates0| && !gates0[g].garbage
    requires Advanced(s0, s, e) && Order(s, gates, done, hashOf, g, -1, -1) && |gates| == |gates0|
    requires s.inconsistent || gates[g].garbage || forall l :: l in gates[g].rhs ==> l in gates0[g].rhs || l == y
    ensures Order(s, gates, done, hashOf, if y < 0 then -1 else g, y, -1)
  {
    hide Order;
    OrderGate(s0, gates0, done, hashOf, g);
    OrderAdvanced(s0, s, gates0, done, hashOf, e);
    OrderInputs(s, gates, done, hashOf, g, y);
  }

  lemma AndInputs(s: State, gates: seq<Gate>, g: nat, gate: Gate, forced: bool)
    requires AndUpdated(s, gates, g, gate, forced) && g < |gates|
    ensures s.inconsistent || gates[g].garbage || forall l :: l in gates[g].rhs <==> l in gate.rhs
  {
    hide Sort;
    SortSorted(gate.rhs);
  }

  lemma XorInputs(s: State, gates: seq<Gate>, g: nat, gate: Gate)
    requires XorUpdated(s, gates, g, gate) && g < |gates|
    ensures s.inconsistent || gates[g].garbage || forall l :: l in gates[g].rhs <==> l in gate.rhs
  {
    hide Sort;
    SortSorted(gate.rhs);
  }

  lemma OthersWritten(gates: seq<Gate>, g: nat, gate: Gate)
    requires g < |gates|
    ensures OthersKept(gates, gates[g := gate], g)
  {
  }

  lemma SimplifiedInputs(values: seq<int>, s: State, gates: seq<Gate>, g: nat, gate: Gate, kept: seq<Lit>, forced: bool)
    requires AndSimplified(values, gate.rhs, kept, forced) && AndUpdated(s, gates, g, gate.(rhs := kept), forced)
    requires g < |gates|
    ensures s.inconsistent || gates[g].garbage || forall l :: l in gates[g].rhs ==> l in gate.rhs && Free(values, l)
  {
    AndInputs(s, gates, g, gate.(rhs := kept), forced);
  }

  lemma RewrittenInputs(values: seq<int>, s: State, gates: seq<Gate>, g: nat, gate: Gate, dst: Lit, src: Lit,
                        kept: seq<Lit>, forced: bool)
    requires AndRewritten(values, Replace(gate.rhs, src, dst), gate.lhs, dst, kept, forced) && src != dst
    requires AndUpdated(s, gates, g, gate.(rhs := kept), forced) && g < |gates|
    ensures s.inconsistent || gates[g].garbage || forall l :: l in gates[g].rhs ==>
              l == dst || (l in gate.rhs && l != src)
  {
    AndInputs(s, gates, g, gate.(rhs := kept), forced);
    if !s.inconsistent && !gates[g].garbage {
      var d := Replace(gate.rhs, src, dst);
      forall l | l in gates[g].rhs ensures l == dst || (l in gate.rhs && l != src) {
        assert l in d;
        var i :| 0 <= i < |d| && d[i] == l;
        assert gate.rhs[i] in gate.rhs;
      }
    }
  }

  lemma XorSimplifiedInputs(values: seq<int>, rhs: seq<Lit>, kept: seq<Lit>, negate: bool)
    requires XorSimplified(values, rhs, kept, negate)
    ensures forall l :: l in kept ==> l in rhs && Free(values, l)
  {
  }

  lemma XorRewrittenInputs(values: seq<int>, rhs: seq<Lit>, dst: Lit, src: Lit, kept: seq<Lit>, negate: bool)
    requires XorRewritten(values, rhs, dst, src, kept, negate)
    ensures forall l :: l in kept ==> (l in rhs || l == 2 * Var(dst)) && l != src
  {
  }

  /** Unless a negative dst has left its variable as an input, only dst itself may be missing. */
  lemma StripDst(s: State, gates: seq<Gate>, done: set<nat>, hashOf: (Tag, seq<Lit>) -> nat, g: nat, dst: Lit,
                 dstCount: nat, kept: seq<Lit>)
    requires Order(s, gates, done, hashOf, g, 2 * Var(dst), -1) && g < |gates|
    requires s.inconsistent || gates[g].garbage || forall l :: l in gates[g].rhs <==> l in kept
    requires dstCount == 1 <==> 2 * Var(dst) in kept
    ensures s.inconsistent || gates[g].garbage || dst % 2 == 0 || dstCount != 1 ==>
              Order(s, gates, done, hashOf, g, dst, -1)
  {
  }

  /** The variable of dst has been connected. */
  lemma StripConnected(s1: State, s: State, gates: seq<Gate>, done: set<nat>, hashOf: (Tag, seq<Lit>) -> nat, g: nat,
                       dst: Lit)
    requires Order(s1, gates, done, hashOf, g, 2 * Var(dst), -1) && Var(dst) !in done
    requires 2 * Var(dst) < |s1.occurrences|
    requires s == s1.(occurrences := s1.occurrences[2 * Var(dst) := s1.occurrences[2 * Var(dst)] + [g]])
    ensures Order(s, gates, done, hashOf, g, dst, -1)
  {
    forall h: nat, l: Lit | InputOK(s1, done, h, l) ensures InputOK(s, done, h, l) {
    }
    assert InputOK(s, done, g, 2 * Var(dst));
  }

  // ------------------------------------------------------------------ new inputs of ITE gates

  /** The variables of what an ITE gate becomes are not done. */
  ghost predicate VarsFresh(r: Rewritten, done: set<nat>) {
    match r
    case Equal(_) => true
    case Fixed(_) => true
    case Small(_, _, a, b) => Var(a) !in done && Var(b) !in done
    case Still(c) => |c| == 3 && Var(c[0]) !in done && Var(c[1]) !in done && Var(c[2]) !in done
  }

  lemma RewrittenParts(g: Gate, r: Rewritten, n: nat, ms: iset<Model>, e: int)
    requires RewrittenOK(g, r, n, ms, e)
    ensures match r
            case Equal(other) => other < n && Equivalent(ms, g.lhs, other)
            case Fixed(negated) => Follows(ms, if negated then Neg(g.lhs) else g.lhs)
            case Small(_, _, _, _) => true
            case Still(c) => |c| == 3
  {
    forall m | m in ms ensures Means(m, g.lhs, r) {
      HoldsNeg(m, g.lhs);
    }
    HoldsNeg(iset{}, g.lhs);
  }

  lemma SmallFresh(g: Gate, r: Rewritten, done: set<nat>)
    requires r.Small? && VarsFresh(r, done)
    ensures forall l :: l in SmallOf(g, r).rhs ==> Var(l) !in done
    ensures SmallOf(g, r).tag != Ite ==>
              forall gate: Gate, e: int :: Covered(gate, SmallOf(g, r).tag, SmallOf(g, r).rhs, e)
  {
  }

  lemma StillFresh(g: Gate, r: Rewritten, done: set<nat>)
    requires r.Still? && VarsFresh(r, done)
    ensures forall l :: l in NormalIte(r.rhs).0 ==> Var(l) !in done
  {
    SameVar(r.rhs[0], r.rhs[0]);
    SameVar(r.rhs[1], r.rhs[1]);
    SameVar(r.rhs[2], r.rhs[2]);
  }

  lemma SimplifyIteFresh(values: seq<int>, c: seq<Lit>, done: set<nat>)
    requires |c| == 3 && forall l :: l in c ==> Var(l) !in done
    ensures VarsFresh(SimplifyIte(values, c), done)
  {
    assert c[0] in c && c[1] in c && c[2] in c;
  }

  lemma RewriteIteFresh(c: seq<Lit>, dst: Lit, src: Lit, done: set<nat>)
    requires |c| == 3 && src in c && Var(dst) !in done && forall l :: l in c ==> Var(l) !in done
    ensures VarsFresh(RewriteIte(c, dst, src), done)
  {
    assert c[0] in c && c[1] in c && c[2] in c;
  }

  lemma SettledInputs(s: State, gates: seq<Gate>, g: nat, gate: Gate)
    requires Settled(s, gates, g, gate) && g < |gates|
    ensures s.inconsistent || gates[g].rhs == gate.rhs
  {
  }

  lemma NewInputs(s: State, gates: seq<Gate>, done: set<nat>, g: nat, known: seq<Lit>, gate: Gate, y: int)
    requires g < |gates| && forall l :: l in gates[g].rhs ==> Var(l) !in done
    requires forall l :: l in gates[g].rhs ==> l in known || (l < |s.occurrences| && g in s.occurrences[l])
    requires forall l :: l in known ==> l in gate.rhs || l == y
    requires forall l :: l in gate.rhs ==> InputOK(s, done, g, l)
    ensures forall l :: l in gates[g].rhs ==> InputOK(s, done, g, l) || l == y
  {
  }

  // ------------------------------------------------------------------ going through a list of gates

  ghost predicate NoGateHas(gates: seq<Gate>, l: Lit) {
    forall g :: 0 <= g < |gates| && !gates[g].garbage ==> l !in gates[g].rhs
  }

  /** The live gates with input l are all on the list from position i on. */
  ghost predicate Held(gates: seq<Gate>, l: Lit, list: seq<nat>, i: nat) {
    i <= |list| && forall g: nat :: g < |gates| && !gates[g].garbage && l in gates[g].rhs ==> g in list[i..]
  }

  lemma HeldStart(s: State, gates: seq<Gate>, done: set<nat>, hashOf: (Tag, seq<Lit>) -> nat, l: Lit)
    requires Order(s, gates, done, hashOf, -1, -1, -1) && !s.inconsistent && l < |s.occurrences|
    ensures Held(gates, l, s.occurrences[l], 0)
  {
    forall g: nat | g < |gates| && !gates[g].garbage && l in gates[g].rhs ensures g in s.occurrences[l][0..] {
      assert InputOK(s, done, g, l);
    }
  }

  lemma HeldNext(gates: seq<Gate>, gates': seq<Gate>, l: Lit, list: seq<nat>, i: nat)
    requires Held(gates, l, list, i) && i < |list| && OthersKept(gates, gates', list[i]) && list[i] < |gates'|
    requires gates'[list[i]].garbage || l !in gates'[list[i]].rhs
    ensures Held(gates', l, list, i + 1)
  {
    assert list[i..] == [list[i]] + list[i + 1..];
  }

  lemma NotHeldNext(gates: seq<Gate>, gates': seq<Gate>, g: nat, l: Lit)
    requires OthersKept(gates, gates', g) && g < |gates'|
    requires gates'[g].garbage || l !in gates'[g].rhs || (!gates[g].garbage && l in gates[g].rhs)
    ensures NoGateHas(gates, l) ==> NoGateHas(gates', l)
  {
  }

  lemma HeldEnd(gates: seq<Gate>, l: Lit, list: seq<nat>)
    requires Held(gates, l, list, |list|)
    ensures NoGateHas(gates, l)
  {
    assert list[|list|..] == [];
  }

  lemma FreeWithout(values: seq<int>, s: State, gates: seq<Gate>, g: nat, l: Lit)
    requires GateFree(values, s, gates, g) && !s.inconsistent && ValuesOK(values) && l < |values| && values[l] != 0
    ensures g < |gates| && (gates[g].garbage || (l !in gates[g].rhs && Neg(l) !in gates[g].rhs))
  {
    assert values[Neg(l)] == -values[l];
  }

  lemma WithoutHeld(s: State, gates0: seq<Gate>, gates: seq<Gate>, list: seq<nat>, i: nat, src: Lit, dst: Lit)
    requires i < |list| && list[i] < |gates0| && GateWithout(s, gates, list[i], gates0[list[i]], src, dst)
    requires !s.inconsistent && OthersKept(gates0, gates, list[i]) && Held(gates0, src, list, i)
    requires gates0[list[i]].garbage ==> gates[list[i]].garbage
    ensures Held(gates, src, list, i + 1) && (NoGateHas(gates0, Neg(src)) ==> NoGateHas(gates, Neg(src)))
    ensures |gates| == |gates0|
  {
    hide OthersKept, Held, NoGateHas;
    OthersSize(gates0, gates, list[i]);
    HeldNext(gates0, gates, src, list, i);
    NotHeldNext(gates0, gates, list[i], Neg(src));
  }

  lemma OthersSize(gates0: seq<Gate>, gates: seq<Gate>, g: nat)
    requires OthersKept(gates0, gates, g)
    ensures |gates| == |gates0|
  {
  }

  /** Nothing refers to the list of a literal that is no input any more. */
  lemma OrderReleased(s: State, gates: seq<Gate>, done: set<nat>, hashOf: (Tag, seq<Lit>) -> nat, l: Lit)
    requires Order(s, gates, done, hashOf, -1, -1, -1) && NoGateHas(gates, l) && l < |s.occurrences|
    ensures Order(s.(occurrences := s.occurrences[l := []]), gates, done, hashOf, -1, -1, -1)
  {
    var s' := s.(occurrences := s.occurrences[l := []]);
    forall g: nat, k: Lit | k != l && InputOK(s, done, g, k) ensures InputOK(s', done, g, k) {
    }
  }

  /** The gate has been connected with dst if that is an input. */
  lemma OrderConnected(s0: State, s: State, gates: seq<Gate>, done: set<nat>, hashOf: (Tag, seq<Lit>) -> nat, g: nat,
                       dst: Lit)
    requires Order(s0, gates, done, hashOf, g, dst, -1) && g < |gates| && Var(dst) !in done && dst < |s0.occurrences|
    requires if !gates[g].garbage && dst in gates[g].rhs
             then s == s0.(occurrences := s0.occurrences[dst := s0.occurrences[dst] + [g]]) else s == s0
    ensures Order(s, gates, done, hashOf, -1, -1, -1)
  {
    forall h: nat, l: Lit | InputOK(s0, done, h, l) ensures InputOK(s, done, h, l) {
    }
    assert !gates[g].garbage && dst in gates[g].rhs ==> InputOK(s, done, g, dst);
  }

  lemma OrderAppended(s: State, gates: seq<Gate>, done: set<nat>, hashOf: (Tag, seq<Lit>) -> nat, gate: Gate)
    requires Order(s, gates, done, hashOf, -1, -1, -1)
    ensures Order(s, gates + [gate], done, hashOf, |gates|, -1, |gates|)
  {
  }

  /** No live gate in the table matches: the new one is unlike all others. */
  lemma AppendedUnlike(gates: seq<Gate>, gates': seq<Gate>, tag: Tag, hash: nat, rhs: seq<Lit>)
    requires |gates'| == |gates| + 1 && gates'[..|gates|] == gates
    requires gates'[|gates|].tag == tag && gates'[|gates|].hash == hash && gates'[|gates|].rhs == rhs
    requires forall id :: 0 <= id < |gates| && gates[id].indexed && !gates[id].garbage ==>
               !Matches(gates[id], tag, hash, rhs)
    ensures forall k :: 0 <= k < |gates'| && k != |gates| && Rival(gates'[k], gates'[|gates|]) ==>
              !SameFunction(gates'[k], gates'[|gates|])
  {
    forall k | 0 <= k < |gates| && Rival(gates'[k], gates'[|gates|]) ensures !SameFunction(gates'[k], gates'[|gates|]) {
      assert gates'[..|gates|][k] == gates'[k];
    }
  }

  lemma NewInputsOK(s: State, done: set<nat>, g: nat, rhs: seq<Lit>)
    requires forall l :: l in rhs ==> Var(l) !in done && l < |s.occurrences| && g in s.occurrences[l]
    ensures forall l :: l in rhs ==> InputOK(s, done, g, l)
  {
  }

  lemma UnitsGrown(s: State, s': State, done: set<nat>)
    requires Grown(s, s')
    ensures UnitsDone(s, done) ==> UnitsDone(s', done)
  {
  }

  lemma UnitsOccurrences(s: State, s': State, done: set<nat>)
    requires s' == s.(occurrences := s'.occurrences)
    ensures UnitsDone(s, done) ==> UnitsDone(s', done)
  {
  }

  lemma KnownEqualRefl(s: State, ms: iset<Model>, l: Lit)
    requires Base(s, ms) && l < |s.values|
    ensures KnownEqual(s, l, l)
  {
  }

  lemma SortFresh(rhs: seq<Lit>, done: set<nat>)
    requires forall l :: l in rhs ==> Var(l) !in done
    ensures forall l :: l in Sort(rhs) ==> Var(l) !in done
  {
    SortSorted(rhs);
  }

  lemma NegatedFresh(lhs: Lit, lits: seq<Lit>, done: set<nat>)
    requires forall l :: l in lits ==> Var(l) !in done
    ensures forall l :: l in Sort(NegatedOthers(lhs, lits)) ==> Var(l) !in done
  {
    hide NegatedOthers;
    OthersMembers(lhs, lits);
    forall l | l in NegatedOthers(lhs, lits) ensures Var(l) !in done {
      var k :| 0 <= k < |lits| && lits[k] != lhs && l == Neg(lits[k]);
      SameVar(lits[k], l);
      assert lits[k] in lits;
    }
    SortFresh(NegatedOthers(lhs, lits), done);
  }

  lemma NormalFresh(cond: Lit, thenLit: Lit, elseLit: Lit, done: set<nat>)
    requires Var(cond) !in done && Var(thenLit) !in done && Var(elseLit) !in done
    ensures forall l :: l in NormalIte([cond, thenLit, elseLit]).0 ==> Var(l) !in done
  {
    StillVars([cond, thenLit, elseLit]);
  }

  lemma Counterpart(s: State, gates: seq<Gate>, h: nat, gate: Gate)
    requires h < |gates| && !gates[h].garbage && SameFunction(gates[h], gate) && KnownEqual(s, gate.lhs, gates[h].lhs)
    ensures HasCounterpart(s, gates, -1, gate)
  {
    assert h != -1;
  }

  // ------------------------------------------------------------------ literals that are done

  /** All units propagated are done. */
  ghost predicate UnitsDone(s: State, done: set<nat>) {
    s.units <= |s.trail| && forall k :: 0 <= k < s.units ==> Var(s.trail[k]) in done
  }

  lemma UnitsLater(s: State, s': State, done: set<nat>, done': set<nat>)
    requires UnitsDone(s, done) && s.trail <= s'.trail && s'.units == s.units && done <= done'
    ensures UnitsDone(s', done')
  {
  }

  /** Gates without a variable among their inputs stay in order when it is done. */
  lemma DoneOrder(s: State, gates: seq<Gate>, done: set<nat>, hashOf: (Tag, seq<Lit>) -> nat, l: Lit)
    requires Order(s, gates, done, hashOf, -1, -1, -1) && NoGateHas(gates, l) && NoGateHas(gates, Neg(l))
    ensures Order(s, gates, done + {Var(l)}, hashOf, -1, -1, -1)
  {
    if !s.inconsistent {
      forall g: nat, k: Lit | g < |gates| && !gates[g].garbage && k in gates[g].rhs
        ensures InputOK(s, done + {Var(l)}, g, k) {
        assert InputOK(s, done, g, k);
        SameVar(l, k);
      }
    }
  }

  lemma DoneTidy(s: State, ms: iset<Model>, done: set<nat>, l: Lit, e: int)
    requires Base(s, ms) && Tidy(s, done, e) && l < |s.values| && (e == -1 || e == Var(l))
    requires s.values[l] != 0 || s.repr[l] != l || Var(l) in done
    ensures Tidy(s, done + {Var(l)}, -1)
  {
    hide ModelOf, ValuesOK, ReprOK;
    if !s.inconsistent && Var(l) !in done {
      LitProcessed(s, ms, l);
    }
  }

  lemma LitProcessed(s: State, ms: iset<Model>, l: Lit)
    requires Base(s, ms) && l < |s.values| && (s.values[l] != 0 || s.repr[l] != l)
    ensures Processed(s, Var(l))
  {
    hide ModelOf;
    var p := 2 * Var(l);
    SameVar(p, l);
    assert s.values[Neg(l)] == -s.values[l] && Symmetric(s.repr, l) && Symmetric(s.repr, p);
  }

  /** With all units propagated a literal with a value is done. */
  lemma AssignedDone(s: State, done: set<nat>, l: Lit)
    requires Tidy(s, done, Var(l)) && UnitsDone(s, done) && s.units == |s.trail| && !s.inconsistent
    requires l < |s.values| && s.values[l] != 0
    ensures Var(l) in done
  {
    assert OnTrail(s, Var(l));
    var k :| 0 <= k < |s.trail| && Var(s.trail[k]) == Var(l);
  }

  /** The root of a literal without value is not done. */
  lemma RootOpen(s: State, ms: iset<Model>, done: set<nat>, l: Lit)
    requires Base(s, ms) && Tidy(s, done, Var(l)) && !s.inconsistent && l < |s.values| && s.values[l] == 0
    ensures Var(Root(s.repr, l)) !in done
  {
    hide Root, ModelOf;
    RootAgrees(s, ms, l);
    RootFacts(s.repr, l);
    var r := Root(s.repr, l);
    var p := 2 * Var(r);
    SameVar(p, r);
    SameVar(r, p);
    assert s.values[Neg(r)] == -s.values[r] && Symmetric(s.repr, r) && Symmetric(s.repr, p);
    assert !Processed(s, Var(r));
  }

  // ------------------------------------------------------------------ what has become of a gate

  /** A model of what is known: of the values and the merges. */
  ghost predicate Knows(m: Model, s: State) {
    ValuesHold(m, s.values) && MergesHold(m, s.repr)
  }

  /** All that was known is known still. */
  ghost predicate Learned(s: State, s': State) {
    (s.inconsistent ==> s'.inconsistent) && forall m: Model :: Knows(m, s') ==> Knows(m, s)
  }

  ghost predicate KnownTrue(s: State, l: Lit) {
    forall m: Model :: Knows(m, s) ==> Holds(m, l)
  }

  /** What is known makes the gate true. */
  ghost predicate Solved(s: State, g: Gate) {
    forall m: Model :: Knows(m, s) ==> (Holds(m, g.lhs) <==> Eval(m, g))
  }

  /** By what is known gate h is g, or with b its negation: so are the functions, and so are the outputs. */
  ghost predicate Alike(s: State, h: Gate, g: Gate, b: bool) {
    forall m: Model :: Knows(m, s) ==>
      (Holds(m, h.lhs) <==> (Holds(m, g.lhs) != b)) && (Eval(m, h) <==> (Eval(m, g) != b))
  }

  /** Gate h stands for g: AND gates do so only for AND gates with an input like each of theirs, or for ITE gates. */
  ghost predicate Tracks(s: State, h: Gate, g: Gate, b: bool) {
    && Alike(s, h, g, b)
    && (g.tag == And ==> h.tag == And && !b && forall l :: l in h.rhs ==> HasInput(s, g, l))
    && (g.tag == Xor ==> h.tag == Xor)
  }

  ghost predicate KnownSame(s: State, k: Lit, l: Lit) {
    forall m: Model :: Knows(m, s) ==> (Holds(m, k) <==> Holds(m, l))
  }

  /** Some input is known to be equal to l. */
  ghost predicate HasInput(s: State, g: Gate, l: Lit) {
    exists k :: k in g.rhs && KnownSame(s, k, l)
  }

  /** By what is known the gate is a conjunction, or the negation of one. */
  ghost predicate Conjunction(s: State, g: Gate) {
    exists c, b :: ConjunctionOf(s, g, c, b)
  }

  ghost predicate ConjunctionOf(s: State, g: Gate, c: seq<Lit>, b: bool) {
    forall m: Model :: Knows(m, s) ==> (Eval(m, g) <==> (AllTrue(m, c) != b))
  }

  /** The variables are known to be equal, or opposite. */
  ghost predicate KnownVar(s: State, k: Lit, l: Lit) {
    KnownSame(s, k, l) || KnownSame(s, k, Neg(l))
  }

  ghost predicate FromInput(s: State, g: Gate, l: Lit) {
    exists k :: k in g.rhs && KnownVar(s, k, l)
  }

  /** An input of the gate is its output, or the negation. */
  ghost predicate SelfInput(s: State, g: Gate) {
    FromInput(s, g, g.lhs)
  }

  /** The gate stands for one of the gates os at the start that has got its output as an input. */
  ghost predicate Selfish(s: State, os: seq<Gate>, g: Gate) {
    exists k, b: bool ::
          0 <= k < |os| && !os[k].garbage && os[k].tag != And && SelfInput(s, os[k]) && Alike(s, os[k], g, b)
  }

  /**
    A gate that need not be kept, although it may say more than is known: the output of an AND gate is true, or false
    with a true input; an ITE gate has become an AND gate, and its output has a value; or the gate has got its own
    output as an input, for which rewrite_xor_gate drops it.
   */
  ghost predicate Excused(s: State, os: seq<Gate>, g: Gate) {
    match g.tag
    case And => KnownTrue(s, g.lhs) || (KnownTrue(s, Neg(g.lhs)) && exists l :: l in g.rhs && KnownTrue(s, l))
    case Xor => Selfish(s, os, g)
    case Ite => Selfish(s, os, g) || (Conjunction(s, g) && (KnownTrue(s, g.lhs) || KnownTrue(s, Neg(g.lhs))))
  }

  /** What a gate said has not been lost: it is known, or some gate still says it. */
  ghost predicate Accounted(s: State, gates: seq<Gate>, os: seq<Gate>, g: Gate) {
    s.inconsistent || Solved(s, g) || Excused(s, os, g) ||
    exists h, b: bool :: 0 <= h < |gates| && !gates[h].garbage && Tracks(s, gates[h], g, b)
  }

  /** Gate h has come from k, a gate at the start. */
  ghost predicate Descends(s: State, h: Gate, k: Gate) {
    !k.garbage && k.tag != And && (exists b: bool :: Alike(s, k, h, b)) && forall l :: l in h.rhs ==> FromInput(s, k, l)
  }

  /** The gates other than AND gates come from those at the start, and are listed for inputs of these only. */
  ghost predicate Rooted(s: State, gates: seq<Gate>, os: seq<Gate>) {
    && |os| == |gates|
    && (forall g :: 0 <= g < |gates| && !gates[g].garbage && gates[g].tag != And ==> Descends(s, gates[g], os[g]))
    && forall l: nat, i: nat :: l < |s.occurrences| && i < |s.occurrences[l]| ==>
         ListedFrom(s, gates, os, l, s.occurrences[l][i])
  }

  ghost predicate ListedFrom(s: State, gates: seq<Gate>, os: seq<Gate>, l: Lit, g: nat) {
    g < |os| == |gates| && (gates[g].garbage || gates[g].tag == And || FromInput(s, os[g], l))
  }

  ghost predicate Tracked(s: State, gates: seq<Gate>, os: seq<Gate>) {
    s.inconsistent || Rooted(s, gates, os)
  }

  /** No gate is lost between two states. */
  ghost predicate Keeps(s: State, gates: seq<Gate>, s': State, gates': seq<Gate>) {
    forall os :: Tracked(s, gates, os) ==> KeepsFor(s, gates, s', gates', os)
  }

  ghost predicate KeepsFor(s: State, gates: seq<Gate>, s': State, gates': seq<Gate>, os: seq<Gate>) {
    Tracked(s', gates', os) && forall g: Gate :: Accounted(s, gates, os, g) ==> Accounted(s', gates', os, g)
  }

  lemma KeepsTrans(s: State, gates: seq<Gate>, s1: State, gates1: seq<Gate>, s2: State, gates2: seq<Gate>)
    requires Keeps(s, gates, s1, gates1) && Keeps(s1, gates1, s2, gates2)
    ensures Keeps(s, gates, s2, gates2)
  {
    hide Accounted, Tracked;
    forall os | Tracked(s, gates, os) ensures KeepsFor(s, gates, s2, gates2, os) {
      assert KeepsFor(s, gates, s1, gates1, os) && KeepsFor(s1, gates1, s2, gates2, os);
    }
  }

  lemma KeepsRefl(s: State, gates: seq<Gate>)
    ensures Keeps(s, gates, s, gates)
  {
  }

  lemma TracksItself(s: State, g: Gate)
    ensures Tracks(s, g, g, false)
  {
    forall l | l in g.rhs ensures HasInput(s, g, l) {
      assert KnownSame(s, l, l);
    }
  }

  lemma AccountedLive(s: State, gates: seq<Gate>, os: seq<Gate>, g: nat)
    requires g < |gates| && !gates[g].garbage
    ensures Accounted(s, gates, os, gates[g])
  {
    TracksItself(s, gates[g]);
  }

  lemma HasInputLater(s: State, s': State, g: Gate, l: Lit)
    requires HasInput(s, g, l) && Learned(s, s')
    ensures HasInput(s', g, l)
  {
    var k :| k in g.rhs && KnownSame(s, k, l);
    assert KnownSame(s', k, l);
  }

  lemma TracksLater(s: State, s': State, h: Gate, g: Gate, b: bool)
    requires Tracks(s, h, g, b) && Learned(s, s')
    ensures Tracks(s', h, g, b)
  {
    hide Knows, Eval;
    forall l | g.tag == And && l in h.rhs ensures HasInput(s', g, l) {
      HasInputLater(s, s', g, l);
    }
  }

  lemma ConjunctionLater(s: State, s': State, h: Gate, g: Gate, b: bool)
    requires Conjunction(s, h) && Learned(s, s')
    requires forall m: Model :: Knows(m, s') ==> (Eval(m, h) <==> (Eval(m, g) != b))
    ensures Conjunction(s', g)
  {
    hide Knows, Eval;
    var c, b' :| ConjunctionOf(s, h, c, b');
    assert ConjunctionOf(s', g, c, b' != b);
  }

  lemma KnownVarLater(s: State, s': State, k: Lit, l: Lit)
    requires KnownVar(s, k, l) && Learned(s, s')
    ensures KnownVar(s', k, l)
  {
  }

  lemma FromInputLater(s: State, s': State, g: Gate, l: Lit)
    requires FromInput(s, g, l) && Learned(s, s')
    ensures FromInput(s', g, l)
  {
    hide KnownVar;
    var k :| k in g.rhs && KnownVar(s, k, l);
    KnownVarLater(s, s', k, l);
  }

  lemma AlikeLater(s: State, s': State, h: Gate, g: Gate, b: bool)
    requires Alike(s, h, g, b) && Learned(s, s')
    ensures Alike(s', h, g, b)
  {
  }

  lemma AlikeTrans(s: State, k: Gate, h: Gate, g: Gate, b: bool, b': bool)
    requires Alike(s, h, g, b) && Alike(s, k, h, b')
    ensures Alike(s, k, g, b != b')
  {
  }

  /** What excuses a gate by its origin goes on doing so, and excuses those it stands for. */
  lemma SelfishLater(s: State, s': State, os: seq<Gate>, h: Gate, g: Gate, b: bool)
    requires Selfish(s, os, h) && Learned(s, s') && Alike(s', h, g, b)
    ensures Selfish(s', os, g)
  {
    hide FromInput, Alike, Learned;
    var k, b': bool :| 0 <= k < |os| && !os[k].garbage && os[k].tag != And && SelfInput(s, os[k]) &&
        Alike(s, os[k], h, b');
    FromInputLater(s, s', os[k], os[k].lhs);
    AlikeLater(s, s', os[k], h, b');
    AlikeTrans(s', os[k], h, g, b, b');
  }

  lemma ExcusedLater(s: State, s': State, os: seq<Gate>, g: Gate)
    requires Excused(s, os, g) && Learned(s, s')
    ensures Excused(s', os, g)
  {
    hide Knows, Eval, Selfish;
    if g.tag == And {
      if !KnownTrue(s, g.lhs) {
        var l :| l in g.rhs && KnownTrue(s, l);
        assert KnownTrue(s', l);
      }
    } else if Selfish(s, os, g) {
      assert Alike(s', g, g, false);
      SelfishLater(s, s', os, g, g, false);
    } else {
      ConjunctionLater(s, s', g, g, false);
    }
  }

  /** A gate that excuses itself excuses those it stands for. */
  lemma ExcusedTracked(s: State, os: seq<Gate>, h: Gate, g: Gate, b: bool)
    requires Tracks(s, h, g, b) && Excused(s, os, h)
    ensures Excused(s, os, g)
  {
    hide Knows, Conjunction, Selfish;
    KnownOpposite(s, h.lhs);
    KnownOpposite(s, g.lhs);
    LearnedRefl(s);
    if h.tag != And && Selfish(s, os, h) {
      SelfishLater(s, s, os, h, g, b);
    } else if g.tag == And {
      if !KnownTrue(s, h.lhs) {
        var l :| l in h.rhs && KnownTrue(s, l);
        assert HasInput(s, g, l);
      }
    } else if h.tag == And {
      AndConjunction(s, h, g, b);
    } else {
      ConjunctionLater(s, s, h, g, b);
    }
  }

  lemma AndConjunction(s: State, h: Gate, g: Gate, b: bool)
    requires h.tag == And && forall m: Model :: Knows(m, s) ==> (Eval(m, h) <==> (Eval(m, g) != b))
    ensures Conjunction(s, g)
  {
    assert ConjunctionOf(s, g, h.rhs, b);
  }

  lemma KnownOpposite(s: State, l: Lit)
    ensures KnownTrue(s, Neg(l)) <==> forall m: Model :: Knows(m, s) ==> !Holds(m, l)
  {
    forall m: Model ensures Holds(m, Neg(l)) == !Holds(m, l) {
      HoldsNeg(m, l);
    }
  }

  lemma LearnedRefl(s: State)
    ensures Learned(s, s)
  {
  }

  lemma TracksTrans(s: State, k: Gate, h: Gate, g: Gate, b: bool, b': bool)
    requires Tracks(s, h, g, b) && Tracks(s, k, h, b')
    ensures Tracks(s, k, g, b != b')
  {
    hide Knows, Eval;
    forall l | g.tag == And && l in k.rhs ensures HasInput(s, g, l) {
      assert HasInput(s, h, l);
      var i :| i in h.rhs && KnownSame(s, i, l);
      assert HasInput(s, g, i);
      var j :| j in g.rhs && KnownSame(s, j, i);
      assert KnownSame(s, j, l);
    }
  }

  /** What is accounted for a gate is accounted for those it stands for. */
  lemma AccountedTracked(s: State, gates: seq<Gate>, os: seq<Gate>, h: Gate, g: Gate, b: bool)
    requires Tracks(s, h, g, b) && Accounted(s, gates, os, h)
    ensures Accounted(s, gates, os, g)
  {
    hide Knows, Eval, Excused, Tracks;
    if !s.inconsistent {
      if Solved(s, h) {
        SolvedTracked(s, h, g, b);
      } else if Excused(s, os, h) {
        ExcusedTracked(s, os, h, g, b);
      } else {
        var k, b': bool :| 0 <= k < |gates| && !gates[k].garbage && Tracks(s, gates[k], h, b');
        TracksTrans(s, gates[k], h, g, b, b');
      }
    }
  }

  lemma SolvedTracked(s: State, h: Gate, g: Gate, b: bool)
    requires Tracks(s, h, g, b) && Solved(s, h)
    ensures Solved(s, g)
  {
  }

  /** From one state to another gates and their lists have not changed but for gate g. */
  ghost predicate Appended(occurrences: seq<seq<nat>>, occurrences': seq<seq<nat>>, g: nat, c: seq<Lit>) {
    && |occurrences'| == |occurrences|
    && forall l: nat, i: nat :: l < |occurrences'| && i < |occurrences'[l]| ==>
         (i < |occurrences[l]| && occurrences'[l][i] == occurrences[l][i]) || (occurrences'[l][i] == g && l in c)
  }

  lemma AppendedRefl(occurrences: seq<seq<nat>>, g: nat, c: seq<Lit>)
    ensures Appended(occurrences, occurrences, g, c)
  {
  }

  lemma AppendedOne(o: seq<seq<nat>>, o': seq<seq<nat>>, g: nat, c: seq<Lit>, l: Lit)
    requires Appended(o, o', g, c) && l in c && l < |o'|
    ensures Appended(o, o'[l := o'[l] + [g]], g, c)
  {
    var o'' := o'[l := o'[l] + [g]];
    forall k: nat, i: nat | k < |o''| && i < |o''[k]|
      ensures (i < |o[k]| && o''[k][i] == o[k][i]) || (o''[k][i] == g && k in c) {
      if k != l || i < |o'[l]| {
        assert o''[k][i] == o'[k][i];
      }
    }
  }

  /** The gate g has changed as a descendant of its former self. */
  ghost predicate Moves(s: State, gate: Gate, h: Gate) {
    && (gate.garbage ==> h.garbage)
    && (!h.garbage && h.tag != And ==> Descends(s, h, gate))
  }

  lemma FromInputTrans(s: State, k: Gate, h: Gate, l: Lit)
    requires FromInput(s, h, l) && forall i :: i in h.rhs ==> FromInput(s, k, i)
    ensures FromInput(s, k, l)
  {
    hide KnownVar;
    var i :| i in h.rhs && KnownVar(s, i, l);
    assert FromInput(s, k, i);
    var j :| j in k.rhs && KnownVar(s, j, i);
    KnownVarTrans(s, j, i, l);
  }

  lemma KnownVarTrans(s: State, j: Lit, i: Lit, l: Lit)
    requires KnownVar(s, j, i) && KnownVar(s, i, l)
    ensures KnownVar(s, j, l)
  {
    forall m: Model ensures Holds(m, Neg(i)) == !Holds(m, i) && Holds(m, Neg(l)) == !Holds(m, l) {
      HoldsNeg(m, i);
      HoldsNeg(m, l);
    }
  }

  lemma DescendsTrans(s: State, h: Gate, gate: Gate, k: Gate)
    requires Descends(s, h, gate) && Descends(s, gate, k)
    ensures Descends(s, h, k)
  {
    hide FromInput, Alike;
    var b, b' :| Alike(s, gate, h, b) && Alike(s, k, gate, b');
    AlikeTrans(s, k, gate, h, b, b');
    forall l | l in h.rhs ensures FromInput(s, k, l) {
      FromInputTrans(s, k, gate, l);
    }
  }

  lemma DescendsLater(s: State, s': State, h: Gate, h': Gate, k: Gate)
    requires Descends(s, h, k) && Learned(s, s') && h'.tag == h.tag && h'.lhs == h.lhs && h'.rhs == h.rhs
    ensures Descends(s', h', k)
  {
    hide FromInput, Learned;
    var b :| Alike(s, k, h, b);
    AlikeLater(s, s', k, h, b);
    assert Alike(s', k, h', b) by { assert forall m: Model :: Eval(m, h') == Eval(m, h); }
    forall l | l in h.rhs ensures FromInput(s', k, l) {
      FromInputLater(s, s', k, l);
    }
  }

  lemma KeepsInconsistent(s: State, gates: seq<Gate>, s': State, gates': seq<Gate>)
    requires s'.inconsistent
    ensures Keeps(s, gates, s', gates')
  {
  }

  lemma AlikeSymmetric(s: State, h: Gate, g: Gate, b: bool)
    requires Alike(s, h, g, b)
    ensures Alike(s, g, h, b)
  {
  }

  lemma OwnInputs(s: State, g: Gate)
    ensures forall l :: l in g.rhs ==> FromInput(s, g, l)
  {
    forall l | l in g.rhs ensures FromInput(s, g, l) {
      assert KnownVar(s, l, l);
    }
  }

  lemma MovesNot(s: State, g: Gate)
    ensures Moves(s, g, g)
  {
    OwnInputs(s, g);
    hide FromInput;
    assert Alike(s, g, g, false);
  }

  lemma SettledMoves(s: State, gates: seq<Gate>, g: nat, gate': Gate, gate: Gate, b: bool)
    requires Settled(s, gates, g, gate') && Alike(s, gate', gate, b) && gate.tag != And && !gate.garbage
    requires forall l :: l in gate'.rhs ==> FromInput(s, gate, l)
    ensures s.inconsistent || Moves(s, gate, gates[g])
  {
    hide FromInput, Knows;
    AlikeSymmetric(s, gate', gate, b);
    if !s.inconsistent && !gates[g].garbage {
      assert forall m: Model :: Eval(m, gates[g]) == Eval(m, gate');
      assert Alike(s, gate, gates[g], b);
    }
  }

  /** If one gate has changed and is accounted for, no gate is lost. */
  lemma KeepsOthers(s: State, gates: seq<Gate>, s': State, gates': seq<Gate>, g: nat)
    requires Learned(s, s') && OthersKept(gates, gates', g) && g < |gates| && Moves(s', gates[g], gates'[g])
    requires Appended(s.occurrences, s'.occurrences, g, gates'[g].rhs)
    requires forall os :: Tracked(s, gates, os) ==> gates[g].garbage || Accounted(s', gates', os, gates[g])
    ensures Keeps(s, gates, s', gates')
  {
    hide Accounted, Learned, OthersKept, Moves, Appended;
    forall os | Tracked(s, gates, os) ensures KeepsFor(s, gates, s', gates', os) {
      hide Tracked;
      TrackedOthers(s, gates, s', gates', g, os);
      forall k: Gate | Accounted(s, gates, os, k) ensures Accounted(s', gates', os, k) {
        AccountedOthers(s, gates, s', gates', g, os, k);
      }
    }
  }

  lemma TrackedOthers(s: State, gates: seq<Gate>, s': State, gates': seq<Gate>, g: nat, os: seq<Gate>)
    requires Learned(s, s') && OthersKept(gates, gates', g) && g < |gates| && Moves(s', gates[g], gates'[g])
    requires Appended(s.occurrences, s'.occurrences, g, gates'[g].rhs) && Tracked(s, gates, os)
    ensures Tracked(s', gates', os)
  {
    hide Descends, FromInput;
    if !s'.inconsistent {
      forall h | 0 <= h < |gates'| && !gates'[h].garbage && gates'[h].tag != And
        ensures Descends(s', gates'[h], os[h]) {
        if h == g {
          DescendsParts(s', gates'[g], gates[g]);
          DescendsLater(s, s', gates[g], gates[g], os[g]);
          DescendsTrans(s', gates'[g], gates[g], os[g]);
        } else {
          DescendsLater(s, s', gates[h], gates'[h], os[h]);
        }
      }
      forall l: nat, i: nat | l < |s'.occurrences| && i < |s'.occurrences[l]|
        ensures ListedFrom(s', gates', os, l, s'.occurrences[l][i]) {
        ListedOthers(s, gates, s', gates', g, os, l, i);
      }
    }
  }

  lemma DescendsParts(s: State, h: Gate, k: Gate)
    requires Descends(s, h, k)
    ensures !k.garbage && k.tag != And && forall l :: l in h.rhs ==> FromInput(s, k, l)
  {
  }

  lemma ListedOthers(s: State, gates: seq<Gate>, s': State, gates': seq<Gate>, g: nat, os: seq<Gate>, l: nat, i: nat)
    requires Learned(s, s') && OthersKept(gates, gates', g) && g < |gates| && Moves(s', gates[g], gates'[g])
    requires Appended(s.occurrences, s'.occurrences, g, gates'[g].rhs) && Rooted(s, gates, os)
    requires l < |s'.occurrences| && i < |s'.occurrences[l]|
    ensures ListedFrom(s', gates', os, l, s'.occurrences[l][i])
  {
    hide Descends, FromInput, Learned;
    var h := s'.occurrences[l][i];
    if i < |s.occurrences[l]| && h == s.occurrences[l][i] {
      assert ListedFrom(s, gates, os, l, h);
      if !gates'[h].garbage && gates'[h].tag != And {
        if h == g {
          DescendsParts(s', gates'[g], gates[g]);
        }
        FromInputLater(s, s', os[h], l);
      }
    } else if !gates'[g].garbage && gates'[g].tag != And {
      DescendsParts(s', gates'[g], gates[g]);
      DescendsLater(s, s', gates[g], gates[g], os[g]);
      DescendsTrans(s', gates'[g], gates[g], os[g]);
      DescendsParts(s', gates'[g], os[g]);
    }
  }

  lemma AccountedOthers(s: State, gates: seq<Gate>, s': State, gates': seq<Gate>, g: nat, os: seq<Gate>, k: Gate)
    requires Learned(s, s') && OthersKept(gates, gates', g) && g < |gates|
    requires gates[g].garbage || Accounted(s', gates', os, gates[g])
    requires Accounted(s, gates, os, k)
    ensures Accounted(s', gates', os, k)
  {
    hide Knows, Eval, Excused, Tracks, Solved;
    if s.inconsistent {
    } else if Solved(s, k) {
      SolvedLater(s, s', k);
    } else if Excused(s, os, k) {
      ExcusedLater(s, s', os, k);
    } else {
      var h, b: bool :| 0 <= h < |gates| && !gates[h].garbage && Tracks(s, gates[h], k, b);
      TracksLater(s, s', gates[h], k, b);
      if h == g {
        AccountedTracked(s', gates', os, gates[g], k, b);
      } else {
        SameGate(s', gates[h], gates'[h], k, b);
      }
    }
  }

  lemma SolvedLater(s: State, s': State, g: Gate)
    requires Solved(s, g) && Learned(s, s')
    ensures Solved(s', g)
  {
  }

  lemma SameGate(s: State, h: Gate, h': Gate, g: Gate, b: bool)
    requires Tracks(s, h, g, b) && h'.tag == h.tag && h'.lhs == h.lhs && h'.rhs == h.rhs
    ensures Tracks(s, h', g, b)
  {
  }

  /** Only the schedule and the like have changed, and gates have been taken from lists or put where an input is. */
  lemma KeepsSame(s: State, s': State, gates: seq<Gate>)
    requires s'.values == s.values && s'.repr == s.repr && (s.inconsistent ==> s'.inconsistent)
    requires |s'.occurrences| == |s.occurrences|
    requires forall l: nat, i: nat :: l < |s'.occurrences| && i < |s'.occurrences[l]| ==>
               (i < |s.occurrences[l]| && s'.occurrences[l][i] == s.occurrences[l][i]) ||
               (s'.occurrences[l][i] < |gates| && l in gates[s'.occurrences[l][i]].rhs)
    ensures Keeps(s, gates, s', gates)
  {
    hide Excused, Tracks, Solved, Descends;
    assert forall m: Model :: Knows(m, s') <==> Knows(m, s);
    hide Knows;
    forall os | Tracked(s, gates, os) ensures KeepsFor(s, gates, s', gates, os) {
      if !s'.inconsistent {
        forall g | 0 <= g < |gates| && !gates[g].garbage && gates[g].tag != And ensures Descends(s', gates[g], os[g]) {
          DescendsLater(s, s', gates[g], gates[g], os[g]);
        }
        forall l: nat, i: nat | l < |s'.occurrences| && i < |s'.occurrences[l]|
          ensures ListedFrom(s', gates, os, l, s'.occurrences[l][i]) {
          ListedSame(s, s', gates, os, l, i);
        }
      }
      forall k: Gate | Accounted(s, gates, os, k) ensures Accounted(s', gates, os, k) {
        AccountedSame(s, s', gates, os, k);
      }
    }
  }

  lemma ListedSame(s: State, s': State, gates: seq<Gate>, os: seq<Gate>, l: nat, i: nat)
    requires Learned(s, s') && Rooted(s, gates, os)
    requires l < |s'.occurrences| == |s.occurrences| && i < |s'.occurrences[l]|
    requires (i < |s.occurrences[l]| && s'.occurrences[l][i] == s.occurrences[l][i]) ||
             (s'.occurrences[l][i] < |gates| && l in gates[s'.occurrences[l][i]].rhs)
    ensures ListedFrom(s', gates, os, l, s'.occurrences[l][i])
  {
    hide Descends, FromInput, Learned;
    var h := s'.occurrences[l][i];
    if i < |s.occurrences[l]| && h == s.occurrences[l][i] {
      assert ListedFrom(s, gates, os, l, h);
      if !gates[h].garbage && gates[h].tag != And {
        FromInputLater(s, s', os[h], l);
      }
    } else if !gates[h].garbage && gates[h].tag != And {
      DescendsParts(s, gates[h], os[h]);
      FromInputLater(s, s', os[h], l);
    }
  }

  lemma AccountedSame(s: State, s': State, gates: seq<Gate>, os: seq<Gate>, k: Gate)
    requires Learned(s, s') && Accounted(s, gates, os, k)
    ensures Accounted(s', gates, os, k)
  {
    hide Knows, Eval, Excused, Tracks, Solved;
    if s.inconsistent {
    } else if Solved(s, k) {
      SolvedLater(s, s', k);
    } else if Excused(s, os, k) {
      ExcusedLater(s, s', os, k);
    } else {
      var h, b: bool :| 0 <= h < |gates| && !gates[h].garbage && Tracks(s, gates[h], k, b);
      TracksLater(s, s', gates[h], k, b);
    }
  }

  lemma AdvancedLearned(s: State, s': State, e: int)
    requires Advanced(s, s', e)
    ensures Learned(s, s')
  {
    forall m: Model | Knows(m, s') ensures Knows(m, s) {
      assert forall l: nat ::
               (True(s.values, l) ==> True(s'.values, l)) && (False(s.values, l) ==> False(s'.values, l));
    }
  }

  /** Literals that are known to be equal by representatives or values are so in all models. */
  lemma EqualKnown(s: State, k: Lit, l: Lit)
    requires !s.inconsistent && KnownEqual(s, k, l)
    ensures KnownSame(s, k, l)
  {
    hide Root;
    forall m: Model | Knows(m, s) ensures Holds(m, k) <==> Holds(m, l) {
      RootHolds(m, s.repr, k);
      RootHolds(m, s.repr, l);
      if Root(s.repr, k) != Root(s.repr, l) {
        assert (True(s.values, k) && True(s.values, l)) || (False(s.values, k) && False(s.values, l));
      }
    }
  }

  /** A settled gate is in the table or has a counterpart. */
  lemma SettledAccounted(s: State, gates: seq<Gate>, os: seq<Gate>, g: nat, gate': Gate, gate: Gate, b: bool)
    requires Settled(s, gates, g, gate') && Tracks(s, gate', gate, b)
    ensures Accounted(s, gates, os, gate)
  {
    hide Knows, Eval, Excused, Solved, KnownEqual;
    if !s.inconsistent {
      if gates[g].garbage {
        var h :| 0 <= h < |gates| && h != g && !gates[h].garbage && SameFunction(gates[h], gate') &&
                 KnownEqual(s, gate'.lhs, gates[h].lhs);
        EqualKnown(s, gate'.lhs, gates[h].lhs);
        CounterpartTracks(s, gates[h], gate', gate, b);
      } else {
        SameGate(s, gate', gates[g], gate, b);
      }
    }
  }

  lemma CounterpartTracks(s: State, h: Gate, gate': Gate, gate: Gate, b: bool)
    requires Tracks(s, gate', gate, b) && SameFunction(h, gate') && KnownSame(s, gate'.lhs, h.lhs)
    ensures Tracks(s, h, gate, b)
  {
    hide Knows;
    assert forall m: Model :: Eval(m, h) == Eval(m, gate');
  }

  // AND gates

  /** What simplification and rewriting of inputs d of an AND gate have in common. */
  ghost predicate AndStep(values: seq<int>, d: seq<Lit>, lhs: Lit, dst: Lit, kept: seq<Lit>, forced: bool) {
    && (forced ==> (exists l :: l in d && False(values, l)) || Neg(lhs) in d || (dst in d && Neg(dst) in d))
    && (!forced ==> (forall l :: l in kept <==> l in d && Free(values, l)) && forall l :: l in d ==> !False(values, l))
  }

  ghost predicate SameInputs(s: State, c: seq<Lit>, d: seq<Lit>) {
    |d| == |c| && forall i :: 0 <= i < |c| ==> KnownSame(s, c[i], d[i])
  }

  lemma SameConjunction(s: State, c: seq<Lit>, d: seq<Lit>, m: Model)
    requires SameInputs(s, c, d) && Knows(m, s)
    ensures AllTrue(m, c) == AllTrue(m, d)
  {
    forall i | 0 <= i < |c| ensures Holds(m, c[i]) <==> Holds(m, d[i]) {
      assert KnownSame(s, c[i], d[i]);
    }
    assert forall i :: 0 <= i < |c| ==> c[i] in c && d[i] in d;
  }

  lemma AndBecame(s0: State, s: State, gates: seq<Gate>, os: seq<Gate>, g: nat, gate: Gate,
                  d: seq<Lit>, dst: Lit, kept: seq<Lit>,
                  forced: bool)
    requires Learned(s0, s) && gate.tag == And && SameInputs(s, gate.rhs, d) && forall l :: l in d ==> l < |s0.values|
    requires AndStep(s0.values, d, gate.lhs, dst, kept, forced) && AndUpdated(s, gates, g, gate.(rhs := kept), forced)
    ensures Accounted(s, gates, os, gate)
  {
    if !s.inconsistent {
      if forced {
        AndForced(s0, s, os, gate, d, dst, kept);
      } else {
        AndKept(s0, s, gate, d, dst, kept);
        if |kept| == 1 {
          hide Knows, Excused, Tracks, KnownEqual;
          EqualKnown(s, gate.lhs, kept[0]);
          OneInput(kept);
        } else {
          hide Knows, Excused, Tracks, Settled;
          SettledAccounted(s, gates, os, g, gate.(rhs := Sort(kept)), gate, false);
        }
      }
    }
  }

  lemma OneInput(c: seq<Lit>)
    requires |c| == 1
    ensures forall m: Model :: AllTrue(m, c) <==> Holds(m, c[0])
  {
    assert c[0] in c;
  }

  lemma AndForced(s0: State, s: State, os: seq<Gate>, gate: Gate, d: seq<Lit>, dst: Lit, kept: seq<Lit>)
    requires Learned(s0, s) && gate.tag == And && SameInputs(s, gate.rhs, d)
    requires AndStep(s0.values, d, gate.lhs, dst, kept, true) && True(s.values, Neg(gate.lhs))
    ensures Solved(s, gate) || Excused(s, os, gate)
  {
    assert KnownTrue(s, Neg(gate.lhs));
    KnownOpposite(s, gate.lhs);
    if Neg(gate.lhs) in d {
      var i :| 0 <= i < |d| && d[i] == Neg(gate.lhs);
      assert KnownSame(s, gate.rhs[i], d[i]) && gate.rhs[i] in gate.rhs;
      assert KnownTrue(s, gate.rhs[i]);
    } else {
      forall m: Model | Knows(m, s) ensures !AllTrue(m, gate.rhs) {
        SameConjunction(s, gate.rhs, d, m);
        assert Knows(m, s0);
        HoldsNeg(m, dst);
      }
    }
  }

  lemma AndKept(s0: State, s: State, gate: Gate, d: seq<Lit>, dst: Lit, kept: seq<Lit>)
    requires Learned(s0, s) && gate.tag == And && SameInputs(s, gate.rhs, d) && forall l :: l in d ==> l < |s0.values|
    requires AndStep(s0.values, d, gate.lhs, dst, kept, false)
    ensures forall m: Model :: Knows(m, s) ==> (Eval(m, gate) <==> AllTrue(m, kept))
    ensures Tracks(s, gate.(rhs := Sort(kept)), gate, false)
  {
    forall m: Model | Knows(m, s) ensures Eval(m, gate) <==> AllTrue(m, kept) {
      SameConjunction(s, gate.rhs, d, m);
      assert Knows(m, s0);
      AllTrueKept(m, s0.values, d, kept);
    }
    var gate' := gate.(rhs := Sort(kept));
    forall m: Model ensures Eval(m, gate') <==> AllTrue(m, kept) {
      SortHolds(m, kept);
    }
    SortSorted(kept);
    forall l | l in gate'.rhs ensures HasInput(s, gate, l) {
      var i :| 0 <= i < |d| && d[i] == l;
      assert KnownSame(s, gate.rhs[i], d[i]) && gate.rhs[i] in gate.rhs;
    }
  }

  lemma SimplifyAndAccounted(s0: State, s: State, gates: seq<Gate>, os: seq<Gate>, g: nat,
                             gate: Gate, kept: seq<Lit>, forced: bool)
    requires Learned(s0, s) && gate.tag == And && forall l :: l in gate.rhs ==> l < |s0.values|
    requires True(s0.values, gate.lhs) || (AndSimplified(s0.values, gate.rhs, kept, forced) &&
                                           AndUpdated(s, gates, g, gate.(rhs := kept), forced))
    ensures Accounted(s, gates, os, gate)
  {
    if True(s0.values, gate.lhs) {
      AssignedExcused(s0, s, os, gate);
    } else {
      AndBecame(s0, s, gates, os, g, gate, gate.rhs, gate.lhs, kept, forced);
    }
  }

  lemma AssignedExcused(s0: State, s: State, os: seq<Gate>, gate: Gate)
    requires Learned(s0, s) && gate.tag == And && True(s0.values, gate.lhs)
    ensures Excused(s, os, gate)
  {
    forall m: Model | Knows(m, s) ensures Holds(m, gate.lhs) {
      assert Knows(m, s0);
    }
  }

  lemma ReplaceSame(s: State, c: seq<Lit>, src: Lit, dst: Lit)
    requires KnownSame(s, src, dst)
    ensures SameInputs(s, c, Replace(c, src, dst))
  {
    forall i | 0 <= i < |c| ensures KnownSame(s, c[i], Replace(c, src, dst)[i]) {
    }
  }

  lemma RewriteAndAccounted(s0: State, s: State, gates: seq<Gate>, os: seq<Gate>, g: nat,
                            gate: Gate, dst: Lit, src: Lit,
                            kept: seq<Lit>, forced: bool)
    requires Learned(s0, s) && gate.tag == And && (forall l :: l in gate.rhs ==> l < |s0.values|) && dst < |s0.values|
    requires KnownSame(s0, src, dst) && g < |gates|
    requires True(s0.values, gate.lhs) || gates[g] == gate ||
             (AndRewritten(s0.values, Replace(gate.rhs, src, dst), gate.lhs, dst, kept, forced) &&
              AndUpdated(s, gates, g, gate.(rhs := kept), forced))
    requires gate.garbage ==> gates[g] != gate
    ensures Accounted(s, gates, os, gate)
  {
    if True(s0.values, gate.lhs) {
      AssignedExcused(s0, s, os, gate);
    } else if gates[g] == gate {
      AccountedLive(s, gates, os, g);
    } else {
      assert KnownSame(s, src, dst);
      ReplaceSame(s, gate.rhs, src, dst);
      ReplaceMembers(gate.rhs, src, dst, |s0.values|);
      AndBecame(s0, s, gates, os, g, gate, Replace(gate.rhs, src, dst), dst, kept, forced);
    }
  }

  /** An AND gate stays one. */
  lemma AndMoves(s: State, gates: seq<Gate>, g: nat, gate: Gate, gate': Gate, forced: bool)
    requires g < |gates| && gate.tag == gate'.tag == And && !gate.garbage
    requires gates[g].garbage || gates[g] == gate || AndUpdated(s, gates, g, gate', forced)
    ensures s.inconsistent || Moves(s, gate, gates[g])
  {
  }

  // XOR gates

  lemma XorBecame(s: State, gates: seq<Gate>, os: seq<Gate>, g: nat, gate: Gate, kept: seq<Lit>, negate: bool)
    requires gate.tag == Xor
    requires forall m: Model :: Knows(m, s) ==>
               X.TrueParity(m, gate.rhs) == (X.TrueParity(m, kept) + if negate then 1 else 0) % 2
    requires XorUpdated(s, gates, g, gate.(lhs := if negate then Neg(gate.lhs) else gate.lhs, rhs := kept))
    requires !gate.garbage && forall l :: l in kept ==> FromInput(s, gate, l)
    ensures Accounted(s, gates, os, gate) && (s.inconsistent || Moves(s, gate, gates[g]))
  {
    if !s.inconsistent {
      hide FromInput;
      var gate' := gate.(lhs := if negate then Neg(gate.lhs) else gate.lhs, rhs := kept);
      XorKept(s, gate, kept, negate);
      if |kept| == 0 {
        assert KnownTrue(s, Neg(gate'.lhs));
        KnownOpposite(s, gate'.lhs);
        assert forall m: Model :: !Eval(m, gate');
        SolvedTracked(s, gate', gate, negate);
      } else if |kept| == 1 {
        hide Knows, Excused, KnownEqual;
        EqualKnown(s, gate'.lhs, kept[0]);
        OneParity(kept);
        SolvedTracked(s, gate', gate, negate);
      } else {
        hide Knows, Excused, Settled;
        forall m: Model ensures Eval(m, gate'.(rhs := Sort(kept))) <==> Eval(m, gate') {
          SortHolds(m, kept);
        }
        SettledAccounted(s, gates, os, g, gate'.(rhs := Sort(kept)), gate, negate);
        SortSorted(kept);
        SettledMoves(s, gates, g, gate'.(rhs := Sort(kept)), gate, negate);
      }
    }
  }

  lemma OneParity(c: seq<Lit>)
    requires |c| == 1
    ensures forall m: Model :: X.TrueParity(m, c) == 1 <==> Holds(m, c[0])
  {
    forall m: Model ensures X.TrueParity(m, c) == 1 <==> Holds(m, c[0]) {
      assert c == [c[0]];
      X.ParityOne(m, c[0]);
    }
  }

  lemma XorKept(s: State, gate: Gate, kept: seq<Lit>, negate: bool)
    requires gate.tag == Xor
    requires forall m: Model :: Knows(m, s) ==>
               X.TrueParity(m, gate.rhs) == (X.TrueParity(m, kept) + if negate then 1 else 0) % 2
    ensures Tracks(s, gate.(lhs := if negate then Neg(gate.lhs) else gate.lhs, rhs := kept), gate, negate)
  {
    var gate' := gate.(lhs := if negate then Neg(gate.lhs) else gate.lhs, rhs := kept);
    forall m: Model | Knows(m, s)
      ensures (Holds(m, gate'.lhs) <==> (Holds(m, gate.lhs) != negate))
      ensures (Eval(m, gate') <==> (Eval(m, gate) != negate)) {
      HoldsNeg(m, gate.lhs);
    }
  }

  lemma SimplifyXorAccounted(s0: State, s: State, gates: seq<Gate>, os: seq<Gate>, g: nat,
                             gate: Gate, kept: seq<Lit>, negate: bool)
    requires Learned(s0, s) && gate.tag == Xor && XorSimplified(s0.values, gate.rhs, kept, negate) && !gate.garbage
    requires XorUpdated(s, gates, g, gate.(lhs := if negate then Neg(gate.lhs) else gate.lhs, rhs := kept))
    ensures Accounted(s, gates, os, gate) && (s.inconsistent || Moves(s, gate, gates[g]))
  {
    OwnInputs(s, gate);
    XorSimplifiedInputs(s0.values, gate.rhs, kept, negate);
    forall m: Model | Knows(m, s)
      ensures X.TrueParity(m, gate.rhs) == (X.TrueParity(m, kept) + if negate then 1 else 0) % 2 {
      assert Knows(m, s0);
    }
    XorBecame(s, gates, os, g, gate, kept, negate);
  }

  lemma RewriteXorAccounted(s0: State, s: State, gates: seq<Gate>, os: seq<Gate>, g: nat, gate: Gate, dst: Lit,
                            src: Lit, kept: seq<Lit>, negate: bool)
    requires Learned(s0, s) && gate.tag == Xor && KnownSame(s0, src, dst) && !gate.garbage && src in gate.rhs
    requires XorRewritten(s0.values, gate.rhs, dst, src, kept, negate)
    requires XorUpdated(s, gates, g, gate.(lhs := if negate then Neg(gate.lhs) else gate.lhs, rhs := kept))
    ensures Accounted(s, gates, os, gate) && (s.inconsistent || Moves(s, gate, gates[g]))
  {
    hide XorUpdated, Accounted, Moves;
    RewrittenParity(s0, s, gate, dst, src, kept, negate);
    hide XorRewritten, Knows;
    XorBecame(s, gates, os, g, gate, kept, negate);
  }

  lemma RewrittenParity(s0: State, s: State, gate: Gate, dst: Lit, src: Lit, kept: seq<Lit>, negate: bool)
    requires Learned(s0, s) && KnownSame(s0, src, dst) && src in gate.rhs
    requires XorRewritten(s0.values, gate.rhs, dst, src, kept, negate)
    ensures forall l :: l in kept ==> FromInput(s, gate, l)
    ensures forall m: Model :: Knows(m, s) ==>
              X.TrueParity(m, gate.rhs) == (X.TrueParity(m, kept) + if negate then 1 else 0) % 2
  {
    hide FromInput, XorRewritten, FromVar;
    forall m: Model | Knows(m, s)
      ensures X.TrueParity(m, gate.rhs) == (X.TrueParity(m, kept) + if negate then 1 else 0) % 2 {
      assert Knows(m, s0);
      ParityAt(m, s0.values, gate.rhs, dst, src, kept, negate);
    }
    OwnInputs(s, gate);
    DstInput(s0, s, gate, dst, src);
    KeptFrom(s, s0.values, gate, dst, src, kept, negate);
  }

  lemma ParityAt(m: Model, values: seq<int>, rhs: seq<Lit>, dst: Lit, src: Lit, kept: seq<Lit>, negate: bool)
    requires XorRewritten(values, rhs, dst, src, kept, negate) && ValuesHold(m, values)
    requires Holds(m, src) == Holds(m, dst)
    ensures X.TrueParity(m, rhs) == (X.TrueParity(m, kept) + if negate then 1 else 0) % 2
  {
  }

  lemma KeptFrom(s: State, values: seq<int>, gate: Gate, dst: Lit, src: Lit, kept: seq<Lit>, negate: bool)
    requires XorRewritten(values, gate.rhs, dst, src, kept, negate) && FromVar(s, gate, Var(dst))
    requires forall l :: l in gate.rhs ==> FromInput(s, gate, l)
    ensures forall l :: l in kept ==> FromInput(s, gate, l)
  {
    hide FromInput;
    XorRewrittenInputs(values, gate.rhs, dst, src, kept, negate);
    assert Var(2 * Var(dst)) == Var(dst);
  }

  /** The literal that replaces an input, and its negation, come from this input. */
  lemma DstInput(s0: State, s: State, gate: Gate, dst: Lit, src: Lit)
    requires Learned(s0, s) && KnownSame(s0, src, dst) && src in gate.rhs
    ensures FromVar(s, gate, Var(dst))
  {
    assert KnownSame(s, src, dst);
    forall l | Var(l) == Var(dst) ensures FromInput(s, gate, l) {
      SameVar(dst, l);
      SameVar(l, dst);
      assert KnownVar(s, src, l);
    }
  }

  /** A gate is dropped because a literal in the lists of which it is has been merged with its output. */
  lemma XorDropped(s: State, gates0: seq<Gate>, gates: seq<Gate>, os: seq<Gate>, g: nat, dst: Lit, src: Lit, i: nat)
    requires Tracked(s, gates0, os) && g < |gates0| && !gates0[g].garbage && gates0[g].tag == Xor
    requires KnownSame(s, src, dst) && Var(dst) == Var(gates0[g].lhs)
    requires src < |s.occurrences| && i < |s.occurrences[src]| && s.occurrences[src][i] == g
    ensures Accounted(s, gates, os, gates0[g])
  {
    if !s.inconsistent {
      var gate, k := gates0[g], os[g];
      assert ListedFrom(s, gates0, os, src, g) && Descends(s, gate, k);
      var b :| Alike(s, k, gate, b);
      OutputVar(s, k, gate, b, dst);
      DstSame(s, src, dst);
      hide KnownVar, Alike;
      var j :| j in k.rhs && KnownVar(s, j, src);
      KnownVarTrans(s, j, src, dst);
      KnownVarTrans(s, j, dst, k.lhs);
      assert SelfInput(s, k);
    }
  }

  lemma DstSame(s: State, src: Lit, dst: Lit)
    requires KnownSame(s, src, dst)
    ensures KnownVar(s, src, dst)
  {
  }

  lemma OutputVar(s: State, k: Gate, gate: Gate, b: bool, dst: Lit)
    requires Alike(s, k, gate, b) && Var(dst) == Var(gate.lhs)
    ensures KnownVar(s, dst, k.lhs)
  {
    SameVar(dst, gate.lhs);
    forall m: Model ensures Holds(m, Neg(dst)) == !Holds(m, dst) && Holds(m, Neg(k.lhs)) == !Holds(m, k.lhs) {
      HoldsNeg(m, dst);
      HoldsNeg(m, k.lhs);
    }
    if dst == gate.lhs {
      assert KnownSame(s, dst, if b then Neg(k.lhs) else k.lhs);
    } else {
      assert gate.lhs == Neg(dst);
      assert KnownSame(s, dst, if b then k.lhs else Neg(k.lhs));
    }
  }

  // ITE gates

  /** The rewritten gate says the same as the choice, whatever the output. */
  ghost predicate SaysChoice(s: State, c: seq<Lit>, lhs: Lit, r: Rewritten)
    requires |c| == 3
  {
    forall m: Model :: Knows(m, s) ==> ((Holds(m, lhs) <==> Choice(m, c)) <==> Means(m, lhs, r))
  }

  /** The literals of what a gate has become. */
  ghost predicate PartsFrom(s: State, gate: Gate, r: Rewritten) {
    match r
    case Equal(_) => true
    case Fixed(_) => true
    case Small(_, _, a, b) => FromVar(s, gate, Var(a)) && FromVar(s, gate, Var(b))
    case Still(c) => |c| == 3 && FromVar(s, gate, Var(c[0])) && FromVar(s, gate, Var(c[1])) &&
                     FromVar(s, gate, Var(c[2]))
  }

  ghost predicate FromVar(s: State, gate: Gate, v: nat) {
    forall l :: Var(l) == v ==> FromInput(s, gate, l)
  }

  lemma IteBecame(s: State, gates: seq<Gate>, os: seq<Gate>, g: nat, gate: Gate, r: Rewritten)
    requires gate.tag == Ite && |gate.rhs| == 3 && SaysChoice(s, gate.rhs, gate.lhs, r)
    requires r.Small? ==> r.tag == And || r.tag == Xor
    requires IteUpdated(s, gates, g, gate, r) && !gate.garbage && PartsFrom(s, gate, r)
    ensures Accounted(s, gates, os, gate) && (s.inconsistent || Moves(s, gate, gates[g]))
  {
    if !s.inconsistent {
      hide Knows, Excused, KnownEqual, Settled, SmallOf, NormalIte, FromInput, Alike;
      match r {
        case Equal(other) =>
          EqualKnown(s, gate.lhs, other);
          IteSolved(s, gate, r);
        case Fixed(negated) =>
          FixedKnown(s, gate.lhs, negated);
          IteSolved(s, gate, r);
        case Small(_, _, _, _) =>
          SmallTracks(s, gate, r);
          SettledAccounted(s, gates, os, g, SmallOf(gate, r), gate, SmallOf(gate, r).lhs != gate.lhs);
          SmallVars(gate, r);
          SettledMoves(s, gates, g, SmallOf(gate, r), gate, SmallOf(gate, r).lhs != gate.lhs);
        case Still(c) =>
          StillTracks(s, gate, r);
          SettledAccounted(s, gates, os, g, Rewired(gate, Ite, if NormalIte(c).1 then Neg(gate.lhs) else gate.lhs,
                                                NormalIte(c).0), gate, NormalIte(c).1);
          StillVars(c);
          SettledMoves(s, gates, g, Rewired(gate, Ite, if NormalIte(c).1 then Neg(gate.lhs) else gate.lhs,
                                            NormalIte(c).0), gate, NormalIte(c).1);
      }
    }
  }

  lemma FixedKnown(s: State, lhs: Lit, negated: bool)
    requires True(s.values, if negated then Neg(lhs) else lhs)
    ensures forall m: Model :: Knows(m, s) ==> Holds(m, lhs) != negated
  {
    forall m: Model | Knows(m, s) ensures Holds(m, lhs) != negated {
      HoldsNeg(m, lhs);
    }
  }

  lemma IteSolved(s: State, gate: Gate, r: Rewritten)
    requires gate.tag == Ite && |gate.rhs| == 3 && SaysChoice(s, gate.rhs, gate.lhs, r)
    requires forall m: Model :: Knows(m, s) ==> Means(m, gate.lhs, r)
    ensures Solved(s, gate)
  {
  }

  lemma SmallTracks(s: State, gate: Gate, r: Rewritten)
    requires gate.tag == Ite && |gate.rhs| == 3 && SaysChoice(s, gate.rhs, gate.lhs, r)
    requires r.Small? && (r.tag == And || r.tag == Xor)
    ensures Tracks(s, SmallOf(gate, r), gate, SmallOf(gate, r).lhs != gate.lhs)
  {
    var small := SmallOf(gate, r);
    var b := small.lhs != gate.lhs;
    SameVar(gate.lhs, gate.lhs);
    forall m: Model | Knows(m, s)
      ensures (Holds(m, small.lhs) <==> (Holds(m, gate.lhs) != b)) && (Eval(m, small) <==> (Eval(m, gate) != b)) {
      SmallOfHolds(m, gate, r);
      HoldsNeg(m, gate.lhs);
    }
  }

  lemma StillTracks(s: State, gate: Gate, r: Rewritten)
    requires gate.tag == Ite && |gate.rhs| == 3 && SaysChoice(s, gate.rhs, gate.lhs, r) && r.Still? && |r.rhs| == 3
    ensures var d := NormalIte(r.rhs);
            Tracks(s, Rewired(gate, Ite, if d.1 then Neg(gate.lhs) else gate.lhs, d.0), gate, d.1)
  {
    var d := NormalIte(r.rhs);
    var gate' := Rewired(gate, Ite, if d.1 then Neg(gate.lhs) else gate.lhs, d.0);
    forall m: Model | Knows(m, s)
      ensures (Holds(m, gate'.lhs) <==> (Holds(m, gate.lhs) != d.1)) && (Eval(m, gate') <==> (Eval(m, gate) != d.1)) {
      NormalIteHolds(m, r.rhs);
      HoldsNeg(m, gate.lhs);
    }
  }

  lemma SimplifyIteAccounted(s0: State, s: State, gates: seq<Gate>, os: seq<Gate>, g: nat, gate: Gate)
    requires Learned(s0, s) && gate.tag == Ite && |gate.rhs| == 3
    requires exists l :: l in gate.rhs && l < |s0.values| && s0.values[l] != 0
    requires IteUpdated(s, gates, g, gate, SimplifyIte(s0.values, gate.rhs)) && !gate.garbage
    ensures Accounted(s, gates, os, gate) && (s.inconsistent || Moves(s, gate, gates[g]))
  {
    hide SimplifyIte, IteUpdated, PartsFrom;
    var l :| l in gate.rhs && l < |s0.values| && s0.values[l] != 0;
    var i :| 0 <= i < 3 && gate.rhs[i] == l;
    assert True(s0.values, gate.rhs[i]) || False(s0.values, gate.rhs[i]);
    SimplifyParts(s, s0.values, gate);
    forall m: Model | Knows(m, s)
      ensures (Holds(m, gate.lhs) <==> Choice(m, gate.rhs)) <==> Means(m, gate.lhs, SimplifyIte(s0.values, gate.rhs)) {
      assert Knows(m, s0);
      SimplifyIteMeans(m, s0.values, gate.lhs, gate.rhs);
    }
    SmallKinds(s0.values, gate.rhs);
    IteBecame(s, gates, os, g, gate, SimplifyIte(s0.values, gate.rhs));
  }

  lemma VarInput(s: State, gate: Gate)
    ensures forall k :: k in gate.rhs ==> FromVar(s, gate, Var(k))
  {
    forall k, l | k in gate.rhs && Var(l) == Var(k) ensures FromInput(s, gate, l) {
      SameVar(k, l);
      SameVar(l, k);
      assert KnownVar(s, k, l);
    }
  }

  lemma SimplifyParts(s: State, values: seq<int>, gate: Gate)
    requires |gate.rhs| == 3
    requires exists i :: 0 <= i < 3 && (True(values, gate.rhs[i]) || False(values, gate.rhs[i]))
    ensures PartsFrom(s, gate, SimplifyIte(values, gate.rhs))
  {
    VarInput(s, gate);
    hide FromVar;
    var c := gate.rhs;
    assert c[0] in c && c[1] in c && c[2] in c;
    SameVar(c[0], c[0]);
    SameVar(c[1], c[1]);
    SameVar(c[2], c[2]);
  }

  lemma NegatedVar(l: Lit)
    ensures Var(Neg(l)) == Var(l)
  {
  }

  lemma RewriteParts(s: State, gate: Gate, dst: Lit, src: Lit)
    requires |gate.rhs| == 3 && src in gate.rhs && FromVar(s, gate, Var(dst))
    ensures PartsFrom(s, gate, RewriteIte(gate.rhs, dst, src))
  {
    VarInput(s, gate);
    hide FromVar, Var, Neg;
    NegatedVar(gate.rhs[0]);
    NegatedVar(gate.rhs[1]);
    NegatedVar(gate.rhs[2]);
    var c := gate.rhs;
    assert c[0] in c && c[1] in c && c[2] in c;
  }

  lemma SmallKinds(values: seq<int>, c: seq<Lit>)
    requires |c| == 3
    ensures var r := SimplifyIte(values, c); r.Small? ==> r.tag == And || r.tag == Xor
    ensures forall dst, src :: src in c ==>
              var r := RewriteIte(c, dst, src); r.Small? ==> r.tag == And || r.tag == Xor
  {
  }

  lemma RewriteIteAccounted(s0: State, s: State, gates: seq<Gate>, os: seq<Gate>, g: nat,
                            gate: Gate, dst: Lit, src: Lit)
    requires Learned(s0, s) && gate.tag == Ite && |gate.rhs| == 3 && src in gate.rhs && KnownSame(s0, src, dst)
    requires IteUpdated(s, gates, g, gate, RewriteIte(gate.rhs, dst, src)) && !gate.garbage
    ensures Accounted(s, gates, os, gate) && (s.inconsistent || Moves(s, gate, gates[g]))
  {
    DstInput(s0, s, gate, dst, src);
    RewriteParts(s, gate, dst, src);
    hide RewriteIte, IteUpdated, PartsFrom;
    forall m: Model | Knows(m, s)
      ensures (Holds(m, gate.lhs) <==> Choice(m, gate.rhs)) <==> Means(m, gate.lhs, RewriteIte(gate.rhs, dst, src)) {
      assert Knows(m, s0);
      RewriteIteMeans(m, gate.lhs, gate.rhs, dst, src);
    }
    SmallKinds([], gate.rhs);
    IteBecame(s, gates, os, g, gate, RewriteIte(gate.rhs, dst, src));
  }

  // One step

  lemma KeepsGate(s: State, gates: seq<Gate>, s': State, gates': seq<Gate>, g: nat)
    requires Learned(s, s') && OthersKept(gates, gates', g) && g < |gates|
    requires Appended(s.occurrences, s'.occurrences, g, gates'[g].rhs)
    requires gates[g].garbage ==> gates'[g].garbage
    requires !gates[g].garbage ==> s'.inconsistent || Moves(s', gates[g], gates'[g])
    requires !gates[g].garbage ==> forall os :: Tracked(s, gates, os) ==> Accounted(s', gates', os, gates[g])
    ensures Keeps(s, gates, s', gates')
  {
    if s'.inconsistent {
      KeepsInconsistent(s, gates, s', gates');
    } else {
      hide Descends;
      KeepsOthers(s, gates, s', gates', g);
    }
  }

  lemma SimplifyAndKeeps(s0: State, gates0: seq<Gate>, s: State, gates: seq<Gate>, g: nat, kept: seq<Lit>, forced: bool)
    requires Learned(s0, s) && OthersKept(gates0, gates, g) && g < |gates0| && gates0[g].tag == And
    requires s.occurrences == s0.occurrences
    requires var gate := gates0[g];
             if gate.garbage then gates == gates0
             else
               && (forall l :: l in gate.rhs ==> l < |s0.values|)
               && if True(s0.values, gate.lhs) then gates[g].garbage
                  else AndSimplified(s0.values, gate.rhs, kept, forced) &&
                       AndUpdated(s, gates, g, gate.(rhs := kept), forced)
    ensures Keeps(s0, gates0, s, gates)
  {
    hide Learned, AndSimplified, AndUpdated, Accounted, Tracked, Moves, Appended;
    AppendedRefl(s.occurrences, g, gates[g].rhs);
    if !gates0[g].garbage {
      AndMoves(s, gates, g, gates0[g], gates0[g].(rhs := kept), forced);
      forall os | Tracked(s0, gates0, os) ensures Accounted(s, gates, os, gates0[g]) {
        SimplifyAndAccounted(s0, s, gates, os, g, gates0[g], kept, forced);
      }
    }
    KeepsGate(s0, gates0, s, gates, g);
  }

  lemma RewriteAndKeeps(s0: State, gates0: seq<Gate>, s: State, gates: seq<Gate>, g: nat, dst: Lit, src: Lit,
                        kept: seq<Lit>, forced: bool)
    requires Learned(s0, s) && OthersKept(gates0, gates, g) && g < |gates0| && gates0[g].tag == And
    requires s.occurrences == s0.occurrences && KnownSame(s0, src, dst) && dst < |s0.values|
    requires var gate := gates0[g];
             if gate.garbage then gates == gates0
             else
               && (forall l :: l in gate.rhs ==> l < |s0.values|)
               && if True(s0.values, gate.lhs) then gates[g].garbage
                  else if src !in gate.rhs then gates == gates0
                  else AndRewritten(s0.values, Replace(gate.rhs, src, dst), gate.lhs, dst, kept, forced) &&
                       AndUpdated(s, gates, g, gate.(rhs := kept), forced)
    ensures Keeps(s0, gates0, s, gates)
  {
    hide Learned, AndRewritten, AndUpdated, Accounted, Tracked, Moves, KnownSame, Appended;
    AppendedRefl(s.occurrences, g, gates[g].rhs);
    if !gates0[g].garbage {
      AndMoves(s, gates, g, gates0[g], gates0[g].(rhs := kept), forced);
      forall os | Tracked(s0, gates0, os) ensures Accounted(s, gates, os, gates0[g]) {
        RewriteAndAccounted(s0, s, gates, os, g, gates0[g], dst, src, kept, forced);
      }
    }
    KeepsGate(s0, gates0, s, gates, g);
  }

  lemma SimplifyXorKeeps(s0: State, gates0: seq<Gate>, s: State, gates: seq<Gate>, g: nat, kept: seq<Lit>, negate: bool)
    requires Learned(s0, s) && OthersKept(gates0, gates, g) && g < |gates0| && gates0[g].tag == Xor
    requires s.occurrences == s0.occurrences
    requires var gate := gates0[g];
             if gate.garbage then gates == gates0
             else XorSimplified(s0.values, gate.rhs, kept, negate) &&
                  XorUpdated(s, gates, g, gate.(lhs := if negate then Neg(gate.lhs) else gate.lhs, rhs := kept))
    ensures Keeps(s0, gates0, s, gates)
  {
    hide Learned, XorSimplified, XorUpdated, Accounted, Tracked, Moves, Appended;
    AppendedRefl(s.occurrences, g, gates[g].rhs);
    if !gates0[g].garbage {
      forall os | Tracked(s0, gates0, os) ensures Accounted(s, gates, os, gates0[g]) {
        SimplifyXorAccounted(s0, s, gates, os, g, gates0[g], kept, negate);
      }
      SimplifyXorAccounted(s0, s, gates, [], g, gates0[g], kept, negate);
    }
    KeepsGate(s0, gates0, s, gates, g);
  }

  lemma RewriteXorKeeps(s0: State, gates0: seq<Gate>, s: State, gates: seq<Gate>, g: nat, dst: Lit, src: Lit,
                        kept: seq<Lit>, negate: bool, i: nat)
    requires Learned(s0, s) && OthersKept(gates0, gates, g) && g < |gates0| && gates0[g].tag == Xor
    requires Appended(s0.occurrences, s.occurrences, g, gates[g].rhs) && KnownSame(s0, src, dst)
    requires src < |s0.occurrences| && i < |s0.occurrences[src]| && s0.occurrences[src][i] == g
    requires var gate := gates0[g];
             if gate.garbage then gates == gates0
             else if Var(dst) == Var(gate.lhs) then s == s0 && gates[g].garbage
             else if src !in gate.rhs then gates == gates0
             else XorRewritten(s0.values, gate.rhs, dst, src, kept, negate) &&
                  XorUpdated(s, gates, g, gate.(lhs := if negate then Neg(gate.lhs) else gate.lhs, rhs := kept))
    ensures Keeps(s0, gates0, s, gates)
  {
    hide Learned, XorRewritten, XorUpdated, Accounted, Tracked, Moves, KnownSame, Appended;
    var gate := gates0[g];
    if !gate.garbage {
      if Var(dst) == Var(gate.lhs) {
        forall os | Tracked(s0, gates0, os) ensures Accounted(s, gates, os, gate) {
          XorDropped(s, gates0, gates, os, g, dst, src, i);
        }
        assert Moves(s, gate, gates[g]) by { GarbageMoves(s, gate, gates[g]); }
      } else if src !in gate.rhs {
        forall os | Tracked(s0, gates0, os) ensures Accounted(s, gates, os, gate) {
          AccountedLive(s, gates, os, g);
        }
        MovesNot(s, gate);
      } else {
        forall os | Tracked(s0, gates0, os) ensures Accounted(s, gates, os, gate) {
          RewriteXorAccounted(s0, s, gates, os, g, gate, dst, src, kept, negate);
        }
        RewriteXorAccounted(s0, s, gates, [], g, gate, dst, src, kept, negate);
      }
    }
    KeepsGate(s0, gates0, s, gates, g);
  }

  lemma GarbageMoves(s: State, gate: Gate, h: Gate)
    requires h.garbage
    ensures Moves(s, gate, h)
  {
  }

  lemma SimplifyIteKeeps(s0: State, gates0: seq<Gate>, s: State, gates: seq<Gate>, g: nat)
    requires Learned(s0, s) && OthersKept(gates0, gates, g) && g < |gates0| && gates0[g].tag == Ite
    requires Appended(s0.occurrences, s.occurrences, g, gates[g].rhs)
    requires var gate := gates0[g];
             if gate.garbage then gates == gates0
             else |gate.rhs| == 3 && IteUpdated(s, gates, g, gate, SimplifyIte(s0.values, gate.rhs)) &&
                  exists l :: l in gate.rhs && l < |s0.values| && s0.values[l] != 0
    ensures Keeps(s0, gates0, s, gates)
  {
    hide Learned, IteUpdated, SimplifyIte, Accounted, Tracked, Moves, Appended;
    if !gates0[g].garbage {
      forall os | Tracked(s0, gates0, os) ensures Accounted(s, gates, os, gates0[g]) {
        SimplifyIteAccounted(s0, s, gates, os, g, gates0[g]);
      }
      SimplifyIteAccounted(s0, s, gates, [], g, gates0[g]);
    }
    KeepsGate(s0, gates0, s, gates, g);
  }

  lemma RewriteIteKeeps(s0: State, gates0: seq<Gate>, s: State, gates: seq<Gate>, g: nat, dst: Lit, src: Lit)
    requires Learned(s0, s) && OthersKept(gates0, gates, g) && g < |gates0| && gates0[g].tag == Ite
    requires Appended(s0.occurrences, s.occurrences, g, gates[g].rhs) && KnownSame(s0, src, dst)
    requires var gate := gates0[g];
             if gate.garbage || src !in gate.rhs then gates == gates0
             else |gate.rhs| == 3 && IteUpdated(s, gates, g, gate, RewriteIte(gate.rhs, dst, src))
    ensures Keeps(s0, gates0, s, gates)
  {
    hide Learned, IteUpdated, RewriteIte, Accounted, Tracked, Moves, KnownSame, Appended;
    var gate := gates0[g];
    if !gate.garbage {
      if src !in gate.rhs {
        forall os | Tracked(s0, gates0, os) ensures Accounted(s, gates, os, gate) {
          AccountedLive(s, gates, os, g);
        }
        MovesNot(s, gate);
      } else {
        forall os | Tracked(s0, gates0, os) ensures Accounted(s, gates, os, gate) {
          RewriteIteAccounted(s0, s, gates, os, g, gate, dst, src);
        }
        RewriteIteAccounted(s0, s, gates, [], g, gate, dst, src);
      }
    }
    KeepsGate(s0, gates0, s, gates, g);
  }

  lemma KeepsReleased(s0: State, gates0: seq<Gate>, s: State, gates: seq<Gate>, l: Lit)
    requires Keeps(s0, gates0, s, gates) && l < |s.occurrences|
    ensures Keeps(s0, gates0, s.(occurrences := s.occurrences[l := []]), gates)
  {
    hide Keeps;
    KeepsSame(s, s.(occurrences := s.occurrences[l := []]), gates);
    KeepsTrans(s0, gates0, s, gates, s.(occurrences := s.occurrences[l := []]), gates);
  }

  lemma LearnedFrame(s: State, s1: State, s2: State)
    requires Learned(s, s1) && s2 == s1.(occurrences := s2.occurrences)
    ensures Learned(s, s2)
  {
    assert forall m: Model :: Knows(m, s2) ==> Knows(m, s1);
  }

  lemma KnownSameLater(s: State, s': State, k: Lit, l: Lit)
    requires KnownSame(s, k, l) && Learned(s, s')
    ensures KnownSame(s', k, l)
  {
  }

  /** A literal is known to be its representative. */
  lemma RootKnown(s: State, ms: iset<Model>, l: Lit)
    requires Base(s, ms) && l < |s.repr|
    ensures KnownSame(s, l, Root(s.repr, l)) && KnownSame(s, Neg(l), Neg(Root(s.repr, l)))
  {
    hide Root;
    forall m: Model | Knows(m, s)
      ensures (Holds(m, l) <==> Holds(m, Root(s.repr, l))) && (Holds(m, Neg(l)) <==> Holds(m, Neg(Root(s.repr, l)))) {
      RootHolds(m, s.repr, l);
      HoldsNeg(m, l);
      HoldsNeg(m, Root(s.repr, l));
    }
  }

  // ------------------------------------------------------------------ all congruent gates have been merged

  /** The model of what is known in which the representatives without values are as in t. */
  ghost function Build(s: State, t: Model): Model
    requires ReprOK(s.repr)
  {
    iset v: nat | 2 * v < |s.values| == |s.repr| &&
                  (s.values[2 * v] > 0 || (s.values[2 * v] == 0 && Holds(t, Root(s.repr, 2 * v))))
  }

  lemma BuiltHolds(s: State, ms: iset<Model>, t: Model, l: Lit)
    requires Base(s, ms) && Agree(s) && l < |s.values|
    ensures Holds(Build(s, t), l) <==> if s.values[l] != 0 then s.values[l] > 0 else Holds(t, Root(s.repr, l))
  {
    hide Build, Root, Base, Agree, Holds;
    var p := 2 * Var(l);
    EvenLit(s, ms, l);
    BuiltAt(s, t, Var(l));
    if l != p {
      RootFacts(s.repr, p);
      HoldsNeg(t, Root(s.repr, p));
      HoldsNeg(Build(s, t), p);
    }
  }

  lemma EvenLit(s: State, ms: iset<Model>, l: Lit)
    requires Base(s, ms) && l < |s.values|
    ensures ReprOK(s.repr) && 2 * Var(l) < |s.values| == |s.repr| && (l == 2 * Var(l) || l == Neg(2 * Var(l)))
    ensures Neg(2 * Var(l)) < |s.values| && s.values[Neg(2 * Var(l))] == -s.values[2 * Var(l)]
  {
  }

  lemma BuiltAt(s: State, t: Model, v: nat)
    requires ReprOK(s.repr) && 2 * v < |s.values| == |s.repr|
    ensures Holds(Build(s, t), 2 * v) <==>
            (s.values[2 * v] > 0 || (s.values[2 * v] == 0 && Holds(t, Root(s.repr, 2 * v))))
  {
    hide Root;
    assert Var(2 * v) == v;
  }

  lemma BuiltKnows(s: State, ms: iset<Model>, t: Model)
    requires Base(s, ms) && Agree(s)
    ensures Knows(Build(s, t), s)
  {
    hide ModelOf, Build;
    var m := Build(s, t);
    forall l: nat | l < |s.values|
      ensures Holds(m, l) == Holds(m, s.repr[l])
      ensures (True(s.values, l) ==> Holds(m, l)) && (False(s.values, l) ==> !Holds(m, l)) {
      BuiltHolds(s, ms, t, l);
      BuiltHolds(s, ms, t, s.repr[l]);
    }
  }

  /** Gates over representatives without values are the same function of the chosen values. */
  lemma BuiltEval(s: State, ms: iset<Model>, t: Model, g: Gate)
    requires Base(s, ms) && Agree(s) && forall l :: l in g.rhs ==> l < |s.values| && s.values[l] == 0 && s.repr[l] == l
    ensures Eval(Build(s, t), g) == Eval(t, g)
  {
    hide ModelOf, Build;
    var m := Build(s, t);
    forall l | l in g.rhs ensures Holds(m, l) == Holds(t, l) {
      BuiltHolds(s, ms, t, l);
    }
    SameEval(m, t, g);
  }

  lemma SameEval(m: Model, t: Model, g: Gate)
    requires forall l :: l in g.rhs ==> Holds(m, l) == Holds(t, l)
    ensures Eval(m, g) == Eval(t, g)
  {
    match g.tag
    case And =>
    case Xor => SameParity(m, t, g.rhs);
    case Ite => if |g.rhs| == 3 {
      assert g.rhs[0] in g.rhs && g.rhs[1] in g.rhs && g.rhs[2] in g.rhs;
    }
  }

  lemma {:induction false} SameParity(m: Model, t: Model, c: seq<Lit>)
    requires forall l :: l in c ==> Holds(m, l) == Holds(t, l)
    ensures X.TrueParity(m, c) == X.TrueParity(t, c)
  {
    if c != [] {
      assert c[0] in c && forall l :: l in c[1..] ==> l in c;
      SameParity(m, t, c[1..]);
    }
  }

  /** What is known to be equal has the same representative or the same value. */
  lemma SameKnownEqual(s: State, ms: iset<Model>, k: Lit, l: Lit)
    requires Base(s, ms) && Agree(s) && k < |s.values| && l < |s.values| && KnownSame(s, k, l)
    ensures KnownEqual(s, k, l)
  {
    hide Root, ModelOf, Build, Knows;
    var r, q := Root(s.repr, k), Root(s.repr, l);
    if r != q {
      var t := Make(Make(iset{}, r), Neg(q));
      Made(iset{}, r);
      Made(Make(iset{}, r), Neg(q));
      SameVar(q, q);
      SameVar(r, q);
      SameVar(q, r);
      var u := Make(iset{}, q);
      Made(iset{}, q);
      BuiltKnows(s, ms, t);
      BuiltHolds(s, ms, t, k);
      BuiltHolds(s, ms, t, l);
      var w := Make(iset{}, Neg(r));
      Made(iset{}, Neg(r));
      SameVar(r, r);
      BuiltKnows(s, ms, u);
      BuiltHolds(s, ms, u, k);
      BuiltHolds(s, ms, u, l);
      BuiltKnows(s, ms, w);
      BuiltHolds(s, ms, w, k);
      BuiltHolds(s, ms, w, l);
      RangeOf(s, ms, k);
      RangeOf(s, ms, l);
    }
  }

  lemma RangeOf(s: State, ms: iset<Model>, l: Lit)
    requires Base(s, ms) && l < |s.values|
    ensures -1 <= s.values[l] <= 1
  {
  }

  /** The gates are the same function of what is not known. */
  ghost predicate Equal(s: State, g: Gate, h: Gate) {
    forall m: Model :: Knows(m, s) ==> (Eval(m, g) <==> Eval(m, h))
  }

  /** What is known does not make an AND gate true, nor fix the value of an ITE gate. */
  ghost predicate Varies(s: State, g: Gate) {
    && (g.tag != Xor ==> exists m: Model :: Knows(m, s) && !Eval(m, g))
    && (g.tag == Ite ==> exists m: Model :: Knows(m, s) && Eval(m, g))
  }

  /** Of any two gates at the start that have become the same function the outputs have been merged. */
  ghost predicate AllMerged(s: State, os: seq<Gate>) {
    forall g, h :: 0 <= g < |os| && 0 <= h < |os| && !os[g].garbage && !os[h].garbage ==>
                   PairMerged(s, os, os[g], os[h])
  }

  ghost predicate PairMerged(s: State, os: seq<Gate>, g: Gate, h: Gate) {
    Equal(s, g, h) && Varies(s, g) && Varies(s, h) ==>
      Excused(s, os, g) || Excused(s, os, h) || KnownEqual(s, g.lhs, h.lhs)
  }

  /** Normalized gates that stand for the same function are the same gate. */
  lemma SameTracker(s: State, ms: iset<Model>, gates: seq<Gate>, g: Gate, h: Gate, i: nat, j: nat, b: bool, b': bool)
    requires Base(s, ms) && Agree(s) && !s.inconsistent && Equal(s, g, h) && Normalized(s, gates)
    requires i < |gates| && j < |gates| && !gates[i].garbage && !gates[j].garbage
    requires Shaped(gates[i]) && Shaped(gates[j]) && (i != j ==> !SameFunction(gates[i], gates[j]))
    requires Alike(s, gates[i], g, b) && Alike(s, gates[j], h, b')
    ensures i == j && b == b'
  {
    hide ModelOf, Build, Shaped, Knows, Eval;
    BuiltKnows(s, ms, iset{});
    if i != j {
      ShapedApart(gates[i], gates[j]);
      NotSame(gates[i], gates[j], b != b');
      var t: Model :| Eval(t, gates[i]) != (Eval(t, gates[j]) != (b != b'));
      NormalInputs(s, gates, i);
      NormalInputs(s, gates, j);
      BuiltEval(s, ms, t, gates[i]);
      BuiltEval(s, ms, t, gates[j]);
      BuiltKnows(s, ms, t);
    }
  }

  /** A normalized gate does not stand for one that is known. */
  lemma TrackerOpen(s: State, ms: iset<Model>, gates: seq<Gate>, g: Gate, i: nat, b: bool, l: Lit)
    requires Base(s, ms) && Agree(s) && !s.inconsistent && Normalized(s, gates) && i < |gates| && !gates[i].garbage
    requires Shaped(gates[i]) && Tracks(s, gates[i], g, b) && l < |s.values| && Varies(s, g)
    ensures exists m: Model :: Knows(m, s) && Eval(m, g) != Holds(m, l)
  {
    hide ModelOf, Build, Shaped, Knows, Root;
    if gates[i].tag == And && gates[i].rhs == [] {
      EmptyFixed(s, gates[i], g, b);
    } else {
      var v := s.values[l];
      var t: Model;
      if v != 0 {
        NotConstant(gates[i], (v > 0) != b);
        t :| Eval(t, gates[i]) != ((v > 0) != b);
      } else {
        NotLiteral(gates[i], Root(s.repr, l), b);
        t :| Eval(t, gates[i]) != (Holds(t, Root(s.repr, l)) != b);
      }
      hide Eval;
      NormalInputs(s, gates, i);
      BuiltKnows(s, ms, t);
      BuiltHolds(s, ms, t, l);
      BuiltEval(s, ms, t, gates[i]);
      assert Knows(Build(s, t), s) && Eval(Build(s, t), g) != Holds(Build(s, t), l);
    }
  }

  lemma EmptyFixed(s: State, h: Gate, g: Gate, b: bool)
    requires Tracks(s, h, g, b) && h.tag == And && h.rhs == []
    ensures !Varies(s, g)
  {
    assert forall m: Model :: Eval(m, h);
    assert forall m: Model :: Knows(m, s) ==> Eval(m, g) != b;
  }

  lemma NormalInputs(s: State, gates: seq<Gate>, i: nat)
    requires Normalized(s, gates) && i < |gates| && !gates[i].garbage
    ensures forall l :: l in gates[i].rhs ==> l < |s.values| == |s.repr| && s.values[l] == 0 && s.repr[l] == l
  {
  }

  lemma PairDone(s: State, ms: iset<Model>, gates: seq<Gate>, os: seq<Gate>, g: Gate, h: Gate)
    requires Base(s, ms) && Agree(s) && !s.inconsistent && Normalized(s, gates)
    requires forall i :: 0 <= i < |gates| && !gates[i].garbage ==> Shaped(gates[i])
    requires forall i, j :: 0 <= i < |gates| && 0 <= j < |gates| && i != j && !gates[i].garbage && !gates[j].garbage ==>
               !SameFunction(gates[i], gates[j])
    requires Accounted(s, gates, os, g) && Accounted(s, gates, os, h) && g.lhs < |s.values| && h.lhs < |s.values|
    ensures PairMerged(s, os, g, h)
  {
    hide ModelOf, Excused, Shaped, Normalized, KnownEqual, Knows, Eval, Varies;
    if Equal(s, g, h) && Varies(s, g) && Varies(s, h) && !Excused(s, os, g) && !Excused(s, os, h) {
      if Solved(s, g) && Solved(s, h) {
        assert KnownSame(s, g.lhs, h.lhs);
      } else if Solved(s, h) {
        var i, b: bool :| 0 <= i < |gates| && !gates[i].garbage && Tracks(s, gates[i], g, b);
        TrackerOpen(s, ms, gates, g, i, b, h.lhs);
      } else if Solved(s, g) {
        var i, b: bool :| 0 <= i < |gates| && !gates[i].garbage && Tracks(s, gates[i], h, b);
        TrackerOpen(s, ms, gates, h, i, b, g.lhs);
      } else {
        var i, b: bool :| 0 <= i < |gates| && !gates[i].garbage && Tracks(s, gates[i], g, b);
        var j, b': bool :| 0 <= j < |gates| && !gates[j].garbage && Tracks(s, gates[j], h, b');
        SameTracker(s, ms, gates, g, h, i, j, b, b');
        assert KnownSame(s, g.lhs, h.lhs);
      }
      SameKnownEqual(s, ms, g.lhs, h.lhs);
    }
  }

  lemma AllDone(s: State, ms: iset<Model>, gates: seq<Gate>, os: seq<Gate>, done: set<nat>,
                hashOf: (Tag, seq<Lit>) -> nat)
    requires Base(s, ms) && Tidy(s, done, -1) && !s.inconsistent && Normalized(s, gates)
    requires Order(s, gates, done, hashOf, -1, -1, -1)
    requires forall g :: 0 <= g < |os| && !os[g].garbage ==> Accounted(s, gates, os, os[g]) && os[g].lhs < |s.values|
    ensures AllMerged(s, os)
  {
    hide ModelOf, Shaped, PairMerged, Accounted;
    forall g, h | 0 <= g < |os| && 0 <= h < |os| && !os[g].garbage && !os[h].garbage
      ensures PairMerged(s, os, os[g], os[h]) {
      PairDone(s, ms, gates, os, os[g], os[h]);
    }
  }

  /** Each gate other than an AND gate is listed only for its own inputs, so that none has been lost before. */
  ghost predicate Connected(s: State, gates: seq<Gate>) {
    s.inconsistent || Rooted(s, gates, gates)
  }

  /** Gates may be added and listed for their inputs. */
  lemma ConnectedLater(s: State, gates: seq<Gate>, s': State, gates': seq<Gate>)
    requires Learned(s, s') && GatesKept(gates, gates') && |s'.occurrences| == |s.occurrences|
    requires forall l: nat, i: nat :: l < |s'.occurrences| && i < |s'.occurrences[l]| ==>
               (i < |s.occurrences[l]| && s'.occurrences[l][i] == s.occurrences[l][i]) ||
               (s'.occurrences[l][i] < |gates'| && l in gates'[s'.occurrences[l][i]].rhs)
    requires Connected(s, gates)
    ensures Connected(s', gates')
  {
    hide FromInput, Knows;
    if !s.inconsistent {
      forall g | 0 <= g < |gates'| && !gates'[g].garbage && gates'[g].tag != And
        ensures Descends(s', gates'[g], gates'[g]) {
        DescendsItself(s', gates'[g]);
      }
      forall l: nat, i: nat | l < |s'.occurrences| && i < |s'.occurrences[l]|
        ensures ListedFrom(s', gates', gates', l, s'.occurrences[l][i]) {
        var h := s'.occurrences[l][i];
        if i < |s.occurrences[l]| && h == s.occurrences[l][i] {
          assert ListedFrom(s, gates, gates, l, h);
          assert gates'[h] == gates'[..|gates|][h];
          if !gates'[h].garbage && gates'[h].tag != And {
            FromInputLater(s, s', gates[h], l);
            SameFromInput(s', gates[h], gates'[h], l);
          }
        } else {
          OwnInput(s', gates'[h], l);
        }
      }
    }
  }

  lemma SameFromInput(s: State, g: Gate, h: Gate, l: Lit)
    requires FromInput(s, g, l) && h.rhs == g.rhs
    ensures FromInput(s, h, l)
  {
  }

  lemma OwnInput(s: State, g: Gate, l: Lit)
    requires l in g.rhs
    ensures FromInput(s, g, l)
  {
    assert KnownVar(s, l, l);
  }

  lemma DescendsItself(s: State, g: Gate)
    requires !g.garbage && g.tag != And
    ensures Descends(s, g, g)
  {
    assert Alike(s, g, g, false);
    forall l | l in g.rhs ensures FromInput(s, g, l) {
      OwnInput(s, g, l);
    }
  }

  lemma ConnectedMerged(s: State, gates: seq<Gate>, s': State, gates': seq<Gate>)
    requires Advanced(s, s', -1) && s'.occurrences == s.occurrences && GatesKept(gates, gates')
    ensures Connected(s, gates) ==> Connected(s', gates')
  {
    if Connected(s, gates) {
      AdvancedLearned(s, s', -1);
      ConnectedLater(s, gates, s', gates');
    }
  }

  lemma ConnectedGate(s: State, gates: seq<Gate>, s': State, gates': seq<Gate>, g: nat)
    requires Advanced(s, s', -1) && GatesKept(gates, gates') && g < |gates'|
    requires Appended(s.occurrences, s'.occurrences, g, gates'[g].rhs)
    ensures Connected(s, gates) ==> Connected(s', gates')
  {
    if Connected(s, gates) {
      AdvancedLearned(s, s', -1);
      ConnectedLater(s, gates, s', gates');
    }
  }

  /** No gate of the start has been lost. */
  lemma StartAccounted(s0: State, gates0: seq<Gate>, s: State, gates: seq<Gate>, ms: iset<Model>)
    requires Connected(s0, gates0) && Keeps(s0, gates0, s, gates) && GatesOK(gates0, |s0.values|, ms)
    ensures forall g :: 0 <= g < |gates0| && !gates0[g].garbage ==>
              Accounted(s, gates, gates0, gates0[g]) && gates0[g].lhs < |s0.values|
  {
    hide Rooted, Accounted;
    assert KeepsFor(s0, gates0, s, gates, gates0);
    forall g | 0 <= g < |gates0| && !gates0[g].garbage
      ensures Accounted(s, gates, gates0, gates0[g]) && gates0[g].lhs < |s0.values| {
      AccountedLive(s0, gates0, gates0, g);
      GateFacts(gates0, g, |s0.values|, ms);
    }
  }

  // The same in terms of representatives

  /** The roots of the inputs: their set for AND gates, their multiset for XOR gates, their order for ITE gates. */
  ghost predicate SameRoots(s: State, g: Gate, h: Gate)
    requires ReprOK(s.repr) && (forall l :: l in g.rhs ==> l < |s.repr|) && (forall l :: l in h.rhs ==> l < |s.repr|)
  {
    && g.tag == h.tag
    && var c, d := RootsOf(s, g.rhs), RootsOf(s, h.rhs);
       match g.tag
       case And => forall l :: l in c <==> l in d
       case Xor => multiset(c) == multiset(d)
       case Ite => c == d
  }

  function RootsOf(s: State, c: seq<Lit>): (d: seq<Lit>)
    requires ReprOK(s.repr) && forall l :: l in c ==> l < |s.repr|
    ensures |d| == |c|
  {
    seq(|c|, i requires 0 <= i < |c| => assert c[i] in c; Root(s.repr, c[i]))
  }

  lemma RootsConjunction(s: State, ms: iset<Model>, c: seq<Lit>, m: Model)
    requires Base(s, ms) && (forall l :: l in c ==> l < |s.repr|) && Knows(m, s)
    ensures SameInputs(s, c, RootsOf(s, c)) && AllTrue(m, RootsOf(s, c)) == AllTrue(m, c)
  {
    hide Root, Knows;
    forall i | 0 <= i < |c| ensures KnownSame(s, c[i], RootsOf(s, c)[i]) {
      assert c[i] in c;
      RootKnown(s, ms, c[i]);
    }
    SameConjunction(s, c, RootsOf(s, c), m);
  }

  lemma {:induction false} RootsParity(s: State, ms: iset<Model>, c: seq<Lit>, m: Model)
    requires Base(s, ms) && (forall l :: l in c ==> l < |s.repr|) && Knows(m, s)
    ensures X.TrueParity(m, RootsOf(s, c)) == X.TrueParity(m, c)
  {
    hide Root, Base;
    if c != [] {
      assert c[0] in c && forall l :: l in c[1..] ==> l in c;
      BaseRepr(s, ms);
      RootKnown(s, ms, c[0]);
      assert RootsOf(s, c)[1..] == RootsOf(s, c[1..]);
      RootsParity(s, ms, c[1..], m);
    }
  }

  lemma BaseRepr(s: State, ms: iset<Model>)
    requires Base(s, ms)
    ensures ReprOK(s.repr) && |s.repr| == |s.values|
  {
  }

  lemma ParityWithout(m: Model, d: seq<Lit>, i: nat)
    requires i < |d|
    ensures X.TrueParity(m, d) == (X.TrueParity(m, Without(d, i)) + if Holds(m, d[i]) then 1 else 0) % 2
  {
    hide X.TrueParity;
    assert d == d[..i] + ([d[i]] + d[i + 1..]);
    X.ParityJoin(m, d[..i], [d[i]] + d[i + 1..]);
    X.ParityJoin(m, [d[i]], d[i + 1..]);
    X.ParityJoin(m, d[..i], d[i + 1..]);
    X.ParityOne(m, d[i]);
  }

  /** The parity depends on the multiset of literals only. */
  lemma {:induction false} MultisetParity(m: Model, c: seq<Lit>, d: seq<Lit>)
    requires multiset(c) == multiset(d)
    ensures X.TrueParity(m, c) == X.TrueParity(m, d)
    decreases |c|
  {
    SameMembers(c, d);
    if c != [] {
      hide X.TrueParity;
      assert c[0] in c;
      var i :| 0 <= i < |d| && d[i] == c[0];
      WithoutSame(c, d, i);
      MultisetParity(m, Without(c, 0), Without(d, i));
      ParityWithout(m, c, 0);
      ParityWithout(m, d, i);
    }
  }

  lemma WithoutSame(c: seq<Lit>, d: seq<Lit>, i: nat)
    requires multiset(c) == multiset(d) && c != [] && i < |d| && d[i] == c[0]
    ensures multiset(Without(c, 0)) == multiset(Without(d, i)) && |Without(c, 0)| < |c|
  {
    assert c == [c[0]] + c[1..] && Without(c, 0) == c[1..];
    assert multiset(c) == multiset{c[0]} + multiset(c[1..]);
    assert d == d[..i] + [d[i]] + d[i + 1..];
    assert multiset(d) == multiset(d[..i]) + multiset{d[i]} + multiset(d[i + 1..]);
    var rest := multiset(d[..i]) + multiset(d[i + 1..]);
    assert multiset(Without(d, i)) == rest;
    assert multiset(c) == rest + multiset{c[0]};
    assert rest == multiset(c) - multiset{c[0]} == multiset(c[1..]);
  }

  lemma RootsEqual(s: State, ms: iset<Model>, g: Gate, h: Gate)
    requires Base(s, ms) && (forall l :: l in g.rhs ==> l < |s.repr|) && (forall l :: l in h.rhs ==> l < |s.repr|)
    requires SameRoots(s, g, h)
    ensures Equal(s, g, h)
  {
    hide Root, Base;
    assert ReprOK(s.repr) by { BaseRepr(s, ms); }
    forall m: Model | Knows(m, s) ensures Eval(m, g) <==> Eval(m, h) {
      match g.tag
      case And =>
        RootsConjunction(s, ms, g.rhs, m);
        RootsConjunction(s, ms, h.rhs, m);
      case Xor =>
        RootsParity(s, ms, g.rhs, m);
        RootsParity(s, ms, h.rhs, m);
        MultisetParity(m, RootsOf(s, g.rhs), RootsOf(s, h.rhs));
      case Ite =>
        if |g.rhs| == 3 {
          ChoiceRoots(s, ms, g.rhs, h.rhs, m);
        } else {
          assert |RootsOf(s, g.rhs)| == |RootsOf(s, h.rhs)|;
        }
    }
  }

  lemma ChoiceRoots(s: State, ms: iset<Model>, c: seq<Lit>, d: seq<Lit>, m: Model)
    requires Base(s, ms) && (forall l :: l in c ==> l < |s.repr|) && (forall l :: l in d ==> l < |s.repr|)
    requires RootsOf(s, c) == RootsOf(s, d) && |c| == 3 && Knows(m, s)
    ensures |d| == 3 && Choice(m, c) == Choice(m, d)
  {
    hide Root;
    assert |RootsOf(s, d)| == |d|;
    forall i | 0 <= i < 3 ensures Holds(m, c[i]) == Holds(m, d[i]) {
      assert c[i] in c && d[i] in d && RootsOf(s, c)[i] == RootsOf(s, d)[i];
      RootKnown(s, ms, c[i]);
      RootKnown(s, ms, d[i]);
    }
  }

  /** An ITE gate with inputs of three variables, by what is known. */
  ghost predicate ThreeRoots(s: State, g: Gate)
    requires ReprOK(s.repr) && forall l :: l in g.rhs ==> l < |s.repr|
  {
    g.tag == Ite ==> |g.rhs| == 3 && DistinctVars(RootsOf(s, g.rhs))
  }

  /** Inputs without values, at least one for an AND gate, and three for an ITE gate. */
  ghost predicate FreeInputs(s: State, g: Gate) {
    && ReprOK(s.repr) && |s.repr| == |s.values| && (forall l :: l in g.rhs ==> l < |s.values| && s.values[l] == 0)
    && (g.tag == And ==> g.rhs != []) && ThreeRoots(s, g)
  }

  /** The same gate over the roots. */
  function RootGate(s: State, g: Gate): Gate
    requires ReprOK(s.repr) && forall l :: l in g.rhs ==> l < |s.repr|
  {
    g.(rhs := RootsOf(s, g.rhs))
  }

  /** Any values of the roots are possible. */
  lemma FreeEval(s: State, ms: iset<Model>, g: Gate, t: Model)
    requires Base(s, ms) && Agree(s) && FreeInputs(s, g)
    ensures Knows(Build(s, t), s) && Eval(Build(s, t), g) == Eval(t, RootGate(s, g))
  {
    hide Root, Base, Build, Agree;
    BuiltKnows(s, ms, t);
    var m, c, d := Build(s, t), g.rhs, RootsOf(s, g.rhs);
    forall i | 0 <= i < |c| ensures Holds(m, c[i]) == Holds(t, d[i]) {
      assert c[i] in c;
      BuiltHolds(s, ms, t, c[i]);
    }
    match g.tag
    case And =>
      assert forall i :: 0 <= i < |c| ==> c[i] in c && d[i] in d;
    case Xor => PointwiseParity(m, t, c, d);
    case Ite =>
  }

  lemma {:induction false} PointwiseParity(m: Model, t: Model, c: seq<Lit>, d: seq<Lit>)
    requires |d| == |c| && forall i :: 0 <= i < |c| ==> Holds(m, c[i]) == Holds(t, d[i])
    ensures X.TrueParity(m, c) == X.TrueParity(t, d)
  {
    if c != [] {
      PointwiseParity(m, t, c[1..], d[1..]);
    }
  }

  lemma KnownValue(s: State, ms: iset<Model>, l: Lit)
    requires Base(s, ms) && Agree(s) && l < |s.values| && KnownTrue(s, l)
    ensures True(s.values, l)
  {
    hide Root, Base, Build, Agree, Knows;
    BaseRepr(s, ms);
    var r := Root(s.repr, l);
    var t := Make(iset{}, Neg(r));
    Made(iset{}, Neg(r));
    SameVar(r, r);
    BuiltKnows(s, ms, t);
    BuiltHolds(s, ms, t, l);
  }

  /** A gate with free inputs varies. */
  lemma FreeVaries(s: State, ms: iset<Model>, g: Gate)
    requires Base(s, ms) && Agree(s) && FreeInputs(s, g)
    ensures Varies(s, g)
  {
    hide Root, Base, Build, Agree, Knows;
    var d := RootsOf(s, g.rhs);
    if g.tag == And {
      var t := Make(iset{}, Neg(d[0]));
      Made(iset{}, Neg(d[0]));
      SameVar(d[0], d[0]);
      FreeEval(s, ms, g, t);
      assert d[0] in d && !Holds(t, d[0]);
      assert !Eval(Build(s, t), g);
    } else if g.tag == Ite {
      var t := Make(Make(iset{}, d[0]), d[1]);
      Made(iset{}, d[0]);
      Made(Make(iset{}, d[0]), d[1]);
      var u := Make(Make(iset{}, d[0]), Neg(d[1]));
      SameVar(d[1], d[1]);
      Made(Make(iset{}, d[0]), Neg(d[1]));
      FreeEval(s, ms, g, t);
      FreeEval(s, ms, g, u);
      assert Eval(Build(s, t), g) && !Eval(Build(s, u), g);
    }
  }

  /** A model with the given values of three literals. */
  ghost function Choose(d: seq<Lit>, x: bool, y: bool, z: bool): Model
    requires |d| == 3
  {
    Make(Make(Make(iset{}, if x then d[0] else Neg(d[0])), if y then d[1] else Neg(d[1])),
         if z then d[2] else Neg(d[2]))
  }

  lemma Chosen(d: seq<Lit>, x: bool, y: bool, z: bool)
    requires |d| == 3 && DistinctVars(d)
    ensures var m := Choose(d, x, y, z);
            && Holds(m, d[0]) == x && Holds(m, d[1]) == y && Holds(m, d[2]) == z
            && forall k :: Var(k) != Var(d[0]) && Var(k) != Var(d[1]) && Var(k) != Var(d[2]) ==>
                 (Holds(m, k) <==> Holds(iset{}, k))
  {
    var a, b, c := if x then d[0] else Neg(d[0]), if y then d[1] else Neg(d[1]), if z then d[2] else Neg(d[2]);
    SameVar(d[0], d[0]);
    SameVar(d[1], d[1]);
    SameVar(d[2], d[2]);
    Made(iset{}, a);
    Made(Make(iset{}, a), b);
    Made(Make(Make(iset{}, a), b), c);
    HoldsNeg(Choose(d, x, y, z), d[0]);
    HoldsNeg(Choose(d, x, y, z), d[1]);
    HoldsNeg(Choose(d, x, y, z), d[2]);
  }

  /** Each literal has in w the value that it has in t or in u. */
  ghost predicate Mixed(t: Model, u: Model, w: Model) {
    forall k: Lit :: Holds(w, k) == Holds(t, k) || Holds(w, k) == Holds(u, k)
  }

  lemma ChosenMixed(d: seq<Lit>, b: bool)
    requires |d| == 3 && DistinctVars(d)
    ensures Mixed(Choose(d, true, !b, b), Choose(d, false, b, !b), Choose(d, false, !b, b))
  {
    var t, u, w := Choose(d, true, !b, b), Choose(d, false, b, !b), Choose(d, false, !b, b);
    hide Choose;
    Chosen(d, true, !b, b);
    Chosen(d, false, b, !b);
    Chosen(d, false, !b, b);
    forall k: Lit ensures Holds(w, k) == Holds(t, k) || Holds(w, k) == Holds(u, k) {
      if i :| 0 <= i < 3 && Var(k) == Var(d[i]) {
        SameVar(k, d[i]);
        SameVar(d[i], k);
        HoldsNeg(t, d[i]);
        HoldsNeg(u, d[i]);
        HoldsNeg(w, d[i]);
        assert i == 0 || i == 1 || i == 2;
      }
    }
  }

  lemma MixedConjunction(s: State, ms: iset<Model>, c: seq<Lit>, t: Model, u: Model, w: Model)
    requires Base(s, ms) && Agree(s) && Mixed(t, u, w)
    requires AllTrue(Build(s, t), c) && AllTrue(Build(s, u), c)
    ensures AllTrue(Build(s, w), c)
  {
    forall l | l in c ensures Holds(Build(s, w), l) {
      if l < |s.values| {
        hide Root, Build;
        BuiltHolds(s, ms, t, l);
        BuiltHolds(s, ms, u, l);
        BuiltHolds(s, ms, w, l);
      } else {
        BuiltOutside(s, ms, t, l);
        BuiltOutside(s, ms, w, l);
      }
    }
  }

  lemma BuiltOutside(s: State, ms: iset<Model>, t: Model, l: Lit)
    requires Base(s, ms) && l >= |s.values|
    ensures Holds(Build(s, t), l) <==> l % 2 == 1
  {
    hide Root;
    assert 2 * Var(l) >= |s.values|;
  }

  /** No choice between literals of three variables is a conjunction or the negation of one. */
  lemma FreeNoConjunction(s: State, ms: iset<Model>, g: Gate)
    requires Base(s, ms) && Agree(s) && FreeInputs(s, g) && g.tag == Ite
    ensures !Conjunction(s, g)
  {
    hide Root, Base, Build, Agree, Knows, Choose, Mixed;
    var d := RootsOf(s, g.rhs);
    forall c, b ensures !ConjunctionOf(s, g, c, b) {
      var t, u, w := Choose(d, true, !b, b), Choose(d, false, b, !b), Choose(d, false, !b, b);
      Chosen(d, true, !b, b);
      Chosen(d, false, b, !b);
      Chosen(d, false, !b, b);
      ChosenMixed(d, b);
      FreeEval(s, ms, g, t);
      FreeEval(s, ms, g, u);
      FreeEval(s, ms, g, w);
      if AllTrue(Build(s, t), c) && AllTrue(Build(s, u), c) {
        MixedConjunction(s, ms, c, t, u, w);
      }
      assert Eval(Build(s, t), g) == Eval(Build(s, u), g) == !b && Eval(Build(s, w), g) == b;
    }
  }

  /**
    Two gates at the start of the same tag, without values of their inputs, the same roots: the outputs have been
    merged, unless the output of an AND gate is true, or a gate other than an AND gate stands for one that has got its
    output as an input.
   */
  ghost predicate CongruentMerged(s: State, os: seq<Gate>) {
    forall g, h :: 0 <= g < |os| && 0 <= h < |os| && !os[g].garbage && !os[h].garbage ==>
                   RootsMerged(s, os, os[g], os[h])
  }

  ghost predicate RootsMerged(s: State, os: seq<Gate>, g: Gate, h: Gate) {
    FreeInputs(s, g) && FreeInputs(s, h) && SameRoots(s, g, h) ==>
      || KnownEqual(s, g.lhs, h.lhs)
      || (if g.tag == And then True(s.values, g.lhs) ||
                               True(s.values, h.lhs) else Selfish(s, os, g) || Selfish(s, os, h))
  }

  /** The gates x = a + b and y = x + b, where x, a, b and y are the variables 0 to 3. */
  function SelfGates(): seq<Gate> {
    [Gate(Xor, 0, [2, 4], 0, false, false), Gate(Xor, 6, [0, 4], 0, false, false)]
  }

  /** The literal a has been merged with x. */
  function SelfState(): State {
    State(seq(8, _ => 0), seq(8, l => if l == 2 then 0 else if l == 3 then 1 else l), [], seq(8, _ => []), [],
          seq(4, _ => false), [], 0, false)
  }

  ghost function SelfModels(): iset<Model> {
    iset m: Model | ModelOf(m, SelfState()) && GateHolds(m, SelfGates()[0]) && GateHolds(m, SelfGates()[1])
  }

  ghost predicate NotMerged(s: State, g: Gate, h: Gate) {
    FreeInputs(s, g) && FreeInputs(s, h) && SameRoots(s, g, h) && !KnownEqual(s, g.lhs, h.lhs)
  }

  /**
    The exception for gates other than AND gates: when the first gate is rewritten from a to x, it is dropped because x
    is its output, and everything left is normalized.  The inputs of both gates have the same roots and no value, but
    the outputs have not been merged, although they are equal in all models.
   */
  lemma SelfInputMisleads()
    ensures Base(SelfState(), SelfModels()) && Agree(SelfState()) && iset{} in SelfModels()
    ensures GatesOK(SelfGates(), 8, SelfModels()) && SelfInput(SelfState(), SelfGates()[0])
    ensures Normalized(SelfState(), SelfGates()[0 := SelfGates()[0].(garbage := true)])
    ensures NotMerged(SelfState(), SelfGates()[0], SelfGates()[1]) && Equivalent(SelfModels(), 0, 6)
  {
    SelfBase();
    SelfEqual();
    SelfSound();
    SelfRoots();
    SelfKnown();
    hide SelfModels, Knows, Holds, Base, Agree, NotMerged;
    assert 2 in SelfGates()[0].rhs;
  }

  lemma SelfKnown()
    ensures KnownSame(SelfState(), 2, 0)
  {
    forall m: Model | Knows(m, SelfState()) ensures Holds(m, 2) == Holds(m, 0) {
      assert Holds(m, 2) == Holds(m, SelfState().repr[2]);
    }
  }

  lemma SelfBase()
    ensures Base(SelfState(), SelfModels()) && Agree(SelfState())
  {
    hide ModelOf, GateHolds;
  }

  lemma SelfEqual()
    ensures Equivalent(SelfModels(), 0, 6)
  {
    hide Holds, SelfState;
    SelfKnown();
    forall m | m in SelfModels() ensures Holds(m, 0) == Holds(m, 6) {
      assert Knows(m, SelfState());
      assert X.TrueParity(m, [2, 4]) == X.TrueParity(m, [0, 4]);
    }
  }

  lemma SelfSound()
    ensures GatesOK(SelfGates(), 8, SelfModels()) && iset{} in SelfModels()
  {
    hide SelfState;
    SelfEmpty();
    assert X.TrueParity(iset{}, [2, 4]) == 0 == X.TrueParity(iset{}, [0, 4]);
  }

  lemma SelfEmpty()
    ensures ModelOf(iset{}, SelfState())
  {
  }

  lemma SelfRoots()
    ensures NotMerged(SelfState(), SelfGates()[0], SelfGates()[1])
  {
    var s := SelfState();
    assert RootsOf(s, [2, 4]) == [0, 4] == RootsOf(s, [0, 4]);
  }

  lemma FreeExcused(s: State, ms: iset<Model>, os: seq<Gate>, g: Gate)
    requires Base(s, ms) && Agree(s) && FreeInputs(s, g) && Excused(s, os, g) && g.lhs < |s.values|
    ensures if g.tag == And then True(s.values, g.lhs) else Selfish(s, os, g)
  {
    hide Base, Agree, Selfish, Conjunction, ThreeRoots;
    match g.tag
    case And =>
      if KnownTrue(s, g.lhs) {
        KnownValue(s, ms, g.lhs);
      } else {
        var l :| l in g.rhs && KnownTrue(s, l);
        KnownValue(s, ms, l);
      }
    case Xor =>
    case Ite => FreeNoConjunction(s, ms, g);
  }

  lemma RootsDone(s: State, ms: iset<Model>, os: seq<Gate>)
    requires Base(s, ms) && Agree(s) && !s.inconsistent && AllMerged(s, os)
    requires forall g :: 0 <= g < |os| && !os[g].garbage ==> os[g].lhs < |s.values|
    ensures CongruentMerged(s, os)
  {
    hide Base, Agree, Selfish, Excused, Equal, Varies, FreeInputs, SameRoots, KnownEqual;
    forall g, h | 0 <= g < |os| && 0 <= h < |os| && !os[g].garbage && !os[h].garbage
      ensures RootsMerged(s, os, os[g], os[h]) {
      if FreeInputs(s, os[g]) && FreeInputs(s, os[h]) && (FreeParts(s, os[g]); FreeParts(s, os[h]);
         SameRoots(s, os[g], os[h])) {
        RootsEqual(s, ms, os[g], os[h]);
        FreeVaries(s, ms, os[g]);
        FreeVaries(s, ms, os[h]);
        assert PairMerged(s, os, os[g], os[h]);
        SameTag(s, os[g], os[h]);
        if Excused(s, os, os[g]) {
          FreeExcused(s, ms, os, os[g]);
        } else if Excused(s, os, os[h]) {
          FreeExcused(s, ms, os, os[h]);
        }
      }
    }
  }

  lemma FreeParts(s: State, g: Gate)
    requires FreeInputs(s, g)
    ensures ReprOK(s.repr) && forall l :: l in g.rhs ==> l < |s.repr|
  {
  }

  lemma SameTag(s: State, g: Gate, h: Gate)
    requires ReprOK(s.repr) && (forall l :: l in g.rhs ==> l < |s.repr|) && (forall l :: l in h.rhs ==> l < |s.repr|)
    requires SameRoots(s, g, h)
    ensures g.tag == h.tag
  {
  }

  // ------------------------------------------------------------------ what has gone from a gate

  /** The inputs had no value. */
  ghost predicate GateFree(values: seq<int>, s: State, gates: seq<Gate>, g: nat) {
    s.inconsistent ||
        (g < |gates| && (gates[g].garbage || forall l :: l in gates[g].rhs ==> l < |values| && values[l] == 0))
  }

  lemma AndFree(values: seq<int>, s: State, gates: seq<Gate>, g: nat, gate: Gate, kept: seq<Lit>, forced: bool)
    requires g < |gates| && (gates[g].garbage ||
             (AndSimplified(values, gate.rhs, kept, forced) && AndUpdated(s, gates, g, gate.(rhs := kept), forced)))
    ensures GateFree(values, s, gates, g)
  {
    if !gates[g].garbage {
      SimplifiedInputs(values, s, gates, g, gate, kept, forced);
    }
  }

  lemma XorFree(values: seq<int>, s: State, gates: seq<Gate>, g: nat, gate: Gate, kept: seq<Lit>, negate: bool)
    requires g < |gates| && (gates[g].garbage ||
             (XorSimplified(values, gate.rhs, kept, negate) &&
              XorUpdated(s, gates, g, gate.(lhs := if negate then Neg(gate.lhs) else gate.lhs, rhs := kept))))
    ensures GateFree(values, s, gates, g)
  {
    if !gates[g].garbage {
      XorInputs(s, gates, g, gate.(lhs := if negate then Neg(gate.lhs) else gate.lhs, rhs := kept));
    }
  }

  lemma SmallVars(g: Gate, r: Rewritten)
    requires r.Small?
    ensures forall l :: l in SmallOf(g, r).rhs ==> Var(l) == Var(r.a) || Var(l) == Var(r.b)
    ensures r.tag != Xor ==> forall l :: l in SmallOf(g, r).rhs ==> l == r.a || l == r.b
  {
  }

  lemma StillVars(c: seq<Lit>)
    requires |c| == 3
    ensures forall l :: l in NormalIte(c).0 ==> Var(l) == Var(c[0]) || Var(l) == Var(c[1]) || Var(l) == Var(c[2])
  {
    SameVar(c[0], c[0]);
    SameVar(c[1], c[1]);
    SameVar(c[2], c[2]);
  }

  lemma SimplifyIteKinds(values: seq<int>, c: seq<Lit>)
    requires |c| == 3 && ValuesOK(values) && (forall l :: l in c ==> l < |values|)
    requires exists l :: l in c && values[l] != 0
    ensures match SimplifyIte(values, c)
            case Equal(_) => true
            case Fixed(_) => true
            case Small(tag, _, a, b) => tag == And && a < |values| && b < |values| && values[a] == values[b] == 0
            case Still(_) => false
  {
    assert c[0] in c && c[1] in c && c[2] in c;
    assert values[Neg(c[0])] == -values[c[0]];
    assert values[Neg(c[1])] == -values[c[1]] && values[Neg(c[2])] == -values[c[2]];
    var l :| l in c && values[l] != 0;
    var k :| 0 <= k < 3 && c[k] == l;
  }

  lemma IteFree(values: seq<int>, s: State, gates: seq<Gate>, g: nat, gate: Gate)
    requires g < |gates| && (gates[g].garbage ||
             (|gate.rhs| == 3 && IteUpdated(s, gates, g, gate, SimplifyIte(values, gate.rhs)) && ValuesOK(values) &&
              (forall l :: l in gate.rhs ==> l < |values|) && exists l :: l in gate.rhs && values[l] != 0))
    ensures GateFree(values, s, gates, g)
  {
    hide SimplifyIte, SmallOf;
    if !gates[g].garbage {
      SimplifyIteKinds(values, gate.rhs);
      var r := SimplifyIte(values, gate.rhs);
      if r.Small? {
        SmallVars(gate, r);
      }
    }
  }

  /** The input src is gone; its negation and dst are there only for a reason. */
  ghost predicate GateWithout(s: State, gates: seq<Gate>, g: nat, gate: Gate, src: Lit, dst: Lit) {
    s.inconsistent || (g < |gates| && (gates[g].garbage ||
      (src !in gates[g].rhs && (Neg(src) in gates[g].rhs ==> Neg(src) in gate.rhs))))
  }

  lemma AndWithout(values: seq<int>, s: State, gates: seq<Gate>, g: nat, gate: Gate, dst: Lit, src: Lit,
                   kept: seq<Lit>, forced: bool)
    requires g < |gates| && Var(src) != Var(dst)
    requires gates[g].garbage || (src !in gate.rhs && gates[g] == gate) ||
             (AndRewritten(values, Replace(gate.rhs, src, dst), gate.lhs, dst, kept, forced) &&
              AndUpdated(s, gates, g, gate.(rhs := kept), forced))
    ensures GateWithout(s, gates, g, gate, src, dst)
  {
    SameVar(src, dst);
    if !gates[g].garbage && !(src !in gate.rhs && gates[g] == gate) {
      RewrittenInputs(values, s, gates, g, gate, dst, src, kept, forced);
    }
  }

  lemma XorWithout(values: seq<int>, s: State, gates: seq<Gate>, g: nat, gate: Gate, dst: Lit, src: Lit,
                   kept: seq<Lit>, negate: bool)
    requires g < |gates| && Var(src) != Var(dst)
    requires gates[g].garbage || (src !in gate.rhs && gates[g] == gate) ||
             (XorRewritten(values, gate.rhs, dst, src, kept, negate) &&
              XorUpdated(s, gates, g, gate.(lhs := if negate then Neg(gate.lhs) else gate.lhs, rhs := kept)))
    ensures GateWithout(s, gates, g, gate, src, dst)
  {
    SameVar(src, 2 * Var(dst));
    if !gates[g].garbage && !(src !in gate.rhs && gates[g] == gate) {
      XorInputs(s, gates, g, gate.(lhs := if negate then Neg(gate.lhs) else gate.lhs, rhs := kept));
    }
  }

  lemma IteWithout(s: State, gates: seq<Gate>, g: nat, gate: Gate, dst: Lit, src: Lit, n: nat)
    requires g < |gates| && Var(src) != Var(dst) && dst < n && n % 2 == 0
    requires gates[g].garbage || (src !in gate.rhs && gates[g] == gate) ||
             (|gate.rhs| == 3 && src in gate.rhs && ThreeVars(gate.rhs) && gate.tag == Ite &&
              (forall l :: l in gate.rhs ==> l < n) && IteUpdated(s, gates, g, gate, RewriteIte(gate.rhs, dst, src)))
    ensures GateWithout(s, gates, g, gate, src, dst)
  {
    hide RewriteIte, SmallOf, NormalIte;
    SameVar(src, src);
    if !gates[g].garbage && !(src !in gate.rhs && gates[g] == gate) {
      RewriteIteVars(gate, dst, src, n);
      var r := RewriteIte(gate.rhs, dst, src);
      match r {
        case Equal(_) =>
        case Fixed(_) =>
        case Small(_, _, _, _) => SmallVars(gate, r);
        case Still(c) =>
          StillVars(c);
          ThreeHas(c);
      }
    }
  }

  /** A gate that is dropped. */
  lemma OrderDropped(s: State, gates: seq<Gate>, done: set<nat>, hashOf: (Tag, seq<Lit>) -> nat, g: nat)
    requires Order(s, gates, done, hashOf, -1, -1, -1) && g < |gates|
    ensures var gates' := gates[g := gates[g].(garbage := true)];
            && Order(s, gates', done, hashOf, -1, -1, -1) && OthersKept(gates, gates', g)
            && forall y :: Order(s, gates', done, hashOf, g, y, -1)
  {
    var gates' := gates[g := gates[g].(garbage := true)];
    OrderWeaker(s, gates, done, hashOf, g);
    OrderWritten(s, gates, done, hashOf, g, gates[g].(garbage := true));
    OrderWeaker(s, gates', done, hashOf, g);
  }

  lemma AndShape(s: State, gates: seq<Gate>, done: set<nat>, hashOf: (Tag, seq<Lit>) -> nat, g: nat)
    requires Order(s, gates, done, hashOf, -1, -1, -1) && g < |gates| && !gates[g].garbage && !s.inconsistent
    ensures Shaped(gates[g]) && (gates[g].tag == And ==> DistinctVars(gates[g].rhs))
  {
  }

  /** What is known of the inputs of a live gate. */
  lemma OrderGate(s: State, gates: seq<Gate>, done: set<nat>, hashOf: (Tag, seq<Lit>) -> nat, g: nat)
    requires Order(s, gates, done, hashOf, -1, -1, -1) && g < |gates| && !gates[g].garbage && !s.inconsistent
    ensures forall l :: l in gates[g].rhs ==> InputOK(s, done, g, l) && Var(l) !in done
  {
  }

  // ------------------------------------------------------------------ units and merges step by step

  class Closure {
    var s: State
    const index: Index
    ghost const ms: iset<Model>
    const hashOf: (Tag, seq<Lit>) -> nat
    /** The variables whose units or merges have been propagated: no gate has them as inputs any more. */
    ghost var done: set<nat>

    /** Everything known follows from the clauses; the variable except is being replaced. */
    ghost predicate Valid(except: int)
      reads this, index
    {
      && Base(s, ms) && TableOK(index.t) && GatesOK(index.t.gates, |s.values|, ms)
      && OccurrencesOK(s.occurrences, index.t.gates, except)
    }

    /** What holds between two calls: all gates are in order, and everything they have to be told is still to come. */
    ghost predicate Neat()
      reads this, index
    {
      Order(s, index.t.gates, done, hashOf, -1, -1, -1) && Tidy(s, done, -1) && UnitsDone(s, done)
    }

    /** While gates are being entered nothing has been propagated yet, and gates are listed for their inputs. */
    ghost predicate Extracting()
      reads this, index
    {
      Valid(-1) && Neat() && done == {} && Connected(s, index.t.gates)
    }

    /** No literals merged and no gates yet; the models are those of the clauses. */
    constructor (n: nat, clauses: seq<seq<Lit>>, hashOf: (Tag, seq<Lit>) -> nat)
      requires n % 2 == 0 && forall c, l :: c in clauses && l in c ==> l < n
      ensures Valid(-1) && fresh(index) && s.clauses == clauses && s.repr == seq(n, l => l) && !s.inconsistent
      ensures Extracting()
      ensures ms == iset m: Model | AllSat(m, clauses)
    {
      hide Base;
      StartOK(n, clauses, iset m: Model | AllSat(m, clauses));
      s := State(seq(n, _ => 0), seq(n, l => l), clauses, seq(n, _ => []), [], seq(n / 2, _ => false), [], 0, false);
      index := new Index();
      ms := iset m: Model | AllSat(m, clauses);
      this.hashOf := hashOf;
      done := {};
    }

    method AssignUnit(l: Lit)
      requires Base(s, ms) && l < |s.values| && s.values[l] == 0 && Follows(ms, l)
      modifies this`s
      ensures Base(s, ms) && Grown(old(s), s) && True(s.values, l) && s.repr == old(s).repr
      ensures s.clauses == old(s).clauses
      ensures s.schedule == old(s).schedule && s.inconsistent == old(s).inconsistent
      ensures CountZeros(s.values) < CountZeros(old(s).values)
      ensures forall e :: Loose(old(s), done, e) ==> Loose(s, done, e)
    {
      hide Base, Loose;
      AssignLoose(s, ms, done, l);
      AssignKeeps(s, ms, l);
      BaseFacts(s, ms);
      s := s.(values := Set(s.values, l), trail := s.trail + [l]);
    }

    method ClauseStatus(c: seq<Lit>) returns (r: Status)
      requires ValuesOK(s.values) && forall l :: l in c ==> l < |s.values|
      ensures HasStatus(s.values, c, r)
    {
      r := Conflict;
      for i := 0 to |c|
        invariant !r.Quiet?
        invariant r.Conflict? ==> forall k :: 0 <= k < i ==> False(s.values, c[k])
        invariant r.Unit? ==> r.lit in c[..i] && Free(s.values, r.lit) && forall k ::
                              0 <= k < i ==> c[k] == r.lit || False(s.values, c[k])
      {
        assert c[i] in c;
        if s.values[c[i]] > 0 {
          return Quiet;
        }
        if s.values[c[i]] == 0 {
          if r.Unit? && r.lit != c[i] {
            return Quiet;
          }
          r := Unit(c[i]);
        }
      }
      assert c[..|c|] == c;
    }

    /** Finds a falsified or unit clause. */
    method FindUnit() returns (r: Status, ghost c: seq<Lit>)
      requires Base(s, ms)
      ensures !r.Quiet? ==> c in s.clauses && HasStatus(s.values, c, r)
      ensures r.Quiet? ==> forall d :: d in s.clauses ==> HasStatus(s.values, d, Quiet)
    {
      hide HasStatus, ModelOf, ReprOK;
      for i := 0 to |s.clauses|
        invariant forall k :: 0 <= k < i ==> HasStatus(s.values, s.clauses[k], Quiet)
      {
        assert s.clauses[i] in s.clauses;
        r := ClauseStatus(s.clauses[i]);
        if !r.Quiet? {
          c := s.clauses[i];
          return;
        }
      }
      r, c := Quiet, [];
    }

    /** Unit propagation at the root level, to the end or to a conflict. */
    method Propagate() returns (ok: bool)
      requires Base(s, ms) && !s.inconsistent
      modifies this`s
      ensures Base(s, ms) && Grown(old(s), s) && s.repr == old(s).repr && s.schedule == old(s).schedule
      ensures ok == !s.inconsistent
      ensures s.clauses == old(s).clauses && (ok ==> forall d :: d in s.clauses ==> HasStatus(s.values, d, Quiet))
      ensures forall e :: Loose(old(s), done, e) ==> Tidy(s, done, e)
    {
      hide Base, HasStatus, Loose, Agree;
      GrownRefl(s);
      var r, c := FindUnit();
      while !r.Quiet?
        invariant Base(s, ms) && Grown(old(s), s) && s.repr == old(s).repr && s.schedule == old(s).schedule
        invariant !s.inconsistent
        invariant s.clauses == old(s).clauses
        invariant !r.Quiet? ==> c in s.clauses && HasStatus(s.values, c, r)
        invariant r.Quiet? ==> forall d :: d in s.clauses ==> HasStatus(s.values, d, Quiet)
        invariant forall e :: Loose(old(s), done, e) ==> Loose(s, done, e)
        decreases CountZeros(s.values), if r.Quiet? then 0 else 1
      {
        UnitFollows(s, ms, c, r);
        if r.Conflict? {
          s := s.(inconsistent := true);
          return false;
        }
        UnitFree(s.values, c, r);
        AssignUnit(r.lit);
        r, c := FindUnit();
      }
      forall e | Loose(old(s), done, e) ensures Tidy(s, done, e) {
        QuietAgree(s, ms, done, e);
      }
      return true;
    }

    /** Learns a unit that follows, and propagates it. */
    method LearnUnit(unit: Lit) returns (ok: bool)
      requires Base(s, ms) && !s.inconsistent && unit < |s.values| && Follows(ms, unit)
      modifies this`s
      ensures Base(s, ms) && Grown(old(s), s) && s.repr == old(s).repr && s.schedule == old(s).schedule
      ensures ok == !s.inconsistent
      ensures (ok ==> True(s.values, unit)) && s.clauses == old(s).clauses
      ensures ok ==> s.values == old(s).values || forall d :: d in s.clauses ==> HasStatus(s.values, d, Quiet)
      ensures forall e :: Tidy(old(s), done, e) ==> Tidy(s, done, e)
    {
      hide Base, Loose, Agree;
      GrownRefl(s);
      var value := s.values[unit];
      if value > 0 {
        return true;
      }
      if value < 0 {
        FalsifiedUnit(s, ms, unit);
        s := s.(inconsistent := true);
        return false;
      }
      AssignUnit(unit);
      ok := Propagate();
    }

    /** Adds a binary clause that follows, or learns the unit it is. */
    method AddBinaryClause(a: Lit, b: Lit)
      requires Base(s, ms) && a < |s.values| && b < |s.values| && forall m :: m in ms ==> Holds(m, a) || Holds(m, b)
      modifies this`s
      ensures Base(s, ms) && Grown(old(s), s) && s.repr == old(s).repr && s.schedule == old(s).schedule
      ensures !s.inconsistent ==> BinaryKnown(s, a, b)
      ensures forall c :: c in old(s).clauses ==> c in s.clauses
      ensures !old(s).inconsistent && Var(a) != Var(b) && old(s).values[a] == old(s).values[b] == 0 ==>
                s == old(s).(clauses := old(s).clauses + [[a, b]])
      ensures forall e :: Tidy(old(s), done, e) ==> Tidy(s, done, e)
    {
      hide Base, Tidy;
      SameVar(a, b);
      GrownRefl(s);
      if s.inconsistent || a == Neg(b) || s.values[a] > 0 || s.values[b] > 0 {
        return;
      }
      if a == b || (s.values[a] == 0 && s.values[b] < 0) {
        UnitOfBinary(s, ms, a, b);
        var ok := LearnUnit(a);
        return;
      }
      if s.values[a] < 0 && s.values[b] == 0 {
        UnitOfBinary(s, ms, b, a);
        var ok := LearnUnit(b);
        return;
      }
      BinaryKeeps(s, ms, a, b);
      ClausesTidy(s, done, [a, b]);
      s := s.(clauses := s.clauses + [[a, b]]);
    }

    // -------------------------------------------------------------- merging

    /** Follows representatives to the root. */
    method FindRepr(lit: Lit) returns (res: Lit)
      requires ReprOK(s.repr) && lit < |s.repr|
      ensures res == Root(s.repr, lit)
    {
      res := lit;
      var next := s.repr[res];
      while res != next
        invariant res < |s.repr| && next == s.repr[res] && Root(s.repr, res) == Root(s.repr, lit)
        decreases res
      {
        res := next;
        next := s.repr[res];
      }
    }

    method ScheduleLiteral(lit: Lit)
      requires Base(s, ms) && lit < |s.values| && s.repr[lit] != lit
      modifies this`s
      ensures Base(s, ms) && s == old(s).(schedule := s.schedule, scheduled := s.scheduled)
      ensures s.schedule == if old(s).scheduled[Var(lit)] then old(s).schedule else old(s).schedule + [lit]
      ensures s.scheduled == old(s).scheduled[Var(lit) := true]
    {
      if s.scheduled[Var(lit)] {
        return;
      }
      s := s.(scheduled := s.scheduled[Var(lit) := true], schedule := s.schedule + [lit]);
      BaseSchedule(old(s), ms, s);
    }

    /** Merges two equivalent literals: their roots become one unless they have a value. */
    method MergeLiterals(lit: Lit, other: Lit) returns (merged: bool)
      requires Base(s, ms) && !s.inconsistent && lit < |s.values| && other < |s.values| && Equivalent(ms, lit, other)
      modifies this`s
      ensures Base(s, ms) && Grown(old(s), s)
      ensures s.inconsistent || Root(s.repr, lit) == Root(s.repr, other) ||
              (s.values[lit] != 0 && s.values[lit] == s.values[other])
      ensures merged ==> Root(old(s).repr, lit) != Root(old(s).repr, other) && Root(s.repr, lit) == Root(s.repr, other)
      ensures Coarser(old(s).repr, s.repr)
      ensures forall e :: Tidy(old(s), done, e) ==> Tidy(s, done, e)
    {
      hide Base, Root, Joined, CountZeros, Work, Todo, Coarser, Loose, Agree;
      CoarserRefl(s, ms);
      BaseFacts(s, ms);
      GrownRefl(s);
      var reprLit := FindRepr(lit);
      var reprOther := FindRepr(other);
      if reprLit == reprOther {
        return false;
      }
      var litValue, otherValue := s.values[lit], s.values[other];
      if litValue != 0 {
        if litValue == otherValue {
          return false;
        }
        if litValue == -otherValue {
          ClashingValues(s, ms, lit, other);
          s := s.(inconsistent := true);
          SameWork(old(s), s);
          return false;
        }
        EquivalentUnit(s, ms, lit, other);
        var unit := if litValue < 0 then Neg(other) else other;
        var ok := LearnUnit(unit);
        LearnedBoth(old(s), s, ms, lit, other);
        return false;
      }
      if litValue == 0 && otherValue != 0 {
        EquivalentUnit(s, ms, other, lit);
        var unit := if otherValue < 0 then Neg(lit) else lit;
        var ok := LearnUnit(unit);
        LearnedBoth(old(s), s, ms, other, lit);
        return false;
      }
      RootFacts(s.repr, lit);
      RootFacts(s.repr, other);
      if Agree(s) {
        RootAgrees(s, ms, lit);
        RootAgrees(s, ms, other);
      }
      RootsEquivalent(s, ms, lit, other);
      var smaller, larger := reprLit, reprOther;
      if smaller > larger {
        smaller, larger := larger, smaller;
      }
      if reprLit == Neg(reprOther) {
        ClashingRoots(s, ms, reprLit, reprOther);
        s := s.(inconsistent := true);
        SameWork(old(s), s);
        return false;
      }
      SameVar(reprLit, reprOther);
      JoinedOK(s.repr, smaller, larger);
      MergedRoot(s.repr, smaller, larger, lit);
      MergedRoot(s.repr, smaller, larger, other);
      JoinedCoarser(s.repr, smaller, larger);
      JoinRoots(smaller, larger);
      return true;
    }

    /** The smaller root represents the larger one from now on, which is scheduled. */
    method JoinRoots(smaller: Lit, larger: Lit)
      requires Base(s, ms) && smaller < larger < |s.repr| && Var(smaller) != Var(larger)
      requires Equivalent(ms, smaller, larger)
      requires s.repr[larger] == larger
      modifies this`s
      ensures Base(s, ms) && Grown(old(s), s) && Todo(s) < Todo(old(s))
      ensures !old(s).inconsistent && old(s).repr[smaller] == smaller &&
              old(s).values[smaller] == old(s).values[larger] == 0 ==>
                forall e :: Tidy(old(s), done, e) ==> Tidy(s, done, e)
      ensures Neg(larger) < |old(s).repr| && s.repr == Joined(old(s).repr, smaller, larger)
    {
      hide Base, Joined, CountZeros, Work, Todo, Tidy;
      BaseFacts(s, ms);
      MergeKeeps(s, ms, smaller, larger);
      JoinedSteps(s.repr, smaller, larger);
      var notSmaller, notLarger := Neg(smaller), Neg(larger);
      s := s.(repr := s.repr[larger := smaller]);
      s := s.(repr := s.repr[notLarger := notSmaller]);
      SameWork(old(s), s);
      BaseFacts(s, ms);
      EquivalentBinaries(ms, smaller, larger);
      NegatedValues(s, ms, smaller, larger);
      AddBinaryClause(notLarger, smaller);
      AddBinaryClause(larger, notSmaller);
      BaseFacts(s, ms);
      ghost var s2 := s;
      ScheduleLiteral(larger);
      SameWork(s2, s);
      if !old(s).inconsistent && old(s).repr[smaller] == smaller &&
         old(s).values[smaller] == old(s).values[larger] == 0 {
        JoinTidy(old(s), ms, s, done, smaller, larger);
      }
    }

    // -------------------------------------------------------------- gates in the table

    /** Overwrites a gate but for its place in the table. */
    method WriteGate(g: nat, tag: Tag, lhs: Lit, rhs: seq<Lit>, ghost e: int)
      requires Valid(e) && g < |index.t.gates|
      requires GateSound(Rewired(index.t.gates[g], tag, lhs, rhs), |s.values|, ms)
      requires Covered(index.t.gates[g], tag, rhs, e)
      modifies index`t
      ensures Valid(e) && index.t.gates == old(index.t).gates[g := Rewired(old(index.t).gates[g], tag, lhs, rhs)]
    {
      hide Base, GateSound, TableOK;
      GateWritten(index.t, s.occurrences, g, Rewired(index.t.gates[g], tag, lhs, rhs), |s.values|, ms, e);
      index.t := index.t.(gates := index.t.gates[g := index.t.gates[g].(tag := tag)]);
      index.t := index.t.(gates := index.t.gates[g := index.t.gates[g].(lhs := lhs)]);
      index.t := index.t.(gates := index.t.gates[g := index.t.gates[g].(rhs := rhs)]);
      assert index.t == old(index.t).(gates := old(index.t).gates[g := Rewired(old(index.t).gates[g], tag, lhs, rhs)]);
    }

    method MarkGarbage(g: nat, ghost e: int)
      requires Valid(e) && g < |index.t.gates|
      modifies index`t
      ensures Valid(e) && index.t.gates == old(index.t).gates[g := old(index.t).gates[g].(garbage := true)]
    {
      hide Base, TableOK;
      GateWritten(index.t, s.occurrences, g, index.t.gates[g].(garbage := true), |s.values|, ms, e);
      index.t := index.t.(gates := index.t.gates[g := index.t.gates[g].(garbage := true)]);
    }

    method ConnectOccurrence(lit: Lit, g: nat, ghost e: int)
      requires Valid(e) && g < |index.t.gates| && lit < |s.values| && Listed(index.t.gates[g], lit, e)
      modifies this`s
      ensures Valid(e) && s == old(s).(occurrences := old(s).occurrences[lit := old(s).occurrences[lit] + [g]])
    {
      hide TableOK, GatesOK;
      BaseOccurrences(s, ms, s.occurrences[lit := s.occurrences[lit] + [g]]);
      s := s.(occurrences := s.occurrences[lit := s.occurrences[lit] + [g]]);
    }

    /** Looks for another gate with the same function and inputs; if there is none, (re)indexes the gate. */
    method FindOrIndex(g: nat, ghost e: int) returns (h: int)
      requires Valid(e) && g < |index.t.gates| && !index.t.gates[g].garbage && Shaped(index.t.gates[g])
      requires Order(s, index.t.gates, done, hashOf, g, -1, g)
      modifies index`t
      ensures Valid(e) && Reindexed(old(index.t).gates, index.t.gates)
      ensures Order(s, index.t.gates, done, hashOf, g, -1, if h < 0 then -1 else g)
      ensures -1 <= h < |index.t.gates|
      ensures h >= 0 ==> h != g && SameFunction(index.t.gates[h], index.t.gates[g]) && !index.t.gates[h].garbage
      ensures h < 0 ==>
                index.t.gates[g].indexed && index.t.gates[g].hash == hashOf(index.t.gates[g].tag, index.t.gates[g].rhs)
      ensures h < 0 ==> forall k :: 0 <= k < |index.t.gates| && k != g && Rival(index.t.gates[k], index.t.gates[g]) ==>
                !SameFunction(index.t.gates[k], index.t.gates[g])
    {
      hide Base, TableOK, GatesOK, OccurrencesOK, Order;
      var gate := index.t.gates[g];
      var hash := hashOf(gate.tag, gate.rhs);
      h := index.FindGate(gate.tag, hash, gate.rhs, g);
      ghost var t1 := index.t;
      OrderSwept(s, old(index.t), t1, done, hashOf);
      if h < 0 {
        var removed := index.RemoveGate(g);
        TableHash(index.t, g, hash);
        index.t := index.t.(gates := index.t.gates[g := index.t.gates[g].(hash := hash)]);
        index.IndexGate(g);
        OrderWritten(s, t1.gates, done, hashOf, g, index.t.gates[g]);
        assert index.t.gates == t1.gates[g := index.t.gates[g]];
        OrderIndexed(s, index.t.gates, done, hashOf, g);
      }
      ReindexedKeeps(old(index.t).gates, index.t.gates, s.occurrences, |s.values|, ms, e);
    }

    // -------------------------------------------------------------- outcomes of a changed gate

    /** A gate with one input: its output is equal to the input. */
    method UpdateUnary(lhs: Lit, other: Lit)
      requires Base(s, ms) && !s.inconsistent && lhs < |s.values| && other < |s.values| && Equivalent(ms, lhs, other)
      modifies this`s
      ensures Base(s, ms) && Grown(old(s), s) && KnownEqual(s, lhs, other)
      ensures forall e :: Tidy(old(s), done, e) ==> Tidy(s, done, e)
    {
      hide Base, Root, Tidy;
      BaseFacts(s, ms);
      var valueLhs := s.values[lhs];
      if valueLhs != 0 {
        EquivalentUnit(s, ms, lhs, other);
        ghost var s0 := s;
        if valueLhs > 0 {
          var ok := LearnUnit(other);
        } else {
          var ok := LearnUnit(Neg(other));
        }
        LearnedBoth(s0, s, ms, lhs, other);
        BaseFacts(s, ms);
      } else {
        var merged := MergeLiterals(lhs, other);
        BaseFacts(s, ms);
      }
    }

    /** A gate that has a counterpart is merged with it and becomes garbage; otherwise it is indexed. */
    method Settle(g: nat, ghost e: int) returns (found: bool)
      requires Valid(e) && !s.inconsistent && g < |index.t.gates| && !index.t.gates[g].garbage
      requires Shaped(index.t.gates[g])
      requires Order(s, index.t.gates, done, hashOf, g, -1, g)
      modifies this`s, index`t
      ensures Valid(e) && Grown(old(s), s) && |index.t.gates| == |old(index.t).gates|
      ensures Order(s, index.t.gates, done, hashOf, g, -1, -1) && OthersKept(old(index.t).gates, index.t.gates, g)
      ensures forall e' :: Tidy(old(s), done, e') ==> Tidy(s, done, e')
      ensures Settled(s, index.t.gates, g, old(index.t).gates[g])
      ensures if found then s.inconsistent || index.t.gates[g].garbage else s == old(s) && Live(index.t.gates[g])
    {
      hide Base, TableOK, GatesOK, GateSound, OccurrencesOK, Root, Order, OthersKept, Tidy;
      GrownRefl(s);
      var h := FindOrIndex(g, e);
      ReindexedOthers(old(index.t).gates, index.t.gates, g);
      found := h >= 0;
      if h >= 0 {
        SameOutput(index.t.gates, g, h, |s.values|, ms);
        var lhs, other := index.t.gates[g].lhs, index.t.gates[h].lhs;
        var merged := MergeLiterals(lhs, other);
        OccurrencesFrame(old(s), s, index.t.gates, e);
        OrderGrown(old(s), s, index.t.gates, done, hashOf);
        OrderInconsistent(s, index.t.gates, done, hashOf);
        BaseFacts(s, ms);
        if !s.inconsistent {
          OrderGarbage(s, index.t.gates, done, hashOf, g, old(index.t).gates);
          MarkGarbage(g, e);
          SettledByMerge(s, index.t.gates, g, h, old(index.t).gates[g]);
        }
      }
    }

    // -------------------------------------------------------------- AND gates

    method UpdateAnd(g: nat, forced: bool, ghost e: int)
      requires Valid(e) && !s.inconsistent && g < |index.t.gates| && index.t.gates[g].tag == And
      requires !index.t.gates[g].garbage
      requires forced ==> Follows(ms, Neg(index.t.gates[g].lhs))
      requires forced || DistinctVars(index.t.gates[g].rhs)
      requires Order(s, index.t.gates, done, hashOf, g, -1, g)
      modifies this`s, index`t
      ensures Valid(e) && Grown(old(s), s) && |index.t.gates| == |old(index.t).gates|
      ensures Order(s, index.t.gates, done, hashOf, g, -1, -1) && OthersKept(old(index.t).gates, index.t.gates, g)
      ensures forall e' :: Tidy(old(s), done, e') ==> Tidy(s, done, e')
      ensures AndUpdated(s, index.t.gates, g, old(index.t).gates[g], forced)
    {
      hide Base, TableOK, GatesOK, GateSound, OccurrencesOK, Root, Sort, Order, OthersKept, Tidy;
      var gate := index.t.gates[g];
      GateFacts(index.t.gates, g, |s.values|, ms);
      BaseFacts(s, ms);
      OthersRefl(index.t.gates, g);
      if forced {
        var ok := LearnUnit(Neg(gate.lhs));
        OccurrencesFrame(old(s), s, index.t.gates, e);
        OrderGrown(old(s), s, index.t.gates, done, hashOf);
        OrderInconsistent(s, index.t.gates, done, hashOf);
        if !s.inconsistent {
          OrderGarbage(s, index.t.gates, done, hashOf, g, old(index.t).gates);
          MarkGarbage(g, e);
        }
      } else if |gate.rhs| == 1 {
        UnaryAnd(ms, gate);
        assert gate.rhs[0] in gate.rhs;
        UpdateUnary(gate.lhs, gate.rhs[0]);
        OccurrencesFrame(old(s), s, index.t.gates, e);
        OrderGrown(old(s), s, index.t.gates, done, hashOf);
        OrderInconsistent(s, index.t.gates, done, hashOf);
        if !s.inconsistent {
          OrderGarbage(s, index.t.gates, done, hashOf, g, old(index.t).gates);
          MarkGarbage(g, e);
        }
      } else {
        SortedSound(gate, |s.values|, ms);
        SortShaped(And, gate.rhs);
        OrderWritten(s, index.t.gates, done, hashOf, g, Rewired(index.t.gates[g], And, gate.lhs, Sort(gate.rhs)));
        WriteGate(g, And, gate.lhs, Sort(gate.rhs), e);
        ghost var gates1 := index.t.gates;
        var found := Settle(g, e);
        OthersTrans(old(index.t).gates, gates1, index.t.gates, g);
      }
    }

    /** Keeps the inputs without a value unless one is false. */
    method SimplifyAndInputs(rhs: seq<Lit>) returns (kept: seq<Lit>, falsifies: int)
      requires DistinctVars(rhs) && ValuesOK(s.values) && forall l :: l in rhs ==> l < |s.values|
      ensures AndSimplified(s.values, rhs, kept, falsifies >= 0) && DistinctVars(kept)
      ensures falsifies >= 0 ==> falsifies in rhs && False(s.values, falsifies)
    {
      kept, falsifies := [], -1;
      for p := 0 to |rhs|
        invariant falsifies >= 0 ==> falsifies in rhs && False(s.values, falsifies)
        invariant falsifies < 0 ==> forall k :: 0 <= k < p ==> !False(s.values, rhs[k])
        invariant forall l :: l in kept <==> l in rhs[..p] && Free(s.values, l)
        invariant DistinctVars(kept)
      {
        var lit := rhs[p];
        assert lit in rhs && rhs[..p + 1] == rhs[..p] + [lit];
        NotBefore(rhs, kept, p);
        var value := s.values[lit];
        if value < 0 {
          falsifies := lit;
        } else if value == 0 {
          kept := kept + [lit];
        }
      }
      assert rhs[..|rhs|] == rhs;
    }

    method SimplifyAnd(g: nat, ghost e: int) returns (ghost kept: seq<Lit>, ghost forced: bool)
      requires Valid(e) && !s.inconsistent && g < |index.t.gates| && index.t.gates[g].tag == And
      requires Order(s, index.t.gates, done, hashOf, -1, -1, -1)
      modifies this`s, index`t
      ensures Valid(e) && Grown(old(s), s) && |index.t.gates| == |old(index.t).gates|
      ensures Order(s, index.t.gates, done, hashOf, -1, -1, -1) && OthersKept(old(index.t).gates, index.t.gates, g)
      ensures forall e' :: Tidy(old(s), done, e') ==> Tidy(s, done, e')
      ensures var gate := old(index.t).gates[g];
              if gate.garbage then s == old(s) && index.t == old(index.t)
              else if True(old(s).values, gate.lhs) then s == old(s) && index.t.gates[g].garbage
              else AndSimplified(old(s).values, gate.rhs, kept, forced) &&
                   AndUpdated(s, index.t.gates, g, gate.(rhs := kept), forced)
    {
      hide Order, OthersKept, Tidy, Base, TableOK, GatesOK, GateSound, OccurrencesOK, AndSimplified, AndUpdated;
      kept, forced := [], false;
      GrownRefl(s);
      OthersRefl(index.t.gates, g);
      BaseFacts(s, ms);
      var gate := index.t.gates[g];
      if gate.garbage {
        return;
      }
      GateFacts(index.t.gates, g, |s.values|, ms);
      if s.values[gate.lhs] > 0 {
        OrderDropped(s, index.t.gates, done, hashOf, g);
        MarkGarbage(g, e);
        return;
      }
      AndShape(s, index.t.gates, done, hashOf, g);
      var inputs, falsifies := SimplifyAndInputs(gate.rhs);
      kept, forced := inputs, falsifies >= 0;
      SimplifiedSound(s, ms, gate, inputs, falsifies);
      var rhs := if falsifies >= 0 then [falsifies] else inputs;
      OrderWeaker(s, index.t.gates, done, hashOf, g);
      OrderWritten(s, index.t.gates, done, hashOf, g, Rewired(gate, And, gate.lhs, rhs));
      WriteGate(g, And, gate.lhs, rhs, e);
      OthersWritten(old(index.t).gates, g, index.t.gates[g]);
      ghost var gates1 := index.t.gates;
      UpdateAnd(g, falsifies >= 0, e);
      AndUpdatedFields(s, index.t.gates, g, gate.(rhs := rhs), gate.(rhs := inputs), falsifies >= 0);
      OthersTrans(old(index.t).gates, gates1, index.t.gates, g);
      SimplifiedInputs(old(s).values, s, index.t.gates, g, gate, inputs, falsifies >= 0);
      GrownAdvanced(old(s), s, e);
      OrderKept(old(s), s, old(index.t).gates, index.t.gates, done, hashOf, g, -1, e);
    }

    /**
      Replaces src by dst in the inputs, drops true and repeated ones, and stops at an input that makes the
      output false: a false one, the negated output, or a pair of clashing inputs.
     */
    method RewriteAndInputs(rhs: seq<Lit>, lhs: Lit, dst: Lit, src: Lit)
      returns (kept: seq<Lit>, falsifies: int, clashing: int)
      requires DistinctVars(rhs) && ValuesOK(s.values) && (forall l :: l in rhs ==> l < |s.values|)
      requires dst < |s.values| && lhs < |s.values|
      ensures (falsifies < 0 || clashing < 0) && DistinctVars(kept)
      ensures AndRewritten(s.values, Replace(rhs, src, dst), lhs, dst, kept, falsifies >= 0 || clashing >= 0)
      ensures falsifies >= 0 ==> falsifies in Replace(rhs, src, dst) && False(s.values, falsifies)
      ensures clashing >= 0 ==> clashing < |s.values| && Neg(clashing) < |s.values|
    {
      kept, falsifies, clashing := [], -1, -1;
      ghost var d := Replace(rhs, src, dst);
      var notLhs, notDst := Neg(lhs), Neg(dst);
      var dstCount, notDstCount := 0, 0;
      for p := 0 to |rhs|
        invariant falsifies < 0 && clashing < 0
        invariant forall k :: 0 <= k < p ==> d[k] != notLhs && !False(s.values, d[k])
        invariant forall l :: l in kept <==> l in d[..p] && Free(s.values, l)
        invariant dstCount > 0 <==> dst in kept
        invariant notDstCount > 0 <==> notDst in kept
        invariant !(dst in kept && notDst in kept)
        invariant DistinctVars(kept)
      {
        var lit := rhs[p];
        assert lit in rhs;
        if lit == src {
          lit := dst;
        }
        assert lit == d[p] && lit in d && d[..p + 1] == d[..p] + [lit];
        if lit == notLhs {
          clashing := lit;
          SameVar(lhs, lhs);
          return;
        }
        var value := s.values[lit];
        if value > 0 {
          continue;
        }
        if value < 0 {
          falsifies := lit;
          return;
        }
        if lit == dst {
          if notDstCount > 0 {
            clashing := notDst;
            SameVar(dst, dst);
            assert dst in d && notDst in d;
            return;
          }
          dstCount := dstCount + 1;
          if dstCount > 1 {
            continue;
          }
        }
        if lit == notDst {
          if dstCount > 0 {
            clashing := dst;
            assert dst in d && notDst in d;
            return;
          }
          notDstCount := notDstCount + 1;
        }
        ReplacedOnce(rhs, src, dst, kept, p);
        kept := kept + [lit];
      }
      assert d[..|rhs|] == d;
    }

    method RewriteAnd(g: nat, dst: Lit, src: Lit, ghost e: int) returns (ghost kept: seq<Lit>, ghost forced: bool)
      requires Valid(e) && !s.inconsistent && g < |index.t.gates| && index.t.gates[g].tag == And
      requires dst < |s.values| && Equivalent(ms, src, dst)
      requires Order(s, index.t.gates, done, hashOf, -1, -1, -1)
      requires Var(dst) !in done && src != dst
      modifies this`s, index`t
      ensures Valid(e) && Grown(old(s), s) && |index.t.gates| == |old(index.t).gates|
      ensures Order(s, index.t.gates, done, hashOf, g, dst, -1) && OthersKept(old(index.t).gates, index.t.gates, g)
      ensures forall e' :: Tidy(old(s), done, e') ==> Tidy(s, done, e')
      ensures var gate := old(index.t).gates[g];
              if gate.garbage then s == old(s) && index.t == old(index.t)
              else if True(old(s).values, gate.lhs) then s == old(s) && index.t.gates[g].garbage
              else if src !in gate.rhs then s == old(s) && index.t == old(index.t)
              else AndRewritten(old(s).values, Replace(gate.rhs, src, dst), gate.lhs, dst, kept, forced) &&
                   AndUpdated(s, index.t.gates, g, gate.(rhs := kept), forced)
    {
      hide Order, OthersKept, Tidy, Base, TableOK, GatesOK, GateSound, OccurrencesOK, AndRewritten, AndUpdated;
      kept, forced := [], false;
      GrownRefl(s);
      OthersRefl(index.t.gates, g);
      OrderWeaker(s, index.t.gates, done, hashOf, g);
      BaseFacts(s, ms);
      var gate := index.t.gates[g];
      if gate.garbage {
        return;
      }
      GateFacts(index.t.gates, g, |s.values|, ms);
      if s.values[gate.lhs] > 0 {
        OrderDropped(s, index.t.gates, done, hashOf, g);
        MarkGarbage(g, e);
        return;
      }
      if src !in gate.rhs {
        return;
      }
      AndShape(s, index.t.gates, done, hashOf, g);
      var inputs, falsifies, clashing := RewriteAndInputs(gate.rhs, gate.lhs, dst, src);
      kept, forced := inputs, falsifies >= 0 || clashing >= 0;
      RewrittenSound(s, ms, gate, dst, src, inputs, falsifies, clashing);
      var rhs := if falsifies >= 0 then [falsifies] else if clashing >= 0 then [clashing, Neg(clashing)] else inputs;
      OrderWritten(s, index.t.gates, done, hashOf, g, Rewired(gate, And, gate.lhs, rhs));
      WriteGate(g, And, gate.lhs, rhs, e);
      OthersWritten(old(index.t).gates, g, index.t.gates[g]);
      ghost var gates1 := index.t.gates;
      UpdateAnd(g, falsifies >= 0 || clashing >= 0, e);
      AndUpdatedFields(s, index.t.gates, g, gate.(rhs := rhs), gate.(rhs := inputs), forced);
      OthersTrans(old(index.t).gates, gates1, index.t.gates, g);
      RewrittenInputs(old(s).values, s, index.t.gates, g, gate, dst, src, inputs, forced);
      GrownAdvanced(old(s), s, e);
      OrderKept(old(s), s, old(index.t).gates, index.t.gates, done, hashOf, g, dst, e);
    }

    // -------------------------------------------------------------- XOR gates

    method UpdateXor(g: nat, ghost e: int)
      requires Valid(e) && !s.inconsistent && g < |index.t.gates| && index.t.gates[g].tag == Xor
      requires !index.t.gates[g].garbage && Order(s, index.t.gates, done, hashOf, g, -1, g)
      modifies this`s, index`t
      ensures Valid(e) && Grown(old(s), s) && |index.t.gates| == |old(index.t).gates|
      ensures Order(s, index.t.gates, done, hashOf, g, -1, -1) && OthersKept(old(index.t).gates, index.t.gates, g)
      ensures forall e' :: Tidy(old(s), done, e') ==> Tidy(s, done, e')
      ensures XorUpdated(s, index.t.gates, g, old(index.t).gates[g])
      ensures !s.inconsistent && !index.t.gates[g].garbage ==>
                SameFunction(index.t.gates[g], old(index.t).gates[g].(rhs := Sort(old(index.t).gates[g].rhs)))
    {
      hide Base, TableOK, GatesOK, GateSound, OccurrencesOK, Root, Sort, Order, OthersKept, Tidy;
      var gate := index.t.gates[g];
      GateFacts(index.t.gates, g, |s.values|, ms);
      BaseFacts(s, ms);
      OthersRefl(index.t.gates, g);
      if |gate.rhs| == 0 {
        EmptyXor(ms, gate);
        var ok := LearnUnit(Neg(gate.lhs));
        OccurrencesFrame(old(s), s, index.t.gates, e);
        OrderGrown(old(s), s, index.t.gates, done, hashOf);
        OrderInconsistent(s, index.t.gates, done, hashOf);
        if !s.inconsistent {
          OrderGarbage(s, index.t.gates, done, hashOf, g, old(index.t).gates);
          MarkGarbage(g, e);
        }
      } else if |gate.rhs| == 1 {
        UnaryXor(ms, gate);
        assert gate.rhs[0] in gate.rhs;
        UpdateUnary(gate.lhs, gate.rhs[0]);
        OccurrencesFrame(old(s), s, index.t.gates, e);
        OrderGrown(old(s), s, index.t.gates, done, hashOf);
        OrderInconsistent(s, index.t.gates, done, hashOf);
        if !s.inconsistent {
          OrderGarbage(s, index.t.gates, done, hashOf, g, old(index.t).gates);
          MarkGarbage(g, e);
        }
      } else {
        SortedSound(gate, |s.values|, ms);
        XorShape(gate, |s.values|, ms);
        SortShaped(Xor, gate.rhs);
        OrderWritten(s, index.t.gates, done, hashOf, g, Rewired(index.t.gates[g], Xor, gate.lhs, Sort(gate.rhs)));
        WriteGate(g, Xor, gate.lhs, Sort(gate.rhs), e);
        ghost var gates1 := index.t.gates;
        var found := Settle(g, e);
        OthersTrans(old(index.t).gates, gates1, index.t.gates, g);
      }
    }

    method SimplifyXorInputs(rhs: seq<Lit>) returns (kept: seq<Lit>, negate: bool)
      requires ValuesOK(s.values) && forall l :: l in rhs ==> l < |s.values|
      ensures XorSimplified(s.values, rhs, kept, negate)
    {
      hide X.TrueParity, ValuesHold, ValuesOK;
      kept, negate := [], false;
      for p := 0 to |rhs|
        invariant XorSimplified(s.values, rhs[..p], kept, negate)
      {
        var lit := rhs[p];
        assert lit in rhs && rhs[..p + 1] == rhs[..p] + [lit];
        XorStep(s.values, rhs[..p], lit, kept, negate);
        var value := s.values[lit];
        if value > 0 {
          negate := !negate;
        }
        if value == 0 {
          kept := kept + [lit];
        }
      }
      assert rhs[..|rhs|] == rhs;
    }

    method SimplifyXor(g: nat, ghost e: int) returns (ghost kept: seq<Lit>, ghost negate: bool)
      requires Valid(e) && !s.inconsistent && g < |index.t.gates| && index.t.gates[g].tag == Xor
      requires Order(s, index.t.gates, done, hashOf, -1, -1, -1)
      modifies this`s, index`t
      ensures Valid(e) && Grown(old(s), s) && |index.t.gates| == |old(index.t).gates|
      ensures Order(s, index.t.gates, done, hashOf, -1, -1, -1) && OthersKept(old(index.t).gates, index.t.gates, g)
      ensures forall e' :: Tidy(old(s), done, e') ==> Tidy(s, done, e')
      ensures var gate := old(index.t).gates[g];
              if gate.garbage then s == old(s) && index.t == old(index.t)
              else (XorSimplified(old(s).values, gate.rhs, kept, negate)
                    && XorUpdated(s, index.t.gates, g,
                                  gate.(lhs := if negate then Neg(gate.lhs) else gate.lhs, rhs := kept)))
    {
      hide Order, OthersKept, Tidy, Base, TableOK, GatesOK, GateSound, OccurrencesOK, XorSimplified, XorUpdated;
      kept, negate := [], false;
      GrownRefl(s);
      OthersRefl(index.t.gates, g);
      BaseFacts(s, ms);
      var gate := index.t.gates[g];
      if gate.garbage {
        return;
      }
      GateFacts(index.t.gates, g, |s.values|, ms);
      var inputs, flip := SimplifyXorInputs(gate.rhs);
      kept, negate := inputs, flip;
      XorSimplifiedSound(s, ms, gate, inputs, flip);
      var lhs := if flip then Neg(gate.lhs) else gate.lhs;
      OrderWeaker(s, index.t.gates, done, hashOf, g);
      OrderWritten(s, index.t.gates, done, hashOf, g, Rewired(gate, Xor, lhs, inputs));
      WriteGate(g, Xor, lhs, inputs, e);
      OthersWritten(old(index.t).gates, g, index.t.gates[g]);
      ghost var gates1 := index.t.gates;
      UpdateXor(g, e);
      OthersTrans(old(index.t).gates, gates1, index.t.gates, g);
      XorInputs(s, index.t.gates, g, gate.(lhs := lhs, rhs := inputs));
      GrownAdvanced(old(s), s, e);
      XorSimplifiedInputs(old(s).values, gate.rhs, inputs, flip);
      OrderKept(old(s), s, old(index.t).gates, index.t.gates, done, hashOf, g, -1, e);
    }

    /** Replaces src by dst without its sign, drops inputs with a value, and two equal inputs. */
    method RewriteXorInputs(rhs: seq<Lit>, dst: Lit, src: Lit) returns (kept: seq<Lit>, negate: bool, dstCount: nat)
      requires ValuesOK(s.values) && (forall l :: l in rhs ==> l < |s.values| && l % 2 == 0)
      requires 2 * Var(dst) < |s.values|
      requires src in rhs && src != 2 * Var(dst) && Distinct(rhs)
      ensures XorRewritten(s.values, rhs, dst, src, kept, negate) && dstCount <= 2
      ensures dstCount == 1 <==> 2 * Var(dst) in kept
    {
      hide X.TrueParity, ValuesHold;
      var strip := 2 * Var(dst);
      kept, negate, dstCount := [], dst % 2 == 1, 0;
      PassStart(s.values, rhs, dst, src);
      for p := 0 to |rhs|
        invariant XorPass(s.values, rhs, dst, src, p, kept, negate, dstCount)
      {
        var lit := rhs[p];
        assert lit in rhs;
        PassStep(s.values, rhs, dst, src, p, kept, negate, dstCount);
        if lit == src {
          lit := strip;
        }
        var value := s.values[lit];
        if value > 0 {
          negate := !negate;
        }
        if value != 0 {
          continue;
        }
        if lit == strip {
          dstCount := dstCount + 1;
        }
        kept := kept + [lit];
      }
      PassEnd(s.values, rhs, dst, src, kept, negate, dstCount);
      if dstCount == 2 {
        kept := DropInput(kept, strip);
      }
    }

    method DropInput(rhs: seq<Lit>, lit: Lit) returns (kept: seq<Lit>)
      ensures kept == Except(rhs, lit)
    {
      kept := [];
      for p := 0 to |rhs|
        invariant kept == Except(rhs[..p], lit)
      {
        assert rhs[..p + 1] == rhs[..p] + [rhs[p]] && rhs[..p + 1][..p] == rhs[..p];
        if rhs[p] != lit {
          kept := kept + [rhs[p]];
        }
      }
      assert rhs[..|rhs|] == rhs;
    }

    method RewriteXor(g: nat, dst: Lit, src: Lit, ghost e: int) returns (ghost kept: seq<Lit>, ghost negate: bool)
      requires Valid(e) && !s.inconsistent && g < |index.t.gates| && index.t.gates[g].tag == Xor
      requires dst < |s.values| && Equivalent(ms, src, dst) && Var(src) != Var(dst) && Var(dst) != e
      requires Order(s, index.t.gates, done, hashOf, -1, -1, -1)
      requires Var(dst) !in done
      modifies this`s, index`t
      ensures Valid(e) && Advanced(old(s), s, e) && |index.t.gates| == |old(index.t).gates|
      ensures Order(s, index.t.gates, done, hashOf, g, dst, -1) && OthersKept(old(index.t).gates, index.t.gates, g)
      ensures forall e' :: Tidy(old(s), done, e') ==> Tidy(s, done, e')
      ensures Appended(old(s).occurrences, s.occurrences, g, index.t.gates[g].rhs)
      ensures var gate := old(index.t).gates[g];
              if gate.garbage then s == old(s) && index.t == old(index.t)
              else if Var(dst) == Var(gate.lhs) then s == old(s) && index.t.gates[g].garbage
              else if src !in gate.rhs then s == old(s) && index.t == old(index.t)
              else (XorRewritten(old(s).values, gate.rhs, dst, src, kept, negate)
                    && XorUpdated(s, index.t.gates, g,
                                  gate.(lhs := if negate then Neg(gate.lhs) else gate.lhs, rhs := kept)))
    {
      hide Order, OthersKept, Tidy, Work, Todo, CountZeros, Base, TableOK, GatesOK, GateSound,
           OccurrencesOK, XorRewritten, XorUpdated, Sort, Appended;
      AppendedRefl(s.occurrences, g, index.t.gates[g].rhs);
      kept, negate := [], false;
      AdvancedRefl(s, e);
      OthersRefl(index.t.gates, g);
      OrderWeaker(s, index.t.gates, done, hashOf, g);
      BaseFacts(s, ms);
      var gate := index.t.gates[g];
      if gate.garbage {
        return;
      }
      SameVar(dst, gate.lhs);
      SameVar(gate.lhs, dst);
      if dst == gate.lhs || dst == Neg(gate.lhs) {
        OrderDropped(s, index.t.gates, done, hashOf, g);
        MarkGarbage(g, e);
        return;
      }
      if src !in gate.rhs {
        return;
      }
      GateFacts(index.t.gates, g, |s.values|, ms);
      XorShape(gate, |s.values|, ms);
      var inputs, flip, dstCount := RewriteXorInputs(gate.rhs, dst, src);
      kept, negate := inputs, flip;
      XorRewrittenSound(s, ms, gate, dst, src, inputs, flip);
      var lhs := if flip then Neg(gate.lhs) else gate.lhs;
      XorRewrittenInputs(old(s).values, gate.rhs, dst, src, inputs, flip);
      ReplaceInputs(g, lhs, inputs, dst, dstCount, e);
    }

    /** Gives an XOR gate its new inputs; a variable that only its negation stood for before is connected. */
    method ReplaceInputs(g: nat, lhs: Lit, inputs: seq<Lit>, dst: Lit, dstCount: nat, ghost e: int)
      requires Valid(e) && !s.inconsistent && g < |index.t.gates| && index.t.gates[g].tag == Xor
      requires !index.t.gates[g].garbage && GateSound(Rewired(index.t.gates[g], Xor, lhs, inputs), |s.values|, ms)
      requires Order(s, index.t.gates, done, hashOf, -1, -1, -1)
      requires Var(dst) !in done && Var(dst) != e && dst < |s.values| && (dstCount == 1 <==> 2 * Var(dst) in inputs)
      requires forall l :: l in inputs ==> l in index.t.gates[g].rhs || l == 2 * Var(dst)
      modifies this`s, index`t
      ensures Valid(e) && Advanced(old(s), s, e) && |index.t.gates| == |old(index.t).gates|
      ensures Order(s, index.t.gates, done, hashOf, g, dst, -1) && OthersKept(old(index.t).gates, index.t.gates, g)
      ensures forall e' :: Tidy(old(s), done, e') ==> Tidy(s, done, e')
      ensures Appended(old(s).occurrences, s.occurrences, g, index.t.gates[g].rhs)
      ensures XorUpdated(s, index.t.gates, g, old(index.t).gates[g].(lhs := lhs, rhs := inputs))
    {
      hide Order, OthersKept, Tidy, Base, TableOK, GatesOK, GateSound, OccurrencesOK, XorUpdated, Sort, Work, Todo,
           Appended;
      ghost var gate := index.t.gates[g];
      BaseFacts(s, ms);
      OrderWeaker(s, index.t.gates, done, hashOf, g);
      OrderWritten(s, index.t.gates, done, hashOf, g, Rewired(gate, Xor, lhs, inputs));
      WriteGate(g, Xor, lhs, inputs, e);
      OthersWritten(old(index.t).gates, g, index.t.gates[g]);
      ghost var gates1 := index.t.gates;
      UpdateXor(g, e);
      OthersTrans(old(index.t).gates, gates1, index.t.gates, g);
      XorInputs(s, index.t.gates, g, gate.(lhs := lhs, rhs := inputs));
      GrownAdvanced(old(s), s, e);
      OrderKept(old(s), s, old(index.t).gates, index.t.gates, done, hashOf, g, 2 * Var(dst), e);
      AppendedRefl(s.occurrences, g, index.t.gates[g].rhs);
      StripDst(s, index.t.gates, done, hashOf, g, dst, dstCount, inputs);
      if !index.t.gates[g].garbage && !s.inconsistent && dst % 2 == 1 && dstCount == 1 {
        ghost var s1 := s;
        AppendedOne(old(s).occurrences, s.occurrences, g, index.t.gates[g].rhs, 2 * Var(dst));
        ConnectOccurrence(2 * Var(dst), g, e);
        ConnectedAdvanced(old(s), s1, s, 2 * Var(dst), g, e);
        XorUpdatedFrame(s1, s, index.t.gates, g, gate.(lhs := lhs, rhs := inputs));
        StripConnected(s1, s, index.t.gates, done, hashOf, g, dst);
        TidyOccurrences(s1, s, done);
      }
    }

    // -------------------------------------------------------------- ITE gates

    /** Connects the inputs of a gate that are not known yet. */
    method ConnectNew(g: nat, known: seq<Lit>, ghost e: int)
      requires Valid(e) && g < |index.t.gates| && !index.t.gates[g].garbage
      requires forall l :: l in index.t.gates[g].rhs ==> Var(l) != e
      modifies this`s
      ensures Valid(e) && Advanced(old(s), s, e) && s == old(s).(occurrences := s.occurrences)
      ensures Appended(old(s).occurrences, s.occurrences, g, index.t.gates[g].rhs)
      ensures forall l :: l in index.t.gates[g].rhs ==> l in known || (l < |s.occurrences| && g in s.occurrences[l])
    {
      hide Base, TableOK, GatesOK, GateSound, OccurrencesOK, Appended;
      AdvancedRefl(s, e);
      var rhs := index.t.gates[g].rhs;
      AppendedRefl(s.occurrences, g, rhs);
      GateFacts(index.t.gates, g, |s.values|, ms);
      BaseFacts(s, ms);
      for i := 0 to |rhs|
        invariant Valid(e) && Advanced(old(s), s, e) && s == old(s).(occurrences := s.occurrences)
        invariant |s.occurrences| == |s.values| && Appended(old(s).occurrences, s.occurrences, g, rhs)
        invariant forall k :: 0 <= k < i ==>
                    rhs[k] in known || (rhs[k] < |s.occurrences| && g in s.occurrences[rhs[k]])
      {
        assert rhs[i] in rhs;
        if rhs[i] !in known {
          ghost var s1 := s;
          AppendedOne(old(s).occurrences, s.occurrences, g, rhs, rhs[i]);
          ConnectOccurrence(rhs[i], g, e);
          ConnectedAdvanced(old(s), s1, s, rhs[i], g, e);
          StillThere(s1, s, rhs[i], g);
        }
      }
    }

    method SimplifyIteGate(g: nat, ghost e: int)
      requires Valid(e) && !s.inconsistent && g < |index.t.gates| && index.t.gates[g].tag == Ite
      requires var gate := index.t.gates[g];
               gate.garbage || exists l :: l in gate.rhs && l < |s.values| && s.values[l] != 0
      requires e == -1 && Order(s, index.t.gates, done, hashOf, -1, -1, -1)
      modifies this`s, index`t
      ensures Valid(e) && Advanced(old(s), s, e) && |index.t.gates| == |old(index.t).gates|
      ensures Order(s, index.t.gates, done, hashOf, -1, -1, -1) && OthersKept(old(index.t).gates, index.t.gates, g)
      ensures forall e' :: Tidy(old(s), done, e') ==> Tidy(s, done, e')
      ensures Appended(old(s).occurrences, s.occurrences, g, index.t.gates[g].rhs)
      ensures var gate := old(index.t).gates[g];
              if gate.garbage then s == old(s) && index.t == old(index.t)
              else |gate.rhs| == 3 && IteUpdated(s, index.t.gates, g, gate, SimplifyIte(old(s).values, gate.rhs))
    {
      hide Order, OthersKept, Tidy, VarsFresh, InputOK, Base, TableOK, GatesOK, GateSound,
           OccurrencesOK, IteUpdated, SmallOf, Sort, Root, Appended;
      AppendedRefl(s.occurrences, g, index.t.gates[g].rhs);
      AdvancedRefl(s, e);
      BaseFacts(s, ms);
      OthersRefl(index.t.gates, g);
      var gate := index.t.gates[g];
      if gate.garbage {
        return;
      }
      GateFacts(index.t.gates, g, |s.values|, ms);
      IteShape(gate, |s.values|, ms);
      SimplifyIteSound(s, ms, gate);
      var r := SimplifyIte(s.values, gate.rhs);
      OrderGate(s, index.t.gates, done, hashOf, g);
      SimplifyIteFresh(s.values, gate.rhs, done);
      ApplyRewritten(g, r, gate.rhs, e, -1);
    }

    /** Carries out what an ITE gate has become. */
    method ApplyRewritten(g: nat, r: Rewritten, known: seq<Lit>, ghost e: int, ghost y: int)
      requires Valid(e) && !s.inconsistent && g < |index.t.gates| && index.t.gates[g].tag == Ite
      requires !index.t.gates[g].garbage
      requires RewrittenOK(index.t.gates[g], r, |s.values|, ms, e)
      requires Order(s, index.t.gates, done, hashOf, -1, -1, -1) && VarsFresh(r, done)
      requires -1 <= y && forall l :: l in known ==> l in index.t.gates[g].rhs || l == y
      modifies this`s, index`t
      ensures Valid(e) && Advanced(old(s), s, e) && |index.t.gates| == |old(index.t).gates|
      ensures Order(s, index.t.gates, done, hashOf, if y < 0 then -1 else g, y, -1)
      ensures OthersKept(old(index.t).gates, index.t.gates, g)
      ensures forall e' :: Tidy(old(s), done, e') ==> Tidy(s, done, e')
      ensures Appended(old(s).occurrences, s.occurrences, g, index.t.gates[g].rhs)
      ensures IteUpdated(s, index.t.gates, g, old(index.t).gates[g], r)
    {
      hide Base, TableOK, GatesOK, GateSound, OccurrencesOK, SmallOf, Sort, Root, Order, OthersKept, Tidy, VarsFresh,
           Settled, RewrittenOK, NormalIte, InputOK, Shaped, Appended;
      var gate := index.t.gates[g];
      GateFacts(index.t.gates, g, |s.values|, ms);
      BaseFacts(s, ms);
      RewrittenParts(gate, r, |s.values|, ms, e);
      OthersRefl(index.t.gates, g);
      OrderWeaker(s, index.t.gates, done, hashOf, g);
      OrderGate(s, index.t.gates, done, hashOf, g);
      match r {
        case Equal(other) =>
          var merged := MergeLiterals(gate.lhs, other);
          BaseFacts(s, ms);
          OccurrencesFrame(old(s), s, index.t.gates, e);
          GrownAdvanced(old(s), s, e);
          OrderGrown(old(s), s, index.t.gates, done, hashOf);
          OrderInconsistent(s, index.t.gates, done, hashOf);
          if !s.inconsistent {
            OrderDropped(s, index.t.gates, done, hashOf, g);
            MarkGarbage(g, e);
          }
          AppendedRefl(s.occurrences, g, index.t.gates[g].rhs);
        case Fixed(negated) =>
          var ok := LearnUnit(if negated then Neg(gate.lhs) else gate.lhs);
          OccurrencesFrame(old(s), s, index.t.gates, e);
          GrownAdvanced(old(s), s, e);
          OrderGrown(old(s), s, index.t.gates, done, hashOf);
          OrderInconsistent(s, index.t.gates, done, hashOf);
          if !s.inconsistent {
            OrderDropped(s, index.t.gates, done, hashOf, g);
            MarkGarbage(g, e);
          }
          AppendedRefl(s.occurrences, g, index.t.gates[g].rhs);
        case Small(tag, negated, a, b) =>
          SmallSound(gate, r, |s.values|, ms, e);
          SmallFresh(gate, r, done);
          SettleRewritten(g, SmallOf(gate, r), known, e, y);
        case Still(c) =>
          StillSound(gate, r, |s.values|, ms, e);
          StillFresh(gate, r, done);
          var d, negate := NormalIte(c).0, NormalIte(c).1;
          SettleRewritten(g, Rewired(gate, Ite, if negate then Neg(gate.lhs) else gate.lhs, d), known, e, y);
      }
    }

    /** Gives a gate new inputs, and settles and connects it. */
    method SettleRewritten(g: nat, gate': Gate, known: seq<Lit>, ghost e: int, ghost y: int)
      requires Valid(e) && !s.inconsistent && g < |index.t.gates| && !index.t.gates[g].garbage
      requires gate' == Rewired(index.t.gates[g], gate'.tag, gate'.lhs, gate'.rhs) && GateSound(gate', |s.values|, ms)
      requires Covered(index.t.gates[g], gate'.tag, gate'.rhs, e) && Shaped(gate')
      requires forall l :: l in gate'.rhs ==> Var(l) != e && Var(l) !in done
      requires Order(s, index.t.gates, done, hashOf, -1, -1, -1)
      requires -1 <= y && forall l :: l in known ==> l in index.t.gates[g].rhs || l == y
      modifies this`s, index`t
      ensures Valid(e) && Advanced(old(s), s, e) && |index.t.gates| == |old(index.t).gates|
      ensures Order(s, index.t.gates, done, hashOf, if y < 0 then -1 else g, y, -1)
      ensures OthersKept(old(index.t).gates, index.t.gates, g)
      ensures forall e' :: Tidy(old(s), done, e') ==> Tidy(s, done, e')
      ensures Appended(old(s).occurrences, s.occurrences, g, index.t.gates[g].rhs)
      ensures Settled(s, index.t.gates, g, gate')
    {
      hide Base, TableOK, GatesOK, GateSound, OccurrencesOK, Order, OthersKept, Tidy,
           Settled, InputOK, Covered, Appended,
           Shaped;
      ghost var gate := index.t.gates[g];
      OrderGate(s, index.t.gates, done, hashOf, g);
      OrderWeaker(s, index.t.gates, done, hashOf, g);
      OrderWritten(s, index.t.gates, done, hashOf, g, gate');
      WriteGate(g, gate'.tag, gate'.lhs, gate'.rhs, e);
      OthersWritten(old(index.t).gates, g, index.t.gates[g]);
      ghost var gates1 := index.t.gates;
      var found := Settle(g, e);
      OthersTrans(old(index.t).gates, gates1, index.t.gates, g);
      GrownAdvanced(old(s), s, e);
      ghost var s1 := s;
      SettledInputs(s, index.t.gates, g, gate');
      AppendedRefl(s.occurrences, g, index.t.gates[g].rhs);
      if !found {
        ConnectNew(g, known, e);
        SettledFrame(s1, s, index.t.gates, g, gate');
        OrderAdvanced(s1, s, index.t.gates, done, hashOf, e);
        OrderAdvanced(old(s), s, index.t.gates, done, hashOf, e);
        TidyOccurrences(s1, s, done);
        NewInputs(s, index.t.gates, done, g, known, gate, y);
      }
      OrderInputs(s, index.t.gates, done, hashOf, g, y);
    }

    method RewriteIteGate(g: nat, dst: Lit, src: Lit)
      requires Valid(Var(src)) && !s.inconsistent && g < |index.t.gates| && index.t.gates[g].tag == Ite
      requires dst < |s.values| && Equivalent(ms, src, dst) && Var(src) != Var(dst)
      requires Order(s, index.t.gates, done, hashOf, -1, -1, -1) && Var(dst) !in done
      modifies this`s, index`t
      ensures Valid(Var(src)) && Advanced(old(s), s, Var(src)) && |index.t.gates| == |old(index.t).gates|
      ensures Order(s, index.t.gates, done, hashOf, g, dst, -1) && OthersKept(old(index.t).gates, index.t.gates, g)
      ensures forall e' :: Tidy(old(s), done, e') ==> Tidy(s, done, e')
      ensures Appended(old(s).occurrences, s.occurrences, g, index.t.gates[g].rhs)
      ensures var gate := old(index.t).gates[g];
              if gate.garbage || src !in gate.rhs then s == old(s) && index.t == old(index.t)
              else |gate.rhs| == 3 && IteUpdated(s, index.t.gates, g, gate, RewriteIte(gate.rhs, dst, src))
    {
      hide Order, OthersKept, Tidy, VarsFresh, InputOK, Base, TableOK, GatesOK, GateSound,
           OccurrencesOK, IteUpdated, SmallOf, Sort, Root, RewrittenOK, Appended;
      AppendedRefl(s.occurrences, g, index.t.gates[g].rhs);
      ghost var e := Var(src);
      AdvancedRefl(s, e);
      BaseFacts(s, ms);
      OthersRefl(index.t.gates, g);
      OrderWeaker(s, index.t.gates, done, hashOf, g);
      var gate := index.t.gates[g];
      if gate.garbage || src !in gate.rhs {
        return;
      }
      GateFacts(index.t.gates, g, |s.values|, ms);
      IteShape(gate, |s.values|, ms);
      RewriteIteSound(s, ms, gate, dst, src);
      var r := RewriteIte(gate.rhs, dst, src);
      OrderGate(s, index.t.gates, done, hashOf, g);
      RewriteIteFresh(gate.rhs, dst, src, done);
      ApplyRewritten(g, r, gate.rhs + [dst], e, dst);
      if r.Small? && r.tag == And && !s.inconsistent {
        SmallTag(s, index.t.gates, g, gate, r);
        if !index.t.gates[g].garbage {
          ghost var s1 := s;
          AddImplied(g, r, gate, e);
          AdvancedTrans(old(s), s1, s, e);
          OrderAdvanced(s1, s, index.t.gates, done, hashOf, e);
        }
      }
    }

    /** Adds the binary clauses of an AND gate. */
    method AddImplied(g: nat, ghost r: Rewritten, ghost gate: Gate, ghost e: int)
      requires Valid(e) && g < |index.t.gates| && index.t.gates[g].tag == And && !index.t.gates[g].garbage
      requires IteUpdated(s, index.t.gates, g, gate, r) && r.Small?
      modifies this`s
      ensures Valid(e) && Advanced(old(s), s, e) && IteUpdated(s, index.t.gates, g, gate, r)
      ensures s.occurrences == old(s).occurrences
      ensures forall e' :: Tidy(old(s), done, e') ==> Tidy(s, done, e')
      ensures !s.inconsistent ==> forall l :: l in index.t.gates[g].rhs ==> BinaryKnown(s, Neg(index.t.gates[g].lhs), l)
    {
      hide Base, TableOK, GatesOK, GateSound, OccurrencesOK, IteUpdated, Root, Tidy, Work, Todo;
      var lhs, rhs := index.t.gates[g].lhs, index.t.gates[g].rhs;
      GateFacts(index.t.gates, g, |s.values|, ms);
      AdvancedRefl(s, e);
      AndImplies(ms, index.t.gates[g]);
      BaseFacts(s, ms);
      for i := 0 to |rhs|
        invariant Valid(e) && Advanced(old(s), s, e) && IteUpdated(s, index.t.gates, g, gate, r)
        invariant |s.values| == |old(s).values| && s.occurrences == old(s).occurrences
        invariant !s.inconsistent ==> forall k :: 0 <= k < i ==> BinaryKnown(s, Neg(lhs), rhs[k])
        invariant forall e' :: Tidy(old(s), done, e') ==> Tidy(s, done, e')
      {
        assert rhs[i] in rhs;
        ghost var s1 := s;
        AddBinaryClause(Neg(lhs), rhs[i]);
        OccurrencesFrame(s1, s, index.t.gates, e);
        GrownAdvanced(s1, s, e);
        AdvancedTrans(old(s), s1, s, e);
        IteUpdatedGrown(s1, s, index.t.gates, g, gate, r);
      }
    }

    // -------------------------------------------------------------- new gates

    /** Connects a gate with all its inputs. */
    method ConnectInputs(g: nat)
      requires Valid(-1) && g < |index.t.gates| && forall l :: l in index.t.gates[g].rhs ==> l < |s.values|
      modifies this`s
      ensures Valid(-1) && Advanced(old(s), s, -1) && s == old(s).(occurrences := s.occurrences)
      ensures forall l :: l in index.t.gates[g].rhs ==> l < |s.occurrences| && g in s.occurrences[l]
      ensures Appended(old(s).occurrences, s.occurrences, g, index.t.gates[g].rhs)
    {
      hide Base, TableOK, GatesOK, GateSound, OccurrencesOK, Root, Appended;
      AdvancedRefl(s, -1);
      BaseFacts(s, ms);
      var rhs := index.t.gates[g].rhs;
      AppendedRefl(s.occurrences, g, rhs);
      for i := 0 to |rhs|
        invariant Valid(-1) && Advanced(old(s), s, -1) && s == old(s).(occurrences := s.occurrences)
        invariant |s.occurrences| == |s.values| && Appended(old(s).occurrences, s.occurrences, g, rhs)
        invariant forall k :: 0 <= k < i ==> rhs[k] < |s.occurrences| && g in s.occurrences[rhs[k]]
      {
        assert rhs[i] in rhs;
        ghost var s1 := s;
        AppendedOne(old(s).occurrences, s.occurrences, g, rhs, rhs[i]);
        InputListed(index.t.gates[g], rhs[i]);
        ConnectOccurrence(rhs[i], g, -1);
        ConnectedAdvanced(old(s), s1, s, rhs[i], g, -1);
        StillThere(s1, s, rhs[i], g);
      }
    }

    /** Adds a gate unless there is one with the same inputs, whose output is then equal. */
    method NewGate(tag: Tag, lhs: Lit, rhs: seq<Lit>) returns (g: int)
      requires Valid(-1) && !s.inconsistent && GateSound(Fresh(tag, lhs, rhs), |s.values|, ms)
      requires Neat() && Shaped(Fresh(tag, lhs, rhs)) && forall l :: l in rhs ==> Var(l) !in done
      modifies this`s, index`t
      ensures Valid(-1) && Advanced(old(s), s, -1) && |index.t.gates| >= |old(index.t).gates| && Neat()
      ensures g >= 0 ==> g == |old(index.t).gates| == |index.t.gates| - 1 && Live(index.t.gates[g])
      ensures g >= 0 ==> SameFunction(index.t.gates[g], Fresh(tag, lhs, rhs)) && index.t.gates[g].lhs == lhs
      ensures g >= 0 ==> forall l :: l in rhs ==> l < |s.occurrences| && g as nat in s.occurrences[l]
      ensures g < 0 ==> HasCounterpart(s, index.t.gates, -1, Fresh(tag, lhs, rhs))
      ensures Coarser(old(s).repr, s.repr) && GatesKept(old(index.t).gates, index.t.gates)
      ensures Present(s, index.t.gates, Fresh(tag, lhs, rhs))
      ensures Connected(old(s), old(index.t).gates) ==> Connected(s, index.t.gates)
    {
      hide Base, TableOK, GatesOK, GateSound, OccurrencesOK, Root, Coarser, GatesKept,
           Reindexed, Order, Tidy, UnitsDone,
           Swept, InputOK, KnownEqual, HasCounterpart, Connected, Appended;
      AdvancedRefl(s, -1);
      CoarserRefl(s, ms);
      var hash := hashOf(tag, rhs);
      var h := index.FindGate(tag, hash, rhs, -1);
      ghost var t1 := index.t;
      SweptReindexed(old(index.t), index.t);
      OrderSwept(s, old(index.t), index.t, done, hashOf);
      ReindexedKeeps(old(index.t).gates, index.t.gates, s.occurrences, |s.values|, ms, -1);
      ReindexedKept(old(index.t).gates, index.t.gates);
      ghost var gate := Fresh(tag, lhs, rhs);
      if h >= 0 {
        FreshOutput(index.t.gates, h, gate, |s.values|, ms);
        var merged := MergeLiterals(index.t.gates[h].lhs, lhs);
        OccurrencesFrame(old(s), s, index.t.gates, -1);
        OrderGrown(old(s), s, index.t.gates, done, hashOf);
        UnitsGrown(old(s), s, done);
        GrownAdvanced(old(s), s, -1);
        BaseFacts(s, ms);
        KnownEqualSymmetric(s, index.t.gates[h].lhs, lhs);
        Counterpart(s, index.t.gates, h, gate);
        ConnectedMerged(old(s), old(index.t).gates, s, index.t.gates);
        return -1;
      }
      var n := |index.t.gates|;
      g := n;
      FreshKeeps(index.t, s.occurrences, Fresh(tag, lhs, rhs).(hash := hash), |s.values|, ms);
      index.t := index.t.(gates := index.t.gates + [Gate(tag, lhs, rhs, hash, false, false)]);
      FreshInputs(gate, |s.values|, ms);
      BaseFacts(s, ms);
      OrderAppended(s, t1.gates, done, hashOf, index.t.gates[n]);
      ConnectInputs(n);
      OrderAdvanced(old(s), s, index.t.gates, done, hashOf, -1);
      TidyOccurrences(old(s), s, done);
      UnitsOccurrences(old(s), s, done);
      ghost var gates := index.t.gates;
      index.IndexGate(n);
      IndexedReindexed(gates, n);
      ReindexedKept(gates, index.t.gates);
      GatesKeptTrans(old(index.t).gates, gates, index.t.gates);
      ReindexedKeeps(gates, index.t.gates, s.occurrences, |s.values|, ms, -1);
      OrderWritten(s, gates, done, hashOf, n, index.t.gates[n]);
      assert index.t.gates == gates[n := index.t.gates[n]];
      AppendedUnlike(t1.gates, index.t.gates, tag, hash, rhs);
      OrderIndexed(s, index.t.gates, done, hashOf, n);
      NewInputsOK(s, done, n, rhs);
      OrderInputs(s, index.t.gates, done, hashOf, n, -1);
      KnownEqualRefl(s, ms, lhs);
      Counterpart(s, index.t.gates, n, gate);
      ConnectedGate(old(s), old(index.t).gates, s, index.t.gates, n);
    }

    /** The output is the conjunction of the negations of the other literals of a clause. */
    method NewAndGate(lhs: Lit, lits: seq<Lit>) returns (g: int)
      requires Valid(-1) && !s.inconsistent && lhs < |s.values| && forall l :: l in lits ==> l < |s.values|
      requires forall m :: m in ms ==> (Holds(m, lhs) <==> forall l :: l in lits && l != lhs ==> !Holds(m, l))
      requires Neat() && DistinctVars(lits) && |lits| > 2 && lhs in lits && forall l :: l in lits ==> Var(l) !in done
      modifies this`s, index`t
      ensures Valid(-1) && Advanced(old(s), s, -1) && Neat()
      ensures g >= 0 ==>
                g < |index.t.gates| && Live(index.t.gates[g]) && index.t.gates[g].tag == And &&
                    index.t.gates[g].lhs == lhs
      ensures Coarser(old(s).repr, s.repr) && GatesKept(old(index.t).gates, index.t.gates)
      ensures Present(s, index.t.gates, AndGate(lhs, lits))
      ensures Connected(old(s), old(index.t).gates) ==> Connected(s, index.t.gates)
    {
      hide Order, Tidy, UnitsDone, Base, TableOK, GatesOK, GateSound, OccurrencesOK, Sort,
           Coarser, GatesKept, Present, NegatedOthers, Connected;
      BaseFacts(s, ms);
      var rhs: seq<Lit> := [];
      OthersStart(lhs, lits);
      for i := 0 to |lits|
        invariant s == old(s) && index.t == old(index.t) && rhs == NegatedOthers(lhs, lits[..i])
      {
        OthersStep(lhs, lits, i);
        if lits[i] != lhs {
          rhs := rhs + [Neg(lits[i])];
        }
      }
      assert lits[..|lits|] == lits && rhs == NegatedOthers(lhs, lits);
      OthersMembers(lhs, lits);
      OthersDistinct(lhs, lits);
      NegatedInputs(ms, lhs, lits, rhs, |s.values|);
      SortedSound(Fresh(And, lhs, rhs), |s.values|, ms);
      NegatedFresh(lhs, lits, done);
      SortShaped(And, rhs);
      g := NewGate(And, lhs, Sort(rhs));
    }

    /** The output is the exclusive or of inputs of different variables. */
    method NewXorGate(lhs: Lit, rhs: seq<Lit>) returns (g: int)
      requires Valid(-1) && !s.inconsistent && GateSound(Fresh(Xor, lhs, rhs), |s.values|, ms)
      requires Neat() && |rhs| > 1 && forall l :: l in rhs ==> Var(l) !in done
      modifies this`s, index`t
      ensures Valid(-1) && Advanced(old(s), s, -1) && Neat()
      ensures g >= 0 ==>
                g < |index.t.gates| && Live(index.t.gates[g]) && index.t.gates[g].tag == Xor &&
                    index.t.gates[g].lhs == lhs
      ensures Coarser(old(s).repr, s.repr) && GatesKept(old(index.t).gates, index.t.gates)
      ensures Present(s, index.t.gates, Fresh(Xor, lhs, Sort(rhs)))
      ensures Connected(old(s), old(index.t).gates) ==> Connected(s, index.t.gates)
    {
      hide Order, Tidy, UnitsDone, Base, TableOK, GatesOK, GateSound, OccurrencesOK, Sort, Coarser, GatesKept, Present,
           Connected;
      SortedSound(Fresh(Xor, lhs, rhs), |s.values|, ms);
      SortFresh(rhs, done);
      XorShape(Fresh(Xor, lhs, rhs), |s.values|, ms);
      SortShaped(Xor, rhs);
      g := NewGate(Xor, lhs, Sort(rhs));
    }

    /** An ITE gate is normalized; with equal branches it is an equivalence. */
    method NewIteGate(lhs: Lit, cond: Lit, thenLit: Lit, elseLit: Lit) returns (g: int)
      requires Valid(-1) && !s.inconsistent && lhs < |s.values| && cond < |s.values| && thenLit < |s.values|
      requires elseLit < |s.values|
      requires Var(cond) != Var(thenLit) && Var(cond) != Var(elseLit)
      requires forall m :: m in ms ==> (Holds(m, lhs) <==> Choice(m, [cond, thenLit, elseLit]))
      requires Neat() && Var(cond) !in done && Var(thenLit) !in done && Var(elseLit) !in done
      modifies this`s, index`t
      ensures Valid(-1) && Advanced(old(s), s, -1) && Neat()
      ensures elseLit == thenLit ==> g < 0 && KnownEqual(s, lhs, thenLit)
      ensures g >= 0 ==> g < |index.t.gates| && Live(index.t.gates[g]) && index.t.gates[g].tag == Ite
      ensures Coarser(old(s).repr, s.repr) && GatesKept(old(index.t).gates, index.t.gates)
      ensures elseLit != thenLit && elseLit != Neg(thenLit) ==>
                Present(s, index.t.gates, IteGate(lhs, [cond, thenLit, elseLit]))
      ensures Connected(old(s), old(index.t).gates) ==> Connected(s, index.t.gates)
    {
      hide Order, Tidy, UnitsDone, Base, TableOK, GatesOK, GateSound, OccurrencesOK, Root, Coarser, GatesKept, Present,
           Shaped, Connected;
      AdvancedRefl(s, -1);
      CoarserRefl(s, ms);
      GatesKeptRefl(index.t.gates);
      BaseFacts(s, ms);
      if elseLit == Neg(thenLit) {
        SameVar(thenLit, thenLit);
        return -1;
      }
      if elseLit == thenLit {
        EqualBranches(ms, lhs, cond, thenLit);
        var merged := MergeLiterals(lhs, thenLit);
        BaseFacts(s, ms);
        OccurrencesFrame(old(s), s, index.t.gates, -1);
        GrownAdvanced(old(s), s, -1);
        OrderGrown(old(s), s, index.t.gates, done, hashOf);
        UnitsGrown(old(s), s, done);
        ConnectedMerged(old(s), old(index.t).gates, s, index.t.gates);
        return -1;
      }
      var rhs := [cond, thenLit, elseLit];
      NormalFresh(cond, thenLit, elseLit, done);
      NormalSound(lhs, rhs, |s.values|, ms);
      var d, negate := NormalIte(rhs).0, NormalIte(rhs).1;
      g := NewGate(Ite, if negate then Neg(lhs) else lhs, d);
    }

    // -------------------------------------------------------------- propagating units and equivalences

    method SimplifyGate(g: nat)
      requires Valid(-1) && !s.inconsistent && g < |index.t.gates|
      requires var gate := index.t.gates[g];
               gate.garbage || gate.tag != Ite || exists l :: l in gate.rhs && l < |s.values| && s.values[l] != 0
      requires Order(s, index.t.gates, done, hashOf, -1, -1, -1)
      modifies this`s, index`t
      ensures Valid(-1) && Advanced(old(s), s, -1) && |index.t.gates| == |old(index.t).gates|
      ensures Order(s, index.t.gates, done, hashOf, -1, -1, -1) && OthersKept(old(index.t).gates, index.t.gates, g)
      ensures forall e' :: Tidy(old(s), done, e') ==> Tidy(s, done, e')
      ensures Keeps(old(s), old(index.t).gates, s, index.t.gates)
      ensures GateFree(old(s).values, s, index.t.gates, g)
    {
      hide Base, TableOK, GatesOK, GateSound, OccurrencesOK, Order, OthersKept, Tidy, SimplifyIte, IteUpdated,
           AndSimplified, AndUpdated, XorSimplified, XorUpdated, GateFree, Keeps,
           Learned, KnownSame, Appended;
      var tag := index.t.gates[g].tag;
      ghost var gate0, values0 := index.t.gates[g], s.values;
      BaseFacts(s, ms);
      if !gate0.garbage {
        GateFacts(index.t.gates, g, |s.values|, ms);
      }
      if tag == And {
        ghost var kept, forced := SimplifyAnd(g, -1);
        GrownAdvanced(old(s), s, -1);
        AdvancedLearned(old(s), s, -1);
        SimplifyAndKeeps(old(s), old(index.t).gates, s, index.t.gates, g, kept, forced);
        AndFree(old(s).values, s, index.t.gates, g, gate0, kept, forced);
      } else if tag == Xor {
        ghost var kept, negate := SimplifyXor(g, -1);
        GrownAdvanced(old(s), s, -1);
        AdvancedLearned(old(s), s, -1);
        SimplifyXorKeeps(old(s), old(index.t).gates, s, index.t.gates, g, kept, negate);
        XorFree(old(s).values, s, index.t.gates, g, gate0, kept, negate);
      } else {
        SimplifyIteGate(g, -1);
        AdvancedLearned(old(s), s, -1);
        SimplifyIteKeeps(old(s), old(index.t).gates, s, index.t.gates, g);
        IteFree(values0, s, index.t.gates, g, gate0);
      }
    }

    method RewriteGate(g: nat, dst: Lit, src: Lit, ghost i: nat)
      requires Valid(Var(src)) && !s.inconsistent && g < |index.t.gates|
      requires dst < |s.values| && Equivalent(ms, src, dst) && Var(src) != Var(dst)
      requires KnownSame(s, src, dst) && src < |s.occurrences| && i < |s.occurrences[src]| && s.occurrences[src][i] == g
      requires Order(s, index.t.gates, done, hashOf, -1, -1, -1) && Var(dst) !in done
      modifies this`s, index`t
      ensures Valid(Var(src)) && Advanced(old(s), s, Var(src)) && |index.t.gates| == |old(index.t).gates|
      ensures Order(s, index.t.gates, done, hashOf, g, dst, -1) && OthersKept(old(index.t).gates, index.t.gates, g)
      ensures forall e' :: Tidy(old(s), done, e') ==> Tidy(s, done, e')
      ensures Keeps(old(s), old(index.t).gates, s, index.t.gates)
      ensures old(index.t).gates[g].garbage ==> index.t.gates[g].garbage
      ensures GateWithout(s, index.t.gates, g, old(index.t).gates[g], src, dst)
    {
      hide Base, TableOK, GatesOK, GateSound, OccurrencesOK, Order, OthersKept, Tidy, RewriteIte, IteUpdated,
           AndRewritten, AndUpdated, XorRewritten, XorUpdated, GateWithout, Keeps,
           Learned, KnownSame, Appended;
      var tag := index.t.gates[g].tag;
      ghost var gate0 := index.t.gates[g];
      BaseFacts(s, ms);
      if !gate0.garbage {
        GateFacts(index.t.gates, g, |s.values|, ms);
        if gate0.tag == Ite {
          IteShape(gate0, |s.values|, ms);
        }
      }
      OthersRefl(index.t.gates, g);
      if tag == And {
        ghost var kept, forced := RewriteAnd(g, dst, src, Var(src));
        GrownAdvanced(old(s), s, Var(src));
        AdvancedLearned(old(s), s, Var(src));
        RewriteAndKeeps(old(s), old(index.t).gates, s, index.t.gates, g, dst, src, kept, forced);
        AndWithout(old(s).values, s, index.t.gates, g, gate0, dst, src, kept, forced);
      } else if tag == Xor {
        ghost var kept, negate := RewriteXor(g, dst, src, Var(src));
        AdvancedLearned(old(s), s, Var(src));
        RewriteXorKeeps(old(s), old(index.t).gates, s, index.t.gates, g, dst, src, kept, negate, i);
        XorWithout(old(s).values, s, index.t.gates, g, gate0, dst, src, kept, negate);
      } else {
        RewriteIteGate(g, dst, src);
        AdvancedLearned(old(s), s, Var(src));
        RewriteIteKeeps(old(s), old(index.t).gates, s, index.t.gates, g, dst, src);
        IteWithout(s, index.t.gates, g, gate0, dst, src, |old(s).values|);
      }
    }

    /** Simplifies the i-th gate of the list of a literal that has got a value. */
    method SimplifyNext(lit: Lit, list: seq<nat>, i: nat)
      requires Valid(-1) && !s.inconsistent && lit < |s.values| && s.values[lit] != 0 && lit < |s.occurrences|
      requires i < |list| && i < |s.occurrences[lit]| && s.occurrences[lit][i] == list[i]
      requires Order(s, index.t.gates, done, hashOf, -1, -1, -1) && Held(index.t.gates, lit, list, i)
      modifies this`s, index`t
      ensures Valid(-1) && Advanced(old(s), s, -1) && Order(s, index.t.gates, done, hashOf, -1, -1, -1)
      ensures forall e' :: Tidy(old(s), done, e') ==> Tidy(s, done, e')
      ensures Keeps(old(s), old(index.t).gates, s, index.t.gates)
      ensures !s.inconsistent ==> Held(index.t.gates, lit, list, i + 1)
      ensures !s.inconsistent && NoGateHas(old(index.t).gates, Neg(lit)) ==> NoGateHas(index.t.gates, Neg(lit))
    {
      hide Base, TableOK, GatesOK, GateSound, OccurrencesOK, Order, Tidy, OthersKept, GateFree, NoGateHas, Held,
           Advanced, Keeps;
      ghost var s1, gates1 := s, index.t.gates;
      BaseFacts(s, ms);
      OccurrenceInput(s, ms, index.t.gates, lit, i);
      SimplifyGate(list[i]);
      if !s.inconsistent {
        FreeWithout(s1.values, s, index.t.gates, list[i], lit);
        HeldNext(gates1, index.t.gates, lit, list, i);
        NotHeldNext(gates1, index.t.gates, list[i], Neg(lit));
      }
    }

    /** Simplifies the gates with an input that has got a value. */
    method SimplifyGates(lit: Lit) returns (ok: bool)
      requires Valid(-1) && !s.inconsistent && lit < |s.values| && s.values[lit] != 0
      requires Order(s, index.t.gates, done, hashOf, -1, -1, -1)
      modifies this`s, index`t
      ensures Valid(-1) && Later(old(s), s) && ok == !s.inconsistent && (ok ==> s.occurrences[lit] == [])
      ensures Order(s, index.t.gates, done, hashOf, -1, -1, -1)
      ensures forall e' :: Tidy(old(s), done, e') ==> Tidy(s, done, e')
      ensures Keeps(old(s), old(index.t).gates, s, index.t.gates)
      ensures ok ==> NoGateHas(index.t.gates, lit)
      ensures ok && NoGateHas(old(index.t).gates, Neg(lit)) ==> NoGateHas(index.t.gates, Neg(lit))
    {
      hide Base, TableOK, GatesOK, GateSound, OccurrencesOK, Order, Tidy, NoGateHas, Held, Work, Todo, Keeps;
      KeepsRefl(s, index.t.gates);
      AdvancedRefl(s, -1);
      BaseFacts(s, ms);
      var gates := s.occurrences[lit];
      HeldStart(s, index.t.gates, done, hashOf, lit);
      for i := 0 to |gates|
        invariant Valid(-1) && Advanced(old(s), s, -1) && !s.inconsistent
        invariant Keeps(old(s), old(index.t).gates, s, index.t.gates)
        invariant Order(s, index.t.gates, done, hashOf, -1, -1, -1) && Held(index.t.gates, lit, gates, i)
        invariant forall e' :: Tidy(old(s), done, e') ==> Tidy(s, done, e')
        invariant NoGateHas(old(index.t).gates, Neg(lit)) ==> NoGateHas(index.t.gates, Neg(lit))
      {
        ghost var s1, gates1 := s, index.t.gates;
        SimplifyNext(lit, gates, i);
        KeepsTrans(old(s), old(index.t).gates, s1, gates1, s, index.t.gates);
        AdvancedTrans(old(s), s1, s, -1);
        if s.inconsistent {
          AdvancedLater(old(s), s, -1);
          return false;
        }
      }
      BaseFacts(s, ms);
      HeldEnd(index.t.gates, lit, gates);
      OrderReleased(s, index.t.gates, done, hashOf, lit);
      TidyOccurrences(s, s.(occurrences := s.occurrences[lit := []]), done);
      ReleaseKeeps(s, ms, index.t.gates, lit, -1);
      AdvancedLater(old(s), s, -1);
      KeepsReleased(old(s), old(index.t).gates, s, index.t.gates, lit);
      s := s.(occurrences := s.occurrences[lit := []]);
      return true;
    }

    /** Rewrites the i-th gate of the list of a literal, and connects it with the representative. */
    method RewriteNext(dst: Lit, src: Lit, list: seq<nat>, i: nat)
      requires Valid(Var(src)) && !s.inconsistent && dst < |s.values| && src < |s.values| && Equivalent(ms, src, dst)
      requires Var(src) != Var(dst) && src < |s.occurrences| && Var(dst) !in done
      requires KnownSame(s, src, dst)
      requires i < |list| && i < |s.occurrences[src]| && s.occurrences[src][i] == list[i]
      requires Order(s, index.t.gates, done, hashOf, -1, -1, -1) && Held(index.t.gates, src, list, i)
      modifies this`s, index`t
      ensures Valid(Var(src)) && Advanced(old(s), s, Var(src)) && Order(s, index.t.gates, done, hashOf, -1, -1, -1)
      ensures forall e' :: Tidy(old(s), done, e') ==> Tidy(s, done, e')
      ensures Keeps(old(s), old(index.t).gates, s, index.t.gates)
      ensures !s.inconsistent ==> Held(index.t.gates, src, list, i + 1)
      ensures !s.inconsistent && NoGateHas(old(index.t).gates, Neg(src)) ==> NoGateHas(index.t.gates, Neg(src))
    {
      hide Base, TableOK, GatesOK, GateSound, OccurrencesOK, Order, Tidy, OthersKept, GateWithout, NoGateHas, Held,
           Advanced, Keeps, KnownSame;
      ghost var e := Var(src);
      ghost var gates1 := index.t.gates;
      BaseFacts(s, ms);
      OccurrenceBelow(s, index.t.gates, src, i, e);
      var g := list[i];
      RewriteGate(g, dst, src, i);
      if s.inconsistent {
        OrderInconsistent(s, index.t.gates, done, hashOf);
        return;
      }
      BaseFacts(s, ms);
      AdvancedSizes(old(s), s, e);
      WithoutHeld(s, gates1, index.t.gates, list, i, src, dst);
      ghost var s2 := s;
      if !index.t.gates[g].garbage && dst in index.t.gates[g].rhs {
        InputListedFor(index.t.gates[g], dst, e);
        ConnectOccurrence(dst, g, e);
        ConnectedAdvanced(old(s), s2, s, dst, g, e);
        TidyOccurrences(s2, s, done);
        KeepsSame(s2, s, index.t.gates);
        KeepsTrans(old(s), gates1, s2, index.t.gates, s, index.t.gates);
      }
      OrderConnected(s2, s, index.t.gates, done, hashOf, g, dst);
    }

    /** Replaces an input by its representative in the gates it occurs in. */
    method RewriteGates(dst: Lit, src: Lit) returns (ok: bool)
      requires Valid(Var(src)) && !s.inconsistent && dst < |s.values| && src < |s.values| && Equivalent(ms, src, dst)
      requires Var(src) != Var(dst) && KnownSame(s, src, dst)
      requires Order(s, index.t.gates, done, hashOf, -1, -1, -1) && Var(dst) !in done
      modifies this`s, index`t
      ensures Valid(Var(src)) && Later(old(s), s) && ok == !s.inconsistent && (ok ==> s.occurrences[src] == [])
      ensures |s.occurrences| == |old(s).occurrences|
      ensures forall l: nat ::
                l < |s.occurrences| && Var(l) == Var(src) && l != src ==> s.occurrences[l] == old(s).occurrences[l]
      ensures Order(s, index.t.gates, done, hashOf, -1, -1, -1)
      ensures forall e' :: Tidy(old(s), done, e') ==> Tidy(s, done, e')
      ensures Keeps(old(s), old(index.t).gates, s, index.t.gates)
      ensures Learned(old(s), s)
      ensures ok ==> NoGateHas(index.t.gates, src)
      ensures ok && NoGateHas(old(index.t).gates, Neg(src)) ==> NoGateHas(index.t.gates, Neg(src))
    {
      hide Base, TableOK, GatesOK, GateSound, OccurrencesOK, Order, Tidy, NoGateHas, Held, Work, Todo, Keeps, KnownSame,
           Learned;
      KeepsRefl(s, index.t.gates);
      ghost var e := Var(src);
      AdvancedRefl(s, e);
      BaseFacts(s, ms);
      var gates := s.occurrences[src];
      HeldStart(s, index.t.gates, done, hashOf, src);
      for i := 0 to |gates|
        invariant Valid(e) && Advanced(old(s), s, e) && !s.inconsistent && KnownSame(s, src, dst)
        invariant Keeps(old(s), old(index.t).gates, s, index.t.gates)
        invariant Order(s, index.t.gates, done, hashOf, -1, -1, -1) && Held(index.t.gates, src, gates, i)
        invariant forall e' :: Tidy(old(s), done, e') ==> Tidy(s, done, e')
        invariant NoGateHas(old(index.t).gates, Neg(src)) ==> NoGateHas(index.t.gates, Neg(src))
      {
        ghost var s1, gates1 := s, index.t.gates;
        RewriteNext(dst, src, gates, i);
        KeepsTrans(old(s), old(index.t).gates, s1, gates1, s, index.t.gates);
        AdvancedLearned(s1, s, e);
        KnownSameLater(s1, s, src, dst);
        AdvancedTrans(old(s), s1, s, e);
        AdvancedLearned(old(s), s, e);
        if s.inconsistent {
          AdvancedLater(old(s), s, e);
          return false;
        }
      }
      BaseFacts(s, ms);
      HeldEnd(index.t.gates, src, gates);
      OrderReleased(s, index.t.gates, done, hashOf, src);
      TidyOccurrences(s, s.(occurrences := s.occurrences[src := []]), done);
      ReleaseKeeps(s, ms, index.t.gates, src, e);
      AdvancedLater(old(s), s, e);
      AdvancedLearned(old(s), s, e);
      LearnedFrame(old(s), s, s.(occurrences := s.occurrences[src := []]));
      KeepsReleased(old(s), old(index.t).gates, s, index.t.gates, src);
      s := s.(occurrences := s.occurrences[src := []]);
      return true;
    }

    /** Simplifies the gates of a unit, which is done then. */
    method PropagateUnit(lit: Lit) returns (ok: bool)
      requires Valid(-1) && !s.inconsistent && True(s.values, lit)
      requires Order(s, index.t.gates, done, hashOf, -1, -1, -1) && Tidy(s, done, -1)
      modifies this`s, this`done, index`t
      ensures Valid(-1) && Later(old(s), s) && ok == !s.inconsistent
      ensures Order(s, index.t.gates, done, hashOf, -1, -1, -1) && Tidy(s, done, -1)
      ensures Keeps(old(s), old(index.t).gates, s, index.t.gates)
      ensures ok ==> done == old(done) + {Var(lit)}
    {
      hide Base, TableOK, GatesOK, GateSound, OccurrencesOK, Order, Tidy, NoGateHas, Work, Todo, Keeps;
      BaseFacts(s, ms);
      ok := SimplifyGates(lit);
      if ok {
        ghost var s1, gates1 := s, index.t.gates;
        BaseFacts(s, ms);
        assert s.values[Neg(lit)] == -s.values[lit];
        SameVar(lit, lit);
        ok := SimplifyGates(Neg(lit));
        LaterTrans(old(s), s1, s);
        KeepsTrans(old(s), old(index.t).gates, s1, gates1, s, index.t.gates);
        if ok {
          DoneOrder(s, index.t.gates, done, hashOf, lit);
          BaseFacts(s, ms);
          DoneTidy(s, ms, done, lit, -1);
          done := done + {Var(lit)};
        }
      }
    }

    /** Rewrites the gates of a merged literal, which is done then. */
    method PropagateEquivalence(lit: Lit) returns (ok: bool)
      requires Valid(-1) && !s.inconsistent && lit < |s.values| && s.repr[lit] != lit
      requires Order(s, index.t.gates, done, hashOf, -1, -1, -1) && Tidy(s, done, Var(lit))
      requires UnitsDone(s, done) && s.units == |s.trail|
      modifies this`s, this`done, index`t
      ensures Base(s, ms) && Later(old(s), s) && ok == !s.inconsistent && (ok ==> Valid(-1))
      ensures ok && old(s).values[lit] == 0 ==> s.occurrences[lit] == []
      ensures ok && old(s).values[lit] == 0 ==> Neg(lit) < |s.occurrences| && s.occurrences[Neg(lit)] == []
      ensures Order(s, index.t.gates, done, hashOf, -1, -1, -1) && (ok ==> Tidy(s, done, -1) && UnitsDone(s, done))
      ensures Keeps(old(s), old(index.t).gates, s, index.t.gates)
      ensures ok ==> done == old(done) + {Var(lit)}
    {
      hide Base, TableOK, GatesOK, GateSound, OccurrencesOK, Root, Order, Tidy, NoGateHas,
           UnitsDone, Work, Todo, Keeps, KnownSame,
           Learned;
      KeepsRefl(s, index.t.gates);
      BaseFacts(s, ms);
      LaterRefl(s);
      if s.values[lit] != 0 {
        AssignedDone(s, done, lit);
        DoneTidy(s, ms, done, lit, Var(lit));
        assert done + {Var(lit)} == done;
        return true;
      }
      var litRepr := FindRepr(lit);
      RootFacts(s.repr, lit);
      RootEquivalent(s, ms, lit);
      RootKnown(s, ms, lit);
      RootOpen(s, ms, done, lit);
      var notLit, notLitRepr := Neg(lit), Neg(litRepr);
      SameVar(lit, lit);
      SameVar(litRepr, litRepr);
      ExceptWeaker(s.occurrences, index.t.gates, Var(lit));
      ok := RewriteGates(litRepr, lit);
      if ok {
        ghost var s1, gates1 := s, index.t.gates;
        BaseFacts(s, ms);
        KnownSameLater(old(s), s, notLit, notLitRepr);
        ok := RewriteGates(notLitRepr, notLit);
        KeepsTrans(old(s), old(index.t).gates, s1, gates1, s, index.t.gates);
        LaterTrans(old(s), s1, s);
        BaseFacts(s, ms);
        if ok {
          NoneLeft(s.occurrences, index.t.gates, lit);
          DoneOrder(s, index.t.gates, done, hashOf, lit);
          DoneTidy(s, ms, done, lit, Var(lit));
          UnitsLater(old(s), s, done, done + {Var(lit)});
          done := done + {Var(lit)};
        }
      }
    }

    /** All units so far have been propagated, or the clauses are inconsistent. */
    method PropagateUnits() returns (ok: bool)
      requires Valid(-1) && !s.inconsistent && Neat()
      modifies this`s, this`done, index`t
      ensures Valid(-1) && ok == !s.inconsistent && (ok ==> s.units == |s.trail| && Neat())
      ensures Keeps(old(s), old(index.t).gates, s, index.t.gates)
      ensures |s.values| == |old(s).values| && Todo(s) <= Todo(old(s))
    {
      hide Base, TableOK, GatesOK, GateSound, OccurrencesOK, Order, Tidy, UnitsDone, Todo, Keeps;
      KeepsRefl(s, index.t.gates);
      TrailFacts(s, ms);
      while s.units < |s.trail|
        invariant Valid(-1) && !s.inconsistent && s.units <= |s.trail| && |s.values| == |old(s).values|
        invariant Todo(s) <= Todo(old(s)) && Neat()
        invariant Keeps(old(s), old(index.t).gates, s, index.t.gates)
        decreases Work(s) - s.units
      {
        TrailFacts(s, ms);
        var lit := s.trail[s.units];
        BaseUnits(s, ms);
        UnitsNext(s, index.t.gates, done, hashOf);
        ghost var s0 := s;
        KeepsSame(s, s.(units := s.units + 1), index.t.gates);
        s := s.(units := s.units + 1);
        ghost var s1, done1, gates1 := s, done, index.t.gates;
        KeepsTrans(old(s), old(index.t).gates, s0, gates1, s1, gates1);
        ok := PropagateUnit(lit);
        KeepsTrans(old(s), old(index.t).gates, s1, gates1, s, index.t.gates);
        if !ok {
          return false;
        }
        NextUnitDone(s1, s, done1, done, lit);
        TrailFacts(s, ms);
      }
      return true;
    }

    /**
      Propagates units first and equivalences then, until nothing is left, the clauses are inconsistent or the
      callback, which is asked before every equivalence, stops it.  A merge takes away two roots and schedules one
      literal, so the loop ends.  If nothing is left, no gate has an input with a value or another representative, and
      no two gates have the same inputs.  Gates are not just thrown away: whatever gates there were before the call,
      the outputs of those that have become the same function have been merged.
     */
    method PropagateUnitsAndEquivalences(terminated: nat -> bool) returns (propagated: nat)
      requires Valid(-1) && !s.inconsistent && Neat()
      modifies this`s, this`done, index`t
      ensures Base(s, ms) && (!s.inconsistent ==> Valid(-1) && Neat())
      ensures s.inconsistent ==> forall m :: m !in ms
      ensures s.inconsistent || terminated(propagated) ||
              (s.schedule == [] && s.units == |s.trail| && Normalized(s, index.t.gates) && Different(index.t.gates))
      ensures !Connected(old(s), old(index.t).gates) || s.inconsistent || terminated(propagated) ||
              (AllMerged(s, old(index.t).gates) && CongruentMerged(s, old(index.t).gates))
      ensures propagated <= Todo(old(s))
      ensures forall m, l: nat :: m in ms && l < |s.repr| ==> Holds(m, Root(s.repr, l)) == Holds(m, l)
    {
      hide Base, TableOK, GatesOK, GateSound, OccurrencesOK, Root, Todo, Order, Tidy, UnitsDone, Keeps, Connected,
           AllMerged, CongruentMerged, Normalized, Different;
      propagated := 0;
      var ok := true;
      KeepsRefl(s, index.t.gates);
      ghost var gates0 := index.t.gates;
      while !terminated(propagated) && ok
        invariant Base(s, ms) && ok == !s.inconsistent && (ok ==> Valid(-1) && Neat())
        invariant |s.values| == |old(s).values| && Keeps(old(s), gates0, s, index.t.gates)
        invariant propagated + Todo(s) <= Todo(old(s))
        decreases Todo(s), ok
      {
        ghost var s0, gates := s, index.t.gates;
        ok := PropagateUnits();
        KeepsTrans(old(s), gates0, s0, gates, s, index.t.gates);
        if !ok || s.schedule == [] {
          break;
        }
        propagated := propagated + 1;
        ScheduleFacts(s, ms);
        var lit := s.schedule[0];
        DequeueKeeps(s, ms);
        DequeueTidy(s, index.t.gates, done, hashOf);
        ghost var s1 := s;
        gates := index.t.gates;
        s := s.(schedule := s.schedule[1..], scheduled := s.scheduled[Var(lit) := false]);
        ghost var s2 := s;
        ok := PropagateEquivalence(lit);
        DequeueKept(old(s), gates0, s1, s2, gates, s, index.t.gates);
      }
      if ok && s.schedule == [] && s.units == |s.trail| {
        AllNormalized(s, ms, index.t.gates, done, hashOf);
        if Connected(old(s), gates0) {
          MergedDone(old(s), gates0, s, index.t.gates, done, hashOf, ms);
        }
      }
      FinalFacts(s, ms);
    }
  }

  lemma DequeueKept(s: State, gates: seq<Gate>, s1: State, s2: State, gates1: seq<Gate>, s3: State, gates3: seq<Gate>)
    requires Keeps(s, gates, s1, gates1) && Keeps(s2, gates1, s3, gates3)
    requires s2 == s1.(schedule := s2.schedule, scheduled := s2.scheduled)
    ensures Keeps(s, gates, s3, gates3)
  {
    hide Keeps;
    KeepsSame(s1, s2, gates1);
    KeepsTrans(s, gates, s1, gates1, s2, gates1);
    KeepsTrans(s, gates, s2, gates1, s3, gates3);
  }

  lemma MergedDone(s0: State, gates0: seq<Gate>, s: State, gates: seq<Gate>, done: set<nat>,
                   hashOf: (Tag, seq<Lit>) -> nat, ms: iset<Model>)
    requires Connected(s0, gates0) && Keeps(s0, gates0, s, gates) && GatesOK(gates0, |s0.values|, ms)
    requires Base(s, ms) && Tidy(s, done, -1) && !s.inconsistent && Normalized(s, gates) && |s.values| == |s0.values|
    requires Order(s, gates, done, hashOf, -1, -1, -1)
    ensures AllMerged(s, gates0) && CongruentMerged(s, gates0)
  {
    hide Base, Connected, Keeps, GatesOK, Order, Normalized, Accounted, AllMerged, CongruentMerged, Agree, Loose;
    StartAccounted(s0, gates0, s, gates, ms);
    AllDone(s, ms, gates, gates0, done, hashOf);
    RootsDone(s, ms, gates0);
  }

  /** The inputs of live gates have no value and represent themselves. */
  ghost predicate Normalized(s: State, gates: seq<Gate>) {
    forall g :: 0 <= g < |gates| && !gates[g].garbage ==> forall l :: l in gates[g].rhs ==>
      l < |s.values| == |s.repr| && s.values[l] == 0 && s.repr[l] == l
  }

  /** Gates of the same tag with the same inputs, in any order unless they choose. */
  ghost predicate Congruent(g: Gate, h: Gate) {
    g.tag == h.tag && if g.tag == Ite then g.rhs == h.rhs else forall l :: l in g.rhs <==> l in h.rhs
  }

  /** No two live gates are congruent. */
  ghost predicate Different(gates: seq<Gate>) {
    forall g, h | 0 <= g < h < |gates| && !gates[g].garbage && !gates[h].garbage :: !Congruent(gates[g], gates[h])
  }

  lemma UnitsNext(s: State, gates: seq<Gate>, done: set<nat>, hashOf: (Tag, seq<Lit>) -> nat)
    requires s.units < |s.trail|
    ensures var s' := s.(units := s.units + 1);
            && (Order(s, gates, done, hashOf, -1, -1, -1) ==> Order(s', gates, done, hashOf, -1, -1, -1))
            && (Tidy(s, done, -1) ==> Tidy(s', done, -1))
            && (UnitsDone(s, done) ==> forall k :: 0 <= k < s.units ==> Var(s'.trail[k]) in done)
            && Todo(s') == Todo(s) && Work(s') == Work(s)
  {
    var s' := s.(units := s.units + 1);
    assert forall g: nat, l: Lit :: InputOK(s, done, g, l) ==> InputOK(s', done, g, l);
    assert forall v: nat :: (OnTrail(s, v) ==> OnTrail(s', v)) && (Waiting(s, v) ==> Waiting(s', v));
    assert forall v: nat :: Processed(s, v) ==> Processed(s', v);
  }

  lemma NextUnitDone(s1: State, s: State, done1: set<nat>, done: set<nat>, lit: Lit)
    requires 0 < s1.units <= |s1.trail| && s1.trail[s1.units - 1] == lit && done == done1 + {Var(lit)}
    requires forall k :: 0 <= k < s1.units - 1 ==> Var(s1.trail[k]) in done1
    requires Later(s1, s)
    ensures UnitsDone(s, done) && |s.values| == |s1.values| && Todo(s) <= Todo(s1) && Work(s) <= Work(s1)
    ensures s.units == s1.units
  {
  }

  lemma DequeueTidy(s: State, gates: seq<Gate>, done: set<nat>, hashOf: (Tag, seq<Lit>) -> nat)
    requires s.schedule != [] && Var(s.schedule[0]) < |s.scheduled|
    requires Order(s, gates, done, hashOf, -1, -1, -1) && Tidy(s, done, -1) && UnitsDone(s, done)
    ensures var s' := s.(schedule := s.schedule[1..], scheduled := s.scheduled[Var(s.schedule[0]) := false]);
            && Order(s', gates, done, hashOf, -1, -1, -1) && Tidy(s', done, Var(s.schedule[0])) && UnitsDone(s', done)
  {
    var v0 := Var(s.schedule[0]);
    var s' := s.(schedule := s.schedule[1..], scheduled := s.scheduled[v0 := false]);
    assert forall g: nat, l: Lit :: InputOK(s, done, g, l) ==> InputOK(s', done, g, l);
    forall v: nat | Waiting(s, v) && v != v0 ensures Waiting(s', v) {
      var k :| 0 <= k < |s.schedule| && Var(s.schedule[k]) == v;
      assert s'.schedule[k - 1] == s.schedule[k];
    }
    assert forall v: nat :: (OnTrail(s, v) ==> OnTrail(s', v)) && (Processed(s, v) ==> Processed(s', v));
  }

  lemma AllNormalized(s: State, ms: iset<Model>, gates: seq<Gate>, done: set<nat>, hashOf: (Tag, seq<Lit>) -> nat)
    requires Base(s, ms) && !s.inconsistent && s.schedule == [] && s.units == |s.trail|
    requires Order(s, gates, done, hashOf, -1, -1, -1) && Tidy(s, done, -1) && UnitsDone(s, done)
    requires GatesOK(gates, |s.values|, ms)
    ensures Normalized(s, gates) && Different(gates)
  {
    forall g, l: Lit | 0 <= g < |gates| && !gates[g].garbage && l in gates[g].rhs
      ensures l < |s.values| == |s.repr| && s.values[l] == 0 && s.repr[l] == l
    {
      assert InputOK(s, done, g, l);
      assert !Waiting(s, Var(l));
      assert OnTrail(s, Var(l)) ==> Var(l) in done;
    }
    forall g, h | 0 <= g < h < |gates| && !gates[g].garbage && !gates[h].garbage
      ensures !Congruent(gates[g], gates[h])
    {
      GateFacts(gates, g, |s.values|, ms);
      GateFacts(gates, h, |s.values|, ms);
      if Congruent(gates[g], gates[h]) {
        AlikeSame(gates[g], gates[h], |s.values|, ms);
      }
    }
  }

  /** Gates in normal form with the same inputs list them in the same order. */
  lemma AlikeSame(g: Gate, h: Gate, n: nat, ms: iset<Model>)
    requires GateSound(g, n, ms) && GateSound(h, n, ms) && !g.garbage && !h.garbage && Shaped(g) && Shaped(h)
    requires Congruent(g, h)
    ensures SameFunction(g, h)
  {
    if g.tag != Ite {
      SameSequence(g.rhs, h.rhs);
    }
  }

  // ------------------------------------------------------------------ new gates

  function Fresh(tag: Tag, lhs: Lit, rhs: seq<Lit>): Gate {
    Gate(tag, lhs, rhs, 0, false, false)
  }

  /** The AND gate with the given output that a clause defines: the other literals are negated. */
  function AndGate(lhs: Lit, lits: seq<Lit>): Gate {
    Fresh(And, lhs, Sort(NegatedOthers(lhs, lits)))
  }

  function NegatedOthers(lhs: Lit, lits: seq<Lit>): seq<Lit> {
    if lits == [] then []
    else
      var n := |lits| - 1;
      NegatedOthers(lhs, lits[..n]) + if lits[n] != lhs then [Neg(lits[n])] else []
  }

  function IteGate(lhs: Lit, rhs: seq<Lit>): Gate
    requires |rhs| == 3
  {
    var (d, negate) := NormalIte(rhs);
    Fresh(Ite, if negate then Neg(lhs) else lhs, d)
  }

  lemma OthersStart(lhs: Lit, lits: seq<Lit>)
    ensures NegatedOthers(lhs, lits[..0]) == []
  {
  }

  lemma OthersStep(lhs: Lit, lits: seq<Lit>, i: nat)
    requires i < |lits|
    ensures NegatedOthers(lhs, lits[..i + 1]) == NegatedOthers(lhs, lits[..i])
            + if lits[i] != lhs then [Neg(lits[i])] else []
  {
    assert lits[..i + 1][..i] == lits[..i];
  }

  lemma {:induction false} OthersMembers(lhs: Lit, lits: seq<Lit>)
    ensures forall l ::
              l in NegatedOthers(lhs, lits) <==> exists k :: 0 <= k < |lits| && lits[k] != lhs && l == Neg(lits[k])
  {
    if lits != [] {
      var n := |lits| - 1;
      OthersMembers(lhs, lits[..n]);
      forall l ensures l in NegatedOthers(lhs, lits) <==>
            exists k :: 0 <= k < |lits| && lits[k] != lhs && l == Neg(lits[k]) {
        if k :| 0 <= k < |lits| && lits[k] != lhs && l == Neg(lits[k]) {
          assert k < n ==> lits[..n][k] == lits[k];
        }
      }
    }
  }

  lemma {:induction false} OthersDistinct(lhs: Lit, lits: seq<Lit>)
    requires DistinctVars(lits)
    ensures DistinctVars(NegatedOthers(lhs, lits))
    ensures |NegatedOthers(lhs, lits)| == |lits| - if lhs in lits then 1 else 0
  {
    if lits != [] {
      var n := |lits| - 1;
      OthersDistinct(lhs, lits[..n]);
      OthersMembers(lhs, lits[..n]);
      var others := NegatedOthers(lhs, lits[..n]);
      assert lhs in lits <==> lhs in lits[..n] || lhs == lits[n];
      assert lhs == lits[n] ==> lhs !in lits[..n];
      SameVar(lits[n], Neg(lits[n]));
      forall i | 0 <= i < |others| ensures Var(others[i]) != Var(lits[n]) {
        assert others[i] in others;
        var k :| 0 <= k < n && lits[..n][k] != lhs && others[i] == Neg(lits[..n][k]);
        assert Var(lits[k]) != Var(lits[n]);
        SameVar(lits[k], others[i]);
      }
    }
  }

  lemma SweptReindexed(t: Table, t': Table)
    requires Swept(t, t')
    ensures Reindexed(t.gates, t'.gates)
  {
  }

  lemma FreshOutput(gates: seq<Gate>, h: nat, gate: Gate, n: nat, ms: iset<Model>)
    requires GatesOK(gates, n, ms) && h < |gates| && !gates[h].garbage && GateSound(gate, n, ms) && !gate.garbage
    requires SameFunction(gates[h], gate)
    ensures gates[h].lhs < n && gate.lhs < n && Equivalent(ms, gates[h].lhs, gate.lhs)
  {
    assert GateSound(gates[h], n, ms);
    forall m | m in ms ensures Holds(m, gates[h].lhs) == Holds(m, gate.lhs) {
      assert GateHolds(m, gates[h]) && GateHolds(m, gate);
    }
  }

  lemma KnownEqualSymmetric(s: State, k: Lit, l: Lit)
    requires KnownEqual(s, k, l)
    ensures KnownEqual(s, l, k)
  {
  }

  lemma FreshKeeps(t: Table, occurrences: seq<seq<nat>>, gate: Gate, n: nat, ms: iset<Model>)
    requires TableOK(t) && GatesOK(t.gates, n, ms) && OccurrencesOK(occurrences, t.gates, -1)
    requires GateSound(gate.(hash := 0), n, ms) && !gate.indexed && !gate.garbage
    ensures var t' := t.(gates := t.gates + [gate]);
            TableOK(t') && GatesOK(t'.gates, n, ms) && OccurrencesOK(occurrences, t'.gates, -1)
  {
    hide GateSound;
    var gates' := t.gates + [gate];
    SameMeaning(gate.(hash := 0), gate, n, ms);
    assert IndexedIds(gates') == IndexedIds(t.gates);
    PlacedFields(t.slots, t.gates, IndexedIds(t.gates), gates');
    forall l: nat, i: nat | l < |occurrences| && i < |occurrences[l]|
      ensures occurrences[l][i] < |gates'| && Listed(gates'[occurrences[l][i]], l, -1)
    {
      assert Listed(t.gates[occurrences[l][i]], l, -1);
    }
  }

  lemma FreshInputs(gate: Gate, n: nat, ms: iset<Model>)
    requires GateSound(gate, n, ms) && !gate.garbage
    ensures gate.lhs < n
    ensures forall l :: l in gate.rhs ==> l < n
  {
  }

  lemma InputListed(g: Gate, l: Lit)
    requires l in g.rhs
    ensures Listed(g, l, -1)
  {
  }

  lemma InputListedFor(g: Gate, l: Lit, e: int)
    requires l in g.rhs
    ensures Listed(g, l, e)
  {
  }

  lemma StillThere(s: State, s': State, lit: Lit, g: nat)
    requires lit < |s.occurrences| && s' == s.(occurrences := s.occurrences[lit := s.occurrences[lit] + [g]])
    ensures forall l: nat :: l < |s.occurrences| && g in s.occurrences[l] ==> g in s'.occurrences[l]
    ensures g in s'.occurrences[lit]
  {
    assert s'.occurrences[lit][|s.occurrences[lit]|] == g;
  }

  lemma NegatedInputs(ms: iset<Model>, lhs: Lit, lits: seq<Lit>, rhs: seq<Lit>, n: nat)
    requires lhs < n && n % 2 == 0 && (forall l :: l in lits ==> l < n) && Distinct(rhs)
    requires forall l :: l in rhs <==> exists k :: 0 <= k < |lits| && lits[k] != lhs && l == Neg(lits[k])
    requires forall m :: m in ms ==> (Holds(m, lhs) <==> forall l :: l in lits && l != lhs ==> !Holds(m, l))
    ensures GateSound(Fresh(And, lhs, rhs), n, ms)
  {
    forall l | l in rhs ensures l < n {
      var k :| 0 <= k < |lits| && lits[k] != lhs && l == Neg(lits[k]);
      assert lits[k] in lits;
    }
    forall m | m in ms ensures GateHolds(m, Fresh(And, lhs, rhs)) {
      if AllTrue(m, rhs) {
        forall l | l in lits && l != lhs ensures !Holds(m, l) {
          var k :| 0 <= k < |lits| && lits[k] == l;
          assert Neg(lits[k]) in rhs;
          HoldsNeg(m, l);
        }
      } else {
        var x :| x in rhs && !Holds(m, x);
        var k :| 0 <= k < |lits| && lits[k] != lhs && x == Neg(lits[k]);
        HoldsNeg(m, lits[k]);
        assert lits[k] in lits;
      }
    }
  }

  lemma EqualBranches(ms: iset<Model>, lhs: Lit, cond: Lit, thenLit: Lit)
    requires forall m :: m in ms ==> (Holds(m, lhs) <==> Choice(m, [cond, thenLit, thenLit]))
    ensures Equivalent(ms, lhs, thenLit)
  {
  }

  lemma NormalSound(lhs: Lit, c: seq<Lit>, n: nat, ms: iset<Model>)
    requires |c| == 3 && ThreeVars(c) && lhs < n && n % 2 == 0 && (forall l :: l in c ==> l < n)
    requires forall m :: m in ms ==> (Holds(m, lhs) <==> Choice(m, c))
    ensures GateSound(Fresh(Ite, if NormalIte(c).1 then Neg(lhs) else lhs, NormalIte(c).0), n, ms)
    ensures Shaped(Fresh(Ite, if NormalIte(c).1 then Neg(lhs) else lhs, NormalIte(c).0))
  {
    var g := Fresh(Ite, lhs, c);
    forall m | m in ms ensures Means(m, lhs, Still(c)) {
    }
    StillSound(g, Still(c), n, ms, -1);
  }

  // ------------------------------------------------------------------ propagating

  /** What is known only grows; occurrences may have been released. */
  ghost predicate Later(s: State, s': State) {
    && |s'.values| == |s.values| && |s'.occurrences| == |s.occurrences|
    && (forall l: nat :: l < |s.values| && s.values[l] != 0 ==> s'.values[l] == s.values[l])
    && Work(s') <= Work(s) && Todo(s') <= Todo(s) && s'.units == s.units && s.trail <= s'.trail
    && StayMerged(s.repr, s'.repr)
  }

  lemma LaterRefl(s: State)
    ensures Later(s, s)
  {
  }

  lemma LaterTrans(s: State, s1: State, s2: State)
    requires Later(s, s1) && Later(s1, s2)
    ensures Later(s, s2)
  {
  }

  lemma AdvancedLater(s: State, s': State, e: int)
    requires Advanced(s, s', e)
    ensures Later(s, s')
    ensures forall occurrences :: |occurrences| == |s.occurrences| ==> Later(s, s'.(occurrences := occurrences))
  {
    forall occurrences: seq<seq<nat>>
      ensures Work(s'.(occurrences := occurrences)) == Work(s') && Todo(s'.(occurrences := occurrences)) == Todo(s') {
    }
  }

  /** A live ITE gate listed for a literal with a value has an input with a value. */
  lemma OccurrenceInput(s: State, ms: iset<Model>, gates: seq<Gate>, lit: Lit, i: nat)
    requires Base(s, ms) && OccurrencesOK(s.occurrences, gates, -1) && GatesOK(gates, |s.values|, ms)
    requires lit < |s.occurrences| == |s.values| && i < |s.occurrences[lit]| && s.values[lit] != 0
    ensures s.occurrences[lit][i] < |gates|
    ensures var gate := gates[s.occurrences[lit][i]];
            gate.garbage || gate.tag != Ite || exists l :: l in gate.rhs && l < |s.values| && s.values[l] != 0
  {
    var g := s.occurrences[lit][i];
    assert Listed(gates[g], lit, -1);
    if !gates[g].garbage && gates[g].tag == Ite {
      var l :| l in gates[g].rhs && Var(l) == Var(lit);
      SameVar(lit, l);
      SameVar(l, lit);
      assert s.values[Neg(lit)] == -s.values[lit];
    }
  }

  lemma OccurrenceBelow(s: State, gates: seq<Gate>, lit: Lit, i: nat, e: int)
    requires OccurrencesOK(s.occurrences, gates, e) && lit < |s.occurrences| && i < |s.occurrences[lit]|
    ensures s.occurrences[lit][i] < |gates|
  {
  }

  lemma ReleaseKeeps(s: State, ms: iset<Model>, gates: seq<Gate>, lit: Lit, e: int)
    requires Base(s, ms) && OccurrencesOK(s.occurrences, gates, e) && lit < |s.occurrences|
    ensures var s' := s.(occurrences := s.occurrences[lit := []]);
            Base(s', ms) && OccurrencesOK(s'.occurrences, gates, e)
  {
    BaseOccurrences(s, ms, s.occurrences[lit := []]);
  }

  lemma RootEquivalent(s: State, ms: iset<Model>, lit: Lit)
    requires Base(s, ms) && lit < |s.repr|
    ensures Equivalent(ms, lit, Root(s.repr, lit)) && Equivalent(ms, Neg(lit), Neg(Root(s.repr, lit)))
  {
    forall m | m in ms ensures Holds(m, lit) == Holds(m, Root(s.repr, lit)) {
      assert ModelOf(m, s);
      RootHolds(m, s.repr, lit);
    }
    forall m | m in ms ensures Holds(m, Neg(lit)) == Holds(m, Neg(Root(s.repr, lit))) {
      HoldsNeg(m, lit);
      HoldsNeg(m, Root(s.repr, lit));
    }
  }

  lemma ExceptWeaker(occurrences: seq<seq<nat>>, gates: seq<Gate>, e: int)
    requires OccurrencesOK(occurrences, gates, -1)
    ensures OccurrencesOK(occurrences, gates, e)
  {
    forall l: nat, i: nat | l < |occurrences| && i < |occurrences[l]| ensures Listed(gates[occurrences[l][i]], l, e) {
      assert Listed(gates[occurrences[l][i]], l, -1);
    }
  }

  /** With no occurrences of the replaced variable left, the exception is void. */
  lemma NoneLeft(occurrences: seq<seq<nat>>, gates: seq<Gate>, lit: Lit)
    requires OccurrencesOK(occurrences, gates, Var(lit)) && lit < |occurrences| && Neg(lit) < |occurrences|
    requires occurrences[lit] == [] && occurrences[Neg(lit)] == []
    ensures OccurrencesOK(occurrences, gates, -1)
  {
    forall l: nat, i: nat | l < |occurrences| && i < |occurrences[l]| ensures Listed(gates[occurrences[l][i]], l, -1) {
      assert Listed(gates[occurrences[l][i]], l, Var(lit));
      SameVar(l, lit);
      SameVar(lit, l);
    }
  }

  lemma TrailFacts(s: State, ms: iset<Model>)
    requires Base(s, ms)
    ensures s.units <= |s.trail| <= Work(s)
    ensures s.units < |s.trail| ==> True(s.values, s.trail[s.units])
  {
    if s.units < |s.trail| {
      assert s.trail[s.units] in s.trail;
    }
  }

  lemma BaseUnits(s: State, ms: iset<Model>)
    requires Base(s, ms) && s.units < |s.trail|
    ensures Base(s.(units := s.units + 1), ms)
  {
    hide ValuesOK, ReprOK, ValuesHold, MergesHold, AllSat;
    forall m | m in ms ensures ModelOf(m, s.(units := s.units + 1)) {
      assert ModelOf(m, s);
    }
  }

  lemma ScheduleFacts(s: State, ms: iset<Model>)
    requires Base(s, ms) && s.schedule != []
    ensures s.schedule[0] < |s.values| && s.repr[s.schedule[0]] != s.schedule[0]
  {
    assert s.schedule[0] in s.schedule;
  }

  lemma DequeueRange(s: State, ms: iset<Model>)
    requires Base(s, ms) && s.schedule != []
    ensures |s.values| == 2 * |s.scheduled| && forall l :: l in s.schedule ==> l < |s.values| && s.repr[l] != l
  {
  }

  lemma DequeueKeeps(s: State, ms: iset<Model>)
    requires Base(s, ms) && s.schedule != []
    ensures Var(s.schedule[0]) < |s.scheduled|
    ensures var s' := s.(schedule := s.schedule[1..], scheduled := s.scheduled[Var(s.schedule[0]) := false]);
            Base(s', ms) && Todo(s') == Todo(s) - 1
  {
    hide Base;
    assert s.schedule[0] in s.schedule && forall l :: l in s.schedule[1..] ==> l in s.schedule;
    DequeueRange(s, ms);
    BaseSchedule(s, ms, s.(schedule := s.schedule[1..], scheduled := s.scheduled[Var(s.schedule[0]) := false]));
  }

  /** The outcome: equal literals are equal in all models, and an inconsistency means there is none. */
  lemma FinalFacts(s: State, ms: iset<Model>)
    requires Base(s, ms)
    ensures s.inconsistent ==> forall m :: m !in ms
    ensures forall m, l: nat :: m in ms && l < |s.repr| ==> Holds(m, Root(s.repr, l)) == Holds(m, l)
  {
    forall m | m in ms ensures !s.inconsistent {
      assert ModelOf(m, s);
    }
    forall m, l: nat | m in ms && l < |s.repr| ensures Holds(m, Root(s.repr, l)) == Holds(m, l) {
      assert ModelOf(m, s);
      RootHolds(m, s.repr, l);
    }
  }

  // ------------------------------------------------------------------ ITE gates

  /** The normalized small gate: sorted inputs, those of an XOR gate positive. */
  function SmallOf(g: Gate, r: Rewritten): Gate
    requires r.Small?
  {
    var lhs := if r.negated then Neg(g.lhs) else g.lhs;
    var a, b := if r.a > r.b then r.b else r.a, if r.a > r.b then r.a else r.b;
    if r.tag == Xor then
      Rewired(g, Xor, if a % 2 != b % 2 then Neg(lhs) else lhs, [2 * Var(a), 2 * Var(b)])
    else
      Rewired(g, r.tag, lhs, [a, b])
  }

  /** What becomes of an ITE gate: an equivalence, a unit, a settled small gate or a settled ITE gate in normal form. */
  ghost predicate IteUpdated(s: State, gates: seq<Gate>, g: nat, gate: Gate, r: Rewritten) {
    s.inconsistent ||
    (match r
     case Equal(other) => g < |gates| && gates[g].garbage && KnownEqual(s, gate.lhs, other)
     case Fixed(negated) => g < |gates| && gates[g].garbage &&
                            True(s.values, if negated then Neg(gate.lhs) else gate.lhs)
     case Small(_, _, _, _) => Settled(s, gates, g, SmallOf(gate, r))
     case Still(c) => |c| == 3 &&
                      Settled(s, gates, g,
                              Rewired(gate, Ite, if NormalIte(c).1 then Neg(gate.lhs) else gate.lhs, NormalIte(c).0)))
  }

  /** A rewriting of a gate that is in range and true in all models, and has the right variables. */
  ghost predicate RewrittenOK(g: Gate, r: Rewritten, n: nat, ms: iset<Model>, e: int) {
    && (forall m :: m in ms ==> Means(m, g.lhs, r))
    && match r
       case Equal(other) => other < n
       case Fixed(_) => true
       case Small(tag, _, a, b) => (tag == And || tag == Xor) && a < n && b < n &&
                                   Var(a) != Var(b) && Var(a) != e && Var(b) != e
       case Still(c) => ThreeVars(c) && (forall l :: l in c ==> l < n && Var(l) != e) && Covered(g, Ite, c, e)
  }

  lemma IteShape(g: Gate, n: nat, ms: iset<Model>)
    requires GateSound(g, n, ms) && g.tag == Ite && !g.garbage
    ensures |g.rhs| == 3 && ThreeVars(g.rhs) && forall m :: m in ms ==> (Holds(m, g.lhs) <==> Choice(m, g.rhs))
  {
    forall m | m in ms ensures Holds(m, g.lhs) <==> Choice(m, g.rhs) {
      assert GateHolds(m, g);
    }
  }

  lemma SimplifyIteSound(s: State, ms: iset<Model>, g: Gate)
    requires Base(s, ms) && GateSound(g, |s.values|, ms) && g.tag == Ite && !g.garbage && |g.rhs| == 3
    requires exists l :: l in g.rhs && l < |s.values| && s.values[l] != 0
    ensures RewrittenOK(g, SimplifyIte(s.values, g.rhs), |s.values|, ms, -1)
  {
    hide ValuesHold, MergesHold, AllSat, ReprOK, Means, Neg, Var, GateHolds;
    IteShape(g, |s.values|, ms);
    BaseFacts(s, ms);
    ThreeHas(g.rhs);
    var l :| l in g.rhs && l < |s.values| && s.values[l] != 0;
    var i :| 0 <= i < 3 && g.rhs[i] == l;
    assert True(s.values, g.rhs[i]) || False(s.values, g.rhs[i]);
    forall m | m in ms ensures Means(m, g.lhs, SimplifyIte(s.values, g.rhs)) {
      assert ModelOf(m, s);
      SimplifyIteMeans(m, s.values, g.lhs, g.rhs);
    }
    SimplifyIteVars(s.values, g.rhs, |s.values|);
  }

  lemma SimplifyIteVars(values: seq<int>, c: seq<Lit>, n: nat)
    requires ThreeVars(c) && (forall l :: l in c ==> l < n) && n % 2 == 0
    ensures match SimplifyIte(values, c)
            case Equal(other) => other < n
            case Fixed(_) => true
            case Small(tag, _, a, b) => tag == And && a < n && b < n && Var(a) != Var(b)
            case Still(_) => false
  {
    hide Neg, Var;
    assert c[0] in c && c[1] in c && c[2] in c;
    NegFacts(c[0], n);
    NegFacts(c[1], n);
    NegFacts(c[2], n);
  }

  lemma RewriteIteSound(s: State, ms: iset<Model>, g: Gate, dst: Lit, src: Lit)
    requires Base(s, ms) && GateSound(g, |s.values|, ms) && g.tag == Ite && !g.garbage && |g.rhs| == 3 && src in g.rhs
    requires dst < |s.values| && Equivalent(ms, src, dst) && Var(src) != Var(dst)
    ensures RewrittenOK(g, RewriteIte(g.rhs, dst, src), |s.values|, ms, Var(src))
  {
    hide ValuesHold, MergesHold, AllSat, ReprOK, Means, ModelOf;
    IteShape(g, |s.values|, ms);
    forall m | m in ms ensures Means(m, g.lhs, RewriteIte(g.rhs, dst, src)) {
      RewriteIteMeans(m, g.lhs, g.rhs, dst, src);
    }
    RewriteIteVars(g, dst, src, |s.values|);
  }

  lemma RewriteIteVars(g: Gate, dst: Lit, src: Lit, n: nat)
    requires g.tag == Ite && |g.rhs| == 3 && ThreeVars(g.rhs) && src in g.rhs && (forall l :: l in g.rhs ==> l < n)
    requires n % 2 == 0
    requires dst < n && Var(src) != Var(dst)
    ensures match RewriteIte(g.rhs, dst, src)
            case Equal(other) => other < n
            case Fixed(_) => true
            case Small(tag, _, a, b) => (tag == And || tag == Xor) && a < n && b < n &&
                                        Var(a) != Var(b) && Var(a) != Var(src) && Var(b) != Var(src)
            case Still(c) => ThreeVars(c) && (forall l :: l in c ==> l < n && Var(l) != Var(src)) &&
                             Covered(g, Ite, c, Var(src))
  {
    hide Neg, Var, HasVar;
    var c := g.rhs;
    ThreeHas(c);
    NegFacts(c[0], n);
    NegFacts(c[1], n);
    NegFacts(c[2], n);
    NegFacts(dst, n);
    if RewriteIte(c, dst, src).Still? {
      ThreeHas(RewriteIte(c, dst, src).rhs);
      OnlyThree(RewriteIte(c, dst, src).rhs);
    }
  }

  lemma NegFacts(l: Lit, n: nat)
    requires l < n && n % 2 == 0
    ensures Neg(l) < n && Var(Neg(l)) == Var(l) && Neg(Neg(l)) == l && Neg(l) != l
    ensures forall k: nat :: Var(k) == Var(l) ==> k == l || k == Neg(l)
  {
  }

  lemma ThreeHas(c: seq<Lit>)
    requires |c| == 3
    ensures c[0] in c && c[1] in c && c[2] in c
    ensures forall v: nat :: HasVar(c, v) <==> Var(c[0]) == v || Var(c[1]) == v || Var(c[2]) == v
  {
    assert c[0] in c && c[1] in c && c[2] in c;
  }

  lemma OnlyThree(c: seq<Lit>)
    requires |c| == 3
    ensures forall l :: l in c ==> l == c[0] || l == c[1] || l == c[2]
  {
  }

  lemma SmallSound(g: Gate, r: Rewritten, n: nat, ms: iset<Model>, e: int)
    requires r.Small? && RewrittenOK(g, r, n, ms, e) && g.lhs < n && n % 2 == 0 && !g.garbage
    ensures var small := SmallOf(g, r);
            && small == Rewired(g, small.tag, small.lhs, small.rhs) && small.tag != Ite && GateSound(small, n, ms)
            && Shaped(small)
            && forall l :: l in small.rhs ==> Var(l) != e
  {
    hide Shaped;
    var small := SmallOf(g, r);
    SmallShaped(g, r);
    forall m | m in ms ensures GateHolds(m, small) {
      SmallOfHolds(m, g, r);
    }
  }

  lemma SmallShaped(g: Gate, r: Rewritten)
    requires r.Small? && (r.tag == And || r.tag == Xor) && Var(r.a) != Var(r.b)
    ensures Shaped(SmallOf(g, r))
  {
  }

  /** Normalizing the small gate does not change its meaning. */
  lemma SmallOfHolds(m: Model, g: Gate, r: Rewritten)
    requires r.Small? && (r.tag == And || r.tag == Xor)
    ensures GateHolds(m, SmallOf(g, r)) <==> Means(m, g.lhs, r)
  {
    var small := SmallOf(g, r);
    SmallMeans(m, g.lhs, r);
    HoldsNeg(m, g.lhs);
    SmallAnd(m, small.lhs, small.rhs[0], small.rhs[1]);
    SmallXor(m, small.lhs, small.rhs[0], small.rhs[1]);
    assert small.rhs == [small.rhs[0], small.rhs[1]];
    SignOf(m, r.a);
    SignOf(m, r.b);
  }

  lemma SignOf(m: Model, l: Lit)
    ensures Holds(m, l) == (Holds(m, 2 * Var(l)) != (l % 2 == 1))
  {
  }

  lemma StillSound(g: Gate, r: Rewritten, n: nat, ms: iset<Model>, e: int)
    requires r.Still? && RewrittenOK(g, r, n, ms, e) && g.lhs < n && n % 2 == 0 && !g.garbage && g.tag == Ite
    ensures var normal := NormalIte(r.rhs); var g' := Rewired(g, Ite, if normal.1 then Neg(g.lhs) else g.lhs, normal.0);
            && GateSound(g', n, ms) && Covered(g, Ite, normal.0, e) && (forall l :: l in normal.0 ==> Var(l) != e)
            && Shaped(g')
  {
    NormalShaped(r.rhs);
    hide Shaped, Neg, Var, HasVar, GateHolds;
    var c, d := r.rhs, NormalIte(r.rhs).0;
    StillHolds(g, r, n, ms, e);
    ThreeHas(c);
    ThreeHas(d);
    OnlyThree(d);
    NegFacts(c[0], n);
    NegFacts(c[1], n);
    NegFacts(c[2], n);
    NegFacts(g.lhs, n);
  }

  lemma StillHolds(g: Gate, r: Rewritten, n: nat, ms: iset<Model>, e: int)
    requires r.Still? && RewrittenOK(g, r, n, ms, e) && g.tag == Ite
    ensures var normal := NormalIte(r.rhs);
            forall m :: m in ms ==> GateHolds(m, Rewired(g, Ite, if normal.1 then Neg(g.lhs) else g.lhs, normal.0))
  {
    hide Neg, NormalIte, ThreeVars, Covered;
    var c := r.rhs;
    forall m | m in ms
      ensures GateHolds(m, Rewired(g, Ite, if NormalIte(c).1 then Neg(g.lhs) else g.lhs, NormalIte(c).0)) {
      NormalIteHolds(m, c);
      HoldsNeg(m, g.lhs);
      assert Means(m, g.lhs, r);
    }
  }

  lemma NormalShaped(c: seq<Lit>)
    requires ThreeVars(c)
    ensures forall g: Gate :: g.tag == Ite && g.rhs == NormalIte(c).0 ==> Shaped(g)
  {
    SameVar(c[0], c[0]);
    SameVar(c[1], c[1]);
    SameVar(c[2], c[2]);
    NormalIteHolds(iset{}, c);
  }

  lemma SmallTag(s: State, gates: seq<Gate>, g: nat, gate: Gate, r: Rewritten)
    requires IteUpdated(s, gates, g, gate, r) && r.Small? && r.tag == And && !s.inconsistent
    ensures g < |gates| && gates[g].tag == And
  {
  }

  lemma AndImplies(ms: iset<Model>, g: Gate)
    requires g.tag == And && forall m :: m in ms ==> GateHolds(m, g)
    ensures forall m, l :: m in ms && l in g.rhs ==> Holds(m, Neg(g.lhs)) || Holds(m, l)
  {
    forall m, l | m in ms && l in g.rhs ensures Holds(m, Neg(g.lhs)) || Holds(m, l) {
      assert GateHolds(m, g);
      HoldsNeg(m, g.lhs);
    }
  }

  lemma KnownEqualGrown(s: State, s': State, k: Lit, l: Lit)
    requires KnownEqual(s, k, l) && Grown(s, s') && s'.repr == s.repr
    ensures KnownEqual(s', k, l)
  {
  }

  lemma SettledGrown(s: State, s': State, gates: seq<Gate>, g: nat, gate: Gate)
    requires Settled(s, gates, g, gate) && Grown(s, s') && s'.repr == s.repr
    ensures Settled(s', gates, g, gate)
  {
    if !s.inconsistent && !Live(gates[g]) {
      var h :| 0 <= h < |gates| && h != g && !gates[h].garbage && SameFunction(gates[h], gate) &&
          KnownEqual(s, gate.lhs, gates[h].lhs);
      KnownEqualGrown(s, s', gate.lhs, gates[h].lhs);
      assert HasCounterpart(s', gates, g, gate);
    }
  }

  lemma IteUpdatedGrown(s: State, s': State, gates: seq<Gate>, g: nat, gate: Gate, r: Rewritten)
    requires IteUpdated(s, gates, g, gate, r) && r.Small? && Grown(s, s') && s'.repr == s.repr
    ensures IteUpdated(s', gates, g, gate, r)
  {
    if !s.inconsistent {
      SettledGrown(s, s', gates, g, SmallOf(gate, r));
    }
  }

  lemma SettledFrame(s: State, s': State, gates: seq<Gate>, g: nat, gate: Gate)
    requires Settled(s, gates, g, gate) && s' == s.(occurrences := s'.occurrences)
    ensures Settled(s', gates, g, gate)
  {
  }

  // ------------------------------------------------------------------ XOR gates

  /** What becomes of an XOR gate. */
  ghost predicate XorUpdated(s: State, gates: seq<Gate>, g: nat, gate: Gate) {
    s.inconsistent ||
    (if |gate.rhs| == 0 then g < |gates| && gates[g].garbage && True(s.values, Neg(gate.lhs))
     else if |gate.rhs| == 1 then g < |gates| && gates[g].garbage && KnownEqual(s, gate.lhs, gate.rhs[0])
     else Settled(s, gates, g, gate.(rhs := Sort(gate.rhs))))
  }

  /** The inputs without a value are kept; the output is negated for an odd number of true inputs. */
  ghost predicate XorSimplified(values: seq<int>, rhs: seq<Lit>, kept: seq<Lit>, negate: bool) {
    && (forall l :: l in kept <==> l in rhs && Free(values, l)) && (Distinct(rhs) ==> Distinct(kept))
    && (forall m: Model ::
          ValuesHold(m, values) ==> X.TrueParity(m, rhs) == (X.TrueParity(m, kept) + if negate then 1 else 0) % 2)
  }

  /** The same with src replaced by the variable of dst, which is dropped if it is an input already. */
  ghost predicate XorRewritten(values: seq<int>, rhs: seq<Lit>, dst: Lit, src: Lit, kept: seq<Lit>, negate: bool) {
    && (forall l :: l in kept ==> (l in rhs || l == 2 * Var(dst)) && Free(values, l)) &&
       src !in kept && Distinct(kept)
    && (forall m: Model :: ValuesHold(m, values) && Holds(m, src) == Holds(m, dst) ==>
          X.TrueParity(m, rhs) == (X.TrueParity(m, kept) + if negate then 1 else 0) % 2)
  }

  lemma EmptyXor(ms: iset<Model>, g: Gate)
    requires g.tag == Xor && |g.rhs| == 0 && forall m :: m in ms ==> GateHolds(m, g)
    ensures Follows(ms, Neg(g.lhs))
  {
    forall m | m in ms ensures Holds(m, Neg(g.lhs)) {
      assert GateHolds(m, g);
      HoldsNeg(m, g.lhs);
    }
  }

  lemma UnaryXor(ms: iset<Model>, g: Gate)
    requires g.tag == Xor && |g.rhs| == 1 && forall m :: m in ms ==> GateHolds(m, g)
    ensures Equivalent(ms, g.lhs, g.rhs[0])
  {
    forall m | m in ms ensures Holds(m, g.lhs) == Holds(m, g.rhs[0]) {
      assert GateHolds(m, g) && g.rhs == [g.rhs[0]];
      X.ParityOne(m, g.rhs[0]);
    }
  }

  lemma XorStep(values: seq<int>, rhs: seq<Lit>, lit: Lit, kept: seq<Lit>, negate: bool)
    requires XorSimplified(values, rhs, kept, negate) && lit < |values|
    ensures values[lit] > 0 ==> XorSimplified(values, rhs + [lit], kept, !negate)
    ensures values[lit] < 0 ==> XorSimplified(values, rhs + [lit], kept, negate)
    ensures values[lit] == 0 ==> XorSimplified(values, rhs + [lit], kept + [lit], negate)
  {
    hide X.TrueParity;
    var rhs' := rhs + [lit];
    assert forall l :: l in rhs' <==> l in rhs || l == lit;
    assert Distinct(rhs') ==> Distinct(rhs) && lit !in rhs by {
      assert rhs'[|rhs|] == lit && rhs'[..|rhs|] == rhs;
    }
    forall m: Model | ValuesHold(m, values)
      ensures X.TrueParity(m, rhs') == (X.TrueParity(m, rhs) + if Holds(m, lit) then 1 else 0) % 2
      ensures X.TrueParity(m, kept + [lit]) == (X.TrueParity(m, kept) + if Holds(m, lit) then 1 else 0) % 2
      ensures X.TrueParity(m, kept) < 2
    {
      ParityAppend(m, rhs, lit);
      ParityAppend(m, kept, lit);
    }
  }

  lemma XorSimplifiedSound(s: State, ms: iset<Model>, g: Gate, kept: seq<Lit>, negate: bool)
    requires Base(s, ms) && GateSound(g, |s.values|, ms) && g.tag == Xor && !g.garbage
    requires XorSimplified(s.values, g.rhs, kept, negate)
    ensures var lhs := if negate then Neg(g.lhs) else g.lhs; GateSound(Rewired(g, Xor, lhs, kept), |s.values|, ms)
  {
    var g' := Rewired(g, Xor, if negate then Neg(g.lhs) else g.lhs, kept);
    forall m | m in ms ensures GateHolds(m, g') {
      assert ModelOf(m, s) && GateHolds(m, g) && ValuesHold(m, s.values);
      HoldsNeg(m, g.lhs);
    }
  }

  lemma XorShape(g: Gate, n: nat, ms: iset<Model>)
    requires GateSound(g, n, ms) && g.tag == Xor && !g.garbage
    ensures (forall l :: l in g.rhs ==> l < n && l % 2 == 0) && Distinct(g.rhs)
  {
  }

  function Except(c: seq<Lit>, x: Lit): seq<Lit> {
    if c == [] then [] else Except(c[..|c| - 1], x) + if c[|c| - 1] == x then [] else [c[|c| - 1]]
  }

  function CountOf(c: seq<Lit>, x: Lit): nat {
    if c == [] then 0 else CountOf(c[..|c| - 1], x) + if c[|c| - 1] == x then 1 else 0
  }

  lemma {:induction false} ExceptParity(m: Model, c: seq<Lit>, x: Lit)
    ensures X.TrueParity(m, c) == (X.TrueParity(m, Except(c, x)) + if Holds(m, x) then CountOf(c, x) else 0) % 2
    ensures forall l :: l in Except(c, x) <==> l in c && l != x
  {
    hide X.TrueParity;
    if c != [] {
      var c', l := c[..|c| - 1], c[|c| - 1];
      ExceptParity(m, c', x);
      assert c == c' + [l];
      ParityAppend(m, c', l);
      ParityAppend(m, Except(c', x), l);
      assert Except(c', x) + [] == Except(c', x);
    } else {
      ParityEmpty(m);
    }
  }

  lemma ParityEmpty(m: Model)
    ensures X.TrueParity(m, []) == 0
  {
  }

  lemma {:induction false} ExceptMembers(c: seq<Lit>, x: Lit)
    ensures x !in Except(c, x)
  {
    if c != [] {
      ExceptMembers(c[..|c| - 1], x);
    }
  }

  lemma {:induction false} ExceptDistinct(c: seq<Lit>, x: Lit)
    requires forall i, j :: 0 <= i < j < |c| && c[i] == c[j] ==> c[i] == x
    ensures Distinct(Except(c, x)) && forall l :: l in Except(c, x) <==> l in c && l != x
  {
    if c != [] {
      var c', l := c[..|c| - 1], c[|c| - 1];
      ExceptDistinct(c', x);
      assert c == c' + [l];
      assert l != x ==> l !in c';
    }
  }

  /** The parity of the first p inputs, from those kept, the negation and the sign of dst still to be counted. */
  ghost predicate Balance(m: Model, rhs: seq<Lit>, dst: Lit, src: Lit, p: nat, kept: seq<Lit>, negate: bool)
    requires p <= |rhs|
  {
    X.TrueParity(m, rhs[..p]) ==
    (X.TrueParity(m, kept) + (if negate then 1 else 0) + if dst % 2 == 1 && src !in rhs[..p] then 1 else 0) % 2
  }

  /** The first pass over the inputs: the strip of dst may come up twice. */
  ghost predicate XorPass(values: seq<int>, rhs: seq<Lit>, dst: Lit, src: Lit, p: nat,
                          kept: seq<Lit>, negate: bool, dstCount: nat) {
    var strip := 2 * Var(dst);
    && p <= |rhs| && dstCount == CountOf(kept, strip)
    && dstCount <= (if strip in rhs[..p] then 1 else 0) + (if src in rhs[..p] then 1 else 0)
    && (forall l :: l in kept ==> ((l in rhs[..p] && l != src) || (l == strip && src in rhs[..p])) && Free(values, l))
    && (forall i, j :: 0 <= i < j < |kept| && kept[i] == kept[j] ==> kept[i] == strip)
    && (forall m: Model :: ValuesHold(m, values) && Holds(m, src) == Holds(m, dst) ==>
          Balance(m, rhs, dst, src, p, kept, negate))
  }

  lemma PassStart(values: seq<int>, rhs: seq<Lit>, dst: Lit, src: Lit)
    ensures XorPass(values, rhs, dst, src, 0, [], dst % 2 == 1, 0)
  {
  }

  lemma PassStep(values: seq<int>, rhs: seq<Lit>, dst: Lit, src: Lit, p: nat, kept: seq<Lit>,
                 negate: bool, dstCount: nat)
    requires p < |rhs| && XorPass(values, rhs, dst, src, p, kept, negate, dstCount) && Distinct(rhs)
    requires src != 2 * Var(dst)
    requires rhs[p] < |values| && 2 * Var(dst) < |values|
    ensures var strip := 2 * Var(dst); var lit := if rhs[p] == src then strip else rhs[p];
            && (values[lit] > 0 ==> XorPass(values, rhs, dst, src, p + 1, kept, !negate, dstCount))
            && (values[lit] < 0 ==> XorPass(values, rhs, dst, src, p + 1, kept, negate, dstCount))
            && (values[lit] == 0 ==>
                  XorPass(values, rhs, dst, src, p + 1, kept + [lit], negate, if lit == strip
                          then dstCount + 1 else dstCount))
  {
    hide X.TrueParity, CountOf;
    var strip := 2 * Var(dst);
    var lit := if rhs[p] == src then strip else rhs[p];
    assert rhs[..p + 1] == rhs[..p] + [rhs[p]];
    assert rhs[p] !in rhs[..p];
    PassParity(values, rhs, dst, src, p, kept, negate);
    CountAppend(kept, lit, strip);
    PassMembers(values, rhs, dst, src, p, kept, lit);
  }

  lemma CountAppend(c: seq<Lit>, l: Lit, x: Lit)
    ensures CountOf(c + [l], x) == CountOf(c, x) + if l == x then 1 else 0
  {
    assert (c + [l])[..|c|] == c;
  }

  lemma PassMembers(values: seq<int>, rhs: seq<Lit>, dst: Lit, src: Lit, p: nat, kept: seq<Lit>, lit: Lit)
    requires p < |rhs| && Distinct(rhs) && src != 2 * Var(dst) &&
             lit == if rhs[p] == src then 2 * Var(dst) else rhs[p]
    requires forall l :: l in kept ==> (l in rhs[..p] && l != src) || (l == 2 * Var(dst) && src in rhs[..p])
    requires forall i, j :: 0 <= i < j < |kept| && kept[i] == kept[j] ==> kept[i] == 2 * Var(dst)
    ensures forall i, j :: 0 <= i < j < |kept + [lit]| && (kept + [lit])[i] == (kept + [lit])[j] ==>
                           (kept + [lit])[i] == 2 * Var(dst)
  {
    assert rhs[p] !in rhs[..p];
  }

  lemma PassParity(values: seq<int>, rhs: seq<Lit>, dst: Lit, src: Lit, p: nat, kept: seq<Lit>, negate: bool)
    requires p < |rhs| && rhs[p] < |values| && 2 * Var(dst) < |values| && rhs[p] !in rhs[..p]
    requires forall m: Model :: ValuesHold(m, values) && Holds(m, src) == Holds(m, dst) ==>
               Balance(m, rhs, dst, src, p, kept, negate)
    ensures var lit := if rhs[p] == src then 2 * Var(dst) else rhs[p];
            forall m: Model :: ValuesHold(m, values) && Holds(m, src) == Holds(m, dst) ==>
              && (values[lit] > 0 ==> Balance(m, rhs, dst, src, p + 1, kept, !negate))
              && (values[lit] < 0 ==> Balance(m, rhs, dst, src, p + 1, kept, negate))
              && (values[lit] == 0 ==> Balance(m, rhs, dst, src, p + 1, kept + [lit], negate))
  {
    hide X.TrueParity;
    var strip := 2 * Var(dst);
    var lit := if rhs[p] == src then strip else rhs[p];
    assert rhs[..p + 1] == rhs[..p] + [rhs[p]];
    forall m: Model | ValuesHold(m, values) && Holds(m, src) == Holds(m, dst)
      ensures X.TrueParity(m, rhs[..p + 1]) == (X.TrueParity(m, rhs[..p]) + if Holds(m, rhs[p]) then 1 else 0) % 2
      ensures X.TrueParity(m, kept + [lit]) == (X.TrueParity(m, kept) + if Holds(m, lit) then 1 else 0) % 2
      ensures Holds(m, dst) == (Holds(m, strip) != (dst % 2 == 1))
      ensures (values[lit] > 0 ==> Holds(m, lit)) && (values[lit] < 0 ==> !Holds(m, lit))
    {
      ParityAppend(m, rhs[..p], rhs[p]);
      ParityAppend(m, kept, lit);
    }
  }

  lemma PassEnd(values: seq<int>, rhs: seq<Lit>, dst: Lit, src: Lit, kept: seq<Lit>, negate: bool, dstCount: nat)
    requires XorPass(values, rhs, dst, src, |rhs|, kept, negate, dstCount) && src in rhs && src != 2 * Var(dst)
    ensures dstCount <= 2
    ensures dstCount == 1 <==> 2 * Var(dst) in if dstCount == 2 then Except(kept, 2 * Var(dst)) else kept
    ensures XorRewritten(values, rhs, dst, src, if dstCount == 2 then Except(kept, 2 * Var(dst)) else kept, negate)
  {
    hide X.TrueParity, Balance, Except;
    var strip := 2 * Var(dst);
    assert rhs[..|rhs|] == rhs;
    ExceptDistinct(kept, strip);
    ExceptMembers(kept, strip);
    CountFacts(kept, strip);
    var last := if dstCount == 2 then Except(kept, strip) else kept;
    forall m: Model | ValuesHold(m, values) && Holds(m, src) == Holds(m, dst)
      ensures X.TrueParity(m, rhs) == (X.TrueParity(m, last) + if negate then 1 else 0) % 2
    {
      BalanceEnd(m, rhs, dst, src, kept, negate, dstCount);
    }
  }

  lemma BalanceEnd(m: Model, rhs: seq<Lit>, dst: Lit, src: Lit, kept: seq<Lit>, negate: bool, dstCount: nat)
    requires Balance(m, rhs, dst, src, |rhs|, kept, negate) && src in rhs && dstCount == CountOf(kept, 2 * Var(dst))
    ensures X.TrueParity(m, rhs) ==
            (X.TrueParity(m, if dstCount == 2 then Except(kept, 2 * Var(dst)) else kept) + if negate then 1 else 0) % 2
  {
    hide X.TrueParity, Except, CountOf;
    assert rhs[..|rhs|] == rhs;
    ExceptParity(m, kept, 2 * Var(dst));
  }

  lemma {:induction false} CountFacts(c: seq<Lit>, x: Lit)
    ensures CountOf(c, x) > 0 <==> x in c
    ensures CountOf(c, x) <= 1 <==> forall i, j :: 0 <= i < j < |c| ==> !(c[i] == x && c[j] == x)
  {
    if c != [] {
      var c', l := c[..|c| - 1], c[|c| - 1];
      CountFacts(c', x);
      assert c == c' + [l];
      if CountOf(c', x) > 1 {
        var i, j :| 0 <= i < j < |c'| && c'[i] == x && c'[j] == x;
        assert c[i] == x && c[j] == x;
      } else if l == x && x in c' {
        var i :| 0 <= i < |c'| && c'[i] == x;
        assert c[i] == x && c[|c| - 1] == x;
      }
    }
  }

  lemma XorRewrittenSound(s: State, ms: iset<Model>, g: Gate, dst: Lit, src: Lit, kept: seq<Lit>, negate: bool)
    requires Base(s, ms) && GateSound(g, |s.values|, ms) && g.tag == Xor && !g.garbage && Equivalent(ms, src, dst)
    requires dst < |s.values|
    requires XorRewritten(s.values, g.rhs, dst, src, kept, negate)
    ensures var lhs := if negate then Neg(g.lhs) else g.lhs; GateSound(Rewired(g, Xor, lhs, kept), |s.values|, ms)
  {
    var g' := Rewired(g, Xor, if negate then Neg(g.lhs) else g.lhs, kept);
    forall m | m in ms ensures GateHolds(m, g') {
      assert ModelOf(m, s) && GateHolds(m, g) && ValuesHold(m, s.values);
      HoldsNeg(m, g.lhs);
    }
  }

  /** What is known only grows; the occurrences of the variable being replaced stay as they are. */
  ghost predicate Advanced(s: State, s': State, e: int) {
    && |s'.values| == |s.values| && |s'.occurrences| == |s.occurrences|
    && (forall l: nat :: l < |s.values| && s.values[l] != 0 ==> s'.values[l] == s.values[l])
    && (s.inconsistent ==> s'.inconsistent) && Work(s') <= Work(s) && Todo(s') <= Todo(s) && s'.units == s.units
    && s.trail <= s'.trail && StayMerged(s.repr, s'.repr)
    && (forall l: nat :: l < |s.occurrences| ==> s.occurrences[l] <= s'.occurrences[l])
    && (forall l: nat :: l < |s.occurrences| && Var(l) == e ==> s'.occurrences[l] == s.occurrences[l])
  }

  lemma AdvancedRefl(s: State, e: int)
    ensures Advanced(s, s, e)
  {
  }

  lemma GrownAdvanced(s: State, s': State, e: int)
    requires Grown(s, s')
    ensures Advanced(s, s', e)
  {
  }

  lemma AdvancedSizes(s: State, s': State, e: int)
    requires Advanced(s, s', e)
    ensures |s'.values| == |s.values| && |s'.occurrences| == |s.occurrences|
  {
  }

  lemma AdvancedTrans(s: State, s1: State, s2: State, e: int)
    requires Advanced(s, s1, e) && Advanced(s1, s2, e)
    ensures Advanced(s, s2, e)
  {
  }

  lemma ConnectedAdvanced(s: State, s1: State, s2: State, lit: Lit, g: nat, e: int)
    requires Advanced(s, s1, e) && lit < |s1.occurrences| && Var(lit) != e
    requires s2 == s1.(occurrences := s1.occurrences[lit := s1.occurrences[lit] + [g]])
    ensures Advanced(s, s2, e)
  {
  }

  lemma XorUpdatedFrame(s: State, s': State, gates: seq<Gate>, g: nat, gate: Gate)
    requires XorUpdated(s, gates, g, gate) && s' == s.(occurrences := s'.occurrences)
    ensures XorUpdated(s', gates, g, gate)
  {
  }

  // ------------------------------------------------------------------ AND gates

  /** The inputs without a value are kept; some input is false exactly if the output is forced. */
  ghost predicate AndSimplified(values: seq<int>, rhs: seq<Lit>, kept: seq<Lit>, forced: bool) {
    && (forced <==> exists l :: l in rhs && False(values, l))
    && (!forced ==> forall l :: l in kept <==> l in rhs && Free(values, l))
  }

  /** The same for replaced inputs d; the negated output and clashing inputs force the output, too. */
  ghost predicate AndRewritten(values: seq<int>, d: seq<Lit>, lhs: Lit, dst: Lit, kept: seq<Lit>, forced: bool) {
    && (forced ==> (exists l :: l in d && False(values, l)) || Neg(lhs) in d || (dst in d && Neg(dst) in d))
    && (!forced ==> forall l :: l in kept <==> l in d && Free(values, l))
    && (!forced ==> Neg(lhs) !in d && (forall l :: l in d ==> !False(values, l)) && !(dst in kept && Neg(dst) in kept))
  }

  lemma AndUpdatedFields(s: State, gates: seq<Gate>, g: nat, gate: Gate, gate': Gate, forced: bool)
    requires AndUpdated(s, gates, g, gate, forced) && gate' == gate.(rhs := gate'.rhs) && (!forced ==> gate' == gate)
    ensures AndUpdated(s, gates, g, gate', forced)
  {
  }

  lemma AllTrueKept(m: Model, values: seq<int>, d: seq<Lit>, kept: seq<Lit>)
    requires ValuesHold(m, values) && (forall l :: l in d ==> l < |values| && !False(values, l))
    requires forall l :: l in kept <==> l in d && Free(values, l)
    ensures AllTrue(m, d) == AllTrue(m, kept)
  {
    forall l | l in d ensures l in kept || Holds(m, l) {
      assert True(values, l) || Free(values, l);
    }
  }

  lemma NotBefore(c: seq<Lit>, kept: seq<Lit>, p: nat)
    requires DistinctVars(c) && p < |c| && forall l :: l in kept ==> l in c[..p]
    ensures forall i :: 0 <= i < |kept| ==> Var(kept[i]) != Var(c[p])
  {
    forall i | 0 <= i < |kept| ensures Var(kept[i]) != Var(c[p]) {
      assert kept[i] in c[..p];
      var k :| 0 <= k < p && c[..p][k] == kept[i];
      assert c[k] == kept[i];
    }
  }

  /** Only the variable of the new literal may be there already. */
  lemma ReplacedOnce(c: seq<Lit>, src: Lit, dst: Lit, kept: seq<Lit>, p: nat)
    requires DistinctVars(c) && p < |c| && forall l :: l in kept ==> l in Replace(c, src, dst)[..p]
    ensures var l := Replace(c, src, dst)[p];
            (dst in kept || Neg(dst) in kept ==> Var(l) != Var(dst)) ==>
                  forall i :: 0 <= i < |kept| ==> Var(kept[i]) != Var(l)
  {
    var d := Replace(c, src, dst);
    var l := d[p];
    SameVar(l, dst);
    forall i | 0 <= i < |kept| && (dst in kept || Neg(dst) in kept ==> Var(l) != Var(dst))
      ensures Var(kept[i]) != Var(l) {
      assert kept[i] in kept && kept[i] in d[..p];
      var k :| 0 <= k < p && d[..p][k] == kept[i];
      assert d[k] == kept[i] && Var(c[k]) != Var(c[p]);
      SameVar(kept[i], dst);
    }
  }

  lemma SimplifiedSound(s: State, ms: iset<Model>, g: Gate, kept: seq<Lit>, falsifies: int)
    requires Base(s, ms) && GateSound(g, |s.values|, ms) && g.tag == And && !g.garbage
    requires AndSimplified(s.values, g.rhs, kept, falsifies >= 0) && DistinctVars(kept)
    requires falsifies >= 0 ==> falsifies in g.rhs && False(s.values, falsifies)
    ensures var rhs := if falsifies >= 0 then [falsifies] else kept;
            GateSound(Rewired(g, And, g.lhs, rhs), |s.values|, ms)
    ensures falsifies >= 0 ==> Follows(ms, Neg(g.lhs))
  {
    var rhs := if falsifies >= 0 then [falsifies] else kept;
    var g' := Rewired(g, And, g.lhs, rhs);
    forall m | m in ms ensures GateHolds(m, g') && (falsifies >= 0 ==> Holds(m, Neg(g.lhs))) {
      assert ModelOf(m, s) && GateHolds(m, g);
      HoldsNeg(m, g.lhs);
      if falsifies >= 0 {
        assert !Holds(m, falsifies) && falsifies in rhs;
      } else {
        AllTrueKept(m, s.values, g.rhs, kept);
      }
    }
  }

  lemma AllTrueReplace(m: Model, c: seq<Lit>, src: Lit, dst: Lit)
    requires Holds(m, src) == Holds(m, dst)
    ensures AllTrue(m, Replace(c, src, dst)) == AllTrue(m, c)
  {
    var d := Replace(c, src, dst);
    forall i | 0 <= i < |c| ensures Holds(m, d[i]) == Holds(m, c[i]) {
    }
    if AllTrue(m, d) {
      forall l | l in c ensures Holds(m, l) {
        var i :| 0 <= i < |c| && c[i] == l;
        assert d[i] in d;
      }
    }
    if AllTrue(m, c) {
      forall l | l in d ensures Holds(m, l) {
        var i :| 0 <= i < |d| && d[i] == l;
        assert c[i] in c;
      }
    }
  }

  lemma ReplaceMembers(c: seq<Lit>, src: Lit, dst: Lit, n: nat)
    requires dst < n && forall l :: l in c ==> l < n
    ensures forall l :: l in Replace(c, src, dst) ==> l < n
  {
    var d := Replace(c, src, dst);
    forall l | l in d ensures l < n {
      var i :| 0 <= i < |d| && d[i] == l;
      assert c[i] in c;
    }
  }

  lemma RewrittenSound(s: State, ms: iset<Model>, g: Gate, dst: Lit, src: Lit, kept: seq<Lit>,
                       falsifies: int, clashing: int)
    requires Base(s, ms) && GateSound(g, |s.values|, ms) && g.tag == And && !g.garbage && Equivalent(ms, src, dst)
    requires dst < |s.values|
    requires (falsifies < 0 || clashing < 0) && DistinctVars(kept)
    requires AndRewritten(s.values, Replace(g.rhs, src, dst), g.lhs, dst, kept, falsifies >= 0 || clashing >= 0)
    requires falsifies >= 0 ==> falsifies in Replace(g.rhs, src, dst) && False(s.values, falsifies)
    requires clashing >= 0 ==> clashing < |s.values| && Neg(clashing) < |s.values|
    ensures var rhs := if falsifies >= 0
            then [falsifies] else if clashing >= 0 then [clashing, Neg(clashing)] else kept;
            GateSound(Rewired(g, And, g.lhs, rhs), |s.values|, ms)
    ensures falsifies >= 0 || clashing >= 0 ==> Follows(ms, Neg(g.lhs))
  {
    var d := Replace(g.rhs, src, dst);
    var rhs := if falsifies >= 0 then [falsifies] else if clashing >= 0 then [clashing, Neg(clashing)] else kept;
    var g' := Rewired(g, And, g.lhs, rhs);
    ReplaceMembers(g.rhs, src, dst, |s.values|);
    forall m | m in ms ensures GateHolds(m, g') && (falsifies >= 0 || clashing >= 0 ==> Holds(m, Neg(g.lhs))) {
      assert ModelOf(m, s) && GateHolds(m, g);
      HoldsNeg(m, g.lhs);
      HoldsNeg(m, dst);
      AllTrueReplace(m, g.rhs, src, dst);
      if falsifies >= 0 {
        assert !Holds(m, falsifies) && falsifies in rhs;
      } else if clashing >= 0 {
        HoldsNeg(m, clashing);
        assert clashing in rhs && Neg(clashing) in rhs;
        assert !AllTrue(m, rhs);
        ForcedOutput(m, s.values, d, g.lhs, dst);
      } else {
        AllTrueKept(m, s.values, d, kept);
      }
    }
  }

  lemma ForcedOutput(m: Model, values: seq<int>, d: seq<Lit>, lhs: Lit, dst: Lit)
    requires ValuesHold(m, values) && (Holds(m, lhs) <==> AllTrue(m, d))
    requires (exists l :: l in d && False(values, l)) || Neg(lhs) in d || (dst in d && Neg(dst) in d)
    ensures !Holds(m, lhs)
  {
    HoldsNeg(m, lhs);
    HoldsNeg(m, dst);
  }

  // ------------------------------------------------------------------ outcomes

  /** Two literals are known to be equal. */
  ghost predicate KnownEqual(s: State, k: Lit, l: Lit) {
    s.inconsistent || (ReprOK(s.repr) && k < |s.repr| == |s.values| && l < |s.repr| &&
                       (Root(s.repr, k) == Root(s.repr, l) || (s.values[k] != 0 && s.values[k] == s.values[l])))
  }

  /** The gate is in the table, or garbage because of another one with the same inputs and output. */
  ghost predicate Settled(s: State, gates: seq<Gate>, g: nat, gate: Gate) {
    s.inconsistent || (g < |gates| && SameFunction(gates[g], gate) && gates[g].lhs == gate.lhs &&
                       (Live(gates[g]) || (gates[g].garbage && HasCounterpart(s, gates, g, gate))))
  }

  ghost predicate HasCounterpart(s: State, gates: seq<Gate>, g: int, gate: Gate) {
    exists h :: 0 <= h < |gates| && h != g && !gates[h].garbage && SameFunction(gates[h], gate) &&
                KnownEqual(s, gate.lhs, gates[h].lhs)
  }

  /** From gates to gates' gates were only added or (re)indexed. */
  ghost predicate GatesKept(gates: seq<Gate>, gates': seq<Gate>) {
    |gates| <= |gates'| && Reindexed(gates, gates'[..|gates|])
  }

  /** Literals with the same representative keep having the same one. */
  ghost predicate Coarser(repr: seq<Lit>, repr': seq<Lit>) {
    && ReprOK(repr) && ReprOK(repr') && |repr| == |repr'|
    && forall k: nat, l: nat ::
         k < |repr| && l < |repr| && Root(repr, k) == Root(repr, l) ==> Root(repr', k) == Root(repr', l)
  }

  /** Some gate that is not garbage has the tag and inputs of the given one and, as far as known, its output. */
  ghost predicate Present(s: State, gates: seq<Gate>, gate: Gate) {
    s.inconsistent || HasCounterpart(s, gates, -1, gate)
  }

  /** More units, merges and gates do not make a gate disappear. */
  lemma PresentKeeps(s: State, s': State, gates: seq<Gate>, gates': seq<Gate>, gate: Gate)
    requires Present(s, gates, gate) && Advanced(s, s', -1) && Coarser(s.repr, s'.repr) && GatesKept(gates, gates')
    ensures Present(s', gates', gate)
  {
    hide Root, Work, Todo;
    if !s.inconsistent {
      var h :| 0 <= h < |gates| && h != -1 && !gates[h].garbage && SameFunction(gates[h], gate) &&
          KnownEqual(s, gate.lhs, gates[h].lhs);
      assert gates'[..|gates|][h] == gates'[h];
    }
  }

  lemma CoarserRefl(s: State, ms: iset<Model>)
    requires Base(s, ms)
    ensures Coarser(s.repr, s.repr)
  {
  }

  lemma CoarserTrans(repr: seq<Lit>, repr1: seq<Lit>, repr2: seq<Lit>)
    requires Coarser(repr, repr1) && Coarser(repr1, repr2)
    ensures Coarser(repr, repr2)
  {
  }

  lemma ReindexedKept(gates: seq<Gate>, gates': seq<Gate>)
    requires Reindexed(gates, gates')
    ensures GatesKept(gates, gates') && forall g :: GatesKept(gates, gates' + [g])
  {
    assert gates'[..|gates|] == gates';
    forall g ensures GatesKept(gates, gates' + [g]) {
      assert (gates' + [g])[..|gates|] == gates';
    }
  }

  lemma IndexedReindexed(gates: seq<Gate>, g: nat)
    requires g < |gates|
    ensures Reindexed(gates, gates[g := gates[g].(indexed := true)])
  {
  }

  lemma GatesKeptRefl(gates: seq<Gate>)
    ensures GatesKept(gates, gates)
  {
    assert gates[..|gates|] == gates;
  }

  lemma GatesKeptTrans(gates: seq<Gate>, gates1: seq<Gate>, gates2: seq<Gate>)
    requires GatesKept(gates, gates1) && GatesKept(gates1, gates2)
    ensures GatesKept(gates, gates2)
  {
    forall g | 0 <= g < |gates|
      ensures gates2[..|gates|][g] == gates[g].(hash := gates2[g].hash, indexed := gates2[g].indexed)
    {
      assert gates1[..|gates|][g] == gates1[g] && gates2[..|gates1|][g] == gates2[g];
    }
  }

  lemma JoinedCoarser(repr: seq<Lit>, smaller: Lit, larger: Lit)
    requires ReprOK(repr) && smaller < larger < |repr| && repr[smaller] == smaller && repr[larger] == larger
    requires Var(smaller) != Var(larger) && Neg(larger) < |repr| && ReprOK(Joined(repr, smaller, larger))
    ensures Coarser(repr, Joined(repr, smaller, larger))
  {
    var repr' := Joined(repr, smaller, larger);
    forall k: nat, l: nat | k < |repr| && l < |repr| && Root(repr, k) == Root(repr, l)
      ensures Root(repr', k) == Root(repr', l) {
      MergedRoot(repr, smaller, larger, k);
      MergedRoot(repr, smaller, larger, l);
    }
  }

  /** What becomes of an AND gate: a unit, an equivalence, or a settled gate with sorted inputs. */
  ghost predicate AndUpdated(s: State, gates: seq<Gate>, g: nat, gate: Gate, forced: bool) {
    s.inconsistent ||
    (if forced then g < |gates| && gates[g].garbage && True(s.values, Neg(gate.lhs))
     else if |gate.rhs| == 1 then g < |gates| && gates[g].garbage && KnownEqual(s, gate.lhs, gate.rhs[0])
     else Settled(s, gates, g, gate.(rhs := Sort(gate.rhs))))
  }

  lemma SettledByMerge(s: State, gates: seq<Gate>, g: nat, h: nat, gate: Gate)
    requires g < |gates| && h < |gates| && g != h && gates[g].garbage && !gates[h].garbage
    requires SameFunction(gates[g], gate) && SameFunction(gates[h], gate) && gates[g].lhs == gate.lhs
    requires KnownEqual(s, gate.lhs, gates[h].lhs)
    ensures Settled(s, gates, g, gate)
  {
  }

  lemma StartOK(n: nat, clauses: seq<seq<Lit>>, ms: iset<Model>)
    requires n % 2 == 0 && (forall c, l :: c in clauses && l in c ==> l < n)
    requires forall m :: m in ms ==> AllSat(m, clauses)
    ensures Base(State(seq(n, _ => 0), seq(n, l => l), clauses, seq(n, _ => []), [],
                       seq(n / 2, _ => false), [], 0, false), ms)
  {
  }

  lemma OccurrencesFrame(s: State, s': State, gates: seq<Gate>, e: int)
    requires Grown(s, s') && OccurrencesOK(s.occurrences, gates, e)
    ensures OccurrencesOK(s'.occurrences, gates, e)
  {
  }

  lemma GateFacts(gates: seq<Gate>, g: nat, n: nat, ms: iset<Model>)
    requires GatesOK(gates, n, ms) && g < |gates| && !gates[g].garbage
    ensures GateSound(gates[g], n, ms) && gates[g].lhs < n && forall l :: l in gates[g].rhs ==> l < n
  {
    assert GateSound(gates[g], n, ms);
  }

  lemma SameOutput(gates: seq<Gate>, g: nat, h: nat, n: nat, ms: iset<Model>)
    requires GatesOK(gates, n, ms) && g < |gates| && h < |gates| && !gates[g].garbage && !gates[h].garbage
    requires SameFunction(gates[g], gates[h])
    ensures gates[g].lhs < n && gates[h].lhs < n && Equivalent(ms, gates[g].lhs, gates[h].lhs)
  {
    assert GateSound(gates[g], n, ms) && GateSound(gates[h], n, ms);
    forall m | m in ms ensures Holds(m, gates[g].lhs) == Holds(m, gates[h].lhs) {
      assert GateHolds(m, gates[g]) && GateHolds(m, gates[h]);
    }
  }

  lemma UnaryAnd(ms: iset<Model>, g: Gate)
    requires g.tag == And && |g.rhs| == 1 && forall m :: m in ms ==> GateHolds(m, g)
    ensures Equivalent(ms, g.lhs, g.rhs[0])
  {
    forall m | m in ms ensures Holds(m, g.lhs) == Holds(m, g.rhs[0]) {
      assert GateHolds(m, g);
      assert g.rhs[0] in g.rhs;
    }
  }

  lemma SortShaped(tag: Tag, rhs: seq<Lit>)
    requires if tag == And then |rhs| != 1 && DistinctVars(rhs)
             else tag == Xor && |rhs| > 1 && Distinct(rhs) && forall l :: l in rhs ==> l % 2 == 0
    ensures forall g: Gate :: g.tag == tag && g.rhs == Sort(rhs) ==> Shaped(g)
  {
    SortSorted(rhs);
    SortDistinct(rhs);
    if tag == And {
      SortVars(rhs);
    }
  }

  lemma SortVars(rhs: seq<Lit>)
    requires DistinctVars(rhs)
    ensures DistinctVars(Sort(rhs))
  {
    SortSorted(rhs);
    SortDistinct(rhs);
    var c := Sort(rhs);
    forall i, j | 0 <= i < j < |c| ensures Var(c[i]) != Var(c[j]) {
      assert c[i] in rhs && c[j] in rhs && c[i] != c[j];
    }
  }

  lemma SortedSound(g: Gate, n: nat, ms: iset<Model>)
    requires GateSound(g, n, ms) && !g.garbage && g.tag != Ite
    ensures GateSound(g.(rhs := Sort(g.rhs)), n, ms)
  {
    var g' := g.(rhs := Sort(g.rhs));
    SortSorted(g.rhs);
    forall m | m in ms ensures GateHolds(m, g') {
      assert GateHolds(m, g);
      SortHolds(m, g.rhs);
    }
    SortDistinct(g.rhs);
  }

  // ------------------------------------------------------------------ gates

  function Rewired(g: Gate, tag: Tag, lhs: Lit, rhs: seq<Lit>): Gate {
    g.(tag := tag, lhs := lhs, rhs := rhs)
  }

  predicate Live(g: Gate) {
    g.indexed && !g.garbage
  }

  /** A live gate with the same hash value. */
  predicate Rival(h: Gate, g: Gate) {
    Live(h) && h.hash == g.hash
  }

  predicate SameFunction(g: Gate, h: Gate) {
    g.tag == h.tag && g.rhs == h.rhs
  }

  /** New inputs of an ITE gate have the variables of the old ones but for the one being replaced. */
  ghost predicate Covered(g: Gate, tag: Tag, rhs: seq<Lit>, e: int) {
    tag != Ite || (g.tag == Ite && forall v: nat :: HasVar(g.rhs, v) && v != e ==> HasVar(rhs, v))
  }

  /** Nothing but hash values and index flags has changed. */
  ghost predicate Reindexed(gates: seq<Gate>, gates': seq<Gate>) {
    |gates'| == |gates| && forall g :: 0 <= g < |gates| ==>
      gates'[g] == gates[g].(hash := gates'[g].hash, indexed := gates'[g].indexed)
  }

  lemma GateWritten(t: Table, occurrences: seq<seq<nat>>, g: nat, gate: Gate, n: nat, ms: iset<Model>, e: int)
    requires TableOK(t) && GatesOK(t.gates, n, ms) && OccurrencesOK(occurrences, t.gates, e) && g < |t.gates|
    requires GateSound(gate, n, ms) && gate.hash == t.gates[g].hash && gate.indexed == t.gates[g].indexed
    requires gate.garbage || (gate.garbage == t.gates[g].garbage && Covered(t.gates[g], gate.tag, gate.rhs, e))
    ensures var t' := t.(gates := t.gates[g := gate]);
            TableOK(t') && GatesOK(t'.gates, n, ms) && OccurrencesOK(occurrences, t'.gates, e)
  {
    hide GateSound;
    var gates' := t.gates[g := gate];
    assert IndexedIds(gates') == IndexedIds(t.gates);
    PlacedFields(t.slots, t.gates, IndexedIds(t.gates), gates');
    forall l: nat, i: nat | l < |occurrences| && i < |occurrences[l]|
      ensures occurrences[l][i] < |gates'| && Listed(gates'[occurrences[l][i]], l, e)
    {
      assert Listed(t.gates[occurrences[l][i]], l, e);
    }
  }

  lemma BaseOccurrences(s: State, ms: iset<Model>, occurrences: seq<seq<nat>>)
    requires Base(s, ms) && |occurrences| == |s.occurrences|
    ensures Base(s.(occurrences := occurrences), ms)
  {
    forall m | m in ms ensures ModelOf(m, s.(occurrences := occurrences)) {
      assert ModelOf(m, s);
    }
  }

  lemma TableHash(t: Table, g: nat, hash: nat)
    requires TableOK(t) && g < |t.gates| && !t.gates[g].indexed
    ensures TableOK(t.(gates := t.gates[g := t.gates[g].(hash := hash)]))
  {
    var gates' := t.gates[g := t.gates[g].(hash := hash)];
    assert IndexedIds(gates') == IndexedIds(t.gates);
  }

  lemma ReindexedKeeps(gates: seq<Gate>, gates': seq<Gate>, occurrences: seq<seq<nat>>, n: nat, ms: iset<Model>, e: int)
    requires GatesOK(gates, n, ms) && OccurrencesOK(occurrences, gates, e) && Reindexed(gates, gates')
    ensures GatesOK(gates', n, ms) && OccurrencesOK(occurrences, gates', e)
  {
    forall g | 0 <= g < |gates'| ensures GateSound(gates'[g], n, ms) {
      assert GateSound(gates[g], n, ms);
      SameMeaning(gates[g], gates'[g], n, ms);
    }
    forall l: nat, i: nat | l < |occurrences| && i < |occurrences[l]|
      ensures occurrences[l][i] < |gates'| && Listed(gates'[occurrences[l][i]], l, e)
    {
      assert Listed(gates[occurrences[l][i]], l, e);
    }
  }

  lemma SameMeaning(g: Gate, g': Gate, n: nat, ms: iset<Model>)
    requires GateSound(g, n, ms) && g' == g.(hash := g'.hash, indexed := g'.indexed)
    ensures GateSound(g', n, ms)
  {
    if !g.garbage {
      forall m | m in ms ensures GateHolds(m, g') {
        assert GateHolds(m, g);
      }
    }
  }

  lemma BaseSchedule(s: State, ms: iset<Model>, s': State)
    requires Base(s, ms) && s' == s.(schedule := s'.schedule, scheduled := s'.scheduled)
    requires |s'.scheduled| == |s.scheduled|
    requires forall l :: l in s'.schedule ==> l < |s.values| && s.repr[l] != l
    ensures Base(s', ms)
  {
    hide ValuesOK, ReprOK, ValuesHold, MergesHold, AllSat;
    forall m | m in ms ensures ModelOf(m, s') {
      assert ModelOf(m, s);
    }
  }

  lemma SameWork(s: State, s': State)
    requires s'.values == s.values && s'.trail == s.trail
    ensures Work(s') == Work(s)
    ensures s'.repr == s.repr ==> Todo(s') == Todo(s) + |s'.schedule| - |s.schedule|
  {
  }

  lemma ClashingValues(s: State, ms: iset<Model>, k: Lit, l: Lit)
    requires Base(s, ms) && k < |s.values| && l < |s.values| && s.values[k] != 0 && s.values[l] == -s.values[k]
    requires Equivalent(ms, k, l)
    ensures Base(s.(inconsistent := true), ms)
  {
    forall m | m in ms ensures !ModelOf(m, s) {
    }
  }

  lemma EquivalentUnit(s: State, ms: iset<Model>, k: Lit, l: Lit)
    requires Base(s, ms) && k < |s.values| && l < |s.values| && s.values[k] != 0 && Equivalent(ms, k, l)
    ensures Neg(l) < |s.values| && Follows(ms, if s.values[k] < 0 then Neg(l) else l)
  {
    forall m | m in ms ensures Holds(m, if s.values[k] < 0 then Neg(l) else l) {
      assert ModelOf(m, s);
      HoldsNeg(m, l);
    }
  }

  lemma LearnedBoth(s: State, s': State, ms: iset<Model>, k: Lit, l: Lit)
    requires Base(s, ms) && Base(s', ms) && Grown(s, s') && k < |s.values| && l < |s.values| && s.values[k] != 0
    requires Neg(l) < |s.values|
    requires s'.inconsistent || True(s'.values, if s.values[k] < 0 then Neg(l) else l)
    ensures s'.inconsistent || (s'.values[k] != 0 && s'.values[k] == s'.values[l])
  {
    assert s'.values[k] == s.values[k];
    assert s'.values[Neg(l)] == -s'.values[l];
  }

  lemma RootsEquivalent(s: State, ms: iset<Model>, k: Lit, l: Lit)
    requires Base(s, ms) && k < |s.values| && l < |s.values| && Equivalent(ms, k, l)
    ensures Equivalent(ms, Root(s.repr, k), Root(s.repr, l))
  {
    forall m | m in ms ensures Holds(m, Root(s.repr, k)) == Holds(m, Root(s.repr, l)) {
      assert ModelOf(m, s);
      RootHolds(m, s.repr, k);
      RootHolds(m, s.repr, l);
    }
  }

  lemma ClashingRoots(s: State, ms: iset<Model>, k: Lit, l: Lit)
    requires Base(s, ms) && k == Neg(l) && Equivalent(ms, k, l)
    ensures Base(s.(inconsistent := true), ms)
  {
    forall m | m in ms ensures Holds(m, k) != Holds(m, l) {
      HoldsNeg(m, l);
    }
  }

  lemma JoinedSteps(repr: seq<Lit>, smaller: Lit, larger: Lit)
    requires smaller < larger < |repr| && Neg(larger) < |repr| && Var(smaller) != Var(larger)
    ensures repr[larger := smaller][Neg(larger) := Neg(smaller)] == Joined(repr, smaller, larger)
    ensures Joined(repr, smaller, larger)[larger] == smaller
  {
  }

  lemma EquivalentBinaries(ms: iset<Model>, smaller: Lit, larger: Lit)
    requires Equivalent(ms, smaller, larger)
    ensures forall m ::
              m in ms ==> (Holds(m, Neg(larger)) || Holds(m, smaller)) && (Holds(m, larger) || Holds(m, Neg(smaller)))
  {
    forall m | m in ms
      ensures (Holds(m, Neg(larger)) || Holds(m, smaller)) && (Holds(m, larger) || Holds(m, Neg(smaller))) {
      HoldsNeg(m, larger);
      HoldsNeg(m, smaller);
    }
  }

  lemma BaseFacts(s: State, ms: iset<Model>)
    requires Base(s, ms)
    ensures ValuesOK(s.values) && ReprOK(s.repr) && |s.repr| == |s.values| == |s.occurrences| == 2 * |s.scheduled|
    ensures |s.values| % 2 == 0
    ensures forall l: nat {:trigger Neg(l)} :: l < |s.values| ==> Neg(l) < |s.values|
  {
  }

  lemma GrownRefl(s: State)
    ensures Grown(s, s)
  {
  }

  lemma UnitFree(values: seq<int>, c: seq<Lit>, r: Status)
    requires HasStatus(values, c, r) && r.Unit?
    ensures r.lit < |values| && values[r.lit] == 0
  {
  }

  lemma FalsifiedUnit(s: State, ms: iset<Model>, l: Lit)
    requires Base(s, ms) && False(s.values, l) && Follows(ms, l)
    ensures Base(s.(inconsistent := true), ms)
  {
    forall m | m in ms ensures !ModelOf(m, s) {
    }
  }

  lemma UnitOfBinary(s: State, ms: iset<Model>, a: Lit, b: Lit)
    requires Base(s, ms) && (forall m :: m in ms ==> Holds(m, a) || Holds(m, b)) && (a == b || False(s.values, b))
    ensures Follows(ms, a)
  {
    forall m | m in ms ensures Holds(m, a) {
      assert ModelOf(m, s);
    }
  }

  lemma BinaryKeeps(s: State, ms: iset<Model>, a: Lit, b: Lit)
    requires Base(s, ms) && a < |s.values| && b < |s.values| && forall m :: m in ms ==> Holds(m, a) || Holds(m, b)
    ensures Base(s.(clauses := s.clauses + [[a, b]]), ms) && [a, b] in s.clauses + [[a, b]]
  {
    hide ValuesOK, ReprOK, ValuesHold, MergesHold;
    var clauses := s.clauses + [[a, b]];
    assert clauses[|s.clauses|] == [a, b];
    forall m | m in ms ensures ModelOf(m, s.(clauses := clauses)) {
      assert ModelOf(m, s) && a in [a, b] && b in [a, b] && Sat(m, [a, b]);
    }
  }
}
