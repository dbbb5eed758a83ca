/**
  Deduction of the first unique implication point clause (deduce.c) on a trail that is not
  sorted by level, and strengthening of clauses by counting literals.
 */
module SolverDeduce {
  import opened Literals
  import opened Sequences
  import opened Entailment
  import opened SolverTrail

  // ------------------------------------------------------------------ counting literals

  /** The number of literals of c[..k] above the root level. */
  function CountLive(s: State, c: seq<Lit>, k: nat): nat
    requires k <= |c|
  {
    if k == 0 then 0 else CountLive(s, c, k - 1) + if Level(s, c[k - 1]) > 0 then 1 else 0
  }

  /** The number of literals of c of a given level. */
  function CountLevel(s: State, c: seq<Lit>, level: nat): nat {
    if c == [] then 0 else CountLevel(s, c[..|c| - 1], level) + if Level(s, c[|c| - 1]) == level then 1 else 0
  }

  /** The literals of c below a given level. */
  function Lower(s: State, c: seq<Lit>, level: nat): seq<Lit> {
    if c == [] then []
    else Lower(s, c[..|c| - 1], level) + if Level(s, c[|c| - 1]) < level then [c[|c| - 1]] else []
  }

  lemma {:induction false} CountSplit(s: State, c: seq<Lit>, d: seq<Lit>, level: nat)
    ensures CountLevel(s, c + d, level) == CountLevel(s, c, level) + CountLevel(s, d, level)
    ensures Lower(s, c + d, level) == Lower(s, c, level) + Lower(s, d, level)
  {
    if d == [] {
      assert c + d == c;
    } else {
      var n := |d| - 1;
      assert (c + d)[..|c| + n] == c + d[..n] && (c + d)[|c| + n] == d[n];
      CountSplit(s, c, d[..n], level);
    }
  }

  lemma CountWithout(s: State, c: seq<Lit>, i: nat, level: nat)
    requires i < |c| && Level(s, c[i]) == level
    ensures CountLevel(s, Without(c, i), level) == CountLevel(s, c, level) - 1
    ensures Lower(s, Without(c, i), level) == Lower(s, c, level)
  {
    CountSplit(s, c[..i], c[i + 1..], level);
    CountSplit(s, c[..i], [c[i]], level);
    CountSplit(s, c[..i] + [c[i]], c[i + 1..], level);
    assert c == c[..i] + [c[i]] + c[i + 1..];
    assert [c[i]][..0] == [];
  }

  lemma {:induction false} CountSome(s: State, c: seq<Lit>, level: nat) returns (i: nat)
    requires CountLevel(s, c, level) > 0
    ensures i < |c| && Level(s, c[i]) == level
  {
    var n := |c| - 1;
    if Level(s, c[n]) == level {
      i := n;
    } else {
      i := CountSome(s, c[..n], level);
    }
  }

  lemma {:induction false} CountAt(s: State, c: seq<Lit>, level: nat, i: nat)
    requires i < |c| && Level(s, c[i]) == level
    ensures CountLevel(s, c, level) > 0
  {
    CountSplit(s, c[..i], [c[i]], level);
    CountSplit(s, c[..i] + [c[i]], c[i + 1..], level);
    assert c == c[..i] + [c[i]] + c[i + 1..];
    assert [c[i]][..0] == [];
  }

  /** The lower literals of c are exactly those below the level. */
  lemma {:induction false} LowerMembers(s: State, c: seq<Lit>, level: nat)
    ensures forall l :: l in Lower(s, c, level) <==> l in c && Level(s, l) < level
  {
    if c != [] {
      LowerMembers(s, c[..|c| - 1], level);
      assert c == c[..|c| - 1] + [c[|c| - 1]];
    }
  }

  lemma {:induction false} LowerDistinct(s: State, c: seq<Lit>, level: nat)
    requires DistinctVars(c)
    ensures DistinctVars(Lower(s, c, level))
  {
    if c != [] {
      var n := |c| - 1;
      LowerDistinct(s, c[..n], level);
      LowerMembers(s, c[..n], level);
      var d := Lower(s, c[..n], level);
      forall i | 0 <= i < |d| ensures Var(d[i]) != Var(c[n]) {
        assert d[i] in c[..n];
        var j :| 0 <= j < n && c[..n][j] == d[i];
        assert c[j] == d[i];
      }
    }
  }

  // ------------------------------------------------------------------ counting decides equality

  /** The literals of c above the root level, but for the p-th one. */
  ghost predicate LiveOther(s: State, c: seq<Lit>, p: Lit, l: Lit) {
    l in c && l != p && Level(s, l) > 0
  }

  /**
    If all live literals of c but p are in r, and r has fewer literals than c has live ones, then r
    consists of exactly these.
   */
  lemma CountedEqual(s: State, c: seq<Lit>, p: Lit, r: seq<Lit>)
    requires DistinctVars(c) && DistinctVars(r) && p in c && Level(s, p) > 0
    requires forall l :: LiveOther(s, c, p, l) ==> l in r
    requires |r| < CountLive(s, c, |c|)
    ensures forall l :: l in r <==> LiveOther(s, c, p, l)
  {
    var i :| 0 <= i < |c| && c[i] == p;
    var live := Live(s, c, p, |c|);
    LiveCount(s, c, p, i, |c|);
    LiveMembers(s, c, p, |c|);
    assert c[..|c|] == c;
    ElemsSize(live);
    ElemsSize(r);
    SubsetEqual(Elems(live), Elems(r));
    assert forall l :: l in r <==> l in Elems(r);
    assert forall l :: l in live <==> l in Elems(live);
  }

  function Live(s: State, c: seq<Lit>, p: Lit, k: nat): seq<Lit>
    requires k <= |c|
  {
    if k == 0 then []
    else Live(s, c, p, k - 1) + if c[k - 1] != p && Level(s, c[k - 1]) > 0 then [c[k - 1]] else []
  }

  lemma {:induction false} LiveCount(s: State, c: seq<Lit>, p: Lit, i: nat, k: nat)
    requires DistinctVars(c) && i < |c| && c[i] == p && Level(s, p) > 0 && k <= |c|
    ensures |Live(s, c, p, k)| == CountLive(s, c, k) - if i < k then 1 else 0
  {
    if k > 0 {
      LiveCount(s, c, p, i, k - 1);
    }
  }

  lemma {:induction false} LiveMembers(s: State, c: seq<Lit>, p: Lit, k: nat)
    requires k <= |c| && DistinctVars(c)
    ensures forall l :: l in Live(s, c, p, k) <==> LiveOther(s, c[..k], p, l)
    ensures DistinctVars(Live(s, c, p, k))
  {
    if k > 0 {
      LiveMembers(s, c, p, k - 1);
      assert c[..k] == c[..k - 1] + [c[k - 1]];
      var d := Live(s, c, p, k - 1);
      forall i | 0 <= i < |d| ensures Var(d[i]) != Var(c[k - 1]) {
        assert d[i] in d && d[i] in c[..k - 1];
        var j :| 0 <= j < k - 1 && c[..k - 1][j] == d[i];
        assert c[j] == d[i];
      }
    }
  }

  function Elems(r: seq<Lit>): set<Lit> {
    set l | l in r
  }

  lemma {:induction false} ElemsSize(r: seq<Lit>)
    requires DistinctVars(r)
    ensures |Elems(r)| == |r|
  {
    if r != [] {
      var n := |r| - 1;
      ElemsSize(r[..n]);
      assert r == r[..n] + [r[n]];
      forall i | 0 <= i < n ensures r[..n][i] != r[n] {
        assert Var(r[i]) != Var(r[n]);
      }
      assert Elems(r) == Elems(r[..n]) + {r[n]};
    }
  }

  lemma SubsetEqual(a: set<Lit>, b: set<Lit>)
    requires a <= b && |b| <= |a|
    ensures a == b
  {
    if a != b {
      var x :| x in b && x !in a;
      assert a <= b - {x};
      SubsetSize(a, b - {x});
    }
  }

  lemma SubsetSize(a: set<Lit>, b: set<Lit>)
    requires a <= b
    ensures |a| <= |b|
  {
    assert b == a + (b - a);
  }

  // ------------------------------------------------------------------ the state of the deduction

  /** From g to s only the parts that conflict analysis owns have changed. */
  ghost predicate SameSolver(g: State, s: State) {
    && s == g.(assignments := s.assignments, analyzed := s.analyzed, clause := s.clause, resolvent := s.resolvent,
               antecedentSize := s.antecedentSize, resolventSize := s.resolventSize)
    && |s.assignments| == |g.assignments|
    && forall v ::
         0 <= v < |s.assignments| ==> s.assignments[v] == g.assignments[v].(analyzed := s.assignments[v].analyzed)
  }

  ghost predicate Flagged(s: State, v: nat) {
    v < |s.assignments| && s.assignments[v].analyzed
  }

  ghost predicate Covered(c: seq<Lit>, v: nat) {
    exists l :: l in c && Var(l) == v
  }

  /** The resolvent consists of flagged false literals; those on the conflict level are before position p. */
  ghost predicate ResolventOK(g: State, s: State, p: nat) {
    && DistinctVars(s.resolvent)
    && forall l :: l in s.resolvent ==>
         && False(g, l) && 0 < Level(g, l) <= g.level && Flagged(s, Var(l))
         && (Level(g, l) == g.level ==> Position(g, l) < p)
  }

  /** Flagged variables are in the resolvent, or were resolved away. */
  ghost predicate FlagsOK(g: State, s: State, p: nat) {
    && FlagsListed(s)
    && forall v: nat :: Flagged(s, v) && v < |g.assignments| ==>
         Covered(s.resolvent, v) || (g.assignments[v].level == g.level && g.assignments[v].trail >= p)
  }

  /** The flagged variables are those to be reset. */
  ghost predicate FlagsListed(s: State) {
    && (forall v :: v in s.analyzed ==> v < |s.assignments|)
    && (forall v: nat :: Flagged(s, v) ==> v in s.analyzed)
  }

  ghost predicate Deducing(g: State, s: State, p: nat, open: nat) {
    && SameSolver(g, s) && ResolventOK(g, s, p) && FlagsOK(g, s, p)
    && s.clause == [INVALID_LIT] + Lower(g, s.resolvent, g.level)
    && s.resolventSize == |s.resolvent| && open == CountLevel(g, s.resolvent, g.level)
  }

  /** The state after a literal of an antecedent has been analyzed. */
  function Touch(g: State, s: State, l: Lit): State
    requires Var(l) < |s.assignments|
  {
    if Level(g, l) == 0 then s
    else if s.assignments[Var(l)].analyzed then s.(antecedentSize := s.antecedentSize + 1)
    else s.(antecedentSize := s.antecedentSize + 1, resolventSize := s.resolventSize + 1,
            assignments := s.assignments[Var(l) := s.assignments[Var(l)].(analyzed := true)],
            analyzed := s.analyzed + [Var(l)], resolvent := s.resolvent + [l],
            clause := if Level(g, l) == g.level then s.clause else s.clause + [l])
  }

  lemma TouchAdds(g: State, s: State, l: Lit)
    requires Var(l) < |s.assignments|
    ensures forall x :: x in Touch(g, s, l).resolvent ==> x in s.resolvent || (x == l && Level(g, l) > 0)
  {
  }

  /** Whether the literal is a new one on the conflict level. */
  function Opens(g: State, s: State, l: Lit): bool
    requires Var(l) < |s.assignments|
  {
    Level(g, l) > 0 && !s.assignments[Var(l)].analyzed && Level(g, l) == g.level
  }

  lemma TouchKeeps(g: State, s: State, p: nat, open: nat, l: Lit)
    requires Shape(g) && OnTrail(g) && Levels(g) && Deducing(g, s, p, open) && False(g, l) && g.level > 0
    requires Level(g, l) == g.level ==> Position(g, l) < p
    ensures Var(l) < |s.assignments|
    ensures var s' := Touch(g, s, l);
            && Deducing(g, s', p, open + if Opens(g, s, l) then 1 else 0)
            && (Level(g, l) > 0 ==> l in s'.resolvent)
            && (forall x :: x in s'.resolvent ==> x in s.resolvent || x == l)
            && (forall x :: x in s.resolvent ==> x in s'.resolvent)
            && s'.antecedentSize == s.antecedentSize + if Level(g, l) > 0 then 1 else 0
  {
    hide SameSolver, ResolventOK, FlagsOK, Shape, OnTrail, Levels, Lower, CountLevel;
    TouchBounds(g, s, p, l);
    if Level(g, l) > 0 {
      if s.assignments[Var(l)].analyzed {
        TouchOld(g, s, p, l);
        TouchSize(g, s, p);
      } else {
        TouchNew(g, s, p, l);
        TouchCount(g, s.resolvent, l);
      }
    }
  }

  lemma TouchBounds(g: State, s: State, p: nat, l: Lit)
    requires Shape(g) && OnTrail(g) && Levels(g) && SameSolver(g, s) && False(g, l)
    ensures Var(l) < |s.assignments| && Level(g, l) <= g.level
  {
    FalseOnTrail(g, l);
    FalseLevel(g, l);
  }

  /** A literal flagged before is in the resolvent. */
  lemma TouchOld(g: State, s: State, p: nat, l: Lit)
    requires Shape(g) && OnTrail(g) && SameSolver(g, s) && ResolventOK(g, s, p) && FlagsOK(g, s, p) && False(g, l)
    requires Var(l) < |s.assignments| && s.assignments[Var(l)].analyzed
    requires Level(g, l) == g.level ==> Position(g, l) < p
    ensures l in s.resolvent
  {
    assert Flagged(s, Var(l));
    var x :| x in s.resolvent && Var(x) == Var(l);
    BothFalse(g, x, l);
  }

  lemma TouchSize(g: State, s: State, p: nat)
    requires SameSolver(g, s) && ResolventOK(g, s, p) && FlagsOK(g, s, p)
    ensures var s' := s.(antecedentSize := s.antecedentSize + 1);
            SameSolver(g, s') && ResolventOK(g, s', p) && FlagsOK(g, s', p)
  {
    var s' := s.(antecedentSize := s.antecedentSize + 1);
    assert forall v: nat :: Flagged(s', v) <==> Flagged(s, v);
  }

  lemma TouchCount(g: State, c: seq<Lit>, l: Lit)
    ensures CountLevel(g, c + [l], g.level) == CountLevel(g, c, g.level) + if Level(g, l) == g.level then 1 else 0
    ensures Lower(g, c + [l], g.level) == Lower(g, c, g.level) + if Level(g, l) < g.level then [l] else []
  {
    CountSplit(g, c, [l], g.level);
    assert [l][..0] == [];
  }

  lemma BothFalse(g: State, x: Lit, l: Lit)
    requires Shape(g) && False(g, x) && False(g, l) && Var(x) == Var(l)
    ensures x == l
  {
    SameVar(x, l);
    assert g.values[Neg(x)] == -g.values[x];
  }

  lemma TouchNew(g: State, s: State, p: nat, l: Lit)
    requires Shape(g) && SameSolver(g, s) && ResolventOK(g, s, p) && FlagsOK(g, s, p)
    requires False(g, l) && Var(l) < |s.assignments| && 0 < Level(g, l) <= g.level && !s.assignments[Var(l)].analyzed
    requires Level(g, l) == g.level ==> Position(g, l) < p
    ensures var s' := Touch(g, s, l); SameSolver(g, s') && ResolventOK(g, s', p) && FlagsOK(g, s', p)
  {
    var s' := Touch(g, s, l);
    forall x | x in s.resolvent ensures Var(x) != Var(l) && Flagged(s', Var(x)) {
      assert Flagged(s, Var(x));
    }
    forall v: nat | Flagged(s', v) && v < |g.assignments|
      ensures Covered(s'.resolvent, v) || (g.assignments[v].level == g.level && g.assignments[v].trail >= p)
    {
      if v == Var(l) {
        assert s'.resolvent[|s.resolvent|] == l;
      } else {
        assert Flagged(s, v);
        if Covered(s.resolvent, v) {
          var x :| x in s.resolvent && Var(x) == v;
          assert x in s'.resolvent;
        }
      }
    }
  }

  // ------------------------------------------------------------------ walking back along the trail

  /** The variable at a trail position is not one to be resolved. */
  ghost predicate Passed(g: State, s: State, i: nat) {
    i < |g.trail| ==> !(Flagged(s, Var(g.trail[i])) && Level(g, g.trail[i]) == g.level)
  }

  /** As long as there are open literals, one is found further down. */
  lemma WalkOn(g: State, s: State, p: nat, open: nat, t: nat)
    requires Shape(g) && OnTrail(g) && Deducing(g, s, p, open) && open > 0 && t <= p <= |g.trail|
    requires forall i :: t <= i < p ==> Passed(g, s, i)
    ensures t > 0
  {
    var i := CountSome(g, s.resolvent, g.level);
    var l := s.resolvent[i];
    assert l in s.resolvent;
    FalseOnTrail(g, l);
    SameVar(l, Neg(l));
    assert Flagged(s, Var(l));
    assert !Passed(g, s, Position(g, l));
  }

  /** The literal found is the negation of one in the resolvent; nothing above it is open. */
  lemma WalkFound(g: State, s: State, p: nat, open: nat, t: nat)
    requires Shape(g) && OnTrail(g) && Deducing(g, s, p, open) && t < p <= |g.trail|
    requires forall i :: t < i < p ==> Passed(g, s, i)
    requires !Passed(g, s, t)
    ensures Deducing(g, s, t + 1, open) && Neg(g.trail[t]) in s.resolvent
    ensures True(g, g.trail[t]) && Position(g, g.trail[t]) == t && Level(g, g.trail[t]) == g.level
  {
    hide Lower, CountLevel, SameSolver, Without, Entails;
    var uip := g.trail[t];
    assert True(g, uip);
    var x :| x in s.resolvent && Var(x) == Var(uip);
    SameVar(x, uip);
    SameVar(uip, Neg(uip));
    forall l | l in s.resolvent && Level(g, l) == g.level ensures Position(g, l) < t + 1 {
      FalseOnTrail(g, l);
      SameVar(l, Neg(l));
      assert Flagged(s, Var(l));
      assert !Passed(g, s, Position(g, l));
    }
  }

  /** A decision is the first literal of its level on the trail, so it is not resolved. */
  lemma NotDecision(g: State, f: Clauses, s: State, open: nat, t: nat)
    requires TrailOK(g, f) && Deducing(g, s, t + 1, open) && open > 1 && t < |g.trail|
    requires Neg(g.trail[t]) in s.resolvent && Level(g, g.trail[t]) == g.level > 0
    ensures ReasonOf(g, g.trail[t]) != Decision && ReasonOf(g, g.trail[t]) != Unit
    ensures ReasonAt(g, f, t)
  {
    assert ReasonAt(g, f, t);
    if ReasonOf(g, g.trail[t]).Decision? {
      var l := AnotherOpen(g, s, open, t);
      hide Reasons, Deducing;
      FalseOnTrail(g, l);
      SameVar(l, Neg(l));
    }
  }

  /** With more than one open literal there is one further down the trail. */
  lemma AnotherOpen(g: State, s: State, open: nat, t: nat) returns (l: Lit)
    requires Shape(g) && OnTrail(g) && Deducing(g, s, t + 1, open) && open > 1 && t < |g.trail|
    requires Neg(g.trail[t]) in s.resolvent && Level(g, g.trail[t]) == g.level > 0
    ensures False(g, l) && Level(g, l) == g.level && Position(g, l) < t
  {
    hide Lower, FlagsOK, CountLevel, SameSolver, Shape, Without;
    var uip := g.trail[t];
    assert True(g, uip);
    SameVar(uip, Neg(uip));
    l := OtherOpen(g, s.resolvent, Neg(uip));
    OtherPosition(g, uip, l);
  }

  lemma OtherOpen(g: State, c: seq<Lit>, k: Lit) returns (l: Lit)
    requires DistinctVars(c) && k in c && CountLevel(g, c, Level(g, k)) > 1
    ensures l in c && Var(l) != Var(k) && Level(g, l) == Level(g, k)
  {
    hide CountLevel, Without;
    var i :| 0 <= i < |c| && c[i] == k;
    CountWithout(g, c, i, Level(g, k));
    var j := CountSome(g, Without(c, i), Level(g, k));
    WithoutMembers(c, i);
    l := Without(c, i)[j];
    assert l in Without(c, i);
  }

  lemma OtherPosition(g: State, uip: Lit, l: Lit)
    requires Shape(g) && OnTrail(g) && True(g, uip) && False(g, l) && Var(l) != Var(uip)
    ensures Position(g, l) != Position(g, uip)
  {
    FalseOnTrail(g, l);
    SameVar(l, Neg(l));
  }

  // ------------------------------------------------------------------ resolving

  /** All live literals of the antecedent but the resolved one are in the resolvent, and counted. */
  ghost predicate Read(g: State, s: State, c: seq<Lit>, uip: Lit, k: nat) {
    && k <= |c|
    && (forall i :: 0 <= i < k && c[i] != uip && Level(g, c[i]) > 0 ==> c[i] in s.resolvent)
    && s.antecedentSize == CountLive(g, c, k) + if uip in c[..k] then 0 else 1
  }

  lemma ReadNext(g: State, s: State, p: nat, open: nat, c: seq<Lit>, uip: Lit, k: nat)
    requires Shape(g) && OnTrail(g) && Levels(g) && Deducing(g, s, p, open) && g.level > 0 && Read(g, s, c, uip, k)
    requires k < |c|
    requires DistinctVars(c) && Level(g, uip) > 0
    requires c[k] != uip ==> False(g, c[k]) && (Level(g, c[k]) == g.level ==> Position(g, c[k]) < p)
    ensures c[k] == uip ==> Read(g, s, c, uip, k + 1)
    ensures c[k] != uip ==>
              && Var(c[k]) < |s.assignments|
              && var s' := Touch(g, s, c[k]);
                 && Read(g, s', c, uip, k + 1) && Deducing(g, s', p, open + if Opens(g, s, c[k]) then 1 else 0)
                 && (forall x :: x in s.resolvent ==> x in s'.resolvent)
                 && (forall x :: x in s'.resolvent ==> x in s.resolvent || x == c[k])
  {
    hide Deducing, Touch, CountLevel, Lower;
    assert c[..k + 1] == c[..k] + [c[k]];
    if c[k] == uip {
      assert uip !in c[..k];
    } else {
      TouchKeeps(g, s, p, open, c[k]);
    }
  }

  /** The state after the literal has been resolved away. */
  function Resolved(s: State, i: nat): State
    requires i < |s.resolvent| && s.resolventSize > 0
  {
    s.(resolvent := Without(s.resolvent, i), resolventSize := s.resolventSize - 1)
  }

  lemma ResolveStep(g: State, f: Clauses, s0: seq<Lit>, s: State, open: nat, t: nat, c: seq<Lit>, i: nat)
    requires TrailOK(g, f) && Deducing(g, s, t + 1, open) && t < |g.trail| && Level(g, g.trail[t]) == g.level > 0
    requires i < |s.resolvent| && s.resolvent[i] == Neg(g.trail[t])
    requires Read(g, s, c, g.trail[t], |c|) && Forced(g, c, t) && Entails(f, c)
    requires Entails(f, s0) && forall x :: x in s0 ==> x in s.resolvent
    ensures s.resolventSize > 0 && open > 0
    ensures var s' := Resolved(s, i);
            && Deducing(g, s', t, open - 1) && Entails(f, s'.resolvent)
            && (forall l :: LiveOther(g, c, g.trail[t], l) ==> l in s'.resolvent)
            && (forall x :: x in s'.resolvent <==> x in s.resolvent && x != Neg(g.trail[t]))
  {
    hide Reasons, Lower, CountLevel;
    var uip := g.trail[t];
    assert True(g, uip);
    SameVar(uip, Neg(uip));
    CountWithout(g, s.resolvent, i, g.level);
    CountAt(g, s.resolvent, g.level, i);
    var s' := Resolved(s, i);
    WithoutMembers(s.resolvent, i);
    ResolvedFlags(g, s, t, i);
    forall l | l in c && l != uip && Level(g, l) > 0 ensures l in s'.resolvent {
      var k :| 0 <= k < |c| && c[k] == l;
      assert Position(g, l) < t;
    }
    forall l | l in c && l != uip ensures l in s'.resolvent || Entails(f, [Neg(l)]) {
      if Level(g, l) == 0 {
        RootFalse(g, f, l);
      }
    }
    ResolveEntails(f, c, s0, uip, s'.resolvent);
  }

  lemma WithoutMembers(c: seq<Lit>, i: nat)
    requires DistinctVars(c) && i < |c|
    ensures DistinctVars(Without(c, i)) && forall x :: x in Without(c, i) <==> x in c && x != c[i]
    ensures forall x :: x in Without(c, i) ==> Var(x) != Var(c[i])
  {
    var d := Without(c, i);
    forall j, k | 0 <= j < k < |d| ensures Var(d[j]) != Var(d[k]) {
      assert d[j] == c[if j < i then j else j + 1] && d[k] == c[if k < i then k else k + 1];
    }
    forall x | x in c && x != c[i] ensures x in d {
      var j :| 0 <= j < |c| && c[j] == x;
      assert d[if j < i then j else j - 1] == x;
    }
    forall x | x in d ensures x in c && Var(x) != Var(c[i]) {
      var j :| 0 <= j < |d| && d[j] == x;
      assert x == c[if j < i then j else j + 1];
    }
  }

  lemma ResolvedFlags(g: State, s: State, t: nat, i: nat)
    requires Shape(g) && OnTrail(g) && SameSolver(g, s) && ResolventOK(g, s, t + 1) && FlagsOK(g, s, t + 1)
    requires t < |g.trail| && Level(g, g.trail[t]) == g.level > 0 && i < |s.resolvent|
    requires s.resolvent[i] == Neg(g.trail[t])
    requires s.resolventSize > 0
    ensures var s' := Resolved(s, i); SameSolver(g, s') && ResolventOK(g, s', t) && FlagsOK(g, s', t)
  {
    var uip := g.trail[t];
    var s' := Resolved(s, i);
    assert True(g, uip) && Position(g, uip) == t;
    SameVar(uip, Neg(uip));
    WithoutMembers(s.resolvent, i);
    forall l | l in s'.resolvent && Level(g, l) == g.level ensures Position(g, l) < t {
      assert False(g, l);
      FalseOnTrail(g, l);
      SameVar(l, Neg(l));
      assert Position(g, l) == t ==> Neg(l) == uip;
    }
    forall v: nat | Flagged(s', v) && v < |g.assignments|
      ensures Covered(s'.resolvent, v) || (g.assignments[v].level == g.level && g.assignments[v].trail >= t)
    {
      assert Flagged(s, v);
      if v != Var(uip) && Covered(s.resolvent, v) {
        var x :| x in s.resolvent && Var(x) == v;
        assert x in s'.resolvent;
      }
    }
  }

  // ------------------------------------------------------------------ the conflict

  /** The literals c[..k] of the conflict have been read: the live ones make up the resolvent. */
  ghost predicate ReadConflict(g: State, s: State, c: seq<Lit>, k: nat) {
    && k <= |c|
    && (forall i :: 0 <= i < k && Level(g, c[i]) > 0 ==> c[i] in s.resolvent)
    && (forall l :: l in s.resolvent ==> l in c[..k])
    && s.antecedentSize == CountLive(g, c, k)
  }

  lemma ConflictNext(g: State, s: State, open: nat, c: seq<Lit>, k: nat)
    requires Shape(g) && OnTrail(g) && Levels(g) && Deducing(g, s, |g.trail|, open) && g.level > 0
    requires ReadConflict(g, s, c, k) && k < |c| && False(g, c[k])
    ensures Var(c[k]) < |s.assignments|
    ensures var s' := Touch(g, s, c[k]);
            ReadConflict(g, s', c, k + 1) && Deducing(g, s', |g.trail|, open + if Opens(g, s, c[k]) then 1 else 0)
  {
    hide Deducing, Touch, CountLevel, Lower, Levels, Shape;
    assert c[..k + 1] == c[..k] + [c[k]];
    FalseOnTrail(g, c[k]);
    TouchKeeps(g, s, |g.trail|, open, c[k]);
  }

  /** The resolvent after reading the conflict: it follows, and has as many open literals as the conflict. */
  lemma ConflictRead(g: State, f: Clauses, s: State, open: nat, c: seq<Lit>)
    requires TrailOK(g, f) && Deducing(g, s, |g.trail|, open) && ReadConflict(g, s, c, |c|) && DistinctVars(c)
    requires Entails(f, c) && forall l :: l in c ==> False(g, l)
    requires g.level > 0 && CountLevel(g, c, g.level) > 1
    ensures Entails(f, s.resolvent) && open > 1
    ensures forall l :: l in s.resolvent <==> l in c && Level(g, l) > 0
  {
    hide Shape, OnTrail, Levels, Reasons, FlagsOK, Lower;
    assert c[..|c|] == c;
    forall l | l in c && Level(g, l) > 0 ensures l in s.resolvent {
      var i :| 0 <= i < |c| && c[i] == l;
    }
    forall l | l in c ensures l in s.resolvent || Entails(f, [Neg(l)]) {
      if Level(g, l) == 0 {
        RootFalse(g, f, l);
      }
    }
    DropRoots(f, c, s.resolvent);
    CountSame(g, c, s.resolvent, g.level);
  }

  lemma DropRoots(f: Clauses, c: seq<Lit>, e: seq<Lit>)
    requires Entails(f, c) && forall l :: l in c ==> l in e || Entails(f, [Neg(l)])
    ensures Entails(f, e)
  {
    forall m: Model | IsModel(m, f) ensures Sat(m, e) {
      assert Sat(m, c);
      var l :| l in c && Holds(m, l);
      if l !in e {
        UnitFalse(f, l, m);
      }
    }
  }

  /** DistinctVars literals are counted alike in any order. */
  lemma {:induction false} CountSame(g: State, c: seq<Lit>, d: seq<Lit>, level: nat)
    requires DistinctVars(c) && DistinctVars(d) && level > 0
    requires forall l :: l in c && Level(g, l) == level ==> l in d
    ensures CountLevel(g, c, level) <= CountLevel(g, d, level)
  {
    if c != [] {
      var n := |c| - 1;
      var l := c[n];
      if Level(g, l) == level {
        assert l in c;
        var i :| 0 <= i < |d| && d[i] == l;
        CountWithout(g, d, i, level);
        WithoutMembers(d, i);
        forall x | x in c[..n] && Level(g, x) == level ensures x in Without(d, i) {
          var j :| 0 <= j < n && c[..n][j] == x;
          assert c[j] == x && Var(c[j]) != Var(c[n]);
        }
        CountSame(g, c[..n], Without(d, i), level);
      } else {
        CountSame(g, c[..n], d, level);
      }
    }
  }

  lemma DeducingStart(g: State)
    requires g.analyzed == [] && g.resolvent == [] && g.clause == []
    requires forall v :: 0 <= v < |g.assignments| ==> !g.assignments[v].analyzed
    ensures var s := g.(clause := [INVALID_LIT], antecedentSize := 0, resolventSize := 0);
            Deducing(g, s, |g.trail|, 0) && forall c :: ReadConflict(g, s, c, 0)
  {
    assert forall v: nat :: !Flagged(g.(clause := [INVALID_LIT], antecedentSize := 0, resolventSize := 0), v);
  }

  // ------------------------------------------------------------------ what is left of the conflict

  /** The literals left of the conflict after resolving it with the reasons of the trail from position q on. */
  ghost function Left(g: State, conflict: seq<Lit>, q: nat): set<Lit>
    decreases |g.trail| - q
  {
    if q >= |g.trail| then
      set l | l in conflict && Level(g, l) > 0
    else
      var rest := Left(g, conflict, q + 1);
      if Level(g, g.trail[q]) == g.level && Neg(g.trail[q]) in rest
        then rest - {Neg(g.trail[q])} + LiveOthers(g, g.trail[q])
      else rest
  }

  /** The other literals of the reason above the root level. */
  ghost function LiveOthers(g: State, l: Lit): set<Lit> {
    set o | o in ReasonClause(g, l) && o != l && Level(g, o) > 0
  }

  /** The resolvent is what is left. */
  ghost predicate Leaving(g: State, s: State, conflict: seq<Lit>, p: nat) {
    forall l :: l in s.resolvent <==> l in Left(g, conflict, p)
  }

  /** The literal at position q of the trail is resolved. */
  ghost predicate Resolves(g: State, conflict: seq<Lit>, q: nat)
    requires q < |g.trail|
  {
    Level(g, g.trail[q]) == g.level && Neg(g.trail[q]) in Left(g, conflict, q + 1)
  }

  /** Only one literal on the conflict level is left. */
  ghost predicate OneOpen(g: State, conflict: seq<Lit>, q: nat) {
    exists u :: LeftAt(g, conflict, q, u) && forall l :: LeftAt(g, conflict, q, l) ==> l == u
  }

  ghost predicate LeftAt(g: State, conflict: seq<Lit>, q: nat, l: Lit) {
    l in Left(g, conflict, q) && Level(g, l) == g.level
  }

  /**
    The reason with which the literal at position q is resolved has more literals above the root level than
    are left.
   */
  ghost predicate Shrinks(g: State, conflict: seq<Lit>, q: nat)
    requires q < |g.trail|
  {
    var c := ReasonClause(g, g.trail[q]);
    Resolves(g, conflict, q) && CountLive(g, c, |c|) > 2 && |Left(g, conflict, q)| < CountLive(g, c, |c|)
  }

  /** Nothing has stopped the analysis on the way to position p. */
  ghost predicate Going(g: State, conflict: seq<Lit>, p: nat) {
    && p <= |g.trail| && (forall q: nat :: p < q <= |g.trail| ==> !OneOpen(g, conflict, q))
    && (g.options.otfs ==> forall q: nat :: p <= q < |g.trail| ==> !Shrinks(g, conflict, q))
  }

  ghost predicate NoneResolved(g: State, conflict: seq<Lit>, p: nat) {
    forall q: nat :: p <= q < |g.trail| ==> !Resolves(g, conflict, q)
  }

  /**
    What the analysis ends with: all that is left where for the first time one literal on the conflict level is; or,
    if that comes earlier and the option is set, the first reason that has more literals than are left.  If no other has
    been resolved before, and the conflict has more literals than are left too, it is subsumed.
   */
  ghost predicate Deduced(g: State, conflict: seq<Lit>, c: seq<Lit>, d: Deduction) {
    match d
    case Learned =>
      exists p: nat :: Going(g, conflict, p) && OneOpen(g, conflict, p) && forall l ::
                       l in c <==> l in Left(g, conflict, p)
    case Strengthened(ref, lit, subsumed) =>
      exists p: nat :: StoppedAt(g, conflict, p, lit) && ReasonOf(g, lit) == Large(ref) &&
                       (subsumed <==> NoneResolved(g, conflict, p + 1) &&
                                      |Left(g, conflict, p)| < CountLive(g, conflict, |conflict|))
  }

  ghost predicate StoppedAt(g: State, conflict: seq<Lit>, p: nat, lit: Lit) {
    && p < |g.trail| && g.trail[p] == lit && g.options.otfs
    && Going(g, conflict, p + 1) && !OneOpen(g, conflict, p + 1) && Shrinks(g, conflict, p)
  }

  lemma LeavingConflict(g: State, s: State, conflict: seq<Lit>)
    requires forall l :: l in s.resolvent <==> l in conflict && Level(g, l) > 0
    ensures Leaving(g, s, conflict, |g.trail|) && Going(g, conflict, |g.trail|) && NoneResolved(g, conflict, |g.trail|)
  {
  }

  /** What is left does not change where no literal is resolved. */
  lemma {:induction false} LeftPassed(g: State, s: State, open: nat, conflict: seq<Lit>, p: nat, q: nat, r: nat)
    requires Shape(g) && OnTrail(g) && q < r <= p <= |g.trail|
    requires Deducing(g, s, q + 1, open) && Leaving(g, s, conflict, p)
    ensures Left(g, conflict, r) == Left(g, conflict, p) && (r < p ==> !Resolves(g, conflict, r))
    decreases p - r
  {
    hide Shape, OnTrail, Deducing;
    if r < p {
      LeftPassed(g, s, open, conflict, p, q, r + 1);
      NotLeft(g, s, open, q, r);
    }
  }

  lemma NotLeft(g: State, s: State, open: nat, q: nat, r: nat)
    requires Shape(g) && OnTrail(g) && q < r < |g.trail| && Deducing(g, s, q + 1, open)
    ensures Level(g, g.trail[r]) == g.level ==> Neg(g.trail[r]) !in s.resolvent
  {
    hide Lower, CountLevel, FlagsOK;
    SameVar(g.trail[r], Neg(g.trail[r]));
    assert Position(g, Neg(g.trail[r])) == r;
  }

  lemma WalkLeft(g: State, s: State, open: nat, conflict: seq<Lit>, p: nat, q: nat)
    requires Shape(g) && OnTrail(g) && q < p <= |g.trail| && Deducing(g, s, q + 1, open) && Leaving(g, s, conflict, p)
    ensures forall r: nat :: q < r <= p ==> Left(g, conflict, r) == Left(g, conflict, p)
    ensures forall r: nat :: q < r < p ==> !Resolves(g, conflict, r)
    ensures Leaving(g, s, conflict, q + 1)
  {
    hide Shape, OnTrail, Deducing;
    forall r: nat | q < r <= p
      ensures Left(g, conflict, r) == Left(g, conflict, p) && (r < p ==> !Resolves(g, conflict, r)) {
      LeftPassed(g, s, open, conflict, p, q, r);
    }
  }

  /** Resolving with a reason. */
  lemma LeavingResolved(g: State, f: Clauses, s0: State, s1: State, s2: State, conflict: seq<Lit>, p: nat, c: seq<Lit>)
    requires TrailOK(g, f) && p < |g.trail| && c == ReasonClause(g, g.trail[p]) && Forced(g, c, p)
    requires Level(g, g.trail[p]) == g.level && Leaving(g, s0, conflict, p + 1) && Neg(g.trail[p]) in s0.resolvent
    requires Read(g, s1, c, g.trail[p], |c|) && forall l :: l in s0.resolvent ==> l in s1.resolvent
    requires forall l :: l in s1.resolvent ==> l in s0.resolvent || l in LiveOthers(g, g.trail[p])
    requires forall l :: l in s2.resolvent <==> l in s1.resolvent && l != Neg(g.trail[p])
    ensures Leaving(g, s2, conflict, p) && Resolves(g, conflict, p)
  {
    hide Reasons, Levels, CountLive;
    var uip := g.trail[p];
    SameVar(uip, Neg(uip));
    assert Position(g, Neg(uip)) == p;
    assert Neg(uip) !in LiveOthers(g, uip);
    assert Left(g, conflict, p) == Left(g, conflict, p + 1) - {Neg(uip)} + LiveOthers(g, uip);
    forall o | o in LiveOthers(g, uip) ensures o in s1.resolvent {
      var i :| 0 <= i < |c| && c[i] == o;
    }
  }

  lemma LeavingSame(g: State, s: State, s': State, conflict: seq<Lit>, p: nat)
    requires Leaving(g, s, conflict, p) && s'.resolvent == s.resolvent
    ensures Leaving(g, s', conflict, p)
  {
  }

  lemma LiveReason(g: State, c: seq<Lit>, uip: Lit, t: nat)
    requires c == ReasonClause(g, uip)
    ensures forall l :: LiveOther(g, c, uip, l) <==> l in LiveOthers(g, uip)
  {
  }

  /** Walking on to position t: one literal on the conflict level is left if and only if one is open. */
  lemma OpenLeft(g: State, s: State, conflict: seq<Lit>, p: nat, t: nat, open: nat)
    requires Shape(g) && OnTrail(g) && t < p <= |g.trail| && Deducing(g, s, t + 1, open) && Leaving(g, s, conflict, p)
    requires Neg(g.trail[t]) in s.resolvent && Level(g, g.trail[t]) == g.level && Going(g, conflict, p)
    ensures Leaving(g, s, conflict, t + 1) && (open == 1 ==> OneOpen(g, conflict, p))
    ensures open > 1 ==> Going(g, conflict, t + 1) && !OneOpen(g, conflict, t + 1)
    ensures NoneResolved(g, conflict, p) <==> NoneResolved(g, conflict, t + 1)
  {
    hide Shape, OnTrail, Deducing, Left, Resolves;
    WalkLeft(g, s, open, conflict, p, t);
    OpenCount(g, s, conflict, p, t, open);
    forall q: nat | t < q <= p ensures OneOpen(g, conflict, q) <==> OneOpen(g, conflict, p) {
      assert forall l :: LeftAt(g, conflict, q, l) <==> LeftAt(g, conflict, p, l);
    }
  }

  lemma OpenCount(g: State, s: State, conflict: seq<Lit>, p: nat, t: nat, open: nat)
    requires t < |g.trail| && Deducing(g, s, t + 1, open) && Leaving(g, s, conflict, p)
    requires Neg(g.trail[t]) in s.resolvent && Level(g, g.trail[t]) == g.level && Shape(g) && OnTrail(g)
    ensures open == 1 ==> OneOpen(g, conflict, p)
    ensures open > 1 ==> !OneOpen(g, conflict, p)
  {
    hide Left, Lower, FlagsOK, Shape, OnTrail;
    var n := Neg(g.trail[t]);
    SameVar(g.trail[t], n);
    assert LeftAt(g, conflict, p, n);
    if open == 1 {
      forall l | LeftAt(g, conflict, p, l) ensures l == n {
        OnlyOpen(g, s.resolvent, l, n);
      }
    } else if open > 1 {
      var l := OtherOpen(g, s.resolvent, n);
      assert LeftAt(g, conflict, p, l);
    }
  }

  lemma LearnedLeft(g: State, s: State, conflict: seq<Lit>, p: nat, c: seq<Lit>)
    requires Leaving(g, s, conflict, p) && Going(g, conflict, p) && OneOpen(g, conflict, p)
    requires forall l :: l in c <==> l in s.resolvent
    ensures Deduced(g, conflict, c, Learned)
  {
  }

  lemma LeftSize(g: State, s: State, conflict: seq<Lit>, p: nat, open: nat)
    requires Leaving(g, s, conflict, p) && Deducing(g, s, p, open)
    ensures s.resolventSize == |Left(g, conflict, p)|
  {
    hide Left, Lower, FlagsOK, CountLevel;
    MembersSize(s.resolvent, Left(g, conflict, p));
  }

  lemma {:induction false} MembersSize(c: seq<Lit>, d: set<Lit>)
    requires DistinctVars(c) && forall l :: l in c <==> l in d
    ensures |d| == |c|
  {
    if c == [] {
      assert d == {};
    } else {
      var l := c[|c| - 1];
      forall k | k in c[..|c| - 1] ensures k in d - {l} {
        var i :| 0 <= i < |c| - 1 && c[i] == k;
        assert c[i] in c;
      }
      assert l in c && c == c[..|c| - 1] + [l];
      MembersSize(c[..|c| - 1], d - {l});
    }
  }

  lemma StoppedHere(g: State, conflict: seq<Lit>, p: nat, c: seq<Lit>, d: Deduction)
    requires g.options.otfs && p < |g.trail| && Going(g, conflict, p + 1) && !OneOpen(g, conflict, p + 1)
    requires Shrinks(g, conflict, p) && d.Strengthened? && g.trail[p] == d.lit && ReasonOf(g, d.lit) == Large(d.ref)
    requires d.subsumed <==> NoneResolved(g, conflict, p + 1) &&
                             |Left(g, conflict, p)| < CountLive(g, conflict, |conflict|)
    ensures Deduced(g, conflict, c, d)
  {
    hide Shrinks, Going, OneOpen, Left, NoneResolved;
    assert StoppedAt(g, conflict, p, d.lit);
  }

  lemma GoesOn(g: State, conflict: seq<Lit>, p: nat)
    requires p < |g.trail| && Going(g, conflict, p + 1) && !OneOpen(g, conflict, p + 1) && Resolves(g, conflict, p)
    requires g.options.otfs ==> !Shrinks(g, conflict, p)
    ensures Going(g, conflict, p) && !NoneResolved(g, conflict, p)
  {
    hide Shrinks, OneOpen, Left, Resolves;
  }

  // ------------------------------------------------------------------ the outcome

  /** A clause to be learned, or one that may be strengthened by removing a literal. */
  datatype Deduction = Learned | Strengthened(ref: nat, lit: Lit, subsumed: bool)

  /** The first literal is the only one on the conflict level, and all are false above the root level. */
  ghost predicate FirstUip(g: State, c: seq<Lit>) {
    && c != [] && DistinctVars(c) && (forall l :: l in c ==> False(g, l) && Level(g, l) > 0)
    && Level(g, c[0]) == g.level && forall i :: 0 < i < |c| ==> Level(g, c[i]) < g.level
  }

  lemma UipLearned(g: State, f: Clauses, s: State, t: nat)
    requires TrailOK(g, f) && Deducing(g, s, t + 1, 1) && t < |g.trail| && Entails(f, s.resolvent)
    requires Neg(g.trail[t]) in s.resolvent && Level(g, g.trail[t]) == g.level > 0 && True(g, g.trail[t])
    ensures |s.clause| > 0
    ensures var c := s.clause[0 := Neg(g.trail[t])];
            FirstUip(g, c) && Entails(f, c) && forall l :: l in c <==> l in s.resolvent
  {
    hide Reasons, Shape, OnTrail, Levels, FlagsOK, SameSolver;
    var uip := g.trail[t];
    SameVar(uip, Neg(uip));
    var low := Lower(g, s.resolvent, g.level);
    var c := s.clause[0 := Neg(uip)];
    assert c == [Neg(uip)] + low;
    LowerMembers(g, s.resolvent, g.level);
    LowerDistinct(g, s.resolvent, g.level);
    forall l | l in s.resolvent ensures l in c {
      if Level(g, l) == g.level {
        OnlyOpen(g, s.resolvent, l, Neg(uip));
      }
    }
    forall i | 0 < i < |c| ensures Level(g, c[i]) < g.level && c[i] in s.resolvent {
      assert c[i] == low[i - 1] && low[i - 1] in low;
    }
    EntailsMore(f, s.resolvent, c);
  }

  /** With one open literal any two are the same. */
  lemma OnlyOpen(g: State, c: seq<Lit>, k: Lit, l: Lit)
    requires k in c && l in c && Level(g, k) == Level(g, l) && CountLevel(g, c, Level(g, l)) == 1
    ensures k == l
  {
    var i :| 0 <= i < |c| && c[i] == k;
    var j :| 0 <= j < |c| && c[j] == l;
    if i != j {
      CountWithout(g, c, i, Level(g, l));
      var d := Without(c, i);
      assert d[if j < i then j else j - 1] == l;
      CountAt(g, d, Level(g, l), if j < i then j else j - 1);
    }
  }

  /** What strengthening demands: the clause without the literal and root-level ones follows from the formula. */
  ghost predicate Strengthens(g: State, f: Clauses, ref: nat, lit: Lit) {
    ref < |g.clauses| && lit in g.clauses[ref] && forall e ::
      (forall l :: LiveOther(g, g.clauses[ref], lit, l) ==> l in e) ==> Entails(f, e)
  }

  /** The clause is the reason of the literal, which is below a position, and has at least three live literals. */
  ghost predicate StrengthenedAt(g: State, ref: nat, lit: Lit, bound: nat) {
    && True(g, lit) && Level(g, lit) == g.level && Position(g, lit) < bound && ReasonOf(g, lit) == Large(ref)
    && ref < |g.clauses| && CountLive(g, g.clauses[ref], |g.clauses[ref]|) > 2
  }

  /** By counting: the resolvent is the reason without the resolved literal, but for root-level literals. */
  lemma CountedStrengthens(g: State, f: Clauses, s: State, open: nat, t: nat, ref: nat)
    requires TrailOK(g, f) && Deducing(g, s, t, open) && t < |g.trail| && Level(g, g.trail[t]) == g.level > 0
    requires ref < |g.clauses| && g.trail[t] in g.clauses[ref] && DistinctVars(g.clauses[ref])
    requires Entails(f, s.resolvent) && forall l :: LiveOther(g, g.clauses[ref], g.trail[t], l) ==> l in s.resolvent
    requires s.resolventSize < CountLive(g, g.clauses[ref], |g.clauses[ref]|)
    ensures Strengthens(g, f, ref, g.trail[t])
    ensures forall l :: l in s.resolvent <==> LiveOther(g, g.clauses[ref], g.trail[t], l)
  {
    hide Reasons, Shape, OnTrail, Levels, FlagsOK, SameSolver, Lower, CountLevel;
    CountedEqual(g, g.clauses[ref], g.trail[t], s.resolvent);
    forall e | forall l :: LiveOther(g, g.clauses[ref], g.trail[t], l) ==> l in e ensures Entails(f, e) {
      EntailsMore(f, s.resolvent, e);
    }
  }

  /** By counting: after one resolution the resolvent is the conflict without the negated literal, too. */
  lemma CountedSubsumes(g: State, s: State, open: nat, t: nat, conflict: seq<Lit>)
    requires Deducing(g, s, t, open) && DistinctVars(conflict) && t < |g.trail|
    requires Neg(g.trail[t]) in conflict && Level(g, Neg(g.trail[t])) > 0
    requires forall l :: LiveOther(g, conflict, Neg(g.trail[t]), l) ==> l in s.resolvent
    requires s.resolventSize < CountLive(g, conflict, |conflict|)
    ensures forall l :: l in s.resolvent <==> LiveOther(g, conflict, Neg(g.trail[t]), l)
  {
    hide FlagsOK, SameSolver, Lower, CountLevel;
    CountedEqual(g, conflict, Neg(g.trail[t]), s.resolvent);
  }

  /** Analysis flags do not matter to the trail. */
  lemma SameSolverTrail(g: State, f: Clauses, s: State)
    requires TrailOK(g, f) && SameSolver(g, s)
    ensures TrailOK(s, f)
    ensures forall l: nat ::
              Level(s, l) == Level(g, l) && Position(s, l) == Position(g, l) && ReasonOf(s, l) == ReasonOf(g, l)
    ensures forall l: nat :: True(s, l) <==> True(g, l)
    ensures forall l: nat :: False(s, l) <==> False(g, l)
  {
    forall l: nat | True(s, l) ensures Position(s, l) < |s.trail| && s.trail[Position(s, l)] == l {
      assert True(g, l);
    }
    forall i | 0 <= i < |s.trail| ensures True(s, s.trail[i]) && Position(s, s.trail[i]) == i && ReasonAt(s, f, i) {
      assert True(g, g.trail[i]);
      assert ReasonAt(g, f, i);
    }
  }
}
