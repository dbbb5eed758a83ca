/**
  Bounded variable elimination (fastel.c, eliminate.c, weaken.c): adding all resolvents on a
  pivot, deleting its clauses and storing them as witnesses keeps every model reconstructible.
 */
module Elimination {
  import opened Literals
  import opened Reconstruction
  import opened Extend

  /** An occurrence of the pivot: a binary clause with its other literal, or a larger one. */
  datatype Watch = Watch(binary: bool, lit: Lit, ref: nat)

  /** The parts of the solver that elimination works on; root-level values are permanent. */
  datatype Dense = Dense(values: seq<int>, marks: seq<bool>, clause: seq<Lit>, clauses: seq<Clause>, inconsistent: bool,
                         extend: seq<Extension>, pos: seq<int>, count: nat)

  ghost predicate Working(s: Dense) {
    && |s.values| == |s.marks| == 2 * |s.pos|
    && (forall l: nat {:trigger Neg(l)} :: l < |s.values| ==> s.values[Neg(l)] == -s.values[l])
    && (forall r :: 0 <= r < |s.clauses| ==> Proper(|s.values|, s.clauses[r].lits))
    && s.clause == [] && (forall l :: 0 <= l < |s.marks| ==> !s.marks[l])
  }

  ghost predicate RootSatisfied(values: seq<int>, c: seq<Lit>, v: nat) {
    exists l :: l in c && Var(l) != v && l < |values| && values[l] > 0
  }

  ghost predicate Omits(c: seq<Lit>, v: nat) {
    forall l :: l in c ==> Var(l) != v
  }

  /** From s to s' values and resolvents without v were added, and clauses satisfied at the root level deleted. */
  ghost predicate Grew(s: Dense, s': Dense, v: nat) {
    && s' == s.(values := s'.values, clauses := s'.clauses, inconsistent := s'.inconsistent)
    && |s'.values| == |s.values| &&
       (forall l :: 0 <= l < |s.values| && s.values[l] != 0 ==> s'.values[l] == s.values[l])
    && (s.inconsistent ==> s'.inconsistent)
    && (forall l: nat :: l < |s.values| && Var(l) == v ==> s'.values[l] == s.values[l])
    && |s.clauses| <= |s'.clauses|
    && (forall r :: 0 <= r < |s.clauses| ==>
          && s'.clauses[r].lits == s.clauses[r].lits
          && (s.clauses[r].garbage ==> s'.clauses[r].garbage)
          && (s'.clauses[r].garbage && !s.clauses[r].garbage ==>
                RootSatisfied(s'.values, s.clauses[r].lits, v) && |s.clauses[r].lits| != 2))
    && (forall r :: |s.clauses| <= r < |s'.clauses| ==> !s'.clauses[r].garbage && Omits(s'.clauses[r].lits, v))
    && (forall r :: 0 <= r < |s.clauses| && Omits(s.clauses[r].lits, v) ==>
                    s'.clauses[r].garbage == s.clauses[r].garbage)
  }

  lemma RootSatisfiedGrows(values: seq<int>, values': seq<int>, c: seq<Lit>, v: nat)
    requires |values'| == |values| && forall l :: 0 <= l < |values| && values[l] != 0 ==> values'[l] == values[l]
    requires RootSatisfied(values, c, v)
    ensures RootSatisfied(values', c, v)
  {
  }

  lemma GrewTrans(s: Dense, s': Dense, s'': Dense, v: nat)
    requires Grew(s, s', v) && Grew(s', s'', v)
    ensures Grew(s, s'', v)
  {
    forall r | 0 <= r < |s.clauses| && s''.clauses[r].garbage && !s.clauses[r].garbage
      ensures RootSatisfied(s''.values, s.clauses[r].lits, v) && |s.clauses[r].lits| != 2
    {
      if s'.clauses[r].garbage {
        RootSatisfiedGrows(s'.values, s''.values, s.clauses[r].lits, v);
      }
    }
  }

  // ------------------------------------------------------------------ resolvents

  /** Clause r is an active clause without v made of literals of c and d. */
  ghost predicate Below(s: Dense, v: nat, c: seq<Lit>, d: seq<Lit>, r: nat) {
    && r < |s.clauses| && !s.clauses[r].garbage && Omits(s.clauses[r].lits, v)
    && forall l :: l in s.clauses[r].lits ==> l in c || l in d
  }

  /** The resolvent of c and d on v is implied by a clause, a unit, or is a tautology. */
  ghost predicate Covered(s: Dense, v: nat, c: seq<Lit>, d: seq<Lit>) {
    || s.inconsistent || Tautological(v, c, d)
    || RootSatisfied(s.values, c, v) || RootSatisfied(s.values, d, v)
    || exists r :: Below(s, v, c, d, r)
  }

  lemma CoveredGrows(s: Dense, s': Dense, v: nat, c: seq<Lit>, d: seq<Lit>)
    requires Grew(s, s', v) && Covered(s, v, c, d)
    ensures Covered(s', v, c, d)
  {
    if RootSatisfied(s.values, c, v) {
      RootSatisfiedGrows(s.values, s'.values, c, v);
    } else if RootSatisfied(s.values, d, v) {
      RootSatisfiedGrows(s.values, s'.values, d, v);
    } else if r :| Below(s, v, c, d, r) {
      assert Below(s', v, c, d, r);
    }
  }

  // ------------------------------------------------------------------ soundness

  /** The active clauses, the root-level units, and the empty clause once it was derived. */
  ghost predicate Active(s: Dense, c: seq<Lit>) {
    || (exists r :: 0 <= r < |s.clauses| && !s.clauses[r].garbage && s.clauses[r].lits == c)
    || (|c| == 1 && c[0] < |s.values| && s.values[c[0]] > 0)
    || (c == [] && s.inconsistent)
  }

  ghost function Formula(s: Dense): Clauses {
    iset c: seq<Lit> | Active(s, c)
  }

  /** Active clauses c and d contain the pivot with opposite signs. */
  ghost predicate Pair(s: Dense, p: Lit, c: seq<Lit>, d: seq<Lit>) {
    && c in Formula(s) && d in Formula(s) && p in c && Neg(p) in d
    && Proper(|s.values|, c) && Proper(|s.values|, d)
  }

  /** The clause e contains the literals of c and d, but for the pivot and root-level false ones. */
  ghost predicate Resolvent(s: Dense, v: nat, c: seq<Lit>, d: seq<Lit>, e: seq<Lit>) {
    forall l :: (l in c || l in d) && Var(l) != v ==> l in e || (l < |s.values| && s.values[l] < 0)
  }

  lemma RootFalse(s: Dense, a: Values, l: Lit)
    requires Working(s) && Satisfies(a, Formula(s)) && l < |s.values| && s.values[l] < 0
    ensures Val(a, l) < 0
  {
    assert s.values[Neg(l)] == -s.values[l];
    SameVar(l, Neg(l));
    assert [Neg(l)] in Formula(s);
    assert True(a, [Neg(l)]);
  }

  /** Resolution is sound. */
  lemma ResolventSound(s: Dense, a: Values, p: Lit, c: seq<Lit>, d: seq<Lit>, e: seq<Lit>)
    requires Working(s) && Pair(s, p, c, d) && Resolvent(s, Var(p), c, d, e) && Satisfies(a, Formula(s))
    ensures True(a, e)
  {
    assert True(a, c) && True(a, d);
    var t, u :| t in c && Val(a, t) > 0 && u in d && Val(a, u) > 0;
    SameVar(p, Neg(p));
    var x := if Var(t) != Var(p) then t else u;
    if Var(t) == Var(p) {
      assert t == p;
      assert Var(u) == Var(p) ==> u == Neg(p);
    }
    if x < |s.values| && s.values[x] < 0 {
      RootFalse(s, a, x);
    }
  }

  /** No active clause or unit contains an eliminated variable. */
  ghost predicate Alive(s: Dense) {
    forall c, l :: c in Formula(s) && l in c ==> Pos(s.pos, l) < 0
  }

  /** From s to s' only consequences without v were added, and clauses satisfied at the root level deleted. */
  ghost predicate Progress(s: Dense, s': Dense, v: nat) {
    && Working(s') && Grew(s, s', v)
    && (forall a: Values | Satisfies(a, Formula(s)) :: Satisfies(a, Formula(s')))
    && (Alive(s) ==> Alive(s'))
  }

  /** What resolving c and d achieves. */
  ghost predicate Resolves(s: Dense, s': Dense, v: nat, c: seq<Lit>, d: seq<Lit>) {
    Progress(s, s', v) && Covered(s', v, c, d)
  }

  lemma NothingResolved(s: Dense, v: nat, c: seq<Lit>, d: seq<Lit>)
    requires Working(s) && Covered(s, v, c, d)
    ensures Resolves(s, s, v, c, d)
  {
  }

  /** The state after learning a unit. */
  function Unit(s: Dense, l: Lit): Dense {
    s.(values := if l < |s.values| && Neg(l) < |s.values| then s.values[l := 1][Neg(l) := -1] else s.values)
  }

  /** The state after adding a clause. */
  function Added(s: Dense, c: seq<Lit>): Dense {
    s.(clauses := s.clauses + [Clause(c, false)])
  }

  lemma UnitKeeps(s: Dense, v: nat, l: Lit, c: seq<Lit>, d: seq<Lit>)
    requires Working(s) && l < |s.values| && s.values[l] == 0 && Var(l) != v && (l in c || l in d)
    ensures Working(Unit(s, l)) && Grew(s, Unit(s, l), v) && Covered(Unit(s, l), v, c, d) && Neg(l) < |s.values|
  {
    assert s.values[Neg(l)] == -s.values[l];
    SameVar(l, Neg(l));
    var s' := Unit(s, l);
    forall x: nat | x < |s.values| ensures s'.values[Neg(x)] == -s'.values[x] && Neg(x) < |s.values| {
      assert s.values[Neg(x)] == -s.values[x];
      SameVar(x, Neg(x));
    }
    assert RootSatisfied(s'.values, c, v) || RootSatisfied(s'.values, d, v);
  }

  lemma UnitFormula(s: Dense, l: Lit, e: seq<Lit>)
    requires Working(s) && l < |s.values| && s.values[l] == 0 && Active(Unit(s, l), e)
    ensures Active(s, e) || e == [l]
  {
    assert s.values[Neg(l)] == -s.values[l];
  }

  lemma AddedFormula(s: Dense, c: seq<Lit>, e: seq<Lit>)
    requires Active(Added(s, c), e)
    ensures Active(s, e) || e == c
  {
  }

  /** Literals of active clauses stay alive when their resolvent is added. */
  lemma ResolventAlive(s: Dense, s': Dense, p: Lit, c: seq<Lit>, d: seq<Lit>, e: seq<Lit>)
    requires Pair(s, p, c, d) && s'.pos == s.pos && Alive(s)
    requires forall g :: Active(s', g) ==> Active(s, g) || g == e
    requires forall l :: l in e ==> l in c || l in d
    ensures Alive(s')
  {
    hide Active;
  }

  /** A resolvent that is a unit at the root level is learned. */
  lemma UnitResolves(s: Dense, p: Lit, l: Lit, c: seq<Lit>, d: seq<Lit>)
    requires Working(s) && Pair(s, p, c, d) && Resolvent(s, Var(p), c, d, [l])
    requires l < |s.values| && s.values[l] == 0 && Var(l) != Var(p) && (l in c || l in d)
    ensures Resolves(s, Unit(s, l), Var(p), c, d) && Neg(l) < |s.values|
  {
    hide Working, Grew, Covered, Resolvent, Pair, Active, Alive;
    UnitKeeps(s, Var(p), l, c, d);
    var s' := Unit(s, l);
    forall a: Values | Satisfies(a, Formula(s)) ensures Satisfies(a, Formula(s')) {
      ResolventSound(s, a, p, c, d, [l]);
      forall e | e in Formula(s') ensures True(a, e) {
        UnitFormula(s, l, e);
      }
    }
    if Alive(s) {
      forall e | Active(s', e) ensures Active(s, e) || e == [l] {
        UnitFormula(s, l, e);
      }
      ResolventAlive(s, s', p, c, d, [l]);
    }
  }

  /** A longer resolvent is added. */
  lemma AddedResolves(s: Dense, p: Lit, e: seq<Lit>, c: seq<Lit>, d: seq<Lit>)
    requires Working(s) && Pair(s, p, c, d) && Resolvent(s, Var(p), c, d, e)
    requires Proper(|s.values|, e) && Omits(e, Var(p)) && forall l :: l in e ==> l in c || l in d
    ensures Resolves(s, Added(s, e), Var(p), c, d)
  {
    hide Working, Grew, Covered, Resolvent, Pair, Below, Active, Omits, Alive;
    AddedKeeps(s, Var(p), e, c, d);
    var s' := Added(s, e);
    forall a: Values | Satisfies(a, Formula(s)) ensures Satisfies(a, Formula(s')) {
      ResolventSound(s, a, p, c, d, e);
      forall g | g in Formula(s') ensures True(a, g) {
        AddedFormula(s, e, g);
      }
    }
    if Alive(s) {
      forall g | Active(s', g) ensures Active(s, g) || g == e {
        AddedFormula(s, e, g);
      }
      ResolventAlive(s, s', p, c, d, e);
    }
  }

  lemma AddedKeeps(s: Dense, v: nat, e: seq<Lit>, c: seq<Lit>, d: seq<Lit>)
    requires Working(s) && Proper(|s.values|, e) && Omits(e, v) && forall l :: l in e ==> l in c || l in d
    ensures Working(Added(s, e)) && Grew(s, Added(s, e), v) && Covered(Added(s, e), v, c, d)
  {
    assert Below(Added(s, e), v, c, d, |s.clauses|);
  }

  /** An empty resolvent makes the formula inconsistent. */
  lemma EmptyResolves(s: Dense, p: Lit, c: seq<Lit>, d: seq<Lit>)
    requires Working(s) && Pair(s, p, c, d) && Resolvent(s, Var(p), c, d, [])
    ensures Resolves(s, s.(inconsistent := true), Var(p), c, d)
  {
    forall a: Values ensures !Satisfies(a, Formula(s)) {
      EmptyRefutes(s, a, p, c, d);
    }
  }

  lemma EmptyRefutes(s: Dense, a: Values, p: Lit, c: seq<Lit>, d: seq<Lit>)
    requires Working(s) && Pair(s, p, c, d) && Resolvent(s, Var(p), c, d, [])
    ensures !Satisfies(a, Formula(s))
  {
    if Satisfies(a, Formula(s)) {
      ResolventSound(s, a, p, c, d, []);
    }
  }

  /** The state after deleting a clause. */
  function Garbage(s: Dense, r: nat): Dense {
    s.(clauses := if r < |s.clauses| then s.clauses[r := s.clauses[r].(garbage := true)] else s.clauses)
  }

  /** A clause satisfied at the root level is deleted. */
  lemma GarbageResolves(s: Dense, v: nat, r: nat, c: seq<Lit>, d: seq<Lit>)
    requires Working(s) && r < |s.clauses| && RootSatisfied(s.values, s.clauses[r].lits, v)
    requires !Omits(s.clauses[r].lits, v)
    requires (c == s.clauses[r].lits || d == s.clauses[r].lits) && |s.clauses[r].lits| != 2
    ensures Resolves(s, Garbage(s, r), v, c, d)
  {
    var s' := Garbage(s, r);
    assert Formula(s') <= Formula(s);
  }

  // ------------------------------------------------------------------ collecting a resolvent

  /** The buffer after reading c[..k], resolved with a binary clause whose other literal is lit. */
  ghost predicate Collecting(s: Dense, v: nat, lit: Lit, c: seq<Lit>, k: nat) {
    && k <= |c| && lit < |s.values| && Proper(|s.values|, c) && Proper(|s.values|, s.clause)
    && (s.values[lit] == 0 ==> lit in s.clause)
    && (forall l :: l in s.clause ==> s.values[l] == 0 && Var(l) != v && (l == lit || l in c[..k]))
    && (forall i :: 0 <= i < k && Var(c[i]) != v && c[i] != lit ==>
          c[i] != Neg(lit) && s.values[c[i]] <= 0 && (s.values[c[i]] == 0 ==> c[i] in s.clause))
  }

  function Unmarked(n: nat): seq<bool> {
    seq(n, _ => false)
  }

  /** Marked literals are in the buffer. */
  ghost predicate Buffered(s: Dense) {
    && (forall l :: l in s.clause ==> l < |s.marks|)
    && (forall l: nat :: l < |s.marks| && s.marks[l] ==> l in s.clause)
  }

  /** The first clause c has been read up to k, its unassigned literals marked. */
  ghost predicate Marking(s: Dense, v: nat, c: seq<Lit>, k: nat) {
    && k <= |c| && Proper(|s.values|, c) && Proper(|s.values|, s.clause) && |s.marks| == |s.values|
    && (forall l: nat :: l < |s.marks| ==> (s.marks[l] <==> l in s.clause))
    && (forall l :: l in s.clause ==> l < |s.values| && s.values[l] == 0 && Var(l) != v && l in c[..k])
    && (forall i :: 0 <= i < k && Var(c[i]) != v ==> s.values[c[i]] < 0 || c[i] in s.clause)
  }

  /** The second clause d has been read up to k; the first m literals of the buffer come from c. */
  ghost predicate Joining(s: Dense, v: nat, c: seq<Lit>, m: nat, d: seq<Lit>, k: nat) {
    && k <= |d| && m <= |s.clause| && Proper(|s.values|, d) && Proper(|s.values|, s.clause) && |s.marks| == |s.values|
    && (forall l: nat :: l < |s.marks| ==> (s.marks[l] <==> l in s.clause[..m]))
    && (forall l :: l in s.clause ==> l < |s.values| && s.values[l] == 0 && Var(l) != v && (l in c || l in d))
    && (forall l :: l in s.clause[..m] ==> l in c)
    && (forall l :: l in s.clause[m..] ==> l in d[..k])
    && (forall l :: l in c && Var(l) != v ==> l in s.clause || (l < |s.values| && s.values[l] < 0))
    && (forall i :: 0 <= i < k && Var(d[i]) != v ==> s.values[d[i]] < 0 || d[i] in s.clause)
  }

  lemma MarkingBound(s: Dense, v: nat, c: seq<Lit>, k: nat)
    requires Marking(s, v, c, k) && k < |c|
    ensures c[k] < |s.values| == |s.marks|
  {
  }

  lemma MarkingNext(s: Dense, v: nat, c: seq<Lit>, k: nat)
    requires Marking(s, v, c, k) && k < |c| && Var(c[k]) != v && s.values[c[k]] == 0
    ensures Marking(s.(clause := s.clause + [c[k]], marks := s.marks[c[k] := true]), v, c, k + 1)
  {
    forall l | l in s.clause ensures Var(l) != Var(c[k]) {
      var i :| 0 <= i < k && c[..k][i] == l;
      assert c[i] == l;
    }
  }

  lemma MarkingSkip(s: Dense, v: nat, c: seq<Lit>, k: nat)
    requires Marking(s, v, c, k) && k < |c| && (Var(c[k]) == v || s.values[c[k]] < 0)
    ensures Marking(s, v, c, k + 1)
  {
  }

  lemma JoiningBound(s: Dense, v: nat, c: seq<Lit>, m: nat, d: seq<Lit>, k: nat)
    requires Joining(s, v, c, m, d, k) && k < |d|
    ensures d[k] < |s.values| == |s.marks|
  {
  }

  lemma JoiningSkip(s: Dense, v: nat, c: seq<Lit>, m: nat, d: seq<Lit>, k: nat)
    requires Joining(s, v, c, m, d, k) && k < |d| && (Var(d[k]) == v || s.values[d[k]] < 0 || s.marks[d[k]])
    ensures Joining(s, v, c, m, d, k + 1)
  {
    assert s.marks[d[k]] ==> d[k] in s.clause[..m];
    forall l | l in s.clause[m..] ensures l in d[..k + 1] {
      assert l in d[..k];
    }
  }

  lemma JoiningTautology(s: Dense, v: nat, c: seq<Lit>, m: nat, d: seq<Lit>, k: nat)
    requires Joining(s, v, c, m, d, k) && k < |d| && Var(d[k]) != v && Neg(d[k]) < |s.marks| && s.marks[Neg(d[k])]
    ensures Tautological(v, c, d)
  {
    SameVar(d[k], Neg(d[k]));
    assert Neg(d[k]) in c && d[k] in d;
  }

  lemma JoiningNext(s: Dense, v: nat, c: seq<Lit>, m: nat, d: seq<Lit>, k: nat)
    requires Joining(s, v, c, m, d, k) && k < |d| && Var(d[k]) != v && s.values[d[k]] == 0
    requires !s.marks[d[k]] && Neg(d[k]) < |s.marks| && !s.marks[Neg(d[k])]
    ensures Joining(s.(clause := s.clause + [d[k]]), v, c, m, d, k + 1)
  {
    var other := d[k];
    var clause := s.clause + [other];
    assert clause[..m] == s.clause[..m] && clause[m..] == s.clause[m..] + [other];
    forall l | l in s.clause ensures Var(l) != Var(other) {
      SameVar(l, other);
      SameVar(other, l);
      assert s.clause == s.clause[..m] + s.clause[m..];
      if l in s.clause[m..] {
        var i :| 0 <= i < k && d[..k][i] == l;
        assert d[i] == l;
      } else {
        assert s.marks[l];
      }
    }
    JoiningProper(|s.values|, s.clause, other);
  }

  lemma JoiningProper(n: nat, c: seq<Lit>, l: Lit)
    requires Proper(n, c) && l < n && forall x :: x in c ==> Var(x) != Var(l)
    ensures Proper(n, c + [l])
  {
  }

  lemma LargeStart(s: Dense, v: nat, p: Lit, c: seq<Lit>, d: seq<Lit>)
    requires Working(s) && Pair(s, p, c, d) && Var(p) == v
    ensures Marking(s, v, c, 0) && Proper(|s.values|, d) && s.clause == []
    ensures |s.marks| == |s.values| && s.marks == Unmarked(|s.marks|)
    ensures forall l: nat {:trigger Neg(l)} :: l < |s.values| ==> Neg(l) < |s.values|
    ensures RootSatisfied(s.values, c, v) || RootSatisfied(s.values, d, v) || Tautological(v, c, d) ==>
              Resolves(s, s, v, c, d)
  {
    forall l: nat | l < |s.values| ensures Neg(l) < |s.values| {
      assert s.values[Neg(l)] == -s.values[l];
    }
    if RootSatisfied(s.values, c, v) || RootSatisfied(s.values, d, v) || Tautological(v, c, d) {
      NothingResolved(s, v, c, d);
    }
  }

  lemma JoiningStart(s: Dense, v: nat, c: seq<Lit>, d: seq<Lit>)
    requires Marking(s, v, c, |c|) && Proper(|s.values|, d)
    ensures Joining(s, v, c, |s.clause|, d, 0)
  {
    assert s.clause[..|s.clause|] == s.clause;
    forall l | l in c && Var(l) != v ensures l in s.clause || (l < |s.values| && s.values[l] < 0) {
      var i :| 0 <= i < |c| && c[i] == l;
    }
  }

  lemma Joined(s: Dense, v: nat, c: seq<Lit>, m: nat, d: seq<Lit>)
    requires Joining(s, v, c, m, d, |d|)
    ensures Resolvent(s, v, c, d, s.clause) && Proper(|s.values|, s.clause) && Omits(s.clause, v)
    ensures forall l :: l in s.clause ==> l < |s.values| && (l in c || l in d) && s.values[l] == 0
    ensures Buffered(s.(clause := s.clause[..m]))
  {
    forall l | l in d && Var(l) != v ensures l in s.clause || (l < |s.values| && s.values[l] < 0) {
      var i :| 0 <= i < |d| && d[i] == l;
    }
  }

  lemma LargeFinish(s0: Dense, s: Dense, p: Lit, c: seq<Lit>, d: seq<Lit>)
    requires Working(s0) && Pair(s0, p, c, d) && s == s0.(clause := s.clause, marks := s.marks)
    requires |s.marks| == |s0.marks|
    requires Resolvent(s, Var(p), c, d, s.clause) && Proper(|s.values|, s.clause) && Omits(s.clause, Var(p))
    requires forall l :: l in s.clause ==> (l in c || l in d) && s.values[l] == 0
    ensures |s.clause| == 0 ==> Resolves(s0, s0.(inconsistent := true), Var(p), c, d)
    ensures |s.clause| == 1 ==> Resolves(s0, Unit(s0, s.clause[0]), Var(p), c, d) && Neg(s.clause[0]) < |s.values|
    ensures |s.clause| == 1 ==> s.clause[0] < |s.values|
    ensures |s.clause| > 1 ==> Resolves(s0, Added(s0, s.clause), Var(p), c, d)
  {
    hide Working, Resolves, Pair, Proper, Omits, Unit, Added;
    FinishedProper(|s.values|, s.clause);
    assert |s.clause| == 1 ==> s.clause[0] in s.clause;
    Finished(s0, p, c, d, s.clause);
  }

  // ------------------------------------------------------------------ occurrences of the pivot

  /** The clauses a watch list refers to contain lit; binary ones are active. */
  ghost predicate Occurs(s: Dense, lit: Lit, w: Watch) {
    && w.ref < |s.clauses| && lit in s.clauses[w.ref].lits
    && (w.binary <==> |s.clauses[w.ref].lits| == 2)
    && (w.binary ==> BinaryOf(s, Var(lit), w.lit, s.clauses[w.ref].lits) && !s.clauses[w.ref].garbage)
  }

  ghost predicate AllOccur(s: Dense, lit: Lit, ws: seq<Watch>) {
    forall i :: 0 <= i < |ws| ==> Occurs(s, lit, ws[i])
  }

  ghost predicate Listed(ws: seq<Watch>, r: nat) {
    exists i :: 0 <= i < |ws| && ws[i].ref == r
  }

  /** Every active clause with lit is on its list. */
  ghost predicate Complete(s: Dense, lit: Lit, ws: seq<Watch>) {
    forall r :: 0 <= r < |s.clauses| && !s.clauses[r].garbage && lit in s.clauses[r].lits ==> Listed(ws, r)
  }

  ghost predicate PairDone(s0: Dense, s: Dense, v: nat, cw: Watch, dw: Watch) {
    cw.ref < |s0.clauses| && dw.ref < |s0.clauses| && !s0.clauses[cw.ref].garbage && !s0.clauses[dw.ref].garbage ==>
      Covered(s, v, s0.clauses[cw.ref].lits, s0.clauses[dw.ref].lits)
  }

  ghost predicate RowDone(s0: Dense, s: Dense, v: nat, cw: Watch, neg: seq<Watch>, j: nat) {
    forall k :: 0 <= k < j && k < |neg| ==> PairDone(s0, s, v, cw, neg[k])
  }

  ghost predicate RowsDone(s0: Dense, s: Dense, v: nat, pos: seq<Watch>, neg: seq<Watch>, i: nat) {
    forall k :: 0 <= k < i && k < |pos| ==> RowDone(s0, s, v, pos[k], neg, |neg|)
  }

  lemma ProgressRefl(s: Dense, v: nat)
    requires Working(s)
    ensures Progress(s, s, v)
  {
  }

  lemma ProgressTrans(s: Dense, s': Dense, s'': Dense, v: nat)
    requires Progress(s, s', v) && Progress(s', s'', v)
    ensures Progress(s, s'', v)
  {
    hide Working, Formula, Alive, Satisfies;
    GrewTrans(s, s', s'', v);
  }

  lemma PairGrows(s0: Dense, s: Dense, s': Dense, v: nat, cw: Watch, dw: Watch)
    requires PairDone(s0, s, v, cw, dw) && Grew(s, s', v)
    ensures PairDone(s0, s', v, cw, dw)
  {
    hide Covered, Grew;
    if cw.ref < |s0.clauses| && dw.ref < |s0.clauses| && !s0.clauses[cw.ref].garbage && !s0.clauses[dw.ref].garbage {
      CoveredGrows(s, s', v, s0.clauses[cw.ref].lits, s0.clauses[dw.ref].lits);
    }
  }

  lemma RowsGrow(s0: Dense, s: Dense, s': Dense, v: nat, pos: seq<Watch>, neg: seq<Watch>, i: nat, j: nat)
    requires i < |pos| && RowsDone(s0, s, v, pos, neg, i) && RowDone(s0, s, v, pos[i], neg, j) && Grew(s, s', v)
    ensures RowsDone(s0, s', v, pos, neg, i) && RowDone(s0, s', v, pos[i], neg, j)
  {
    hide PairDone, Grew;
    forall k, m | 0 <= k < |pos| && 0 <= m < |neg| && PairDone(s0, s, v, pos[k], neg[m])
      ensures PairDone(s0, s', v, pos[k], neg[m])
    {
      PairGrows(s0, s, s', v, pos[k], neg[m]);
    }
  }

  /** Garbage clauses that were active at the start are satisfied at the root level. */
  lemma GarbagePair(s0: Dense, s: Dense, v: nat, cw: Watch, dw: Watch)
    requires Grew(s0, s, v) && cw.ref < |s0.clauses| && dw.ref < |s0.clauses|
    requires s.clauses[cw.ref].garbage || s.clauses[dw.ref].garbage
    ensures PairDone(s0, s, v, cw, dw)
  {
  }

  lemma ProgressWorking(s0: Dense, s: Dense, v: nat)
    requires Progress(s0, s, v)
    ensures Working(s)
  {
  }

  lemma RowsStart(s0: Dense, s: Dense, v: nat, pos: seq<Watch>, neg: seq<Watch>)
    ensures RowsDone(s0, s, v, pos, neg, 0)
  {
  }

  lemma RowStart(s0: Dense, s: Dense, v: nat, cw: Watch, neg: seq<Watch>)
    ensures RowDone(s0, s, v, cw, neg, 0)
  {
  }

  lemma RowEnd(s0: Dense, s: Dense, v: nat, pos: seq<Watch>, neg: seq<Watch>, i: nat)
    requires i < |pos| && RowsDone(s0, s, v, pos, neg, i) && RowDone(s0, s, v, pos[i], neg, |neg|)
    ensures RowsDone(s0, s, v, pos, neg, i + 1)
  {
    hide RowDone;
  }

  lemma OccursBoth(s: Dense, v: nat, pos: seq<Watch>, neg: seq<Watch>, i: nat, j: nat)
    requires AllOccur(s, 2 * v, pos) && AllOccur(s, 2 * v + 1, neg) && i < |pos| && j < |neg|
    ensures Occurs(s, 2 * v, pos[i]) && Occurs(s, 2 * v + 1, neg[j])
    ensures pos[i].ref < |s.clauses| && neg[j].ref < |s.clauses|
  {
    hide BinaryOf;
  }

  /** Resolving one more pair. */
  lemma StepDone(s0: Dense, s: Dense, s': Dense, v: nat, pos: seq<Watch>, neg: seq<Watch>, i: nat, j: nat)
    requires i < |pos| && j < |neg| && Progress(s0, s, v) && AllOccur(s0, 2 * v, pos) && AllOccur(s0, 2 * v + 1, neg)
    requires AllOccur(s, 2 * v, pos) && AllOccur(s, 2 * v + 1, neg)
    requires RowsDone(s0, s, v, pos, neg, i) && RowDone(s0, s, v, pos[i], neg, j)
    requires pos[i].ref < |s.clauses| && neg[j].ref < |s.clauses|
    requires if s.clauses[pos[i].ref].garbage || s.clauses[neg[j].ref].garbage then s' == s
             else Resolves(s, s', v, s.clauses[pos[i].ref].lits, s.clauses[neg[j].ref].lits)
    ensures Progress(s0, s', v) && AllOccur(s', 2 * v, pos) && AllOccur(s', 2 * v + 1, neg)
    ensures RowsDone(s0, s', v, pos, neg, i) && RowDone(s0, s', v, pos[i], neg, j + 1)
  {
    hide Working, Covered, Formula, Alive, Satisfies, BinaryOf, RowsDone;
    if s.clauses[pos[i].ref].garbage || s.clauses[neg[j].ref].garbage {
      GarbagePair(s0, s, v, pos[i], neg[j]);
    } else {
      ProgressTrans(s0, s, s', v);
      RowsGrow(s0, s, s', v, pos, neg, i, j);
      AllOccurGrows(s, s', v, pos, neg);
    }
  }

  lemma AllOccurGrows(s: Dense, s': Dense, v: nat, pos: seq<Watch>, neg: seq<Watch>)
    requires Grew(s, s', v) && AllOccur(s, 2 * v, pos) && AllOccur(s, 2 * v + 1, neg)
    ensures AllOccur(s', 2 * v, pos) && AllOccur(s', 2 * v + 1, neg)
  {
    hide Grew, Occurs;
    forall i | 0 <= i < |pos| ensures Occurs(s', 2 * v, pos[i]) {
      OccursGrows(s, s', 2 * v, pos[i]);
    }
    forall i | 0 <= i < |neg| ensures Occurs(s', 2 * v + 1, neg[i]) {
      OccursGrows(s, s', 2 * v + 1, neg[i]);
    }
  }

  /** Both clauses of a pair, as far as they are active, may be resolved. */
  lemma PairReady(s: Dense, lit: Lit, cw: Watch, dw: Watch)
    requires Working(s) && Occurs(s, lit, cw) && Occurs(s, Neg(lit), dw)
    ensures s.clauses[cw.ref].garbage || s.clauses[dw.ref].garbage ||
            Pair(s, lit, s.clauses[cw.ref].lits, s.clauses[dw.ref].lits)
    ensures Var(Neg(lit)) == Var(lit)
  {
    SameVar(lit, Neg(lit));
    assert !s.clauses[cw.ref].garbage ==> Active(s, s.clauses[cw.ref].lits);
    assert !s.clauses[dw.ref].garbage ==> Active(s, s.clauses[dw.ref].lits);
  }

  lemma OccursGrows(s: Dense, s': Dense, lit: Lit, w: Watch)
    requires Occurs(s, lit, w) && Grew(s, s', Var(lit))
    ensures Occurs(s', lit, w)
  {
  }

  // ------------------------------------------------------------------ deleting and storing clauses

  /** The literals of c[..k] but lit that are not false at the root level. */
  function WeakRest(values: seq<int>, c: seq<Lit>, lit: Lit, k: nat): (rest: seq<Lit>)
    requires k <= |c|
    ensures forall l :: l in rest ==> l in c[..k] && l != lit
    ensures forall i :: 0 <= i < k && c[i] != lit ==> c[i] in rest || (c[i] < |values| && values[c[i]] < 0)
  {
    if k == 0 then []
    else
      var rest := WeakRest(values, c, lit, k - 1);
      assert forall l :: l in c[..k - 1] ==> l in c[..k];
      if c[k - 1] == lit || (c[k - 1] < |values| && values[c[k - 1]] < 0) then rest else rest + [c[k - 1]]
  }

  function Weak(values: seq<int>, c: seq<Lit>, lit: Lit): Witness {
    Witness(lit, WeakRest(values, c, lit, |c|))
  }

  ghost predicate Pending(s: Dense, c: seq<Lit>) {
    forall l :: l in c ==> l < |s.values| && s.values[l] <= 0
  }

  /** From s0 to s the clauses on list[..i] were deleted, and the witnesses ws of clauses cs stored. */
  ghost predicate Weakens(s0: Dense, s: Dense, lit: Lit, list: seq<Watch>, i: nat, store: bool,
                          ws: seq<Witness>, cs: seq<seq<Lit>>) {
    && i <= |list| && |s.clauses| == |s0.clauses|
    && s == s0.(clauses := s.clauses, extend := s0.extend + Flat(ws))
    && (forall r :: 0 <= r < |s.clauses| ==> s.clauses[r].lits == s0.clauses[r].lits)
    && (forall r :: 0 <= r < |s.clauses| ==> (s.clauses[r].garbage <==> s0.clauses[r].garbage || Listed(list[..i], r)))
    && |cs| == |ws|
    && (forall k :: 0 <= k < |ws| ==> Active(s0, cs[k]) && lit in cs[k] && ws[k] == Weak(s0.values, cs[k], lit))
    && (if store then forall k :: 0 <= k < i ==> Stored1(s0, list[k].ref, cs) else ws == [])
  }

  /** From s0 to s the clauses on the list were deleted, and the witnesses ws stored. */
  ghost predicate Deletes(s0: Dense, s: Dense, lit: Lit, list: seq<Watch>, store: bool, ws: seq<Witness>) {
    exists cs :: Weakens(s0, s, lit, list, |list|, store, ws, cs)
  }

  ghost predicate Stored1(s: Dense, r: nat, cs: seq<seq<Lit>>) {
    r < |s.clauses| && !s.clauses[r].garbage && Pending(s, s.clauses[r].lits) ==> s.clauses[r].lits in cs
  }

  lemma WeakensStart(s: Dense, lit: Lit, list: seq<Watch>, store: bool)
    ensures Weakens(s, s, lit, list, 0, store, [], [])
  {
    assert s.extend + Flat([]) == s.extend;
  }

  ghost predicate DistinctRefs(list: seq<Watch>) {
    forall i, j :: 0 <= i < j < |list| ==> list[i].ref != list[j].ref
  }

  /** One more clause of the list is deleted without being stored. */
  lemma WeakensDelete(s0: Dense, s: Dense, lit: Lit, list: seq<Watch>, i: nat, store: bool,
                      ws: seq<Witness>, cs: seq<seq<Lit>>)
    requires Weakens(s0, s, lit, list, i, store, ws, cs) && i < |list| && list[i].ref < |s.clauses|
    requires s.clauses[list[i].ref].garbage || !store || !Pending(s0, s0.clauses[list[i].ref].lits)
    requires s.clauses[list[i].ref].garbage ==> s0.clauses[list[i].ref].garbage
    ensures Weakens(s0, Garbage(s, list[i].ref), lit, list, i + 1, store, ws, cs)
  {
    hide Entries, Weak, Pending, Listed, Flat;
    ListedNext(list, i);
  }

  /** One more clause of the list is stored and deleted. */
  lemma WeakensStore(s0: Dense, s: Dense, lit: Lit, list: seq<Watch>, i: nat, store: bool,
                     ws: seq<Witness>, cs: seq<seq<Lit>>)
    requires Weakens(s0, s, lit, list, i, store, ws, cs) && i < |list| && list[i].ref < |s.clauses|
    requires lit in s0.clauses[list[i].ref].lits && !s.clauses[list[i].ref].garbage && store
    ensures var r := list[i].ref; var c := s0.clauses[r].lits;
            Weakens(s0, Garbage(s, r).(extend := s.extend + Entries(Weak(s.values, c, lit))), lit, list, i + 1, store,
                    ws + [Weak(s.values, c, lit)], cs + [c])
  {
    hide Entries, Weak, Pending, Listed, Stored1;
    var r := list[i].ref;
    var c := s0.clauses[r].lits;
    ListedNext(list, i);
    assert Active(s0, c);
    FlatNext(s0.extend, ws, Weak(s.values, c, lit));
    forall k | 0 <= k < i + 1 && store ensures Stored1(s0, list[k].ref, cs + [c]) {
      StoredMore(s0, list[k].ref, cs, c);
    }
  }

  lemma FlatNext(e: seq<Extension>, ws: seq<Witness>, w: Witness)
    ensures e + Flat(ws + [w]) == e + Flat(ws) + Entries(w)
  {
    assert (ws + [w])[..|ws|] == ws;
  }

  lemma StoredMore(s: Dense, r: nat, cs: seq<seq<Lit>>, c: seq<Lit>)
    ensures Stored1(s, r, cs) ==> Stored1(s, r, cs + [c])
    ensures r < |s.clauses| && s.clauses[r].lits == c ==> Stored1(s, r, cs + [c])
  {
    assert (cs + [c])[|cs|] == c;
  }

  lemma ListedNext(list: seq<Watch>, i: nat)
    requires i < |list|
    ensures forall r :: Listed(list[..i + 1], r) <==> Listed(list[..i], r) || r == list[i].ref
  {
    forall r ensures Listed(list[..i + 1], r) <==> Listed(list[..i], r) || r == list[i].ref {
      if r == list[i].ref {
        assert list[..i + 1][i].ref == r;
      }
      if Listed(list[..i], r) {
        var k :| 0 <= k < i && list[..i][k].ref == r;
        assert list[..i + 1][k].ref == r;
      }
      if Listed(list[..i + 1], r) {
        var k :| 0 <= k < i + 1 && list[..i + 1][k].ref == r;
        assert k < i ==> list[..i][k].ref == r;
      }
    }
  }

  // ------------------------------------------------------------------ why elimination may be undone

  /** Every resolvent on v of active clauses is implied. */
  ghost predicate AllCovered(s: Dense, v: nat) {
    forall c, d | Active(s, c) && Active(s, d) && 2 * v in c && 2 * v + 1 in d :: Covered(s, v, c, d)
  }

  /** The clauses with the pivot are known, and may be deleted. */
  ghost predicate Removable(s: Dense, v: nat, lit: Lit, list: seq<Watch>, list': seq<Watch>) {
    && Working(s) && Alive(s) && !s.inconsistent && AllCovered(s, v)
    && v < |s.pos| && s.pos[v] < 0 && Var(lit) == v && s.values[lit] == 0
    && AllOccur(s, lit, list) && AllOccur(s, Neg(lit), list') && Complete(s, lit, list) && Complete(s, Neg(lit), list')
    && (forall u :: 0 <= u < |s.pos| ==> s.pos[u] < s.count)
  }

  function Eliminated(s: Dense, v: nat): Dense {
    s.(pos := if v < |s.pos| then s.pos[v := s.count] else s.pos, count := s.count + 1)
  }

  /** From s to t the clauses on two lists were deleted. */
  ghost predicate Removed(s: Dense, t: Dense, list: seq<Watch>, list': seq<Watch>) {
    && t.values == s.values && t.inconsistent == s.inconsistent && |t.clauses| == |s.clauses|
    && (forall r :: 0 <= r < |s.clauses| ==> t.clauses[r].lits == s.clauses[r].lits)
    && (forall r :: 0 <= r < |s.clauses| ==>
          (t.clauses[r].garbage <==> s.clauses[r].garbage || Listed(list, r) || Listed(list', r)))
  }

  /** What remains are the clauses without the pivot. */
  lemma Remaining(s: Dense, t: Dense, v: nat, lit: Lit, list: seq<Watch>, list': seq<Watch>, c: seq<Lit>)
    requires Removable(s, v, lit, list, list') && Removed(s, t, list, list')
    ensures Active(t, c) ==> Active(s, c)
    ensures Active(s, c) && Omits(c, v) ==> Active(t, c)
    ensures Active(s, c) && !Active(t, c) ==> lit in c || Neg(lit) in c
  {
    hide BinaryOf, AllCovered, Alive, Proper;
    if r :| 0 <= r < |s.clauses| && !s.clauses[r].garbage && s.clauses[r].lits == c {
      SameVar(lit, Neg(lit));
      if Listed(list, r) {
        var i :| 0 <= i < |list| && list[i].ref == r;
        assert Occurs(s, lit, list[i]);
      } else if Listed(list', r) {
        var i :| 0 <= i < |list'| && list'[i].ref == r;
        assert Occurs(s, Neg(lit), list'[i]);
      } else {
        assert !t.clauses[r].garbage;
      }
    }
  }

  /** In a model of the remaining clauses all resolvents are true or tautological. */
  lemma RemainingResolved(s: Dense, t: Dense, v: nat, lit: Lit, list: seq<Watch>, list': seq<Watch>, a: Values)
    requires Removable(s, v, lit, list, list') && Removed(s, t, list, list') && Satisfies(a, Formula(t))
    ensures Resolved(a, v, Formula(s))
  {
    hide Removable, Removed, Active;
    forall c, d | c in Formula(s) && d in Formula(s) && 2 * v in c && 2 * v + 1 in d
      ensures Tautological(v, c, d) || ResolventTrue(a, v, c, d)
    {
      CoveredTrue(s, t, v, lit, list, list', a, c, d);
    }
  }

  lemma CoveredTrue(s: Dense, t: Dense, v: nat, lit: Lit, list: seq<Watch>, list': seq<Watch>, a: Values,
                    c: seq<Lit>, d: seq<Lit>)
    requires Removable(s, v, lit, list, list') && Removed(s, t, list, list') && Satisfies(a, Formula(t))
    requires Active(s, c) && Active(s, d) && 2 * v in c && 2 * v + 1 in d
    ensures Tautological(v, c, d) || ResolventTrue(a, v, c, d)
  {
    hide Working, Alive, AllOccur, Complete, Tautological;
    assert Covered(s, v, c, d);
    if Tautological(v, c, d) {
    } else if RootSatisfied(s.values, c, v) {
      var l :| l in c && Var(l) != v && l < |s.values| && s.values[l] > 0;
      UnitTrue(t, a, l);
    } else if RootSatisfied(s.values, d, v) {
      var l :| l in d && Var(l) != v && l < |s.values| && s.values[l] > 0;
      UnitTrue(t, a, l);
    } else {
      var r: nat :| Below(s, v, c, d, r);
      var e := s.clauses[r].lits;
      Remaining(s, t, v, lit, list, list', e);
      assert e in Formula(t);
      var l :| l in e && Val(a, l) > 0;
    }
  }

  lemma UnitTrue(s: Dense, a: Values, l: Lit)
    requires Satisfies(a, Formula(s)) && l < |s.values| && s.values[l] > 0
    ensures Val(a, l) > 0
  {
    assert Active(s, [l]);
    assert True(a, [l]);
  }

  /** A stored witness is its clause without root-level false literals; its other variables go later. */
  lemma StoredStems(s: Dense, t: Dense, v: nat, lit: Lit, a: Values, pos': seq<int>, c: seq<Lit>)
    requires Working(s) && Alive(s) && Active(s, c) && |c| > 0 && lit in c && Var(lit) == v < |s.pos|
    requires s.values[lit] == 0
    requires t.values == s.values && Satisfies(a, Formula(t))
    requires Continues(s.pos[v := s.count], pos', s.count + 1) && Partial(a, pos', s.count + 1)
    ensures Stems(a, Weak(s.values, c, lit), c) && Ordered(a, pos', Weak(s.values, c, lit)) && c in Formula(s)
  {
    hide Satisfies, Weak, Stems, Ordered, Continues, Partial, Alive;
    StoredProper(s, c, lit);
    StoredStem(s, t, lit, a, c);
    StoredOrdered(s, v, lit, a, pos', c);
  }

  lemma StoredStem(s: Dense, t: Dense, lit: Lit, a: Values, c: seq<Lit>)
    requires Working(s) && lit in c && Neg(lit) !in c && Proper(|s.values|, c) && t.values == s.values
    requires Satisfies(a, Formula(t))
    ensures Stems(a, Weak(s.values, c, lit), c)
  {
    hide Satisfies;
    var w := Weak(s.values, c, lit);
    assert c[..|c|] == c;
    forall l | l in c && l != lit ensures l in w.rest || Val(a, l) < 0 {
      var i :| 0 <= i < |c| && c[i] == l;
      if l !in w.rest {
        RootFalse2(s, t, a, l);
      }
    }
  }

  lemma RootFalse2(s: Dense, t: Dense, a: Values, l: Lit)
    requires Working(s) && t.values == s.values && Satisfies(a, Formula(t)) && l < |s.values| && s.values[l] < 0
    ensures Val(a, l) < 0
  {
    hide Satisfies;
    assert s.values[Neg(l)] == -s.values[l];
    SameVar(l, Neg(l));
    UnitTrue(t, a, Neg(l));
  }

  lemma StoredOrdered(s: Dense, v: nat, lit: Lit, a: Values, pos': seq<int>, c: seq<Lit>)
    requires Alive(s) && Active(s, c) && lit in c && Var(lit) == v < |s.pos| && Proper(2 * |s.pos|, c)
    requires Continues(s.pos[v := s.count], pos', s.count + 1) && Partial(a, pos', s.count + 1)
    ensures Ordered(a, pos', Weak(s.values, c, lit))
  {
    hide Active;
    var w := Weak(s.values, c, lit);
    assert c[..|c|] == c;
    assert s.pos[v := s.count][v] == s.count;
    forall l | l in w.rest
      ensures Var(l) < |a| && Var(l) != v && (Val(a, l) == 0 ==> Pos(pos', l) > s.count)
    {
      assert l in c && l != lit && Pos(s.pos, l) < 0;
      assert s.pos[v := s.count][Var(l)] == s.pos[Var(l)];
    }
  }

  lemma StoredProper(s: Dense, c: seq<Lit>, lit: Lit)
    requires Working(s) && Active(s, c) && |c| > 0 && lit in c && lit < |s.values| && s.values[lit] == 0
    ensures Proper(|s.values|, c) && Neg(lit) !in c && |s.values| == 2 * |s.pos|
  {
    SameVar(lit, Neg(lit));
    if r :| 0 <= r < |s.clauses| && !s.clauses[r].garbage && s.clauses[r].lits == c {
      assert Proper(|s.values|, c);
    }
  }

  /** The witnesses of one polarity: each comes from an active clause, and none is missing. */
  lemma DeletedWitnesses(s: Dense, s1: Dense, t: Dense, t': Dense, v: nat, lit: Lit, list: seq<Watch>, store: bool,
                         ws: seq<Witness>, a: Values, pos': seq<int>) returns (cs: seq<seq<Lit>>)
    requires Working(s) && Alive(s) && !s.inconsistent && Var(lit) == v < |s.pos| && s.values[lit] == 0
    requires Deletes(s1, t, lit, list, store, ws)
    requires s1.values == s.values && forall c :: Active(s1, c) ==> Active(s, c)
    requires t'.values == s.values && Satisfies(a, Formula(t'))
    requires Continues(s.pos[v := s.count], pos', s.count + 1) && Partial(a, pos', s.count + 1)
    ensures Witnesses(a, pos', Formula(s), v, ws, cs)
    ensures store ==> forall k :: 0 <= k < |list| ==> Stored1(s1, list[k].ref, cs)
  {
    hide Working, Alive, Formula, Satisfies, Continues, Partial, Stems, Ordered, Weak, Active, Stored1;
    cs :| Weakens(s1, t, lit, list, |list|, store, ws, cs);
    forall i | 0 <= i < |ws|
      ensures Var(ws[i].blocking) == v && Ordered(a, pos', ws[i]) && cs[i] in Formula(s) && Stems(a, ws[i], cs[i])
    {
      assert lit in cs[i];
      StoredStems(s, t', v, lit, a, pos', cs[i]);
      WeakBlocks(s.values, cs[i], lit);
    }
  }

  lemma WeakBlocks(values: seq<int>, c: seq<Lit>, lit: Lit)
    ensures Weak(values, c, lit).blocking == lit
  {
  }

  /** A clause with lit is stored, or satisfied at the root level. */
  lemma StoredOrTrue(s: Dense, s1: Dense, t: Dense, lit: Lit, list: seq<Watch>, cs: seq<seq<Lit>>,
                     a: Values, c: seq<Lit>)
    requires Working(s) && !s.inconsistent && lit < |s.values| && s.values[lit] == 0 && Complete(s, lit, list)
    requires Active(s, c) && lit in c && forall k :: 0 <= k < |list| ==> Stored1(s1, list[k].ref, cs)
    requires s1.values == s.values && |s1.clauses| == |s.clauses|
    requires forall r :: 0 <= r < |s.clauses| ==> s1.clauses[r].lits == s.clauses[r].lits
    requires forall r :: 0 <= r < |s.clauses| && lit in s.clauses[r].lits ==>
                         s1.clauses[r].garbage == s.clauses[r].garbage
    requires t.values == s.values && Satisfies(a, Formula(t))
    ensures True(a, c) || c in cs
  {
    hide Satisfies;
    var r :| 0 <= r < |s.clauses| && !s.clauses[r].garbage && s.clauses[r].lits == c;
    var k :| 0 <= k < |list| && list[k].ref == r;
    assert Stored1(s1, list[k].ref, cs) && Proper(|s.values|, c);
    if !Pending(s1, c) {
      var l :| l in c && (l >= |s.values| || s.values[l] > 0);
      UnitTrue(t, a, l);
    }
  }

  /** How a variable was removed: both polarities stored, or one, and the other by default. */
  ghost predicate Removal(s: Dense, t1: Dense, t2: Dense, v: nat, lit: Lit, list: seq<Watch>, list': seq<Watch>,
                          both: bool, ws1: seq<Witness>, ws2: seq<Witness>) {
    && Removable(s, v, lit, list, list')
    && Deletes(Eliminated(s, v), t1, lit, list, true, ws1) && Deletes(t1, t2, Neg(lit), list', both, ws2)
  }

  lemma RemovalFacts(s: Dense, t1: Dense, t2: Dense, v: nat, lit: Lit, list: seq<Watch>, list': seq<Watch>,
                     both: bool, ws1: seq<Witness>, ws2: seq<Witness>)
    requires Removal(s, t1, t2, v, lit, list, list', both, ws1, ws2)
    ensures Removed(s, t2, list, list') && t1.values == t2.values == s.values && |t1.clauses| == |s.clauses|
    ensures forall r :: 0 <= r < |s.clauses| ==> t1.clauses[r].lits == s.clauses[r].lits
    ensures forall r :: 0 <= r < |s.clauses| && Neg(lit) in s.clauses[r].lits ==>
                        t1.clauses[r].garbage == s.clauses[r].garbage
    ensures forall c :: Active(t1, c) ==> Active(s, c)
    ensures forall c :: Active(Eliminated(s, v), c) <==> Active(s, c)
    ensures lit < |s.values| && Neg(lit) < |s.values| && s.values[Neg(lit)] == 0
  {
    hide Alive, AllCovered, BinaryOf, Stored1, Flat;
    var cs1 :| Weakens(Eliminated(s, v), t1, lit, list, |list|, true, ws1, cs1);
    var cs2 :| Weakens(t1, t2, Neg(lit), list', |list'|, both, ws2, cs2);
    assert list[..|list|] == list && list'[..|list'|] == list';
    assert s.values[Neg(lit)] == -s.values[lit];
    SameVar(lit, Neg(lit));
    forall r | 0 <= r < |s.clauses| && Neg(lit) in s.clauses[r].lits ensures !Listed(list, r) {
      NotBoth(s, lit, list, r);
    }
  }

  /** No clause contains both literals of the pivot. */
  lemma NotBoth(s: Dense, lit: Lit, list: seq<Watch>, r: nat)
    requires Working(s) && AllOccur(s, lit, list) && r < |s.clauses| && Neg(lit) in s.clauses[r].lits
    ensures !Listed(list, r)
  {
    SameVar(lit, Neg(lit));
    assert Proper(|s.values|, s.clauses[r].lits);
    forall i | 0 <= i < |list| ensures list[i].ref != r {
      assert Occurs(s, lit, list[i]);
    }
  }

  /** A removed variable may be reconstructed. */
  lemma RemovalEliminates(s: Dense, t1: Dense, t2: Dense, v: nat, lit: Lit, list: seq<Watch>, list': seq<Watch>,
                          both: bool, ws1: seq<Witness>, ws2: seq<Witness>, unit: seq<Witness>,
                              a: Values, pos': seq<int>)
    requires Removal(s, t1, t2, v, lit, list, list', both, ws1, ws2)
    requires if both then unit == [] else ws2 == [] && (unit == [Witness(Neg(lit), [])] || (unit == [] && list' == []))
    requires Continues(s.pos[v := s.count], pos', s.count + 1) && Partial(a, pos', s.count + 1)
    requires Satisfies(a, Formula(t2))
    ensures Eliminates(a, pos', Formula(s), Formula(t2), v, ws1 + ws2 + unit)
  {
    hide Working, Alive, AllCovered, AllOccur, Complete, Deletes, Removed, Resolved,
         Witnesses, Satisfies, Active, Stored1, True;
    RemovalFacts(s, t1, t2, v, lit, list, list', both, ws1, ws2);
    SameVar(lit, Neg(lit));
    SameVar(lit, 2 * v);
    RemainingResolved(s, t2, v, lit, list, list', a);
    forall c | c in Formula(s) && c !in Formula(t2) ensures True(a, c) || 2 * v in c || 2 * v + 1 in c {
      Remaining(s, t2, v, lit, list, list', c);
    }
    var cs1 := DeletedWitnesses(s, Eliminated(s, v), t1, t2, v, lit, list, true, ws1, a, pos');
    var cs2 := DeletedWitnesses(s, t1, t2, t2, v, Neg(lit), list', both, ws2, a, pos');
    forall c | c in Formula(s) && lit in c ensures True(a, c) || c in cs1 {
      StoredOrTrue(s, Eliminated(s, v), t2, lit, list, cs1, a, c);
    }
    if both || unit == [] {
      forall c | c in Formula(s) && Neg(lit) in c ensures True(a, c) || c in cs2 {
        StoredOrTrue(s, t1, t2, Neg(lit), list', cs2, a, c);
      }
    }
    WitnessesJoin(a, pos', Formula(s), v, ws1, ws2, cs1, cs2);
    assert s.pos[v := s.count][v] == s.count;
    var ws, cs := ws1 + ws2 + unit, cs1 + cs2;
    assert ws[..|cs|] == ws1 + ws2 && ws[|cs|..] == unit;
    assert Stored(a, pos', Formula(s), v, ws, cs, unit, lit);
  }

  lemma WitnessesJoin(a: Values, pos: seq<int>, f: Clauses, v: nat, ws1: seq<Witness>, ws2: seq<Witness>,
                      cs1: seq<seq<Lit>>, cs2: seq<seq<Lit>>)
    requires Witnesses(a, pos, f, v, ws1, cs1) && Witnesses(a, pos, f, v, ws2, cs2)
    ensures Witnesses(a, pos, f, v, ws1 + ws2, cs1 + cs2) && |cs1| == |ws1| && |cs2| == |ws2|
  {
    hide Ordered, Stems;
  }

  /** What elimination of v demands. */
  ghost predicate Eliminable(s: Dense, v: nat, pos: seq<Watch>, neg: seq<Watch>) {
    && Working(s) && Alive(s) && !s.inconsistent
    && v < |s.pos| && s.pos[v] < 0 && s.values[2 * v] == 0 && (forall u :: 0 <= u < |s.pos| ==> s.pos[u] < s.count)
    && AllOccur(s, 2 * v, pos) && AllOccur(s, 2 * v + 1, neg)
    && Complete(s, 2 * v, pos) && Complete(s, 2 * v + 1, neg) && DistinctRefs(pos) && DistinctRefs(neg)
  }

  lemma EliminableParts(s: Dense, v: nat, pos: seq<Watch>, neg: seq<Watch>)
    requires Eliminable(s, v, pos, neg)
    ensures Working(s) && !s.inconsistent && AllOccur(s, 2 * v, pos) && AllOccur(s, 2 * v + 1, neg)
    ensures DistinctRefs(pos) && DistinctRefs(neg) && v < |s.pos|
  {
  }

  lemma ProgressFormula(s: Dense, s': Dense, v: nat)
    requires Progress(s, s', v)
    ensures forall a: Values | Satisfies(a, Formula(s)) :: Satisfies(a, Formula(s'))
    ensures Working(s') && s'.extend == s.extend && s'.pos == s.pos && s'.count == s.count
  {
  }

  /** After all pairs have been resolved, the clauses of the pivot may be removed. */
  lemma ResolvedRemovable(s0: Dense, s: Dense, v: nat, pos: seq<Watch>, neg: seq<Watch>)
    requires Eliminable(s0, v, pos, neg) && Progress(s0, s, v) && !s.inconsistent && RowsDone(s0, s, v, pos, neg, |pos|)
    requires AllOccur(s, 2 * v, pos) && AllOccur(s, 2 * v + 1, neg)
    ensures Removable(s, v, 2 * v, pos, neg)
  {
    hide Covered, BinaryOf, Formula, Satisfies;
    assert Var(2 * v) == Var(2 * v + 1) == v && Neg(2 * v) == 2 * v + 1;
    forall c, d | Active(s, c) && Active(s, d) && 2 * v in c && 2 * v + 1 in d ensures Covered(s, v, c, d) {
      var r := OldClause(s0, s, v, c, 2 * v);
      var q := OldClause(s0, s, v, d, 2 * v + 1);
      var i :| 0 <= i < |pos| && pos[i].ref == r;
      var j :| 0 <= j < |neg| && neg[j].ref == q;
      assert RowDone(s0, s, v, pos[i], neg, |neg|);
      assert PairDone(s0, s, v, pos[i], neg[j]);
    }
  }

  /** An active clause with the pivot was there before. */
  lemma OldClause(s0: Dense, s: Dense, v: nat, c: seq<Lit>, l: Lit) returns (r: nat)
    requires Working(s0) && Working(s) && Grew(s0, s, v) && Active(s, c) && l in c && Var(l) == v < |s0.pos|
    requires !s.inconsistent
    requires s0.values[2 * v] == 0
    ensures r < |s0.clauses| && !s0.clauses[r].garbage && s0.clauses[r].lits == c && r < |s.clauses|
    ensures !s.clauses[r].garbage
  {
    SameVar(l, 2 * v);
    assert s0.values[Neg(2 * v)] == -s0.values[2 * v];
    assert s.values[l] == 0;
    r :| 0 <= r < |s.clauses| && !s.clauses[r].garbage && s.clauses[r].lits == c;
  }

  lemma RemovableParts(s: Dense, v: nat, lit: Lit, list: seq<Watch>, list': seq<Watch>)
    requires Removable(s, v, lit, list, list')
    ensures v < |s.pos| && lit < |s.values| && s.values[lit] == 0 && Neg(lit) < |s.values| && s.values[Neg(lit)] == 0
    ensures Working(Eliminated(s, v)) && AllOccur(Eliminated(s, v), lit, list)
    ensures AllOccur(Eliminated(s, v), Neg(lit), list')
    ensures !s.inconsistent && Var(lit) == v && Var(Neg(lit)) == v
  {
    SameVar(lit, Neg(lit));
    assert s.values[Neg(lit)] == -s.values[lit];
    assert |s.pos[v := s.count]| == |s.pos|;
    forall i | 0 <= i < |list| ensures Occurs(Eliminated(s, v), lit, list[i]) {
      assert Occurs(s, lit, list[i]);
    }
    forall i | 0 <= i < |list'| ensures Occurs(Eliminated(s, v), Neg(lit), list'[i]) {
      assert Occurs(s, Neg(lit), list'[i]);
    }
  }

  /** Deleting the clauses of one polarity leaves those of the other alone. */
  lemma DeletesKeeps(s: Dense, t: Dense, v: nat, lit: Lit, list: seq<Watch>, list': seq<Watch>,
                     store: bool, ws: seq<Witness>)
    requires Working(s) && AllOccur(s, lit, list) && AllOccur(s, Neg(lit), list') && Deletes(s, t, lit, list, store, ws)
    ensures Working(t) && AllOccur(t, Neg(lit), list') && t.values == s.values && t.pos == s.pos && t.count == s.count
    ensures t.inconsistent == s.inconsistent && t.extend == s.extend + Flat(ws)
  {
    hide Alive, Flat, Stored1;
    var cs :| Weakens(s, t, lit, list, |list|, store, ws, cs);
    assert list[..|list|] == list;
    forall i | 0 <= i < |list'| ensures Occurs(t, Neg(lit), list'[i]) {
      assert Occurs(s, Neg(lit), list'[i]);
      NotBoth(s, lit, list, list'[i].ref);
    }
  }

  lemma {:induction false} FlatJoin(ws: seq<Witness>, ws': seq<Witness>)
    ensures Flat(ws + ws') == Flat(ws) + Flat(ws')
    decreases |ws'|
  {
    hide Entries, Flat;
    if ws' == [] {
      assert ws + ws' == ws;
      FlatNone();
    } else {
      var front, w := ws'[..|ws'| - 1], ws'[|ws'| - 1];
      FlatJoin(ws, front);
      FlatOne(ws + front, w);
      FlatOne(front, w);
      assert front + [w] == ws' && ws + ws' == ws + front + [w];
    }
  }

  lemma FlatNone()
    ensures Flat([]) == []
  {
  }

  /** A run of eliminations goes on. */
  lemma RemovalRun(s0: Dense, s: Dense, t1: Dense, t2: Dense, v: nat, lit: Lit, list: seq<Watch>, list': seq<Watch>,
                   both: bool, ws1: seq<Witness>, ws2: seq<Witness>, unit: seq<Witness>, es: seq<Witness>)
    requires Removal(s, t1, t2, v, lit, list, list', both, ws1, ws2) && Progress(s0, s, v)
    requires if both then unit == [] else ws2 == [] && (unit == [Witness(Neg(lit), [])] || (unit == [] && list' == []))
    ensures Alive(t2)
    ensures forall a: Values | Satisfies(a, Formula(s)) :: Satisfies(a, Formula(t2))
    ensures forall f0 :: Reconstructs(f0, Formula(s0), s0.pos, s0.count, es) ==>
              Reconstructs(f0, Formula(t2), s.pos[v := s.count], s.count + 1, es + (ws1 + ws2 + unit))
  {
    hide Reconstructs, Satisfies, Eliminates, Removal, Continues, Partial, Active;
    RemovalFormula(s, t1, t2, v, lit, list, list', both, ws1, ws2);
    forall f0 | Reconstructs(f0, Formula(s0), s0.pos, s0.count, es)
      ensures Reconstructs(f0, Formula(t2), s.pos[v := s.count], s.count + 1, es + (ws1 + ws2 + unit))
    {
      ProgressRun(f0, s0, s, v, es);
      forall a: Values, pos' | Continues(s.pos[v := s.count], pos', s.count + 1) && Partial(a, pos', s.count + 1) &&
                               Satisfies(a, Formula(t2))
        ensures Eliminates(a, pos', Formula(s), Formula(t2), v, ws1 + ws2 + unit)
      {
        RemovalEliminates(s, t1, t2, v, lit, list, list', both, ws1, ws2, unit, a, pos');
      }
      RunStep(f0, Formula(s), Formula(t2), s.pos, s.count, es, v, ws1 + ws2 + unit);
    }
  }

  lemma RemovalFormula(s: Dense, t1: Dense, t2: Dense, v: nat, lit: Lit, list: seq<Watch>, list': seq<Watch>,
                       both: bool, ws1: seq<Witness>, ws2: seq<Witness>)
    requires Removal(s, t1, t2, v, lit, list, list', both, ws1, ws2)
    ensures Alive(t2) && v < |s.pos| && s.pos[v] < 0 && forall u :: 0 <= u < |s.pos| ==> s.pos[u] < s.count
    ensures forall a: Values | Satisfies(a, Formula(s)) :: Satisfies(a, Formula(t2))
  {
    hide Working, AllCovered, BinaryOf, Active;
    RemovalFacts(s, t1, t2, v, lit, list, list', both, ws1, ws2);
    forall c | c in Formula(t2) ensures c in Formula(s) {
      Remaining(s, t2, v, lit, list, list', c);
    }
    forall c, l | c in Formula(t2) && l in c ensures Pos(t2.pos, l) < 0 {
      assert Pos(s.pos, l) < 0;
      RemainingWithout(s, t1, t2, v, lit, list, list', both, ws1, ws2, c);
    }
  }

  /** No clause with the pivot remains. */
  lemma RemainingWithout(s: Dense, t1: Dense, t2: Dense, v: nat, lit: Lit, list: seq<Watch>, list': seq<Watch>,
                         both: bool, ws1: seq<Witness>, ws2: seq<Witness>, c: seq<Lit>)
    requires Removal(s, t1, t2, v, lit, list, list', both, ws1, ws2) && Active(t2, c)
    ensures Omits(c, v) && t2.pos == s.pos[v := s.count]
  {
    hide AllCovered, Alive, BinaryOf, Stored1, Flat;
    RemovalFacts(s, t1, t2, v, lit, list, list', both, ws1, ws2);
    var cs1 :| Weakens(Eliminated(s, v), t1, lit, list, |list|, true, ws1, cs1);
    var cs2 :| Weakens(t1, t2, Neg(lit), list', |list'|, both, ws2, cs2);
    forall l | l in c ensures Var(l) != v {
      SameVar(l, lit);
      if r :| 0 <= r < |t2.clauses| && !t2.clauses[r].garbage && t2.clauses[r].lits == c {
        assert !s.clauses[r].garbage && !Listed(list, r) && !Listed(list', r);
      }
    }
  }

  lemma ProgressRun(f0: Clauses, s0: Dense, s: Dense, v: nat, es: seq<Witness>)
    requires Reconstructs(f0, Formula(s0), s0.pos, s0.count, es) && Progress(s0, s, v)
    ensures Reconstructs(f0, Formula(s), s.pos, s.count, es)
  {
    hide Satisfies, Working, Alive, Reconstructs;
    forall a: Values | Satisfies(a, Formula(s)) ensures Satisfies(a, Formula(s0)) {
      ProgressBack(s0, s, v, a);
    }
    RunStronger(f0, Formula(s0), Formula(s), s.pos, s.count, es);
  }

  /** Only clauses satisfied at the root level were deleted. */
  lemma ProgressBack(s0: Dense, s: Dense, v: nat, a: Values)
    requires Progress(s0, s, v) && Satisfies(a, Formula(s))
    ensures Satisfies(a, Formula(s0))
  {
    hide Working, Alive;
    forall c | c in Formula(s0) ensures True(a, c) {
      if r :| 0 <= r < |s0.clauses| && !s0.clauses[r].garbage && s0.clauses[r].lits == c {
        if s.clauses[r].garbage {
          var l :| l in c && Var(l) != v && l < |s.values| && s.values[l] > 0;
          UnitTrue(s, a, l);
        } else {
          assert Active(s, c);
        }
      } else {
        assert Active(s, c);
      }
    }
  }

  lemma NothingOccurs(s: Dense, lit: Lit)
    ensures AllOccur(s, lit, [])
  {
  }

  lemma RemovableWorking(s: Dense, v: nat, lit: Lit, list: seq<Watch>, list': seq<Watch>)
    requires Removable(s, v, lit, list, list')
    ensures Working(s) && v < |s.pos| && Var(lit) == v
  {
  }

  /** Omits storing the second polarity there are no witnesses for it. */
  lemma RemovalSecond(s: Dense, t1: Dense, t2: Dense, v: nat, lit: Lit, list: seq<Watch>, list': seq<Watch>,
                      both: bool, ws1: seq<Witness>, ws2: seq<Witness>)
    requires Removal(s, t1, t2, v, lit, list, list', both, ws1, ws2)
    ensures !both ==> ws2 == []
  {
    hide Removable, Stored1, Flat;
  }

  lemma ExtendFormula(s: Dense, s': Dense)
    requires s' == s.(extend := s'.extend)
    ensures Formula(s') == Formula(s) && (Working(s) ==> Working(s')) && (Alive(s) ==> Alive(s'))
  {
    assert forall c :: Active(s, c) <==> Active(s', c);
    hide Active;
  }

  lemma FlatOne(ws: seq<Witness>, w: Witness)
    ensures Flat(ws + [w]) == Flat(ws) + Entries(w)
  {
    assert (ws + [w])[..|ws|] == ws;
  }

  /** The literals of the witnesses are in range, and the blocking ones are eliminated. */
  ghost predicate AllKnown(s: Dense, ws: seq<Witness>) {
    && (forall u :: 0 <= u < |s.pos| ==> s.pos[u] < s.count)
    && forall i :: 0 <= i < |ws| ==> KnownWitness(s.pos, ws[i])
  }

  ghost predicate KnownWitness(pos: seq<int>, w: Witness) {
    (forall l :: l in Lits(w) ==> Var(l) < |pos|) && Var(w.blocking) < |pos| && pos[Var(w.blocking)] >= 0
  }

  lemma NothingEliminated(s: Dense)
    requires forall u :: 0 <= u < |s.pos| ==> s.pos[u] == -1
    ensures Alive(s) && (s.count == 0 ==> AllKnown(s, []))
  {
  }

  /** The witnesses stored for a variable are its clauses. */
  lemma DeletesKnown(s0: Dense, s: Dense, t: Dense, lit: Lit, list: seq<Watch>, store: bool, ws: seq<Witness>)
    requires Working(s0) && Deletes(s0, s, lit, list, store, ws) && |t.pos| == |s0.pos|
    requires Var(lit) < |s0.pos| && t.pos[Var(lit)] >= 0
    ensures forall i :: 0 <= i < |ws| ==> KnownWitness(t.pos, ws[i])
  {
    hide Flat, Stored1, Listed;
    var cs :| Weakens(s0, s, lit, list, |list|, store, ws, cs);
    forall i | 0 <= i < |ws| ensures KnownWitness(t.pos, ws[i]) {
      assert Active(s0, cs[i]) && ws[i] == Weak(s0.values, cs[i], lit);
      ActiveRange(s0, cs[i]);
      WeakMembers(s0.values, cs[i], lit);
    }
  }

  lemma WeakMembers(values: seq<int>, c: seq<Lit>, lit: Lit)
    requires lit in c
    ensures Weak(values, c, lit).blocking == lit && forall l :: l in Lits(Weak(values, c, lit)) ==> l in c
  {
    assert c[..|c|] == c;
  }

  lemma ActiveRange(s: Dense, c: seq<Lit>)
    requires Working(s) && Active(s, c)
    ensures forall l :: l in c ==> Var(l) < |s.pos|
  {
  }

  lemma ProgressKnown(s0: Dense, s: Dense, v: nat, ws: seq<Witness>)
    requires Progress(s0, s, v) && AllKnown(s0, ws)
    ensures AllKnown(s, ws) && s.count == s0.count && s.pos == s0.pos
  {
  }

  lemma UnitKnown(s: Dense, v: nat, lit: Lit, unit: seq<Witness>)
    requires v < |s.pos| && s.pos[v] >= 0 && Var(lit) == v && (unit == [] || unit == [Witness(Neg(lit), [])])
    ensures forall i :: 0 <= i < |unit| ==> KnownWitness(s.pos, unit[i])
  {
    SameVar(lit, Neg(lit));
  }

  lemma JoinKnown(pos: seq<int>, ws: seq<Witness>, ws': seq<Witness>)
    requires forall i :: 0 <= i < |ws| ==> KnownWitness(pos, ws[i])
    requires forall i :: 0 <= i < |ws'| ==> KnownWitness(pos, ws'[i])
    ensures forall i :: 0 <= i < |ws + ws'| ==> KnownWitness(pos, (ws + ws')[i])
  {
    hide KnownWitness;
  }

  lemma KnownStays(s: Dense, t: Dense, ws: seq<Witness>, v: nat, more: seq<Witness>)
    requires AllKnown(s, ws) && v < |s.pos| && t.pos == s.pos[v := s.count] && t.count == s.count + 1
    requires forall i :: 0 <= i < |more| ==> KnownWitness(t.pos, more[i])
    ensures AllKnown(t, ws + more)
  {
  }

  class Eliminator {
    var s: Dense
    /** The witnesses on the extension stack, and the formula at the start. */
    ghost var witnesses: seq<Witness>
    ghost const original: Clauses

    /** Between eliminations: replaying the witnesses turns a model of the formula into one of the original. */
    ghost predicate Valid()
      reads this
    {
      && Working(s) && Alive(s) && s.extend == Flat(witnesses) && AllKnown(s, witnesses)
      && Reconstructs(original, Formula(s), s.pos, s.count, witnesses)
    }

    /** Nothing has been eliminated yet. */
    constructor (values: seq<int>, clauses: seq<Clause>)
      requires |values| % 2 == 0 && Opposite(values)
      requires forall r :: 0 <= r < |clauses| ==> Proper(|values|, clauses[r].lits)
      ensures Valid() && s.values == values && s.clauses == clauses && !s.inconsistent && witnesses == []
      ensures original == Formula(s)
    {
      hide Reconstructs, Formula;
      var n := |values|;
      var dense := Dense(values, seq(n, _ => false), [], clauses, false, [], seq(n / 2, _ => -1), 0);
      s, witnesses, original := dense, [], Formula(dense);
      NothingEliminated(dense);
      RunStart(Formula(dense), dense.pos);
    }

    method LearnUnit(l: Lit)
      requires l < |s.values| && Neg(l) < |s.values|
      modifies this`s
      ensures s == Unit(old(s), l)
    {
      s := s.(values := s.values[l := 1][Neg(l) := -1]);
    }

    method NewClause()
      modifies this`s
      ensures s == Added(old(s), old(s).clause)
    {
      s := s.(clauses := s.clauses + [Clause(s.clause, false)]);
    }

    method MarkGarbage(r: nat)
      requires r < |s.clauses|
      modifies this`s
      ensures s == Garbage(old(s), r)
    {
      s := s.(clauses := s.clauses[r := s.clauses[r].(garbage := true)]);
    }

    method ResolveBinaryBinary(v: nat, clit: Lit, dlit: Lit, ghost p: Lit, ghost c: seq<Lit>, ghost d: seq<Lit>)
      requires Working(s) && !s.inconsistent && BinaryOf(s, v, clit, c) && BinaryOf(s, v, dlit, d)
      requires Pair(s, p, c, d) && Var(p) == v
      modifies this`s
      ensures Resolves(old(s), s, v, c, d)
    {
      hide Working, Resolves, Pair;
      BinaryFacts(s, v, clit, dlit, c, d);
      if clit == Neg(dlit) {
        return;
      }
      var cval := s.values[clit];
      if cval > 0 {
        return;
      }
      var dval := s.values[dlit];
      if dval > 0 {
        return;
      }
      if cval < 0 && dval < 0 {
        EmptyResolves(s, p, c, d);
        s := s.(inconsistent := true);
        return;
      }
      if cval < 0 {
        UnitResolves(s, p, dlit, c, d);
        LearnUnit(dlit);
        return;
      }
      if dval < 0 {
        UnitResolves(s, p, clit, c, d);
        LearnUnit(clit);
        return;
      }
      if clit == dlit {
        UnitResolves(s, p, clit, c, d);
        LearnUnit(clit);
        return;
      }
      AddedResolves(s, p, [clit, dlit], c, d);
      s := s.(clause := s.clause + [clit]);
      s := s.(clause := s.clause + [dlit]);
      assert s.clause == [clit, dlit];
      NewClause();
      s := s.(clause := []);
    }

    method ResolveBinaryLarge(v: nat, lit: Lit, ref: nat, ghost p: Lit, ghost b: seq<Lit>)
      requires Working(s) && !s.inconsistent && BinaryOf(s, v, lit, b) && ref < |s.clauses|
      requires Var(p) == v && |s.clauses[ref].lits| != 2
      requires s.clauses[ref].garbage || Pair(s, p, b, s.clauses[ref].lits) || Pair(s, p, s.clauses[ref].lits, b)
      modifies this`s
      ensures if old(s).clauses[ref].garbage then s == old(s) else Resolves(old(s), s, v, b, old(s).clauses[ref].lits)
    {
      hide Working, Resolves, Pair, Collecting;
      LargeFacts(s, v, lit, b, ref);
      var c := s.clauses[ref].lits;
      CollectStart(s, v, lit, c);
      if s.clauses[ref].garbage {
        return;
      }
      var litVal := s.values[lit];
      if litVal > 0 {
        return;
      }
      if litVal == 0 {
        s := s.(clause := s.clause + [lit]);
        assert s.clause == [lit];
      }
      var satisfied, tautological := false, false;
      for k := 0 to |c|
        invariant s == old(s).(clause := s.clause) && Collecting(s, v, lit, c, k)
        invariant !satisfied && !tautological
      {
        var other := c[k];
        if Var(other) == v {
          CollectSkip(s, v, lit, c, k);
          continue;
        }
        if other == lit {
          CollectSkip(s, v, lit, c, k);
          continue;
        }
        if other == Neg(lit) {
          assert c[k] in c;
          tautological := true;
          break;
        }
        CollectTrue(old(s), v, lit, p, b, ref, k);
        var otherVal := s.values[other];
        if otherVal < 0 {
          CollectSkip(s, v, lit, c, k);
          continue;
        }
        if otherVal > 0 {
          MarkGarbage(ref);
          satisfied := true;
          break;
        }
        CollectOne(s, v, lit, c, k);
        s := s.(clause := s.clause + [other]);
      }
      if satisfied || tautological {
        s := s.(clause := []);
        return;
      }
      assert s.(clause := []) == old(s);
      Collected(s, v, lit, b, c);
      FinishResolvent(v, p, b, c);
    }

    /** Forgets the marks of the literals in the buffer. */
    method UnmarkBuffer()
      requires Buffered(s)
      modifies this`s
      ensures s == old(s).(marks := Unmarked(|old(s).marks|))
    {
      for k := 0 to |s.clause|
        invariant s == old(s).(marks := s.marks) && |s.marks| == |old(s).marks|
        invariant forall l: nat :: l < |s.marks| && s.marks[l] ==> l in s.clause[k..]
      {
        assert s.clause[k] in s.clause;
        s := s.(marks := s.marks[s.clause[k] := false]);
      }
      assert s.marks == Unmarked(|old(s).marks|);
    }

    /** Reads the first clause into the buffer, marking its literals; stops at a true one. */
    method ReadFirst(v: nat, c: seq<Lit>) returns (satisfied: bool)
      requires Marking(s, v, c, 0)
      modifies this`s
      ensures s == old(s).(clause := s.clause, marks := s.marks) && Buffered(s) && |s.marks| == |old(s).marks|
      ensures satisfied ==> RootSatisfied(s.values, c, v)
      ensures !satisfied ==> Marking(s, v, c, |c|)
    {
      hide Proper;
      satisfied := false;
      for k := 0 to |c|
        invariant s == old(s).(clause := s.clause, marks := s.marks) && |s.marks| == |old(s).marks|
        invariant Marking(s, v, c, k) && !satisfied
      {
        var other := c[k];
        MarkingBound(s, v, c, k);
        if Var(other) == v {
          MarkingSkip(s, v, c, k);
          continue;
        }
        var otherVal := s.values[other];
        if otherVal < 0 {
          MarkingSkip(s, v, c, k);
          continue;
        }
        if otherVal > 0 {
          assert c[k] in c;
          satisfied := true;
          break;
        }
        MarkingNext(s, v, c, k);
        s := s.(clause := s.clause + [other]);
        s := s.(marks := s.marks[other := true]);
      }
    }

    /** Adds the second clause to the buffer; stops at a true literal or one whose negation is marked. */
    method ReadSecond(v: nat, c: seq<Lit>, d: seq<Lit>) returns (satisfied: bool, tautological: bool)
      requires Joining(s, v, c, |s.clause|, d, 0)
      requires forall l: nat {:trigger Neg(l)} :: l < |s.values| ==> Neg(l) < |s.values|
      modifies this`s
      ensures s == old(s).(clause := s.clause) && |old(s).clause| <= |s.clause|
      ensures satisfied ==> RootSatisfied(s.values, d, v)
      ensures tautological ==> Tautological(v, c, d)
      ensures !satisfied && !tautological ==> Joining(s, v, c, |old(s).clause|, d, |d|)
      ensures s.clause[..|old(s).clause|] == old(s).clause
    {
      hide Proper;
      satisfied, tautological := false, false;
      ghost var m := |s.clause|;
      for k := 0 to |d|
        invariant s == old(s).(clause := s.clause) && m <= |s.clause| && s.clause[..m] == old(s).clause
        invariant Joining(s, v, c, m, d, k) && !satisfied && !tautological
      {
        var other := d[k];
        JoiningBound(s, v, c, m, d, k);
        if Var(other) == v {
          JoiningSkip(s, v, c, m, d, k);
          continue;
        }
        var otherVal := s.values[other];
        if otherVal < 0 {
          JoiningSkip(s, v, c, m, d, k);
          continue;
        }
        if otherVal > 0 {
          assert d[k] in d;
          satisfied := true;
          break;
        }
        if s.marks[other] {
          JoiningSkip(s, v, c, m, d, k);
          continue;
        }
        if s.marks[Neg(other)] {
          JoiningTautology(s, v, c, m, d, k);
          tautological := true;
          break;
        }
        JoiningNext(s, v, c, m, d, k);
        s := s.(clause := s.clause + [other]);
      }
    }

    method ResolveLargeLarge(v: nat, cref: nat, dref: nat, ghost p: Lit)
      requires Working(s) && !s.inconsistent && cref < |s.clauses| && dref < |s.clauses|
      requires Var(p) == v
      requires s.clauses[cref].garbage || s.clauses[dref].garbage ||
               Pair(s, p, s.clauses[cref].lits, s.clauses[dref].lits)
      modifies this`s
      ensures if old(s).clauses[cref].garbage || old(s).clauses[dref].garbage then s == old(s)
              else Resolves(old(s), s, v, old(s).clauses[cref].lits, old(s).clauses[dref].lits)
    {
      hide Working, Resolves, Pair, Marking, Joining, Resolvent, Proper, Buffered;
      var c, d := s.clauses[cref].lits, s.clauses[dref].lits;
      if s.clauses[cref].garbage {
        return;
      }
      if s.clauses[dref].garbage {
        return;
      }
      LargeStart(s, v, p, c, d);
      var satisfied, tautological := false, false;
      satisfied := ReadFirst(v, c);
      if satisfied {
        UnmarkBuffer();
        s := s.(clause := []);
        return;
      }
      var marked := |s.clause|;
      JoiningStart(s, v, c, d);
      ghost var s1 := s;
      satisfied, tautological := ReadSecond(v, c, d);
      assert s.(clause := s.clause[..marked]) == s1;
      if satisfied || tautological {
        s := s.(clause := s.clause[..marked]);
        UnmarkBuffer();
        s := s.(clause := []);
        return;
      }
      Joined(s, v, c, marked, d);
      LargeFinish(old(s), s, p, c, d);
      FinishMarked(marked, old(s));
    }

    /** Resolves two clauses with the pivot; garbage ones are skipped. */
    method Resolve(v: nat, cw: Watch, dw: Watch)
      requires Working(s) && !s.inconsistent && Occurs(s, 2 * v, cw) && Occurs(s, 2 * v + 1, dw)
      modifies this`s
      ensures if old(s).clauses[cw.ref].garbage || old(s).clauses[dw.ref].garbage then s == old(s)
              else Resolves(old(s), s, v, old(s).clauses[cw.ref].lits, old(s).clauses[dw.ref].lits)
    {
      hide Working, Resolves, Pair, BinaryOf;
      PairReady(s, 2 * v, cw, dw);
      assert Var(2 * v) == Var(2 * v + 1) == v && Neg(2 * v) == 2 * v + 1;
      ghost var c, d := s.clauses[cw.ref].lits, s.clauses[dw.ref].lits;
      if cw.binary && dw.binary {
        ResolveBinaryBinary(v, cw.lit, dw.lit, 2 * v, c, d);
      } else if cw.binary {
        ResolveBinaryLarge(v, cw.lit, dw.ref, 2 * v, c);
      } else if dw.binary {
        ResolveBinaryLarge(v, dw.lit, cw.ref, 2 * v, d);
        ResolvesEither(old(s), s, v, c, d);
      } else {
        ResolveLargeLarge(v, cw.ref, dw.ref, 2 * v);
      }
    }

    /** Resolves all pairs of clauses with the pivot, until the formula is inconsistent. */
    method ResolveAll(v: nat, pos: seq<Watch>, neg: seq<Watch>)
      requires Working(s) && !s.inconsistent && AllOccur(s, 2 * v, pos) && AllOccur(s, 2 * v + 1, neg)
      modifies this`s
      ensures Progress(old(s), s, v) && AllOccur(s, 2 * v, pos) && AllOccur(s, 2 * v + 1, neg)
      ensures !s.inconsistent ==> RowsDone(old(s), s, v, pos, neg, |pos|)
    {
      hide Working, Progress, AllOccur, Occurs, PairDone, RowDone, RowsDone;
      ProgressRefl(s, v);
      RowsStart(s, s, v, pos, neg);
      for i := 0 to |pos|
        invariant !s.inconsistent && Progress(old(s), s, v) && AllOccur(s, 2 * v, pos) && AllOccur(s, 2 * v + 1, neg)
        invariant RowsDone(old(s), s, v, pos, neg, i)
      {
        RowStart(old(s), s, v, pos[i], neg);
        for j := 0 to |neg|
          invariant !s.inconsistent && Progress(old(s), s, v) && AllOccur(s, 2 * v, pos) && AllOccur(s, 2 * v + 1, neg)
          invariant RowsDone(old(s), s, v, pos, neg, i) && RowDone(old(s), s, v, pos[i], neg, j)
        {
          ghost var s1 := s;
          OccursBoth(s, v, pos, neg, i, j);
          ProgressWorking(old(s), s, v);
          Resolve(v, pos[i], neg[j]);
          StepDone(old(s), s1, s, v, pos, neg, i, j);
          if s.inconsistent {
            return;
          }
        }
        RowEnd(old(s), s, v, pos, neg, i);
      }
    }

    method PushWitness(lit: Lit)
      modifies this`s
      ensures s == old(s).(extend := old(s).extend + [Extension(lit, true)])
    {
      s := s.(extend := s.extend + [Extension(lit, true)]);
    }

    method PushClauseLiteral(lit: Lit)
      requires lit < |s.values|
      modifies this`s
      ensures s == if old(s).values[lit] < 0 then old(s) else old(s).(extend := old(s).extend + [Extension(lit, false)])
    {
      if s.values[lit] >= 0 {
        s := s.(extend := s.extend + [Extension(lit, false)]);
      }
    }

    /** Stores a clause on the extension stack, first the witness literal. */
    method WeakenClause(lit: Lit, c: seq<Lit>)
      requires forall l :: l in c ==> l < |s.values|
      modifies this`s
      ensures s == old(s).(extend := old(s).extend + Entries(Weak(old(s).values, c, lit)))
    {
      hide Entries;
      PushWitness(lit);
      EntriesStart(lit);
      ghost var e := old(s).extend;
      assert s.extend == e + Entries(Witness(lit, []));
      for k := 0 to |c|
        invariant s == old(s).(extend := e + Entries(Witness(lit, WeakRest(s.values, c, lit, k))))
      {
        assert c[k] in c;
        if lit != c[k] {
          EntriesNext(lit, WeakRest(s.values, c, lit, k), c[k]);
          PushClauseLiteral(c[k]);
        }
      }
    }

    method WeakenBinary(lit: Lit, other: Lit, ghost c: seq<Lit>)
      requires other < |s.values| && |c| == 2 && other != lit && (c == [lit, other] || c == [other, lit])
      modifies this`s
      ensures s == old(s).(extend := old(s).extend + Entries(Weak(old(s).values, c, lit)))
    {
      WeakBinary(s.values, c, lit, other);
      PushWitness(lit);
      PushClauseLiteral(other);
    }

    /** Deletes the clauses on the list, storing those that are not satisfied at the root level. */
    method DeleteClauses(lit: Lit, list: seq<Watch>, store: bool) returns (ghost ws: seq<Witness>)
      requires Working(s) && AllOccur(s, lit, list) && DistinctRefs(list) && lit < |s.values| && s.values[lit] == 0
      modifies this
      ensures Deletes(old(s), s, lit, list, store, ws) && witnesses == old(witnesses) + ws
    {
      hide Working, Weakens, AllOccur, Entries, Weak, Pending, BinaryOf, Proper, Occurs, DistinctRefs;
      ws := [];
      ghost var cs: seq<seq<Lit>> := [];
      WeakensStart(s, lit, list, store);
      for i := 0 to |list|
        invariant Weakens(old(s), s, lit, list, i, store, ws, cs) && witnesses == old(witnesses)
      {
        var w := list[i];
        DeleteFacts(old(s), s, lit, list, i, store, ws, cs);
        var c := s.clauses[w.ref].lits;
        if w.binary {
          if s.values[w.lit] <= 0 && store {
            WeakensStore(old(s), s, lit, list, i, store, ws, cs);
            ws, cs := ws + [Weak(s.values, c, lit)], cs + [c];
            WeakenBinary(lit, w.lit, c);
          } else {
            WeakensDelete(old(s), s, lit, list, i, store, ws, cs);
          }
          MarkGarbage(w.ref);
        } else if !s.clauses[w.ref].garbage {
          var satisfied := AnyTrue(c);
          if !satisfied && store {
            WeakensStore(old(s), s, lit, list, i, store, ws, cs);
            ws, cs := ws + [Weak(s.values, c, lit)], cs + [c];
            WeakenClause(lit, c);
          } else {
            WeakensDelete(old(s), s, lit, list, i, store, ws, cs);
          }
          MarkGarbage(w.ref);
        } else {
          WeakensDelete(old(s), s, lit, list, i, store, ws, cs);
          GarbageAgain(s, w.ref);
        }
      }
      assert Weakens(old(s), s, lit, list, |list|, store, ws, cs);
      witnesses := witnesses + ws;
    }

    method AnyTrue(c: seq<Lit>) returns (satisfied: bool)
      requires forall l :: l in c ==> l < |s.values|
      ensures !satisfied <==> Pending(s, c)
    {
      satisfied := false;
      for k := 0 to |c|
        invariant !satisfied && forall i :: 0 <= i < k ==> c[i] < |s.values| && s.values[c[i]] <= 0
      {
        assert c[k] in c;
        if s.values[c[k]] > 0 {
          satisfied := true;
          break;
        }
      }
    }

    /** Marks a variable as eliminated and deletes its clauses, storing those of one polarity or of both. */
    method RemoveVariable(v: nat, lit: Lit, list: seq<Watch>, list': seq<Watch>, both: bool)
      returns (ghost t1: Dense, ghost ws1: seq<Witness>, ghost ws2: seq<Witness>)
      requires Removable(s, v, lit, list, list') && DistinctRefs(list) && DistinctRefs(list')
      modifies this
      ensures Removal(old(s), t1, s, v, lit, list, list', both, ws1, ws2) && Working(s)
      ensures s.pos == old(s).pos[v := old(s).count] && s.count == old(s).count + 1 && !s.inconsistent
      ensures witnesses == old(witnesses) + (ws1 + ws2) && s.extend == old(s).extend + Flat(ws1 + ws2)
      ensures forall i :: 0 <= i < |ws1 + ws2| ==> KnownWitness(s.pos, (ws1 + ws2)[i])
    {
      hide Working, AllOccur, Deletes, Removable, DistinctRefs, Flat, KnownWitness;
      RemovableParts(s, v, lit, list, list');
      s := s.(pos := s.pos[v := s.count], count := s.count + 1);
      ghost var t0 := s;
      ws1 := DeleteClauses(lit, list, true);
      t1 := s;
      DeletesKeeps(t0, s, v, lit, list, list', true, ws1);
      NothingOccurs(s, Neg(Neg(lit)));
      ws2 := DeleteClauses(Neg(lit), list', both);
      DeletesKeeps(t1, s, v, Neg(lit), list', [], both, ws2);
      DeletesKnown(t0, t1, s, lit, list, true, ws1);
      DeletesKnown(t1, s, s, Neg(lit), list', both, ws2);
      JoinKnown(s.pos, ws1, ws2);
      FlatJoin(ws1, ws2);
    }

    /** Eliminates a variable: adds all resolvents, then deletes and stores its clauses. */
    method FastEliminate(v: nat, pos: seq<Watch>, neg: seq<Watch>)
      requires Eliminable(s, v, pos, neg) && Valid()
      modifies this
      ensures s.inconsistent || Valid()
      ensures forall a: Values | Satisfies(a, Formula(old(s))) :: Satisfies(a, Formula(s))
      ensures s.inconsistent || (Working(s) && Alive(s) && s.pos == old(s).pos[v := old(s).count])
      ensures s.inconsistent || forall f0 ::
                Reconstructs(f0, Formula(old(s)), old(s).pos, old(s).count, old(witnesses)) ==>
                Reconstructs(f0, Formula(s), s.pos, s.count, witnesses)
    {
      hide Working, Progress, AllOccur, RowsDone, Removable, Reconstructs, Satisfies, Formula, Complete, Alive, Removal,
           DistinctRefs, Eliminable, AllKnown, KnownWitness;
      EliminableParts(s, v, pos, neg);
      ResolveAll(v, pos, neg);
      ProgressFormula(old(s), s, v);
      if s.inconsistent {
        return;
      }
      ghost var s1 := s;
      ResolvedRemovable(old(s), s, v, pos, neg);
      ghost var t1, ws1, ws2 := RemoveVariable(v, 2 * v, pos, neg, true);
      RemovalRun(old(s), s1, t1, s, v, 2 * v, pos, neg, true, ws1, ws2, [], old(witnesses));
      assert ws1 + ws2 + [] == ws1 + ws2;
      FlatJoin(old(witnesses), ws1 + ws2);
      ProgressKnown(old(s), s1, v, old(witnesses));
      KnownStays(s1, s, old(witnesses), v, ws1 + ws2);
    }

    /** Stores the literal as a default. */
    method WeakenUnit(lit: Lit)
      modifies this
      ensures s == old(s).(extend := old(s).extend + Entries(Witness(lit, [])))
      ensures witnesses == old(witnesses) + [Witness(lit, [])]
    {
      EntriesStart(lit);
      PushWitness(lit);
      witnesses := witnesses + [Witness(lit, [])];
    }

    /**
      Removes a variable all resolvents of which have been added: the clauses with lit are stored, and
      so are those with its negation, or else, when optimizing, the negation itself as a default.
     */
    method WeakenClauses(v: nat, lit: Lit, list: seq<Watch>, list': seq<Watch>, optimize: bool)
      requires Removable(s, v, lit, list, list') && DistinctRefs(list) && DistinctRefs(list') && Valid()
      modifies this
      ensures Valid()
      ensures forall a: Values | Satisfies(a, Formula(old(s))) :: Satisfies(a, Formula(s))
      ensures Working(s) && Alive(s) && s.pos == old(s).pos[v := old(s).count]
      ensures forall f0 ::
                Reconstructs(f0, Formula(old(s)), old(s).pos, old(s).count, old(witnesses)) ==>
                Reconstructs(f0, Formula(s), s.pos, s.count, witnesses)
    {
      hide Working, Progress, AllOccur, Removable, Reconstructs, Satisfies, Formula, Alive,
           Removal, DistinctRefs, Entries,
           AllKnown, KnownWitness;
      RemovableWorking(s, v, lit, list, list');
      ProgressRefl(s, v);
      ghost var t1, ws1, ws2 := RemoveVariable(v, lit, list, list', !optimize);
      ghost var unit: seq<Witness>, s1 := [], s;
      RemovalSecond(old(s), t1, s, v, lit, list, list', !optimize, ws1, ws2);
      FlatJoin(old(witnesses), ws1 + ws2);
      if optimize && |list'| != 0 {
        unit := [Witness(Neg(lit), [])];
        FlatOne(witnesses, unit[0]);
        WeakenUnit(Neg(lit));
      }
      RemovalRun(old(s), old(s), t1, s1, v, lit, list, list', !optimize, ws1, ws2, unit, old(witnesses));
      ExtendFormula(s1, s);
      assert witnesses == old(witnesses) + (ws1 + ws2 + unit);
      UnitKnown(s, v, lit, unit);
      JoinKnown(s.pos, ws1 + ws2, unit);
      KnownStays(old(s), s, old(witnesses), v, ws1 + ws2 + unit);
    }

    /** Learns the unit, or adds the clause, in the buffer, the first literals of which are marked. */
    method FinishMarked(marked: nat, ghost s0: Dense)
      requires s == s0.(clause := s.clause, marks := s.marks) && |s.marks| == |s0.marks| && s0.clause == []
      requires s0.marks == Unmarked(|s0.marks|) && marked <= |s.clause| && Buffered(s.(clause := s.clause[..marked]))
      requires |s.clause| == 1 ==> s.clause[0] < |s.marks| == |s.values| && Neg(s.clause[0]) < |s.values|
      modifies this`s
      ensures s == if |old(s).clause| == 0 then s0.(inconsistent := true)
                   else if |old(s).clause| == 1 then Unit(s0, old(s).clause[0])
                   else Added(s0, old(s).clause)
    {
      var size := |s.clause|;
      if size == 0 {
        assert s.marks == Unmarked(|s.marks|);
        s := s.(inconsistent := true);
        return;
      }
      if size == 1 {
        var unit := s.clause[0];
        s := s.(clause := []);
        s := s.(marks := s.marks[unit := false]);
        assert s.marks == Unmarked(|s.marks|);
        LearnUnit(unit);
        return;
      }
      NewClause();
      s := s.(clause := s.clause[..marked]);
      UnmarkBuffer();
      s := s.(clause := []);
    }

    /** Learns the unit, or adds the clause, in the buffer. */
    method FinishResolvent(v: nat, ghost p: Lit, ghost c: seq<Lit>, ghost d: seq<Lit>)
      requires Var(p) == v && Working(s.(clause := []))
      requires (Pair(s.(clause := []), p, c, d) || Pair(s.(clause := []), p, d, c))
      requires Resolvent(s, v, c, d, s.clause) && Proper(|s.values|, s.clause) && Omits(s.clause, v)
      requires forall l :: l in s.clause ==> (l in c || l in d) && s.values[l] == 0
      modifies this`s
      ensures Resolves(old(s).(clause := []), s, v, c, d)
    {
      hide Working, Resolves, Pair, Resolvent, Proper;
      ghost var e := s.clause;
      FinishedEither(s, p, c, d);
      FinishedProper(|s.values|, e);
      var size := |s.clause|;
      if size == 0 {
        s := s.(inconsistent := true);
        return;
      }
      if size == 1 {
        var unit := s.clause[0];
        s := s.(clause := []);
        assert unit in e;
        LearnUnit(unit);
        return;
      }
      NewClause();
      s := s.(clause := []);
    }
  }

  /** Clause c consists of other and a literal of variable v. */
  ghost predicate BinaryOf(s: Dense, v: nat, other: Lit, c: seq<Lit>) {
    && other < |s.values| && Var(other) != v && other in c
    && forall l :: l in c ==> l == other || Var(l) == v
  }

  lemma BinaryFacts(s: Dense, v: nat, clit: Lit, dlit: Lit, c: seq<Lit>, d: seq<Lit>)
    requires Working(s) && BinaryOf(s, v, clit, c) && BinaryOf(s, v, dlit, d)
    ensures s.clause == [] && Neg(clit) < |s.values| && Neg(dlit) < |s.values|
    ensures clit == Neg(dlit) || s.values[clit] > 0 || s.values[dlit] > 0 ==> Resolves(s, s, v, c, d)
    ensures clit != dlit && clit != Neg(dlit) ==> Proper(|s.values|, [clit, dlit])
  {
    SameVar(clit, dlit);
    SameVar(dlit, clit);
    assert s.values[Neg(clit)] == -s.values[clit] && s.values[Neg(dlit)] == -s.values[dlit];
    if clit == Neg(dlit) || s.values[clit] > 0 || s.values[dlit] > 0 {
      NothingResolved(s, v, c, d);
    }
  }

  lemma LargeFacts(s: Dense, v: nat, lit: Lit, b: seq<Lit>, ref: nat)
    requires Working(s) && BinaryOf(s, v, lit, b) && ref < |s.clauses|
    ensures s.clause == [] && Neg(lit) < |s.values| && Proper(|s.values|, s.clauses[ref].lits)
    ensures RootSatisfied(s.values, s.clauses[ref].lits, v) || s.values[lit] > 0 || Neg(lit) in s.clauses[ref].lits ==>
              Resolves(s, s, v, b, s.clauses[ref].lits)
  {
    assert s.values[Neg(lit)] == -s.values[lit];
    SameVar(lit, Neg(lit));
    var c := s.clauses[ref].lits;
    if RootSatisfied(s.values, c, v) || s.values[lit] > 0 || Neg(lit) in c {
      assert Neg(lit) in c ==> Tautological(v, b, c);
      NothingResolved(s, v, b, c);
    }
  }

  lemma CollectStart(s: Dense, v: nat, lit: Lit, c: seq<Lit>)
    requires lit < |s.values| && Var(lit) != v && Proper(|s.values|, c) && s.clause == []
    ensures Collecting(s.(clause := if s.values[lit] == 0 then [lit] else []), v, lit, c, 0)
  {
  }

  /** A clause with a root-level true literal is deleted. */
  lemma CollectTrue(s: Dense, v: nat, lit: Lit, p: Lit, b: seq<Lit>, ref: nat, k: nat)
    requires Working(s) && Var(p) == v && ref < |s.clauses|
    requires (Pair(s, p, b, s.clauses[ref].lits) || Pair(s, p, s.clauses[ref].lits, b))
    requires k < |s.clauses[ref].lits| && Var(s.clauses[ref].lits[k]) != v && |s.clauses[ref].lits| != 2
    ensures s.clauses[ref].lits[k] < |s.values|
    ensures s.values[s.clauses[ref].lits[k]] > 0 ==> Resolves(s, Garbage(s, ref), v, b, s.clauses[ref].lits)
  {
    SameVar(p, Neg(p));
    if s.values[s.clauses[ref].lits[k]] > 0 {
      GarbageResolves(s, v, ref, b, s.clauses[ref].lits);
    }
  }

  lemma Collected(s: Dense, v: nat, lit: Lit, b: seq<Lit>, c: seq<Lit>)
    requires Collecting(s, v, lit, c, |c|) && BinaryOf(s, v, lit, b) && s.values[lit] <= 0
    ensures Resolvent(s, v, b, c, s.clause) && Proper(|s.values|, s.clause) && Omits(s.clause, v)
    ensures forall l :: l in s.clause ==> (l in b || l in c) && s.values[l] == 0
  {
    forall l | (l in b || l in c) && Var(l) != v ensures l in s.clause || (l < |s.values| && s.values[l] < 0) {
      if l in c && l != lit {
        var i :| 0 <= i < |c| && c[i] == l;
      }
    }
  }

  lemma CollectSkip(s: Dense, v: nat, lit: Lit, c: seq<Lit>, k: nat)
    requires k < |c| && Collecting(s, v, lit, c, k)
    requires Var(c[k]) == v || c[k] == lit || (c[k] != Neg(lit) && s.values[c[k]] < 0)
    ensures Collecting(s, v, lit, c, k + 1)
  {
  }

  lemma CollectOne(s: Dense, v: nat, lit: Lit, c: seq<Lit>, k: nat)
    requires lit < |s.values| && Proper(|s.values|, c) && k < |c| && Collecting(s, v, lit, c, k)
    requires Var(c[k]) != v && c[k] != lit && c[k] != Neg(lit) && s.values[c[k]] == 0
    ensures Collecting(s.(clause := s.clause + [c[k]]), v, lit, c, k + 1)
  {
  }

  lemma Finished(s: Dense, p: Lit, c: seq<Lit>, d: seq<Lit>, e: seq<Lit>)
    requires Working(s) && Pair(s, p, c, d)
    requires Resolvent(s, Var(p), c, d, e) && Proper(|s.values|, e) && Omits(e, Var(p))
    requires forall l :: l in e ==> (l in c || l in d) && s.values[l] == 0
    ensures |e| == 0 ==> Resolves(s, s.(inconsistent := true), Var(p), c, d)
    ensures |e| == 1 ==> Resolves(s, Unit(s, e[0]), Var(p), c, d) && Neg(e[0]) < |s.values|
    ensures |e| > 1 ==> Resolves(s, Added(s, e), Var(p), c, d)
  {
    hide Working, Resolves, Pair, Resolvent, Proper, Unit, Added;
    if |e| == 0 {
      assert e == [];
      EmptyResolves(s, p, c, d);
    } else if |e| == 1 {
      assert e == [e[0]] && e[0] in e;
      FinishedProper(|s.values|, e);
      UnitResolves(s, p, e[0], c, d);
    } else {
      AddedResolves(s, p, e, c, d);
    }
  }

  lemma FinishedEither(s: Dense, p: Lit, c: seq<Lit>, d: seq<Lit>)
    requires Working(s.(clause := [])) && (Pair(s.(clause := []), p, c, d) || Pair(s.(clause := []), p, d, c))
    requires Resolvent(s, Var(p), c, d, s.clause) && Proper(|s.values|, s.clause) && Omits(s.clause, Var(p))
    requires forall l :: l in s.clause ==> (l in c || l in d) && s.values[l] == 0
    ensures var s', e := s.(clause := []), s.clause;
      && (|e| == 0 ==> Resolves(s', s'.(inconsistent := true), Var(p), c, d))
      && (|e| == 1 ==> Resolves(s', Unit(s', e[0]), Var(p), c, d) && Neg(e[0]) < |s.values|)
      && (|e| > 1 ==> Resolves(s', Added(s', e), Var(p), c, d))
  {
    hide Working, Resolves, Proper, Unit, Added;
    var s', e := s.(clause := []), s.clause;
    if Pair(s', p, c, d) {
      Finished(s', p, c, d, e);
    } else {
      Finished(s', p, d, c, e);
      forall t | Resolves(s', t, Var(p), d, c) ensures Resolves(s', t, Var(p), c, d) {
        ResolvesSymmetric(s', t, Var(p), c, d);
      }
    }
  }

  lemma FinishedProper(n: nat, e: seq<Lit>)
    requires Proper(n, e)
    ensures forall l :: l in e ==> l < n
  {
  }

  lemma ResolvesEither(s: Dense, s': Dense, v: nat, c: seq<Lit>, d: seq<Lit>)
    ensures Resolves(s, s', v, d, c) ==> Resolves(s, s', v, c, d)
  {
    if Resolves(s, s', v, d, c) {
      ResolvesSymmetric(s, s', v, c, d);
    }
  }

  /** The roles of the two clauses may be exchanged. */
  lemma ResolvesSymmetric(s: Dense, s': Dense, v: nat, c: seq<Lit>, d: seq<Lit>)
    requires Resolves(s, s', v, d, c)
    ensures Resolves(s, s', v, c, d)
  {
    if Tautological(v, d, c) {
      TautologicalSymmetric(v, d, c);
    }
    if r :| Below(s', v, d, c, r) {
      assert Below(s', v, c, d, r);
    }
  }

  lemma EntriesStart(lit: Lit)
    ensures Entries(Witness(lit, [])) == [Extension(lit, true)]
  {
  }

  lemma EntriesNext(lit: Lit, rest: seq<Lit>, l: Lit)
    ensures Entries(Witness(lit, rest + [l])) == Entries(Witness(lit, rest)) + [Extension(l, false)]
  {
  }

  lemma WeakBinary(values: seq<int>, c: seq<Lit>, lit: Lit, other: Lit)
    requires other < |values| && other != lit && (c == [lit, other] || c == [other, lit])
    ensures Weak(values, c, lit) == Witness(lit, if values[other] < 0 then [] else [other])
    ensures Entries(Weak(values, c, lit)) ==
            [Extension(lit, true)] + if values[other] < 0 then [] else [Extension(other, false)]
  {
    assert WeakRest(values, c, lit, 0) == [];
    assert WeakRest(values, c, lit, 2) == if values[other] < 0 then [] else [other];
  }

  lemma GarbageAgain(s: Dense, r: nat)
    requires r < |s.clauses| && s.clauses[r].garbage
    ensures Garbage(s, r) == s
  {
    assert s.clauses[r := s.clauses[r].(garbage := true)] == s.clauses;
  }

  /** What is known of the next clause on the list. */
  lemma DeleteFacts(s0: Dense, s: Dense, lit: Lit, list: seq<Watch>, i: nat, store: bool,
                    ws: seq<Witness>, cs: seq<seq<Lit>>)
    requires Working(s0) && AllOccur(s0, lit, list) && lit < |s0.values| && s0.values[lit] == 0
    requires Weakens(s0, s, lit, list, i, store, ws, cs) && i < |list| && DistinctRefs(list)
    ensures var w := list[i];
            && w.ref < |s.clauses| && (s.clauses[w.ref].garbage <==> s0.clauses[w.ref].garbage)
            && (w.binary ==> !s.clauses[w.ref].garbage)
            && lit in s.clauses[w.ref].lits && s.clauses[w.ref].lits == s0.clauses[w.ref].lits
            && s.values == s0.values && (forall l :: l in s.clauses[w.ref].lits ==> l < |s.values|)
            && (Pending(s, s.clauses[w.ref].lits) <==> Pending(s0, s.clauses[w.ref].lits))
            && (w.binary ==>
                  && w.lit < |s.values| && w.lit != lit
                  && (s.clauses[w.ref].lits == [lit, w.lit] || s.clauses[w.ref].lits == [w.lit, lit])
                  && (Pending(s, s.clauses[w.ref].lits) <==> s.values[w.lit] <= 0))
  {
    var w := list[i];
    assert Occurs(s0, lit, w);
    forall k | 0 <= k < i ensures list[..i][k].ref != w.ref {
      assert list[k].ref != list[i].ref;
    }
    assert Proper(|s0.values|, s0.clauses[w.ref].lits);
    if w.binary {
      var c := s.clauses[w.ref].lits;
      assert c == [c[0], c[1]];
      assert c[0] in c && c[1] in c;
    }
  }
}
