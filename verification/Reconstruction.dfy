/**
  Reconstructing a model after variables have been eliminated (extend.c, fastel.c,
  eliminate.c): replaying witness clauses backwards, and what elimination must leave behind
  for the replay to satisfy every clause ever removed.
 */
module Reconstruction {
  import opened Literals

  /** Values of variables: positive, negative, or zero if unassigned. */
  type Values = seq<int>

  function Val(a: Values, l: Lit): int {
    if Var(l) >= |a| then 0 else if l % 2 == 0 then a[Var(l)] else -a[Var(l)]
  }

  function Assign(a: Values, l: Lit): (b: Values)
    ensures |b| == |a| && (Var(l) < |a| ==> Val(b, l) == 1)
    ensures forall x: nat :: Var(x) != Var(l) ==> Val(b, x) == Val(a, x)
  {
    if Var(l) >= |a| then a else a[Var(l) := if l % 2 == 0 then 1 else -1]
  }

  ghost predicate True(a: Values, c: seq<Lit>) {
    exists l :: l in c && Val(a, l) > 0
  }

  ghost predicate Satisfies(a: Values, f: Clauses) {
    forall c :: c in f ==> True(a, c)
  }

  /** A removed clause and the literal that may be made true to satisfy it. */
  datatype Witness = Witness(blocking: Lit, rest: seq<Lit>)

  function Lits(w: Witness): seq<Lit> {
    [w.blocking] + w.rest
  }

  /** The position at which the variable of l was eliminated, or -1. */
  function Pos(pos: seq<int>, l: Lit): int {
    if Var(l) < |pos| then pos[Var(l)] else -1
  }

  function Free(a: Values, pos: seq<int>, l: Lit): bool {
    Pos(pos, l) >= 0 && Val(a, l) == 0
  }

  /** The unassigned literal of c[k..] that was eliminated last, or -1. */
  function Pick(a: Values, pos: seq<int>, c: seq<Lit>, k: nat): (e: int)
    requires k <= |c|
    ensures e == -1 <==> forall i :: k <= i < |c| ==> !Free(a, pos, c[i])
    ensures e != -1 ==> e in c[k..] && Free(a, pos, e)
    ensures e != -1 ==> forall i :: k <= i < |c| && Free(a, pos, c[i]) ==> Pos(pos, c[i]) <= Pos(pos, e)
    decreases |c| - k
  {
    if k == |c| then -1
    else
      var e := Pick(a, pos, c, k + 1);
      assert c[k..] == [c[k]] + c[k + 1..];
      if Free(a, pos, c[k]) && (e == -1 || Pos(pos, e) < Pos(pos, c[k])) then c[k] else e
  }

  /** One step of the replay: a falsified clause is satisfied by its last eliminated free literal, else by flipping. */
  ghost function Replay1(a: Values, pos: seq<int>, w: Witness): Values {
    if True(a, Lits(w)) then a
    else
      var e := Pick(a, pos, Lits(w), 0);
      Assign(a, if e == -1 then w.blocking else e)
  }

  ghost function Replay(a: Values, pos: seq<int>, ws: seq<Witness>): Values
    decreases |ws|
  {
    if ws == [] then a else Replay(Replay1(a, pos, ws[|ws| - 1]), pos, ws[..|ws| - 1])
  }

  lemma {:induction false} ReplaySplit(a: Values, pos: seq<int>, ws: seq<Witness>, ws': seq<Witness>)
    ensures Replay(a, pos, ws + ws') == Replay(Replay(a, pos, ws'), pos, ws)
    decreases |ws'|
  {
    if ws' == [] {
      assert ws + ws' == ws;
    } else {
      var n := |ws'| - 1;
      assert (ws + ws')[|ws| + n] == ws'[n];
      assert (ws + ws')[..|ws| + n] == ws + ws'[..n];
      ReplaySplit(Replay1(a, pos, ws'[n]), pos, ws, ws'[..n]);
    }
  }

  // ------------------------------------------------------------------ one step

  /** Only the blocking literal was eliminated before the other free literals. */
  ghost predicate Ordered(a: Values, pos: seq<int>, w: Witness) {
    && |a| == |pos| && Pos(pos, w.blocking) >= 0
    && forall l :: l in w.rest ==>
         Var(l) < |a| && Var(l) != Var(w.blocking) && (Val(a, l) == 0 ==> Pos(pos, l) > Pos(pos, w.blocking))
  }

  /**
    What a step does: nothing, assign a free literal of the clause, or set the blocking one, all others being
    false.
   */
  lemma StepCases(a: Values, pos: seq<int>, w: Witness)
    requires Ordered(a, pos, w)
    ensures var b := Replay1(a, pos, w);
            || (b == a && True(a, Lits(w)))
            || (exists e :: e in Lits(w) && Val(a, e) == 0 && Var(e) < |a| && b == Assign(a, e))
            || (b == Assign(a, w.blocking) && forall l :: l in w.rest ==> Val(a, l) < 0)
    ensures True(Replay1(a, pos, w), Lits(w))
  {
    var c := Lits(w);
    var b := Replay1(a, pos, w);
    if !True(a, c) {
      var e := Pick(a, pos, c, 0);
      if e == -1 {
        forall l | l in w.rest ensures Val(a, l) < 0 {
          assert l in c;
          var i :| 0 <= i < |c| && c[i] == l;
          assert !Free(a, pos, c[i]);
        }
        assert c[0] == w.blocking;
        assert Val(b, w.blocking) > 0;
      } else {
        assert e in c;
        assert Val(b, e) > 0;
      }
    }
  }

  // ------------------------------------------------------------------ eliminating one variable

  /** Some literal of c or d, of another variable than v, is true. */
  ghost predicate ResolventTrue(a: Values, v: nat, c: seq<Lit>, d: seq<Lit>) {
    exists l :: (l in c || l in d) && Var(l) != v && Val(a, l) > 0
  }

  ghost predicate Tautological(v: nat, c: seq<Lit>, d: seq<Lit>) {
    exists l :: l in c && Neg(l) in d && Var(l) != v
  }

  /** All resolvents on v of clauses in f are tautological or true. */
  ghost predicate Resolved(a: Values, v: nat, f: Clauses) {
    forall c, d | c in f && d in f && 2 * v in c && 2 * v + 1 in d :: Tautological(v, c, d) || ResolventTrue(a, v, c, d)
  }

  /** b extends a, but for variable v. */
  ghost predicate Extends(a: Values, b: Values, v: nat) {
    |b| == |a| && forall l: nat :: Var(l) != v && Val(a, l) > 0 ==> Val(b, l) > 0
  }

  /** The clause c without literals that are false under a, witnessed by one of its literals. */
  ghost predicate Stems(a: Values, w: Witness, c: seq<Lit>) {
    && w.blocking in c && Neg(w.blocking) !in c
    && (forall l :: l in w.rest ==> l in c)
    && (forall l :: l in c && l != w.blocking ==> l in w.rest || Val(a, l) < 0)
  }

  /** Flipping the blocking literal of a clause does not falsify another one: their resolvent holds. */
  lemma FlipKeeps(a0: Values, a: Values, f: Clauses, w: Witness, c: seq<Lit>, d: seq<Lit>)
    requires Extends(a0, a, Var(w.blocking)) && Resolved(a0, Var(w.blocking), f)
    requires c in f && d in f && Stems(a0, w, c) && Neg(w.blocking) in d
    requires forall l :: l in w.rest ==> Val(a, l) < 0
    ensures exists l :: l in d && Var(l) != Var(w.blocking) && Val(a, l) > 0
  {
    var v := Var(w.blocking);
    SameVar(w.blocking, 2 * v);
    forall l | l in c && l != w.blocking ensures Var(l) != v && Val(a, l) < 0 {
      SameVar(l, w.blocking);
      if l !in w.rest {
        FalseStays(a0, a, v, l);
      }
    }
    if Tautological(v, d, c) {
      TautologicalSymmetric(v, d, c);
    }
    assert Tautological(v, c, d) || ResolventTrue(a0, v, c, d) || ResolventTrue(a0, v, d, c);
    if l :| l in c && Neg(l) in d && Var(l) != v {
      SameVar(l, Neg(l));
      assert Val(a, Neg(l)) > 0;
    } else {
      var l :| (l in c || l in d) && Var(l) != v && Val(a0, l) > 0;
      assert Val(a, l) > 0;
    }
  }

  lemma TautologicalSymmetric(v: nat, c: seq<Lit>, d: seq<Lit>)
    requires Tautological(v, c, d)
    ensures Tautological(v, d, c)
  {
    var l :| l in c && Neg(l) in d && Var(l) != v;
    SameVar(l, Neg(l));
  }

  lemma FalseStays(a0: Values, a: Values, v: nat, l: Lit)
    requires Extends(a0, a, v) && Var(l) != v && Val(a0, l) < 0
    ensures Val(a, l) < 0
  {
    SameVar(l, Neg(l));
    assert Val(a0, Neg(l)) > 0;
  }

  /** A step keeps true clauses true, and makes the witnessed one true. */
  lemma StepKeeps(a0: Values, a: Values, pos: seq<int>, f: Clauses, w: Witness, c: seq<Lit>)
    requires Ordered(a, pos, w) && Extends(a0, a, Var(w.blocking)) && Resolved(a0, Var(w.blocking), f)
    requires (c in f && Stems(a0, w, c)) || Val(a, w.blocking) == 0
    ensures var b := Replay1(a, pos, w);
            && Extends(a0, b, Var(w.blocking)) && True(b, Lits(w))
            && (forall e :: e in f && True(a, e) ==> True(b, e))
            && (forall u: nat :: u < |a| && a[u] != 0 ==> b[u] != 0)
            && (forall u: nat :: u < |a| && Pos(pos, 2 * u) < Pos(pos, w.blocking) ==> b[u] == a[u])
  {
    hide Replay1, Resolved, Stems;
    StepCases(a, pos, w);
    var b := Replay1(a, pos, w);
    var v := Var(w.blocking);
    if e :| e in Lits(w) && Val(a, e) == 0 && Var(e) < |a| && b == Assign(a, e) {
      forall d | True(a, d) ensures True(b, d) {
        var t :| t in d && Val(a, t) > 0;
        assert Val(b, t) > 0;
      }
    } else if b != a {
      forall d | d in f && True(a, d) ensures True(b, d) {
        FlipTrue(a0, a, f, w, c, d);
      }
    }
  }

  lemma FlipTrue(a0: Values, a: Values, f: Clauses, w: Witness, c: seq<Lit>, d: seq<Lit>)
    requires Extends(a0, a, Var(w.blocking)) && Resolved(a0, Var(w.blocking), f)
    requires (c in f && Stems(a0, w, c)) || Val(a, w.blocking) == 0
    requires d in f && True(a, d) && forall l :: l in w.rest ==> Val(a, l) < 0
    ensures True(Assign(a, w.blocking), d)
  {
    hide Resolved, Stems;
    var b := Assign(a, w.blocking);
    var t :| t in d && Val(a, t) > 0;
    SameVar(t, w.blocking);
    if Val(b, t) <= 0 {
      FlipKeeps(a0, a, f, w, c, d);
      var l :| l in d && Var(l) != Var(w.blocking) && Val(a, l) > 0;
      assert Val(b, l) > 0;
    } else {
      assert True(b, d);
    }
  }

  /** Every witness names variable v, and comes from a clause of f (the last one may be a mere default). */
  ghost predicate Witnesses(a0: Values, pos: seq<int>, f: Clauses, v: nat, ws: seq<Witness>, cs: seq<seq<Lit>>) {
    && |cs| == |ws|
    && (forall i :: 0 <= i < |ws| ==> Var(ws[i].blocking) == v && Ordered(a0, pos, ws[i]))
    && (forall i :: 0 <= i < |ws| ==> cs[i] in f && Stems(a0, ws[i], cs[i]))
  }

  lemma OrderedStays(a0: Values, a: Values, pos: seq<int>, w: Witness)
    requires Ordered(a0, pos, w) && |a| == |a0| && forall u: nat :: u < |a0| && a0[u] != 0 ==> a[u] != 0
    ensures Ordered(a, pos, w)
  {
  }

  /** From a to b, no clause of f is falsified and no variable unassigned; earlier variables are left alone. */
  ghost predicate Kept(pos: seq<int>, f: Clauses, v: nat, a: Values, b: Values) {
    && |b| == |a|
    && (forall e :: e in f && True(a, e) ==> True(b, e))
    && (forall u: nat :: u < |a| && a[u] != 0 ==> b[u] != 0)
    && (forall u: nat :: u < |a| && Pos(pos, 2 * u) < Pos(pos, 2 * v) ==> b[u] == a[u])
  }

  lemma KeptTrans(pos: seq<int>, f: Clauses, v: nat, a: Values, b: Values, c: Values)
    requires Kept(pos, f, v, a, b) && Kept(pos, f, v, b, c)
    ensures Kept(pos, f, v, a, c)
  {
  }

  lemma StepKept(a0: Values, a: Values, pos: seq<int>, f: Clauses, v: nat, w: Witness, c: seq<Lit>)
    requires Ordered(a0, pos, w) && Var(w.blocking) == v && Resolved(a0, v, f) && Extends(a0, a, v)
    requires c in f && Stems(a0, w, c)
    requires forall u: nat :: u < |a0| && a0[u] != 0 ==> a[u] != 0
    ensures var b := Replay1(a, pos, w); Extends(a0, b, v) && Kept(pos, f, v, a, b) && True(b, c)
  {
    hide Resolved, Stems, True, Ordered, Replay1;
    OrderedStays(a0, a, pos, w);
    StepKeeps(a0, a, pos, f, w, c);
    StemTrue(a0, Replay1(a, pos, w), w, c);
    SameVar(w.blocking, 2 * v);
  }

  /** Replaying the witnesses of one variable satisfies all their clauses and falsifies none. */
  lemma {:induction false} ReplayKeeps(a0: Values, a: Values, pos: seq<int>, f: Clauses, v: nat,
                                       ws: seq<Witness>, cs: seq<seq<Lit>>)
    requires Witnesses(a0, pos, f, v, ws, cs) && Resolved(a0, v, f) && Extends(a0, a, v)
    requires forall u: nat :: u < |a0| && a0[u] != 0 ==> a[u] != 0
    ensures var b := Replay(a, pos, ws);
            && Extends(a0, b, v) && Kept(pos, f, v, a, b) && forall i :: 0 <= i < |ws| ==> True(b, cs[i])
    decreases |ws|
  {
    hide Resolved, Stems, True, Ordered, Replay1;
    if |ws| > 0 {
      var n := |ws| - 1;
      var a' := Replay1(a, pos, ws[n]);
      StepKept(a0, a, pos, f, v, ws[n], cs[n]);
      ReplayKeeps(a0, a', pos, f, v, ws[..n], cs[..n]);
      var b := Replay(a, pos, ws);
      KeptTrans(pos, f, v, a, a', b);
      forall i | 0 <= i < |ws| ensures True(b, cs[i]) {
        assert i < n ==> cs[..n][i] == cs[i];
      }
    }
  }

  lemma StemTrue(a0: Values, a: Values, w: Witness, c: seq<Lit>)
    requires Stems(a0, w, c) && True(a, Lits(w))
    ensures True(a, c)
  {
    var l :| l in Lits(w) && Val(a, l) > 0;
    assert l in c;
  }

  /** What elimination of variable v from f, leaving f', stores on the extension stack. */
  ghost predicate Eliminates(a: Values, pos: seq<int>, f: Clauses, f': Clauses, v: nat, ws: seq<Witness>) {
    && Resolved(a, v, f)
    && (forall c :: c in f && c !in f' ==> True(a, c) || 2 * v in c || 2 * v + 1 in c)
    && exists cs, unit: seq<Witness>, lit: Lit :: Stored(a, pos, f, v, ws, cs, unit, lit)
  }

  /** Clauses with lit are stored; those with its negation too, or replaced by a default unit pushed last. */
  ghost predicate Stored(a: Values, pos: seq<int>, f: Clauses, v: nat, ws: seq<Witness>, cs: seq<seq<Lit>>,
                         unit: seq<Witness>, lit: Lit) {
    && Var(lit) == v && |cs| + |unit| == |ws| && unit == ws[|cs|..]
    && Witnesses(a, pos, f, v, ws[..|cs|], cs)
    && (forall c :: c in f && lit in c ==> True(a, c) || c in cs)
    && if unit == [] then (forall c :: c in f && Neg(lit) in c ==> True(a, c) || c in cs)
       else unit == [Witness(Neg(lit), [])] && Pos(pos, lit) >= 0
  }

  /**
    The model of the clauses left by an elimination, replayed through its witnesses, satisfies the
    clauses before; variables eliminated earlier stay unassigned.
   */
  lemma EliminationReplay(a: Values, pos: seq<int>, f: Clauses, f': Clauses, v: nat, ws: seq<Witness>)
    requires v < |a| == |pos| && a[v] == 0 && Satisfies(a, f') && Eliminates(a, pos, f, f', v, ws)
    ensures var b := Replay(a, pos, ws);
            && Satisfies(b, f) && |b| == |a|
            && (forall u: nat :: u < |a| && a[u] != 0 ==> b[u] != 0)
            && (forall u: nat :: u < |a| && Pos(pos, 2 * u) < Pos(pos, 2 * v) ==> b[u] == a[u])
  {
    hide Resolved, Stems, Ordered, Replay1, True;
    var cs, unit, lit :| Stored(a, pos, f, v, ws, cs, unit, lit);
    SameVar(lit, 2 * v);
    var a1 := Replay(a, pos, unit);
    assert ws == ws[..|cs|] + unit;
    ReplaySplit(a, pos, ws[..|cs|], unit);
    UnitReplay(a, pos, f, v, unit, lit);
    ReplayKeeps(a, a1, pos, f, v, ws[..|cs|], cs);
    var b := Replay(a, pos, ws);
    forall c | c in f ensures True(b, c) {
      if c in cs {
        var i :| 0 <= i < |cs| && cs[i] == c;
      }
    }
  }

  /** The default unit makes every clause with its literal true. */
  lemma UnitReplay(a: Values, pos: seq<int>, f: Clauses, v: nat, unit: seq<Witness>, lit: Lit)
    requires v < |a| == |pos| && a[v] == 0 && Var(lit) == v
    requires unit == [] || (unit == [Witness(Neg(lit), [])] && Pos(pos, lit) >= 0)
    ensures var a1 := Replay(a, pos, unit);
            && Extends(a, a1, v)
            && (forall e :: True(a, e) ==> True(a1, e))
            && (forall e :: unit != [] && Neg(lit) in e ==> True(a1, e))
            && (forall u: nat :: u < |a| && a[u] != 0 ==> a1[u] != 0)
            && (forall u: nat :: u < |a| && u != v ==> a1[u] == a[u])
  {
    SameVar(lit, Neg(lit));
    if unit != [] {
      var w := unit[0];
      assert unit[..0] == [];
      StepCases(a, pos, w);
      assert Lits(w) == [Neg(lit)];
      var b := Replay1(a, pos, w);
      assert b == Assign(a, Neg(lit));
      forall e | True(a, e) ensures True(b, e) {
        var t :| t in e && Val(a, t) > 0;
        assert Val(b, t) > 0;
      }
    }
  }

  // ------------------------------------------------------------------ whole runs

  /** pos' continues pos, in which the positions below k are taken. */
  ghost predicate Continues(pos: seq<int>, pos': seq<int>, k: nat) {
    && |pos'| == |pos|
    && forall u :: 0 <= u < |pos| ==> if pos[u] >= 0 then pos'[u] == pos[u] < k else pos'[u] < 0 || pos'[u] >= k
  }

  /** Only eliminated variables are unassigned, and those eliminated before position k are. */
  ghost predicate Partial(a: Values, pos: seq<int>, k: nat) {
    && |a| == |pos|
    && forall u :: 0 <= u < |a| ==> (a[u] == 0 ==> pos[u] >= 0) && (0 <= pos[u] < k ==> a[u] == 0)
  }

  /** Whatever is eliminated later, replaying ws turns a model of f into one of the formula f0 at the start. */
  ghost predicate Reconstructs(f0: Clauses, f: Clauses, pos: seq<int>, k: nat, ws: seq<Witness>) {
    forall a: Values, pos' | Continues(pos, pos', k) && Partial(a, pos', k) && Satisfies(a, f) ::
      Satisfies(Replay(a, pos', ws), f0)
  }

  lemma RunStart(f: Clauses, pos: seq<int>)
    ensures Reconstructs(f, f, pos, 0, [])
  {
  }

  /** An elimination continues a run. */
  lemma RunStep(f0: Clauses, f: Clauses, f': Clauses, pos: seq<int>, k: nat, es: seq<Witness>, v: nat, ws: seq<Witness>)
    requires Reconstructs(f0, f, pos, k, es) && v < |pos| && pos[v] < 0 && forall u :: 0 <= u < |pos| ==> pos[u] < k
    requires forall a: Values, pos' | Continues(pos[v := k], pos', k + 1) &&
             Partial(a, pos', k + 1) && Satisfies(a, f') ::
               Eliminates(a, pos', f, f', v, ws)
    ensures Reconstructs(f0, f', pos[v := k], k + 1, es + ws)
  {
    hide Eliminates, Satisfies, Continues, Partial;
    forall a: Values, pos' | Continues(pos[v := k], pos', k + 1) && Partial(a, pos', k + 1) && Satisfies(a, f')
      ensures Satisfies(Replay(a, pos', es + ws), f0)
    {
      RunModel(f, f', pos, k, v, ws, a, pos');
      ReplaySplit(a, pos', es, ws);
    }
  }

  lemma RunModel(f: Clauses, f': Clauses, pos: seq<int>, k: nat, v: nat, ws: seq<Witness>, a: Values, pos': seq<int>)
    requires v < |pos| && pos[v] < 0 && forall u :: 0 <= u < |pos| ==> pos[u] < k
    requires Continues(pos[v := k], pos', k + 1) && Partial(a, pos', k + 1)
    requires Satisfies(a, f') && Eliminates(a, pos', f, f', v, ws)
    ensures Continues(pos, pos', k) && Partial(Replay(a, pos', ws), pos', k) && Satisfies(Replay(a, pos', ws), f)
  {
    hide Eliminates, Satisfies, Replay;
    assert pos[v := k][v] == k;
    EliminationReplay(a, pos', f, f', v, ws);
    var b := Replay(a, pos', ws);
    forall u | 0 <= u < |b| ensures (b[u] == 0 ==> pos'[u] >= 0) && (0 <= pos'[u] < k ==> b[u] == 0) {
      if 0 <= pos'[u] < k {
        assert Pos(pos', 2 * u) < Pos(pos', 2 * v);
        assert b[u] == a[u];
        assert (a[u] == 0 ==> pos'[u] >= 0) && (0 <= pos'[u] < k + 1 ==> a[u] == 0);
      }
    }
    forall u | 0 <= u < |pos| ensures if pos[u] >= 0 then pos'[u] == pos[u] < k else pos'[u] < 0 || pos'[u] >= k {
      assert pos[v := k][u] == if u == v then k else pos[u];
    }
  }

  /** Replacing the formula by a stronger one continues a run. */
  lemma RunStronger(f0: Clauses, f: Clauses, f': Clauses, pos: seq<int>, k: nat, es: seq<Witness>)
    requires Reconstructs(f0, f, pos, k, es)
    requires forall a: Values | Satisfies(a, f') :: Satisfies(a, f)
    ensures Reconstructs(f0, f', pos, k, es)
  {
  }
}
