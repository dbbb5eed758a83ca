/**
  The data of the embedded solver (kitten.c) and the pure invariants over it.

  Every invariant is a predicate over the values of the solver's fields, so that a
  method that changes one field leaves the invariants over the others untouched.
*/
module KittenModel {
  import opened LinkedQueue
  import opened Literals

  /** The invalid reference (INVALID in kitten.c): no clause, no variable. */
  const INVALID := -1

  /** Level and reason of an assigned variable. */
  datatype Kar = Kar(level: nat, reason: int)

  /** One entry of a watch list. */
  datatype Katch = Katch(blit: Lit, ref: nat, binary: bool)

  datatype Klause = Klause(lits: seq<Lit>, learned: bool, core: bool, antecedents: seq<int>)

  function Lv(vars: seq<Kar>, l: Lit): nat {
    if Var(l) < |vars| then vars[Var(l)].level else 0
  }

  function Why(vars: seq<Kar>, l: Lit): int {
    if Var(l) < |vars| then vars[Var(l)].reason else INVALID
  }

  // ---------------------------------------------------------------- assignment

  /** Two entries per variable, in {-1, 0, 1}, opposite for opposite literals. */
  ghost predicate Shape(values: seq<int>, vars: seq<Kar>) {
    && |values| == 2 * |vars|
    && (forall l: nat :: l < |values| ==> -1 <= values[l] <= 1)
    && (forall l: nat {:trigger Neg(l)} :: l < |values| ==> values[Neg(l)] == -values[l])
  }

  ghost predicate Before(trail: seq<Lit>, i: nat, x: Lit) {
    exists j :: 0 <= j < i && j < |trail| && trail[j] == x
  }

  ghost predicate Pending(trail: seq<Lit>, from: nat, x: Lit) {
    exists j :: from <= j < |trail| && trail[j] == x
  }

  /**
    The trail lists true literals once each, by increasing level; every true literal
    above the root level is on it.
   */
  ghost predicate TrailOK(values: seq<int>, vars: seq<Kar>, trail: seq<Lit>, level: nat) {
    && (forall i :: 0 <= i < |trail| ==> trail[i] < |values| && values[trail[i]] > 0)
    && (forall i, j :: 0 <= i < j < |trail| ==>
          trail[i] != trail[j] && Lv(vars, trail[i]) <= Lv(vars, trail[j]))
    && (forall l: nat :: l < |values| && values[l] > 0 ==>
          Lv(vars, l) <= level && (Lv(vars, l) == 0 || l in trail))
  }

  ghost predicate Klauses(n: nat, ks: seq<Klause>) {
    forall r :: 0 <= r < |ks| ==> Proper(n, ks[r].lits)
  }

  /** Clause c forces the literal at trail position i: its other literals were falsified before. */
  ghost predicate Forces(c: seq<Lit>, values: seq<int>, vars: seq<Kar>, trail: seq<Lit>, i: nat)
    requires i < |trail|
  {
    && trail[i] in c
    && (forall o :: o in c && o != trail[i] ==>
          o < |values| && values[o] < 0 && (Lv(vars, o) == 0 || Before(trail, i, Neg(o))))
  }

  ghost predicate ReasonAt(values: seq<int>, vars: seq<Kar>, trail: seq<Lit>, ks: seq<Klause>, i: nat)
    requires i < |trail|
  {
    Lv(vars, trail[i]) > 0 && Why(vars, trail[i]) != INVALID ==>
      && 0 <= Why(vars, trail[i]) < |ks|
      && Forces(ks[Why(vars, trail[i])].lits, values, vars, trail, i)
  }

  ghost predicate Reasons(values: seq<int>, vars: seq<Kar>, trail: seq<Lit>, ks: seq<Klause>) {
    forall i :: 0 <= i < |trail| ==> ReasonAt(values, vars, trail, ks, i)
  }

  /** A literal true at the root level has its unit clause as reason. */
  ghost predicate Roots(values: seq<int>, vars: seq<Kar>, ks: seq<Klause>) {
    forall l: nat :: l < |values| && values[l] > 0 && Lv(vars, l) == 0 ==>
      0 <= Why(vars, l) < |ks| && ks[Why(vars, l)].lits == [l]
  }

  ghost predicate Assigned(values: seq<int>, vars: seq<Kar>, trail: seq<Lit>, level: nat, ks: seq<Klause>) {
    && Shape(values, vars)
    && TrailOK(values, vars, trail, level)
    && Klauses(|values|, ks)
    && Reasons(values, vars, trail, ks)
    && Roots(values, vars, ks)
  }

  /** References stay valid; clauses keep their origin and, up to order, their literals. */
  ghost predicate Similar(ks: seq<Klause>, ks': seq<Klause>) {
    && |ks| <= |ks'|
    && (forall r :: 0 <= r < |ks| ==>
          && SameLits(ks[r].lits, ks'[r].lits)
          && ks'[r].learned == ks[r].learned
          && ks'[r].antecedents == ks[r].antecedents)
  }

  /** The clauses added to ks in ks' are all learned ones; core flags do not change. */
  ghost predicate SameFormula(ks: seq<Klause>, ks': seq<Klause>) {
    && Similar(ks, ks')
    && (forall r :: |ks| <= r < |ks'| ==> ks'[r].learned && !ks'[r].core)
    && (forall r :: 0 <= r < |ks| ==> ks'[r].core == ks[r].core)
  }

  ghost predicate SameLits(c: seq<Lit>, d: seq<Lit>) {
    |c| == |d| && (forall l :: l in c <==> l in d)
  }

  lemma SimilarKeepsAssigned(values: seq<int>, vars: seq<Kar>, trail: seq<Lit>, level: nat,
                             ks: seq<Klause>, ks': seq<Klause>)
    requires Assigned(values, vars, trail, level, ks)
    requires Similar(ks, ks') && Klauses(|values|, ks')
    ensures Assigned(values, vars, trail, level, ks')
  {
    forall i | 0 <= i < |trail|
      ensures ReasonAt(values, vars, trail, ks', i)
    {
      assert ReasonAt(values, vars, trail, ks, i);
      var r := Why(vars, trail[i]);
      if Lv(vars, trail[i]) > 0 && r != INVALID {
        assert SameLits(ks[r].lits, ks'[r].lits);
        assert Forces(ks'[r].lits, values, vars, trail, i);
      }
    }
    forall l: nat | l < |values| && values[l] > 0 && Lv(vars, l) == 0
      ensures 0 <= Why(vars, l) < |ks'| && ks'[Why(vars, l)].lits == [l]
    {
      var r := Why(vars, l);
      assert SameLits(ks[r].lits, ks'[r].lits);
      assert ks'[r].lits[0] in ks[r].lits;
    }
  }

  function Set(values: seq<int>, lit: Lit): seq<int> {
    if lit < |values| && Neg(lit) < |values| then values[lit := 1][Neg(lit) := -1] else values
  }

  /** What assign demands of the reason of a new literal. */
  ghost predicate MayForce(values: seq<int>, vars: seq<Kar>, level: nat, ks: seq<Klause>, lit: Lit, reason: int) {
    if level == 0 then
      0 <= reason < |ks| && ks[reason].lits == [lit]
    else if reason == INVALID then
      true
    else
      && 0 <= reason < |ks| && lit in ks[reason].lits
      && (forall o :: o in ks[reason].lits && o != lit ==> o < |values| && values[o] < 0)
  }

  lemma AssignShape(values: seq<int>, vars: seq<Kar>, lit: Lit, k: Kar)
    requires Shape(values, vars) && lit < |values| && values[lit] == 0
    ensures Neg(lit) < |values| && values[Neg(lit)] == 0
    ensures Shape(Set(values, lit), vars[Var(lit) := k])
  {
    assert values[Neg(lit)] == -values[lit];
    var values' := Set(values, lit);
    forall l: nat | l < |values| ensures values'[Neg(l)] == -values'[l] {
    }
  }

  lemma AssignKeeps(values: seq<int>, vars: seq<Kar>, trail: seq<Lit>, level: nat,
                    ks: seq<Klause>, lit: Lit, reason: int)
    requires Assigned(values, vars, trail, level, ks)
    requires lit < |values| && values[lit] == 0
    requires MayForce(values, vars, level, ks, lit, reason)
    ensures Neg(lit) < |values|
    ensures Assigned(Set(values, lit), vars[Var(lit) := Kar(level, reason)], trail + [lit], level, ks)
  {
    AssignShape(values, vars, lit, Kar(level, reason));
    var values', vars', trail' := Set(values, lit), vars[Var(lit) := Kar(level, reason)], trail + [lit];
    forall l: nat | l < |values| && values[l] != 0
      ensures values'[l] == values[l] && vars'[Var(l)] == vars[Var(l)]
    {
      assert l != lit && l != Neg(lit);
    }
    assert TrailOK(values', vars', trail', level) by {
      forall l: nat | l < |values| && values'[l] > 0
        ensures Lv(vars', l) <= level && (Lv(vars', l) == 0 || l in trail')
      {
        if l != lit {
          assert values[l] > 0;
        }
      }
    }
    forall i | 0 <= i < |trail'|
      ensures ReasonAt(values', vars', trail', ks, i)
    {
      AssignReason(values, vars, trail, level, ks, lit, reason, i);
    }
    assert Reasons(values', vars', trail', ks);
    assert Roots(values', vars', ks);
  }

  lemma AssignReason(values: seq<int>, vars: seq<Kar>, trail: seq<Lit>, level: nat,
                     ks: seq<Klause>, lit: Lit, reason: int, i: nat)
    requires Assigned(values, vars, trail, level, ks)
    requires lit < |values| && values[lit] == 0
    requires MayForce(values, vars, level, ks, lit, reason)
    requires i <= |trail|
    ensures Neg(lit) < |values| && Shape(Set(values, lit), vars[Var(lit) := Kar(level, reason)])
    ensures ReasonAt(Set(values, lit), vars[Var(lit) := Kar(level, reason)], trail + [lit], ks, i)
  {
    AssignShape(values, vars, lit, Kar(level, reason));
    var values', vars', trail' := Set(values, lit), vars[Var(lit) := Kar(level, reason)], trail + [lit];
    forall l: nat | l < |values| && values[l] != 0
      ensures values'[l] == values[l] && vars'[Var(l)] == vars[Var(l)]
    {
      assert l != lit && l != Neg(lit);
    }
    if i < |trail| {
      assert ReasonAt(values, vars, trail, ks, i);
      forall o | Before(trail, i, o) ensures Before(trail', i, o) {
        var j :| 0 <= j < i && j < |trail| && trail[j] == o;
        assert trail'[j] == o;
      }
    } else if level > 0 && reason != INVALID {
      var c := ks[reason].lits;
      forall o | o in c && o != lit
        ensures values'[o] < 0 && (Lv(vars', o) == 0 || Before(trail', i, Neg(o)))
      {
        assert values[Neg(o)] > 0;
        if Lv(vars, o) != 0 {
          assert Neg(o) in trail;
          var j :| 0 <= j < |trail| && trail[j] == Neg(o);
          assert trail'[j] == Neg(o);
        }
      }
    }
  }

  // ------------------------------------------------------------------ backtracking

  /** The assignment in which only the literals of level at most jump are kept. */
  ghost predicate CutTo(values: seq<int>, vars: seq<Kar>, values': seq<int>, jump: nat) {
    && |values'| == |values| == 2 * |vars|
    && (forall l: nat :: l < |values| ==>
          values'[l] == if Lv(vars, l) <= jump then values[l] else 0)
  }

  /** Trail positions below m are exactly those of level at most jump. */
  ghost predicate Split(vars: seq<Kar>, trail: seq<Lit>, m: nat, jump: nat) {
    && m <= |trail|
    && (forall i :: 0 <= i < m ==> Lv(vars, trail[i]) <= jump)
    && (forall i :: m <= i < |trail| ==> Lv(vars, trail[i]) > jump)
  }

  lemma CutShape(values: seq<int>, vars: seq<Kar>, values': seq<int>, jump: nat)
    requires Shape(values, vars) && CutTo(values, vars, values', jump)
    ensures Shape(values', vars)
  {
    forall l: nat | l < |values| ensures values'[Neg(l)] == -values'[l] {
      assert values[Neg(l)] == -values[l];
    }
  }

  lemma CutKeeps(values: seq<int>, vars: seq<Kar>, trail: seq<Lit>, level: nat, ks: seq<Klause>,
                 values': seq<int>, m: nat, jump: nat)
    requires Assigned(values, vars, trail, level, ks)
    requires CutTo(values, vars, values', jump) && Split(vars, trail, m, jump)
    ensures Assigned(values', vars, trail[..m], jump, ks)
  {
    CutShape(values, vars, values', jump);
    var trail' := trail[..m];
    assert TrailOK(values', vars, trail', jump) by {
      forall l: nat | l < |values'| && values'[l] > 0
        ensures Lv(vars, l) <= jump && (Lv(vars, l) == 0 || l in trail')
      {
        if Lv(vars, l) != 0 {
          var j :| 0 <= j < |trail| && trail[j] == l;
          assert trail'[j] == l;
        }
      }
    }
    forall i | 0 <= i < |trail'|
      ensures ReasonAt(values', vars, trail', ks, i)
    {
      CutReason(values, vars, trail, level, ks, values', m, jump, i);
    }
  }

  lemma CutReason(values: seq<int>, vars: seq<Kar>, trail: seq<Lit>, level: nat, ks: seq<Klause>,
                  values': seq<int>, m: nat, jump: nat, i: nat)
    requires Assigned(values, vars, trail, level, ks)
    requires CutTo(values, vars, values', jump) && Split(vars, trail, m, jump)
    requires Shape(values', vars) && i < m
    ensures ReasonAt(values', vars, trail[..m], ks, i)
  {
    var trail' := trail[..m];
    assert trail'[i] == trail[i] && ReasonAt(values, vars, trail, ks, i);
    if Lv(vars, trail[i]) > 0 && Why(vars, trail[i]) != INVALID {
      var c := ks[Why(vars, trail[i])].lits;
      forall o | o in c && o != trail[i]
        ensures values'[o] < 0 && (Lv(vars, o) == 0 || Before(trail', i, Neg(o)))
      {
        if Lv(vars, o) != 0 {
          var j :| 0 <= j < i && j < |trail| && trail[j] == Neg(o);
          assert trail'[j] == Neg(o);
        }
      }
    }
  }

  // ------------------------------------------------------------------ watches

  /**
    Katch k in the list of l is one of the two watches of the clause it refers to.  The watch added
    last is the second one, and its blocking literal is always the other watch.
   */
  ghost predicate KatchOK(ks: seq<Klause>, l: Lit, k: Katch) {
    && k.ref < |ks| && |ks[k.ref].lits| >= 2
    && (ks[k.ref].lits[0] == l || ks[k.ref].lits[1] == l)
    && k.blit in ks[k.ref].lits && k.blit != l
    && (ks[k.ref].lits[1] == l ==> k.blit == ks[k.ref].lits[0])
    && (k.binary <==> |ks[k.ref].lits| == 2)
  }

  ghost predicate Listed(ws: seq<Katch>, r: nat) {
    exists i :: 0 <= i < |ws| && ws[i].ref == r
  }

  ghost predicate ListOK(ks: seq<Klause>, l: Lit, ws: seq<Katch>) {
    && (forall i :: 0 <= i < |ws| ==> KatchOK(ks, l, ws[i]))
    && (forall i, j :: 0 <= i < j < |ws| ==> ws[i].ref != ws[j].ref)
  }

  ghost predicate WatchedAt(ks: seq<Klause>, watches: seq<seq<Katch>>, r: nat)
    requires r < |ks|
  {
    |ks[r].lits| >= 2 ==>
      && ks[r].lits[0] < |watches| && Listed(watches[ks[r].lits[0]], r)
      && ks[r].lits[1] < |watches| && Listed(watches[ks[r].lits[1]], r)
  }

  /** A clause of size at least two is watched once by each of its first two literals. */
  ghost predicate Watched(ks: seq<Klause>, watches: seq<seq<Katch>>) {
    && (forall l: nat :: l < |watches| ==> ListOK(ks, l, watches[l]))
    && (forall r :: 0 <= r < |ks| ==> WatchedAt(ks, watches, r))
  }

  /** Every clause of size at least two has a katch of its second literal that blocks with the first. */
  lemma RecentWatch(ks: seq<Klause>, watches: seq<seq<Katch>>, r: nat)
    requires Watched(ks, watches) && r < |ks| && |ks[r].lits| >= 2
    ensures ks[r].lits[1] < |watches|
    ensures exists k :: k in watches[ks[r].lits[1]] && k.ref == r && k.blit == ks[r].lits[0]
  {
    var l := ks[r].lits[1];
    assert WatchedAt(ks, watches, r) && ListOK(ks, l, watches[l]);
    var i :| 0 <= i < |watches[l]| && watches[l][i].ref == r;
    assert KatchOK(ks, l, watches[l][i]) && watches[l][i] in watches[l];
  }

  /** Some literal of c is true, and was so at the given level. */
  ghost predicate Supported(c: seq<Lit>, values: seq<int>, vars: seq<Kar>, lv: nat) {
    exists t :: t in c && t < |values| && values[t] > 0 && Lv(vars, t) <= lv
  }

  /** If l is false and propagated, then clause c was made true no later than l was made false. */
  ghost predicate Visited(l: Lit, c: seq<Lit>, values: seq<int>, vars: seq<Kar>, trail: seq<Lit>, from: nat, lv: int) {
    l < |values| && values[l] < 0 && Lv(vars, l) <= lv && !Pending(trail, from, Neg(l)) ==>
      Supported(c, values, vars, Lv(vars, l))
  }

  ghost predicate VisitedAt(c: seq<Lit>, values: seq<int>, vars: seq<Kar>, trail: seq<Lit>, from: nat, lv: int) {
    |c| >= 2 ==> Visited(c[0], c, values, vars, trail, from, lv) && Visited(c[1], c, values, vars, trail, from, lv)
  }

  /**
    The watch invariant: both watches of every clause are visited, for literals of level at
    most lv.  Trail positions from `from` on are still to be propagated.
   */
  ghost predicate Propagated(ks: seq<Klause>, values: seq<int>, vars: seq<Kar>, trail: seq<Lit>, from: nat, lv: int) {
    forall r :: 0 <= r < |ks| ==> VisitedAt(ks[r].lits, values, vars, trail, from, lv)
  }

  ghost predicate PendingOK(vars: seq<Kar>, trail: seq<Lit>, from: nat, level: nat) {
    && from <= |trail|
    && forall i :: from <= i < |trail| ==> Lv(vars, trail[i]) == level
  }

  lemma AssignVisited(c: seq<Lit>, values: seq<int>, vars: seq<Kar>, trail: seq<Lit>, from: nat, lv: int,
                      lit: Lit, k: Kar)
    requires Shape(values, vars) && Proper(|values|, c) && lit < |values| && values[lit] == 0
    requires from <= |trail|
    requires VisitedAt(c, values, vars, trail, from, lv)
    ensures Neg(lit) < |values| && Shape(Set(values, lit), vars[Var(lit) := k])
    ensures VisitedAt(c, Set(values, lit), vars[Var(lit) := k], trail + [lit], from, lv)
  {
    AssignShape(values, vars, lit, k);
    var values', vars', trail' := Set(values, lit), vars[Var(lit) := k], trail + [lit];
    assert trail'[|trail|] == lit;
    forall l: nat | l < |values| && values[l] != 0
      ensures values'[l] == values[l] && vars'[Var(l)] == vars[Var(l)]
    {
      assert l != lit && l != Neg(lit);
    }
    forall l | l in c && Visited(l, c, values, vars, trail, from, lv)
      ensures Visited(l, c, values', vars', trail', from, lv)
    {
      if l == Neg(lit) {
        assert Pending(trail', from, Neg(l));
      } else if Pending(trail, from, Neg(l)) {
        var j :| from <= j < |trail| && trail[j] == Neg(l);
        assert trail'[j] == Neg(l);
        assert Pending(trail', from, Neg(l));
      } else if values[l] < 0 && Lv(vars, l) <= lv {
        assert Supported(c, values, vars, Lv(vars, l));
      }
    }
  }

  lemma AssignPropagated(ks: seq<Klause>, values: seq<int>, vars: seq<Kar>, trail: seq<Lit>, from: nat, lv: int,
                         lit: Lit, k: Kar)
    requires Shape(values, vars) && Klauses(|values|, ks) && lit < |values| && values[lit] == 0
    requires from <= |trail| && Propagated(ks, values, vars, trail, from, lv)
    ensures Neg(lit) < |values| && Shape(Set(values, lit), vars[Var(lit) := k])
    ensures Propagated(ks, Set(values, lit), vars[Var(lit) := k], trail + [lit], from, lv)
  {
    AssignShape(values, vars, lit, k);
    forall r | 0 <= r < |ks|
      ensures VisitedAt(ks[r].lits, Set(values, lit), vars[Var(lit) := k], trail + [lit], from, lv)
    {
      AssignVisited(ks[r].lits, values, vars, trail, from, lv, lit, k);
    }
  }

  lemma CutVisited(c: seq<Lit>, values: seq<int>, vars: seq<Kar>, trail: seq<Lit>, level: nat, from: nat,
                   ks: seq<Klause>, values': seq<int>, m: nat, jump: nat)
    requires Assigned(values, vars, trail, level, ks) && Proper(|values|, c)
    requires PendingOK(vars, trail, from, level) && jump < level
    requires CutTo(values, vars, values', jump) && Split(vars, trail, m, jump)
    requires VisitedAt(c, values, vars, trail, from, level - 1)
    ensures Assigned(values', vars, trail[..m], jump, ks)
    ensures VisitedAt(c, values', vars, trail[..m], m, jump)
  {
    CutKeeps(values, vars, trail, level, ks, values', m, jump);
    forall l | l in c && Visited(l, c, values, vars, trail, from, level - 1)
      ensures Visited(l, c, values', vars, trail[..m], m, jump)
    {
      if values'[l] < 0 && Lv(vars, l) <= jump {
        assert Supported(c, values, vars, Lv(vars, l));
        var t :| t in c && values[t] > 0 && Lv(vars, t) <= Lv(vars, l);
        assert values'[t] > 0;
      }
    }
  }

  lemma CutPropagated(values: seq<int>, vars: seq<Kar>, trail: seq<Lit>, level: nat, from: nat,
                      ks: seq<Klause>, n: nat, values': seq<int>, m: nat, jump: nat)
    requires Assigned(values, vars, trail, level, ks) && n <= |ks|
    requires PendingOK(vars, trail, from, level) && jump < level
    requires CutTo(values, vars, values', jump) && Split(vars, trail, m, jump)
    requires Propagated(ks[..n], values, vars, trail, from, level - 1)
    ensures Assigned(values', vars, trail[..m], jump, ks)
    ensures Propagated(ks[..n], values', vars, trail[..m], m, jump)
  {
    CutKeeps(values, vars, trail, level, ks, values', m, jump);
    forall r | 0 <= r < n
      ensures VisitedAt(ks[..n][r].lits, values', vars, trail[..m], m, jump)
    {
      CutVisited(ks[..n][r].lits, values, vars, trail, level, from, ks, values', m, jump);
    }
  }

  // ------------------------------------------------------------------ entailment

  /** Model m satisfies every original clause. */
  ghost predicate Originals(m: Model, ks: seq<Klause>) {
    forall r :: 0 <= r < |ks| && !ks[r].learned ==> Sat(m, ks[r].lits)
  }

  /** Every clause, learned ones included, follows from the original clauses. */
  ghost predicate Implied(ks: seq<Klause>) {
    forall m: Model, r | Originals(m, ks) && 0 <= r < |ks| :: Sat(m, ks[r].lits)
  }

  ghost predicate SatAll(m: Model, ks: seq<Klause>, refs: seq<int>) {
    forall i :: 0 <= i < |refs| ==> 0 <= refs[i] < |ks| && Sat(m, ks[refs[i]].lits)
  }

  /** The clauses at refs alone imply clause c. */
  ghost predicate Entail(ks: seq<Klause>, refs: seq<int>, c: seq<Lit>) {
    forall m: Model | SatAll(m, ks, refs) :: Sat(m, c)
  }

  ghost predicate Refs(refs: seq<int>, bound: int) {
    forall i :: 0 <= i < |refs| ==> 0 <= refs[i] < bound
  }

  /** A learned clause has strictly smaller antecedents, and they imply it. */
  ghost predicate DerivedAt(ks: seq<Klause>, r: nat)
    requires r < |ks|
  {
    ks[r].learned ==> Refs(ks[r].antecedents, r) && Entail(ks, ks[r].antecedents, ks[r].lits)
  }

  ghost predicate Derived(ks: seq<Klause>) {
    forall r :: 0 <= r < |ks| ==> DerivedAt(ks, r)
  }

  ghost predicate Refuted(ks: seq<Klause>) {
    forall m: Model :: !Originals(m, ks)
  }

  lemma SameSat(m: Model, c: seq<Lit>, d: seq<Lit>)
    requires SameLits(c, d)
    ensures Sat(m, c) <==> Sat(m, d)
  {
    if Sat(m, c) {
      var l :| l in c && Holds(m, l);
      assert l in d;
    }
    if Sat(m, d) {
      var l :| l in d && Holds(m, l);
      assert l in c;
    }
  }

  lemma SameOriginals(m: Model, ks: seq<Klause>, ks': seq<Klause>)
    requires Similar(ks, ks') && forall r :: |ks| <= r < |ks'| ==> ks'[r].learned
    ensures Originals(m, ks) <==> Originals(m, ks')
  {
    forall r | 0 <= r < |ks| ensures Sat(m, ks[r].lits) <==> Sat(m, ks'[r].lits) {
      SameSat(m, ks[r].lits, ks'[r].lits);
    }
  }

  lemma SameEntail(ks: seq<Klause>, ks': seq<Klause>, refs: seq<int>, c: seq<Lit>)
    requires Similar(ks, ks') && Refs(refs, |ks|) && Entail(ks, refs, c)
    ensures Entail(ks', refs, c)
  {
    forall m: Model | SatAll(m, ks', refs) ensures Sat(m, c) {
      forall i | 0 <= i < |refs| ensures Sat(m, ks[refs[i]].lits) {
        SameSat(m, ks[refs[i]].lits, ks'[refs[i]].lits);
      }
      assert SatAll(m, ks, refs);
    }
  }

  /** Reordering the literals of clauses keeps entailment and derivations. */
  lemma SimilarKeepsImplied(ks: seq<Klause>, ks': seq<Klause>)
    requires Similar(ks, ks') && |ks| == |ks'| && Implied(ks)
    ensures Implied(ks')
  {
    forall m: Model, r | Originals(m, ks') && 0 <= r < |ks'| ensures Sat(m, ks'[r].lits) {
      SameOriginals(m, ks, ks');
      SameSat(m, ks[r].lits, ks'[r].lits);
    }
  }

  lemma SimilarKeepsDerived(ks: seq<Klause>, ks': seq<Klause>)
    requires Similar(ks, ks') && |ks| == |ks'| && Derived(ks)
    ensures Derived(ks')
  {
    forall r | 0 <= r < |ks'| ensures DerivedAt(ks', r) {
      assert DerivedAt(ks, r);
      if ks[r].learned {
        SameEntail(ks, ks', ks[r].antecedents, ks[r].lits);
        forall m: Model | SatAll(m, ks', ks[r].antecedents) ensures Sat(m, ks'[r].lits) {
          SameSat(m, ks[r].lits, ks'[r].lits);
        }
      }
    }
  }

  /** A clause that follows from clauses already there may be learned. */
  lemma LearnImplied(ks: seq<Klause>, k: Klause, refs: seq<int>)
    requires Implied(ks) && Refs(refs, |ks|) && Entail(ks, refs, k.lits) && k.learned
    ensures Implied(ks + [k])
  {
    var ks' := ks + [k];
    forall m: Model, r | Originals(m, ks') && 0 <= r < |ks'| ensures Sat(m, ks'[r].lits) {
      assert forall s :: 0 <= s < |ks| ==> ks'[s] == ks[s];
      assert Originals(m, ks);
      if r == |ks| {
        assert SatAll(m, ks, refs);
      }
    }
  }

  lemma LearnDerived(ks: seq<Klause>, k: Klause)
    requires Derived(ks) && k.learned && Refs(k.antecedents, |ks|) && Entail(ks, k.antecedents, k.lits)
    ensures Derived(ks + [k])
  {
    var ks' := ks + [k];
    forall r | 0 <= r < |ks'| ensures DerivedAt(ks', r) {
      if r < |ks| {
        assert DerivedAt(ks, r) && ks'[r] == ks[r];
        if ks[r].learned {
          SameEntail(ks, ks', ks[r].antecedents, ks[r].lits);
        }
      } else {
        SameEntail(ks, ks', k.antecedents, k.lits);
      }
    }
  }

  // ------------------------------------------------------------------ units and the empty clause

  ghost predicate UnitsOK(ks: seq<Klause>, units: seq<nat>) {
    && (forall i :: 0 <= i < |units| ==> units[i] < |ks| && |ks[units[i]].lits| == 1)
    && (forall r :: 0 <= r < |ks| && |ks[r].lits| == 1 ==> r in units)
  }

  ghost predicate EmptyOK(ks: seq<Klause>, inconsistent: int, tracked: bool) {
    && (forall r :: 0 <= r < |ks| && |ks[r].lits| == 0 ==> inconsistent != INVALID)
    && (inconsistent != INVALID ==>
          && 0 <= inconsistent < |ks| && Refuted(ks)
          && (tracked ==> |ks[inconsistent].lits| == 0))
  }

  /** What holds of the clauses at all times. */
  ghost predicate FormulaOK(ks: seq<Klause>, units: seq<nat>, inconsistent: int, tracked: bool) {
    && Implied(ks) && (tracked ==> Derived(ks))
    && UnitsOK(ks, units) && EmptyOK(ks, inconsistent, tracked)
  }

  ghost predicate Below(lits: seq<Lit>, n: nat) {
    forall a :: a in lits ==> a < n
  }

  // ------------------------------------------------------------------ unassigned variables

  ghost function CountFree(values: seq<int>, k: nat): nat
    requires 2 * k <= |values|
  {
    if k == 0 then 0 else CountFree(values, k - 1) + if values[2 * (k - 1)] == 0 then 1 else 0
  }

  lemma CountSame(values: seq<int>, values': seq<int>, k: nat)
    requires 2 * k <= |values| && |values'| == |values|
    requires forall v: nat :: v < k ==> (values[2 * v] == 0 <==> values'[2 * v] == 0)
    ensures CountFree(values, k) == CountFree(values', k)
  {
  }

  /** One variable more is assigned in values' than in values. */
  lemma {:induction false} CountOneLess(values: seq<int>, values': seq<int>, k: nat, v: nat)
    requires 2 * k <= |values| && |values'| == |values| && v < k
    requires values[2 * v] == 0 && values'[2 * v] != 0
    requires forall w: nat :: w < k && w != v ==> (values[2 * w] == 0 <==> values'[2 * w] == 0)
    ensures CountFree(values', k) == CountFree(values, k) - 1
  {
    if v == k - 1 {
      CountSame(values, values', k - 1);
    } else {
      CountOneLess(values, values', k - 1, v);
    }
  }

  lemma AllAssigned(values: seq<int>, k: nat, v: nat)
    requires 2 * k <= |values| && v < k && CountFree(values, k) == 0
    ensures values[2 * v] != 0
  {
  }

  lemma SomeFree(values: seq<int>, k: nat)
    requires 2 * k <= |values| && (forall v: nat :: v < k ==> values[2 * v] != 0)
    ensures CountFree(values, k) == 0
  {
  }

  // ------------------------------------------------------------------ decision queue

  ghost predicate Complete(links: seq<Link>, order: seq<nat>) {
    forall v: nat :: v < |links| ==> v in order
  }

  /** Every variable enqueued after the search pointer is assigned. */
  ghost predicate SearchOK(links: seq<Link>, search: int, values: seq<int>) {
    && |values| == 2 * |links|
    && (links != [] ==>
          && 0 <= search < |links|
          && (forall v: nat :: v < |links| && links[v].stamp > links[search].stamp ==> values[2 * v] != 0))
  }

  lemma LearnFormula(ks: seq<Klause>, units: seq<nat>, inconsistent: int, tracked: bool, k: Klause, refs: seq<int>)
    requires FormulaOK(ks, units, inconsistent, tracked)
    requires k.learned && Refs(refs, |ks|) && Entail(ks, refs, k.lits)
    requires tracked ==> k.antecedents == refs
    ensures FormulaOK(ks + [k], units + (if |k.lits| == 1 then [|ks|] else []),
                      if k.lits == [] && inconsistent == INVALID then |ks| else inconsistent, tracked)
  {
    LearnImplied(ks, k, refs);
    if tracked {
      LearnDerived(ks, k);
    }
    var ks' := ks + [k];
    var units' := units + if |k.lits| == 1 then [|ks|] else [];
    forall r | 0 <= r < |ks'| && |ks'[r].lits| == 1 ensures r in units' {
      if r < |ks| {
        assert r in units;
      } else {
        assert units'[|units|] == r;
      }
    }
    forall m: Model | k.lits == [] || inconsistent != INVALID ensures !Originals(m, ks') {
      assert forall r :: 0 <= r < |ks| ==> ks'[r] == ks[r];
      assert Originals(m, ks') ==> Originals(m, ks);
      assert Originals(m, ks') ==> Sat(m, ks'[|ks|].lits);
    }
  }

  // ------------------------------------------------------------------ connecting clauses

  /** The watch of c that is not l, which kitten.c computes by exclusive or. */
  function Other(c: seq<Lit>, l: Lit): Lit {
    if |c| < 2 then l else if c[0] == l then c[1] else c[0]
  }

  function Watch(watches: seq<seq<Katch>>, l: Lit, c: seq<Lit>, r: nat): seq<seq<Katch>> {
    if l < |watches| then watches[l := watches[l] + [Katch(Other(c, l), r, |c| == 2)]] else watches
  }

  function Connect(watches: seq<seq<Katch>>, c: seq<Lit>, r: nat): seq<seq<Katch>> {
    if |c| < 2 then watches else Watch(Watch(watches, c[0], c, r), c[1], c, r)
  }

  lemma ConnectKeepsWatched(ks: seq<Klause>, watches: seq<seq<Katch>>, k: Klause)
    requires Watched(ks, watches) && Proper(|watches|, k.lits)
    ensures Watched(ks + [k], Connect(watches, k.lits, |ks|))
  {
    var ks', watches' := ks + [k], Connect(watches, k.lits, |ks|);
    forall l: nat | l < |watches'| ensures ListOK(ks', l, watches'[l]) {
      assert ListOK(ks, l, watches[l]);
      forall i | 0 <= i < |watches'[l]| ensures KatchOK(ks', l, watches'[l][i]) {
        if i < |watches[l]| {
          assert KatchOK(ks, l, watches[l][i]);
        }
      }
    }
    forall r | 0 <= r < |ks'| ensures WatchedAt(ks', watches', r) {
      if r < |ks| {
        assert WatchedAt(ks, watches, r);
        if |ks[r].lits| >= 2 {
          StillListed(watches, watches', ks[r].lits[0], r);
          StillListed(watches, watches', ks[r].lits[1], r);
        }
      } else if |k.lits| >= 2 {
        var l0, l1 := k.lits[0], k.lits[1];
        assert watches'[l0][|watches[l0]|].ref == r;
        assert watches'[l1][|watches[l1]|].ref == r;
      }
    }
  }

  lemma StillListed(watches: seq<seq<Katch>>, watches': seq<seq<Katch>>, l: nat, r: nat)
    requires l < |watches| == |watches'| && watches[l] <= watches'[l] && Listed(watches[l], r)
    ensures Listed(watches'[l], r)
  {
    var i :| 0 <= i < |watches[l]| && watches[l][i].ref == r;
    assert watches'[l][i].ref == r;
  }

  // ------------------------------------------------------------------ learning root-level units

  ghost predicate CanForce(values: seq<int>, ks: seq<Klause>, lit: Lit, reason: int) {
    && 0 <= reason < |ks| && lit in ks[reason].lits
    && (forall o :: o in ks[reason].lits && o != lit ==> o < |values| && values[o] < 0)
  }

  /** A root-level false literal is refuted by its unit clause. */
  lemma RootFalse(m: Model, values: seq<int>, vars: seq<Kar>, ks: seq<Klause>, refs: seq<int>, o: Lit)
    requires Shape(values, vars) && Roots(values, vars, ks)
    requires o < |values| && values[o] < 0 && Lv(vars, o) == 0
    requires SatAll(m, ks, refs) && Why(vars, o) in refs
    ensures !Holds(m, o)
  {
    assert values[Neg(o)] > 0;
    assert ks[Why(vars, Neg(o))].lits == [Neg(o)];
    var j :| 0 <= j < |refs| && refs[j] == Why(vars, o);
    assert Sat(m, ks[refs[j]].lits);
    assert Holds(m, Neg(o));
  }

  /** At the root level a forced literal follows from its clause and the units of the other literals. */
  lemma RootEntail(values: seq<int>, vars: seq<Kar>, trail: seq<Lit>, ks: seq<Klause>,
                   lit: Lit, reason: int, refs: seq<int>)
    requires Assigned(values, vars, trail, 0, ks) && CanForce(values, ks, lit, reason)
    requires reason in refs
    requires forall o :: o in ks[reason].lits && o != lit ==> Why(vars, o) in refs
    ensures Entail(ks, refs, [lit])
  {
    var c := ks[reason].lits;
    forall m: Model | SatAll(m, ks, refs) ensures Sat(m, [lit]) {
      var i :| 0 <= i < |refs| && refs[i] == reason;
      assert Sat(m, ks[refs[i]].lits);
      forall o | o in c && o != lit ensures !Holds(m, o) {
        assert values[Neg(o)] > 0;
        RootFalse(m, values, vars, ks, refs, o);
      }
      assert lit in [lit];
    }
  }

  lemma MovedComplete(links: seq<Link>, order: seq<nat>, i: nat, links': seq<Link>)
    requires Complete(links, order) && i < |order| && |links'| == |links|
    ensures Complete(links', order[..i] + order[i + 1..] + [order[i]])
  {
    var order' := order[..i] + order[i + 1..] + [order[i]];
    forall v: nat | v < |links| ensures v in order' {
      assert v in order;
      var j :| 0 <= j < |order| && order[j] == v;
      assert order'[if j < i then j else if j == i then |order'| - 1 else j - 1] == v;
    }
  }

  // ------------------------------------------------------------------ growth of the assignment

  /** values' extends values; the literals added have level lv. */
  ghost predicate Grows(values: seq<int>, vars: seq<Kar>, values': seq<int>, vars': seq<Kar>, lv: nat) {
    && |values'| == |values| == 2 * |vars| && |vars'| == |vars|
    && (forall l: nat :: l < |values| && values[l] != 0 ==>
          values'[l] == values[l] && vars'[Var(l)] == vars[Var(l)])
    && (forall l: nat :: l < |values| && values[l] == 0 && values'[l] != 0 ==> Lv(vars', l) == lv)
  }

  lemma AssignGrows(values: seq<int>, vars: seq<Kar>, lit: Lit, k: Kar)
    requires Shape(values, vars) && lit < |values| && values[lit] == 0
    ensures Neg(lit) < |values|
    ensures Grows(values, vars, Set(values, lit), vars[Var(lit) := k], k.level)
  {
    AssignShape(values, vars, lit, k);
    assert Var(Neg(lit)) == Var(lit);
    forall l: nat | l < |values| && values[l] != 0
      ensures l != lit && l != Neg(lit) && Var(l) != Var(lit)
    {
      assert Var(l) == Var(lit) ==> l == lit || l == Neg(lit);
    }
  }

  lemma AssignCount(values: seq<int>, vars: seq<Kar>, lit: Lit)
    requires Shape(values, vars) && lit < |values| && values[lit] == 0
    ensures Neg(lit) < |values|
    ensures CountFree(Set(values, lit), |vars|) == CountFree(values, |vars|) - 1
  {
    AssignShape(values, vars, lit, Kar(0, 0));
    CountOneLess(values, Set(values, lit), |vars|, Var(lit));
  }

  lemma AssignPending(vars: seq<Kar>, trail: seq<Lit>, from: nat, level: nat, values: seq<int>, lit: Lit, k: Kar)
    requires Shape(values, vars) && lit < |values| && values[lit] == 0 && k.level == level
    requires PendingOK(vars, trail, from, level)
    requires forall i :: 0 <= i < |trail| ==> trail[i] < |values| && values[trail[i]] > 0
    ensures PendingOK(vars[Var(lit) := k], trail + [lit], from, level)
  {
    AssignGrows(values, vars, lit, k);
  }

  lemma AssignSearch(links: seq<Link>, search: int, values: seq<int>, lit: Lit)
    requires SearchOK(links, search, values) && lit < |values| && Neg(lit) < |values|
    ensures SearchOK(links, search, Set(values, lit))
  {
  }

  /** The unit clauses of a clause's false literals, and the clause itself. */
  function RootRefs(vars: seq<Kar>, c: seq<Lit>, lit: Lit, reason: int, k: nat): (refs: seq<int>)
    requires k <= |c|
    ensures reason in refs && forall i :: 0 <= i < k && c[i] != lit ==> Why(vars, c[i]) in refs
  {
    if k == 0 then [reason]
    else RootRefs(vars, c, lit, reason, k - 1) + if c[k - 1] != lit then [Why(vars, c[k - 1])] else []
  }

  lemma RootRefsStart(vars: seq<Kar>, c: seq<Lit>, lit: Lit, reason: int)
    ensures RootRefs(vars, c, lit, reason, 0) == [reason]
  {
  }

  lemma RootRefsStep(vars: seq<Kar>, c: seq<Lit>, lit: Lit, reason: int, k: nat)
    requires k < |c|
    ensures RootRefs(vars, c, lit, reason, k + 1) ==
            RootRefs(vars, c, lit, reason, k) + if c[k] != lit then [Why(vars, c[k])] else []
  {
  }

  lemma RootRefsBound(values: seq<int>, vars: seq<Kar>, trail: seq<Lit>, ks: seq<Klause>,
                      lit: Lit, reason: int, k: nat)
    requires Assigned(values, vars, trail, 0, ks) && CanForce(values, ks, lit, reason)
    requires k <= |ks[reason].lits|
    ensures Refs(RootRefs(vars, ks[reason].lits, lit, reason, k), |ks|)
  {
    if k > 0 {
      RootRefsBound(values, vars, trail, ks, lit, reason, k - 1);
      var o := ks[reason].lits[k - 1];
      if o != lit {
        assert values[Neg(o)] > 0;
      }
    }
  }

  /** Everything that assigning one literal keeps. */
  lemma AssignStep(values: seq<int>, vars: seq<Kar>, trail: seq<Lit>, from: nat, level: nat,
                   ks: seq<Klause>, links: seq<Link>, search: int, lit: Lit, reason: int)
    requires Assigned(values, vars, trail, level, ks) && PendingOK(vars, trail, from, level)
    requires SearchOK(links, search, values)
    requires lit < |values| && values[lit] == 0
    requires MayForce(values, vars, level, ks, lit, reason)
    ensures Neg(lit) < |values| && Var(lit) < |vars|
    ensures CountFree(Set(values, lit), |vars|) == CountFree(values, |vars|) - 1
    ensures var vars' := vars[Var(lit) := Kar(level, reason)];
            && Assigned(Set(values, lit), vars', trail + [lit], level, ks)
            && PendingOK(vars', trail + [lit], from, level)
            && SearchOK(links, search, Set(values, lit))
            && Grows(values, vars, Set(values, lit), vars', level)
  {
    AssignGrows(values, vars, lit, Kar(level, reason));
    AssignCount(values, vars, lit);
    AssignSearch(links, search, values, lit);
    AssignKeeps(values, vars, trail, level, ks, lit, reason);
    AssignPending(vars, trail, from, level, values, lit, Kar(level, reason));
  }

  // ------------------------------------------------------------------ learned root-level units

  /** At most the unit clause of lit has been learned. */
  ghost predicate RootLearned(lit: Lit, ks: seq<Klause>, units: seq<nat>, ks': seq<Klause>, units': seq<nat>) {
    || (ks' == ks && units' == units)
    || (units' == units + [|ks|] && |ks'| == |ks| + 1 && ks' == ks + [ks'[|ks|]] &&
        ks'[|ks|].lits == [lit] && ks'[|ks|].learned && !ks'[|ks|].core)
  }

  lemma LearnKeepsAssigned(values: seq<int>, vars: seq<Kar>, trail: seq<Lit>, level: nat,
                           ks: seq<Klause>, k: Klause)
    requires Assigned(values, vars, trail, level, ks) && Proper(|values|, k.lits)
    ensures Assigned(values, vars, trail, level, ks + [k])
  {
    SimilarKeepsAssigned(values, vars, trail, level, ks, ks + [k]);
  }

  /** What RootReason needs to know before it learns the unit clause of lit. */
  lemma RootUnit(values: seq<int>, vars: seq<Kar>, trail: seq<Lit>, ks: seq<Klause>, lit: Lit, reason: nat)
    requires Assigned(values, vars, trail, 0, ks) && CanForce(values, ks, lit, reason)
    requires lit < |values|
    ensures reason < |ks|
    ensures |ks[reason].lits| > 1 ==>
              var refs := RootRefs(vars, ks[reason].lits, lit, reason, |ks[reason].lits|);
              && Refs(refs, |ks|) && Entail(ks, refs, [lit])
    ensures |ks[reason].lits| <= 1 ==> MayForce(values, vars, 0, ks, lit, reason)
    ensures Proper(|values|, [lit])
  {
    var c := ks[reason].lits;
    if |c| > 1 {
      RootRefsBound(values, vars, trail, ks, lit, reason, |c|);
      RootEntail(values, vars, trail, ks, lit, reason, RootRefs(vars, c, lit, reason, |c|));
    }
  }

  lemma NothingLearned(lit: Lit, ks: seq<Klause>, units: seq<nat>)
    ensures RootLearned(lit, ks, units, ks, units)
  {
  }

  // ------------------------------------------------------------------ the whole state

  /** The struct of the solver. */
  datatype State = State(
    tracked: bool, level: nat, propagated: nat, unassigned: int, inconsistent: int, failing: int,
    first: int, last: int, stamp: nat, search: int,
    vars: seq<Kar>, links: seq<Link>, marks: seq<bool>, values: seq<int>, failed: seq<bool>,
    phases: seq<bool>, watches: seq<seq<Katch>>,
    analyzed: seq<nat>, assumptions: seq<Lit>, klause: seq<Lit>, klauses: seq<Klause>,
    resolved: seq<int>, trail: seq<Lit>, units: seq<nat>,
    status: int, core: seq<nat>)

  ghost predicate Sized(s: State) {
    && |s.values| == 2 * |s.vars|
    && |s.links| == |s.marks| == |s.phases| == |s.vars|
    && |s.failed| == |s.watches| == |s.values|
  }

  /** The invariant of the solver, without the watch lists and the analysis buffers. */
  ghost predicate Base(s: State) {
    && Sized(s)
    && Assigned(s.values, s.vars, s.trail, s.level, s.klauses)
    && FormulaOK(s.klauses, s.units, s.inconsistent, s.tracked)
    && SearchOK(s.links, s.search, s.values)
    && s.unassigned == CountFree(s.values, |s.vars|)
    && PendingOK(s.vars, s.trail, s.propagated, s.level)
    && Below(s.assumptions, |s.values|)
  }

  /** The buffers of conflict analysis are empty. */
  ghost predicate Clean(s: State) {
    && s.analyzed == [] && s.klause == [] && s.resolved == []
    && (forall v :: 0 <= v < |s.marks| ==> !s.marks[v])
  }

  // Transitions

  /** The state after writing a literal, its level and its reason. */
  function Put(s: State, lit: Lit, reason: int): State {
    s.(values := Set(s.values, lit), trail := s.trail + [lit],
       vars := if Var(lit) < |s.vars| then s.vars[Var(lit) := Kar(s.level, reason)] else s.vars,
       phases := if Var(lit) < |s.phases| then s.phases[Var(lit) := lit % 2 == 1] else s.phases,
       unassigned := s.unassigned - 1)
  }

  function Connected(s: State, ref: nat): State
    requires ref < |s.klauses|
  {
    var c := s.klauses[ref].lits;
    s.(watches := Connect(s.watches, c, ref),
       units := s.units + (if |c| == 1 then [ref] else []),
       inconsistent := if c == [] && s.inconsistent == INVALID then ref else s.inconsistent)
  }

  /** The state after learning the clause in the buffer, which stays there. */
  function Learn(s: State): State {
    var k := Klause(s.klause, true, false, if s.tracked then s.resolved else []);
    Connected(s.(klauses := s.klauses + [k]), |s.klauses|)
  }

  function Lits(ks: seq<Klause>, r: int): seq<Lit> {
    if 0 <= r < |ks| then ks[r].lits else []
  }

  /** The state after learning the unit clause of a root-level literal. */
  function LearnRoot(s: State, lit: Lit, reason: int): State {
    var c := Lits(s.klauses, reason);
    Learn(s.(klause := [lit], resolved := if s.tracked then RootRefs(s.vars, c, lit, reason, |c|) else []))
    .(klause := [], resolved := [])
  }

  lemma LearnRootFrame(s: State, lit: Lit, reason: int)
    ensures LearnRoot(s, lit, reason) ==
            s.(klauses := LearnRoot(s, lit, reason).klauses, units := s.units + [|s.klauses|],
               klause := [], resolved := [])
  {
  }

  /** The state after assigning a literal. */
  function Assigns(s: State, lit: Lit, reason: int): State {
    if s.level == 0 && |Lits(s.klauses, reason)| > 1 then
      Put(LearnRoot(s, lit, reason), lit, |s.klauses|)
    else
      Put(s, lit, reason)
  }

  /** What assign demands of the reason of a new literal. */
  ghost predicate Assignable(s: State, lit: Lit, reason: int) {
    && lit < |s.values| && s.values[lit] == 0
    && if reason == INVALID then s.level > 0 else CanForce(s.values, s.klauses, lit, reason)
  }

  lemma LearnRootKeeps(s: State, lit: Lit, reason: int)
    requires Base(s) && s.level == 0 && lit < |s.values| && s.values[lit] == 0
    requires CanForce(s.values, s.klauses, lit, reason) && |s.klauses[reason].lits| > 1
    ensures var s' := LearnRoot(s, lit, reason);
            && Base(s')
            && MayForce(s'.values, s'.vars, 0, s'.klauses, lit, |s.klauses|)
            && RootLearned(lit, s.klauses, s.units, s'.klauses, s'.units)
  {
    hide SearchOK, QueueOK, Complete, CountFree, PendingOK, Below;
    var c := s.klauses[reason].lits;
    var refs := RootRefs(s.vars, c, lit, reason, |c|);
    RootUnit(s.values, s.vars, s.trail, s.klauses, lit, reason);
    var k := Klause([lit], true, false, if s.tracked then refs else []);
    LearnFormula(s.klauses, s.units, s.inconsistent, s.tracked, k, refs);
    LearnKeepsAssigned(s.values, s.vars, s.trail, 0, s.klauses, k);
  }

  lemma PutKeeps(s: State, lit: Lit, reason: int)
    requires Base(s) && lit < |s.values| && s.values[lit] == 0
    requires MayForce(s.values, s.vars, s.level, s.klauses, lit, reason)
    ensures Base(Put(s, lit, reason)) && Grows(s.values, s.vars, Set(s.values, lit), Put(s, lit, reason).vars, s.level)
  {
    AssignStep(s.values, s.vars, s.trail, s.propagated, s.level, s.klauses, s.links, s.search, lit, reason);
  }

  lemma AssignableMay(s: State, lit: Lit, reason: int)
    requires Base(s) && Assignable(s, lit, reason)
    requires !(s.level == 0 && |Lits(s.klauses, reason)| > 1)
    ensures MayForce(s.values, s.vars, s.level, s.klauses, lit, reason)
  {
    if s.level == 0 {
      assert s.klauses[reason].lits == [lit];
    }
  }

  lemma AssignsKeeps(s: State, lit: Lit, reason: int)
    requires Base(s) && Assignable(s, lit, reason)
    ensures |s.values| == |s.watches| == 2 * |s.vars| && |s.phases| == |s.vars| && Neg(lit) < |s.values|
    ensures var s' := Assigns(s, lit, reason);
            && Base(s') && Grows(s.values, s.vars, s'.values, s'.vars, s.level)
            && RootLearned(lit, s.klauses, s.units, s'.klauses, s'.units)
  {
    hide Base, CanForce, MayForce, Assigned, Set, Grows, RootLearned;
    Bounds(s, lit);
    if s.level == 0 && |Lits(s.klauses, reason)| > 1 {
      LearnRootKeeps(s, lit, reason);
      PutKeeps(LearnRoot(s, lit, reason), lit, |s.klauses|);
    } else {
      AssignableMay(s, lit, reason);
      PutKeeps(s, lit, reason);
      NothingLearned(lit, s.klauses, s.units);
    }
  }

  lemma Bounds(s: State, lit: Lit)
    requires Base(s) && lit < |s.values|
    ensures |s.values| == |s.watches| == 2 * |s.vars| && |s.phases| == |s.vars| && Neg(lit) < |s.values|
  {
  }

  ghost predicate SameStamps(links: seq<Link>, links': seq<Link>, idx: nat) {
    |links'| == |links| && forall v :: 0 <= v < |links| && v != idx ==> links'[v].stamp == links[v].stamp
  }

  /** The queue lists all variables, in this order. */
  ghost predicate Queued(s: State, order: seq<nat>) {
    QueueOK(s.links, s.first, s.last, s.stamp, order) && Complete(s.links, order)
  }

  lemma MovedAbsent(links: seq<Link>, first: int, last: int, stamp: nat, order: seq<nat>, idx: nat)
    returns (i: nat)
    requires QueueOK(links, first, last, stamp, order) && Complete(links, order) && idx < |links|
    ensures i < |order| && order[i] == idx && idx !in order[..i] + order[i + 1..]
    ensures forall v :: 0 <= v < |links| ==> links[v].stamp < stamp
  {
    assert idx in order;
    i :| 0 <= i < |order| && order[i] == idx;
    var rest := order[..i] + order[i + 1..];
    forall k | 0 <= k < |rest| ensures rest[k] != idx {
      var j := if k < i then k else k + 1;
      assert rest[k] == order[j];
      assert links[order[j]].stamp != links[order[i]].stamp;
    }
    forall v | 0 <= v < |links| ensures links[v].stamp < stamp {
      assert v in order;
    }
  }

  /** Moving an assigned variable to the end of the queue keeps the search pointer valid. */
  lemma MovedSearch(links: seq<Link>, links': seq<Link>, search: int, values: seq<int>, idx: nat)
    requires SearchOK(links, search, values) && SameStamps(links, links', idx)
    requires idx < |links| && 2 * idx < |values| && values[2 * idx] != 0
    requires forall v :: 0 <= v < |links| && v != idx ==> links[v].stamp < links'[idx].stamp
    ensures SearchOK(links', search, values)
  {
  }
}
