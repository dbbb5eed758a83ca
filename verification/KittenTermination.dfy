/**
  Why the search of the embedded solver ends: the numbers of variables assigned at the
  levels, read as the digits of one number, grow with every step, and that number is bounded.
 */
module KittenTermination {
  import opened Literals
  import opened Sequences
  import opened KittenModel
  import opened KittenPropagation
  import opened KittenSearch
  import opened KittenBacktrack
  import opened KittenAnalysis

  /** The number of variables below k that are assigned at level i. */
  ghost function CountAt(values: seq<int>, vars: seq<Kar>, i: nat, k: nat): nat {
    if k == 0 || k > |vars| || 2 * k > |values| then 0
    else CountAt(values, vars, i, k - 1) + if values[2 * (k - 1)] != 0 && vars[k - 1].level == i then 1 else 0
  }

  /** The counts of the levels below top, as digits in base |vars| + 1; level 0 is the leading one. */
  ghost function Value(values: seq<int>, vars: seq<Kar>, top: nat): nat {
    if top == 0 then 0
    else Value(values, vars, top - 1) * (|vars| + 1) + CountAt(values, vars, top - 1, |vars|)
  }

  ghost function Power(b: nat, e: nat): nat {
    if e == 0 then 1 else Power(b, e - 1) * b
  }

  lemma CountBound(values: seq<int>, vars: seq<Kar>, i: nat, k: nat)
    ensures CountAt(values, vars, i, k) <= k
  {
  }

  lemma Carry(x: nat, y: nat, b: nat, c: nat)
    requires x < y && c < b
    ensures x * b + c < y * b
  {
    assert y * b == x * b + (y - x) * b;
    assert (y - x) * b >= b by {
      assert (y - x) * b == b + (y - x - 1) * b;
    }
  }

  lemma {:induction false} ValueBound(values: seq<int>, vars: seq<Kar>, top: nat)
    ensures Value(values, vars, top) < Power(|vars| + 1, top)
  {
    if top > 0 {
      ValueBound(values, vars, top - 1);
      CountBound(values, vars, top - 1, |vars|);
      Carry(Value(values, vars, top - 1), Power(|vars| + 1, top - 1), |vars| + 1,
            CountAt(values, vars, top - 1, |vars|));
    }
  }

  /** More variables at one level outweigh whatever happens at later levels. */
  lemma {:induction false} ValueLess(values: seq<int>, vars: seq<Kar>, values': seq<int>,
                                     vars': seq<Kar>, j: nat, top: nat)
    requires |vars'| == |vars| && j < top
    requires forall i: nat :: i < j ==> CountAt(values, vars, i, |vars|) == CountAt(values', vars', i, |vars|)
    requires CountAt(values, vars, j, |vars|) < CountAt(values', vars', j, |vars|)
    ensures Value(values, vars, top) < Value(values', vars', top)
  {
    if j == top - 1 {
      ValueSame(values, vars, values', vars', j);
    } else {
      ValueLess(values, vars, values', vars', j, top - 1);
      CountBound(values, vars, top - 1, |vars|);
      Carry(Value(values, vars, top - 1), Value(values', vars', top - 1), |vars| + 1,
            CountAt(values, vars, top - 1, |vars|));
    }
  }

  lemma {:induction false} ValueSame(values: seq<int>, vars: seq<Kar>, values': seq<int>, vars': seq<Kar>, top: nat)
    requires |vars'| == |vars|
    requires forall i: nat :: i < top ==> CountAt(values, vars, i, |vars|) == CountAt(values', vars', i, |vars|)
    ensures Value(values, vars, top) == Value(values', vars', top)
  {
    if top > 0 {
      ValueSame(values, vars, values', vars', top - 1);
    }
  }

  // ------------------------------------------------------------------ the counts under the solver's steps

  lemma GrowsCount(values: seq<int>, vars: seq<Kar>, values': seq<int>, vars': seq<Kar>, lv: nat, i: nat, k: nat)
    requires Grows(values, vars, values', vars', lv) && k <= |vars|
    ensures i == lv ==> CountAt(values, vars, i, k) <= CountAt(values', vars', i, k)
    ensures i != lv ==> CountAt(values, vars, i, k) == CountAt(values', vars', i, k)
  {
    if k > 0 {
      GrowsCount(values, vars, values', vars', lv, i, k - 1);
      assert Var(2 * (k - 1)) == k - 1;
    }
  }

  lemma GrowsCountMore(values: seq<int>, vars: seq<Kar>, values': seq<int>, vars': seq<Kar>, lv: nat, k: nat, v: nat)
    requires Grows(values, vars, values', vars', lv) && v < k <= |vars|
    requires values[2 * v] == 0 && values'[2 * v] != 0
    ensures CountAt(values, vars, lv, k) < CountAt(values', vars', lv, k)
  {
    assert Var(2 * (k - 1)) == k - 1;
    if v == k - 1 {
      GrowsCount(values, vars, values', vars', lv, lv, k - 1);
    } else {
      GrowsCountMore(values, vars, values', vars', lv, k - 1, v);
    }
  }

  lemma CutCount(values: seq<int>, vars: seq<Kar>, values': seq<int>, jump: nat, i: nat, k: nat)
    requires CutTo(values, vars, values', jump) && k <= |vars| && i <= jump
    ensures CountAt(values, vars, i, k) == CountAt(values', vars, i, k)
  {
    if k > 0 {
      CutCount(values, vars, values', jump, i, k - 1);
      assert Var(2 * (k - 1)) == k - 1;
    }
  }

  /** Propagation does not make the number smaller. */
  lemma GrowsValue(values: seq<int>, vars: seq<Kar>, values': seq<int>, vars': seq<Kar>, lv: nat, top: nat)
    requires Grows(values, vars, values', vars', lv) && lv < top
    ensures Value(values, vars, top) <= Value(values', vars', top)
  {
    forall i: nat ensures i == lv ==> CountAt(values, vars, i, |vars|) <= CountAt(values', vars', i, |vars|)
                  ensures i != lv ==> CountAt(values, vars, i, |vars|) == CountAt(values', vars', i, |vars|) {
      GrowsCount(values, vars, values', vars', lv, i, |vars|);
    }
    if CountAt(values, vars, lv, |vars|) == CountAt(values', vars', lv, |vars|) {
      ValueSame(values, vars, values', vars', top);
    } else {
      ValueLess(values, vars, values', vars', lv, top);
    }
  }

  /** Keeping the levels up to jump and assigning one more variable there makes it larger. */
  lemma JumpValue(values: seq<int>, vars: seq<Kar>, cut: seq<int>, values': seq<int>, vars': seq<Kar>,
                  jump: nat, v: nat, top: nat)
    requires CutTo(values, vars, cut, jump) && Grows(cut, vars, values', vars', jump) && jump < top
    requires v < |vars| && cut[2 * v] == 0 && values'[2 * v] != 0
    ensures Value(values, vars, top) < Value(values', vars', top)
  {
    forall i: nat | i <= jump
      ensures i < jump ==> CountAt(values, vars, i, |vars|) == CountAt(values', vars', i, |vars|)
      ensures CountAt(values, vars, i, |vars|) == CountAt(cut, vars, i, |vars|)
    {
      CutCount(values, vars, cut, jump, i, |vars|);
      GrowsCount(cut, vars, values', vars', jump, i, |vars|);
    }
    GrowsCountMore(cut, vars, values', vars', jump, |vars|, v);
    ValueLess(values, vars, values', vars', jump, top);
  }

  /** Assigning one more variable at any level makes it larger. */
  lemma MoreValue(values: seq<int>, vars: seq<Kar>, values': seq<int>, vars': seq<Kar>, lv: nat, v: nat, top: nat)
    requires Grows(values, vars, values', vars', lv) && lv < top
    requires v < |vars| && values[2 * v] == 0 && values'[2 * v] != 0
    ensures Value(values, vars, top) < Value(values', vars', top)
  {
    forall i: nat | i < lv ensures CountAt(values, vars, i, |vars|) == CountAt(values', vars', i, |vars|) {
      GrowsCount(values, vars, values', vars', lv, i, |vars|);
    }
    GrowsCountMore(values, vars, values', vars', lv, |vars|, v);
    ValueLess(values, vars, values', vars', lv, top);
  }

  // ------------------------------------------------------------------ the number of levels

  lemma {:induction false} LevelsOnTrail(vars: seq<Kar>, trail: seq<Lit>, from: nat, upto: nat) returns (at: seq<nat>)
    requires from <= upto && Inhabited(vars, trail, from, upto)
    ensures |at| == upto - from
    ensures forall k :: 0 <= k < |at| ==> at[k] < |trail| && Lv(vars, trail[at[k]]) == from + 1 + k
  {
    if from == upto {
      at := [];
    } else {
      assert HasLevel(vars, trail, upto);
      at := LevelsOnTrail(vars, trail, from, upto - 1);
      var i :| 0 <= i < |trail| && Lv(vars, trail[i]) == upto;
      at := at + [i];
    }
  }

  ghost function Top(s: State): nat {
    |s.assumptions| + |s.vars| + 1
  }

  lemma LevelBound(s: State)
    requires Base(s) && Deciding(s, s.level)
    ensures s.level < Top(s)
  {
    hide Base;
    if s.level > |s.assumptions| {
      var at := LevelsOnTrail(s.vars, s.trail, |s.assumptions|, s.level);
      forall j, k | 0 <= j < k < |at| ensures at[j] != at[k] {
        assert Lv(s.vars, s.trail[at[j]]) != Lv(s.vars, s.trail[at[k]]);
      }
      Pigeonhole(at, |s.trail|);
      TrailBound(s);
    }
  }

  ghost function Weight(s: State): nat {
    Value(s.values, s.vars, Top(s))
  }

  ghost function WeightLimit(s: State): nat {
    Power(|s.vars| + 1, Top(s))
  }

  lemma WeightBound(s: State)
    ensures Weight(s) < WeightLimit(s)
  {
    ValueBound(s.values, s.vars, Top(s));
  }

  lemma ExtendsWeight(s: State, s': State)
    requires Base(s) && Deciding(s, s.level) && Extends(s, s')
    ensures Weight(s) <= Weight(s') && Top(s') == Top(s) && |s'.vars| == |s.vars|
  {
    hide Base, Deciding, SameFormula, Forced;
    LevelBound(s);
    GrowsValue(s.values, s.vars, s'.values, s'.vars, s.level, Top(s));
  }

  /** Learning, jumping back and asserting makes the number larger. */
  lemma AssertWeight(s: State, s': State, m: nat, c: seq<Lit>, jump: nat)
    requires Learned(s, c, jump) && CutAt(s, s', m, jump)
    ensures var t := Assigns(s', c[0], |s.klauses| - 1);
            Weight(s) < Weight(t) && Top(t) == Top(s) && |t.vars| == |s.vars|
  {
    hide Base, Watched, Deciding, Assigns, SameFormula, Propagated, RootLearned, Forced,
         Set, Split, Counted, CutTo, Grows,
         Assignable;
    var t := Assigns(s', c[0], |s.klauses| - 1);
    JumpTarget(s, c, jump);
    LevelBound(s);
    CutBase(s, s', m, jump);
    CutAssignable(s, s', m, c, jump);
    BasicAssignable(s', c[0], |s.klauses| - 1);
    AssignsKeeps(s', c[0], |s.klauses| - 1);
    AssignsAdvances(s', c[0], |s.klauses| - 1);
    PutTrail(s', c[0], |s.klauses| - 1);
    PutVar(s', c[0], t.values);
    JumpValue(s.values, s.vars, s'.values, t.values, t.vars, jump, Var(c[0]), Top(s));
  }

  lemma PutVar(s: State, lit: Lit, values: seq<int>)
    requires Base(s) && lit < |s.values| && s.values[lit] == 0 && values == Set(s.values, lit)
    ensures 2 * Var(lit) < |s.values| && 2 * Var(lit) < |values| && Var(lit) < |s.vars|
    ensures s.values[2 * Var(lit)] == 0 && values[2 * Var(lit)] != 0
  {
    AssignShape(s.values, s.vars, lit, Kar(0, 0));
    SameVar(lit, 2 * Var(lit));
  }

  lemma WeightSame(s: State, s': State)
    requires s'.values == s.values && s'.vars == s.vars && s'.assumptions == s.assumptions
    ensures Weight(s') == Weight(s)
  {
  }

  /** The parts of the state that a call to the solver does not change before it ends. */
  ghost predicate SameTask(s: State, s': State) {
    && s'.tracked == s.tracked && s'.inconsistent == s.inconsistent && s'.failing == s.failing
    && s'.assumptions == s.assumptions && s'.failed == s.failed
    && s'.status == s.status && s'.core == s.core
    && |s'.values| == |s.values| && |s'.vars| == |s.vars|
  }

  lemma LearnedParts(s: State, c: seq<Lit>, jump: nat)
    requires Learned(s, c, jump)
    ensures Base(s) && s.klause == [] && s.resolved == []
    ensures |s.klauses| > 0 && s.klauses[|s.klauses| - 1].lits == c && |c| >= 1
  {
  }

  lemma BumpParts(s0: State, s: State)
    requires AfterBump(s0, s)
    ensures Base(s) && s.values == s0.values && s.vars == s0.vars && SameTask(s0, s) && s.analyzed == []
    ensures s.level == s0.level && s.klauses == s0.klauses && s.watches == s0.watches && |s.watches| == |s.values|
    ensures forall v :: 0 <= v < |s.marks| ==> !s.marks[v]
  {
  }

  /** Queue, marks and task after learning, jumping and asserting. */
  lemma AssertFrame(s: State, s': State, m: nat, c: seq<Lit>, jump: nat)
    requires Learned(s, c, jump) && CutAt(s, s', m, jump)
    ensures var t := Assigns(s', c[0], |s.klauses| - 1);
            && SameTask(s, t) && t.marks == s.marks && t.analyzed == s.analyzed && t.klause == [] && t.resolved == []
            && t.links == s.links && t.first == s.first && t.last == s.last && t.stamp == s.stamp && t.level == jump
  {
    hide Base, Watched, Deciding, Assigns, Propagated, Set, Split, Counted, Grows, CutTo;
    CutFrame(s, s', m, jump);
    AssignsFrame(s', c[0], |s.klauses| - 1);
    AssertWeight(s, s', m, c, jump);
    AssertSizes(s, s', m, c, jump);
  }

  lemma AssertSizes(s: State, s': State, m: nat, c: seq<Lit>, jump: nat)
    requires CutAt(s, s', m, jump) && |c| > 0
    ensures |Assigns(s', c[0], |s.klauses| - 1).values| == |s.values|
  {
    hide Counted, Split, LearnRoot;
    LearnRootFrame(s', c[0], |s.klauses| - 1);
  }
}
