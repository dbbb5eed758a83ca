/**
  Gates as functions of their inputs (congruence.c): gates in normal form with different tags or inputs are different
  functions, and none of them is a literal or its negation.
 */
module GateFunctions {
  import opened Literals
  import opened GateTable
  import opened GateMeaning
  import opened RootValues
  import opened Sorting
  import opened Sequences
  import X = Xor

  /** The function of the inputs. */
  ghost predicate Eval(m: Model, g: Gate) {
    match g.tag
    case And => AllTrue(m, g.rhs)
    case Xor => X.TrueParity(m, g.rhs) == 1
    case Ite => |g.rhs| == 3 && Choice(m, g.rhs)
  }

  /** Inputs of different variables in order, but for those of ITE gates, whose first two are positive. */
  ghost predicate Shaped(g: Gate) {
    match g.tag
    case And => Ascending(g.rhs) && |g.rhs| != 1 && DistinctVars(g.rhs)
    case Xor => Ascending(g.rhs) && |g.rhs| > 1 && Distinct(g.rhs) && forall l :: l in g.rhs ==> l % 2 == 0
    case Ite => |g.rhs| == 3 && DistinctVars(g.rhs) && g.rhs[0] % 2 == 0 && g.rhs[1] % 2 == 0
  }

  // ------------------------------------------------------------------ changing one variable

  /** The model with a literal made true. */
  ghost function Make(m: Model, l: Lit): Model {
    if l % 2 == 0 then m + iset{Var(l)} else m - iset{Var(l)}
  }

  lemma Made(m: Model, l: Lit)
    ensures Holds(Make(m, l), l) && !Holds(Make(m, l), Neg(l))
    ensures forall k :: Var(k) != Var(l) ==> (Holds(Make(m, l), k) <==> Holds(m, k))
  {
    HoldsNeg(Make(m, l), l);
  }

  ghost function Flip(m: Model, v: nat): Model {
    if v in m then m - iset{v} else m + iset{v}
  }

  lemma Flipped(m: Model, v: nat)
    ensures forall k :: Holds(Flip(m, v), k) <==> (Holds(m, k) != (Var(k) == v))
  {
  }

  /** The parity changes with each of its variables. */
  lemma {:induction false} ParityFlips(m: Model, c: seq<Lit>, v: nat)
    requires Distinct(c) && forall l :: l in c ==> l % 2 == 0
    ensures X.TrueParity(Flip(m, v), c) == if 2 * v in c then 1 - X.TrueParity(m, c) else X.TrueParity(m, c)
  {
    Flipped(m, v);
    if c != [] {
      assert c[0] in c && forall l :: l in c[1..] ==> l in c;
      assert forall l :: l in c <==> l == c[0] || l in c[1..];
      ParityFlips(m, c[1..], v);
    }
  }

  lemma ConjunctionFalse(m: Model, c: seq<Lit>, l: Lit, v: nat)
    requires l in c && !Holds(m, l) && Var(l) != v
    ensures !AllTrue(m, c) && !AllTrue(Flip(m, v), c)
  {
    Flipped(m, v);
  }

  /** A model of a conjunction of literals of different variables. */
  ghost function Witness(c: seq<Lit>): Model {
    iset v: nat | 2 * v in c
  }

  lemma WitnessTrue(c: seq<Lit>)
    requires DistinctVars(c)
    ensures AllTrue(Witness(c), c)
  {
    forall l | l in c ensures Holds(Witness(c), l) {
      var i :| 0 <= i < |c| && c[i] == l;
      forall j | 0 <= j < |c| && c[j] == 2 * Var(l) ensures j == i {
        assert Var(c[j]) == Var(c[i]);
      }
    }
  }

  // ------------------------------------------------------------------ telling two gates apart

  /** One gate changes its value while the other one does not. */
  ghost predicate ToldApart(g: Gate, h: Gate) {
    exists m: Model, m': Model :: TwoPoints(g, h, m, m') || TwoPoints(h, g, m, m')
  }

  ghost predicate TwoPoints(g: Gate, h: Gate, m: Model, m': Model) {
    Eval(m, g) == Eval(m', g) && Eval(m, h) != Eval(m', h)
  }

  /** Then neither gate is the other or its negation. */
  lemma NotSame(g: Gate, h: Gate, b: bool)
    requires ToldApart(g, h)
    ensures exists m: Model :: Eval(m, g) != (Eval(m, h) != b)
  {
    var m, m' :| TwoPoints(g, h, m, m') || TwoPoints(h, g, m, m');
    assert Eval(m, g) != (Eval(m, h) != b) || Eval(m', g) != (Eval(m', h) != b);
  }

  lemma Symmetric(g: Gate, h: Gate)
    requires ToldApart(g, h)
    ensures ToldApart(h, g)
  {
    var m, m' :| TwoPoints(g, h, m, m') || TwoPoints(h, g, m, m');
    assert TwoPoints(h, g, m, m') || TwoPoints(g, h, m, m');
  }

  /** A conjunction has a literal that is not the negation of the given one. */
  lemma OtherLiteral(c: seq<Lit>, k: Lit) returns (l: Lit)
    requires |c| > 1 && DistinctVars(c)
    ensures l in c && l != Neg(k)
  {
    l := if c[0] != Neg(k) then c[0] else c[1];
  }

  lemma OtherVariable(c: seq<Lit>, v: nat) returns (l: Lit)
    requires |c| > 1 && DistinctVars(c)
    ensures l in c && Var(l) != v
  {
    l := if Var(c[0]) != v then c[0] else c[1];
  }

  lemma AndAnd(g: Gate, h: Gate, l: Lit)
    requires Shaped(g) && Shaped(h) && g.tag == And && h.tag == And && l in g.rhs && l !in h.rhs
    ensures ToldApart(g, h)
  {
    var m := Make(Witness(h.rhs), Neg(l));
    WitnessTrue(h.rhs);
    Made(Witness(h.rhs), Neg(l));
    SameVar(l, l);
    assert !Holds(m, l);
    forall k | k in h.rhs ensures Holds(m, k) {
      SameVar(k, l);
      SameVar(l, k);
    }
    if h.rhs == [] {
      var m' := Witness(g.rhs);
      WitnessTrue(g.rhs);
      assert TwoPoints(h, g, m, m');
    } else {
      var k := OtherLiteral(h.rhs, l);
      var m' := Make(m, Neg(k));
      Made(m, Neg(k));
      SameVar(k, l);
      SameVar(l, k);
      SameVar(k, k);
      assert !Holds(m', l) && !Holds(m', k);
      assert TwoPoints(g, h, m, m');
    }
  }

  lemma AndXor(g: Gate, h: Gate)
    requires Shaped(g) && g.tag == And && g.rhs != [] && h.tag == Xor && h.rhs != []
    requires Distinct(h.rhs) && forall l :: l in h.rhs ==> l % 2 == 0
    ensures ToldApart(g, h)
  {
    var v := Var(h.rhs[0]);
    assert h.rhs[0] in h.rhs && h.rhs[0] == 2 * v;
    var l := OtherVariable(g.rhs, v);
    var m := Make(iset{}, Neg(l));
    Made(iset{}, Neg(l));
    SameVar(l, l);
    ConjunctionFalse(m, g.rhs, l, v);
    ParityFlips(m, h.rhs, v);
    assert TwoPoints(g, h, m, Flip(m, v));
  }

  lemma EmptyAndXor(g: Gate, h: Gate)
    requires g.tag == And && g.rhs == [] && h.tag == Xor && h.rhs != []
    requires Distinct(h.rhs) && forall l :: l in h.rhs ==> l % 2 == 0
    ensures ToldApart(g, h)
  {
    var v := Var(h.rhs[0]);
    assert h.rhs[0] in h.rhs && h.rhs[0] == 2 * v;
    ParityFlips(iset{}, h.rhs, v);
    assert TwoPoints(g, h, iset{}, Flip(iset{}, v));
  }

  /** Where an ITE gate changes with a variable: an input, and for a branch also the condition that chooses it. */
  lemma IteBranch(h: Gate, m: Model, first: bool)
    requires Shaped(h) && h.tag == Ite && Holds(m, h.rhs[0]) == first
    ensures var v := Var(h.rhs[if first then 1 else 2]); Eval(Flip(m, v), h) != Eval(m, h)
    ensures var v := Var(h.rhs[if first then 2 else 1]); Eval(Flip(m, v), h) == Eval(m, h)
  {
    Flipped(m, Var(h.rhs[1]));
    Flipped(m, Var(h.rhs[2]));
  }

  lemma IteOther(h: Gate, m: Model, v: nat)
    requires Shaped(h) && h.tag == Ite && v != Var(h.rhs[0]) && v != Var(h.rhs[1]) && v != Var(h.rhs[2])
    ensures Eval(Flip(m, v), h) == Eval(m, h)
  {
    Flipped(m, v);
  }

  lemma AndIte(g: Gate, h: Gate)
    requires Shaped(g) && Shaped(h) && g.tag == And && h.tag == Ite
    ensures ToldApart(g, h)
  {
    var c, t, e := h.rhs[0], h.rhs[1], h.rhs[2];
    if g.rhs == [] {
      var m := Make(iset{}, c);
      Made(iset{}, c);
      IteBranch(h, m, true);
      assert TwoPoints(g, h, m, Flip(m, Var(t)));
    } else {
      var l := g.rhs[0];
      SameVar(l, l);
      var first := if Var(l) == Var(c) then Neg(l) == c else Var(l) != Var(t);
      var m0 := Make(iset{}, if first then c else Neg(c));
      Made(iset{}, if first then c else Neg(c));
      SameVar(c, c);
      HoldsNeg(m0, c);
      var m := Make(m0, Neg(l));
      Made(m0, Neg(l));
      SameVar(l, c);
      SameVar(c, l);
      HoldsNeg(m, c);
      assert Holds(m, c) == first;
      var v := Var(if first then t else e);
      IteBranch(h, m, first);
      ConjunctionFalse(m, g.rhs, l, v);
      assert TwoPoints(g, h, m, Flip(m, v));
    }
  }

  lemma XorXor(g: Gate, h: Gate, l: Lit)
    requires g.tag == Xor && h.tag == Xor && l in h.rhs && l !in g.rhs
    requires Distinct(g.rhs) && Distinct(h.rhs)
    requires (forall l :: l in g.rhs ==> l % 2 == 0) && (forall l :: l in h.rhs ==> l % 2 == 0)
    ensures ToldApart(g, h)
  {
    var v := Var(l);
    assert l == 2 * v;
    ParityFlips(iset{}, g.rhs, v);
    ParityFlips(iset{}, h.rhs, v);
    assert TwoPoints(g, h, iset{}, Flip(iset{}, v));
  }

  lemma XorIte(g: Gate, h: Gate)
    requires Shaped(h) && g.tag == Xor && h.tag == Ite && g.rhs != []
    requires Distinct(g.rhs) && forall l :: l in g.rhs ==> l % 2 == 0
    ensures ToldApart(g, h)
  {
    var c, t, e := h.rhs[0], h.rhs[1], h.rhs[2];
    var yes, no := Make(iset{}, c), Make(iset{}, Neg(c));
    Made(iset{}, c);
    Made(iset{}, Neg(c));
    SameVar(c, c);
    HoldsNeg(no, c);
    if 2 * Var(t) in g.rhs {
      IteBranch(h, no, false);
      ParityFlips(no, g.rhs, Var(t));
      assert TwoPoints(h, g, no, Flip(no, Var(t)));
    } else if 2 * Var(e) in g.rhs {
      IteBranch(h, yes, true);
      ParityFlips(yes, g.rhs, Var(e));
      assert TwoPoints(h, g, yes, Flip(yes, Var(e)));
    } else {
      IteBranch(h, yes, true);
      ParityFlips(yes, g.rhs, Var(t));
      assert TwoPoints(g, h, yes, Flip(yes, Var(t)));
    }
  }

  /** Two ITE gates, the first with a variable that the second one does not have. */
  lemma IteNewVariable(g: Gate, h: Gate, i: nat)
    requires Shaped(g) && Shaped(h) && g.tag == Ite && h.tag == Ite && i < 3
    requires forall j :: 0 <= j < 3 ==> Var(h.rhs[j]) != Var(g.rhs[i])
    ensures ToldApart(g, h)
  {
    var c, v := g.rhs[0], Var(g.rhs[i]);
    if i == 0 {
      var m := Make(Make(iset{}, g.rhs[1]), Neg(g.rhs[2]));
      Made(iset{}, g.rhs[1]);
      Made(Make(iset{}, g.rhs[1]), Neg(g.rhs[2]));
      SameVar(g.rhs[2], g.rhs[2]);
      Flipped(m, v);
      IteOther(h, m, v);
      assert TwoPoints(h, g, m, Flip(m, v));
    } else {
      var m := Make(iset{}, if i == 1 then c else Neg(c));
      Made(iset{}, if i == 1 then c else Neg(c));
      SameVar(c, c);
      HoldsNeg(m, c);
      IteBranch(g, m, i == 1);
      IteOther(h, m, v);
      assert TwoPoints(h, g, m, Flip(m, v));
    }
  }

  /** The condition of the second gate is a branch of the first. */
  lemma IteConditions(g: Gate, h: Gate)
    requires Shaped(g) && Shaped(h) && g.tag == Ite && h.tag == Ite && Var(g.rhs[0]) != Var(h.rhs[0])
    requires Var(h.rhs[0]) == Var(g.rhs[1]) || Var(h.rhs[0]) == Var(g.rhs[2])
    ensures ToldApart(g, h)
  {
    var c, first := g.rhs[0], Var(h.rhs[0]) == Var(g.rhs[2]);
    var k := if first then c else Neg(c);
    var v := Var(h.rhs[0]);
    SameVar(c, c);
    var t, e := h.rhs[1], h.rhs[2];
    SameVar(e, e);
    var m1 := if Var(t) == Var(k) then Make(iset{}, k) else Make(Make(iset{}, k), t);
    Made(iset{}, k);
    Made(Make(iset{}, k), t);
    var m2 := if Var(t) != Var(k) && Var(e) == Var(k) then Make(m1, if Holds(m1, e) then Neg(t) else t)
              else Make(m1, if Holds(m1, t) then Neg(e) else e);
    SameVar(t, t);
    Made(m1, Neg(t));
    Made(m1, t);
    Made(m1, Neg(e));
    Made(m1, e);
    HoldsNeg(m2, c);
    HoldsNeg(m2, t);
    HoldsNeg(m2, e);
    assert Holds(m2, k) && Holds(m2, t) != Holds(m2, e);
    IteBranch(g, m2, first);
    Flipped(m2, v);
    assert TwoPoints(g, h, m2, Flip(m2, v));
  }

  lemma IteSameCondition(g: Gate, h: Gate)
    requires Shaped(g) && Shaped(h) && g.tag == Ite && h.tag == Ite && g.rhs[0] == h.rhs[0] && g.rhs != h.rhs
    ensures ToldApart(g, h)
  {
    var c, t, e := g.rhs[0], g.rhs[1], g.rhs[2];
    if h.rhs[1] == t {
      assert h.rhs[2] != e;
      if Var(h.rhs[2]) == Var(e) {
        SameVar(h.rhs[2], e);
        var m := Make(Make(Make(iset{}, c), t), e);
        Made(iset{}, c);
        Made(Make(iset{}, c), t);
        Made(Make(Make(iset{}, c), t), e);
        Flipped(m, Var(c));
        HoldsNeg(m, e);
        HoldsNeg(Flip(m, Var(c)), e);
        assert TwoPoints(g, h, m, Flip(m, Var(c)));
      } else {
        BranchFree(g, h, false);
      }
    } else {
      BranchFree(g, h, true);
    }
  }

  /** With the same condition, a branch of another variable. */
  lemma BranchFree(g: Gate, h: Gate, first: bool)
    requires Shaped(g) && Shaped(h) && g.tag == Ite && h.tag == Ite && g.rhs[0] == h.rhs[0]
    requires Var(g.rhs[if first then 1 else 2]) != Var(h.rhs[if first then 1 else 2])
    ensures ToldApart(g, h)
  {
    var c := g.rhs[0];
    var m := Make(iset{}, if first then c else Neg(c));
    Made(iset{}, if first then c else Neg(c));
    SameVar(c, c);
    HoldsNeg(m, c);
    var v := Var(h.rhs[if first then 1 else 2]);
    Flipped(m, v);
    IteBranch(h, m, first);
    assert Eval(Flip(m, v), g) == Eval(m, g);
    assert TwoPoints(g, h, m, Flip(m, v));
  }

  lemma IteIte(g: Gate, h: Gate)
    requires Shaped(g) && Shaped(h) && g.tag == Ite && h.tag == Ite && g.rhs != h.rhs
    ensures ToldApart(g, h)
  {
    if g.rhs[0] == h.rhs[0] {
      IteSameCondition(g, h);
    } else if Var(h.rhs[0]) == Var(g.rhs[1]) || Var(h.rhs[0]) == Var(g.rhs[2]) {
      IteConditions(g, h);
    } else {
      assert Var(h.rhs[0]) != Var(g.rhs[0]);
      IteNewVariable(h, g, 0);
      Symmetric(h, g);
    }
  }

  /** Gates in normal form with different tags or inputs can be told apart. */
  lemma ShapedApart(g: Gate, h: Gate)
    requires Shaped(g) && Shaped(h) && !(g.tag == h.tag && g.rhs == h.rhs)
    ensures ToldApart(g, h)
  {
    hide Eval, ToldApart;
    if g.tag == h.tag {
      if g.tag == Ite {
        IteIte(g, h);
      } else {
        SetsApart(g, h);
      }
    } else if g.tag == And {
      AndOther(g, h);
    } else if h.tag == And {
      AndOther(h, g);
      Symmetric(h, g);
    } else if g.tag == Xor {
      XorIte(g, h);
    } else {
      XorIte(h, g);
      Symmetric(h, g);
    }
  }

  lemma AndOther(g: Gate, h: Gate)
    requires Shaped(g) && Shaped(h) && g.tag == And && h.tag != And
    ensures ToldApart(g, h)
  {
    hide Eval, ToldApart;
    if h.tag == Ite {
      AndIte(g, h);
    } else if g.rhs == [] {
      EmptyAndXor(g, h);
    } else {
      AndXor(g, h);
    }
  }

  lemma SetsApart(g: Gate, h: Gate)
    requires Shaped(g) && Shaped(h) && g.tag == h.tag != Ite && g.rhs != h.rhs
    ensures ToldApart(g, h)
  {
    if forall l :: l in g.rhs <==> l in h.rhs {
      VarsDistinct(g);
      VarsDistinct(h);
      SameSequence(g.rhs, h.rhs);
    } else {
      var l :| !(l in g.rhs <==> l in h.rhs);
      hide Eval, ToldApart;
      if g.tag == And && l in g.rhs {
        AndAnd(g, h, l);
      } else if g.tag == And {
        AndAnd(h, g, l);
        Symmetric(h, g);
      } else if l in h.rhs {
        XorXor(g, h, l);
      } else {
        XorXor(h, g, l);
        Symmetric(h, g);
      }
    }
  }

  lemma VarsDistinct(g: Gate)
    requires Shaped(g)
    ensures Distinct(g.rhs)
  {
  }

  // ------------------------------------------------------------------ literals

  /** A literal as an XOR gate of one input, up to its sign. */
  function Alone(l: Lit): Gate {
    Gate(Xor, 0, [2 * Var(l)], 0, false, false)
  }

  lemma AloneEval(m: Model, l: Lit)
    ensures Eval(m, Alone(l)) == (Holds(m, l) != (l % 2 == 1))
  {
    X.ParityOne(m, 2 * Var(l));
  }

  /** No gate in normal form is a literal, unless it is an empty conjunction. */
  lemma NotLiteral(g: Gate, l: Lit, b: bool)
    requires Shaped(g) && !(g.tag == And && g.rhs == [])
    ensures exists m: Model :: Eval(m, g) != (Holds(m, l) != b)
  {
    var h := Alone(l);
    match g.tag {
      case And => AndXor(g, h);
      case Xor =>
        var k := if g.rhs[0] == 2 * Var(l) then g.rhs[1] else g.rhs[0];
        assert k in g.rhs && k !in h.rhs;
        XorXor(h, g, k);
        Symmetric(h, g);
      case Ite =>
        XorIte(h, g);
        Symmetric(h, g);
    }
    NotSame(g, h, b != (l % 2 == 1));
    var m: Model :| Eval(m, g) != (Eval(m, h) != (b != (l % 2 == 1)));
    AloneEval(m, l);
  }

  /** A gate in normal form is not constant, unless it is an empty conjunction. */
  lemma NotConstant(g: Gate, b: bool)
    requires Shaped(g) && !(g.tag == And && g.rhs == [])
    ensures exists m: Model :: Eval(m, g) != b
  {
    match g.tag {
      case And =>
        WitnessTrue(g.rhs);
        var m := Make(iset{}, Neg(g.rhs[0]));
        Made(iset{}, Neg(g.rhs[0]));
        SameVar(g.rhs[0], g.rhs[0]);
        assert g.rhs[0] in g.rhs && Eval(Witness(g.rhs), g) && !Eval(m, g);
      case Xor =>
        assert g.rhs[0] in g.rhs;
        ParityFlips(iset{}, g.rhs, Var(g.rhs[0]));
        assert Eval(iset{}, g) != Eval(Flip(iset{}, Var(g.rhs[0])), g);
      case Ite =>
        var m := Make(iset{}, g.rhs[0]);
        Made(iset{}, g.rhs[0]);
        IteBranch(g, m, true);
        assert Eval(m, g) != Eval(Flip(m, Var(g.rhs[1])), g);
    }
  }
}
