/**
  The meaning of gates and why each rewriting and simplification step of the congruence closure
  (congruence.c) keeps it: case by case, in every model in which the merged literals are equal
  and the root-level values hold.
 */
module GateMeaning {
  import opened Literals
  import opened GateTable
  import opened RootValues
  import opened Sorting
  import X = Xor

  /** The gate holds in m: its output equals the function of its inputs. */
  ghost predicate GateHolds(m: Model, g: Gate) {
    match g.tag
    case And => Holds(m, g.lhs) <==> AllTrue(m, g.rhs)
    case Xor => Holds(m, g.lhs) <==> X.TrueParity(m, g.rhs) == 1
    case Ite => |g.rhs| == 3 ==> (Holds(m, g.lhs) <==> Choice(m, g.rhs))
  }

  ghost predicate AllTrue(m: Model, c: seq<Lit>) {
    forall l :: l in c ==> Holds(m, l)
  }

  ghost predicate Choice(m: Model, c: seq<Lit>)
    requires |c| == 3
  {
    if Holds(m, c[0]) then Holds(m, c[1]) else Holds(m, c[2])
  }

  // ------------------------------------------------------------------ replacing a literal

  function Replace(c: seq<Lit>, src: Lit, dst: Lit): (d: seq<Lit>)
    ensures |d| == |c| && forall i :: 0 <= i < |c| ==> d[i] == if c[i] == src then dst else c[i]
  {
    seq(|c|, i requires 0 <= i < |c| => if c[i] == src then dst else c[i])
  }

  // ------------------------------------------------------------------ XOR gates

  lemma ParityAppend(m: Model, c: seq<Lit>, l: Lit)
    ensures X.TrueParity(m, c + [l]) == (X.TrueParity(m, c) + if Holds(m, l) then 1 else 0) % 2
  {
    X.ParityJoin(m, c, [l]);
    X.ParityOne(m, l);
  }

  // ------------------------------------------------------------------ sorting the inputs

  lemma {:induction false} InsertParity(m: Model, c: seq<Lit>, l: Lit)
    ensures X.TrueParity(m, Insert(c, l)) == (X.TrueParity(m, c) + if Holds(m, l) then 1 else 0) % 2
  {
    if c == [] || l <= c[0] {
      assert ([l] + c)[1..] == c;
    } else {
      InsertParity(m, c[1..], l);
      assert ([c[0]] + Insert(c[1..], l))[1..] == Insert(c[1..], l);
    }
  }

  /** Sorting changes neither the conjunction nor the parity. */
  lemma {:induction false} SortHolds(m: Model, c: seq<Lit>)
    ensures X.TrueParity(m, Sort(c)) == X.TrueParity(m, c)
    ensures AllTrue(m, Sort(c)) == AllTrue(m, c)
  {
    SortSorted(c);
    if c != [] {
      SortHolds(m, c[1..]);
      InsertParity(m, Sort(c[1..]), c[0]);
    }
  }

  // ------------------------------------------------------------------ ITE gates

  /** The normal form of an ITE gate: condition and first branch are positive. */
  function NormalIte(c: seq<Lit>): (r: (seq<Lit>, bool))
    requires |c| == 3
    ensures |r.0| == 3
  {
    var d := if c[0] % 2 == 1 then [Neg(c[0]), c[2], c[1]] else c;
    if d[1] % 2 == 0 then (d, false) else ([d[0], Neg(d[1]), Neg(d[2])], true)
  }

  lemma NormalIteHolds(m: Model, c: seq<Lit>)
    requires |c| == 3
    ensures Choice(m, NormalIte(c).0) == (if NormalIte(c).1 then !Choice(m, c) else Choice(m, c))
    ensures NormalIte(c).0[0] % 2 == 0 && NormalIte(c).0[1] % 2 == 0
  {
  }

  /**
    What becomes of an ITE gate: its output is equal to a literal or fixed, or it is an AND or XOR
    gate of two inputs, with the output negated or not, or it is an ITE gate still.
   */
  datatype Rewritten =
    | Equal(other: Lit)
    | Fixed(negated: bool)
    | Small(tag: Tag, negated: bool, a: Lit, b: Lit)
    | Still(rhs: seq<Lit>)

  ghost predicate Means(m: Model, lhs: Lit, r: Rewritten) {
    match r
    case Equal(other) => Holds(m, lhs) == Holds(m, other)
    case Fixed(negated) => Holds(m, lhs) != negated
    case Small(tag, negated, a, b) =>
      && (tag == And || tag == Xor)
      && GateHolds(m, Gate(tag, if negated then Neg(lhs) else lhs, [a, b], 0, false, false))
    case Still(rhs) => |rhs| == 3 && (Holds(m, lhs) <==> Choice(m, rhs))
  }

  lemma SmallMeans(m: Model, lhs: Lit, r: Rewritten)
    ensures r.Small? && r.tag == And ==>
              (Means(m, lhs, r) <==>
                 Holds(m, lhs) ==
                       (if r.negated then !(Holds(m, r.a) && Holds(m, r.b)) else Holds(m, r.a) && Holds(m, r.b)))
    ensures r.Small? && r.tag == Xor ==>
              (Means(m, lhs, r) <==>
                 Holds(m, lhs) ==
                       (if r.negated then Holds(m, r.a) == Holds(m, r.b) else Holds(m, r.a) != Holds(m, r.b)))
  {
    if r.Small? {
      HoldsNeg(m, lhs);
      SmallAnd(m, if r.negated then Neg(lhs) else lhs, r.a, r.b);
      SmallXor(m, if r.negated then Neg(lhs) else lhs, r.a, r.b);
    }
  }

  /** An ITE gate with the input src replaced by dst. */
  function RewriteIte(c: seq<Lit>, dst: Lit, src: Lit): Rewritten
    requires |c| == 3 && src in c
  {
    var cond, thenLit, elseLit := c[0], c[1], c[2];
    if src == cond then
      if dst == thenLit then Small(And, true, Neg(thenLit), Neg(elseLit))
      else if Neg(dst) == thenLit then Small(And, false, elseLit, thenLit)
      else if dst == elseLit then Small(And, false, elseLit, thenLit)
      else if Neg(dst) == elseLit then Small(And, true, Neg(thenLit), Neg(elseLit))
      else Still([dst, thenLit, elseLit])
    else if src == thenLit then
      if dst == cond then Small(And, true, Neg(cond), Neg(elseLit))
      else if Neg(dst) == cond then Small(And, false, Neg(cond), elseLit)
      else if dst == elseLit then Equal(elseLit)
      else if Neg(dst) == elseLit then Small(Xor, false, cond, elseLit)
      else Still([cond, dst, elseLit])
    else
      if dst == cond then Small(And, false, cond, thenLit)
      else if Neg(dst) == cond then Small(And, true, cond, Neg(thenLit))
      else if dst == thenLit then Equal(thenLit)
      else if Neg(dst) == thenLit then Small(Xor, true, cond, thenLit)
      else Still([cond, thenLit, dst])
  }

  /** Where src and dst are equal, the rewritten gate says exactly what the ITE gate says. */
  lemma RewriteIteMeans(m: Model, lhs: Lit, c: seq<Lit>, dst: Lit, src: Lit)
    requires |c| == 3 && src in c && Holds(m, src) == Holds(m, dst)
    ensures (Holds(m, lhs) <==> Choice(m, c)) <==> Means(m, lhs, RewriteIte(c, dst, src))
  {
    hide GateHolds, Holds, Neg;
    HoldsNeg(m, c[0]);
    HoldsNeg(m, c[1]);
    HoldsNeg(m, c[2]);
    HoldsNeg(m, dst);
    SmallMeans(m, lhs, RewriteIte(c, dst, src));
  }

  /** An ITE gate with an input that has a value. */
  function SimplifyIte(values: seq<int>, c: seq<Lit>): Rewritten
    requires |c| == 3
  {
    var cond, thenLit, elseLit := c[0], c[1], c[2];
    if True(values, cond) then Equal(thenLit)
    else if False(values, cond) then Equal(elseLit)
    else if True(values, thenLit) && True(values, elseLit) then Fixed(false)
    else if False(values, thenLit) && False(values, elseLit) then Fixed(true)
    else if True(values, thenLit) && False(values, elseLit) then Equal(cond)
    else if False(values, thenLit) && True(values, elseLit) then Equal(Neg(cond))
    else if True(values, thenLit) then Small(And, true, Neg(cond), Neg(elseLit))
    else if False(values, thenLit) then Small(And, false, Neg(cond), elseLit)
    else if True(values, elseLit) then Small(And, true, Neg(thenLit), cond)
    else Small(And, false, cond, thenLit)
  }

  /** Under the values, the simplified gate says exactly what the ITE gate says. */
  lemma SimplifyIteMeans(m: Model, values: seq<int>, lhs: Lit, c: seq<Lit>)
    requires |c| == 3 && ValuesHold(m, values) && exists i :: 0 <= i < 3 && (True(values, c[i]) || False(values, c[i]))
    ensures (Holds(m, lhs) <==> Choice(m, c)) <==> Means(m, lhs, SimplifyIte(values, c))
  {
    hide GateHolds, Holds, Neg;
    HoldsNeg(m, c[0]);
    HoldsNeg(m, c[1]);
    HoldsNeg(m, c[2]);
    SmallMeans(m, lhs, SimplifyIte(values, c));
    assert forall i ::
             0 <= i < 3 ==> (True(values, c[i]) ==> Holds(m, c[i])) && (False(values, c[i]) ==> !Holds(m, c[i]));
  }

  lemma SmallAnd(m: Model, lhs: Lit, a: Lit, b: Lit)
    ensures GateHolds(m, Gate(And, lhs, [a, b], 0, false, false)) <==> (Holds(m, lhs) <==> Holds(m, a) && Holds(m, b))
  {
    assert a in [a, b] && b in [a, b];
  }

  lemma SmallXor(m: Model, lhs: Lit, a: Lit, b: Lit)
    ensures GateHolds(m, Gate(Xor, lhs, [a, b], 0, false, false)) <==> (Holds(m, lhs) <==> Holds(m, a) != Holds(m, b))
  {
    assert [a, b] == [a] + [b];
    X.ParityJoin(m, [a], [b]);
    X.ParityOne(m, a);
    X.ParityOne(m, b);
  }
}
