/**
  Extraction of XOR gates (congruence.c): stepping a clause through all its sign patterns of
  one parity, and why the gates found this way are valid.
 */
module Xor {
  import opened Literals
  import opened RootValues

  // ------------------------------------------------------------------ sign patterns

  function Power2(n: nat): (p: nat)
    ensures p >= 1
  {
    if n == 0 then 1 else 2 * Power2(n - 1)
  }

  /** The signs of the literals, read as a binary number, lowest bit first. */
  function Bits(c: seq<Lit>): nat {
    if c == [] then 0 else c[0] % 2 + 2 * Bits(c[1..])
  }

  /** The number of negated literals modulo two. */
  function Parity(c: seq<Lit>): (p: nat)
    ensures p < 2
  {
    if c == [] then 0 else (c[0] + Parity(c[1..])) % 2
  }

  ghost predicate SameVars(c: seq<Lit>, d: seq<Lit>) {
    |c| == |d| && forall i :: 0 <= i < |c| ==> Var(c[i]) == Var(d[i])
  }

  /** Flipping signs until one turns negative, which adds one to the number. */
  function Inc(c: seq<Lit>): seq<Lit> {
    if c == [] then [] else if c[0] % 2 == 0 then [Neg(c[0])] + c[1..] else [Neg(c[0])] + Inc(c[1..])
  }

  lemma {:induction false} BitsBound(c: seq<Lit>)
    ensures Bits(c) < Power2(|c|)
  {
    if c != [] {
      BitsBound(c[1..]);
    }
  }

  lemma {:induction false} IncBits(c: seq<Lit>)
    ensures |Inc(c)| == |c| && SameVars(c, Inc(c))
    ensures Bits(Inc(c)) == if Bits(c) + 1 < Power2(|c|) then Bits(c) + 1 else 0
  {
    if c != [] {
      IncBits(c[1..]);
      BitsBound(c[1..]);
      SameVar(c[0], Neg(c[0]));
      assert Inc(c)[1..] == if c[0] % 2 == 0 then c[1..] else Inc(c[1..]);
      assert c[0] % 2 + Neg(c[0]) % 2 == 1;
      forall i | 0 <= i < |c| ensures Var(c[i]) == Var(Inc(c)[i]) {
        if i > 0 {
          assert c[i] == c[1..][i - 1] && Inc(c)[i] == Inc(c)[1..][i - 1];
        }
      }
    }
  }

  /** A pattern of given variables is determined by its number. */
  lemma {:induction false} BitsInjective(c: seq<Lit>, d: seq<Lit>)
    requires SameVars(c, d) && Bits(c) == Bits(d)
    ensures c == d
  {
    if c != [] {
      assert c[0] % 2 == d[0] % 2;
      SameVar(c[0], d[0]);
      forall i | 0 <= i < |c[1..]| ensures Var(c[1..][i]) == Var(d[1..][i]) {
        assert c[1..][i] == c[i + 1] && d[1..][i] == d[i + 1];
      }
      BitsInjective(c[1..], d[1..]);
      assert c == [c[0]] + c[1..] && d == [d[0]] + d[1..];
    }
  }

  function IncN(c: seq<Lit>, k: nat): seq<Lit> {
    if k == 0 then c else Inc(IncN(c, k - 1))
  }

  /** Incrementing k times counts through all patterns, and starts again. */
  lemma {:induction false} IncNBits(c: seq<Lit>, k: nat)
    requires k <= Power2(|c|)
    ensures |IncN(c, k)| == |c| && SameVars(c, IncN(c, k))
    ensures Bits(IncN(c, k)) == if Bits(c) + k < Power2(|c|) then Bits(c) + k else Bits(c) + k - Power2(|c|)
  {
    BitsBound(c);
    if k > 0 {
      IncNBits(c, k - 1);
      IncBits(IncN(c, k - 1));
    }
  }

  // ------------------------------------------------------------------ patterns of one parity

  /** The pattern of parity p with first variable v and the given tail: every tail has exactly one. */
  function WithParity(v: nat, tail: seq<Lit>, p: nat): (c: seq<Lit>)
    requires p < 2
    ensures |c| == |tail| + 1 && Var(c[0]) == v && c[1..] == tail && Parity(c) == p
  {
    [2 * v + (p + Parity(tail)) % 2] + tail
  }

  lemma ParityUnique(c: seq<Lit>)
    requires c != []
    ensures c == WithParity(Var(c[0]), c[1..], Parity(c))
  {
    hide Parity;
    ParityStep(c);
    TwiceSame(c[0], Parity(c[1..]));
    assert c == [c[0]] + c[1..];
  }

  lemma ParityStep(c: seq<Lit>)
    requires c != []
    ensures Parity(c) == (c[0] + Parity(c[1..])) % 2
  {
  }

  lemma TwiceSame(x: nat, q: nat)
    requires q < 2
    ensures 2 * Var(x) + ((x + q) % 2 + q) % 2 == x
  {
  }

  /** The i-th pattern of the parity of c that the extraction visits. */
  function Visited(c: seq<Lit>, i: nat): seq<Lit>
    requires c != []
  {
    WithParity(Var(c[0]), IncN(c[1..], i), Parity(c))
  }

  /** Every pattern of the same parity is visited exactly once, and after the last one comes the first. */
  lemma VisitsAll(c: seq<Lit>, d: seq<Lit>) returns (i: nat)
    requires c != [] && SameVars(c, d) && Parity(c) == Parity(d)
    ensures i < Power2(|c| - 1) && Visited(c, i) == d
    ensures forall j: nat :: j < Power2(|c| - 1) && Visited(c, j) == d ==> j == i
  {
    var n := |c| - 1;
    BitsBound(c[1..]);
    BitsBound(d[1..]);
    i := if Bits(d[1..]) >= Bits(c[1..]) then Bits(d[1..]) - Bits(c[1..])
         else Bits(d[1..]) + Power2(n) - Bits(c[1..]);
    forall k | 0 <= k < n ensures Var(c[1..][k]) == Var(d[1..][k]) {
      assert c[1..][k] == c[k + 1] && d[1..][k] == d[k + 1];
    }
    IncNBits(c[1..], i);
    BitsInjective(IncN(c[1..], i), d[1..]);
    ParityUnique(d);
    forall j: nat | j < Power2(n) && Visited(c, j) == d ensures j == i {
      IncNBits(c[1..], j);
      assert IncN(c[1..], j) == d[1..];
    }
  }

  lemma VisitsAround(c: seq<Lit>)
    requires c != []
    ensures Visited(c, 0) == c && Visited(c, Power2(|c| - 1)) == c
  {
    var n := |c| - 1;
    ParityUnique(c);
    BitsBound(c[1..]);
    IncNBits(c[1..], Power2(n));
    BitsInjective(IncN(c[1..], Power2(n)), c[1..]);
  }

  // ------------------------------------------------------------------ what the side clauses mean

  /** The number of true literals modulo two. */
  ghost function TrueParity(m: Model, c: seq<Lit>): (p: nat)
    ensures p < 2
  {
    if c == [] then 0 else ((if Holds(m, c[0]) then 1 else 0) + TrueParity(m, c[1..])) % 2
  }

  /** The sign pattern that model m falsifies. */
  ghost function Falsified(m: Model, c: seq<Lit>): seq<Lit> {
    if c == [] then [] else [if Holds(m, c[0]) then Neg(c[0]) else c[0]] + Falsified(m, c[1..])
  }

  lemma {:induction false} FalsifiedVars(m: Model, c: seq<Lit>)
    ensures SameVars(c, Falsified(m, c)) && !Sat(m, Falsified(m, c))
  {
    if c != [] {
      FalsifiedVars(m, c[1..]);
      SameVar(c[0], Neg(c[0]));
      var d := Falsified(m, c);
      assert d[1..] == Falsified(m, c[1..]);
      forall i | 0 <= i < |c| ensures Var(c[i]) == Var(d[i]) && !Holds(m, d[i]) {
        if i > 0 {
          assert c[i] == c[1..][i - 1] && d[i] == d[1..][i - 1];
          assert d[1..][i - 1] in d[1..];
        }
      }
    }
  }

  lemma {:induction false} FalsifiedParity(m: Model, c: seq<Lit>)
    ensures TrueParity(m, c) == (Parity(c) + Parity(Falsified(m, c))) % 2
  {
    if c != [] {
      FalsifiedParity(m, c[1..]);
      var d := Falsified(m, c);
      assert d[1..] == Falsified(m, c[1..]);
      ParityStep(c);
      ParityStep(d);
      hide Parity;
      assert d[0] % 2 == if Holds(m, c[0]) then 1 - c[0] % 2 else c[0] % 2;
    }
  }

  /** If all patterns of the parity of c are satisfied, an odd number of its literals is true. */
  lemma OddTrue(m: Model, c: seq<Lit>)
    requires forall d :: SameVars(c, d) && Parity(d) == Parity(c) ==> Sat(m, d)
    ensures TrueParity(m, c) == 1
  {
    FalsifiedVars(m, c);
    FalsifiedParity(m, c);
  }

  // ------------------------------------------------------------------ gates

  datatype XorGate = XorGate(lhs: Lit, rhs: seq<Lit>)

  /** The left-hand side is the exclusive or of the right-hand side. */
  ghost predicate XorValid(m: Model, g: XorGate) {
    Holds(m, g.lhs) <==> TrueParity(m, g.rhs) == 1
  }

  /** The literals other than that of variable v. */
  function Others(c: seq<Lit>, v: nat, k: nat): seq<Lit>
    requires k <= |c|
  {
    if k == 0 then [] else Others(c, v, k - 1) + if Var(c[k - 1]) == v then [] else [c[k - 1]]
  }

  lemma {:induction false} ParityJoin(m: Model, c: seq<Lit>, d: seq<Lit>)
    ensures TrueParity(m, c + d) == (TrueParity(m, c) + TrueParity(m, d)) % 2
  {
    if c == [] {
      assert c + d == d;
    } else {
      ParityJoin(m, c[1..], d);
      assert (c + d)[1..] == c[1..] + d;
    }
  }

  lemma ParityOne(m: Model, l: Lit)
    ensures TrueParity(m, [l]) == if Holds(m, l) then 1 else 0
  {
    assert [l][1..] == [];
  }

  lemma {:induction false} OthersParity(m: Model, c: seq<Lit>, i: nat, k: nat)
    requires i < |c| && k <= |c| && forall j :: 0 <= j < |c| && j != i ==> Var(c[j]) != Var(c[i])
    ensures TrueParity(m, c[..k]) ==
            (TrueParity(m, Others(c, Var(c[i]), k)) + if i < k && Holds(m, c[i]) then 1 else 0) % 2
  {
    if k > 0 {
      OthersParity(m, c, i, k - 1);
      assert c[..k] == c[..k - 1] + [c[k - 1]];
      ParityJoin(m, c[..k - 1], [c[k - 1]]);
      ParityOne(m, c[k - 1]);
      if k - 1 != i {
        ParityJoin(m, Others(c, Var(c[i]), k - 1), [c[k - 1]]);
      } else {
        assert Others(c, Var(c[i]), k) == Others(c, Var(c[i]), k - 1);
      }
    }
  }

  // ------------------------------------------------------------------ the closure

  datatype Watch = Binary(lit: Lit) | Large(ref: nat)

  /** The parts of the solver that the extraction works on. */
  datatype Closure = Closure(values: seq<int>, marks: seq<bool>, clauses: seq<Clause>, lits: seq<Lit>,
                             watches: seq<seq<Watch>>, largecount: seq<nat>)

  ghost predicate Sized(s: Closure) {
    && |s.values| == |s.marks| == |s.watches| == |s.largecount|
    && Opposite(s.values)
    && (forall r :: 0 <= r < |s.clauses| ==> Proper(|s.values|, s.clauses[r].lits))
    && (forall l :: 0 <= l < |s.marks| ==> !s.marks[l])
    && (forall l, i :: 0 <= l < |s.watches| && 0 <= i < |s.watches[l]| && s.watches[l][i].Large? ==>
          s.watches[l][i].ref < |s.clauses|)
  }

  /** A model of the root-level values and the active clauses. */
  ghost predicate ModelOf(m: Model, s: Closure) {
    && (forall l: nat :: l < |s.values| && s.values[l] > 0 ==> Holds(m, l))
    && (forall r :: 0 <= r < |s.clauses| && !s.clauses[r].garbage ==> Sat(m, s.clauses[r].lits))
  }

  /** From s0 to s only clauses satisfied at the root level were deleted. */
  ghost predicate Cleaned(s0: Closure, s: Closure) {
    && s == s0.(clauses := s.clauses, lits := s.lits, marks := s.marks) && |s.clauses| == |s0.clauses|
    && |s.marks| == |s0.marks|
    && forall r :: 0 <= r < |s.clauses| ==>
         && s.clauses[r].lits == s0.clauses[r].lits
         && (s0.clauses[r].garbage ==> s.clauses[r].garbage)
         && (s.clauses[r].garbage && !s0.clauses[r].garbage ==> RootTrue(s.values, s.clauses[r].lits))
  }

  ghost predicate RootTrue(values: seq<int>, c: seq<Lit>) {
    exists l :: l in c && l < |values| && values[l] > 0
  }

  lemma CleanedValues(s0: Closure, s: Closure)
    requires Cleaned(s0, s)
    ensures s.values == s0.values
  {
  }

  lemma CleanedModel(s0: Closure, s: Closure, m: Model)
    requires Cleaned(s0, s)
    ensures ModelOf(m, s0) <==> ModelOf(m, s)
  {
    forall r | 0 <= r < |s.clauses| && s.clauses[r].garbage && !s0.clauses[r].garbage && ModelOf(m, s)
      ensures Sat(m, s0.clauses[r].lits)
    {
      var l :| l in s.clauses[r].lits && l < |s.values| && s.values[l] > 0;
    }
  }

  /** The clause without its root-level false literals consists of literals of c. */
  ghost predicate SideOf(s: Closure, r: int, c: seq<Lit>) {
    && 0 <= r < |s.clauses| && !s.clauses[r].garbage
    && forall l :: l in s.clauses[r].lits ==> l in c || (l < |s.values| && s.values[l] < 0)
  }

  lemma RootFalse(m: Model, s: Closure, l: Lit)
    requires Sized(s) && ModelOf(m, s) && l < |s.values| && s.values[l] < 0
    ensures !Holds(m, l)
  {
    assert s.values[Neg(l)] == -s.values[l];
    SameVar(l, Neg(l));
    assert Holds(m, Neg(l));
  }

  lemma SideSat(m: Model, s: Closure, r: int, c: seq<Lit>)
    requires Sized(s) && ModelOf(m, s) && SideOf(s, r, c)
    ensures Sat(m, c)
  {
    assert Sat(m, s.clauses[r].lits);
    forall l: nat | l < |s.values| && s.values[l] < 0 ensures !Holds(m, l) {
      RootFalse(m, s, l);
    }
  }

  /** The marks are those of the literals in the buffer. */
  ghost predicate MarkedLits(s: Closure, k: nat) {
    && k <= |s.lits| && |s.marks| == |s.values| && (forall l :: l in s.lits ==> l < |s.values|)
    && forall l: nat :: l < |s.marks| ==> (s.marks[l] <==> l in s.lits[..k])
  }

  // ------------------------------------------------------------------ what has to be found

  /** A negated literal is the largest one. */
  ghost predicate LargestNegated(u: seq<Lit>) {
    forall k, l :: k in u && l in u && k % 2 == 1 ==> l <= k
  }

  /** A clause the search may start from. */
  ghost predicate IsBase(values: seq<int>, c: seq<Lit>, sizeLimit: nat) {
    var u := Unassigned(values, c);
    !RootTrue(values, c) && 3 <= |u| <= sizeLimit && LargestNegated(u)
  }

  /** An active clause whose literals without a value are exactly those of d, and all others are false. */
  ghost predicate Exact(s: Closure, r: nat, d: seq<Lit>) {
    && r < |s.clauses| && !s.clauses[r].garbage
    && (forall l :: l in s.clauses[r].lits ==> l in d || (l < |s.values| && s.values[l] < 0))
    && (forall l :: l in d ==> l in s.clauses[r].lits && l < |s.values| && s.values[l] == 0)
  }

  /** The clause is in the list of l, before all binary ones. */
  ghost predicate ListedFor(s: Closure, l: Lit, r: nat) {
    l < |s.watches| && exists i :: 0 <= i < |s.watches[l]| && s.watches[l][i] == Large(r) &&
                                   forall j :: 0 <= j < i ==> s.watches[l][j].Large?
  }

  ghost predicate Connected(s: Closure, r: nat, d: seq<Lit>) {
    Exact(s, r, d) && forall l :: l in d ==> ListedFor(s, l, r)
  }

  ghost predicate HasSide(s: Closure, d: seq<Lit>) {
    exists r :: Connected(s, r, d)
  }

  /** Every literal of u, and its negation, is counted often enough. */
  ghost predicate OftenCounted(s: Closure, u: seq<Lit>) {
    |u| >= 2 && forall l :: l in u ==> l < |s.largecount| && Neg(l) < |s.largecount| &&
                                       s.largecount[l] >= Power2(|u| - 2) && s.largecount[Neg(l)] >= Power2(|u| - 2)
  }

  ghost predicate SidesFrom(s: Closure, u: seq<Lit>, start: nat)
    requires u != []
  {
    forall i: nat :: start <= i < Power2(|u| - 1) ==> HasSide(s, Visited(u, i))
  }

  /** Base clause r has all its side clauses, and the counts admit it. */
  ghost predicate Findable(s: Closure, r: nat, arityLimit: nat)
    requires r < |s.clauses|
  {
    var u := Unassigned(s.values, s.clauses[r].lits);
    IsBase(s.values, s.clauses[r].lits, arityLimit + 1) && OftenCounted(s, u) && SidesFrom(s, u, 1)
  }

  /** Reading has seen c[..k] without a reason to stop; the largest literal so far is known. */
  ghost predicate Admitted(values: seq<int>, c: seq<Lit>, k: nat, lits: seq<Lit>, largest: Lit, sizeLimit: nat) {
    && k <= |c| && lits == Unassigned(values, c[..k]) && |lits| <= sizeLimit && LargestNegated(lits)
    && (forall i :: 0 <= i < k && c[i] < |values| ==> values[c[i]] <= 0)
    && (lits != [] ==> largest in lits && forall l :: l in lits ==> l <= largest)
  }

  lemma AdmittedStart(values: seq<int>, c: seq<Lit>, largest: Lit, sizeLimit: nat)
    ensures Admitted(values, c, 0, [], largest, sizeLimit)
  {
    assert c[..0] == [];
  }

  lemma AdmittedSkip(values: seq<int>, c: seq<Lit>, k: nat, lits: seq<Lit>, largest: Lit, sizeLimit: nat)
    requires Admitted(values, c, k, lits, largest, sizeLimit) && k < |c| && c[k] < |values| && values[c[k]] < 0
    ensures Admitted(values, c, k + 1, lits, largest, sizeLimit)
  {
    UnassignedStep(values, c, k);
  }

  lemma AdmittedNext(values: seq<int>, c: seq<Lit>, k: nat, lits: seq<Lit>, largest: Lit, sizeLimit: nat)
    requires Admitted(values, c, k, lits, largest, sizeLimit) && k < |c| && c[k] < |values| && values[c[k]] == 0
    requires |lits| < sizeLimit
    requires lits != [] ==> if c[k] > largest then largest % 2 == 0 else c[k] % 2 == 0 || c[k] == largest
    ensures Admitted(values, c, k + 1, lits + [c[k]], if lits == [] || c[k] > largest then c[k] else largest, sizeLimit)
  {
    UnassignedStep(values, c, k);
    var lits' := lits + [c[k]];
    forall a, b | a in lits' && b in lits' && a % 2 == 1 ensures b <= a {
      if a in lits {
        assert largest <= a;
      }
    }
  }

  /** A reason to stop means that the clause is no base clause. */
  lemma Refused(values: seq<int>, c: seq<Lit>, k: nat, lits: seq<Lit>, largest: Lit, sizeLimit: nat)
    requires Admitted(values, c, k, lits, largest, sizeLimit) && k < |c| && c[k] < |values| && values[c[k]] >= 0
    requires || values[c[k]] > 0 || |lits| == sizeLimit
             || (lits != [] && c[k] > largest && largest % 2 == 1)
             || (lits != [] && c[k] < largest && c[k] % 2 == 1)
    ensures !IsBase(values, c, sizeLimit)
  {
    hide Unassigned;
    assert c[k] in c;
    if values[c[k]] == 0 {
      UnassignedStep(values, c, k);
      var u := Unassigned(values, c);
      assert Unassigned(values, c[..k + 1]) == lits + [c[k]];
      assert c[k] in lits + [c[k]] && c[k] in u;
      if lits != [] {
        assert largest in lits + [c[k]] && largest in u;
      }
    }
  }

  lemma AdmittedEnd(values: seq<int>, c: seq<Lit>, lits: seq<Lit>, largest: Lit, sizeLimit: nat)
    requires Admitted(values, c, |c|, lits, largest, sizeLimit)
    ensures lits == Unassigned(values, c) && (|lits| >= 3 <==> IsBase(values, c, sizeLimit))
  {
    assert c[..|c|] == c;
    forall l | l in c ensures l < |values| ==> values[l] <= 0 {
      var i :| 0 <= i < |c| && c[i] == l;
    }
  }

  lemma ExactCleaned(s0: Closure, s: Closure, r: nat, d: seq<Lit>)
    requires Cleaned(s0, s) && Exact(s0, r, d)
    ensures Exact(s, r, d)
  {
    assert !RootTrue(s.values, s.clauses[r].lits);
  }

  lemma HasSideCleaned(s0: Closure, s: Closure, d: seq<Lit>)
    requires Cleaned(s0, s) && HasSide(s0, d)
    ensures HasSide(s, d)
  {
    hide Exact, Cleaned;
    var r :| Connected(s0, r, d);
    ExactCleaned(s0, s, r, d);
    CleanedLists(s0, s);
    forall l | l in d ensures ListedFor(s, l, r) {
      assert ListedFor(s0, l, r);
    }
    assert Connected(s, r, d);
  }

  lemma CleanedLists(s0: Closure, s: Closure)
    requires Cleaned(s0, s)
    ensures s.watches == s0.watches && s.largecount == s0.largecount && s.values == s0.values
    ensures |s.clauses| == |s0.clauses|
  {
  }

  /** A side clause is no shorter than the pattern. */
  lemma ExactSize(s: Closure, r: nat, d: seq<Lit>)
    requires Exact(s, r, d) && DistinctVars(d)
    ensures |d| <= |s.clauses[r].lits|
  {
    Embedded(d, s.clauses[r].lits);
  }

  lemma {:induction false} Embedded(d: seq<Lit>, c: seq<Lit>)
    requires DistinctVars(d) && forall l :: l in d ==> l in c
    ensures |d| <= |c|
  {
    if d != [] {
      assert d[0] in d;
      var i :| 0 <= i < |c| && c[i] == d[0];
      var c' := c[..i] + c[i + 1..];
      forall l | l in d[1..] ensures l in c' {
        var k :| 0 <= k < |d[1..]| && d[1..][k] == l;
        assert d[k + 1] == l && l in d && Var(d[0]) != Var(d[k + 1]);
        var j :| 0 <= j < |c| && c[j] == l;
        assert c'[if j < i then j else j - 1] == l;
      }
      Embedded(d[1..], c');
    }
  }

  /** No clause of the first p entries is a side clause of the literals in the buffer. */
  ghost predicate NoneYet(s: Closure, l: Lit, p: nat) {
    l < |s.watches| && p <= |s.watches[l]| &&
        forall i :: 0 <= i < p ==> s.watches[l][i].Large? && !Exact(s, s.watches[l][i].ref, s.lits)
  }

  /** A list without a side clause up to its end or a binary clause means that there is none. */
  lemma NoneListed(s: Closure, l: Lit, p: nat)
    requires NoneYet(s, l, p) && l in s.lits && (p < |s.watches[l]| ==> s.watches[l][p].Binary?)
    ensures !HasSide(s, s.lits)
  {
    if r :| Connected(s, r, s.lits) {
      assert ListedFor(s, l, r);
    }
  }

  lemma NotExactBefore(s0: Closure, s: Closure, r: nat, d: seq<Lit>)
    requires Cleaned(s0, s) && !Exact(s, r, d)
    ensures !Exact(s0, r, d)
  {
    if Exact(s0, r, d) {
      ExactCleaned(s0, s, r, d);
    }
  }

  /** The negated literal, if any, made positive. */
  function Positive(u: seq<Lit>): (c: seq<Lit>)
    ensures |c| == |u|
  {
    seq(|u|, i requires 0 <= i < |u| => if u[i] % 2 == 1 then Neg(u[i]) else u[i])
  }

  /** The gates of the literals of a base clause: each one is the output once. */
  function GatesOf(u: seq<Lit>): (gs: seq<XorGate>)
    ensures |gs| == |u|
  {
    var c := Positive(u);
    seq(|u|, i requires 0 <= i < |u| => GateOf(c, Parity(u), i))
  }

  lemma PositiveFlip(u: seq<Lit>, d: seq<Lit>, negated: nat)
    requires FewNegated(u, negated) && AllPositive(d)
    requires if negated == 0 then d == u else exists p :: 0 <= p < |u| && d == FlipAt(u, p)
    ensures d == Positive(u)
  {
    if negated != 0 {
      var p :| 0 <= p < |u| && d == FlipAt(u, p);
      assert d[p] == Neg(u[p]) && d[p] % 2 == 0;
      forall i | 0 <= i < |u| ensures d[i] == Positive(u)[i] {
        if i != p {
          assert d[i] == u[i];
        }
      }
    }
  }

  // ------------------------------------------------------------------ reading the base clause

  /** The buffer holds the unassigned literals of c[..k], with as many negated ones as counted. */
  predicate AllPositive(c: seq<Lit>) {
    forall i :: 0 <= i < |c| ==> c[i] % 2 == 0
  }

  /** The number of negated literals is zero or one. */
  predicate FewNegated(c: seq<Lit>, negated: nat) {
    && (negated == 0 ==> AllPositive(c))
    && forall i, j :: 0 <= i < |c| && 0 <= j < |c| && i != j ==> c[i] % 2 == 0 || c[j] % 2 == 0
  }

  ghost predicate Reading(s: Closure, c: seq<Lit>, k: nat, negated: nat) {
    && k <= |c| && Proper(|s.values|, s.lits) && negated == Parity(s.lits) <= 1 && FewNegated(s.lits, negated)
    && (forall l :: l in s.lits ==> l in c[..k] && l < |s.values|)
    && (forall i :: 0 <= i < k ==> c[i] in s.lits || (c[i] < |s.values| && s.values[c[i]] < 0))
  }

  lemma {:induction false} ParityPush(c: seq<Lit>, l: Lit)
    ensures Parity(c + [l]) == (Parity(c) + l) % 2
  {
    if c == [] {
      assert [l][1..] == [] && c + [l] == [l];
    } else {
      ParityPush(c[1..], l);
      assert (c + [l])[1..] == c[1..] + [l];
    }
  }

  lemma ReadingNext(s: Closure, c: seq<Lit>, k: nat, negated: nat)
    requires Reading(s, c, k, negated) && k < |c| && Proper(|s.values|, c) && (c[k] % 2 == 1 ==> negated == 0)
    ensures Reading(s.(lits := s.lits + [c[k]]), c, k + 1, negated + c[k] % 2)
  {
    hide Parity;
    ParityPush(s.lits, c[k]);
    forall l | l in s.lits ensures Var(l) != Var(c[k]) {
      var i :| 0 <= i < k && c[..k][i] == l;
      assert c[i] == l;
    }
  }

  lemma ReadingSkip(s: Closure, c: seq<Lit>, k: nat, negated: nat)
    requires Reading(s, c, k, negated) && k < |c| && c[k] < |s.values| && s.values[c[k]] < 0
    ensures Reading(s, c, k + 1, negated)
  {
    hide Parity, Proper;
    assert forall l :: l in c[..k] ==> l in c[..k + 1];
  }

  lemma {:induction false} SomeNegated(c: seq<Lit>) returns (i: nat)
    requires Parity(c) == 1
    ensures i < |c| && c[i] % 2 == 1
  {
    if c[0] % 2 == 1 {
      i := 0;
    } else {
      i := SomeNegated(c[1..]);
      i := i + 1;
    }
  }

  // ------------------------------------------------------------------ the search for side clauses

  lemma VisitedVars(c: seq<Lit>, i: nat)
    requires c != [] && i <= Power2(|c| - 1)
    ensures SameVars(c, Visited(c, i)) && SameVars(c, Inc(Visited(c, i)))
  {
    hide Parity, Inc, IncN, Power2, WithParity, Bits;
    IncNBits(c[1..], i);
    var d := Visited(c, i);
    ConsVars(c, d);
    IncBits(d);
    assert SameVars(d, Inc(d));
  }

  lemma ConsVars(c: seq<Lit>, d: seq<Lit>)
    requires c != [] && |d| == |c| && Var(c[0]) == Var(d[0]) && SameVars(c[1..], d[1..])
    ensures SameVars(c, d)
  {
    forall k | 0 <= k < |c| ensures Var(c[k]) == Var(d[k]) {
      if k > 0 {
        assert c[1..][k - 1] == c[k] && d[1..][k - 1] == d[k];
      }
    }
  }

  lemma IncParts(c: seq<Lit>)
    requires c != []
    ensures |Inc(c)| == |c| && Inc(c)[0] == Neg(c[0]) && Var(Inc(c)[0]) == Var(c[0])
    ensures Inc(c)[1..] == if c[0] % 2 == 1 then Inc(c[1..]) else c[1..]
    ensures Inc(c)[0] % 2 == 1 - c[0] % 2
  {
    hide Inc, Bits, Power2;
    IncUnfold(c);
    IncBits(c);
    SameVar(c[0], Neg(c[0]));
    assert Inc(c)[1..] == if Neg(c[0]) % 2 == 0 then Inc(c[1..]) else c[1..];
  }

  lemma IncNStep(c: seq<Lit>, i: nat)
    requires i > 0
    ensures IncN(c, i) == Inc(IncN(c, i - 1))
  {
  }

  /** On the way from one pattern of parity p to the next. */
  ghost predicate Between(c: seq<Lit>, i: nat, lits: seq<Lit>)
    requires c != [] && i > 0
  {
    && |lits| == |c| && Var(lits[0]) == Var(c[0])
    && if lits[0] % 2 == 1 &&
       Parity(lits) != Parity(c) then lits[1..] == IncN(c[1..], i - 1) else lits[1..] == IncN(c[1..], i)
  }

  lemma BetweenStart(c: seq<Lit>, i: nat)
    requires c != [] && 0 < i <= Power2(|c| - 1)
    ensures Between(c, i, Inc(Visited(c, i - 1)))
  {
    hide Parity, Inc, IncN, Power2, WithParity, Bits, Between;
    IncNBits(c[1..], i - 1);
    BetweenFirst(c, i, Visited(c, i - 1));
  }

  lemma BetweenFirst(c: seq<Lit>, i: nat, d: seq<Lit>)
    requires c != [] && i > 0 && |d| == |c| && Var(d[0]) == Var(c[0])
    requires d[1..] == IncN(c[1..], i - 1) && Parity(d) == Parity(c)
    ensures Between(c, i, Inc(d))
  {
    hide Parity, Inc, IncN;
    IncNStep(c[1..], i);
    IncParts(d);
    if d[0] % 2 == 0 {
      ParityStep(d);
      ParityStep(Inc(d));
      ParityFlips(d[0], Inc(d)[0], Parity(d[1..]));
    }
  }

  lemma ParityFlips(x: nat, y: nat, q: nat)
    requires x % 2 != y % 2
    ensures (x + q) % 2 != (y + q) % 2
  {
  }

  /** A pattern of the wrong parity is followed by one of the right parity, or by its positive twin. */
  lemma BetweenNext(c: seq<Lit>, i: nat, lits: seq<Lit>)
    requires c != [] && 0 < i <= Power2(|c| - 1) && Between(c, i, lits) && Parity(lits) != Parity(c)
    ensures Between(c, i, Inc(lits)) && (lits[0] % 2 == 0 ==> Parity(Inc(lits)) == Parity(c))
    ensures lits[0] % 2 == 1 ==> Inc(lits)[0] % 2 == 0
  {
    hide Parity, Inc, IncN, Power2, Bits;
    IncParts(lits);
    IncNStep(c[1..], i);
    ParityStep(lits);
    ParityStep(Inc(lits));
  }

  lemma BetweenEnd(c: seq<Lit>, i: nat, lits: seq<Lit>)
    requires c != [] && i > 0 && Between(c, i, lits) && Parity(lits) == Parity(c)
    ensures lits == Visited(c, i)
  {
    ParityUnique(lits);
  }

  /** The first i patterns visited from c on hold in every model. */
  ghost predicate SidesSat(s: Closure, c: seq<Lit>, i: nat)
    requires c != []
  {
    forall m: Model, j: nat | ModelOf(m, s) && j < i :: Sat(m, Visited(c, j))
  }

  lemma SidesSatNext(s0: Closure, s: Closure, c: seq<Lit>, i: nat, r: int)
    requires c != [] && Sized(s) && Cleaned(s0, s) && SidesSat(s0, c, i) && SideOf(s, r, Visited(c, i))
    ensures SidesSat(s0, c, i + 1)
  {
    hide Visited, Sized, SideOf, Cleaned, ModelOf;
    forall m: Model, j: nat | ModelOf(m, s0) && j < i + 1 ensures Sat(m, Visited(c, j)) {
      if j == i {
        CleanedModel(s0, s, m);
        SideSat(m, s, r, Visited(c, i));
      }
    }
  }

  /** With a side clause for each pattern of its parity, an odd number of literals is true in every model. */
  lemma AllSatOdd(s: Closure, c: seq<Lit>, m: Model)
    requires c != [] && SidesSat(s, c, Power2(|c| - 1)) && ModelOf(m, s)
    ensures TrueParity(m, c) == 1
  {
    hide Visited, ModelOf;
    forall d | SameVars(c, d) && Parity(d) == Parity(c) ensures Sat(m, d) {
      var i := VisitsAll(c, d);
    }
    OddTrue(m, c);
  }

  // ------------------------------------------------------------------ the gates found

  lemma FlipParity(m: Model, c: seq<Lit>, p: nat)
    requires p < |c|
    ensures TrueParity(m, c[p := Neg(c[p])]) == 1 - TrueParity(m, c)
  {
    var d := c[p := Neg(c[p])];
    SameVar(c[p], Neg(c[p]));
    assert c == c[..p] + [c[p]] + c[p + 1..] && d == c[..p] + [Neg(c[p])] + c[p + 1..];
    hide TrueParity;
    ParityJoin(m, c[..p] + [c[p]], c[p + 1..]);
    ParityJoin(m, c[..p] + [Neg(c[p])], c[p + 1..]);
    ParityJoin(m, c[..p], [c[p]]);
    ParityJoin(m, c[..p], [Neg(c[p])]);
    ParityOne(m, c[p]);
    ParityOne(m, Neg(c[p]));
  }

  /** The gate for the i-th literal of c, the parity of which is known in every model. */
  lemma GateValid(m: Model, c: seq<Lit>, n: nat, negated: nat, i: nat)
    requires Proper(n, c) && i < |c| && negated < 2 && TrueParity(m, c) == 1 - negated
    ensures XorValid(m, XorGate(if negated == 0 then Neg(c[i]) else c[i], Others(c, Var(c[i]), |c|)))
  {
    hide TrueParity;
    assert c[..|c|] == c;
    OthersParity(m, c, i, |c|);
    SameVar(c[i], Neg(c[i]));
  }

  lemma ProperFlip(n: nat, c: seq<Lit>, p: nat)
    requires Proper(n, c) && p < |c| && Neg(c[p]) < n
    ensures Proper(n, c[p := Neg(c[p])])
  {
    SameVar(c[p], Neg(c[p]));
  }

  function FlipAt(c: seq<Lit>, p: int): seq<Lit> {
    if 0 <= p < |c| then c[p := Neg(c[p])] else c
  }

  function GateOf(c: seq<Lit>, negated: nat, i: nat): XorGate
    requires i < |c|
  {
    XorGate(if negated == 0 then Neg(c[i]) else c[i], Others(c, Var(c[i]), |c|))
  }

  lemma GateParts(c: seq<Lit>, negated: nat)
    ensures forall i :: 0 <= i < |c| ==> Var(GateOf(c, negated, i).lhs) == Var(c[i])
    ensures forall i :: 0 <= i < |c| ==> GateOf(c, negated, i).rhs == Others(c, Var(c[i]), |c|)
  {
    forall i | 0 <= i < |c| ensures Var(GateOf(c, negated, i).lhs) == Var(c[i]) {
      SameVar(c[i], Neg(c[i]));
    }
  }

  lemma NoneNegated(c: seq<Lit>, negated: nat)
    requires FewNegated(c, negated) && negated == Parity(c)
    ensures negated == 0 ==> AllPositive(c)
    ensures negated != 0 ==> FewNegated(c, 1) && Parity(c) == 1
  {
  }

  /** The parity of the literals after the negated one, if any, was flipped. */
  ghost predicate KnownParity(s: Closure, c: seq<Lit>, negated: nat) {
    forall m: Model | ModelOf(m, s) :: TrueParity(m, c) == 1 - negated
  }

  lemma FlippedModels(s: Closure, c: seq<Lit>, d: seq<Lit>, negated: nat, n: nat)
    requires Proper(n, c) && (forall l: nat {:trigger Neg(l)} :: l < n ==> Neg(l) < n)
    requires c != [] && SidesSat(s, c, Power2(|c| - 1)) && negated < 2
    requires if negated == 0 then d == c else exists p :: 0 <= p < |c| && d == FlipAt(c, p)
    ensures KnownParity(s, d, negated) && Proper(n, d) && |d| == |c|
  {
    hide SidesSat, ModelOf, TrueParity;
    forall m: Model | ModelOf(m, s) ensures TrueParity(m, d) == 1 - negated {
      AllSatOdd(s, c, m);
      if negated != 0 {
        var p :| 0 <= p < |c| && d == FlipAt(c, p);
        FlipParity(m, c, p);
      }
    }
    if negated != 0 {
      var p :| 0 <= p < |c| && d == FlipAt(c, p);
      ProperFlip(n, c, p);
    }
  }

  lemma AllSatBack(s0: Closure, s: Closure, c: seq<Lit>)
    requires c != [] && Cleaned(s0, s) && SidesSat(s, c, Power2(|c| - 1))
    ensures SidesSat(s0, c, Power2(|c| - 1))
  {
    hide Cleaned, ModelOf, Visited;
    forall m: Model | ModelOf(m, s0) ensures ModelOf(m, s) {
      CleanedModel(s0, s, m);
    }
  }

  lemma GatesValid(s: Closure, c: seq<Lit>, n: nat, negated: nat)
    requires Proper(n, c) && negated < 2 && KnownParity(s, c, negated)
    ensures forall m: Model, i | ModelOf(m, s) && 0 <= i < |c| :: XorValid(m, GateOf(c, negated, i))
  {
    hide ModelOf, TrueParity, XorValid;
    forall m: Model, i | ModelOf(m, s) && 0 <= i < |c| ensures XorValid(m, GateOf(c, negated, i)) {
      GateValid(m, c, n, negated, i);
    }
  }

  lemma SizedMarks(s: Closure)
    requires Sized(s) && forall l :: l in s.lits ==> l < |s.values|
    ensures MarkedLits(s, 0) && |s.largecount| == |s.values|
  {
  }

  lemma BaseSized(s: Closure)
    requires Sized(s) && Proper(|s.values|, s.lits)
    ensures |s.largecount| == |s.values| && forall l :: l in s.lits ==> l < |s.values| && Neg(l) < |s.values|
    ensures forall l: nat {:trigger Neg(l)} :: l < |s.values| ==> Neg(l) < |s.values|
  {
  }

  lemma CleanedRefl(s0: Closure, s: Closure)
    requires s == s0.(lits := s.lits, marks := s.marks) && |s.marks| == |s0.marks|
    ensures Cleaned(s0, s) && Cleaned(s, s)
  {
  }

  lemma CleanedTrans(s: Closure, s': Closure, s'': Closure)
    requires Cleaned(s, s') && Cleaned(s', s'')
    ensures Cleaned(s, s'')
  {
  }

  lemma SizedLess(s: Closure, l: Lit)
    requires MarkedLits(s, |s.lits|) && l in s.lits
    ensures l < |s.values|
  {
  }

  lemma SizedWatch(s0: Closure, s1: Closure, s: Closure, l: Lit, p: nat)
    requires Sized(s0) && s1 == s0.(marks := s1.marks) && Cleaned(s1, s) && l < |s.watches| && p < |s.watches[l]|
    requires s.watches[l][p].Large?
    ensures s.watches[l][p].ref < |s.clauses| && Proper(|s.values|, s.clauses[s.watches[l][p].ref].lits)
  {
  }

  lemma FoundSide(s0: Closure, s1: Closure, s: Closure, s': Closure, res: int)
    requires Sized(s0) && s1 == s0.(marks := s1.marks) && |s1.marks| == |s0.marks| && Cleaned(s1, s)
    requires s' == s.(marks := s'.marks) && |s'.marks| == |s.marks| && forall l :: 0 <= l < |s'.marks| ==> !s'.marks[l]
    requires s.lits == s1.lits && (res != -1 ==> SideOf(s, res, s.lits))
    ensures Cleaned(s0, s') && Sized(s') && s'.lits == s0.lits && (res != -1 ==> SideOf(s', res, s'.lits))
  {
  }

  lemma SecondNegated(s: Closure, c: seq<Lit>, k: nat, negated: nat, largest: Lit, sizeLimit: nat)
    requires Reading(s, c, k, negated) && Admitted(s.values, c, k, s.lits, largest, sizeLimit) && Proper(|s.values|, c)
    requires k < |c| && s.values[c[k]] == 0 && c[k] % 2 == 1 && negated != 0
    ensures !IsBase(s.values, c, sizeLimit)
  {
    hide Parity, Unassigned;
    var i := SomeNegated(s.lits);
    var n := s.lits[i];
    assert n in s.lits;
    var j :| 0 <= j < k && c[..k][j] == n;
    assert Var(c[j]) != Var(c[k]);
    UnassignedStep(s.values, c, k);
    var u := Unassigned(s.values, c);
    assert Unassigned(s.values, c[..k + 1]) == s.lits + [c[k]];
    assert c[k] in s.lits + [c[k]] && n in s.lits + [c[k]];
    assert c[k] in u && n in u;
  }

  lemma SideMissing(s0: Closure, s: Closure, c: seq<Lit>, i: nat)
    requires c != [] && 0 < i < Power2(|c| - 1) && Cleaned(s0, s) && s.lits == Visited(c, i) && !HasSide(s, s.lits)
    ensures !SidesFrom(s0, c, 1)
  {
    hide Visited, HasSide;
    if HasSide(s0, s.lits) {
      HasSideCleaned(s0, s, s.lits);
    }
  }

  lemma BaseFindable(s0: Closure, s: Closure, ref: nat, arityLimit: nat)
    requires Cleaned(s0, s) && ref < |s.clauses|
    requires s.lits == Unassigned(s.values, s.clauses[ref].lits) && s.lits != []
    ensures s.values == s0.values && s.clauses[ref].lits == s0.clauses[ref].lits
    ensures Findable(s0, ref, arityLimit) ==> OftenCounted(s, s.lits) && SidesFrom(s, s.lits, 1)
  {
    hide HasSide, Visited, Unassigned, Power2;
    if Findable(s0, ref, arityLimit) {
      CleanedLists(s0, s);
      forall i: nat | 1 <= i < Power2(|s.lits| - 1) ensures HasSide(s, Visited(s.lits, i)) {
        HasSideCleaned(s0, s, Visited(s.lits, i));
      }
    }
  }

  lemma NoBase(s0: Closure, s: Closure, ref: nat, arityLimit: nat)
    requires Cleaned(s0, s) && ref < |s.clauses| && !IsBase(s.values, s.clauses[ref].lits, arityLimit + 1)
    ensures ref < |s0.clauses| && !Findable(s0, ref, arityLimit)
  {
  }

  lemma GatesBuilt(u: seq<Lit>, d: seq<Lit>, gates: seq<XorGate>, negated: nat)
    requires d == Positive(u) && negated == Parity(u) && |gates| == |d|
    requires forall k :: 0 <= k < |gates| ==> gates[k] == GateOf(d, negated, k)
    ensures gates == GatesOf(u)
  {
    hide Parity, Others, Positive;
  }

  lemma TooShort(s: Closure, r: nat, d: seq<Lit>)
    requires r < |s.clauses| && DistinctVars(d) && (s.clauses[r].garbage || |s.clauses[r].lits| < |d|)
    ensures !Exact(s, r, d)
  {
    if Exact(s, r, d) {
      ExactSize(s, r, d);
    }
  }

  lemma NoSideMarked(s0: Closure, s: Closure)
    requires s == s0.(marks := s.marks) && |s.marks| == |s0.marks| && !HasSide(s, s.lits)
    ensures !HasSide(s0, s.lits)
  {
    if HasSide(s0, s.lits) {
      HasSideCleaned(s0, s, s.lits);
    }
  }

  lemma SizedClause(s: Closure, ref: nat)
    requires Sized(s) && ref < |s.clauses|
    ensures Proper(|s.values|, s.clauses[ref].lits) && Cleaned(s, s)
  {
  }

  lemma ReadingStart(s: Closure, c: seq<Lit>)
    requires s.lits == []
    ensures Reading(s, c, 0, 0)
  {
  }

  lemma SatisfiedCleaned(s0: Closure, s: Closure, ref: nat, l: Lit)
    requires Cleaned(s0, s) && Sized(s) && ref < |s.clauses| && l in s.clauses[ref].lits
    requires l < |s.values| && s.values[l] > 0
    ensures var s' := s.(clauses := s.clauses[ref := s.clauses[ref].(garbage := true)]); Cleaned(s0, s') && Sized(s')
  {
    var s' := s.(clauses := s.clauses[ref := s.clauses[ref].(garbage := true)]);
    assert RootTrue(s'.values, s'.clauses[ref].lits);
  }

  lemma ReadingDone(s: Closure, ref: nat, negated: nat)
    requires ref < |s.clauses| && !s.clauses[ref].garbage
    requires Reading(s, s.clauses[ref].lits, |s.clauses[ref].lits|, negated)
    ensures Proper(|s.values|, s.lits) && SideOf(s, ref, s.lits) && negated == Parity(s.lits)
    ensures FewNegated(s.lits, negated)
  {
  }

  lemma BetweenParts(c: seq<Lit>, i: nat, lits: seq<Lit>)
    requires c != [] && i > 0 && Between(c, i, lits)
    ensures lits != []
  {
  }

  lemma CleanedStart(s: Closure)
    ensures Cleaned(s, s)
  {
  }

  lemma AllSatStart(s: Closure, c: seq<Lit>)
    requires c != []
    ensures SidesSat(s, c, 0)
  {
  }

  lemma CleanedThen(s: Closure, s': Closure, s'': Closure)
    requires Cleaned(s, s')
    ensures Cleaned(s', s'') || s'' == s' ==> Cleaned(s, s'')
  {
  }

  /** The patterns visited use the variables of the base clause. */
  lemma PatternSized(s0: Closure, s1: Closure, s: Closure, c: seq<Lit>, i: nat)
    requires Sized(s0) && c == s0.lits && c != [] && Proper(|s0.values|, c) && i < Power2(|c| - 1)
    requires Cleaned(s0, s1) && Sized(s1) && s == s1.(lits := Visited(c, i))
    ensures Cleaned(s0, s) && Sized(s) && s.lits != [] && forall l :: l in s.lits ==> l < |s.values|
    ensures DistinctVars(s.lits)
  {
    hide Visited, Power2, Parity, Inc;
    VisitedVars(c, i);
    var d := Visited(c, i);
    assert DistinctVars(d) by {
      forall j, k | 0 <= j < k < |d| ensures Var(d[j]) != Var(d[k]) {
        assert Var(c[j]) == Var(d[j]) && Var(c[k]) == Var(d[k]);
      }
    }
    forall l | l in d ensures l < |s.values| {
      var k :| 0 <= k < |d| && d[k] == l;
      SameVar(l, c[k]);
      SameVar(c[k], l);
      assert Neg(c[k]) < |s0.values|;
    }
  }

  lemma LitsSized(s0: Closure, s: Closure, s': Closure)
    requires Cleaned(s0, s) && Sized(s) && s' == s.(lits := s'.lits)
    ensures Cleaned(s0, s') && Sized(s')
  {
  }

  class Extractor {
    var s: Closure

    constructor (values: seq<int>, clauses: seq<Clause>, watches: seq<seq<Watch>>, largecount: seq<nat>)
      requires |values| == |watches| == |largecount| && Opposite(values)
      requires forall r :: 0 <= r < |clauses| ==> Proper(|values|, clauses[r].lits)
      requires forall l, i ::
                 0 <= l < |watches| && 0 <= i < |watches[l]| && watches[l][i].Large? ==> watches[l][i].ref < |clauses|
      ensures Sized(s) && s.values == values && s.clauses == clauses
    {
      s := Closure(values, seq(|values|, _ => false), clauses, [], watches, largecount);
    }

    method ParityLits() returns (res: nat)
      ensures res == Parity(s.lits)
    {
      res := 0;
      for k := 0 to |s.lits|
        invariant res < 2 && Parity(s.lits) == (res + Parity(s.lits[k..])) % 2
      {
        assert s.lits[k..][0] == s.lits[k] && s.lits[k..][1..] == s.lits[k + 1..];
        res := (res + s.lits[k] % 2) % 2;
      }
    }

    /** Flips signs from the front while they turn positive. */
    method IncLits()
      modifies this`s
      ensures s == old(s).(lits := Inc(old(s).lits))
    {
      hide Inc;
      var p: nat, carry := 0, true;
      ghost var done, rest := [], s.lits;
      assert s.lits == done + rest;
      while carry && p != |s.lits|
        invariant s == old(s).(lits := done + rest) && |done| == p
        invariant Inc(old(s).lits) == done + if carry then Inc(rest) else rest
        decreases |rest|
      {
        IncStep(done, rest);
        var lit := s.lits[p];
        carry := Neg(lit) % 2 == 0;
        s := s.(lits := s.lits[p := Neg(lit)]);
        p := p + 1;
        done, rest := done + [Neg(lit)], rest[1..];
      }
      IncDone(rest);
    }

    /** Whether the clause, but for root-level false literals, consists of marked ones; satisfied ones are deleted. */
    method CheckSide(ref: nat) returns (found: bool)
      requires ref < |s.clauses| && MarkedLits(s, |s.lits|) && Proper(|s.values|, s.clauses[ref].lits)
      requires !s.clauses[ref].garbage
      modifies this`s
      ensures Cleaned(old(s), s) && s == old(s).(clauses := s.clauses)
      ensures found ==> SideOf(s, ref, s.lits)
      ensures !found ==> !Exact(old(s), ref, s.lits)
    {
      found := true;
      var c := s.clauses[ref].lits;
      for k := 0 to |c|
        invariant found && s == old(s)
        invariant forall i :: 0 <= i < k ==> c[i] in s.lits || s.values[c[i]] < 0
      {
        var value := s.values[c[k]];
        assert c[k] in c && s.lits[..|s.lits|] == s.lits;
        if value < 0 {
          continue;
        }
        if value > 0 {
          s := s.(clauses := s.clauses[ref := s.clauses[ref].(garbage := true)]);
          found := false;
          break;
        }
        if !s.marks[c[k]] {
          found := false;
          break;
        }
      }
    }

    method MarkLits() returns (least: Lit)
      requires MarkedLits(s, 0) && s.lits != [] && |s.largecount| == |s.values|
      modifies this`s
      ensures s == old(s).(marks := s.marks) && |s.marks| == |old(s).marks| && MarkedLits(s, |s.lits|)
      ensures least in s.lits
    {
      var found, count := false, 0;
      least := s.lits[0];
      for k := 0 to |s.lits|
        invariant s == old(s).(marks := s.marks) && |s.marks| == |old(s).marks| && MarkedLits(s, k)
        invariant least in s.lits
      {
        var lit := s.lits[k];
        assert s.lits[..k + 1] == s.lits[..k] + [lit];
        assert lit in s.lits;
        s := s.(marks := s.marks[lit := true]);
        if !found || s.largecount[lit] < count {
          found, count, least := true, s.largecount[lit], lit;
        }
      }
    }

    method UnmarkLits()
      requires MarkedLits(s, |s.lits|)
      modifies this`s
      ensures s == old(s).(marks := s.marks) && |s.marks| == |old(s).marks|
      ensures forall l :: 0 <= l < |s.marks| ==> !s.marks[l]
    {
      assert s.lits[..|s.lits|] == s.lits;
      for k := 0 to |s.lits|
        invariant s == old(s).(marks := s.marks) && |s.marks| == |old(s).marks|
        invariant forall l: nat :: l < |s.marks| && s.marks[l] ==> l in s.lits[k..]
      {
        assert s.lits[k] in s.lits;
        s := s.(marks := s.marks[s.lits[k] := false]);
      }
    }

    /** Looks for a side clause on the shortest watch list of the literals in the buffer. */
    method FindSide() returns (res: int)
      requires Sized(s) && s.lits != [] && DistinctVars(s.lits) && forall l :: l in s.lits ==> l < |s.values|
      modifies this`s
      ensures Cleaned(old(s), s) && Sized(s) && s.lits == old(s).lits
      ensures res != -1 ==> SideOf(s, res, s.lits)
      ensures res == -1 ==> !HasSide(old(s), s.lits)
    {
      hide SideOf, Exact, HasSide;
      res := -1;
      SizedMarks(s);
      var least := MarkLits();
      ghost var s1 := s;
      CleanedRefl(old(s), s);
      SizedLess(s1, least);
      var p: nat := 0;
      while p != |s.watches[least]|
        invariant Cleaned(s1, s) && s == s1.(clauses := s.clauses) && MarkedLits(s, |s.lits|) && res == -1
        invariant NoneYet(s1, least, p)
        decreases |s.watches[least]| - p
      {
        var watch := s.watches[least][p];
        p := p + 1;
        if watch.Binary? {
          NoneListed(s1, least, p - 1);
          break;
        }
        SizedWatch(old(s), s1, s, least, p - 1);
        if s.clauses[watch.ref].garbage || |s.clauses[watch.ref].lits| < |s.lits| {
          TooShort(s, watch.ref, s.lits);
          NotExactBefore(s1, s, watch.ref, s.lits);
          continue;
        }
        ghost var s2 := s;
        var found := CheckSide(watch.ref);
        CleanedTrans(s1, s2, s);
        if found {
          res := watch.ref;
          break;
        }
        NotExactBefore(s1, s2, watch.ref, s.lits);
      }
      ghost var s3 := s;
      if res == -1 {
        if p == |s1.watches[least]| && NoneYet(s1, least, p) {
          NoneListed(s1, least, p);
        }
        NoSideMarked(old(s), s1);
      }
      UnmarkLits();
      FoundSide(old(s), s1, s3, s, res);
    }

    /** Reads the base clause: at most one literal, the largest, may be negated. */
    method ReadBase(ref: nat, sizeLimit: nat) returns (ok: bool, negated: nat)
      requires Sized(s) && ref < |s.clauses| && !s.clauses[ref].garbage
      modifies this`s
      ensures Cleaned(old(s), s) && Sized(s) && |s.clauses| == |old(s).clauses|
      ensures ok ==> |s.lits| >= 3 && Proper(|s.values|, s.lits) && SideOf(s, ref, s.lits)
      ensures ok ==> negated == Parity(s.lits) && FewNegated(s.lits, negated)
      ensures ok <==> IsBase(s.values, s.clauses[ref].lits, sizeLimit)
      ensures ok ==> s.lits == Unassigned(s.values, s.clauses[ref].lits)
    {
      hide Parity, IsBase, Admitted, Unassigned, Reading, Cleaned, Sized, FewNegated, SideOf;
      ok, negated := false, 0;
      var c := s.clauses[ref].lits;
      SizedClause(s, ref);
      var largest: Lit, first, size := 0, true, 0;
      s := s.(lits := []);
      LitsSized(old(s), old(s), s);
      ReadingStart(s, c);
      AdmittedStart(s.values, c, largest, sizeLimit);
      for k := 0 to |c|
        invariant s == old(s).(lits := s.lits) && Reading(s, c, k, negated) && !ok && size == |s.lits| <= sizeLimit
        invariant Cleaned(old(s), s) && Sized(s)
        invariant Admitted(s.values, c, k, s.lits, largest, sizeLimit) && (first <==> s.lits == [])
      {
        var lit := c[k];
        var value := s.values[lit];
        if value < 0 {
          ReadingSkip(s, c, k, negated);
          AdmittedSkip(s.values, c, k, s.lits, largest, sizeLimit);
          continue;
        }
        ghost var largest0 := largest;
        if value > 0 {
          Refused(s.values, c, k, s.lits, largest, sizeLimit);
          SatisfiedCleaned(old(s), s, ref, c[k]);
          s := s.(clauses := s.clauses[ref := s.clauses[ref].(garbage := true)]);
          return;
        }
        if size == sizeLimit {
          Refused(s.values, c, k, s.lits, largest, sizeLimit);
          return;
        }
        if first {
          largest, first := lit, false;
        } else if lit > largest {
          if largest % 2 == 1 {
            Refused(s.values, c, k, s.lits, largest, sizeLimit);
            return;
          }
          largest := lit;
        }
        if lit % 2 == 1 && lit < largest {
          Refused(s.values, c, k, s.lits, largest0, sizeLimit);
          return;
        }
        if lit % 2 == 1 && negated != 0 {
          SecondNegated(s, c, k, negated, largest0, sizeLimit);
          return;
        }
        AdmittedNext(s.values, c, k, s.lits, largest0, sizeLimit);
        ReadingNext(s, c, k, negated);
        negated := negated + lit % 2;
        ghost var s1 := s;
        s := s.(lits := s.lits + [lit]);
        LitsSized(old(s), s1, s);
        size := size + 1;
      }
      ReadingDone(s, ref, negated);
      AdmittedEnd(s.values, c, s.lits, largest, sizeLimit);
      ok := size >= 3;
    }

    /** Moves on to the next pattern of the given parity. */
    method NextPattern(negated: nat, ghost c: seq<Lit>, ghost i: nat)
      requires c != [] && 0 < i <= Power2(|c| - 1) && negated == Parity(c) && s.lits == Inc(Visited(c, i - 1))
      modifies this`s
      ensures s == old(s).(lits := Visited(c, i))
    {
      hide Visited, Inc, Parity, Between;
      BetweenStart(c, i);
      BetweenParts(c, i, s.lits);
      var parity := ParityLits();
      while parity != negated
        invariant s == old(s).(lits := s.lits) && Between(c, i, s.lits) && s.lits != [] && parity == Parity(s.lits)
        decreases if parity == negated then 0 else if s.lits[0] % 2 == 1 then 2 else 1
      {
        BetweenNext(c, i, s.lits);
        BetweenParts(c, i, Inc(s.lits));
        IncLits();
        parity := ParityLits();
      }
      BetweenEnd(c, i, s.lits);
    }

    /** Looks for a side clause of every pattern; at the end the base clause is back in the buffer. */
    method FindSides(ref: nat, negated: nat) returns (found: bool)
      requires Sized(s) && |s.lits| >= 1 && Proper(|s.values|, s.lits) && SideOf(s, ref, s.lits)
      requires negated == Parity(s.lits)
      modifies this`s
      ensures Cleaned(old(s), s) && Sized(s)
      ensures found ==> s.lits == old(s).lits && SidesSat(old(s), s.lits, Power2(|s.lits| - 1))
      ensures SidesFrom(old(s), old(s).lits, 1) ==> found
    {
      hide Visited, Inc, Parity, Between, Sized, Cleaned, SideOf, SidesSat, HasSide;
      found := false;
      ghost var c := s.lits;
      var arity := |s.lits| - 1;
      var end := Power2(arity);
      VisitsAround(c);
      CleanedStart(s);
      AllSatStart(s, c);
      for i := 0 to end
        invariant Cleaned(old(s), s) && Sized(s) && SidesSat(old(s), c, i)
        invariant s.lits == if i == 0 then c else Inc(Visited(c, i - 1))
        invariant i == 0 ==> s == old(s)
      {
        ghost var s1 := s;
        if i > 0 {
          NextPattern(negated, c, i);
        }
        PatternSized(old(s), s1, s, c, i);
        var d: int := ref;
        ghost var s2 := s;
        if i > 0 {
          d := FindSide();
          if d == -1 {
            CleanedThen(old(s), s2, s);
            SideMissing(old(s), s2, c, i);
            return;
          }
        }
        CleanedThen(old(s), s2, s);
        SidesSatNext(old(s), s, c, i, d);
        ghost var s3 := s;
        IncLits();
        LitsSized(old(s), s3, s);
      }
      ghost var s4 := s;
      NextPattern(negated, c, end);
      LitsSized(old(s), s4, s);
      found := true;
    }

    /** The inputs of the gate with the given output. */
    method NewXorGate(lhs: Lit) returns (g: XorGate)
      ensures g == XorGate(lhs, Others(s.lits, Var(lhs), |s.lits|))
    {
      var rhs: seq<Lit> := [];
      for k := 0 to |s.lits|
        invariant rhs == Others(s.lits, Var(lhs), k)
      {
        SameVar(lhs, s.lits[k]);
        SameVar(s.lits[k], lhs);
        if s.lits[k] != lhs && s.lits[k] != Neg(lhs) {
          rhs := rhs + [s.lits[k]];
        }
      }
      g := XorGate(lhs, rhs);
    }

    /** Extracts the XOR gates of a base clause: each one is valid in every model. */
    method ExtractXorGates(ref: nat, arityLimit: nat) returns (gates: seq<XorGate>)
      requires Sized(s) && ref < |s.clauses| && !s.clauses[ref].garbage
      modifies this`s
      ensures Cleaned(old(s), s) && Sized(s)
      ensures forall m: Model, i | ModelOf(m, old(s)) && 0 <= i < |gates| :: XorValid(m, gates[i])
      ensures gates != [] ==> |gates| == |s.lits| >= 3 && Proper(|s.values|, s.lits) && AllPositive(s.lits)
      ensures forall i :: 0 <= i < |gates| ==>
                Var(gates[i].lhs) == Var(s.lits[i]) && gates[i].rhs == Others(s.lits, Var(s.lits[i]), |s.lits|)
      ensures gates == [] || gates == GatesOf(Unassigned(old(s).values, old(s).clauses[ref].lits))
      ensures Findable(old(s), ref, arityLimit) ==> gates != []
    {
      hide AllPositive, FewNegated, Visited, Parity, Sized, Cleaned, SideOf, SidesSat,
           XorValid, TrueParity, ModelOf, Others, Unassigned, IsBase, OftenCounted, SidesFrom, GatesOf, Positive;
      gates := [];
      var ok, negated := ReadBase(ref, arityLimit + 1);
      if !ok {
        NoBase(old(s), s, ref, arityLimit);
        return;
      }
      ghost var n := |s.values|;
      BaseSized(s);
      BaseFindable(old(s), s, ref, arityLimit);
      var frequent := Frequent();
      if !frequent {
        return;
      }
      ghost var s1 := s;
      var found := FindSides(ref, negated);
      CleanedThen(old(s), s1, s);
      if !found {
        return;
      }
      ghost var c := s.lits;
      AllSatBack(old(s), s1, c);
      ghost var s2 := s;
      NoneNegated(c, negated);
      if negated != 0 {
        FlipNegated();
        LitsSized(old(s), s2, s);
      }
      FlippedModels(old(s), c, s.lits, negated, n);
      PositiveFlip(c, s.lits, negated);
      ghost var flipped := s.lits;
      for i := 0 to |s.lits|
        invariant s.lits == flipped && Cleaned(old(s), s) && Sized(s) && |gates| == i
        invariant forall k :: 0 <= k < i ==> gates[k] == GateOf(s.lits, negated, k)
      {
        var lhs := s.lits[i];
        if negated == 0 {
          lhs := Neg(lhs);
        }
        SameVar(s.lits[i], Neg(s.lits[i]));
        var g := NewXorGate(lhs);
        gates := gates + [g];
      }
      GateParts(s.lits, negated);
      GatesBuilt(c, s.lits, gates, negated);
      CleanedValues(old(s), s1);
      CleanedValues(old(s), s);
      GatesValid(old(s), s.lits, n, negated);
    }

    /** Whether each literal, and its negation, occurs often enough. */
    method Frequent() returns (frequent: bool)
      requires |s.largecount| == |s.values| && forall l :: l in s.lits ==> l < |s.values| && Neg(l) < |s.values|
      ensures |s.lits| >= 2 ==> (frequent <==> OftenCounted(s, s.lits))
    {
      var needed := if |s.lits| < 2 then 1 else Power2(|s.lits| - 2);
      frequent := true;
      for k := 0 to |s.lits|
        invariant frequent
        invariant forall l :: l in s.lits[..k] ==> l < |s.largecount| && Neg(l) < |s.largecount| &&
                                                   s.largecount[l] >= needed && s.largecount[Neg(l)] >= needed
      {
        var lit := s.lits[k];
        assert lit in s.lits && s.lits[..k + 1] == s.lits[..k] + [lit];
        if s.largecount[lit] < needed || s.largecount[Neg(lit)] < needed {
          frequent := false;
          return;
        }
      }
      assert s.lits[..|s.lits|] == s.lits;
    }

    /** Flips the first negated literal. */
    method FlipNegated()
      requires Parity(s.lits) == 1
      modifies this`s
      ensures exists p :: 0 <= p < |old(s).lits| && s == old(s).(lits := FlipAt(old(s).lits, p))
      ensures FewNegated(old(s).lits, 1) ==> AllPositive(s.lits)
    {
      ghost var n := SomeNegated(s.lits);
      var p: nat := 0;
      while s.lits[p] % 2 == 0
        invariant p <= n
        decreases n - p
      {
        p := p + 1;
      }
      s := s.(lits := s.lits[p := Neg(s.lits[p])]);
      assert s == old(s).(lits := FlipAt(old(s).lits, p));
    }
  }

  lemma IncStep(done: seq<Lit>, rest: seq<Lit>)
    requires rest != []
    ensures (done + rest)[|done| := Neg(rest[0])] == done + [Neg(rest[0])] + rest[1..]
    ensures done + Inc(rest) == done + [Neg(rest[0])] + if Neg(rest[0]) % 2 == 0 then Inc(rest[1..]) else rest[1..]
  {
    hide Inc;
    IncUnfold(rest);
    var t := if Neg(rest[0]) % 2 == 0 then Inc(rest[1..]) else rest[1..];
    assert done + ([Neg(rest[0])] + t) == done + [Neg(rest[0])] + t;
  }

  lemma IncUnfold(c: seq<Lit>)
    requires c != []
    ensures Inc(c) == [Neg(c[0])] + if Neg(c[0]) % 2 == 0 then Inc(c[1..]) else c[1..]
  {
    assert c[0] % 2 == 0 <==> Neg(c[0]) % 2 == 1;
  }

  lemma IncDone(rest: seq<Lit>)
    ensures rest == [] ==> Inc(rest) == []
  {
  }
}
