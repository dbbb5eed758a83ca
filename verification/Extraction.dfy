/**
  Finding gates among the clauses (congruence.c): the gates found are entered into the closure,
  and every gate entered is implied by the clauses it was found in.
 */
module Extraction {
  import opened Literals
  import opened RootValues
  import opened GateTable
  import opened GateMeaning
  import opened Sequences
  import opened Sorting
  import C = Congruence
  import X = Xor
  import XC = XorCounting

  ghost predicate Implied(ms: iset<Model>, c: seq<Lit>) {
    forall m :: m in ms ==> Sat(m, c)
  }

  /** Units, merges and gates were only added. */
  ghost predicate Moved(s0: C.State, gates0: seq<Gate>, s: C.State, gates: seq<Gate>) {
    C.Advanced(s0, s, -1) && C.Coarser(s0.repr, s.repr) && C.GatesKept(gates0, gates)
  }

  lemma MovedRefl(s: C.State, gates: seq<Gate>, ms: iset<Model>)
    requires C.Base(s, ms)
    ensures Moved(s, gates, s, gates)
  {
    C.CoarserRefl(s, ms);
    C.GatesKeptRefl(gates);
  }

  lemma MovedTrans(s0: C.State, gates0: seq<Gate>, s1: C.State, gates1: seq<Gate>, s2: C.State, gates2: seq<Gate>)
    requires Moved(s0, gates0, s1, gates1) && Moved(s1, gates1, s2, gates2)
    ensures Moved(s0, gates0, s2, gates2)
  {
    C.CoarserTrans(s0.repr, s1.repr, s2.repr);
    C.GatesKeptTrans(gates0, gates1, gates2);
    C.AdvancedTrans(s0, s1, s2, -1);
  }

  // ------------------------------------------------------------------ XOR gates

  /** All active clauses are implied. */
  ghost predicate ClausesImplied(clauses: seq<Clause>, ms: iset<Model>) {
    forall r :: 0 <= r < |clauses| && !clauses[r].garbage ==> Implied(ms, clauses[r].lits)
  }

  function XorGateOf(g: X.XorGate): Gate {
    C.Fresh(Xor, g.lhs, Sort(g.rhs))
  }

  lemma {:induction false} OthersParts(c: seq<Lit>, v: nat, k: nat)
    requires k <= |c| && DistinctVars(c)
    ensures forall l :: l in X.Others(c, v, k) ==> l in c[..k]
    ensures forall i, j :: 0 <= i < j < |X.Others(c, v, k)| ==> X.Others(c, v, k)[i] != X.Others(c, v, k)[j]
    ensures |X.Others(c, v, k)| >= k - 1
    ensures (forall l :: l in c[..k] ==> Var(l) != v) ==> |X.Others(c, v, k)| == k
  {
    if k > 0 {
      OthersParts(c, v, k - 1);
      assert c[..k] == c[..k - 1] + [c[k - 1]];
      assert c[k - 1] !in c[..k - 1] by {
        assert forall i :: 0 <= i < k - 1 ==> Var(c[i]) != Var(c[k - 1]);
      }
    }
  }

  /** What was extracted is a gate of the closure. */
  lemma ExtractedSound(x: X.Closure, c: seq<Lit>, i: nat, g: X.XorGate, ms: iset<Model>)
    requires Proper(|x.values|, c) && X.AllPositive(c) && i < |c| && |x.values| % 2 == 0
    requires Var(g.lhs) == Var(c[i]) && g.rhs == X.Others(c, Var(c[i]), |c|)
    requires forall m :: m in ms ==> X.XorValid(m, g)
    ensures C.GateSound(C.Fresh(Xor, g.lhs, g.rhs), |x.values|, ms) && |g.rhs| >= |c| - 1
  {
    var gate := C.Fresh(Xor, g.lhs, g.rhs);
    OthersParts(c, Var(c[i]), |c|);
    assert c[..|c|] == c;
    SameVar(c[i], g.lhs);
    forall m | m in ms ensures GateHolds(m, gate) {
      assert X.XorValid(m, g);
    }
  }

  /** The models of the closure satisfy the clauses the extraction works on. */
  lemma ExtractionModels(s: C.State, ms: iset<Model>, x: X.Closure)
    requires C.Base(s, ms) && ClausesImplied(x.clauses, ms) && x.values == s.values
    ensures forall m :: m in ms ==> X.ModelOf(m, x)
  {
    forall m | m in ms ensures X.ModelOf(m, x) {
      assert C.ModelOf(m, s);
    }
  }

  lemma CleanedImplied(x0: X.Closure, x: X.Closure, ms: iset<Model>)
    requires X.Cleaned(x0, x) && ClausesImplied(x0.clauses, ms)
    ensures ClausesImplied(x.clauses, ms)
  {
  }

  lemma SharedValues(s: C.State, ms: iset<Model>, x: X.Closure)
    requires C.Base(s, ms) && X.Sized(x) && |x.values| == |s.values|
    ensures X.Sized(x.(values := s.values)) && |s.values| % 2 == 0
  {
  }

  lemma AllSound(x: X.Closure, gates: seq<X.XorGate>, ms: iset<Model>)
    requires |gates| == |x.lits| && Proper(|x.values|, x.lits) && X.AllPositive(x.lits) && |x.values| % 2 == 0
    requires forall i :: 0 <= i < |gates| ==>
               Var(gates[i].lhs) == Var(x.lits[i]) && gates[i].rhs == X.Others(x.lits, Var(x.lits[i]), |x.lits|)
    requires forall m, i :: m in ms && 0 <= i < |gates| ==> X.XorValid(m, gates[i])
    ensures forall i :: 0 <= i < |gates| ==>
              C.GateSound(C.Fresh(Xor, gates[i].lhs, gates[i].rhs), |x.values|, ms) && |gates[i].rhs| >= |x.lits| - 1
  {
    forall i | 0 <= i < |gates|
      ensures C.GateSound(C.Fresh(Xor, gates[i].lhs, gates[i].rhs), |x.values|, ms)
      ensures |gates[i].rhs| >= |x.lits| - 1 {
      ExtractedSound(x, x.lits, i, gates[i], ms);
    }
  }

  /** All side clauses of base clause r are connected, r among them. */
  ghost predicate Complete(x: X.Closure, r: nat, arityLimit: nat)
    requires r < |x.clauses|
  {
    var u := Unassigned(x.values, x.clauses[r].lits);
    XC.Counted(x) && X.IsBase(x.values, x.clauses[r].lits, arityLimit + 1) && X.SidesFrom(x, u, 0)
  }

  lemma CompleteFindable(x: X.Closure, r: nat, arityLimit: nat)
    requires X.Sized(x) && r < |x.clauses| && Complete(x, r, arityLimit)
    ensures X.Findable(x, r, arityLimit)
  {
    hide X.HasSide, X.Visited, X.Power2;
    var u := Unassigned(x.values, x.clauses[r].lits);
    UnassignedMembers(x.values, x.clauses[r].lits);
    assert Proper(|x.values|, u) by {
      forall i | 0 <= i < |u| ensures u[i] < |x.values| {
        assert u[i] in u;
      }
    }
    XC.SidesCounted(x, u);
  }

  class XorFinder {
    const closure: C.Closure
    const extractor: X.Extractor

    constructor (closure: C.Closure, extractor: X.Extractor)
      ensures this.closure == closure && this.extractor == extractor
    {
      this.closure, this.extractor := closure, extractor;
    }

    ghost predicate Valid()
      reads closure, closure.index, extractor
    {
      && closure.Extracting() && X.Sized(extractor.s) && |extractor.s.values| == |closure.s.values|
      && ClausesImplied(extractor.s.clauses, closure.ms)
    }

    /** Enters gates one after the other, up to an inconsistency. */
    method EnterGates(gates: seq<X.XorGate>)
      requires closure.Extracting() && !closure.s.inconsistent
      requires forall i :: 0 <= i < |gates| ==>
                 C.GateSound(C.Fresh(Xor, gates[i].lhs, gates[i].rhs), |closure.s.values|, closure.ms) &&
                 |gates[i].rhs| > 1
      modifies closure`s, closure.index`t
      ensures closure.Extracting()
      ensures Moved(old(closure.s), old(closure.index.t).gates, closure.s, closure.index.t.gates)
      ensures forall i :: 0 <= i < |gates| ==> C.Present(closure.s, closure.index.t.gates, XorGateOf(gates[i]))
    {
      hide C.Order, C.Tidy, C.UnitsDone, C.Connected, C.Base, C.GateSound, C.GatesOK, C.OccurrencesOK,
           TableOK, C.Advanced, C.Coarser, C.GatesKept, C.Present;
      MovedRefl(closure.s, closure.index.t.gates, closure.ms);
      for i := 0 to |gates|
        invariant closure.Extracting() && !closure.s.inconsistent && |closure.s.values| == |old(closure.s).values|
        invariant Moved(old(closure.s), old(closure.index.t).gates, closure.s, closure.index.t.gates)
        invariant forall k :: 0 <= k < i ==> C.Present(closure.s, closure.index.t.gates, XorGateOf(gates[k]))
      {
        ghost var s1, gates1 := closure.s, closure.index.t.gates;
        var g := closure.NewXorGate(gates[i].lhs, gates[i].rhs);
        AllPresent(s1, gates1, closure.s, closure.index.t.gates, gates, i);
        MovedTrans(old(closure.s), old(closure.index.t).gates, s1, gates1, closure.s, closure.index.t.gates);
        if closure.s.inconsistent {
          NothingMissing(closure.s, closure.index.t.gates);
          break;
        }
      }
    }

    /** Finds the XOR gates of a clause and enters them. */
    method Extract(ref: nat, arityLimit: nat)
      requires Valid() && !closure.s.inconsistent
      requires ref < |extractor.s.clauses| && !extractor.s.clauses[ref].garbage
      modifies closure`s, closure.index`t, extractor
      ensures Valid() && Moved(old(closure.s), old(closure.index.t).gates, closure.s, closure.index.t.gates)
      ensures var x := old(extractor.s.(values := closure.s.values));
              Complete(x, ref, arityLimit) ==> forall g ::
                g in X.GatesOf(Unassigned(x.values, x.clauses[ref].lits)) ==>
                C.Present(closure.s, closure.index.t.gates, XorGateOf(g))
    {
      hide C.Order, C.Tidy, C.UnitsDone, C.Connected, C.Base, C.GateSound, C.GatesOK, C.OccurrencesOK,
           TableOK, C.Advanced, C.Coarser,
           C.GatesKept, C.Present, X.Sized, X.Cleaned, X.GatesOf, Unassigned, X.Findable, Complete,
           X.ModelOf, X.Others, X.AllPositive, X.XorValid, ClausesImplied;
      MovedRefl(closure.s, closure.index.t.gates, closure.ms);
      SharedValues(closure.s, closure.ms, extractor.s);
      extractor.s := extractor.s.(values := closure.s.values);
      ghost var x := extractor.s;
      ExtractionModels(closure.s, closure.ms, x);
      if Complete(x, ref, arityLimit) {
        CompleteFindable(x, ref, arityLimit);
      }
      var gates := extractor.ExtractXorGates(ref, arityLimit);
      CleanedImplied(x, extractor.s, closure.ms);
      X.CleanedValues(x, extractor.s);
      if gates != [] {
        AllSound(extractor.s, gates, closure.ms);
        EnterGates(gates);
        SameNumber(old(closure.s), closure.s);
      }
    }
  }

  lemma SameNumber(s0: C.State, s: C.State)
    requires C.Advanced(s0, s, -1)
    ensures |s.values| == |s0.values|
  {
  }

  lemma NothingMissing(s: C.State, gates: seq<Gate>)
    requires s.inconsistent
    ensures forall g :: C.Present(s, gates, g)
  {
  }

  lemma AllPresent(s0: C.State, gates0: seq<Gate>, s: C.State, gates: seq<Gate>, found: seq<X.XorGate>, i: nat)
    requires C.Advanced(s0, s, -1) && C.Coarser(s0.repr, s.repr) && C.GatesKept(gates0, gates) && i <= |found|
    requires forall k :: 0 <= k < i ==> C.Present(s0, gates0, XorGateOf(found[k]))
    ensures |s.values| == |s0.values| && Moved(s0, gates0, s, gates)
    ensures forall k :: 0 <= k < i ==> C.Present(s, gates, XorGateOf(found[k]))
  {
    forall k | 0 <= k < i ensures C.Present(s, gates, XorGateOf(found[k])) {
      C.PresentKeeps(s0, s, gates0, gates, XorGateOf(found[k]));
    }
  }
}
