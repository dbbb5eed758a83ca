/**
  Finding ITE gates (congruence.c): ternary clauses with a common literal are binary clauses under
  the condition that it is false; two of them may form an equivalence, and equivalences under both
  values of a variable that share a literal form a gate.
 */
module IteExtraction {
  import opened Literals
  import opened RootValues
  import opened GateTable
  import opened GateMeaning
  import opened Extraction
  import opened Sequences
  import C = Congruence

  /** Two literals in ascending order, of a clause or an equivalence; a missing literal is invalid. */
  datatype Pair = Pair(first: Lit, second: Lit)

  predicate Less(p: Pair, q: Pair) {
    p.first < q.first || (p.first == q.first && p.second < q.second)
  }

  // ------------------------------------------------------------------ sorting

  function Insert(ps: seq<Pair>, p: Pair): seq<Pair> {
    if ps == [] || !Less(ps[0], p) then [p] + ps else [ps[0]] + Insert(ps[1..], p)
  }

  function Sort(ps: seq<Pair>): seq<Pair> {
    if ps == [] then [] else Insert(Sort(ps[1..]), ps[0])
  }

  ghost predicate Ascending(ps: seq<Pair>) {
    forall i, j :: 0 <= i < j < |ps| ==> !Less(ps[j], ps[i])
  }

  lemma {:induction false} InsertAscending(ps: seq<Pair>, p: Pair)
    requires Ascending(ps)
    ensures Ascending(Insert(ps, p)) && forall x :: x in Insert(ps, p) <==> x in ps || x == p
  {
    if ps != [] && Less(ps[0], p) {
      InsertAscending(ps[1..], p);
      assert forall x :: x in ps <==> x == ps[0] || x in ps[1..];
      var rest := Insert(ps[1..], p);
      forall j | 0 <= j < |rest| ensures !Less(rest[j], ps[0]) {
        assert rest[j] in rest;
      }
    }
  }

  lemma {:induction false} SortAscending(ps: seq<Pair>)
    ensures Ascending(Sort(ps)) && forall x :: x in Sort(ps) <==> x in ps
  {
    if ps != [] {
      SortAscending(ps[1..]);
      InsertAscending(Sort(ps[1..]), ps[0]);
      assert forall x :: x in ps <==> x == ps[0] || x in ps[1..];
    }
  }

  // ------------------------------------------------------------------ binary clauses under a condition

  /** The unassigned literals of a clause other than l: the first and the last one. */
  function Two(values: seq<int>, c: seq<Lit>, l: Lit): (Lit, Lit) {
    if c == [] then (INVALID_LIT, INVALID_LIT)
    else
      var n := |c| - 1;
      var (a, b) := Two(values, c[..n], l);
      if !Free(values, c[n]) || c[n] == l then (a, b)
      else if a == INVALID_LIT then (c[n], b)
      else (a, c[n])
  }

  function Ordered(a: Lit, b: Lit): Pair {
    if a < b then Pair(a, b) else Pair(b, a)
  }

  function PairOf(values: seq<int>, c: seq<Lit>, l: Lit): Pair {
    Ordered(Two(values, c, l).0, Two(values, c, l).1)
  }

  lemma TwoStep(values: seq<int>, c: seq<Lit>, l: Lit, k: nat)
    requires k < |c|
    ensures var (a, b) := Two(values, c[..k], l);
            Two(values, c[..k + 1], l) ==
            if !Free(values, c[k]) || c[k] == l then (a, b) else if a == INVALID_LIT then (c[k], b) else (a, c[k])
  {
    assert c[..k + 1][..k] == c[..k];
  }

  /** The clause has l, two other literals and otherwise only falsified ones. */
  ghost predicate Ternary(values: seq<int>, c: seq<Lit>, l: Lit) {
    l in c && exists a, b :: OnlyThree(values, c, l, a, b)
  }

  ghost predicate OnlyThree(values: seq<int>, c: seq<Lit>, l: Lit, a: Lit, b: Lit) {
    a in c && b in c && a != b && a != l && b != l && forall x ::
          x in c ==> x == a || x == b || x == l || False(values, x)
  }

  lemma {:induction false} TwoMembers(values: seq<int>, c: seq<Lit>, l: Lit)
    requires DistinctVars(c) && forall x :: x in c ==> x < INVALID_LIT
    ensures var (a, b) := Two(values, c, l);
            && (if a == INVALID_LIT then forall x :: x in c && x != l ==> !Free(values, x)
                else a in c && a != l && Free(values, a))
            && (b != INVALID_LIT ==> a != INVALID_LIT && b in c && b != l && Free(values, b) && a != b)
  {
    if c != [] {
      var n := |c| - 1;
      assert c == c[..n] + [c[n]] && forall x :: x in c[..n] ==> x in c;
      assert DistinctVars(c[..n]);
      TwoMembers(values, c[..n], l);
    }
  }

  /** A pair of valid literals stands for a clause with l that is implied. */
  ghost predicate PairOK(p: Pair, l: Lit, n: nat, ms: iset<Model>) {
    p.first <= p.second && (p.second != INVALID_LIT ==>
      && p.second < n && Var(p.first) != Var(p.second) && Var(p.first) != Var(l) && Var(p.second) != Var(l)
      && Implied(ms, [l, p.first, p.second]))
  }

  lemma PairImplied(s: C.State, ms: iset<Model>, c: seq<Lit>, l: Lit)
    requires C.Base(s, ms) && Implied(ms, c) && Proper(|s.values|, c) && |s.values| <= INVALID_LIT
    requires Ternary(s.values, c, l)
    ensures PairOK(PairOf(s.values, c, l), l, |s.values|, ms)
  {
    hide Two;
    var values := s.values;
    assert forall x :: x in c ==> x < |values|;
    TwoMembers(values, c, l);
    var (a, b) := Two(values, c, l);
    if b != INVALID_LIT {
      var d: Lit, e: Lit :| OnlyThree(values, c, l, d, e);
      assert {a, b} == {d, e};
      ThreeVariables(|values|, c, l, a, b);
      forall m | m in ms ensures Sat(m, [l, PairOf(values, c, l).first, PairOf(values, c, l).second]) {
        assert C.ModelOf(m, s) && Sat(m, c);
        var x :| x in c && Holds(m, x);
        assert !False(values, x);
        assert x in [l, PairOf(values, c, l).first, PairOf(values, c, l).second];
      }
    }
  }

  lemma ThreeVariables(n: nat, c: seq<Lit>, l: Lit, a: Lit, b: Lit)
    requires Proper(n, c) && l in c && a in c && b in c && l != a && l != b && a != b
    ensures Var(a) != Var(b) && Var(a) != Var(l) && Var(b) != Var(l)
  {
  }

  // ------------------------------------------------------------------ equivalences under a condition

  /** If l is false the two literals are equivalent; the first one is positive. */
  ghost predicate EquivalenceOK(e: Pair, l: Lit, n: nat, ms: iset<Model>) {
    && e.first < n && e.second < n && e.first % 2 == 0 && Var(e.first) != Var(l) && Var(e.second) != Var(l)
    && Var(e.first) != Var(e.second)
    && forall m :: m in ms && !Holds(m, l) ==> Holds(m, e.first) == Holds(m, e.second)
  }

  /** The equivalence of the clauses with v and o, and with their negations, and its contraposition. */
  function Equivalence(v: Lit, o: Lit): Pair {
    if v % 2 == 1 then Pair(Neg(v), o) else Pair(v, Neg(o))
  }

  function Inverse(e: Pair): Pair {
    if e.second % 2 == 1 then Pair(Neg(e.second), Neg(e.first)) else Pair(e.second, e.first)
  }

  lemma ClausesEquivalent(v: Lit, o: Lit, l: Lit, n: nat, ms: iset<Model>)
    requires n % 2 == 0 && PairOK(Pair(v, o), l, n, ms) && PairOK(Pair(Neg(v), Neg(o)), l, n, ms) && n <= INVALID_LIT
    requires o != INVALID_LIT && Neg(o) != INVALID_LIT
    ensures EquivalenceOK(Equivalence(v, o), l, n, ms) && EquivalenceOK(Inverse(Equivalence(v, o)), l, n, ms)
  {
    SameVar(v, v);
    SameVar(o, o);
    forall m | m in ms && !Holds(m, l) ensures Holds(m, v) != Holds(m, o) {
      HoldsNeg(m, v);
      HoldsNeg(m, o);
      assert Sat(m, [l, v, o]) && Sat(m, [l, Neg(v), Neg(o)]);
    }
    forall m | m in ms && !Holds(m, l)
      ensures Holds(m, Equivalence(v, o).first) == Holds(m, Equivalence(v, o).second)
      ensures Holds(m, Inverse(Equivalence(v, o)).first) == Holds(m, Inverse(Equivalence(v, o)).second)
    {
      HoldsNeg(m, v);
      HoldsNeg(m, o);
      HoldsNeg(m, Neg(o));
    }
  }

  /** All literals of pairs and equivalences are in range. */
  ghost predicate PairsOK(ps: seq<Pair>, l: Lit, n: nat, ms: iset<Model>) {
    n % 2 == 0 && n <= INVALID_LIT && forall p :: p in ps ==> PairOK(p, l, n, ms)
  }

  ghost predicate EquivalencesOK(es: seq<Pair>, l: Lit, n: nat, ms: iset<Model>) {
    forall e :: e in es ==> EquivalenceOK(e, l, n, ms)
  }

  /** The equivalence between v and a literal for two clauses, if both are there, and its inverse, are listed. */
  ghost predicate ListedFor(ps: seq<Pair>, es: seq<Pair>, v: Lit, o: Lit) {
    Pair(v, o) in ps && Pair(Neg(v), Neg(o)) in ps && o < INVALID_LIT && Neg(o) < INVALID_LIT ==>
      Equivalence(v, o) in es && Inverse(Equivalence(v, o)) in es
  }

  ghost predicate AllListed(ps: seq<Pair>, es: seq<Pair>, v: Lit) {
    forall o: Lit :: ListedFor(ps, es, v, o)
  }

  /** The group of pairs with first literal v. */
  ghost predicate Group(ps: seq<Pair>, v: Lit, begin: nat, end: nat) {
    begin <= end <= |ps| && forall i :: 0 <= i < |ps| ==> (ps[i].first == v <==> begin <= i < end)
  }

  /** Swapping the roles of the clauses with the positive and the negative literal changes nothing. */
  lemma EquivalenceTurned(v: Lit, o: Lit)
    ensures Equivalence(Neg(v), Neg(o)) == Equivalence(v, o)
  {
    HoldsNeg(iset{}, v);
    HoldsNeg(iset{}, o);
  }

  class IteFinder {
    const closure: C.Closure
    const clauses: seq<Clause>
    const watches: seq<seq<nat>>

    /** The connected clauses are implied, and had three literals without a value when they were connected. */
    ghost predicate Valid()
      reads closure, closure.index
    {
      && closure.Extracting() && |watches| == |closure.s.values| <= INVALID_LIT
      && ClausesOK(clauses, watches, closure.s.values, closure.ms)
    }

    constructor (closure: C.Closure, clauses: seq<Clause>, watches: seq<seq<nat>>)
      requires closure.Extracting() && |watches| == |closure.s.values| <= INVALID_LIT
      requires ClausesOK(clauses, watches, closure.s.values, closure.ms)
      ensures Valid() && this.closure == closure && this.clauses == clauses && this.watches == watches
    {
      this.closure, this.clauses, this.watches := closure, clauses, watches;
    }

    /** The binary clauses under the condition that the literal is false. */
    method CopyPairs(lit: Lit) returns (condbin: seq<Pair>)
      requires Valid() && lit < |watches|
      ensures PairsOK(condbin, lit, |watches|, closure.ms)
      ensures |condbin| == |watches[lit]|
      ensures forall i :: 0 <= i < |condbin| ==>
                watches[lit][i] < |clauses| &&
                    condbin[i] == PairOf(closure.s.values, clauses[watches[lit][i]].lits, lit)
    {
      hide C.Order, C.Tidy, C.UnitsDone, C.Connected, C.Base, C.GatesOK, C.OccurrencesOK,
           TableOK, ClausesOK, PairOf, PairOK, Two;
      condbin := [];
      C.BaseFacts(closure.s, closure.ms);
      for i := 0 to |watches[lit]|
        invariant |condbin| == i && PairsOK(condbin, lit, |watches|, closure.ms)
        invariant forall k :: 0 <= k < i ==>
                    watches[lit][k] < |clauses| &&
                        condbin[k] == PairOf(closure.s.values, clauses[watches[lit][k]].lits, lit)
      {
        ConnectedClause(clauses, watches, closure.s, closure.ms, lit, i);
        var c := clauses[watches[lit][i]].lits;
        var first, second := INVALID_LIT, INVALID_LIT;
        TwoStart(closure.s.values, c, lit);
        for k := 0 to |c|
          invariant (first, second) == Two(closure.s.values, c[..k], lit)
        {
          var other := c[k];
          assert other in c;
          TwoStep(closure.s.values, c, lit, k);
          if closure.s.values[other] != 0 {
            continue;
          }
          if other == lit {
            continue;
          }
          if first == INVALID_LIT {
            first := other;
          } else {
            second := other;
          }
        }
        assert c[..|c|] == c;
        OrderedPair(closure.s.values, c, lit, first, second);
        var pair;
        if first < second {
          pair := Pair(first, second);
        } else {
          pair := Pair(second, first);
        }
        condbin := condbin + [pair];
      }
    }

    /** Binary search for a second literal in a group of pairs. */
    method FindSecond(lit: Lit, ps: seq<Pair>, begin: nat, end: nat) returns (found: bool)
      requires begin <= end <= |ps| && forall i, j :: begin <= i < j < end ==> ps[i].second <= ps[j].second
      ensures found <==> exists i :: begin <= i < end && ps[i].second == lit
    {
      var l, r := begin, end;
      while l != r
        invariant begin <= l <= r <= end
        invariant forall i :: begin <= i < l ==> ps[i].second != lit
        invariant forall i :: r <= i < end ==> ps[i].second != lit
        decreases r - l
      {
        var m := l + (r - l) / 2;
        var other := ps[m].second;
        if other < lit {
          l := m + 1;
        } else if other > lit {
          r := m;
        } else {
          return true;
        }
      }
      return false;
    }

    /** Adds an equivalence and its inverse. */
    method PushEquivalence(es: seq<Pair>, v: Lit, other: Lit) returns (es': seq<Pair>)
      ensures es' == es + [Equivalence(v, other), Inverse(Equivalence(v, other))]
    {
      var first, second;
      if v % 2 == 1 {
        first, second := Neg(v), other;
      } else {
        first, second := v, Neg(other);
      }
      es' := es + [Pair(first, second)];
      if second % 2 == 1 {
        es' := es' + [Pair(Neg(second), Neg(first))];
      } else {
        es' := es' + [Pair(second, first)];
      }
    }

    /** Adds the equivalences of the pairs of one group with those of the group of the negated literal. */
    method SearchEquivalences(lit: Lit, ps: seq<Pair>, v: Lit, begin: nat, end: nat,
                              negBegin: nat, negEnd: nat, es: seq<Pair>)
      returns (es': seq<Pair>)
      requires PairsOK(ps, lit, |watches|, closure.ms) && EquivalencesOK(es, lit, |watches|, closure.ms)
      requires Ascending(ps)
      requires Group(ps, v, begin, end) && Group(ps, Neg(v), negBegin, negEnd)
      ensures EquivalencesOK(es', lit, |watches|, closure.ms) && AllListed(ps, es', v)
      ensures forall e :: e in es ==> e in es'
    {
      hide PairOK, EquivalenceOK, Equivalence, Inverse, Neg;
      es' := es;
      SecondsAscending(ps, Neg(v), negBegin, negEnd);
      for p := begin to end
        invariant EquivalencesOK(es', lit, |watches|, closure.ms) && forall e :: e in es ==> e in es'
        invariant forall k :: begin <= k < p ==> ListedFor(ps, es', v, ps[k].second)
      {
        assert ps[p].first == v && ps[p] in ps;
        var other := ps[p].second;
        var notOther := Neg(other);
        var found := FindSecond(notOther, ps, negBegin, negEnd);
        GroupFound(ps, Neg(v), negBegin, negEnd, notOther);
        if found {
          FoundValid(ps, lit, |watches|, closure.ms, v, other);
          ghost var es1 := es';
          es' := PushEquivalence(es', v, other);
          StillListed(ps, es1, es', v, begin, p);
        }
      }
      GroupListed(ps, es', v, begin, end);
    }

    /** Skips pairs with a negated first literal. */
    method SkipNegated(ps: seq<Pair>, begin: nat) returns (b: nat)
      requires begin <= |ps|
      ensures begin <= b <= |ps| && (b < |ps| ==> ps[b].first % 2 == 0)
      ensures forall i :: begin <= i < b ==> ps[i].first % 2 == 1
    {
      b := begin;
      while b < |ps| && ps[b].first % 2 == 1
        invariant begin <= b <= |ps| && forall i :: begin <= i < b ==> ps[i].first % 2 == 1
      {
        b := b + 1;
      }
    }

    /** The end of the group that begins at a position. */
    method GroupEnd(ps: seq<Pair>, begin: nat) returns (end: nat)
      requires begin < |ps| && Ascending(ps) && (begin > 0 ==> ps[begin - 1].first != ps[begin].first)
      ensures begin < end <= |ps| && Group(ps, ps[begin].first, begin, end)
    {
      end := begin + 1;
      while end < |ps| && ps[end].first == ps[begin].first
        invariant begin < end <= |ps| && forall i :: begin <= i < end ==> ps[i].first == ps[begin].first
      {
        end := end + 1;
      }
      GroupBounds(ps, begin, end);
    }

    /** Goes through the groups of positive literals, looking for the group of the negated literal behind each. */
    method ExtractEquivalences(lit: Lit, ps: seq<Pair>) returns (es: seq<Pair>)
      requires PairsOK(ps, lit, |watches|, closure.ms) && Ascending(ps)
      ensures EquivalencesOK(es, lit, |watches|, closure.ms)
      ensures forall v: nat :: v % 2 == 0 ==> AllListed(ps, es, v)
    {
      hide PairOK, EquivalenceOK, AllListed, Group, Ascending, Neg, PairsOK, EquivalencesOK, Done;
      es := [];
      NoEquivalences(lit, |watches|, closure.ms);
      var posBegin := SkipNegated(ps, 0);
      DoneStart(ps, es, posBegin);
      while posBegin < |ps|
        invariant posBegin <= |ps| && EquivalencesOK(es, lit, |watches|, closure.ms) && Done(ps, es, posBegin)
        invariant 0 < posBegin < |ps| ==> ps[posBegin - 1].first != ps[posBegin].first
        invariant posBegin < |ps| ==> ps[posBegin].first % 2 == 0
      {
        var posLit := ps[posBegin].first;
        var posEnd := GroupEnd(ps, posBegin);
        if posEnd == |ps| {
          DoneLast(ps, es, posBegin, posEnd);
          posBegin := posEnd;
          break;
        }
        var negLit := Neg(posLit);
        var negEnd := posEnd;
        ghost var es0 := es;
        GroupNext(ps, posLit, posBegin, posEnd);
        if ps[posEnd].first == negLit {
          negEnd := GroupEnd(ps, posEnd);
          var posSize, negSize := posEnd - posBegin, negEnd - posEnd;
          NegTwice(posLit);
          if posSize <= negSize {
            es := SearchEquivalences(lit, ps, posLit, posBegin, posEnd, posEnd, negEnd, es);
          } else {
            es := SearchEquivalences(lit, ps, negLit, posEnd, negEnd, posBegin, posEnd, es);
            TurnedListed(ps, es, posLit);
          }
          GroupNext(ps, negLit, posEnd, negEnd);
        } else {
          NotBehind(ps, es, posLit, posBegin, posEnd);
        }
        var next := SkipNegated(ps, negEnd);
        DoneNext(ps, es0, es, posBegin, posEnd, negEnd, next);
        posBegin := next;
      }
      AllDone(ps, es, posBegin);
    }

    /** The equivalences that hold if the literal is false. */
    method FindEquivalences(lit: Lit) returns (es: seq<Pair>, ghost ps: seq<Pair>)
      requires Valid() && lit < |watches|
      ensures EquivalencesOK(es, lit, |watches|, closure.ms) && Ascending(es)
      ensures FoundFor(closure.s.values, clauses, watches, lit, es, ps, closure.ms)
    {
      hide C.Order, C.Tidy, C.UnitsDone, C.Connected, C.Base, C.GatesOK, C.OccurrencesOK, TableOK,
           ClausesOK, PairOf, PairOK, Sort, EquivalenceOK, AllListed;
      var condbin := CopyPairs(lit);
      ps := condbin;
      SortAscending(condbin);
      condbin := Sort(condbin);
      es := ExtractEquivalences(lit, condbin);
      SortAscending(es);
      SameListed(condbin, ps, es, Sort(es));
      es := Sort(es);
    }

    method SkipSmaller(fs: seq<Pair>, begin: nat, lhs: Lit) returns (q: nat)
      requires begin <= |fs|
      ensures begin <= q <= |fs| && (q < |fs| ==> fs[q].first >= lhs)
      ensures forall j :: begin <= j < q ==> fs[j].first < lhs
    {
      q := begin;
      while q < |fs| && fs[q].first < lhs
        invariant begin <= q <= |fs| && forall j :: begin <= j < q ==> fs[j].first < lhs
      {
        q := q + 1;
      }
    }

    /** Enters the gates of an equivalence with those of the other condition that share its first literal. */
    method MergeRow(cond: Lit, es: seq<Pair>, fs: seq<Pair>, p: nat, q: nat)
      requires Mergeable(cond, es, fs) && p < |es| && q <= |fs| && !closure.s.inconsistent
      requires AllEntered(closure.s, closure.index.t.gates, cond, es, fs, p)
      requires (forall j :: 0 <= j < q ==> fs[j].first < es[p].first) && (q < |fs| ==> fs[q].first >= es[p].first)
      modifies closure`s, closure.index`t
      ensures Mergeable(cond, es, fs)
      ensures Moved(old(closure.s), old(closure.index.t).gates, closure.s, closure.index.t.gates)
      ensures !closure.s.inconsistent ==> AllEntered(closure.s, closure.index.t.gates, cond, es, fs, p + 1)
    {
      hide C.Order, C.Tidy, C.UnitsDone, C.Connected, C.Base, C.GatesOK, C.OccurrencesOK, TableOK, Moved,
           EquivalencesOK, EquivalenceOK,
           Neg, Ascending, EnteredAt, AllEntered;
      MovedRefl(closure.s, closure.index.t.gates, closure.ms);
      var lhs, thenLit := es[p].first, es[p].second;
      var q2 := q;
      while q2 < |fs| && fs[q2].first == lhs
        invariant q <= q2 <= |fs| && Mergeable(cond, es, fs) && !closure.s.inconsistent
        invariant Moved(old(closure.s), old(closure.index.t).gates, closure.s, closure.index.t.gates)
        invariant AllEntered(closure.s, closure.index.t.gates, cond, es, fs, p)
        invariant RowEntered(closure.s, closure.index.t.gates, cond, es[p], fs, q2)
      {
        ghost var s1, gates1 := closure.s, closure.index.t.gates;
        MergedGate(closure.ms, cond, |closure.s.values|, es, fs, p, q2);
        var elseLit := fs[q2].second;
        var g := closure.NewIteGate(lhs, cond, thenLit, elseLit);
        MovedParts(s1, gates1, closure.s, closure.index.t.gates);
        MovedTrans(old(closure.s), old(closure.index.t).gates, s1, gates1, closure.s, closure.index.t.gates);
        if closure.s.inconsistent {
          return;
        }
        EnteredNow(closure.s, closure.ms, closure.index.t.gates, cond, es[p], fs[q2]);
        EnteredKeeps(s1, gates1, closure.s, closure.index.t.gates, cond, es, fs, p, q2);
        q2 := q2 + 1;
      }
      RowDone(closure.s, closure.index.t.gates, cond, es, fs, p, q, q2);
    }

    ghost predicate Mergeable(cond: Lit, es: seq<Pair>, fs: seq<Pair>)
      reads closure, closure.index
    {
      && closure.Extracting() && cond < |closure.s.values|
      && EquivalencesOK(es, Neg(cond), |closure.s.values|, closure.ms) && Ascending(es)
      && EquivalencesOK(fs, cond, |closure.s.values|, closure.ms) && Ascending(fs)
    }

    /** Enters the gates of the equivalences under both values of the condition that share a literal. */
    method MergeEquivalences(cond: Lit, es: seq<Pair>, fs: seq<Pair>)
      requires Mergeable(cond, es, fs) && !closure.s.inconsistent
      modifies closure`s, closure.index`t
      ensures closure.Extracting()
      ensures Moved(old(closure.s), old(closure.index.t).gates, closure.s, closure.index.t.gates)
      ensures !closure.s.inconsistent ==> AllEntered(closure.s, closure.index.t.gates, cond, es, fs, |es|)
    {
      hide C.Order, C.Tidy, C.UnitsDone, C.Connected, C.Base, C.GatesOK, C.OccurrencesOK, TableOK, Moved,
           EquivalencesOK, EquivalenceOK,
           Neg, Ascending, AllEntered;
      MovedRefl(closure.s, closure.index.t.gates, closure.ms);
      NoneEntered(closure.s, closure.index.t.gates, cond, es, fs);
      var q := 0;
      for p := 0 to |es|
        invariant q <= |fs| && Mergeable(cond, es, fs) && !closure.s.inconsistent
        invariant Moved(old(closure.s), old(closure.index.t).gates, closure.s, closure.index.t.gates)
        invariant AllEntered(closure.s, closure.index.t.gates, cond, es, fs, p)
        invariant forall j, i :: 0 <= j < q && p <= i < |es| ==> fs[j].first < es[i].first
      {
        ghost var s1, gates1 := closure.s, closure.index.t.gates;
        q := SkipSmaller(fs, q, es[p].first);
        LaterLarger(es, p);
        MergeRow(cond, es, fs, p, q);
        MovedTrans(old(closure.s), old(closure.index.t).gates, s1, gates1, closure.s, closure.index.t.gates);
        if closure.s.inconsistent {
          return;
        }
      }
    }

    /** Finds the equivalences under both values of a literal and enters their gates. */
    method ExtractOfLiteral(lit: Lit)
      requires Valid() && !closure.s.inconsistent && lit < |watches| && Neg(lit) < |watches|
      modifies closure`s, closure.index`t
      ensures Valid() && Moved(old(closure.s), old(closure.index.t).gates, closure.s, closure.index.t.gates)
      ensures var cond := if lit % 2 == 1 then Neg(lit) else lit;
              closure.s.inconsistent ||
                  GatesEntered(old(closure.s).values, clauses, watches, closure.s, closure.index.t.gates, cond)
    {
      hide C.Order, C.Tidy, C.UnitsDone, C.Connected, C.Base, C.GatesOK, C.OccurrencesOK, TableOK, Moved,
           EquivalencesOK, Neg, Ascending,
           AllEntered, ClausesOK, PairOf, FoundFor,
           AllListed, GatesEntered;
      MovedRefl(closure.s, closure.index.t.gates, closure.ms);
      NegTwice(lit);
      ghost var s0 := closure.s;
      var notLit := Neg(lit);
      ghost var cond := if lit % 2 == 1 then notLit else lit;
      ghost var ps, qs;
      var es, fs;
      es, ps := FindEquivalences(lit);
      if es == [] {
        NoGates(s0.values, clauses, watches, closure.ms, s0, closure.index.t.gates, cond, lit, es, ps);
        return;
      }
      fs, qs := FindEquivalences(notLit);
      if fs == [] {
        NoGates(s0.values, clauses, watches, closure.ms, s0, closure.index.t.gates, cond, notLit, fs, qs);
        return;
      }
      if lit % 2 == 1 {
        MergeEquivalences(notLit, es, fs);
        if !closure.s.inconsistent {
          FoundAll(s0.values, clauses, watches, closure.ms, closure.s, closure.index.t.gates, notLit, es, ps, fs, qs);
        }
      } else {
        MergeEquivalences(lit, fs, es);
        if !closure.s.inconsistent {
          FoundAll(s0.values, clauses, watches, closure.ms, closure.s, closure.index.t.gates, lit, fs, qs, es, ps);
        }
      }
      StillTernary(s0, old(closure.index.t).gates, closure.s, closure.index.t.gates, clauses, watches, closure.ms);
    }

    /**
      Enters the ITE gates with a variable as condition: whenever the four ternary clauses of such a gate are connected
      the gate is there afterwards, or the equivalence it amounts to, unless an inconsistency is found.
     */
    method ExtractOfVariable(idx: nat)
      requires Valid() && !closure.s.inconsistent && 2 * idx < |watches|
      modifies closure`s, closure.index`t
      ensures Valid() && Moved(old(closure.s), old(closure.index.t).gates, closure.s, closure.index.t.gates)
      ensures closure.s.inconsistent ||
              GatesEntered(old(closure.s).values, clauses, watches, closure.s, closure.index.t.gates, 2 * idx)
    {
      hide C.Order, C.Tidy, C.UnitsDone, C.Connected, C.Base, C.GatesOK, C.OccurrencesOK,
           TableOK, Moved, ClausesOK, GatesEntered;
      MovedRefl(closure.s, closure.index.t.gates, closure.ms);
      C.BaseFacts(closure.s, closure.ms);
      var lit := 2 * idx;
      var notLit := Neg(lit);
      NegTwice(lit);
      if |watches[lit]| <= |watches[notLit]| {
        if |watches[lit]| > 1 {
          ExtractOfLiteral(lit);
        } else {
          TooFew(closure.s, clauses, watches, closure.ms, closure.index.t.gates, lit, lit);
        }
      } else {
        if |watches[notLit]| > 1 {
          ExtractOfLiteral(notLit);
        } else {
          TooFew(closure.s, clauses, watches, closure.ms, closure.index.t.gates, lit, notLit);
        }
      }
    }
  }

  // ------------------------------------------------------------------ connected clauses

  ghost predicate ClausesOK(clauses: seq<Clause>, watches: seq<seq<nat>>, values: seq<int>, ms: iset<Model>) {
    && (forall r :: 0 <= r < |clauses| ==> Proper(|values|, clauses[r].lits) && Implied(ms, clauses[r].lits))
    && (forall l: nat, i: nat :: l < |watches| && i < |watches[l]| ==>
          watches[l][i] < |clauses| && Ternary(values, clauses[watches[l][i]].lits, l))
  }

  lemma ConnectedClause(clauses: seq<Clause>, watches: seq<seq<nat>>, s: C.State, ms: iset<Model>, l: Lit, i: nat)
    requires ClausesOK(clauses, watches, s.values, ms) && l < |watches| && i < |watches[l]| && C.Base(s, ms)
    requires |s.values| <= INVALID_LIT
    ensures watches[l][i] < |clauses|
    ensures var c := clauses[watches[l][i]].lits;
            PairOK(PairOf(s.values, c, l), l, |s.values|, ms) && forall x :: x in c ==> x < |s.values|
  {
    hide PairOf, PairOK, Ternary;
    PairImplied(s, ms, clauses[watches[l][i]].lits, l);
  }

  lemma TwoStart(values: seq<int>, c: seq<Lit>, l: Lit)
    ensures Two(values, c[..0], l) == (INVALID_LIT, INVALID_LIT)
  {
  }

  lemma OrderedPair(values: seq<int>, c: seq<Lit>, l: Lit, a: Lit, b: Lit)
    requires (a, b) == Two(values, c, l)
    ensures PairOf(values, c, l) == if a < b then Pair(a, b) else Pair(b, a)
  {
  }

  // ------------------------------------------------------------------ groups of pairs

  lemma SecondsAscending(ps: seq<Pair>, v: Lit, begin: nat, end: nat)
    requires Ascending(ps) && Group(ps, v, begin, end)
    ensures forall i, j :: begin <= i < j < end ==> ps[i].second <= ps[j].second
  {
    forall i, j | begin <= i < j < end ensures ps[i].second <= ps[j].second {
      assert !Less(ps[j], ps[i]) && ps[i].first == v && ps[j].first == v;
    }
  }

  lemma GroupFound(ps: seq<Pair>, v: Lit, begin: nat, end: nat, o: Lit)
    requires Group(ps, v, begin, end)
    ensures (exists i :: begin <= i < end && ps[i].second == o) <==> Pair(v, o) in ps
  {
    if Pair(v, o) in ps {
      var i :| 0 <= i < |ps| && ps[i] == Pair(v, o);
      assert ps[i].first == v;
    }
    if i :| begin <= i < end && ps[i].second == o {
      assert ps[i].first == v && ps[i] == Pair(v, o);
    }
  }

  /** If the negated pair is there, all its literals are valid. */
  lemma FoundValid(ps: seq<Pair>, l: Lit, n: nat, ms: iset<Model>, v: Lit, o: Lit)
    requires PairsOK(ps, l, n, ms) && Pair(v, o) in ps && Pair(Neg(v), Neg(o)) in ps
    ensures o < INVALID_LIT
    ensures EquivalenceOK(Equivalence(v, o), l, n, ms) && EquivalenceOK(Inverse(Equivalence(v, o)), l, n, ms)
  {
    hide Implied;
    assert PairOK(Pair(v, o), l, n, ms) && PairOK(Pair(Neg(v), Neg(o)), l, n, ms);
    HoldsNeg(iset{}, o);
    assert o != INVALID_LIT && Neg(o) != INVALID_LIT;
    ClausesEquivalent(v, o, l, n, ms);
  }

  lemma StillListed(ps: seq<Pair>, es: seq<Pair>, es': seq<Pair>, v: Lit, begin: nat, p: nat)
    requires begin <= p <= |ps| && (forall e :: e in es ==> e in es')
    requires forall k :: begin <= k < p ==> ListedFor(ps, es, v, ps[k].second)
    ensures forall k :: begin <= k < p ==> ListedFor(ps, es', v, ps[k].second)
  {
    hide Equivalence, Inverse, Neg;
    forall k | begin <= k < p ensures ListedFor(ps, es', v, ps[k].second) {
      assert ListedFor(ps, es, v, ps[k].second);
    }
  }

  lemma GroupListed(ps: seq<Pair>, es: seq<Pair>, v: Lit, begin: nat, end: nat)
    requires Group(ps, v, begin, end) && forall k :: begin <= k < end ==> ListedFor(ps, es, v, ps[k].second)
    ensures AllListed(ps, es, v)
  {
    hide Equivalence, Inverse, Neg;
    forall o: Lit ensures ListedFor(ps, es, v, o) {
      if Pair(v, o) in ps {
        var i :| 0 <= i < |ps| && ps[i] == Pair(v, o);
        assert ps[i].first == v;
        assert ListedFor(ps, es, v, ps[i].second);
      }
    }
  }

  // ------------------------------------------------------------------ going through the groups

  /** Everything is listed for the positive literals in front of position b, where a group begins. */
  ghost predicate Done(ps: seq<Pair>, es: seq<Pair>, b: nat) {
    b <= |ps| && forall v: nat :: v % 2 == 0 && (b < |ps| ==> v < ps[b].first) ==> AllListed(ps, es, v)
  }

  lemma NoEquivalences(l: Lit, n: nat, ms: iset<Model>)
    ensures EquivalencesOK([], l, n, ms)
  {
  }

  lemma GroupBounds(ps: seq<Pair>, begin: nat, end: nat)
    requires Ascending(ps) && begin < end <= |ps| && (begin > 0 ==> ps[begin - 1].first != ps[begin].first)
    requires forall i :: begin <= i < end ==> ps[i].first == ps[begin].first
    requires end < |ps| ==> ps[end].first != ps[begin].first
    ensures Group(ps, ps[begin].first, begin, end)
  {
    forall i | 0 <= i < |ps| ensures ps[i].first == ps[begin].first <==> begin <= i < end {
      if i < begin {
        assert !Less(ps[begin - 1], ps[i]) || i == begin - 1;
        assert !Less(ps[begin], ps[begin - 1]);
      } else if i >= end {
        assert !Less(ps[i], ps[end]) || i == end;
        assert !Less(ps[end], ps[begin]);
      }
    }
  }

  lemma NotThere(ps: seq<Pair>, es: seq<Pair>, v: Lit)
    requires (forall i :: 0 <= i < |ps| ==> ps[i].first != v) || (forall i :: 0 <= i < |ps| ==> ps[i].first != Neg(v))
    ensures AllListed(ps, es, v)
  {
    hide Neg, Equivalence, Inverse;
    forall o: Lit ensures ListedFor(ps, es, v, o) {
      assert Pair(v, o) in ps ==> exists i :: 0 <= i < |ps| && ps[i] == Pair(v, o);
    }
  }

  lemma DoneStart(ps: seq<Pair>, es: seq<Pair>, b: nat)
    requires Ascending(ps) && b <= |ps| && forall i :: 0 <= i < b ==> ps[i].first % 2 == 1
    ensures Done(ps, es, b)
    ensures 0 < b < |ps| && ps[b].first % 2 == 0 ==> ps[b - 1].first != ps[b].first
  {
    hide AllListed;
    forall v: nat | v % 2 == 0 && (b < |ps| ==> v < ps[b].first) ensures AllListed(ps, es, v) {
      forall i | b <= i < |ps| ensures ps[i].first != v {
        assert i > b ==> !Less(ps[i], ps[b]);
      }
      NotThere(ps, es, v);
    }
  }

  lemma GroupNext(ps: seq<Pair>, v: Lit, begin: nat, end: nat)
    requires Group(ps, v, begin, end) && begin < end
    ensures end < |ps| ==> ps[end - 1].first != ps[end].first
  {
  }

  lemma NegTwice(l: Lit)
    ensures Neg(Neg(l)) == l && (l % 2 == 0 ==> Neg(l) == l + 1) && (l % 2 == 1 ==> Neg(l) == l - 1)
  {
  }

  lemma TurnedListed(ps: seq<Pair>, es: seq<Pair>, v: Lit)
    requires AllListed(ps, es, Neg(v))
    ensures AllListed(ps, es, v)
  {
    hide Neg, Equivalence, Inverse;
    forall o: Lit ensures ListedFor(ps, es, v, o) {
      HoldsNeg(iset{}, v);
      HoldsNeg(iset{}, o);
      EquivalenceTurned(v, o);
      assert ListedFor(ps, es, Neg(v), Neg(o));
    }
  }

  /** The group behind that of a positive literal is not that of its negation. */
  lemma NotBehind(ps: seq<Pair>, es: seq<Pair>, v: Lit, begin: nat, end: nat)
    requires Ascending(ps) && Group(ps, v, begin, end) && begin < end < |ps| && v % 2 == 0 && ps[end].first != Neg(v)
    ensures AllListed(ps, es, v)
  {
    forall i | 0 <= i < |ps| ensures ps[i].first != Neg(v) {
      assert ps[begin].first == v;
      if i < begin {
        assert !Less(ps[begin], ps[i]);
      } else if i > end {
        assert !Less(ps[i], ps[end]) && !Less(ps[end], ps[begin]);
      }
    }
    NotThere(ps, es, v);
  }

  lemma DoneLast(ps: seq<Pair>, es: seq<Pair>, begin: nat, end: nat)
    requires Ascending(ps) && begin < end == |ps| && Group(ps, ps[begin].first, begin, end) && ps[begin].first % 2 == 0
    requires Done(ps, es, begin)
    ensures Done(ps, es, end)
  {
    hide AllListed;
    forall v: nat | v % 2 == 0 && v >= ps[begin].first ensures AllListed(ps, es, v) {
      forall i | 0 <= i < |ps| ensures ps[i].first != Neg(v) {
        assert i < begin ==> !Less(ps[begin], ps[i]);
        assert i >= begin ==> ps[i].first == ps[begin].first;
      }
      NotThere(ps, es, v);
    }
  }

  lemma MoreListed(ps: seq<Pair>, es: seq<Pair>, es': seq<Pair>, v: Lit)
    requires AllListed(ps, es, v) && forall e :: e in es ==> e in es'
    ensures AllListed(ps, es', v)
  {
    hide Neg, Equivalence, Inverse;
    forall o: Lit ensures ListedFor(ps, es', v, o) {
      assert ListedFor(ps, es, v, o);
    }
  }

  /** Two groups have been searched, and negated literals skipped. */
  lemma DoneNext(ps: seq<Pair>, es: seq<Pair>, es': seq<Pair>, begin: nat, end: nat, negEnd: nat, next: nat)
    requires Ascending(ps) && begin < end <= negEnd <= next <= |ps| && end < |ps| && ps[begin].first % 2 == 0
    requires Done(ps, es, begin) && (forall e :: e in es ==> e in es') && AllListed(ps, es', ps[begin].first)
    requires Group(ps, ps[begin].first, begin, end)
    requires forall i :: end <= i < negEnd ==> ps[i].first == Neg(ps[begin].first)
    requires negEnd < |ps| ==> ps[negEnd - 1].first != ps[negEnd].first
    requires (forall i :: negEnd <= i < next ==> ps[i].first % 2 == 1) && (next < |ps| ==> ps[next].first % 2 == 0)
    ensures Done(ps, es', next)
    ensures next < |ps| ==> ps[next - 1].first != ps[next].first
  {
    hide AllListed;
    forall v: nat | v % 2 == 0 && (next < |ps| ==> v < ps[next].first) ensures AllListed(ps, es', v) {
      if v < ps[begin].first {
        MoreListed(ps, es, es', v);
      } else if v > ps[begin].first {
        forall i | 0 <= i < |ps| ensures ps[i].first != v {
          if i < begin {
            assert !Less(ps[begin], ps[i]);
          } else if i >= next {
            assert i > next ==> !Less(ps[i], ps[next]);
          }
        }
        NotThere(ps, es', v);
      }
    }
  }

  lemma AllDone(ps: seq<Pair>, es: seq<Pair>, b: nat)
    requires Done(ps, es, b) && b == |ps|
    ensures forall v: nat :: v % 2 == 0 ==> AllListed(ps, es, v)
  {
  }

  lemma SameListed(ps: seq<Pair>, qs: seq<Pair>, es: seq<Pair>, fs: seq<Pair>)
    requires (forall p :: p in ps <==> p in qs) && (forall e :: e in es <==> e in fs)
    requires forall v: nat :: v % 2 == 0 ==> AllListed(ps, es, v)
    ensures forall v: nat :: v % 2 == 0 ==> AllListed(qs, fs, v)
  {
    hide Neg, Equivalence, Inverse;
    forall v: nat | v % 2 == 0 ensures AllListed(qs, fs, v) {
      forall o: Lit ensures ListedFor(qs, fs, v, o) {
        assert AllListed(ps, es, v) && ListedFor(ps, es, v, o);
      }
    }
  }

  // ------------------------------------------------------------------ gates

  /** The gate has been entered: it is there, it is an equivalence that is known, or it is left to XOR gates. */
  ghost predicate EnteredAt(s: C.State, gates: seq<Gate>, cond: Lit, e: Pair, f: Pair) {
    if f.second == Neg(e.second) then true
    else if f.second == e.second then C.KnownEqual(s, e.first, e.second)
    else C.Present(s, gates, C.IteGate(e.first, [cond, e.second, f.second]))
  }

  ghost predicate RowEntered(s: C.State, gates: seq<Gate>, cond: Lit, e: Pair, fs: seq<Pair>, q: nat) {
    q <= |fs| && forall j :: 0 <= j < q && fs[j].first == e.first ==> EnteredAt(s, gates, cond, e, fs[j])
  }

  ghost predicate AllEntered(s: C.State, gates: seq<Gate>, cond: Lit, es: seq<Pair>, fs: seq<Pair>, p: nat) {
    p <= |es| && forall i :: 0 <= i < p ==> RowEntered(s, gates, cond, es[i], fs, |fs|)
  }

  lemma NoneEntered(s: C.State, gates: seq<Gate>, cond: Lit, es: seq<Pair>, fs: seq<Pair>)
    ensures AllEntered(s, gates, cond, es, fs, 0)
  {
  }

  lemma LaterLarger(es: seq<Pair>, p: nat)
    requires Ascending(es) && p < |es|
    ensures forall i :: p <= i < |es| ==> es[p].first <= es[i].first
  {
    forall i | p < i < |es| ensures es[p].first <= es[i].first {
      assert !Less(es[i], es[p]);
    }
  }

  /** Equivalences under both values of the condition make a gate. */
  lemma MergedGate(ms: iset<Model>, cond: Lit, n: nat, es: seq<Pair>, fs: seq<Pair>, p: nat, q: nat)
    requires EquivalencesOK(es, Neg(cond), n, ms) && EquivalencesOK(fs, cond, n, ms) && p < |es| && q < |fs|
    requires es[p].first == fs[q].first
    ensures es[p].first < n && es[p].second < n && fs[q].second < n
    ensures Var(cond) != Var(es[p].second) && Var(cond) != Var(fs[q].second)
    ensures forall m :: m in ms ==> (Holds(m, es[p].first) <==> Choice(m, [cond, es[p].second, fs[q].second]))
  {
    assert es[p] in es && fs[q] in fs;
    SameVar(cond, cond);
    forall m | m in ms ensures Holds(m, es[p].first) <==> Choice(m, [cond, es[p].second, fs[q].second]) {
      HoldsNeg(m, cond);
    }
  }

  lemma MovedParts(s0: C.State, gates0: seq<Gate>, s: C.State, gates: seq<Gate>)
    requires C.Advanced(s0, s, -1) && C.Coarser(s0.repr, s.repr) && C.GatesKept(gates0, gates)
    ensures Moved(s0, gates0, s, gates) && |s.values| == |s0.values|
  {
  }

  lemma EnteredNow(s: C.State, ms: iset<Model>, gates: seq<Gate>, cond: Lit, e: Pair, f: Pair)
    requires f.second == e.second ==> C.KnownEqual(s, e.first, e.second)
    requires f.second != e.second && f.second != Neg(e.second) ==>
               C.Present(s, gates, C.IteGate(e.first, [cond, e.second, f.second]))
    ensures EnteredAt(s, gates, cond, e, f)
  {
  }

  lemma EnteredStays(s0: C.State, gates0: seq<Gate>, s: C.State, gates: seq<Gate>, cond: Lit, e: Pair, f: Pair)
    requires Moved(s0, gates0, s, gates) && EnteredAt(s0, gates0, cond, e, f)
    ensures EnteredAt(s, gates, cond, e, f)
  {
    hide C.Root, C.Work, C.Todo, C.Present, C.IteGate, Neg;
    if f.second != Neg(e.second) && f.second != e.second {
      C.PresentKeeps(s0, s, gates0, gates, C.IteGate(e.first, [cond, e.second, f.second]));
    }
  }

  lemma EnteredKeeps(s0: C.State, gates0: seq<Gate>, s: C.State, gates: seq<Gate>, cond: Lit,
                     es: seq<Pair>, fs: seq<Pair>,
                     p: nat, q: nat)
    requires Moved(s0, gates0, s, gates) && p < |es| && q < |fs| && EnteredAt(s, gates, cond, es[p], fs[q])
    requires AllEntered(s0, gates0, cond, es, fs, p) && RowEntered(s0, gates0, cond, es[p], fs, q)
    ensures AllEntered(s, gates, cond, es, fs, p) && RowEntered(s, gates, cond, es[p], fs, q + 1)
  {
    hide EnteredAt, Moved;
    forall i | 0 <= i < p ensures RowEntered(s, gates, cond, es[i], fs, |fs|) {
      assert RowEntered(s0, gates0, cond, es[i], fs, |fs|);
      forall j | 0 <= j < |fs| && fs[j].first == es[i].first ensures EnteredAt(s, gates, cond, es[i], fs[j]) {
        EnteredStays(s0, gates0, s, gates, cond, es[i], fs[j]);
      }
    }
    forall j | 0 <= j < q && fs[j].first == es[p].first ensures EnteredAt(s, gates, cond, es[p], fs[j]) {
      EnteredStays(s0, gates0, s, gates, cond, es[p], fs[j]);
    }
  }

  lemma RowDone(s: C.State, gates: seq<Gate>, cond: Lit, es: seq<Pair>, fs: seq<Pair>, p: nat, q0: nat, q: nat)
    requires p < |es| && q0 <= q <= |fs| && Ascending(fs) && (q < |fs| ==> fs[q].first != es[p].first)
    requires q0 < |fs| ==> fs[q0].first >= es[p].first
    requires AllEntered(s, gates, cond, es, fs, p) && RowEntered(s, gates, cond, es[p], fs, q)
    ensures AllEntered(s, gates, cond, es, fs, p + 1)
  {
    hide EnteredAt;
    forall j | q <= j < |fs| ensures fs[j].first != es[p].first {
      assert q > q0 ==> !Less(fs[q], fs[q0]);
      assert j > q ==> !Less(fs[j], fs[q]);
    }
  }

  // ------------------------------------------------------------------ the gates of a condition

  /** A clause with l, a and b, as far as its literals have no value, is connected. */
  ghost predicate Connected(values: seq<int>, clauses: seq<Clause>, watches: seq<seq<nat>>, l: Lit, a: Lit, b: Lit) {
    l < |watches| && exists i :: 0 <= i < |watches[l]| && ConnectedAt(values, clauses, watches, l, i, Ordered(a, b))
  }

  ghost predicate ConnectedAt(values: seq<int>, clauses: seq<Clause>, watches: seq<seq<nat>>, l: Lit, i: nat, p: Pair)
    requires l < |watches| && i < |watches[l]|
  {
    watches[l][i] < |clauses| && PairOf(values, clauses[watches[l][i]].lits, l) == p
  }

  /** The clauses that say that v and t are equal if l is false. */
  ghost predicate TwoClauses(values: seq<int>, clauses: seq<Clause>, watches: seq<seq<nat>>, l: Lit, v: Lit, t: Lit) {
    && v % 2 == 0 && v < |watches| && t < |watches|
    && Connected(values, clauses, watches, l, v, Neg(t)) && Connected(values, clauses, watches, l, Neg(v), t)
  }

  /** The gates of which all four clauses are connected have been entered. */
  ghost predicate GatesEntered(values: seq<int>, clauses: seq<Clause>, watches: seq<seq<nat>>,
                               s: C.State, gates: seq<Gate>,
                               cond: Lit) {
    forall v: Lit, t: Lit, e: Lit ::
      TwoClauses(values, clauses, watches, Neg(cond), v, t) ==> TwoClauses(values, clauses, watches, cond, v, e) ==>
        EnteredAt(s, gates, cond, Pair(v, t), Pair(v, e))
  }

  /** What was found for a literal. */
  ghost predicate FoundFor(values: seq<int>, clauses: seq<Clause>, watches: seq<seq<nat>>,
                           l: Lit, es: seq<Pair>, ps: seq<Pair>,
                           ms: iset<Model>) {
    && l < |watches| && PairsOK(ps, l, |watches|, ms) && |ps| == |watches[l]|
    && (forall i :: 0 <= i < |ps| ==> ConnectedAt(values, clauses, watches, l, i, ps[i]))
    && (forall v: nat :: v % 2 == 0 ==> AllListed(ps, es, v))
  }

  lemma ConnectedPair(values: seq<int>, clauses: seq<Clause>, watches: seq<seq<nat>>,
                      l: Lit, es: seq<Pair>, ps: seq<Pair>,
                      ms: iset<Model>, a: Lit, b: Lit)
    requires FoundFor(values, clauses, watches, l, es, ps, ms) && Connected(values, clauses, watches, l, a, b)
    requires a < |watches| && b < |watches|
    ensures Ordered(a, b) in ps && Var(a) != Var(b)
  {
    hide PairOf, Implied, AllListed;
    var i :| 0 <= i < |watches[l]| && ConnectedAt(values, clauses, watches, l, i, Ordered(a, b));
    assert ps[i] == Ordered(a, b) && ps[i] in ps;
    assert PairOK(Ordered(a, b), l, |watches|, ms);
  }

  lemma NegRange(l: Lit, n: nat)
    requires l < n && n % 2 == 0
    ensures Neg(l) < n && Neg(Neg(l)) == l
  {
  }

  /** The equivalence of two clauses has been found. */
  lemma EquivalenceFound(values: seq<int>, clauses: seq<Clause>, watches: seq<seq<nat>>,
                         l: Lit, es: seq<Pair>, ps: seq<Pair>,
                         ms: iset<Model>, v: Lit, t: Lit)
    requires FoundFor(values, clauses, watches, l, es, ps, ms) && TwoClauses(values, clauses, watches, l, v, t)
    ensures Pair(v, t) in es
  {
    hide AllListed, Connected, PairOK, ConnectedAt;
    assert |watches| % 2 == 0 && |watches| <= INVALID_LIT;
    NegRange(v, |watches|);
    NegRange(t, |watches|);
    ConnectedPair(values, clauses, watches, l, es, ps, ms, v, Neg(t));
    ConnectedPair(values, clauses, watches, l, es, ps, ms, Neg(v), t);
    SameVar(v, t);
    SameVar(t, v);
    var w := if v < Neg(t) then v else if t % 2 == 0 then t else Neg(t);
    var o := if v < Neg(t) then Neg(t) else if t % 2 == 0 then Neg(v) else v;
    EquivalenceFor(v, t, w, o);
    assert AllListed(ps, es, w);
    ListedIn(ps, es, w, o);
  }

  lemma ListedIn(ps: seq<Pair>, es: seq<Pair>, w: Lit, o: Lit)
    requires AllListed(ps, es, w) && Pair(w, o) in ps && Pair(Neg(w), Neg(o)) in ps && o < INVALID_LIT
    requires Neg(o) < INVALID_LIT
    ensures Equivalence(w, o) in es && Inverse(Equivalence(w, o)) in es
  {
    assert ListedFor(ps, es, w, o);
  }

  /** The pairs of both clauses, as they are ordered, and the equivalence they give. */
  lemma EquivalenceFor(v: Lit, t: Lit, w: Lit, o: Lit)
    requires v % 2 == 0 && Var(v) != Var(t)
    requires w == (if v < Neg(t) then v else if t % 2 == 0 then t else Neg(t))
    requires o == (if v < Neg(t) then Neg(t) else if t % 2 == 0 then Neg(v) else v)
    ensures w % 2 == 0 && {Pair(w, o), Pair(Neg(w), Neg(o))} == {Ordered(v, Neg(t)), Ordered(Neg(v), t)}
    ensures Pair(v, t) == Equivalence(w, o) || Pair(v, t) == Inverse(Equivalence(w, o))
  {
  }

  lemma NoGates(values: seq<int>, clauses: seq<Clause>, watches: seq<seq<nat>>, ms: iset<Model>,
                s: C.State, gates: seq<Gate>,
                cond: Lit, l: Lit, es: seq<Pair>, ps: seq<Pair>)
    requires FoundFor(values, clauses, watches, l, es, ps, ms) && es == [] && (l == cond || l == Neg(cond))
    ensures GatesEntered(values, clauses, watches, s, gates, cond)
  {
    hide FoundFor, TwoClauses, EnteredAt, Neg;
    forall v: Lit, t: Lit ensures !TwoClauses(values, clauses, watches, l, v, t) {
      if TwoClauses(values, clauses, watches, l, v, t) {
        EquivalenceFound(values, clauses, watches, l, es, ps, ms, v, t);
      }
    }
  }

  lemma FoundAll(values: seq<int>, clauses: seq<Clause>, watches: seq<seq<nat>>, ms: iset<Model>,
                 s: C.State, gates: seq<Gate>,
                 cond: Lit, es: seq<Pair>, ps: seq<Pair>, fs: seq<Pair>, qs: seq<Pair>)
    requires FoundFor(values, clauses, watches, Neg(cond), es, ps, ms)
    requires FoundFor(values, clauses, watches, cond, fs, qs, ms)
    requires AllEntered(s, gates, cond, es, fs, |es|)
    ensures GatesEntered(values, clauses, watches, s, gates, cond)
  {
    hide FoundFor, TwoClauses, EnteredAt, Neg;
    forall v: Lit, t: Lit, e: Lit |
      TwoClauses(values, clauses, watches, Neg(cond), v, t) && TwoClauses(values, clauses, watches, cond, v, e)
      ensures EnteredAt(s, gates, cond, Pair(v, t), Pair(v, e))
    {
      EquivalenceFound(values, clauses, watches, Neg(cond), es, ps, ms, v, t);
      EquivalenceFound(values, clauses, watches, cond, fs, qs, ms, v, e);
      var i :| 0 <= i < |es| && es[i] == Pair(v, t);
      var j :| 0 <= j < |fs| && fs[j] == Pair(v, e);
      assert RowEntered(s, gates, cond, es[i], fs, |fs|);
    }
  }

  /** One clause is too few for an equivalence. */
  lemma TooFew(s: C.State, clauses: seq<Clause>, watches: seq<seq<nat>>, ms: iset<Model>,
               gates: seq<Gate>, cond: Lit, l: Lit)
    requires ClausesOK(clauses, watches, s.values, ms) && C.Base(s, ms) && |watches| == |s.values| <= INVALID_LIT
    requires (l == cond || l == Neg(cond)) && l < |watches| && |watches[l]| <= 1
    ensures GatesEntered(s.values, clauses, watches, s, gates, cond)
  {
    hide EnteredAt, ClausesOK, PairOf, Neg, Ordered, C.Base;
    forall v: Lit, t: Lit ensures !TwoClauses(s.values, clauses, watches, l, v, t) {
      if TwoClauses(s.values, clauses, watches, l, v, t) {
        ConnectedClause(clauses, watches, s, ms, l, 0);
        C.BaseFacts(s, ms);
        OnePair(v, t, |watches|);
      }
    }
  }

  /** A clause for both directions would have a single variable besides the condition. */
  lemma OnePair(v: Lit, t: Lit, n: nat)
    requires v < n && t < n && n % 2 == 0 && n <= INVALID_LIT
    ensures Ordered(v, Neg(t)).second != INVALID_LIT
    ensures Ordered(v, Neg(t)) == Ordered(Neg(v), t) ==> Var(Ordered(v, Neg(t)).first) == Var(Ordered(v, Neg(t)).second)
  {
  }

  /** Falsified literals stay falsified. */
  lemma StillTernary(s0: C.State, gates0: seq<Gate>, s: C.State, gates: seq<Gate>,
                     clauses: seq<Clause>, watches: seq<seq<nat>>,
                     ms: iset<Model>)
    requires Moved(s0, gates0, s, gates) && ClausesOK(clauses, watches, s0.values, ms)
    ensures |s.values| == |s0.values| && ClausesOK(clauses, watches, s.values, ms)
  {
    hide C.Coarser, C.GatesKept, C.Work, C.Todo, Implied;
    forall l: nat, i: nat | l < |watches| && i < |watches[l]|
      ensures Ternary(s.values, clauses[watches[l][i]].lits, l) {
      var c := clauses[watches[l][i]].lits;
      assert Ternary(s0.values, c, l);
      var a: Lit, b: Lit :| OnlyThree(s0.values, c, l, a, b);
      assert OnlyThree(s.values, c, l, a, b);
    }
  }
}
