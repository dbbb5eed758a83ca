/**
  Finding AND gates (congruence.c): a clause is the base of a gate whose output is one of its
  literals if that literal's negation occurs with the negation of each other literal in a binary
  clause.  Exactly these gates are entered, although candidates are dropped early.
 */
module AndExtraction {
  import opened Literals
  import opened RootValues
  import opened GateTable
  import opened Extraction
  import opened Sequences
  import C = Congruence

  /** A negated literal of the base clause, a candidate, and a candidate that was seen again. */
  datatype Mark = Mark(base: bool, candidate: bool, again: bool)

  const UNMARKED := Mark(false, false, false)

  datatype Finder = Finder(clauses: seq<Clause>, marks: seq<Mark>, marked: seq<Lit>, lits: seq<Lit>)

  // ------------------------------------------------------------------ binary clauses

  /** The binary clauses of l, each listed once and for both its literals. */
  ghost predicate ListOK(watches: seq<seq<Lit>>, l: Lit, ms: iset<Model>)
    requires l < |watches|
  {
    && Distinct(watches[l])
    && forall o :: o in watches[l] ==> o < |watches| && Var(o) != Var(l) && l in watches[o] && Implied(ms, [l, o])
  }

  /** The counts are those of the binary clauses of the negated literals. */
  ghost predicate BinariesOK(watches: seq<seq<Lit>>, counts: seq<nat>, ms: iset<Model>) {
    && |watches| == |counts| && |watches| % 2 == 0
    && (forall l: nat :: l < |watches| ==> ListOK(watches, l, ms))
    && CountsOK(watches, counts)
  }

  ghost predicate CountsOK(watches: seq<seq<Lit>>, counts: seq<nat>) {
    forall l: nat :: CountOK(watches, counts, l)
  }

  ghost predicate CountOK(watches: seq<seq<Lit>>, counts: seq<nat>, l: nat) {
    l < |watches| ==> Neg(l) < |watches| && l < |counts| && counts[l] == |watches[Neg(l)]|
  }

  /** All binary clauses for the output lhs are there. */
  ghost predicate Full(watches: seq<seq<Lit>>, lits: seq<Lit>, lhs: Lit) {
    Neg(lhs) < |watches| && forall l :: l in lits && l != lhs ==> Neg(l) in watches[Neg(lhs)]
  }

  /** The literals of the list that are negated literals of the base clause. */
  function Hits(lits: seq<Lit>, list: seq<Lit>, k: nat): seq<Lit>
    requires k <= |list|
  {
    if k == 0 then [] else Hits(lits, list, k - 1) + if Neg(list[k - 1]) in lits then [list[k - 1]] else []
  }

  lemma {:induction false} HitsMembers(lits: seq<Lit>, list: seq<Lit>, k: nat)
    requires k <= |list|
    ensures forall o :: o in Hits(lits, list, k) <==> o in list[..k] && Neg(o) in lits
    ensures Distinct(list) ==> Distinct(Hits(lits, list, k))
  {
    if k > 0 {
      HitsMembers(lits, list, k - 1);
      assert list[..k] == list[..k - 1] + [list[k - 1]];
    }
  }

  function Elements(c: seq<Lit>): set<Lit> {
    set l | l in c
  }

  lemma {:induction false} DifferentSize(c: seq<Lit>)
    requires Distinct(c)
    ensures |Elements(c)| == |c|
  {
    if c != [] {
      var n := |c| - 1;
      DifferentSize(c[..n]);
      assert Elements(c) == Elements(c[..n]) + {c[n]};
    }
  }

  /** The negations of the literals other than lhs. */
  function NegatedSet(lits: seq<Lit>, lhs: Lit): set<Lit> {
    set l | l in lits && l != lhs :: Neg(l)
  }

  lemma {:induction false} ImageSize(a: set<Lit>)
    ensures |set l | l in a :: Neg(l)| == |a|
  {
    hide Neg;
    var image := set l | l in a :: Neg(l);
    if a != {} {
      var x :| x in a;
      var rest := set l | l in a - {x} :: Neg(l);
      ImageSize(a - {x});
      assert image == rest + {Neg(x)};
      if Neg(x) in rest {
        var l :| l in a - {x} && Neg(l) == Neg(x);
        HoldsNeg(iset{}, l);
        HoldsNeg(iset{}, x);
      }
    }
  }

  lemma NegatedSize(lits: seq<Lit>, lhs: Lit)
    requires Distinct(lits)
    ensures |NegatedSet(lits, lhs)| == |lits| - if lhs in lits then 1 else 0
  {
    hide Neg;
    DifferentSize(lits);
    ImageSize(Elements(lits) - {lhs});
    assert NegatedSet(lits, lhs) == set l | l in Elements(lits) - {lhs} :: Neg(l);
  }

  lemma SameSet(a: set<Lit>, b: set<Lit>)
    requires a <= b && |a| >= |b|
    ensures a == b
  {
    assert |b - a| == |b| - |a|;
  }

  /** Counting is enough: as many hits as other literals mean that all binary clauses are there. */
  lemma CountHits(watches: seq<seq<Lit>>, lits: seq<Lit>, lhs: Lit)
    requires DistinctVars(lits) && lhs in lits && Neg(lhs) < |watches|
    requires Distinct(watches[Neg(lhs)]) && forall o :: o in watches[Neg(lhs)] ==> Var(o) != Var(Neg(lhs))
    ensures |Hits(lits, watches[Neg(lhs)], |watches[Neg(lhs)]|)| >= |lits| - 1 <==> Full(watches, lits, lhs)
  {
    hide Neg, Var, Hits;
    var ws := watches[Neg(lhs)];
    var hits := Hits(lits, ws, |ws|);
    HitsMembers(lits, ws, |ws|);
    assert ws[..|ws|] == ws;
    DifferentSize(hits);
    NegatedSize(lits, lhs);
    SameVar(lhs, lhs);
    forall o | o in hits ensures o in NegatedSet(lits, lhs) {
      HoldsNeg(iset{}, o);
      assert Neg(o) != lhs;
    }
    assert Elements(hits) <= NegatedSet(lits, lhs);
    if |hits| >= |lits| - 1 {
      SameSet(Elements(hits), NegatedSet(lits, lhs));
      forall l | l in lits && l != lhs ensures Neg(l) in ws {
        assert Neg(l) in NegatedSet(lits, lhs);
      }
    }
    if Full(watches, lits, lhs) {
      forall o | o in NegatedSet(lits, lhs) ensures o in Elements(hits) {
        var l :| l in lits && l != lhs && o == Neg(l);
        HoldsNeg(iset{}, l);
        assert o in ws && Neg(o) in lits;
      }
      assert Elements(hits) == NegatedSet(lits, lhs);
    }
  }

  /** The list has as many literals of the base clause as there are inputs exactly if all binary clauses are there. */
  ghost predicate CountsRight(watches: seq<seq<Lit>>, lits: seq<Lit>, lhs: Lit)
    requires Neg(lhs) < |watches|
  {
    |Hits(lits, watches[Neg(lhs)], |watches[Neg(lhs)]|)| >= |lits| - 1 <==> Full(watches, lits, lhs)
  }

  ghost predicate BaseWith(lits: seq<Lit>, lhs: Lit, n: nat) {
    DistinctVars(lits) && |lits| >= 3 && lhs in lits && forall l :: l in lits ==> l < n
  }

  lemma {:induction false} HitsGrow(lits: seq<Lit>, list: seq<Lit>, j: nat, k: nat)
    requires j <= k <= |list|
    ensures |Hits(lits, list, j)| <= |Hits(lits, list, k)|
  {
    if j < k {
      HitsGrow(lits, list, j, k - 1);
    }
  }

  /** A literal that is listed twice is counted twice, although another input has no binary clause. */
  lemma DuplicateMisleads(watches: seq<seq<Lit>>, lhs: Lit, i: nat, j: nat, u: nat)
    requires Neg(lhs) < |watches| && i < j < |watches[Neg(lhs)]| && watches[Neg(lhs)][i] == watches[Neg(lhs)][j]
    requires u != Var(lhs) && forall o :: o in watches[Neg(lhs)] ==> Var(o) != Var(lhs) && Var(o) != u
    ensures !CountsRight(watches, [lhs, Neg(watches[Neg(lhs)][i]), 2 * u + 1], lhs)
    ensures DistinctVars([lhs, Neg(watches[Neg(lhs)][i]), 2 * u + 1])
  {
    var ws := watches[Neg(lhs)];
    var o := ws[i];
    assert o in ws;
    SameVar(o, Neg(o));
    var lits := [lhs, Neg(o), 2 * u + 1];
    assert Neg(o) in lits && 2 * u + 1 in lits && Var(2 * u) == u;
    HitsGrow(lits, ws, i + 1, j);
    HitsGrow(lits, ws, j + 1, |ws|);
    assert |Hits(lits, ws, j + 1)| == |Hits(lits, ws, j)| + 1 && |Hits(lits, ws, i + 1)| >= 1;
    assert 2 * u !in ws && !Full(watches, lits, lhs);
  }

  /**
    Counting is right for every base clause over the variables below n if and only if no literal is listed twice, as
    long as some variable u has no binary clause with the output.
   */
  lemma CountingExact(watches: seq<seq<Lit>>, lhs: Lit, n: nat, u: nat)
    requires Neg(lhs) < |watches| && lhs < n && u != Var(lhs) && 2 * u + 1 < n
    requires forall o :: o in watches[Neg(lhs)] ==> Neg(o) < n && Var(o) != Var(lhs) && Var(o) != u
    ensures Distinct(watches[Neg(lhs)]) <==> forall lits :: BaseWith(lits, lhs, n) ==> CountsRight(watches, lits, lhs)
  {
    hide Hits, Full, Neg;
    var ws := watches[Neg(lhs)];
    SameVar(lhs, Neg(lhs));
    SameVar(Neg(lhs), lhs);
    if Distinct(ws) {
      forall lits | BaseWith(lits, lhs, n) ensures CountsRight(watches, lits, lhs) {
        CountHits(watches, lits, lhs);
      }
    } else {
      var i, j :| 0 <= i < j < |ws| && ws[i] == ws[j];
      DuplicateMisleads(watches, lhs, i, j, u);
      assert ws[i] in ws;
      assert BaseWith([lhs, Neg(ws[i]), 2 * u + 1], lhs, n);
    }
  }

  ghost predicate ClausesProper(clauses: seq<Clause>, n: nat) {
    forall r :: 0 <= r < |clauses| ==> Proper(n, clauses[r].lits)
  }

  // ------------------------------------------------------------------ marks

  /** The negated literals of the base clause are marked, and among them the candidates. */
  ghost predicate MarksOK(f: Finder, n: nat) {
    && |f.marks| == n && Distinct(f.marked) && n % 2 == 0
    && (forall k :: k in f.marked ==> k < n && Neg(k) in f.lits)
    && (forall k: nat :: k < n ==> f.marks[k] == Mark(Neg(k) in f.lits, k in f.marked, false))
  }

  /** A base clause: at least three different variables, and it is implied. */
  ghost predicate BaseOK(lits: seq<Lit>, n: nat, ms: iset<Model>) {
    Proper(n, lits) && |lits| > 2 && Implied(ms, lits)
  }

  /** The first p literals of the list have been visited for the first output tried. */
  ghost predicate Hitting(f0: Finder, f: Finder, list: seq<Lit>, p: nat) {
    && p <= |list| && f == f0.(marks := f.marks, marked := f.marked) && |f.marks| == |f0.marks|
    && f.marked == Hits(f0.lits, list, p)
    && (forall k: nat :: k < |f.marks| ==> f.marks[k] == Mark(Neg(k) in f0.lits, k in f.marked, false))
  }

  function Hit(f: Finder, o: Lit): Finder
    requires o < |f.marks|
  {
    f.(marks := f.marks[o := f.marks[o].(candidate := true)], marked := f.marked + [o])
  }

  lemma HittingStart(f: Finder, list: seq<Lit>)
    requires MarksOK(f, |f.marks|) && f.marked == []
    ensures Hitting(f, f, list, 0)
  {
  }

  lemma HittingNext(f0: Finder, f: Finder, list: seq<Lit>, p: nat)
    requires Hitting(f0, f, list, p) && p < |list| && list[p] < |f.marks|
    ensures Hitting(f0, if f.marks[list[p]].base then Hit(f, list[p]) else f, list, p + 1)
  {
    hide Neg;
    var o := list[p];
    if f.marks[o].base {
      var f' := Hit(f, o);
      assert f'.marked == Hits(f0.lits, list, p + 1);
      assert forall k :: k in f'.marked <==> k in f.marked || k == o;
    }
  }

  lemma HittingDone(f0: Finder, f: Finder, list: seq<Lit>)
    requires Hitting(f0, f, list, |list|) && MarksOK(f0, |f0.marks|) && Distinct(list)
    requires forall o :: o in list ==> o < |f0.marks|
    ensures MarksOK(f, |f0.marks|)
  {
    hide Neg, Hits;
    HitsMembers(f0.lits, list, |list|);
    assert list[..|list|] == list;
  }

  // ------------------------------------------------------------------ filtering the candidates

  /** The candidates that were seen again; that of the output tried is dropped. */
  function Again(marked: seq<Lit>, list: seq<Lit>, notLhs: Lit): seq<Lit> {
    if marked == [] then []
    else
      var n := |marked| - 1;
      Again(marked[..n], list, notLhs) + if marked[n] != notLhs && marked[n] in list then [marked[n]] else []
  }

  lemma {:induction false} AgainMembers(marked: seq<Lit>, list: seq<Lit>, notLhs: Lit)
    ensures forall k :: k in Again(marked, list, notLhs) <==> k in marked && k != notLhs && k in list
    ensures Distinct(marked) ==> Distinct(Again(marked, list, notLhs))
  {
    if marked != [] {
      var n := |marked| - 1;
      AgainMembers(marked[..n], list, notLhs);
      assert marked == marked[..n] + [marked[n]];
    }
  }

  lemma AgainStep(marked: seq<Lit>, list: seq<Lit>, notLhs: Lit, p: nat)
    requires p < |marked|
    ensures Again(marked[..p + 1], list, notLhs) ==
            Again(marked[..p], list, notLhs) + if marked[p] != notLhs && marked[p] in list then [marked[p]] else []
  {
    assert marked[..p + 1][..p] == marked[..p];
  }

  /** The first p literals of the list have been visited: candidates among them are marked again. */
  ghost predicate Seeing(f0: Finder, f: Finder, list: seq<Lit>, p: nat) {
    && p <= |list| && f == f0.(marks := f.marks) && |f.marks| == |f0.marks|
    && (forall k: nat :: k < |f.marks| ==>
          f.marks[k] == Mark(Neg(k) in f0.lits, k in f0.marked, k in f0.marked && k in list[..p]))
  }

  function See(f: Finder, o: Lit): Finder
    requires o < |f.marks|
  {
    f.(marks := f.marks[o := f.marks[o].(again := true)])
  }

  lemma SeeingNext(f0: Finder, f: Finder, list: seq<Lit>, p: nat)
    requires Seeing(f0, f, list, p) && p < |list| && list[p] < |f.marks|
    requires forall k :: k in f0.marked ==> Neg(k) in f0.lits
    ensures Seeing(f0, if f.marks[list[p]].base && f.marks[list[p]].candidate then See(f, list[p]) else f, list, p + 1)
  {
    hide Neg;
    assert list[..p + 1] == list[..p] + [list[p]];
    assert forall k :: k in list[..p + 1] <==> k in list[..p] || k == list[p];
  }

  /** The first p candidates have been filtered: those kept are in front, the others are no candidates any more. */
  ghost predicate Filtering(f0: Finder, f: Finder, list: seq<Lit>, notLhs: Lit, p: nat, q: nat) {
    && q <= p <= |f0.marked| == |f.marked| && f == f0.(marks := f.marks, marked := f.marked) && |f.marks| == |f0.marks|
    && f.marked[p..] == f0.marked[p..] && f.marked[..q] == Again(f0.marked[..p], list, notLhs)
    && (forall k: nat :: k < |f.marks| ==>
          f.marks[k] == (if k in f0.marked[..p] then Mark(true, k in f.marked[..q], false)
                         else Mark(Neg(k) in f0.lits, k in f0.marked, k in f0.marked && k in list)))
  }

  function Filtered(f: Finder, k: Lit, keep: bool, q: nat): Finder
    requires k < |f.marks| && q < |f.marked|
  {
    if keep then f.(marks := f.marks[k := Mark(true, true, false)], marked := f.marked[q := k])
    else f.(marks := f.marks[k := Mark(true, false, false)])
  }

  lemma FilteringStart(f0: Finder, f: Finder, list: seq<Lit>, notLhs: Lit)
    requires Seeing(f0, f, list, |list|)
    ensures Filtering(f0, f, list, notLhs, 0, 0)
  {
    assert list[..|list|] == list;
  }

  lemma FilteringNext(f0: Finder, f: Finder, list: seq<Lit>, notLhs: Lit, p: nat, q: nat)
    requires Filtering(f0, f, list, notLhs, p, q) && p < |f0.marked| && MarksOK(f0, |f0.marks|)
    ensures var k := f.marked[p]; k == f0.marked[p] < |f.marks| && q < |f.marked| && (f.marks[k].again <==> k in list)
    ensures var k := f.marked[p]; var keep := k != notLhs && k in list;
            Filtering(f0, Filtered(f, k, keep, q), list, notLhs, p + 1, if keep then q + 1 else q)
  {
    hide Neg, Again;
    MoveEntry(f.marked, f0.marked, p, q);
    assert f0.marked[p] in f0.marked;
    AgainStep(f0.marked, list, notLhs, p);
    AgainMembers(f0.marked[..p], list, notLhs);
    var k := f.marked[p];
    assert k !in f0.marked[..p];
    assert f0.marked[..p + 1] == f0.marked[..p] + [k];
    assert forall x :: x in f0.marked[..p + 1] <==> x in f0.marked[..p] || x == k;
    var keep := k != notLhs && k in list;
    var f' := Filtered(f, k, keep, q);
    var q' := if keep then q + 1 else q;
    assert f'.marked[p + 1..] == f0.marked[p + 1..];
    assert f'.marked[..q'] == Again(f0.marked[..p + 1], list, notLhs);
    assert forall x :: x in f'.marked[..q'] <==> x in f.marked[..q] || (keep && x == k);
  }

  lemma FilteringDone(f0: Finder, f: Finder, list: seq<Lit>, notLhs: Lit, q: nat)
    requires Filtering(f0, f, list, notLhs, |f0.marked|, q) && MarksOK(f0, |f0.marks|)
    ensures f.marked[..q] == Again(f0.marked, list, notLhs)
    ensures MarksOK(f.(marked := f.marked[..q]), |f0.marks|)
  {
    hide Neg, Again;
    assert f0.marked[..|f0.marked|] == f0.marked;
    AgainMembers(f0.marked, list, notLhs);
  }

  // ------------------------------------------------------------------ outputs

  /** Base clause and binary clauses together define the gate. */
  lemma GateFollows(watches: seq<seq<Lit>>, counts: seq<nat>, lits: seq<Lit>, lhs: Lit, ms: iset<Model>)
    requires BinariesOK(watches, counts, ms) && BaseOK(lits, |watches|, ms) && lhs in lits && Full(watches, lits, lhs)
    ensures forall m :: m in ms ==> (Holds(m, lhs) <==> forall l :: l in lits && l != lhs ==> !Holds(m, l))
  {
    hide Neg, CountOK, Proper;
    assert ListOK(watches, Neg(lhs), ms);
    forall m | m in ms ensures Holds(m, lhs) <==> forall l :: l in lits && l != lhs ==> !Holds(m, l) {
      assert Sat(m, lits);
      HoldsNeg(m, lhs);
      forall l | l in lits && l != lhs && Holds(m, lhs) ensures !Holds(m, l) {
        HoldsNeg(m, l);
        assert Neg(l) in watches[Neg(lhs)];
        assert Implied(ms, [Neg(lhs), Neg(l)]);
        var t :| t in [Neg(lhs), Neg(l)] && Holds(m, t);
      }
    }
  }

  lemma ListFacts(watches: seq<seq<Lit>>, counts: seq<nat>, lits: seq<Lit>, lhs: Lit, ms: iset<Model>)
    requires BinariesOK(watches, counts, ms) && BaseOK(lits, |watches|, ms) && lhs in lits
    ensures lhs < |watches| && Neg(lhs) < |watches| && |watches| == |counts|
    ensures Distinct(watches[Neg(lhs)])
    ensures forall o :: o in watches[Neg(lhs)] ==> o < |watches| && Var(o) != Var(Neg(lhs))
    ensures (forall l :: l in lits ==> l < |watches|) && DistinctVars(lits)
    ensures Neg(lhs) !in watches[Neg(lhs)]
    ensures |lits| > 2
  {
    assert CountOK(watches, counts, lhs) && ListOK(watches, Neg(lhs), ms);
  }

  // ------------------------------------------------------------------ connecting the binary clauses

  /** Different binary clauses, each of two variables and implied. */
  ghost predicate PairsOK(binaries: seq<(Lit, Lit)>, n: nat, ms: iset<Model>) {
    && n % 2 == 0
    && (forall b :: b in binaries ==> b.0 < n && b.1 < n && Var(b.0) != Var(b.1) && Implied(ms, [b.0, b.1]))
    && (forall i, j ::
          0 <= i < j < |binaries| ==> binaries[i] != binaries[j] && binaries[i] != (binaries[j].1, binaries[j].0))
  }

  /** The lists hold the first k binary clauses. */
  ghost predicate Connected(watches: seq<seq<Lit>>, binaries: seq<(Lit, Lit)>, k: nat) {
    && k <= |binaries|
    && (forall l: nat :: l < |watches| ==> Distinct(watches[l]))
    && (forall l: nat, o: Lit :: l < |watches| ==> (o in watches[l] <==> Joins(binaries, k, l, o)))
  }

  ghost predicate Joins(binaries: seq<(Lit, Lit)>, k: nat, l: Lit, o: Lit)
    requires k <= |binaries|
  {
    (l, o) in binaries[..k] || (o, l) in binaries[..k]
  }

  function Watch(watches: seq<seq<Lit>>, l: Lit, o: Lit): seq<seq<Lit>>
    requires l < |watches| && o < |watches|
  {
    var watches1 := watches[l := watches[l] + [o]];
    watches1[o := watches1[o] + [l]]
  }

  lemma ConnectedNext(watches: seq<seq<Lit>>, binaries: seq<(Lit, Lit)>, k: nat, ms: iset<Model>)
    requires Connected(watches, binaries, k) && k < |binaries| && PairsOK(binaries, |watches|, ms)
    ensures binaries[k].0 < |watches| && binaries[k].1 < |watches| && binaries[k].0 != binaries[k].1
    ensures Connected(Watch(watches, binaries[k].0, binaries[k].1), binaries, k + 1)
  {
    hide Var, Implied;
    var (l, o) := binaries[k];
    assert binaries[k] in binaries;
    assert binaries[..k + 1] == binaries[..k] + [(l, o)];
    assert (l, o) !in binaries[..k] && (o, l) !in binaries[..k];
    assert forall b :: b in binaries[..k + 1] <==> b in binaries[..k] || b == (l, o);
    var watches' := Watch(watches, l, o);
    forall x: nat | x < |watches| ensures Distinct(watches'[x]) {
      assert o !in watches[l] && l !in watches[o];
    }
    forall x: nat, y: Lit | x < |watches| ensures y in watches'[x] <==> Joins(binaries, k + 1, x, y) {
      assert y in watches[x] <==> Joins(binaries, k, x, y);
    }
  }

  lemma ConnectedDone(watches: seq<seq<Lit>>, counts: seq<nat>, binaries: seq<(Lit, Lit)>, ms: iset<Model>)
    requires Connected(watches, binaries, |binaries|) && PairsOK(binaries, |watches|, ms) && |counts| == |watches|
    requires CountsOK(watches, counts)
    ensures BinariesOK(watches, counts, ms)
  {
    hide CountOK;
    assert binaries[..|binaries|] == binaries;
    forall l: nat | l < |watches| ensures ListOK(watches, l, ms) {
      forall o | o in watches[l] ensures o < |watches| && Var(o) != Var(l) && l in watches[o] && Implied(ms, [l, o]) {
        assert Joins(binaries, |binaries|, l, o);
        if (l, o) !in binaries {
          Turned(ms, o, l);
        }
        assert Joins(binaries, |binaries|, o, l);
      }
    }
  }

  lemma Turned(ms: iset<Model>, k: Lit, l: Lit)
    requires Implied(ms, [k, l])
    ensures Implied(ms, [l, k])
  {
    forall m | m in ms ensures Sat(m, [l, k]) {
      assert Sat(m, [k, l]);
    }
  }

  function Counted(counts: seq<nat>, l: Lit, o: Lit): seq<nat>
    requires Neg(l) < |counts| && Neg(o) < |counts|
  {
    var counts1 := counts[Neg(l) := counts[Neg(l)] + 1];
    counts1[Neg(o) := counts1[Neg(o)] + 1]
  }

  lemma CountsNext(watches: seq<seq<Lit>>, counts: seq<nat>, l: Lit, o: Lit)
    requires l < |watches| && o < |watches| && l != o && |counts| == |watches| && |watches| % 2 == 0
    requires CountsOK(watches, counts)
    ensures Neg(l) < |watches| && Neg(o) < |watches| && CountsOK(Watch(watches, l, o), Counted(counts, l, o))
  {
    HoldsNeg(iset{}, l);
    HoldsNeg(iset{}, o);
    assert CountOK(watches, counts, l) && CountOK(watches, counts, o);
    hide Neg;
    forall k: nat ensures CountOK(Watch(watches, l, o), Counted(counts, l, o), k) {
      assert CountOK(watches, counts, k);
      HoldsNeg(iset{}, k);
    }
  }

  lemma CountsStart(watches: seq<seq<Lit>>, counts: seq<nat>)
    requires |watches| == |counts| && |watches| % 2 == 0
    requires forall l :: 0 <= l < |watches| ==> watches[l] == [] && counts[l] == 0
    ensures CountsOK(watches, counts)
  {
    forall k: nat ensures CountOK(watches, counts, k) {
    }
  }

  class AndFinder {
    var f: Finder
    const closure: C.Closure
    const watches: seq<seq<Lit>>
    const counts: seq<nat>

    /** Between base clauses: nothing is marked, and all active clauses are implied. */
    ghost predicate Valid()
      reads this, closure, closure.index
    {
      && closure.Extracting() && |watches| == |closure.s.values| && BinariesOK(watches, counts, closure.ms)
      && f.marked == [] && f.marks == seq(|watches|, _ => UNMARKED)
      && ClausesImplied(f.clauses, closure.ms) && ClausesProper(f.clauses, |watches|)
    }

    /** Connects the binary clauses and counts them for the negated literals. */
    constructor (closure: C.Closure, binaries: seq<(Lit, Lit)>, clauses: seq<Clause>)
      requires closure.Extracting() && PairsOK(binaries, |closure.s.values|, closure.ms)
      requires ClausesImplied(clauses, closure.ms) && ClausesProper(clauses, |closure.s.values|)
      ensures Valid() && this.closure == closure && f.clauses == clauses
      ensures forall l: nat, o: Lit :: l < |watches| ==> (o in watches[l] <==> (l, o) in binaries || (o, l) in binaries)
    {
      hide C.Order, C.Tidy, C.UnitsDone, C.Connected, C.Base, C.GatesOK, C.OccurrencesOK, TableOK,
           ClausesImplied, ClausesProper, Neg,
           Watch, CountsOK, PairsOK, Connected;
      var n := |closure.s.values|;
      var watches: seq<seq<Lit>>, counts: seq<nat> := seq(n, _ => []), seq(n, _ => 0);
      EvenPairs(binaries, n, closure.ms);
      CountsStart(watches, counts);
      ConnectedStart(watches, binaries);
      for k := 0 to |binaries|
        invariant |watches| == |counts| == n && Connected(watches, binaries, k) && CountsOK(watches, counts)
      {
        var lit, other := binaries[k].0, binaries[k].1;
        ConnectedNext(watches, binaries, k, closure.ms);
        CountsNext(watches, counts, lit, other);
        WatchSteps(watches, lit, other);
        var notLit, notOther := Neg(lit), Neg(other);
        counts := counts[notLit := counts[notLit] + 1];
        counts := counts[notOther := counts[notOther] + 1];
        watches := watches[lit := watches[lit] + [other]];
        watches := watches[other := watches[other] + [lit]];
      }
      ConnectedDone(watches, counts, binaries, closure.ms);
      ConnectedAll(watches, binaries);
      this.closure, this.watches, this.counts := closure, watches, counts;
      f := Finder(clauses, seq(n, _ => UNMARKED), [], []);
    }

    /** The marks belong to a base clause. */
    ghost predicate Trying()
      reads this, closure, closure.index
    {
      && closure.Extracting() && |watches| == |closure.s.values| && BinariesOK(watches, counts, closure.ms)
      && MarksOK(f, |watches|) && BaseOK(f.lits, |watches|, closure.ms)
    }

    /** Reads the literals without a value; a satisfied clause becomes garbage. */
    method ReadBase(ref: nat, sizeLimit: nat) returns (ok: bool)
      requires Valid() && ref < |f.clauses| && !f.clauses[ref].garbage
      modifies this`f
      ensures Valid() && f == old(f).(clauses := f.clauses, lits := f.lits)
      ensures var c := old(f).clauses[ref].lits;
              if ok then
                f.clauses == old(f).clauses && f.lits == Unassigned(closure.s.values, c)
                && BaseOK(f.lits, |watches|, closure.ms) && 3 <= |f.lits| <= sizeLimit
              else NoBase(closure.s.values, c, sizeLimit, watches)
    {
      hide C.Order, C.Tidy, C.UnitsDone, C.Connected, C.Base, C.GatesOK, C.OccurrencesOK, TableOK,
           BinariesOK, BaseOK, Full, Unassigned, ClausesImplied;
      ok := false;
      var c := f.clauses[ref].lits;
      var size, maxCount := 0, 0;
      C.BaseFacts(closure.s, closure.ms);
      CountsSize(watches, counts, closure.ms);
      f := f.(lits := []);
      UnassignedStart(closure.s.values, c);
      for k := 0 to |c|
        invariant f == old(f).(lits := Unassigned(closure.s.values, c[..k])) && !ok && |f.lits| == size <= sizeLimit
        invariant forall i :: 0 <= i < k ==> closure.s.values[c[i]] <= 0
        invariant forall l :: l in f.lits ==> l < |watches| && 0 < counts[l] <= maxCount
      {
        var lit := c[k];
        var value := closure.s.values[lit];
        UnassignedStep(closure.s.values, c, k);
        if value < 0 {
          continue;
        }
        if value > 0 {
          assert lit in c;
          f := f.(clauses := f.clauses[ref := f.clauses[ref].(garbage := true)]);
          GarbageImplied(old(f).clauses, ref, closure.ms);
          return;
        }
        size := size + 1;
        if size > sizeLimit {
          return;
        }
        var count := counts[lit];
        if count == 0 {
          Uncounted(watches, counts, closure.ms, closure.s.values, c, lit, sizeLimit);
          return;
        }
        if count > maxCount {
          maxCount := count;
        }
        f := f.(lits := f.lits + [lit]);
      }
      assert c[..|c|] == c;
      if size < 3 {
        return;
      }
      var arity := size - 1;
      if maxCount < arity {
        RarelyCounted(watches, counts, closure.ms, closure.s.values, c, sizeLimit, maxCount);
        return;
      }
      ImpliedClause(f.clauses, ref, closure.ms);
      UnassignedBase(closure.s, closure.ms, c);
      return true;
    }

    /** Marks the negated literals and moves those with too few binary clauses to the front. */
    method MarkBase() returns (reduced: nat)
      requires Valid() && BaseOK(f.lits, |watches|, closure.ms)
      modifies this`f
      ensures Trying() && f == old(f).(marks := f.marks, lits := f.lits)
      ensures Parted(counts, old(f).lits, f.lits, reduced, |f.lits|)
    {
      hide C.Order, C.Tidy, C.UnitsDone, C.Connected, C.Base, C.GatesOK, C.OccurrencesOK, TableOK,
           BinariesOK, BaseOK, Neg, ClausesImplied, ClausesProper, Marking,
           Parted, Reordered;
      ghost var lits := f.lits;
      var arity := |f.lits| - 1;
      BaseBounds(watches, counts, f.lits, closure.ms);
      reduced := 0;
      MarkingStart(f, |watches|);
      PartedStart(counts, f.lits);
      for p := 0 to |f.lits|
        invariant f == old(f).(marks := f.marks, lits := f.lits) && Marking(f, |watches|, p)
        invariant |f.lits| == |lits| && reduced <= p && Parted(counts, lits, f.lits, reduced, p)
      {
        PartedReordered(counts, lits, f.lits, reduced, p);
        BoundsReordered(lits, f.lits, |watches|);
        assert f.lits[p] in f.lits;
        MarkingNext(f, |watches|, p);
        PartedNext(counts, lits, f.lits, reduced, p);
        var lit := f.lits[p];
        var count := counts[lit];
        var notLit := Neg(lit);
        f := f.(marks := f.marks[notLit := Mark(true, false, false)]);
        if count < arity {
          if reduced < p {
            MarkingSwap(f, |watches|, reduced, p);
            var other := f.lits[reduced];
            f := f.(lits := f.lits[p := other]);
            f := f.(lits := f.lits[reduced := lit]);
          }
          reduced := reduced + 1;
        }
      }
      PartedReordered(counts, lits, f.lits, reduced, |f.lits|);
      MarkingDone(f, lits, |watches|, closure.ms);
    }

    /** Orders the possible outputs by the number of their binary clauses. */
    method SortByCount(reduced: nat)
      requires Trying() && Parted(counts, f.lits, f.lits, reduced, |f.lits|)
      modifies this`f
      ensures Trying() && f == old(f).(lits := f.lits) && Parted(counts, old(f).lits, f.lits, reduced, |f.lits|)
      ensures forall i, j :: reduced <= i < j < |f.lits| ==> !SmallerCount(counts, f.lits[j], f.lits[i])
    {
      hide C.Order, C.Tidy, C.UnitsDone, C.Connected, C.Base, C.GatesOK, C.OccurrencesOK, TableOK,
           BinariesOK, BaseOK, MarksOK, Parted, SortedTo, SmallerCount;
      PartedBound(counts, f.lits, reduced);
      CountsSize(watches, counts, closure.ms);
      SortedStart(counts, f.lits, reduced);
      for p := reduced to |f.lits|
        invariant f == old(f).(lits := f.lits) && |f.lits| == |old(f).lits|
        invariant Parted(counts, old(f).lits, f.lits, reduced, |f.lits|)
        invariant MarksOK(f, |watches|) && BaseOK(f.lits, |watches|, closure.ms) && SortedTo(counts, f.lits, reduced, p)
      {
        InsertOutput(old(f).lits, reduced, p);
      }
      SortedAll(counts, f.lits, reduced);
    }

    /** Moves one more output to its place among those before it. */
    method InsertOutput(ghost lits0: seq<Lit>, reduced: nat, p: nat)
      requires MarksOK(f, |watches|) && BaseOK(f.lits, |watches|, closure.ms) && reduced <= p < |f.lits|
      requires |counts| == |watches|
      requires SortedTo(counts, f.lits, reduced, p) && Parted(counts, lits0, f.lits, reduced, |f.lits|)
      modifies this`f
      ensures MarksOK(f, |watches|) && BaseOK(f.lits, |watches|, closure.ms) && SortedTo(counts, f.lits, reduced, p + 1)
      ensures f == old(f).(lits := f.lits) && |f.lits| == |old(f).lits|
      ensures Parted(counts, lits0, f.lits, reduced, |f.lits|)
    {
      hide BaseOK, MarksOK, Parted, SmallerIn, SortedTo, Inserting, Reordered, Swap;
      var q := p;
      BaseProper(f.lits, |watches|, closure.ms);
      InsertingStart(counts, f.lits, reduced, p);
      while q > reduced && SmallerIn(counts, f.lits, q)
        invariant reduced <= q <= p && f == old(f).(lits := f.lits) && |f.lits| == |old(f).lits|
        invariant MarksOK(f, |watches|) && BaseOK(f.lits, |watches|, closure.ms)
        invariant Inserting(counts, f.lits, reduced, p, q)
        invariant Parted(counts, lits0, f.lits, reduced, |f.lits|)
      {
        SwapParted(counts, lits0, f.lits, reduced, q - 1, q);
        InsertingNext(counts, f.lits, reduced, p, q);
        MarksReordered(f, Swap(f.lits, q - 1, q), |watches|);
        BaseReordered(f.lits, Swap(f.lits, q - 1, q), |watches|, closure.ms);
        f := f.(lits := Swap(f.lits, q - 1, q));
        q := q - 1;
      }
      InsertingDone(counts, f.lits, reduced, p, q);
    }

    /**
      Tries the literals of a base clause as outputs, candidates first seen and then filtered.  Unless the closure
      becomes inconsistent, exactly the gates defined by the base clause and binary clauses are entered.
     */
    method TryOutputs(ref: nat, reduced: nat) returns (ghost tried: set<Lit>)
      requires Trying() && !closure.s.inconsistent && f.marked == [] && ref < |f.clauses| && !f.clauses[ref].garbage
      requires Parted(counts, f.lits, f.lits, reduced, |f.lits|)
      modifies this`f, closure`s, closure.index`t
      ensures Trying() && Moved(old(closure.s), old(closure.index.t).gates, closure.s, closure.index.t.gates)
      ensures f == old(f).(marks := f.marks, marked := f.marked)
      ensures forall l :: l in tried ==> l in f.lits && Full(watches, f.lits, l)
      ensures forall l :: l in tried ==> C.Present(closure.s, closure.index.t.gates, C.AndGate(l, f.lits))
      ensures !closure.s.inconsistent ==> forall l :: l in f.lits && Full(watches, f.lits, l) ==> l in tried
    {
      hide C.Order, C.Tidy, C.UnitsDone, C.Connected, C.Base, C.GatesOK, C.OccurrencesOK, TableOK,
           BinariesOK, BaseOK, MarksOK, Parted,
           Full, C.Present, C.AndGate, Moved,
           Hits, Again;
      MovedRefl(closure.s, closure.index.t.gates, closure.ms);
      tried := {};
      var first, p := true, reduced;
      PartedBound(counts, f.lits, reduced);
      TriedStart(watches, counts, f.lits, reduced, closure.ms);
      while p < |f.lits|
        invariant reduced <= p <= |f.lits| && Trying() && f == old(f).(marks := f.marks, marked := f.marked)
        invariant Moved(old(closure.s), old(closure.index.t).gates, closure.s, closure.index.t.gates)
        invariant if first then p == reduced && f.marked == [] else Promising(watches, f.lits, f.marked, p)
        invariant Tried(watches, f.lits, tried, p)
        invariant forall l :: l in tried ==> C.Present(closure.s, closure.index.t.gates, C.AndGate(l, f.lits))
      {
        if closure.s.inconsistent {
          break;
        }
        if f.clauses[ref].garbage {
          break;
        }
        var lhs := f.lits[p];
        ghost var s1, gates1, marked1 := closure.s, closure.index.t.gates, f.marked;
        ghost var t;
        if first {
          first := false;
          t := FindFirst(lhs);
          PromisingFirst(watches, counts, f.lits, p, closure.ms);
        } else if f.marked == [] {
          NonePromising(watches, f.lits, tried, p);
          break;
        } else {
          t := FindRemaining(lhs);
          PromisingNext(watches, counts, f.lits, marked1, p, closure.ms);
        }
        TriedNext(watches, f.lits, tried, p, t);
        StillPresent(s1, gates1, closure.s, closure.index.t.gates, f.lits, tried);
        MovedTrans(old(closure.s), old(closure.index.t).gates, s1, gates1, closure.s, closure.index.t.gates);
        if t {
          tried := tried + {lhs};
        }
        p := p + 1;
      }
    }

    /** Enters a gate if there are enough matching binary clauses. */
    method TryOutput(lhs: Lit, matched: nat) returns (ghost tried: bool)
      requires Trying() && !closure.s.inconsistent && lhs in f.lits
      requires matched >= |f.lits| - 1 <==> Full(watches, f.lits, lhs)
      modifies closure`s, closure.index`t
      ensures Trying() && Moved(old(closure.s), old(closure.index.t).gates, closure.s, closure.index.t.gates)
      ensures tried <==> Full(watches, f.lits, lhs)
      ensures tried ==> C.Present(closure.s, closure.index.t.gates, C.AndGate(lhs, f.lits))
    {
      hide C.Order, C.Tidy, C.UnitsDone, C.Connected, C.Base, C.GatesOK, C.OccurrencesOK, TableOK,
           C.Advanced, C.Coarser, C.GatesKept,
           C.Present, C.AndGate, MarksOK,
           BinariesOK, BaseOK, Full;
      MovedRefl(closure.s, closure.index.t.gates, closure.ms);
      ListFacts(watches, counts, f.lits, lhs, closure.ms);
      var arity := |f.lits| - 1;
      if matched < arity {
        return false;
      }
      GateFollows(watches, counts, f.lits, lhs, closure.ms);
      var g := closure.NewAndGate(lhs, f.lits);
      SameNumber(old(closure.s), closure.s);
      return true;
    }

    /** Tries the first output, and collects the literals that may be outputs, too. */
    method FindFirst(lhs: Lit) returns (ghost tried: bool)
      requires Trying() && !closure.s.inconsistent && lhs in f.lits && f.marked == []
      modifies this`f, closure`s, closure.index`t
      ensures Trying() && Moved(old(closure.s), old(closure.index.t).gates, closure.s, closure.index.t.gates)
      ensures f == old(f).(marks := f.marks, marked := f.marked)
      ensures Neg(lhs) < |watches| && f.marked == Hits(f.lits, watches[Neg(lhs)], |watches[Neg(lhs)]|)
      ensures tried <==> Full(watches, f.lits, lhs)
      ensures tried ==> C.Present(closure.s, closure.index.t.gates, C.AndGate(lhs, f.lits))
    {
      hide C.Order, C.Tidy, C.UnitsDone, C.Connected, C.Base, C.GatesOK, C.OccurrencesOK,
           TableOK, BinariesOK, BaseOK, Full, Hits;
      ListFacts(watches, counts, f.lits, lhs, closure.ms);
      var list := watches[Neg(lhs)];
      var matched := 0;
      HittingStart(f, list);
      for p := 0 to |list|
        invariant Hitting(old(f), f, list, p) && matched == |f.marked|
        invariant closure.s == old(closure.s) && closure.index.t == old(closure.index.t)
      {
        var other := list[p];
        assert other in list;
        HittingNext(old(f), f, list, p);
        if f.marks[other].base {
          matched := matched + 1;
          f := f.(marks := f.marks[other := f.marks[other].(candidate := true)]);
          f := f.(marked := f.marked + [other]);
        }
      }
      HittingDone(old(f), f, list);
      CountHits(watches, f.lits, lhs);
      tried := TryOutput(lhs, matched);
    }

    /** Tries another output if it is a candidate still, and keeps the candidates seen again. */
    method FindRemaining(lhs: Lit) returns (ghost tried: bool)
      requires Trying() && !closure.s.inconsistent && lhs in f.lits
      modifies this`f, closure`s, closure.index`t
      ensures Trying() && Moved(old(closure.s), old(closure.index.t).gates, closure.s, closure.index.t.gates)
      ensures f == old(f).(marks := f.marks, marked := f.marked)
      ensures Neg(lhs) !in old(f).marked ==> f == old(f) && !tried
      ensures Neg(lhs) in old(f).marked ==>
                Neg(lhs) < |watches| && f.marked == Again(old(f).marked, watches[Neg(lhs)], Neg(lhs))
      ensures Neg(lhs) in old(f).marked ==> (tried <==> Full(watches, f.lits, lhs))
      ensures tried ==> C.Present(closure.s, closure.index.t.gates, C.AndGate(lhs, f.lits))
    {
      hide C.Order, C.Tidy, C.UnitsDone, C.Connected, C.Base, C.GatesOK, C.OccurrencesOK,
           TableOK, BinariesOK, BaseOK, Full, Again;
      ListFacts(watches, counts, f.lits, lhs, closure.ms);
      var notLhs := Neg(lhs);
      if !f.marks[notLhs].candidate {
        MovedRefl(closure.s, closure.index.t.gates, closure.ms);
        return false;
      }
      var matched := SeeCandidates(notLhs);
      FilterCandidates(old(f), notLhs);
      CountHits(watches, f.lits, lhs);
      tried := TryOutput(lhs, matched);
    }

    /** Counts the matching binary clauses, and marks the candidates among them. */
    method SeeCandidates(notLhs: Lit) returns (matched: nat)
      requires MarksOK(f, |watches|) && notLhs < |watches| && forall o :: o in watches[notLhs] ==> o < |watches|
      modifies this`f
      ensures Seeing(old(f), f, watches[notLhs], |watches[notLhs]|)
      ensures matched == |Hits(f.lits, watches[notLhs], |watches[notLhs]|)|
    {
      hide Neg;
      var list := watches[notLhs];
      matched := 0;
      for p := 0 to |list|
        invariant Seeing(old(f), f, list, p) && matched == |Hits(f.lits, list, p)|
      {
        var other := list[p];
        assert other in list;
        SeeingNext(old(f), f, list, p);
        var mark := f.marks[other];
        if !mark.base {
          continue;
        }
        matched := matched + 1;
        if !mark.candidate {
          continue;
        }
        f := f.(marks := f.marks[other := mark.(again := true)]);
      }
    }

    /** Drops the candidates that were not seen again, in place. */
    method FilterCandidates(ghost f0: Finder, notLhs: Lit)
      requires MarksOK(f0, |watches|) && notLhs < |watches| && Seeing(f0, f, watches[notLhs], |watches[notLhs]|)
      requires notLhs !in watches[notLhs]
      modifies this`f
      ensures MarksOK(f, |watches|) && f == f0.(marks := f.marks, marked := Again(f0.marked, watches[notLhs], notLhs))
    {
      hide Neg, Again, Seeing, MarksOK;
      var p, q := 0, 0;
      ghost var list := watches[notLhs];
      FilteringStart(f0, f, list, notLhs);
      MarksSize(f0, |watches|);
      while p < |f.marked|
        invariant Filtering(f0, f, list, notLhs, p, q)
      {
        FilteringNext(f0, f, list, notLhs, p, q);
        var lit := f.marked[p];
        p := p + 1;
        if lit == notLhs {
          f := f.(marks := f.marks[lit := Mark(true, false, false)]);
          continue;
        }
        if f.marks[lit].again {
          f := f.(marks := f.marks[lit := Mark(true, true, false)]);
          f := f.(marked := f.marked[q := lit]);
          q := q + 1;
        } else {
          f := f.(marks := f.marks[lit := Mark(true, false, false)]);
        }
      }
      FilteringDone(f0, f, list, notLhs, q);
      f := f.(marked := f.marked[..q]);
    }

    /** Clears all marks. */
    method Unmark()
      requires Trying()
      modifies this`f
      ensures f == old(f).(marks := seq(|watches|, _ => UNMARKED), marked := [])
    {
      hide C.Order, C.Tidy, C.UnitsDone, C.Connected, C.Base, C.GatesOK, C.OccurrencesOK, TableOK,
           BinariesOK, BaseOK, Neg, Unmarking, MarksOK;
      BaseBounds(watches, counts, f.lits, closure.ms);
      UnmarkingStart(f, |watches|);
      for p := 0 to |f.lits|
        invariant f == old(f).(marks := f.marks) && Unmarking(old(f), f, |watches|, p)
      {
        assert f.lits[p] in f.lits;
        UnmarkingNext(old(f), f, |watches|, p);
        var notLit := Neg(f.lits[p]);
        f := f.(marks := f.marks[notLit := UNMARKED]);
      }
      UnmarkingDone(old(f), f, |watches|);
      f := f.(marked := []);
    }

    /**
      Enters the AND gates of a clause: their outputs are exactly the unassigned literals for which all binary
      clauses are there, unless the clause is satisfied, too small or too large, or an inconsistency is found.
     */
    method Extract(ref: nat, arityLimit: nat) returns (ghost tried: set<Lit>)
      requires Valid() && !closure.s.inconsistent && ref < |f.clauses| && !f.clauses[ref].garbage
      modifies this`f, closure`s, closure.index`t
      ensures Valid() && Moved(old(closure.s), old(closure.index.t).gates, closure.s, closure.index.t.gates)
      ensures forall l :: l in tried ==> C.Present(closure.s, closure.index.t.gates, C.AndGate(l, f.lits))
      ensures Outputs(old(closure.s).values, old(f).clauses[ref].lits, watches, arityLimit,
                      f.lits, tried, closure.s.inconsistent)
    {
      hide C.Order, C.Tidy, C.UnitsDone, C.Connected, C.Base, C.GatesOK, C.OccurrencesOK, TableOK,
           BinariesOK, BaseOK, MarksOK, Parted,
           ClausesImplied, ClausesProper, Moved,
           NoBase, Unassigned, Full, C.Present, C.AndGate, Outputs;
      MovedRefl(closure.s, closure.index.t.gates, closure.ms);
      tried := {};
      ghost var values, c := closure.s.values, f.clauses[ref].lits;
      var ok := ReadBase(ref, arityLimit + 1);
      if !ok {
        NoOutputs(values, c, watches, arityLimit, f.lits, closure.s.inconsistent);
        return;
      }
      var reduced := MarkBase();
      ghost var lits := f.lits;
      PartedAgain(counts, Unassigned(values, c), f.lits, reduced);
      SortByCount(reduced);
      SortedParts(counts, Unassigned(values, c), lits, f.lits, reduced);
      tried := TryOutputs(ref, reduced);
      SameOutputs(values, c, watches, arityLimit, f.lits, tried, closure.s.inconsistent);
      Unmark();
      MovedNumber(old(closure.s), old(closure.index.t).gates, closure.s, closure.index.t.gates);
    }
  }

  lemma MarksSize(f: Finder, n: nat)
    requires MarksOK(f, n)
    ensures |f.marks| == n
  {
  }

  // ------------------------------------------------------------------ base clauses

  /** The clause without its falsified literals is implied, if none of its literals is true. */
  lemma UnassignedBase(s: C.State, ms: iset<Model>, c: seq<Lit>)
    requires C.Base(s, ms) && Implied(ms, c) && Proper(|s.values|, c) && forall l :: l in c ==> s.values[l] <= 0
    requires |Unassigned(s.values, c)| > 2
    ensures BaseOK(Unassigned(s.values, c), |s.values|, ms)
  {
    UnassignedMembers(s.values, c);
    var base := Unassigned(s.values, c);
    assert forall i :: 0 <= i < |base| ==> base[i] in base;
    forall m | m in ms ensures Sat(m, base) {
      assert C.ModelOf(m, s) && Sat(m, c);
      var l :| l in c && Holds(m, l);
      assert !False(s.values, l);
    }
  }

  /** Why a clause is no base: satisfied, too large, too small, or there are no gates. */
  ghost predicate NoBase(values: seq<int>, c: seq<Lit>, sizeLimit: nat, watches: seq<seq<Lit>>) {
    var base := Unassigned(values, c);
    || (exists l :: l in c && True(values, l))
    || |base| > sizeLimit || |base| < 3
    || (forall lhs :: lhs in base ==> !Full(watches, base, lhs))
  }

  lemma {:induction false} HitsLength(lits: seq<Lit>, list: seq<Lit>, k: nat)
    requires k <= |list|
    ensures |Hits(lits, list, k)| <= k
  {
    if k > 0 {
      HitsLength(lits, list, k - 1);
    }
  }

  /** An output has at least as many binary clauses as the gate has inputs. */
  lemma EnoughCounted(watches: seq<seq<Lit>>, counts: seq<nat>, ms: iset<Model>, lits: seq<Lit>, lhs: Lit)
    requires BinariesOK(watches, counts, ms) && DistinctVars(lits) && lhs in lits && lhs < |watches|
    requires Full(watches, lits, lhs)
    ensures counts[lhs] >= |lits| - 1
  {
    hide Full, Neg;
    assert CountOK(watches, counts, lhs) && ListOK(watches, Neg(lhs), ms);
    CountHits(watches, lits, lhs);
    HitsLength(lits, watches[Neg(lhs)], |watches[Neg(lhs)]|);
  }

  /** A literal whose negation is in no binary clause rules out all outputs. */
  lemma NotCounted(watches: seq<seq<Lit>>, counts: seq<nat>, ms: iset<Model>, lits: seq<Lit>, l: Lit, lhs: Lit)
    requires BinariesOK(watches, counts, ms) && DistinctVars(lits) && |lits| >= 3
    requires forall k :: k in lits ==> k < |watches|
    requires l in lits && counts[l] == 0 && lhs in lits
    ensures !Full(watches, lits, lhs)
  {
    hide Neg;
    assert CountOK(watches, counts, l) && CountOK(watches, counts, lhs);
    if lhs == l {
      var k := if lits[0] != l then lits[0] else lits[1];
      assert k in lits && k != l;
    } else {
      assert ListOK(watches, Neg(lhs), ms);
    }
  }

  // ------------------------------------------------------------------ marking and reordering the base

  /** The first p literals have been marked. */
  ghost predicate Marking(f: Finder, n: nat, p: nat) {
    && p <= |f.lits| && |f.marks| == n && f.marked == []
    && (forall k: nat :: k < n ==> f.marks[k] == Mark(Neg(k) in f.lits[..p], false, false))
  }

  lemma MarkingStart(f: Finder, n: nat)
    requires f.marked == [] && f.marks == seq(n, _ => UNMARKED)
    ensures Marking(f, n, 0)
  {
  }

  lemma MarkingNext(f: Finder, n: nat, p: nat)
    requires Marking(f, n, p) && p < |f.lits| && f.lits[p] < n && n % 2 == 0
    ensures Neg(f.lits[p]) < n == |f.marks|
    ensures Marking(f.(marks := f.marks[Neg(f.lits[p]) := Mark(true, false, false)]), n, p + 1)
  {
    var lit := f.lits[p];
    HoldsNeg(iset{}, lit);
    assert Neg(lit) < n;
    hide Neg;
    assert f.lits[..p + 1] == f.lits[..p] + [lit];
    assert forall l :: l in f.lits[..p + 1] <==> l in f.lits[..p] || l == lit;
    forall k: nat | k < n ensures Neg(k) == lit <==> k == Neg(lit) {
      HoldsNeg(iset{}, k);
    }
  }

  lemma MarkingSwap(f: Finder, n: nat, r: nat, p: nat)
    requires Marking(f, n, p + 1) && r < p < |f.lits|
    ensures f.lits[p := f.lits[r]][r := f.lits[p]] == Swap(f.lits, r, p)
    ensures Marking(f.(lits := Swap(f.lits, r, p)), n, p + 1)
  {
    hide Neg;
    var lits' := Swap(f.lits, r, p);
    assert lits'[..p + 1] == Swap(f.lits[..p + 1], r, p);
    SwapSame(f.lits[..p + 1], r, p);
    SameMembers(lits'[..p + 1], f.lits[..p + 1]);
  }

  /** The same literals in another order. */
  ghost predicate Reordered(c: seq<Lit>, d: seq<Lit>) {
    multiset(c) == multiset(d) && (DistinctVars(c) ==> DistinctVars(d))
  }

  lemma ReorderedSwap(c: seq<Lit>, d: seq<Lit>, i: nat, j: nat)
    requires Reordered(c, d) && i < |d| && j < |d|
    ensures Reordered(c, Swap(d, i, j))
  {
    SwapSame(d, i, j);
  }

  lemma BaseReordered(lits: seq<Lit>, lits': seq<Lit>, n: nat, ms: iset<Model>)
    requires Reordered(lits, lits') && BaseOK(lits, n, ms)
    ensures BaseOK(lits', n, ms)
  {
    SameMembers(lits, lits');
    forall m | m in ms ensures Sat(m, lits') {
      assert Sat(m, lits);
    }
    forall i | 0 <= i < |lits'| ensures lits'[i] < n {
      assert lits'[i] in lits;
    }
  }

  lemma MarksReordered(f: Finder, lits: seq<Lit>, n: nat)
    requires MarksOK(f, n) && multiset(f.lits) == multiset(lits)
    ensures MarksOK(f.(lits := lits), n)
  {
    hide Neg;
    SameMembers(f.lits, lits);
  }

  lemma MarkingDone(f: Finder, lits: seq<Lit>, n: nat, ms: iset<Model>)
    requires Marking(f, n, |f.lits|) && n % 2 == 0 && Reordered(lits, f.lits) && BaseOK(lits, n, ms)
    ensures MarksOK(f, n) && BaseOK(f.lits, n, ms)
  {
    hide Neg;
    assert f.lits[..|f.lits|] == f.lits;
    BaseReordered(lits, f.lits, n, ms);
  }

  /** The first r literals have too few binary clauses, those from there to position p have enough. */
  ghost predicate Parted(counts: seq<nat>, lits0: seq<Lit>, lits: seq<Lit>, r: nat, p: nat) {
    && Reordered(lits0, lits) && r <= p <= |lits|
    && (forall i :: 0 <= i < p ==> lits[i] < |counts|)
    && (forall i :: 0 <= i < r ==> counts[lits[i]] < |lits| - 1)
    && (forall i :: r <= i < p ==> counts[lits[i]] >= |lits| - 1)
  }

  lemma PartedNext(counts: seq<nat>, lits0: seq<Lit>, lits: seq<Lit>, r: nat, p: nat)
    requires Parted(counts, lits0, lits, r, p) && p < |lits| && lits[p] < |counts|
    ensures if counts[lits[p]] < |lits| - 1 then Parted(counts, lits0, Swap(lits, r, p), r + 1, p + 1)
            else Parted(counts, lits0, lits, r, p + 1)
    ensures Swap(lits, p, p) == lits
  {
    hide Reordered;
    ReorderedSwap(lits0, lits, r, p);
  }

  lemma BaseBounds(watches: seq<seq<Lit>>, counts: seq<nat>, lits: seq<Lit>, ms: iset<Model>)
    requires BinariesOK(watches, counts, ms) && BaseOK(lits, |watches|, ms)
    ensures |counts| == |watches| && |watches| % 2 == 0 && forall l :: l in lits ==> l < |watches|
    ensures forall l: nat {:trigger Neg(l)} :: l < |watches| ==> Neg(l) < |watches|
  {
    forall l: nat | l < |watches| ensures Neg(l) < |watches| {
      assert CountOK(watches, counts, l);
    }
  }

  lemma BoundsReordered(lits: seq<Lit>, lits': seq<Lit>, n: nat)
    requires Reordered(lits, lits') && forall l :: l in lits ==> l < n
    ensures |lits'| == |lits| && forall l :: l in lits' ==> l < n
  {
    SameMembers(lits, lits');
  }

  // ------------------------------------------------------------------ sorting the outputs

  predicate SmallerCount(counts: seq<nat>, a: Lit, b: Lit) {
    a < |counts| && b < |counts| && (counts[a] < counts[b] || (counts[a] == counts[b] && a < b))
  }

  predicate SmallerIn(counts: seq<nat>, lits: seq<Lit>, q: nat)
    requires 0 < q < |lits|
  {
    SmallerCount(counts, lits[q], lits[q - 1])
  }

  ghost predicate SortedTo(counts: seq<nat>, lits: seq<Lit>, r: nat, p: nat) {
    p <= |lits| && forall i, j :: r <= i < j < p ==> !SmallerCount(counts, lits[j], lits[i])
  }

  /** The literals up to position p are sorted but for that at position q, which is too far behind. */
  ghost predicate Inserting(counts: seq<nat>, lits: seq<Lit>, r: nat, p: nat, q: nat) {
    && r <= q <= p < |lits| && (forall i :: r <= i <= p ==> lits[i] < |counts|)
    && (forall i, j :: r <= i < j <= p && i != q && j != q ==> !SmallerCount(counts, lits[j], lits[i]))
    && (forall j :: q < j <= p ==> !SmallerCount(counts, lits[j], lits[q]))
  }

  lemma BaseProper(lits: seq<Lit>, n: nat, ms: iset<Model>)
    requires BaseOK(lits, n, ms)
    ensures Proper(n, lits)
  {
  }

  lemma SortedStart(counts: seq<nat>, lits: seq<Lit>, r: nat)
    requires r <= |lits|
    ensures SortedTo(counts, lits, r, r)
  {
  }

  lemma InsertingStart(counts: seq<nat>, lits: seq<Lit>, r: nat, p: nat)
    requires SortedTo(counts, lits, r, p) && r <= p < |lits| && Proper(|counts|, lits)
    ensures Inserting(counts, lits, r, p, p)
  {
  }

  lemma InsertingNext(counts: seq<nat>, lits: seq<Lit>, r: nat, p: nat, q: nat)
    requires Inserting(counts, lits, r, p, q) && q > r && SmallerIn(counts, lits, q)
    ensures Inserting(counts, Swap(lits, q - 1, q), r, p, q - 1)
  {
  }

  lemma InsertingDone(counts: seq<nat>, lits: seq<Lit>, r: nat, p: nat, q: nat)
    requires Inserting(counts, lits, r, p, q) && (q > r ==> !SmallerIn(counts, lits, q))
    ensures SortedTo(counts, lits, r, p + 1)
  {
    forall i | r <= i < q ensures !SmallerCount(counts, lits[q], lits[i]) {
      assert i < q - 1 ==> !SmallerCount(counts, lits[q - 1], lits[i]);
    }
  }

  lemma SortedAll(counts: seq<nat>, lits: seq<Lit>, r: nat)
    requires SortedTo(counts, lits, r, |lits|)
    ensures forall i, j :: r <= i < j < |lits| ==> !SmallerCount(counts, lits[j], lits[i])
  {
  }

  lemma SwapParted(counts: seq<nat>, lits0: seq<Lit>, lits: seq<Lit>, r: nat, i: nat, j: nat)
    requires r <= i < |lits| && r <= j < |lits| && Parted(counts, lits0, lits, r, |lits|)
    ensures Reordered(lits, Swap(lits, i, j)) && multiset(lits) == multiset(Swap(lits, i, j))
    ensures Parted(counts, lits0, Swap(lits, i, j), r, |lits|)
  {
    SwapSame(lits, i, j);
  }

  // ------------------------------------------------------------------ trying the outputs

  /** The outputs before position p have been tried if all binary clauses are there. */
  ghost predicate Tried(watches: seq<seq<Lit>>, lits: seq<Lit>, tried: set<Lit>, p: nat) {
    && p <= |lits| && (forall l :: l in tried ==> l in lits && Full(watches, lits, l))
    && (forall i :: 0 <= i < p && Full(watches, lits, lits[i]) ==> lits[i] in tried)
  }

  /** All outputs from position p on with all binary clauses are candidates. */
  ghost predicate Promising(watches: seq<seq<Lit>>, lits: seq<Lit>, marked: seq<Lit>, p: nat) {
    forall i :: p <= i < |lits| && Full(watches, lits, lits[i]) ==> Neg(lits[i]) in marked
  }

  lemma PartedBound(counts: seq<nat>, lits: seq<Lit>, r: nat)
    requires Parted(counts, lits, lits, r, |lits|)
    ensures r <= |lits|
  {
  }

  lemma TriedStart(watches: seq<seq<Lit>>, counts: seq<nat>, lits: seq<Lit>, r: nat, ms: iset<Model>)
    requires BinariesOK(watches, counts, ms) && BaseOK(lits, |watches|, ms) && Parted(counts, lits, lits, r, |lits|)
    ensures Tried(watches, lits, {}, r)
  {
    forall i | 0 <= i < r ensures !Full(watches, lits, lits[i]) {
      if Full(watches, lits, lits[i]) {
        EnoughCounted(watches, counts, ms, lits, lits[i]);
      }
    }
  }

  lemma TriedNext(watches: seq<seq<Lit>>, lits: seq<Lit>, tried: set<Lit>, p: nat, t: bool)
    requires Tried(watches, lits, tried, p) && p < |lits| && (t <==> Full(watches, lits, lits[p]))
    ensures Tried(watches, lits, if t then tried + {lits[p]} else tried, p + 1)
  {
  }

  /** If two outputs have all binary clauses, each is a candidate when the other one is tried. */
  lemma OtherOutput(watches: seq<seq<Lit>>, counts: seq<nat>, lits: seq<Lit>, k: Lit, l: Lit, ms: iset<Model>)
    requires BinariesOK(watches, counts, ms) && BaseOK(lits, |watches|, ms) && k in lits && l in lits && k != l
    requires Full(watches, lits, l)
    ensures Neg(k) < |watches| && Neg(l) in watches[Neg(k)]
  {
    hide Neg, Var;
    assert ListOK(watches, Neg(l), ms);
    assert Neg(k) in watches[Neg(l)];
  }

  lemma PromisingFirst(watches: seq<seq<Lit>>, counts: seq<nat>, lits: seq<Lit>, p: nat, ms: iset<Model>)
    requires BinariesOK(watches, counts, ms) && BaseOK(lits, |watches|, ms) && p < |lits| && Neg(lits[p]) < |watches|
    ensures Promising(watches, lits, Hits(lits, watches[Neg(lits[p])], |watches[Neg(lits[p])]|), p + 1)
  {
    hide Neg, Hits, BinariesOK, Full;
    var list := watches[Neg(lits[p])];
    HitsMembers(lits, list, |list|);
    assert list[..|list|] == list;
    forall i | p < i < |lits| && Full(watches, lits, lits[i]) ensures Neg(lits[i]) in Hits(lits, list, |list|) {
      DifferentAt(lits, p, i);
      OtherOutput(watches, counts, lits, lits[p], lits[i], ms);
      HoldsNeg(iset{}, lits[i]);
    }
  }

  lemma DifferentAt(lits: seq<Lit>, i: nat, j: nat)
    requires DistinctVars(lits) && i < j < |lits|
    ensures lits[i] != lits[j] && Neg(lits[i]) != Neg(lits[j]) && lits[i] in lits && lits[j] in lits
  {
    HoldsNeg(iset{}, lits[i]);
    HoldsNeg(iset{}, lits[j]);
  }

  lemma PromisingNext(watches: seq<seq<Lit>>, counts: seq<nat>, lits: seq<Lit>, marked: seq<Lit>,
                      p: nat, ms: iset<Model>)
    requires BinariesOK(watches, counts, ms) && BaseOK(lits, |watches|, ms) && p < |lits|
    requires Promising(watches, lits, marked, p)
    ensures Promising(watches, lits, marked, p + 1)
    ensures Neg(lits[p]) < |watches| ==>
              Promising(watches, lits, Again(marked, watches[Neg(lits[p])], Neg(lits[p])), p + 1)
    ensures Neg(lits[p]) !in marked ==> !Full(watches, lits, lits[p])
  {
    hide Neg, Again, BinariesOK, Full;
    if Neg(lits[p]) < |watches| {
      AgainMembers(marked, watches[Neg(lits[p])], Neg(lits[p]));
      forall i | p < i < |lits| && Full(watches, lits, lits[i])
        ensures Neg(lits[i]) in Again(marked, watches[Neg(lits[p])], Neg(lits[p]))
      {
        DifferentAt(lits, p, i);
        OtherOutput(watches, counts, lits, lits[p], lits[i], ms);
      }
    }
  }

  lemma NonePromising(watches: seq<seq<Lit>>, lits: seq<Lit>, tried: set<Lit>, p: nat)
    requires Promising(watches, lits, [], p) && Tried(watches, lits, tried, p)
    ensures forall l :: l in lits && Full(watches, lits, l) ==> l in tried
  {
  }

  lemma StillPresent(s0: C.State, gates0: seq<Gate>, s: C.State, gates: seq<Gate>, lits: seq<Lit>, tried: set<Lit>)
    requires Moved(s0, gates0, s, gates)
    requires forall l :: l in tried ==> C.Present(s0, gates0, C.AndGate(l, lits))
    ensures forall l :: l in tried ==> C.Present(s, gates, C.AndGate(l, lits))
  {
    forall l | l in tried ensures C.Present(s, gates, C.AndGate(l, lits)) {
      C.PresentKeeps(s0, s, gates0, gates, C.AndGate(l, lits));
    }
  }

  lemma EvenPairs(binaries: seq<(Lit, Lit)>, n: nat, ms: iset<Model>)
    requires PairsOK(binaries, n, ms)
    ensures n % 2 == 0
  {
  }

  lemma ConnectedStart(watches: seq<seq<Lit>>, binaries: seq<(Lit, Lit)>)
    requires forall l :: 0 <= l < |watches| ==> watches[l] == []
    ensures Connected(watches, binaries, 0)
  {
  }

  lemma ConnectedAll(watches: seq<seq<Lit>>, binaries: seq<(Lit, Lit)>)
    requires Connected(watches, binaries, |binaries|)
    ensures forall l: nat, o: Lit :: l < |watches| ==> (o in watches[l] <==> (l, o) in binaries || (o, l) in binaries)
  {
    assert binaries[..|binaries|] == binaries;
    forall l: nat, o: Lit | l < |watches| ensures o in watches[l] <==> (l, o) in binaries || (o, l) in binaries {
      assert o in watches[l] <==> Joins(binaries, |binaries|, l, o);
    }
  }

  lemma WatchSteps(watches: seq<seq<Lit>>, l: Lit, o: Lit)
    requires l < |watches| && o < |watches| && l != o
    ensures watches[l := watches[l] + [o]][o := watches[o] + [l]] == Watch(watches, l, o)
  {
  }

  lemma CountsSize(watches: seq<seq<Lit>>, counts: seq<nat>, ms: iset<Model>)
    requires BinariesOK(watches, counts, ms)
    ensures |counts| == |watches|
  {
  }

  lemma UnassignedStart(values: seq<int>, c: seq<Lit>)
    ensures Unassigned(values, c[..0]) == []
  {
  }

  lemma GarbageImplied(clauses: seq<Clause>, ref: nat, ms: iset<Model>)
    requires ClausesImplied(clauses, ms) && ref < |clauses|
    ensures ClausesImplied(clauses[ref := clauses[ref].(garbage := true)], ms)
  {
  }

  lemma ImpliedClause(clauses: seq<Clause>, ref: nat, ms: iset<Model>)
    requires ClausesImplied(clauses, ms) && ref < |clauses| && !clauses[ref].garbage
    ensures Implied(ms, clauses[ref].lits)
  {
  }

  lemma Uncounted(watches: seq<seq<Lit>>, counts: seq<nat>, ms: iset<Model>, values: seq<int>,
                  c: seq<Lit>, l: Lit, sizeLimit: nat)
    requires BinariesOK(watches, counts, ms) && Proper(|watches|, c) && l in c && Free(values, l) && l < |counts|
    requires counts[l] == 0
    ensures NoBase(values, c, sizeLimit, watches)
  {
    hide BinariesOK, Full, Unassigned;
    UnassignedMembers(values, c);
    var base := Unassigned(values, c);
    if |base| >= 3 {
      forall lhs | lhs in base ensures !Full(watches, base, lhs) {
        NotCounted(watches, counts, ms, base, l, lhs);
      }
    }
  }

  lemma RarelyCounted(watches: seq<seq<Lit>>, counts: seq<nat>, ms: iset<Model>,
                      values: seq<int>, c: seq<Lit>, sizeLimit: nat,
                      maxCount: nat)
    requires BinariesOK(watches, counts, ms) && Proper(|watches|, c) && |counts| == |watches|
    requires forall l :: l in Unassigned(values, c) ==> l < |watches| && counts[l] <= maxCount
    requires maxCount < |Unassigned(values, c)| - 1
    ensures NoBase(values, c, sizeLimit, watches)
  {
    hide BinariesOK, Full, Unassigned;
    UnassignedMembers(values, c);
    var base := Unassigned(values, c);
    forall lhs | lhs in base ensures !Full(watches, base, lhs) {
      if Full(watches, base, lhs) {
        EnoughCounted(watches, counts, ms, base, lhs);
      }
    }
  }

  lemma PartedStart(counts: seq<nat>, lits: seq<Lit>)
    ensures Parted(counts, lits, lits, 0, 0)
  {
  }

  lemma PartedReordered(counts: seq<nat>, lits0: seq<Lit>, lits: seq<Lit>, r: nat, p: nat)
    requires Parted(counts, lits0, lits, r, p)
    ensures Reordered(lits0, lits)
  {
  }

  // ------------------------------------------------------------------ clearing the marks

  ghost predicate Unmarking(f0: Finder, f: Finder, n: nat, p: nat) {
    && p <= |f.lits| && |f.marks| == n
    && forall k: nat :: k < n ==>
         f.marks[k] == if Neg(k) in f.lits[..p] then UNMARKED else Mark(Neg(k) in f.lits, k in f0.marked, false)
  }

  lemma UnmarkingStart(f: Finder, n: nat)
    requires MarksOK(f, n)
    ensures Unmarking(f, f, n, 0)
  {
  }

  lemma UnmarkingNext(f0: Finder, f: Finder, n: nat, p: nat)
    requires Unmarking(f0, f, n, p) && p < |f.lits| && f.lits[p] < n && n % 2 == 0
    ensures Neg(f.lits[p]) < n == |f.marks|
    ensures Unmarking(f0, f.(marks := f.marks[Neg(f.lits[p]) := UNMARKED]), n, p + 1)
  {
    var lit := f.lits[p];
    HoldsNeg(iset{}, lit);
    assert Neg(lit) < n;
    hide Neg;
    assert f.lits[..p + 1] == f.lits[..p] + [lit];
    assert forall l :: l in f.lits[..p + 1] <==> l in f.lits[..p] || l == lit;
    forall k: nat | k < n ensures Neg(k) == lit <==> k == Neg(lit) {
      HoldsNeg(iset{}, k);
    }
  }

  lemma UnmarkingDone(f0: Finder, f: Finder, n: nat)
    requires MarksOK(f0, n) && f == f0.(marks := f.marks) && Unmarking(f0, f, n, |f.lits|)
    ensures f.marks == seq(n, _ => UNMARKED)
  {
    hide Neg;
    assert f.lits[..|f.lits|] == f.lits;
  }

  // ------------------------------------------------------------------ the outputs of a clause

  /** The outputs of a base clause. */
  ghost predicate Outputs(values: seq<int>, c: seq<Lit>, watches: seq<seq<Lit>>, arityLimit: nat, lits: seq<Lit>,
                          outputs: set<Lit>, inconsistent: bool) {
    var base := Unassigned(values, c);
    && (outputs != {} ==> multiset(lits) == multiset(base))
    && (forall l :: l in outputs ==> l in base && Full(watches, base, l))
    && (inconsistent || (exists l :: l in c && True(values, l)) || |base| < 3 || |base| > arityLimit + 1
        || forall l :: l in base && Full(watches, base, l) ==> l in outputs)
  }

  lemma NoOutputs(values: seq<int>, c: seq<Lit>, watches: seq<seq<Lit>>, arityLimit: nat,
                  lits: seq<Lit>, inconsistent: bool)
    requires NoBase(values, c, arityLimit + 1, watches)
    ensures Outputs(values, c, watches, arityLimit, lits, {}, inconsistent)
  {
  }

  lemma SameOutputs(values: seq<int>, c: seq<Lit>, watches: seq<seq<Lit>>, arityLimit: nat,
                    lits: seq<Lit>, tried: set<Lit>,
                    inconsistent: bool)
    requires multiset(Unassigned(values, c)) == multiset(lits)
    requires forall l :: l in tried ==> l in lits && Full(watches, lits, l)
    requires !inconsistent ==> forall l :: l in lits && Full(watches, lits, l) ==> l in tried
    ensures Outputs(values, c, watches, arityLimit, lits, tried, inconsistent)
  {
    hide Neg, Unassigned;
    var base := Unassigned(values, c);
    SameMembers(base, lits);
    forall l ensures Full(watches, base, l) <==> Full(watches, lits, l) {
    }
  }

  lemma PartedAgain(counts: seq<nat>, lits0: seq<Lit>, lits: seq<Lit>, r: nat)
    requires Parted(counts, lits0, lits, r, |lits|)
    ensures Parted(counts, lits, lits, r, |lits|) && multiset(lits0) == multiset(lits)
  {
  }

  lemma SortedParts(counts: seq<nat>, base: seq<Lit>, lits: seq<Lit>, lits': seq<Lit>, r: nat)
    requires multiset(base) == multiset(lits) && Parted(counts, lits, lits', r, |lits'|)
    ensures multiset(base) == multiset(lits') && Parted(counts, lits', lits', r, |lits'|)
  {
  }

  lemma MovedNumber(s0: C.State, gates0: seq<Gate>, s: C.State, gates: seq<Gate>)
    requires Moved(s0, gates0, s, gates)
    ensures |s.values| == |s0.values|
  {
  }
}
