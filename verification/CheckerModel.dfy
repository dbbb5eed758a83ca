/**
  The internal proof checker (check.c): stored lines with two watched literals, and what unit
  propagation over them keeps.
 */
module CheckerModel {
  import opened Literals
  import opened RootValues
  import opened Sequences

  /** A stored clause; removed ones are no longer live. */
  datatype Line = Line(lits: seq<Lit>, hash: nat, live: bool)

  datatype State = State(inconsistent: bool, lines: seq<Line>, watches: seq<seq<nat>>, values: seq<int>,
                         trail: seq<Lit>, propagated: nat, used: seq<bool>, large: seq<bool>)

  // ------------------------------------------------------------------ invariants

  /** The two watched literals differ, and the clause is not a tautology; literals may be repeated. */
  ghost predicate LineOK(n: nat, c: seq<Lit>) {
    && |c| >= 2 && c[0] != c[1] && c[0] < n && c[1] < n && (forall l :: l in c ==> l < n) &&
       (forall l :: l in c ==> Neg(l) !in c)
  }

  /** The other watched literal, which check.c computes by exclusive or. */
  function Other(c: seq<Lit>, l: Lit): Lit {
    if |c| < 2 then l else if c[0] == l then c[1] else c[0]
  }

  ghost predicate Watches(lines: seq<Line>, l: Lit, b: nat) {
    b < |lines| && lines[b].live && |lines[b].lits| >= 2 && (lines[b].lits[0] == l || lines[b].lits[1] == l)
  }

  ghost predicate Listed(lines: seq<Line>, watches: seq<seq<nat>>, b: nat)
    requires b < |lines|
  {
    lines[b].live ==>
      LineOK(|watches|, lines[b].lits) && b in watches[lines[b].lits[0]] && b in watches[lines[b].lits[1]]
  }

  /** The lists hold each live line exactly for its two watched literals. */
  ghost predicate Watched(lines: seq<Line>, watches: seq<seq<nat>>) {
    && (forall l: nat, i: nat :: l < |watches| && i < |watches[l]| ==> Watches(lines, l, watches[l][i]))
    && (forall b: nat :: b < |lines| ==> Listed(lines, watches, b))
    && (forall l: nat, i: nat, j: nat :: l < |watches| && i < j < |watches[l]| ==> watches[l][i] != watches[l][j])
  }

  ghost predicate TrailOK(values: seq<int>, trail: seq<Lit>) {
    && (forall i :: 0 <= i < |trail| ==> True(values, trail[i]))
    && (forall i, j :: 0 <= i < j < |trail| ==> trail[i] != trail[j])
    && (forall l: nat :: True(values, l) ==> l in trail)
  }

  ghost predicate Good(s: State) {
    && ValuesOK(s.values) && TrailOK(s.values, s.trail) && Watched(s.lines, s.watches)
    && |s.watches| == |s.values| == |s.used| == |s.large| && s.propagated <= |s.trail|
  }

  /** l is false, and its negation has been propagated. */
  ghost predicate Done(s: State, p: nat, l: Lit) {
    p <= |s.trail| && False(s.values, l) && Neg(l) in s.trail[..p]
  }

  /** If a watched literal is false and propagated, the other one is true. */
  ghost predicate Safe(s: State, p: nat, c: seq<Lit>) {
    |c| >= 2 ==> (Done(s, p, c[0]) ==> True(s.values, c[1])) && (Done(s, p, c[1]) ==> True(s.values, c[0]))
  }

  ghost predicate Propagated(s: State, p: nat) {
    forall b: nat :: b < |s.lines| && s.lines[b].live ==> Safe(s, p, s.lines[b].lits)
  }

  /** The same for the values at the root level alone. */
  ghost predicate SafeAt(values: seq<int>, c: seq<Lit>) {
    |c| >= 2 ==> (False(values, c[0]) ==> True(values, c[1])) && (False(values, c[1]) ==> True(values, c[0]))
  }

  ghost predicate RootSafe(lines: seq<Line>, values: seq<int>) {
    forall b: nat :: b < |lines| && lines[b].live ==> SafeAt(values, lines[b].lits)
  }

  ghost predicate Extends(values: seq<int>, values': seq<int>) {
    |values'| == |values| && forall l: nat :: l < |values| && values[l] != 0 ==> values'[l] == values[l]
  }

  // ------------------------------------------------------------------ meaning

  ghost predicate AllHold(m: Model, c: seq<Lit>) {
    forall l :: l in c ==> Holds(m, l)
  }

  /** The clauses added, under the decisions, make l true. */
  ghost predicate Forced(added: seq<seq<Lit>>, decisions: seq<Lit>, l: Lit) {
    forall m: Model :: AllSat(m, added) && AllHold(m, decisions) ==> Holds(m, l)
  }

  ghost predicate Implied(added: seq<seq<Lit>>, c: seq<Lit>) {
    forall m: Model :: AllSat(m, added) ==> Sat(m, c)
  }

  /** Everything stored and assigned follows from the clauses added and the decisions. */
  ghost predicate Sound(s: State, added: seq<seq<Lit>>, decisions: seq<Lit>) {
    && (forall b: nat :: b < |s.lines| && s.lines[b].live ==> Implied(added, s.lines[b].lits))
    && (forall i :: 0 <= i < |s.trail| ==> Forced(added, decisions, s.trail[i]))
  }

  // ------------------------------------------------------------------ what propagation achieves

  /** Under the values the clause is satisfied or has two different unassigned literals. */
  ghost predicate Quiet(values: seq<int>, c: seq<Lit>) {
    (exists l :: l in c && True(values, l)) ||
        (exists k, l :: k in c && l in c && k != l && Free(values, k) && Free(values, l))
  }

  ghost predicate Falsified(values: seq<int>, c: seq<Lit>) {
    forall l :: l in c ==> False(values, l)
  }

  /** After complete propagation no stored clause is falsified or unit. */
  lemma PropagatedQuiet(s: State, b: nat)
    requires Good(s) && Propagated(s, |s.trail|) && b < |s.lines| && s.lines[b].live
    ensures Quiet(s.values, s.lines[b].lits)
  {
    var c := s.lines[b].lits;
    assert Listed(s.lines, s.watches, b) && Safe(s, |s.trail|, c);
    assert c[0] in c && c[1] in c;
    FalseDone(s, c[0]);
    FalseDone(s, c[1]);
  }

  lemma FalseDone(s: State, l: Lit)
    requires Good(s) && l < |s.values|
    ensures False(s.values, l) ==> Done(s, |s.trail|, l)
  {
    assert s.trail[..|s.trail|] == s.trail;
    if False(s.values, l) {
      assert s.values[Neg(l)] == -s.values[l];
      assert True(s.values, Neg(l));
    }
  }

  lemma TrailBound(s: State)
    requires Good(s)
    ensures |s.trail| <= |s.values|
  {
    Pigeonhole(s.trail, |s.values|);
  }

  // ------------------------------------------------------------------ assigning a literal

  function Assigned(s: State, l: Lit): State
    requires l < |s.values| && Neg(l) < |s.values|
  {
    s.(values := Set(s.values, l), trail := s.trail + [l])
  }

  lemma AssignGood(s: State, l: Lit)
    requires Good(s) && l < |s.values| && s.values[l] == 0
    ensures Neg(l) < |s.values| && Good(Assigned(s, l)) && Extends(s.values, Assigned(s, l).values)
    ensures True(Assigned(s, l).values, l)
  {
    SetOK(s.values, l);
    SetGrows(s.values, l);
    var s' := Assigned(s, l);
    assert l !in s.trail;
    assert s'.trail[|s.trail|] == l;
    forall k: nat | True(s'.values, k) ensures k in s'.trail {
      if k != l {
        assert True(s.values, k) && k in s.trail;
      }
    }
  }

  /** What is propagated does not change. */
  lemma AssignDone(s: State, p: nat, l: Lit, k: Lit)
    requires Good(s) && p <= |s.trail| && l < |s.values| && s.values[l] == 0
    ensures Neg(l) < |s.values| && (Done(Assigned(s, l), p, k) <==> Done(s, p, k))
    ensures True(s.values, k) ==> True(Assigned(s, l).values, k)
  {
    SetOK(s.values, l);
    SetGrows(s.values, l);
    var s' := Assigned(s, l);
    assert s'.trail[..p] == s.trail[..p];
    if Neg(k) in s.trail[..p] {
      var i :| 0 <= i < p && s.trail[i] == Neg(k);
      assert True(s.values, Neg(k));
      HoldsNeg(iset{}, k);
      assert s.values[Neg(Neg(k))] == -s.values[Neg(k)];
    }
  }

  lemma AssignPropagated(s: State, p: nat, l: Lit)
    requires Good(s) && Propagated(s, p) && p <= |s.trail| && l < |s.values| && s.values[l] == 0
    ensures Neg(l) < |s.values| && Propagated(Assigned(s, l), p)
  {
    hide Good, Done;
    AssignGood(s, l);
    forall b: nat | b < |s.lines| && s.lines[b].live ensures Safe(Assigned(s, l), p, s.lines[b].lits) {
      var c := s.lines[b].lits;
      assert Safe(s, p, c);
      if |c| >= 2 {
        AssignDone(s, p, l, c[0]);
        AssignDone(s, p, l, c[1]);
      }
    }
  }

  lemma AssignSound(s: State, added: seq<seq<Lit>>, decisions: seq<Lit>, l: Lit)
    requires Sound(s, added, decisions) && Forced(added, decisions, l) && l < |s.values| && Neg(l) < |s.values|
    ensures Sound(Assigned(s, l), added, decisions)
  {
  }

  // ------------------------------------------------------------------ sweeping a watch list

  /** The lists while that of l is swept: kept so far, and the rest to come. */
  function Virtual(s: State, l: Lit, kept: seq<nat>, rest: seq<nat>): State {
    if l < |s.watches| then s.(watches := s.watches[l := kept + rest]) else s
  }

  /** All lines but the rest are safe; those have not propagated their other watch. */
  ghost predicate SweptBut(s: State, p: nat, l: Lit, rest: seq<nat>) {
    forall b: nat :: b < |s.lines| && s.lines[b].live ==>
      if b in rest then !Done(s, p, Other(s.lines[b].lits, l)) else Safe(s, p, s.lines[b].lits)
  }

  ghost predicate Sweeping(s: State, p: nat, l: Lit, kept: seq<nat>, rest: seq<nat>) {
    && l < |s.watches| && False(s.values, l) && p <= |s.trail| && Neg(l) in s.trail[..p]
    && Good(Virtual(s, l, kept, rest)) && SweptBut(s, p, l, rest)
  }

  /** Before the list is swept, its lines have not propagated their other watch. */
  lemma SweepStart(s: State, p: nat, l: Lit)
    requires Good(s) && Propagated(s, p) && p < |s.trail| && s.trail[p] == Neg(l) && l < |s.values|
    ensures Sweeping(s, p + 1, l, [], s.watches[l])
  {
    var ws := s.watches[l];
    assert [] + ws == ws && s.watches[l := ws] == s.watches;
    assert s.trail[..p + 1] == s.trail[..p] + [s.trail[p]];
    assert True(s.values, Neg(l)) && s.values[Neg(l)] == -s.values[l];
    NotYetDone(s, p, l);
    forall b: nat | b < |s.lines| && s.lines[b].live
      ensures if b in ws then !Done(s, p + 1, Other(s.lines[b].lits, l)) else Safe(s, p + 1, s.lines[b].lits)
    {
      StartLine(s, p, l, b);
    }
  }

  lemma NotYetDone(s: State, p: nat, l: Lit)
    requires Good(s) && p < |s.trail| && s.trail[p] == Neg(l)
    ensures !Done(s, p, l) && forall k: nat :: k != l ==> (Done(s, p + 1, k) <==> Done(s, p, k))
  {
    assert s.trail[..p + 1] == s.trail[..p] + [s.trail[p]];
    forall k: nat | k != l ensures Neg(k) != Neg(l) {
      HoldsNeg(iset{}, k);
      HoldsNeg(iset{}, l);
    }
  }

  lemma StartLine(s: State, p: nat, l: Lit, b: nat)
    requires Good(s) && Propagated(s, p) && p < |s.trail| && l < |s.watches| && False(s.values, l) && !Done(s, p, l)
    requires forall k: nat :: k != l ==> (Done(s, p + 1, k) <==> Done(s, p, k))
    requires b < |s.lines| && s.lines[b].live
    ensures if b in s.watches[l] then !Done(s, p + 1, Other(s.lines[b].lits, l)) else Safe(s, p + 1, s.lines[b].lits)
  {
    hide Done;
    var c := s.lines[b].lits;
    assert Safe(s, p, c) && Listed(s.lines, s.watches, b);
    if b in s.watches[l] {
      var i :| 0 <= i < |s.watches[l]| && s.watches[l][i] == b;
      assert Watches(s.lines, l, s.watches[l][i]);
    }
  }

  /** A line whose other watch is true stays in the list. */
  lemma SweepKeep(s: State, p: nat, l: Lit, kept: seq<nat>, rest: seq<nat>)
    requires Sweeping(s, p, l, kept, rest) && rest != [] && rest[0] < |s.lines|
    requires True(s.values, Other(s.lines[rest[0]].lits, l))
    ensures Sweeping(s, p, l, kept + [rest[0]], rest[1..])
  {
    var b := rest[0];
    assert kept + rest == (kept + [b]) + rest[1..];
    RestDistinct(s, l, kept, rest);
    hide Good, Virtual, Done;
    forall a: nat | a < |s.lines| && s.lines[a].live
      ensures if a in rest[1..] then !Done(s, p, Other(s.lines[a].lits, l)) else Safe(s, p, s.lines[a].lits)
    {
      assert a in rest <==> a == b || a in rest[1..];
    }
    TrueNotDone(s, p, Other(s.lines[b].lits, l));
  }

  lemma TrueNotDone(s: State, p: nat, l: Lit)
    requires True(s.values, l)
    ensures !Done(s, p, l)
  {
  }

  lemma RestDistinct(s: State, l: Lit, kept: seq<nat>, rest: seq<nat>)
    requires l < |s.watches| && Good(Virtual(s, l, kept, rest)) && rest != []
    ensures rest[0] !in rest[1..] && rest[0] !in kept && rest[0] < |s.lines| && s.lines[rest[0]].live
    ensures var c := s.lines[rest[0]].lits;
            LineOK(|s.watches|, c) && (c[0] == l || c[1] == l) && Other(c, l) in c && Other(c, l) != l
  {
    var v := Virtual(s, l, kept, rest);
    var ws := v.watches[l];
    assert ws == kept + rest && ws[|kept|] == rest[0];
    assert Watches(v.lines, l, ws[|kept|]) && Listed(v.lines, v.watches, rest[0]);
    forall i | 0 <= i < |rest[1..]| ensures rest[1..][i] != rest[0] {
      assert rest[1..][i] == ws[|kept| + 1 + i];
    }
    forall i | 0 <= i < |kept| ensures kept[i] != rest[0] {
      assert kept[i] == ws[i];
    }
  }

  // ------------------------------------------------------------------ replacing a watch

  /** The literal at position r is watched instead of l. */
  function Swapped(c: seq<Lit>, l: Lit, r: nat): seq<Lit>
    requires 2 <= r < |c|
  {
    c[0 := Other(c, l)][1 := c[r]][r := l]
  }

  lemma SwappedMembers(c: seq<Lit>, l: Lit, r: nat)
    requires 2 <= r < |c| && (c[0] == l || c[1] == l)
    ensures |Swapped(c, l, r)| == |c| && forall x :: x in Swapped(c, l, r) <==> x in c
  {
    var d := Swapped(c, l, r);
    forall x | x in c ensures x in d {
      var i :| 0 <= i < |c| && c[i] == x;
      assert d[if i == r then 1 else if i == 0 then (if c[0] == l then r else 0)
                                                    else if i == 1 then (if c[0] == l then 0 else r) else i] == x;
    }
    forall x | x in d ensures x in c {
      var i :| 0 <= i < |d| && d[i] == x;
      assert c[0] in c && c[1] in c && c[r] in c && c[i] in c;
    }
  }

  function Moved(s: State, l: Lit, b: nat, r: nat): State
    requires b < |s.lines| && 2 <= r < |s.lines[b].lits| && s.lines[b].lits[r] < |s.watches|
  {
    var c := s.lines[b].lits;
    s.(lines := s.lines[b := s.lines[b].(lits := Swapped(c, l, r))],
       watches := s.watches[c[r] := s.watches[c[r]] + [b]])
  }

  lemma SweepMove(s: State, p: nat, l: Lit, kept: seq<nat>, rest: seq<nat>, r: nat)
    requires Sweeping(s, p, l, kept, rest) && rest != [] && rest[0] < |s.lines| && 2 <= r < |s.lines[rest[0]].lits|
    requires var c := s.lines[rest[0]].lits;
             c[r] != l && c[r] != Other(c, l) && c[r] < |s.values| && !False(s.values, c[r])
    ensures |s.watches| == |s.values| && Sweeping(Moved(s, l, rest[0], r), p, l, kept, rest[1..])
  {
    var b := rest[0];
    RestDistinct(s, l, kept, rest);
    MoveWatched(s, l, kept, rest, r);
    hide Good, Watched;
    GoodParts(s, l, kept, rest);
    MoveGood(s, l, kept, rest, r);
    var s' := Moved(s, l, b, r);
    forall a: nat | a < |s'.lines| && s'.lines[a].live
      ensures if a in rest[1..] then !Done(s', p, Other(s'.lines[a].lits, l)) else Safe(s', p, s'.lines[a].lits)
    {
      assert a in rest <==> a == b || a in rest[1..];
      if a != b {
        assert s'.lines[a] == s.lines[a];
      }
    }
  }

  lemma GoodParts(s: State, l: Lit, kept: seq<nat>, rest: seq<nat>)
    requires l < |s.watches| && Good(Virtual(s, l, kept, rest))
    ensures ValuesOK(s.values) && TrailOK(s.values, s.trail) && |s.watches| == |s.values| == |s.used| == |s.large|
    ensures s.propagated <= |s.trail|
    ensures Watched(s.lines, s.watches[l := kept + rest])
  {
  }

  lemma MoveGood(s: State, l: Lit, kept: seq<nat>, rest: seq<nat>, r: nat)
    requires l < |s.watches| && rest != [] && rest[0] < |s.lines| && 2 <= r < |s.lines[rest[0]].lits|
    requires s.lines[rest[0]].lits[r] < |s.watches|
    requires ValuesOK(s.values) && TrailOK(s.values, s.trail) && |s.watches| == |s.values| == |s.used| == |s.large|
    requires s.propagated <= |s.trail|
    requires var s' := Moved(s, l, rest[0], r); Watched(s'.lines, s'.watches[l := kept + rest[1..]])
    ensures Good(Virtual(Moved(s, l, rest[0], r), l, kept, rest[1..]))
  {
  }

  lemma MoveWatched(s: State, l: Lit, kept: seq<nat>, rest: seq<nat>, r: nat)
    requires l < |s.watches| && Good(Virtual(s, l, kept, rest)) && rest != [] && rest[0] < |s.lines|
    requires 2 <= r < |s.lines[rest[0]].lits|
    requires var c := s.lines[rest[0]].lits; c[r] != l && c[r] != Other(c, l) && c[r] < |s.watches|
    ensures var s' := Moved(s, l, rest[0], r); Watched(s'.lines, s'.watches[l := kept + rest[1..]])
  {
    var b, c := rest[0], s.lines[rest[0]].lits;
    RestDistinct(s, l, kept, rest);
    var s' := Moved(s, l, b, r);
    var ws, ws' := s.watches[l := kept + rest], s'.watches[l := kept + rest[1..]];
    assert Watched(s.lines, ws);
    SwappedMembers(c, l, r);
    assert kept + rest == kept + [b] + rest[1..];
    forall x: nat | x < |ws| && b in ws[x] ensures x == c[0] || x == c[1] {
      var i :| 0 <= i < |ws[x]| && ws[x][i] == b;
      assert Watches(s.lines, x, ws[x][i]);
    }
    forall x: nat, i: nat | x < |ws'| && i < |ws'[x]| ensures Watches(s'.lines, x, ws'[x][i]) {
      if x == l {
        assert ws'[l][i] == ws[l][if i < |kept| then i else i + 1];
        assert Watches(s.lines, l, ws[l][if i < |kept| then i else i + 1]);
      } else if x != c[r] || i < |ws[x]| {
        assert Watches(s.lines, x, ws[x][i]);
      }
    }
    assert ws[c[r]] == s.watches[c[r]] && b !in ws[c[r]];
    MoveDistinct(s, l, kept, rest, r);
    forall a: nat | a < |s'.lines| ensures Listed(s'.lines, ws', a) {
      MoveListed(s, l, kept, rest, r, a);
    }
  }

  lemma MoveDistinct(s: State, l: Lit, kept: seq<nat>, rest: seq<nat>, r: nat)
    requires l < |s.watches| && rest != [] && rest[0] < |s.lines| && 2 <= r < |s.lines[rest[0]].lits|
    requires var c := s.lines[rest[0]].lits; c[r] != l && c[r] < |s.watches| && rest[0] !in s.watches[c[r]]
    requires var ws := s.watches[l := kept + rest];
             forall x: nat, i: nat, j: nat :: x < |ws| && i < j < |ws[x]| ==> ws[x][i] != ws[x][j]
    ensures var ws' := Moved(s, l, rest[0], r).watches[l := kept + rest[1..]];
            forall x: nat, i: nat, j: nat :: x < |ws'| && i < j < |ws'[x]| ==> ws'[x][i] != ws'[x][j]
  {
    var c := s.lines[rest[0]].lits;
    var ws, ws' := s.watches[l := kept + rest], Moved(s, l, rest[0], r).watches[l := kept + rest[1..]];
    forall x: nat, i: nat, j: nat | x < |ws'| && i < j < |ws'[x]| ensures ws'[x][i] != ws'[x][j] {
      if x == l {
        assert ws'[l][i] == ws[l][if i < |kept| then i else i + 1];
        assert ws'[l][j] == ws[l][if j < |kept| then j else j + 1];
      } else if x == c[r] && j == |s.watches[x]| {
        assert ws'[x][i] == s.watches[x][i] && s.watches[x][i] in s.watches[x];
      } else {
        assert ws'[x][i] == ws[x][i] && ws'[x][j] == ws[x][j];
      }
    }
  }

  lemma MoveListed(s: State, l: Lit, kept: seq<nat>, rest: seq<nat>, r: nat, a: nat)
    requires l < |s.watches| && rest != [] && rest[0] < |s.lines| && 2 <= r < |s.lines[rest[0]].lits| && a < |s.lines|
    requires var c := s.lines[rest[0]].lits;
             c[r] != l && c[r] != Other(c, l) && c[r] < |s.watches| && (c[0] == l || c[1] == l)
    requires Listed(s.lines, s.watches[l := kept + rest], a) && Listed(s.lines, s.watches[l := kept + rest], rest[0])
    ensures var s' := Moved(s, l, rest[0], r); Listed(s'.lines, s'.watches[l := kept + rest[1..]], a)
  {
    var b, c := rest[0], s.lines[rest[0]].lits;
    var s' := Moved(s, l, b, r);
    SwappedMembers(c, l, r);
    assert s'.watches[c[r]][|s.watches[c[r]]|] == b;
    assert forall x :: x in kept + rest <==> x in kept + rest[1..] || x == b by {
      assert kept + rest == kept + [b] + rest[1..];
      assert forall x :: x in kept + [b] + rest[1..] <==> x in kept || x == b || x in rest[1..];
    }
    if a != b && s.lines[a].live {
      assert forall x: nat :: x < |s.watches| && a in s.watches[x] ==> a in s'.watches[x];
    }
  }

  // ------------------------------------------------------------------ units and conflicts

  /** All literals but o are false. */
  ghost predicate UnitLine(values: seq<int>, c: seq<Lit>, o: Lit) {
    o in c && forall l :: l in c && l != o ==> False(values, l)
  }

  lemma FalseForced(s: State, added: seq<seq<Lit>>, decisions: seq<Lit>, l: Lit)
    requires ValuesOK(s.values) && TrailOK(s.values, s.trail) && Sound(s, added, decisions) && False(s.values, l)
    ensures Forced(added, decisions, Neg(l))
  {
    assert s.values[Neg(l)] == -s.values[l];
    assert True(s.values, Neg(l)) && Neg(l) in s.trail;
    var i :| 0 <= i < |s.trail| && s.trail[i] == Neg(l);
  }

  /** The remaining literal of a clause follows. */
  lemma UnitForced(s: State, added: seq<seq<Lit>>, decisions: seq<Lit>, c: seq<Lit>, o: Lit)
    requires ValuesOK(s.values) && TrailOK(s.values, s.trail) && Sound(s, added, decisions) && Implied(added, c)
    requires UnitLine(s.values, c, o)
    ensures Forced(added, decisions, o)
  {
    forall m: Model | AllSat(m, added) && AllHold(m, decisions) ensures Holds(m, o) {
      var l :| l in c && Holds(m, l);
      if l != o {
        FalseForced(s, added, decisions, l);
        HoldsNeg(m, l);
      }
    }
  }

  /** A falsified clause refutes the decisions. */
  lemma ConflictRefutes(s: State, added: seq<seq<Lit>>, decisions: seq<Lit>, c: seq<Lit>)
    requires ValuesOK(s.values) && TrailOK(s.values, s.trail) && Sound(s, added, decisions) && Implied(added, c)
    requires Falsified(s.values, c)
    ensures forall m: Model :: !(AllSat(m, added) && AllHold(m, decisions))
  {
    forall m: Model | AllSat(m, added) ensures !AllHold(m, decisions) {
      var l :| l in c && Holds(m, l);
      FalseForced(s, added, decisions, l);
      HoldsNeg(m, l);
    }
  }

  lemma SweepAssign(s: State, p: nat, l: Lit, kept: seq<nat>, rest: seq<nat>, o: Lit)
    requires Sweeping(s, p, l, kept, rest) && rest != [] && rest[0] < |s.lines| && o == Other(s.lines[rest[0]].lits, l)
    requires o < |s.values| && s.values[o] == 0
    ensures Neg(o) < |s.values| && Sweeping(Assigned(s, o), p, l, kept + [rest[0]], rest[1..])
    ensures Extends(s.values, Assigned(s, o).values)
  {
    var v := Virtual(s, l, kept, rest);
    AssignGood(v, o);
    var s' := Assigned(s, o);
    assert Virtual(s', l, kept, rest) == Assigned(v, o);
    forall k: Lit ensures (Done(s', p, k) <==> Done(s, p, k)) && (True(s.values, k) ==> True(s'.values, k)) {
      AssignDone(v, p, o, k);
      assert Done(v, p, k) == Done(s, p, k) && Done(Assigned(v, o), p, k) == Done(s', p, k);
    }
    assert s'.trail[..p] == s.trail[..p];
    assert Sweeping(s', p, l, kept, rest) by {
      hide Good, Done;
    }
    SweepKeep(s', p, l, kept, rest);
  }

  /** Once the list is swept, everything is safe. */
  lemma SweepEnd(s: State, p: nat, l: Lit, kept: seq<nat>)
    requires Sweeping(s, p, l, kept, [])
    ensures var s' := s.(watches := s.watches[l := kept]); Good(s') && Propagated(s', p)
  {
    assert kept + [] == kept;
    hide Good, Done;
    var s' := s.(watches := s.watches[l := kept]);
    forall b: nat | b < |s'.lines| && s'.lines[b].live ensures Safe(s', p, s'.lines[b].lits) {
      SafeFrame(s, s', p, s.lines[b].lits);
    }
  }

  lemma SafeFrame(s: State, s': State, p: nat, c: seq<Lit>)
    requires Safe(s, p, c) && s'.values == s.values && s'.trail == s.trail
    ensures Safe(s', p, c)
  {
  }

  // ------------------------------------------------------------------ back to the root level

  /** Only the order of the literals in lines has changed. */
  ghost predicate SameLines(lines: seq<Line>, lines': seq<Line>) {
    |lines'| == |lines| && forall b :: 0 <= b < |lines| ==> SameLine(lines[b], lines'[b])
  }

  ghost predicate SameLine(k: Line, k': Line) {
    k'.live == k.live && k'.hash == k.hash && |k'.lits| == |k.lits| && forall x :: x in k'.lits <==> x in k.lits
  }

  lemma SameLinesRefl(lines: seq<Line>)
    ensures SameLines(lines, lines)
  {
  }

  lemma SameLinesTrans(k: seq<Line>, k': seq<Line>, k'': seq<Line>)
    requires SameLines(k, k') && SameLines(k', k'')
    ensures SameLines(k, k'')
  {
    forall b | 0 <= b < |k| ensures SameLine(k[b], k''[b]) {
      assert SameLine(k[b], k'[b]) && SameLine(k'[b], k''[b]);
    }
  }

  lemma MovedSame(s: State, l: Lit, b: nat, r: nat)
    requires b < |s.lines| && 2 <= r < |s.lines[b].lits| && s.lines[b].lits[r] < |s.watches|
    requires s.lines[b].lits[0] == l || s.lines[b].lits[1] == l
    ensures SameLines(s.lines, Moved(s, l, b, r).lines)
  {
    SwappedMembers(s.lines[b].lits, l, r);
  }

  lemma SoundSame(s: State, s': State, added: seq<seq<Lit>>, decisions: seq<Lit>)
    requires Sound(s, added, decisions) && SameLines(s.lines, s'.lines) && s'.trail == s.trail
    ensures Sound(s', added, decisions)
  {
    forall b: nat | b < |s'.lines| && s'.lines[b].live ensures Implied(added, s'.lines[b].lits) {
      assert SameLine(s.lines[b], s'.lines[b]);
      forall m: Model | AllSat(m, added) ensures Sat(m, s'.lines[b].lits) {
        assert Sat(m, s.lines[b].lits);
        var l :| l in s.lines[b].lits && Holds(m, l);
        assert l in s'.lines[b].lits;
      }
    }
  }

  /** New watches of a line are not false at the root level unless the other one is true there. */
  lemma MoveRootSafe(s: State, l: Lit, b: nat, r: nat, values0: seq<int>)
    requires RootSafe(s.lines, values0) && b < |s.lines| && s.lines[b].live && 2 <= r < |s.lines[b].lits|
    requires s.lines[b].lits[r] < |s.watches|
    requires (s.lines[b].lits[0] == l || s.lines[b].lits[1] == l) && ValuesOK(s.values) && Extends(values0, s.values)
    requires False(s.values, l) && s.lines[b].lits[r] < |s.values| && !False(s.values, s.lines[b].lits[r])
    ensures RootSafe(Moved(s, l, b, r).lines, values0)
  {
    var c, s' := s.lines[b].lits, Moved(s, l, b, r);
    assert SafeAt(values0, c);
    forall a: nat | a < |s'.lines| && s'.lines[a].live ensures SafeAt(values0, s'.lines[a].lits) {
      if a != b {
        assert SafeAt(values0, s.lines[a].lits);
      }
    }
  }

  /** At the root level everything is safe again. */
  lemma BackGood(s: State, s': State, values0: seq<int>, saved: nat)
    requires Good(s) && saved <= |s.trail| && ValuesOK(values0) && TrailOK(values0, s.trail[..saved])
    requires Extends(values0, s.values)
    requires RootSafe(s.lines, values0) && s' == s.(values := values0, trail := s.trail[..saved], propagated := saved)
    ensures Good(s') && Propagated(s', saved)
  {
    forall b: nat | b < |s'.lines| && s'.lines[b].live ensures Safe(s', saved, s'.lines[b].lits) {
      assert SafeAt(values0, s.lines[b].lits);
    }
  }

  lemma RootSafeFrom(s: State)
    requires Good(s) && Propagated(s, |s.trail|)
    ensures RootSafe(s.lines, s.values)
  {
    forall b: nat | b < |s.lines| && s.lines[b].live ensures SafeAt(s.values, s.lines[b].lits) {
      var c := s.lines[b].lits;
      assert Safe(s, |s.trail|, c) && Listed(s.lines, s.watches, b);
      FalseDone(s, c[0]);
      FalseDone(s, c[1]);
    }
  }

  // ------------------------------------------------------------------ storing a clause

  function Inserted(s: State, k: Line): State
    requires |k.lits| >= 2 && k.lits[0] < |s.watches| && k.lits[1] < |s.watches|
  {
    var w1 := s.watches[k.lits[0] := s.watches[k.lits[0]] + [|s.lines|]];
    s.(lines := s.lines + [k], watches := w1[k.lits[1] := w1[k.lits[1]] + [|s.lines|]])
  }

  lemma InsertGood(s: State, k: Line, p: nat)
    requires Good(s) && Propagated(s, p) && p <= |s.trail| && k.live && LineOK(|s.watches|, k.lits)
    requires Free(s.values, k.lits[0]) && Free(s.values, k.lits[1])
    ensures Good(Inserted(s, k)) && Propagated(Inserted(s, k), p)
  {
    InsertWatched(s, k);
    hide Watched, Done;
    FreeNotDone(s, p, k.lits[0]);
    FreeNotDone(s, p, k.lits[1]);
    var s' := Inserted(s, k);
    forall b: nat | b < |s'.lines| && s'.lines[b].live ensures Safe(s', p, s'.lines[b].lits) {
      if b < |s.lines| {
        assert s'.lines[b] == s.lines[b] && Safe(s, p, s.lines[b].lits);
      } else {
        assert s'.lines[b] == k;
      }
      SafeFrame(s, s', p, s'.lines[b].lits);
    }
  }

  lemma FreeNotDone(s: State, p: nat, l: Lit)
    requires Free(s.values, l)
    ensures !Done(s, p, l)
  {
  }

  lemma InsertWatched(s: State, k: Line)
    requires Good(s) && k.live && LineOK(|s.watches|, k.lits)
    ensures Watched(Inserted(s, k).lines, Inserted(s, k).watches)
  {
    var s', b0 := Inserted(s, k), |s.lines|;
    forall l: nat, i: nat | l < |s.watches| && i < |s.watches[l]|
      ensures s.watches[l][i] < b0 && Watches(s.lines, l, s.watches[l][i]) {
    }
    forall l: nat, i: nat | l < |s'.watches| && i < |s'.watches[l]| ensures Watches(s'.lines, l, s'.watches[l][i]) {
      if i < |s.watches[l]| {
        assert s'.watches[l][i] == s.watches[l][i];
      }
    }
    forall b: nat | b < |s'.lines| ensures Listed(s'.lines, s'.watches, b) {
      if b < b0 {
        assert Listed(s.lines, s.watches, b);
        assert forall l: nat, x :: l < |s.watches| && x in s.watches[l] ==> x in s'.watches[l];
      } else {
        assert s'.watches[k.lits[0]][|s.watches[k.lits[0]]|] == b0;
        assert s'.watches[k.lits[1]][|s.watches[k.lits[1]]|] == b0;
      }
    }
  }

  /** A stored clause follows from the clauses added, and all earlier facts still follow. */
  lemma InsertSound(s: State, k: Line, added: seq<seq<Lit>>, c: seq<Lit>)
    requires Sound(s, added, []) && |k.lits| >= 2 && k.lits[0] < |s.watches| && k.lits[1] < |s.watches|
    requires forall x :: x in k.lits <==> x in c
    ensures Sound(Inserted(s, k), added + [c], [])
  {
    AddSound(s, added, c);
    var s' := Inserted(s, k);
    forall b: nat | b < |s'.lines| && s'.lines[b].live ensures Implied(added + [c], s'.lines[b].lits) {
      if b < |s.lines| {
        assert s'.lines[b] == s.lines[b];
      } else {
        forall m: Model | AllSat(m, added + [c]) ensures Sat(m, k.lits) {
          assert (added + [c])[|added|] == c && Sat(m, c);
          var l :| l in c && Holds(m, l);
          assert l in k.lits;
        }
      }
    }
  }

  lemma AddSound(s: State, added: seq<seq<Lit>>, c: seq<Lit>)
    requires Sound(s, added, [])
    ensures Sound(s, added + [c], [])
  {
    forall m: Model | AllSat(m, added + [c]) ensures AllSat(m, added) {
      assert forall d :: d in added ==> d in added + [c];
    }
  }

  // ------------------------------------------------------------------ pure literals

  ghost predicate Tautology(c: seq<Lit>) {
    exists l :: l in c && Neg(l) in c
  }

  /** Every clause is trivial, satisfied at the root level, or stored, and stored literals are marked. */
  ghost predicate Covers(s: State, added: seq<seq<Lit>>) {
    && (forall b :: 0 <= b < |s.lines| && s.lines[b].live ==> MarkedLine(s.used, s.large, s.lines[b].lits))
    && (s.inconsistent || forall c :: c in added ==> CoveredClause(s, c))
  }

  ghost predicate CoveredClause(s: State, c: seq<Lit>) {
    Tautology(c) || (exists l :: l in c && True(s.values, l)) || exists b :: Stores(s, b, c)
  }

  ghost predicate Stores(s: State, b: int, c: seq<Lit>) {
    0 <= b < |s.lines| && s.lines[b].live && forall l :: l in s.lines[b].lits <==> l in c
  }

  /** All literals are used, those of more than two also large. */
  ghost predicate MarkedLine(used: seq<bool>, large: seq<bool>, c: seq<Lit>) {
    forall l :: l in c ==> l < |used| == |large| && used[l] && (|c| > 2 ==> large[l])
  }

  ghost function WithLiteral(m: Model, l: Lit): Model {
    if l % 2 == 0 then m + iset{Var(l)} else m - iset{Var(l)}
  }

  lemma WithLiteralHolds(m: Model, l: Lit, k: Lit)
    ensures Holds(WithLiteral(m, l), l)
    ensures k != Neg(l) && Holds(m, k) ==> Holds(WithLiteral(m, l), k)
  {
  }

  /** Making a pure literal true keeps every model of the clauses added, and satisfies the new clause. */
  lemma PureKeeps(s: State, added: seq<seq<Lit>>, c: seq<Lit>, l: Lit, m: Model)
    requires Good(s) && Sound(s, added, []) && Covers(s, added) && !s.inconsistent && AllSat(m, added)
    requires l in c && Free(s.values, l) && Neg(l) < |s.used| && !s.used[Neg(l)]
    ensures AllSat(WithLiteral(m, l), added + [c])
  {
    var m' := WithLiteral(m, l);
    WithLiteralHolds(m, l, l);
    forall d | d in added + [c] ensures Sat(m', d) {
      if d in added {
        assert CoveredClause(s, d) && Sat(m, d);
        PureClause(s, added, d, l, m);
      } else {
        assert d == c;
      }
    }
  }

  lemma PureClause(s: State, added: seq<seq<Lit>>, d: seq<Lit>, l: Lit, m: Model)
    requires Good(s) && Sound(s, added, []) && Covers(s, added) && AllSat(m, added) && CoveredClause(s, d) && Sat(m, d)
    requires Free(s.values, l) && Neg(l) < |s.used| && !s.used[Neg(l)]
    ensures Sat(WithLiteral(m, l), d)
  {
    var m' := WithLiteral(m, l);
    if Tautology(d) {
      var k :| k in d && Neg(k) in d;
      HoldsNeg(m', k);
      assert Holds(m', k) || Holds(m', Neg(k));
    } else if k :| k in d && True(s.values, k) {
      assert AllHold(m, []);
      TrueHolds(s, added, [], k, m);
      assert s.values[Neg(l)] == -s.values[l];
      WithLiteralHolds(m, l, k);
    } else {
      var b :| Stores(s, b, d);
      var k :| k in d && Holds(m, k);
      WithLiteralHolds(m, l, k);
      assert MarkedLine(s.used, s.large, s.lines[b].lits) && k in s.lines[b].lits;
    }
  }

  // ------------------------------------------------------------------ naive unit propagation

  /** An extension of the values under which no line is falsified or unit. */
  ghost predicate Closed(lines: seq<Line>, values: seq<int>, w: seq<int>) {
    ValuesOK(w) && Extends(values, w) && forall b: nat :: b < |lines| && lines[b].live ==> Quiet(w, lines[b].lits)
  }

  /** The values v are part of every such extension of the values. */
  ghost predicate Least(lines: seq<Line>, values: seq<int>, v: seq<int>) {
    forall w :: Closed(lines, values, w) ==> Extends(v, w)
  }

  /** The values that unit propagation from the given ones ends with, in whatever order it proceeds. */
  ghost predicate UnitClosure(lines: seq<Line>, values: seq<int>, v: seq<int>) {
    Closed(lines, values, v) && Least(lines, values, v)
  }

  lemma ClosureUnique(lines: seq<Line>, values: seq<int>, v: seq<int>, w: seq<int>)
    requires UnitClosure(lines, values, v) && UnitClosure(lines, values, w)
    ensures v == w
  {
    forall l: nat | l < |v| ensures v[l] == w[l] {
      assert v[l] != 0 ==> w[l] == v[l];
      assert w[l] != 0 ==> v[l] == w[l];
    }
  }

  lemma ExtendsTrans(u: seq<int>, v: seq<int>, w: seq<int>)
    requires Extends(u, v) && Extends(v, w)
    ensures Extends(u, w)
  {
  }

  lemma LeastStart(lines: seq<Line>, values: seq<int>)
    ensures Least(lines, values, values)
  {
  }

  lemma QuietLine(values: seq<int>, k: Line, k': Line)
    requires SameLine(k, k')
    ensures Quiet(values, k.lits) <==> Quiet(values, k'.lits)
  {
  }

  lemma ClosedSame(lines: seq<Line>, lines': seq<Line>, values: seq<int>, w: seq<int>)
    requires SameLines(lines, lines')
    ensures Closed(lines, values, w) <==> Closed(lines', values, w)
  {
    hide Quiet;
    forall b: nat | b < |lines| ensures Quiet(w, lines[b].lits) <==> Quiet(w, lines'[b].lits) {
      QuietLine(w, lines[b], lines'[b]);
    }
    assert forall b: nat :: b < |lines| ==> (lines[b].live <==> lines'[b].live) by {
      assert forall b: nat :: b < |lines| ==> SameLine(lines[b], lines'[b]);
    }
  }

  lemma LeastSame(lines: seq<Line>, lines': seq<Line>, values: seq<int>, v: seq<int>)
    requires SameLines(lines, lines') && Least(lines, values, v)
    ensures Least(lines', values, v)
  {
    hide Closed;
    forall w | Closed(lines', values, w) ensures Extends(v, w) {
      ClosedSame(lines, lines', values, w);
    }
  }

  /** The literal that a unit line leaves is true in every extension. */
  lemma LeastAssign(lines: seq<Line>, values: seq<int>, v: seq<int>, b: nat, o: Lit)
    requires Least(lines, values, v) && b < |lines| && lines[b].live && UnitLine(v, lines[b].lits, o)
    requires o < |v| && Neg(o) < |v|
    ensures Least(lines, values, Set(v, o))
  {
    forall w | Closed(lines, values, w) ensures Extends(Set(v, o), w) {
      assert Extends(v, w) && Quiet(w, lines[b].lits);
      assert True(w, o);
      assert w[Neg(o)] == -w[o] && w[o] == 1;
    }
  }

  /** A line falsified by the least values leaves no extension. */
  lemma FalsifiedNoneClosed(lines: seq<Line>, values: seq<int>, v: seq<int>, b: nat)
    requires Least(lines, values, v) && b < |lines| && lines[b].live && Falsified(v, lines[b].lits)
    ensures forall w :: !Closed(lines, values, w)
  {
    forall w ensures !Closed(lines, values, w) {
      if Extends(v, w) {
        assert forall l :: l in lines[b].lits ==> False(w, l);
        assert !Quiet(w, lines[b].lits);
      }
    }
  }

  /** The extensions of the closure are those of the values it started from. */
  lemma ClosedFrom(lines: seq<Line>, values: seq<int>, v: seq<int>, w: seq<int>)
    requires Least(lines, values, v) && Extends(values, v)
    ensures Closed(lines, values, w) <==> Closed(lines, v, w)
  {
    if Closed(lines, v, w) {
      ExtendsTrans(values, v, w);
    }
  }

  /** Unit propagation from the values and the negation of c ends with w, without a conflict. */
  ghost predicate Survives(lines: seq<Line>, values: seq<int>, c: seq<Lit>, w: seq<int>) {
    && Closed(lines, values, w) && Falsified(w, c)
    && forall u :: Closed(lines, values, u) && Falsified(u, c) ==> Extends(w, u)
  }

  // ------------------------------------------------------------------ blocked literals

  predicate TrueBut(values: seq<int>, c: seq<Lit>, l: Lit) {
    exists o :: o in c && o != l && True(values, o)
  }

  /** The negation is in no large line, and each line it watches has another literal that is true. */
  predicate BlockedAt(s: State, l: Lit) {
    && Neg(l) < |s.large| == |s.watches| && !s.large[Neg(l)]
    && forall i :: 0 <= i < |s.watches[Neg(l)]| ==>
         var b := s.watches[Neg(l)][i]; b < |s.lines| && TrueBut(s.values, s.lines[b].lits, Neg(l))
  }

  /** The same for all lines with the negation, watched or not. */
  ghost predicate LineBlocked(lines: seq<Line>, large: seq<bool>, values: seq<int>, l: Lit) {
    && Neg(l) < |large| && !large[Neg(l)]
    && forall b: nat :: b < |lines| && lines[b].live && Neg(l) in lines[b].lits ==>
         TrueBut(values, lines[b].lits, Neg(l))
  }

  /** Lines that are not large are watched by all their literals. */
  lemma BlockedLines(s: State, l: Lit)
    requires Good(s) && Covers(s, [])
    ensures BlockedAt(s, l) <==> LineBlocked(s.lines, s.large, s.values, l)
  {
    var n := Neg(l);
    hide TrueBut, ValuesOK, TrailOK;
    if n < |s.large| && !s.large[n] {
      forall b: nat | b < |s.lines| && s.lines[b].live && n in s.lines[b].lits ensures b in s.watches[n] {
        assert Listed(s.lines, s.watches, b) && MarkedLine(s.used, s.large, s.lines[b].lits);
      }
      forall i | 0 <= i < |s.watches[n]|
        ensures var b := s.watches[n][i]; b < |s.lines| && s.lines[b].live && n in s.lines[b].lits {
        assert Watches(s.lines, n, s.watches[n][i]);
      }
    }
  }

  lemma LineBlockedSame(lines: seq<Line>, lines': seq<Line>, large: seq<bool>, values: seq<int>, l: Lit)
    requires SameLines(lines, lines')
    ensures LineBlocked(lines, large, values, l) <==> LineBlocked(lines', large, values, l)
  {
    forall b: nat | b < |lines| ensures SameLine(lines[b], lines'[b]) {
    }
  }

  /** What blocks a literal at the root level blocks it under all decisions. */
  lemma LineBlockedLater(lines: seq<Line>, large: seq<bool>, values: seq<int>, w: seq<int>, l: Lit)
    requires LineBlocked(lines, large, values, l) && Extends(values, w)
    ensures LineBlocked(lines, large, w, l)
  {
    forall b: nat | b < |lines| && lines[b].live && Neg(l) in lines[b].lits
      ensures TrueBut(w, lines[b].lits, Neg(l)) {
      var o :| o in lines[b].lits && o != Neg(l) && True(values, o);
      assert True(w, o);
    }
  }

  /**
    With the negation of c assigned and propagated, a literal that is blocked and was unassigned at the root level
    may be made true: resolving c with any other clause on that literal gives a consequence.
   */
  lemma BlockedKeeps(root: State, s: State, added: seq<seq<Lit>>, ds: seq<Lit>, c: seq<Lit>, l: Lit, m: Model)
    requires Good(root) && Sound(root, added, []) && Covers(root, added) && !root.inconsistent
    requires Good(s) && Sound(s, added, ds) && SameLines(root.lines, s.lines)
    requires s.used == root.used && s.large == root.large
    requires l in c && Free(root.values, l) && BlockedAt(s, l) && (forall d :: d in ds ==> Neg(d) in c)
    requires AllSat(m, added)
    ensures Sat(m, c) || AllSat(WithLiteral(m, l), added + [c])
  {
    hide Good, Sound, BlockedAt, Covers, AllSat;
    if !Sat(m, c) {
      forall d | d in ds ensures Holds(m, d) {
        HoldsNeg(m, d);
      }
      var m' := WithLiteral(m, l);
      WithLiteralHolds(m, l, l);
      assert Sat(m', c);
      forall d | d in added ensures Sat(m', d) {
        BlockedClause(root, s, added, ds, d, l, m);
      }
      AllAndOne(m', added, c);
    }
  }

  lemma BlockedClause(root: State, s: State, added: seq<seq<Lit>>, ds: seq<Lit>, d: seq<Lit>, l: Lit, m: Model)
    requires Good(root) && Sound(root, added, []) && Covers(root, added) && !root.inconsistent
    requires Good(s) && Sound(s, added, ds) && SameLines(root.lines, s.lines)
    requires s.used == root.used && s.large == root.large
    requires Free(root.values, l) && BlockedAt(s, l) && AllSat(m, added) && AllHold(m, ds) && d in added
    ensures Sat(WithLiteral(m, l), d)
  {
    var m' := WithLiteral(m, l);
    assert CoveredClause(root, d) && Sat(m, d);
    if Tautology(d) {
      var k :| k in d && Neg(k) in d;
      HoldsNeg(m', k);
      assert Holds(m', k) || Holds(m', Neg(k));
    } else if k :| k in d && True(root.values, k) {
      assert AllHold(m, []);
      TrueHolds(root, added, [], k, m);
      assert root.values[Neg(l)] == -root.values[l];
      WithLiteralHolds(m, l, k);
    } else if Neg(l) in d {
      var b :| Stores(root, b, d);
      assert SameLine(root.lines[b], s.lines[b]) && MarkedLine(root.used, root.large, root.lines[b].lits);
      assert Listed(s.lines, s.watches, b);
      var e := s.lines[b].lits;
      assert Neg(l) in e && |e| == 2 && b in s.watches[Neg(l)];
      var i :| 0 <= i < |s.watches[Neg(l)]| && s.watches[Neg(l)][i] == b;
      var o :| o in e && o != Neg(l) && True(s.values, o);
      TrueHolds(s, added, ds, o, m);
      WithLiteralHolds(m, l, o);
    } else {
      var k :| k in d && Holds(m, k);
      WithLiteralHolds(m, l, k);
    }
  }

  lemma TrueHolds(s: State, added: seq<seq<Lit>>, ds: seq<Lit>, l: Lit, m: Model)
    requires Good(s) && Sound(s, added, ds) && AllSat(m, added) && AllHold(m, ds) && True(s.values, l)
    ensures Holds(m, l)
  {
    assert l in s.trail;
    var i :| 0 <= i < |s.trail| && s.trail[i] == l;
    assert Forced(added, ds, s.trail[i]);
  }

  /** A literal that is false at the root level adds nothing to a clause, blocked or not. */
  lemma FalseAddsNothing(s: State, added: seq<seq<Lit>>, c: seq<Lit>, l: Lit, rest: seq<Lit>, m: Model)
    requires Good(s) && Sound(s, added, []) && False(s.values, l)
    requires forall k :: k in c <==> k in rest || k == l
    ensures AllSat(m, added + [c]) <==> AllSat(m, added + [rest])
  {
    FalseForced(s, added, [], l);
    assert AllHold(m, []);
    HoldsNeg(m, l);
    OneMore(m, added, c);
    OneMore(m, added, rest);
    if AllSat(m, added) && Sat(m, c) {
      var k :| k in c && Holds(m, k);
      assert k in rest;
    }
  }

  lemma AllAndOne(m: Model, added: seq<seq<Lit>>, c: seq<Lit>)
    requires Sat(m, c) && forall d :: d in added ==> Sat(m, d)
    ensures AllSat(m, added + [c])
  {
  }

  lemma OneMore(m: Model, added: seq<seq<Lit>>, c: seq<Lit>)
    ensures AllSat(m, added + [c]) <==> AllSat(m, added) && Sat(m, c)
  {
    assert c in added + [c];
    assert forall d :: d in added ==> d in added + [c];
  }

  /** Literal 1 is a unit, nothing is stored. */
  const UnitOnly: State := State(false, [], [[], []], [-1, 1], [1], 1, [false, false], [false, false])

  /**
    Units are not stored, so nothing keeps a literal that a unit makes false from being blocked: the clause of literal
    0 alone has a blocked literal, but contradicts the unit of literal 1.
   */
  lemma RootBlockedMisleads(m: Model)
    ensures Good(UnitOnly) && Sound(UnitOnly, [[1]], []) && Covers(UnitOnly, [[1]]) && Propagated(UnitOnly, 1)
    ensures Falsified(UnitOnly.values, [0]) && BlockedAt(UnitOnly, 0)
    ensures AllSat(iset{}, [[1]]) && !(AllSat(m, [[1]]) && Sat(m, [0]))
  {
    hide Good, Sound, Covers, Propagated, BlockedAt;
    UnitGood();
    UnitMeaning();
    assert 1 in [1] && Holds(iset{}, 1);
    assert [1] in [[1]];
  }

  lemma UnitGood()
    ensures Good(UnitOnly) && Propagated(UnitOnly, 1) && BlockedAt(UnitOnly, 0)
  {
    assert Neg(0) == 1 && Neg(1) == 0;
    assert UnitOnly.trail[0] == 1;
  }

  lemma UnitMeaning()
    ensures Sound(UnitOnly, [[1]], []) && Covers(UnitOnly, [[1]])
  {
    forall m: Model | AllSat(m, [[1]]) ensures Holds(m, 1) {
      assert [1] in [[1]] && Sat(m, [1]);
    }
    assert 1 in [1] && True(UnitOnly.values, 1);
  }
}
