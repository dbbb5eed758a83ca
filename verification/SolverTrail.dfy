/**
  The trail of the main solver (assign.c, inlineassign.h, backtrack.c): with chronological
  backtracking its literals are not sorted by level.
 */
module SolverTrail {
  import opened Literals
  import opened Entailment
  import RV = RootValues

  datatype Assigned = Assigned(level: nat, trail: nat, reason: Reason, analyzed: bool)

  /** The parts of the solver concerned with assignments; frames hold where on the trail each level starts. */
  datatype State = State(values: seq<int>, assignments: seq<Assigned>, trail: seq<Lit>, frames: seq<nat>, level: nat,
                         propagate: nat, unassigned: int, clauses: seq<seq<Lit>>, analyzed: seq<nat>, clause: seq<Lit>,
                         resolvent: seq<Lit>, antecedentSize: nat, resolventSize: nat, options: Options)

  datatype Options = Options(jumpreasons: bool, chrono: bool, chronolevels: nat, otfs: bool)

  function Level(s: State, l: Lit): nat {
    if Var(l) < |s.assignments| then s.assignments[Var(l)].level else 0
  }

  function Position(s: State, l: Lit): nat {
    if Var(l) < |s.assignments| then s.assignments[Var(l)].trail else 0
  }

  function ReasonOf(s: State, l: Lit): Reason {
    if Var(l) < |s.assignments| then s.assignments[Var(l)].reason else Decision
  }

  ghost predicate True(s: State, l: Lit) {
    RV.True(s.values, l)
  }

  ghost predicate False(s: State, l: Lit) {
    RV.False(s.values, l)
  }

  // ------------------------------------------------------------------ the invariant

  ghost predicate Shape(s: State) {
    && |s.values| == 2 * |s.assignments| && Opposite(s.values)
    && (forall l :: 0 <= l < |s.values| ==> -1 <= s.values[l] <= 1)
  }

  /** The trail lists the true literals, each at the position stored with its variable. */
  ghost predicate OnTrail(s: State) {
    && (forall i :: 0 <= i < |s.trail| ==> True(s, s.trail[i]) && Position(s, s.trail[i]) == i)
    && (forall l: nat :: True(s, l) ==> Position(s, l) < |s.trail| && s.trail[Position(s, l)] == l)
    && s.unassigned == |s.assignments| - |s.trail|
  }

  /** Literals before the start of a level have a smaller level: a level is at most the block it is in. */
  ghost predicate Levels(s: State) {
    && |s.frames| == s.level + 1 && s.propagate <= |s.trail|
    && (forall k :: 0 <= k < |s.frames| ==> s.frames[k] <= |s.trail|)
    && (forall j, k :: 0 <= j < k < |s.frames| ==> s.frames[j] <= s.frames[k])
    && (forall i :: 0 <= i < |s.trail| ==> Level(s, s.trail[i]) <= s.level)
    && (forall i, k :: 0 < k < |s.frames| && 0 <= i < s.frames[k] && i < |s.trail| ==> Level(s, s.trail[i]) < k)
  }

  /** The other literals of the clause are false and earlier on the trail than the literal at position i. */
  ghost predicate Forced(s: State, c: seq<Lit>, i: nat)
    requires i < |s.trail|
  {
    && s.trail[i] in c
    && (forall o ::
          o in c && o != s.trail[i] ==> False(s, o) && Position(s, o) < i && Level(s, o) <= Level(s, s.trail[i]))
    && (exists o :: o in c && o != s.trail[i] && Level(s, o) == Level(s, s.trail[i]))
  }

  /** The clause that stands for the reason of a literal; for a jumped binary reason it is only an implied one. */
  function ReasonClause(s: State, l: Lit): seq<Lit> {
    match ReasonOf(s, l)
    case Binary(o) => [l, o]
    case Large(ref) => if ref < |s.clauses| then s.clauses[ref] else [l]
    case Decision => [l, Neg(l)]
    case Unit => [l]
  }

  ghost predicate ReasonAt(s: State, f: Clauses, i: nat)
    requires i < |s.trail|
  {
    var l := s.trail[i];
    match ReasonOf(s, l)
    case Decision => 0 < Level(s, l) < |s.frames| && s.frames[Level(s, l)] == i
    case Unit => Level(s, l) == 0 && Entails(f, [l])
    case Binary(o) => Level(s, l) > 0 && Forced(s, [l, o], i) && Entails(f, [l, o])
    case Large(ref) => Level(s, l) > 0 && ref < |s.clauses| && Forced(s, s.clauses[ref], i) &&
                       Entails(f, s.clauses[ref])
  }

  ghost predicate Reasons(s: State, f: Clauses) {
    forall i :: 0 <= i < |s.trail| ==> ReasonAt(s, f, i)
  }

  ghost predicate TrailOK(s: State, f: Clauses) {
    Shape(s) && OnTrail(s) && Levels(s) && Reasons(s, f)
  }

  // ------------------------------------------------------------------ assigning

  /** The state after assigning a literal. */
  function Put(s: State, level: nat, l: Lit, reason: Reason): State
    requires Var(l) < |s.assignments| && l < |s.values| && Neg(l) < |s.values|
  {
    s.(values := s.values[l := 1][Neg(l) := -1], unassigned := s.unassigned - 1, trail := s.trail + [l],
       assignments := s.assignments[Var(l) := Assigned(level, |s.trail|, if level == 0 then Unit else reason, false)])
  }

  /** What may be the reason of a new literal at the given level. */
  ghost predicate MayForce(s: State, f: Clauses, level: nat, l: Lit, reason: Reason) {
    && level <= s.level
    && if level == 0 then Entails(f, [l])
       else
         match reason
         case Decision => level == s.level && |s.frames| > level && s.frames[level] == |s.trail|
         case Unit => false
         case Binary(o) => False(s, o) && Level(s, o) == level && o != l && Entails(f, [l, o])
         case Large(ref) =>
           && ref < |s.clauses| && l in s.clauses[ref] && Entails(f, s.clauses[ref])
           && (forall o :: o in s.clauses[ref] && o != l ==> False(s, o) && Level(s, o) <= level)
           && (exists o :: o in s.clauses[ref] && o != l && Level(s, o) == level)
  }

  lemma FalseOnTrail(s: State, o: Lit)
    requires Shape(s) && OnTrail(s) && False(s, o)
    ensures Position(s, o) < |s.trail| && s.trail[Position(s, o)] == Neg(o) && True(s, Neg(o))
    ensures Var(o) < |s.assignments|
  {
    assert s.values[Neg(o)] == -s.values[o];
    SameVar(o, Neg(o));
    assert True(s, Neg(o));
  }

  lemma PutShape(s: State, level: nat, l: Lit, reason: Reason)
    requires Shape(s) && l < |s.values| && s.values[l] == 0
    ensures Neg(l) < |s.values| && Var(l) < |s.assignments| && s.values[Neg(l)] == 0 && Neg(l) != l
    ensures Shape(Put(s, level, l, reason))
    ensures forall x: nat :: x < |s.values| && s.values[x] != 0 ==>
              Var(x) != Var(l) && Put(s, level, l, reason).values[x] == s.values[x]
  {
    assert s.values[Neg(l)] == -s.values[l];
    SameVar(l, Neg(l));
    var t := Put(s, level, l, reason);
    forall x: nat | x < |s.values| && s.values[x] != 0 ensures Var(x) != Var(l) && t.values[x] == s.values[x] {
      SameVar(x, l);
      SameVar(l, x);
    }
    forall x: nat | x < |t.values| ensures Neg(x) < |t.values| && t.values[Neg(x)] == -t.values[x] {
      assert s.values[Neg(x)] == -s.values[x];
      SameVar(x, Neg(x));
      SameVar(x, l);
    }
  }

  /** A new literal leaves the others alone. */
  lemma PutOthers(s: State, level: nat, l: Lit, reason: Reason)
    requires Shape(s) && OnTrail(s) && l < |s.values| && s.values[l] == 0
    ensures Neg(l) < |s.values| && Var(l) < |s.assignments|
    ensures var t := Put(s, level, l, reason);
            && Shape(t) && OnTrail(t) && Level(t, l) == level && Position(t, l) == |s.trail|
            && ReasonOf(t, l) == (if level == 0 then Unit else reason)
            && (forall x: nat :: True(s, x) || False(s, x) ==>
                  Level(t, x) == Level(s, x) && Position(t, x) == Position(s, x) && ReasonOf(t, x) == ReasonOf(s, x))
            && (forall x: nat :: False(s, x) ==> False(t, x)) && (forall x: nat :: True(s, x) ==> True(t, x))
  {
    hide Neg;
    PutShape(s, level, l, reason);
    var t := Put(s, level, l, reason);
    forall x: nat | True(t, x) ensures Position(t, x) < |t.trail| && t.trail[Position(t, x)] == x {
      if x != l {
        assert True(s, x);
      }
    }
  }

  lemma PutReason(s: State, f: Clauses, level: nat, l: Lit, reason: Reason, i: nat)
    requires TrailOK(s, f) && l < |s.values| && s.values[l] == 0 && MayForce(s, f, level, l, reason) && i <= |s.trail|
    ensures Neg(l) < |s.values| && Var(l) < |s.assignments| && ReasonAt(Put(s, level, l, reason), f, i)
  {
    PutOthers(s, level, l, reason);
    var t := Put(s, level, l, reason);
    if i < |s.trail| {
      assert ReasonAt(s, f, i) && t.trail[i] == s.trail[i];
    } else {
      forall o: nat | False(s, o) ensures Position(s, o) < |s.trail| {
        FalseOnTrail(s, o);
      }
    }
  }

  lemma PutKeeps(s: State, f: Clauses, level: nat, l: Lit, reason: Reason)
    requires TrailOK(s, f) && l < |s.values| && s.values[l] == 0 && MayForce(s, f, level, l, reason)
    ensures Neg(l) < |s.values| && Var(l) < |s.assignments| && TrailOK(Put(s, level, l, reason), f)
  {
    PutOthers(s, level, l, reason);
    var t := Put(s, level, l, reason);
    forall i | 0 <= i < |t.trail| ensures ReasonAt(t, f, i) {
      PutReason(s, f, level, l, reason, i);
    }
    hide Reasons;
    forall i, k | 0 < k < |t.frames| && 0 <= i < t.frames[k] && i < |t.trail| ensures Level(t, t.trail[i]) < k {
      assert i < |s.trail| && t.trail[i] == s.trail[i] && True(s, s.trail[i]);
    }
    forall i | 0 <= i < |t.trail| ensures Level(t, t.trail[i]) <= t.level {
      if i < |s.trail| {
        assert t.trail[i] == s.trail[i] && True(s, s.trail[i]);
      }
    }
  }

  // ------------------------------------------------------------------ backtracking

  /** The literals of c[..p] that backtracking keeps. */
  function Kept(s: State, level: nat, c: seq<Lit>, p: nat): (k: seq<Lit>)
    requires p <= |c|
    ensures |k| <= p
  {
    if p == 0 then [] else Kept(s, level, c, p - 1) + if Level(s, c[p - 1]) <= level then [c[p - 1]] else []
  }

  /** The trail position from which on backtracking to a level has to look at literals. */
  function Start(s: State, level: nat): nat {
    if level + 1 < |s.frames| then s.frames[level + 1] else |s.trail|
  }

  /** Backtracking has read the trail of s0 up to p: kept literals are in front, the others unassigned. */
  ghost predicate Filtering(s0: State, s: State, level: nat, q: nat, p: nat) {
    && q <= p <= |s0.trail| == |s.trail| && Start(s0, level) <= p && level < |s0.frames|
    && s == s0.(values := s.values, assignments := s.assignments, trail := s.trail, unassigned := s.unassigned,
                frames := s0.frames[..level + 1])
    && |s.values| == |s0.values| && |s.assignments| == |s0.assignments|
    && s.trail[..q] == Kept(s0, level, s0.trail, p) && s.trail[p..] == s0.trail[p..]
    && s.unassigned == s0.unassigned + p - q
    && (forall v ::
          0 <= v < |s.assignments| ==> s.assignments[v] == s0.assignments[v].(trail := s.assignments[v].trail))
    && (forall i :: 0 <= i < p ==>
                    if Level(s0, s0.trail[i]) <= level
                       then PositionKept(s0, s, level, q, i) else Cleared(s, s0.trail[i]))
    && (forall l: nat ::
          l < |s.values| && NotRead(s0, p, l) ==> s.values[l] == s0.values[l] && Position(s, l) == Position(s0, l))
  }

  /** The variable of l is unassigned, or on the part of the trail that has not been read. */
  ghost predicate NotRead(s0: State, p: nat, l: Lit) {
    (l < |s0.values| && s0.values[l] == 0) || Position(s0, l) >= p
  }

  ghost predicate Cleared(s: State, l: Lit) {
    l < |s.values| && Neg(l) < |s.values| && s.values[l] == s.values[Neg(l)] == 0
  }

  /** The literal at position i of the old trail is kept, at its new position. */
  ghost predicate PositionKept(s0: State, s: State, level: nat, q: nat, i: nat)
    requires i < |s0.trail|
  {
    var l := s0.trail[i];
    && Position(s, l) < q <= |s.trail| && s.trail[Position(s, l)] == l
    && l < |s.values| && Neg(l) < |s.values| && s.values[l] == 1 && s.values[Neg(l)] == -1
    && Position(s, l) == |Kept(s0, level, s0.trail, i)|
  }

  lemma {:induction false} KeptPrefix(s: State, level: nat, c: seq<Lit>, i: nat, p: nat)
    requires i <= p <= |c|
    ensures Kept(s, level, c, i) <= Kept(s, level, c, p)
  {
    if i < p {
      KeptPrefix(s, level, c, i, p - 1);
    }
  }

  /** Below the start of the next level everything is kept. */
  lemma {:induction false} KeptAll(s: State, level: nat, p: nat)
    requires Levels(s) && level < s.level && p <= Start(s, level)
    ensures Kept(s, level, s.trail, p) == s.trail[..p]
  {
    if p > 0 {
      KeptAll(s, level, p - 1);
      assert s.trail[..p] == s.trail[..p - 1] + [s.trail[p - 1]];
    }
  }

  lemma FilteringStart(s: State, level: nat)
    requires Shape(s) && OnTrail(s) && Levels(s) && level < s.level
    ensures Filtering(s, s.(frames := s.frames[..level + 1]), level, Start(s, level), Start(s, level))
  {
    hide Kept, Shape, Levels, Start;
    StartBound(s, level);
    var n := Start(s, level);
    KeptAll(s, level, n);
    forall i | 0 <= i < n
      ensures PositionKept(s, s.(frames := s.frames[..level + 1]), level, n, i) && Level(s, s.trail[i]) <= level
    {
      StartKept(s, level, i);
    }
  }

  lemma StartBound(s: State, level: nat)
    requires Levels(s) && level < s.level
    ensures level + 1 < |s.frames| && Start(s, level) == s.frames[level + 1] <= |s.trail|
  {
  }

  lemma StartKept(s: State, level: nat, i: nat)
    requires Shape(s) && OnTrail(s) && Levels(s) && level < s.level && i < Start(s, level) <= |s.trail|
    ensures PositionKept(s, s.(frames := s.frames[..level + 1]), level, Start(s, level), i)
    ensures Level(s, s.trail[i]) <= level
  {
    KeptAll(s, level, i);
    assert s.values[Neg(s.trail[i])] == -s.values[s.trail[i]];
    assert True(s, s.trail[i]);
  }

  lemma DifferentVars(s: State, i: nat, j: nat)
    requires Shape(s) && OnTrail(s) && i < |s.trail| && j < |s.trail| && i != j
    ensures Var(s.trail[i]) != Var(s.trail[j]) && Neg(s.trail[i]) < |s.values|
  {
    assert True(s, s.trail[i]) && True(s, s.trail[j]);
    SameVar(s.trail[i], s.trail[j]);
    assert s.values[Neg(s.trail[i])] == -s.values[s.trail[i]];
  }

  /** The next literal to read is still as it was. */
  lemma FilteringNext(s0: State, s: State, level: nat, q: nat, p: nat)
    requires Shape(s0) && OnTrail(s0) && Filtering(s0, s, level, q, p) && p < |s0.trail|
    ensures s.trail[p] == s0.trail[p] && Var(s.trail[p]) < |s.assignments| && s.trail[p] < |s.values|
    ensures Neg(s.trail[p]) < |s.values|
    ensures Level(s, s.trail[p]) == Level(s0, s.trail[p]) && s.values[s.trail[p]] == 1
    ensures s.values[Neg(s.trail[p])] == -1
    ensures q <= Position(s, s.trail[p]) == p
  {
    assert s.trail[p..][0] == s0.trail[p..][0];
    var l := s0.trail[p];
    assert True(s0, l) && Position(s0, l) == p;
    assert s0.values[Neg(l)] == -s0.values[l];
    SameVar(l, Neg(l));
    assert NotRead(s0, p, l) && NotRead(s0, p, Neg(l));
  }

  function Keep(s: State, q: nat, p: nat): State
    requires q <= p < |s.trail| && Var(s.trail[p]) < |s.assignments|
  {
    var l := s.trail[p];
    s.(assignments := s.assignments[Var(l) := s.assignments[Var(l)].(trail := q)], trail := s.trail[q := l])
  }

  function Drop(s: State, l: Lit): State
    requires l < |s.values| && Neg(l) < |s.values|
  {
    s.(values := s.values[l := 0][Neg(l) := 0], unassigned := s.unassigned + 1)
  }

  lemma FilteringOther(s0: State, s: State, level: nat, q: nat, p: nat, s': State, q': nat, i: nat)
    requires Shape(s0) && OnTrail(s0) && Filtering(s0, s, level, q, p) && p < |s0.trail| && i < p
    requires q <= q' <= |s'.trail| && s'.trail[..q] == s.trail[..q]
    requires |s'.values| == |s.values| && |s'.assignments| == |s.assignments|
    requires forall l: nat :: l < |s.values| && Var(l) != Var(s0.trail[p]) ==> s'.values[l] == s.values[l]
    requires forall v :: 0 <= v < |s.assignments| && v != Var(s0.trail[p]) ==> s'.assignments[v] == s.assignments[v]
    ensures if Level(s0, s0.trail[i]) <= level then PositionKept(s0, s', level, q', i) else Cleared(s', s0.trail[i])
  {
    hide Kept;
    DifferentVars(s0, i, p);
    var l := s0.trail[i];
    SameVar(l, Neg(l));
    if Level(s0, l) <= level {
      assert PositionKept(s0, s, level, q, i);
      assert s'.trail[Position(s, l)] == s'.trail[..q][Position(s, l)] == s.trail[..q][Position(s, l)];
    } else {
      assert Cleared(s, l);
    }
  }

  lemma FilterKeep(s0: State, s: State, level: nat, q: nat, p: nat)
    requires Shape(s0) && OnTrail(s0) && Filtering(s0, s, level, q, p) && p < |s0.trail|
    requires Level(s0, s0.trail[p]) <= level
    ensures Var(s.trail[p]) < |s.assignments| && Filtering(s0, Keep(s, q, p), level, q + 1, p + 1)
  {
    hide Shape, OnTrail, PositionKept, Cleared, Start;
    FilteringNext(s0, s, level, q, p);
    var l := s0.trail[p];
    var s' := Keep(s, q, p);
    assert s'.trail[..q + 1] == s.trail[..q] + [l];
    assert s'.trail[p + 1..] == s.trail[p..][1..] && s0.trail[p + 1..] == s0.trail[p..][1..];
    assert s'.trail[..q] == s.trail[..q];
    forall i | 0 <= i < p + 1
      ensures if Level(s0, s0.trail[i]) <= level
              then PositionKept(s0, s', level, q + 1, i) else Cleared(s', s0.trail[i])
    {
      if i < p {
        FilteringOther(s0, s, level, q, p, s', q + 1, i);
      } else {
        KeepAt(s0, s, level, q, p);
      }
    }
    forall x: nat | x < |s'.values| && NotRead(s0, p + 1, x)
      ensures s'.values[x] == s0.values[x] && Position(s', x) == Position(s0, x) {
      NotReadLater(s0, p, x);
    }
  }

  lemma KeepAt(s0: State, s: State, level: nat, q: nat, p: nat)
    requires Shape(s0) && OnTrail(s0) && Filtering(s0, s, level, q, p) && p < |s0.trail|
    requires Level(s0, s0.trail[p]) <= level
    ensures Var(s.trail[p]) < |s.assignments| && PositionKept(s0, Keep(s, q, p), level, q + 1, p)
  {
    FilteringNext(s0, s, level, q, p);
    SameVar(s0.trail[p], Neg(s0.trail[p]));
    assert |s.trail[..q]| == q;
  }

  /** A variable whose literals are not read yet is not that of the literal at position p. */
  lemma NotReadLater(s0: State, p: nat, x: Lit)
    requires Shape(s0) && OnTrail(s0) && p < |s0.trail| && x < |s0.values| && NotRead(s0, p + 1, x)
    ensures Var(x) != Var(s0.trail[p]) && NotRead(s0, p, x)
  {
    var l := s0.trail[p];
    assert True(s0, l) && Position(s0, l) == p;
    assert s0.values[Neg(l)] == -s0.values[l];
    SameVar(x, l);
    SameVar(l, Neg(l));
  }

  lemma FilterDrop(s0: State, s: State, level: nat, q: nat, p: nat)
    requires Shape(s0) && OnTrail(s0) && Filtering(s0, s, level, q, p) && p < |s0.trail|
    requires Level(s0, s0.trail[p]) > level
    ensures s.trail[p] < |s.values| && Neg(s.trail[p]) < |s.values|
    ensures Filtering(s0, Drop(s, s.trail[p]), level, q, p + 1)
  {
    hide Shape, OnTrail, PositionKept, Start;
    FilteringNext(s0, s, level, q, p);
    var l := s0.trail[p];
    SameVar(l, Neg(l));
    var s' := Drop(s, l);
    assert s'.trail[p + 1..] == s.trail[p..][1..] && s0.trail[p + 1..] == s0.trail[p..][1..];
    forall x: nat | x < |s.values| && Var(x) != Var(l) ensures s'.values[x] == s.values[x] {
    }
    forall i | 0 <= i < p + 1
      ensures if Level(s0, s0.trail[i]) <= level then PositionKept(s0, s', level, q, i) else Cleared(s', s0.trail[i])
    {
      if i < p {
        FilteringOther(s0, s, level, q, p, s', q, i);
      }
    }
    forall x: nat | x < |s'.values| && NotRead(s0, p + 1, x)
      ensures s'.values[x] == s0.values[x] && Position(s', x) == Position(s0, x) {
      NotReadLater(s0, p, x);
    }
  }

  /** Every kept literal was on the old trail. */
  lemma {:induction false} KeptIndex(s: State, level: nat, c: seq<Lit>, p: nat, i: nat) returns (j: nat)
    requires p <= |c| && i < |Kept(s, level, c, p)|
    ensures j < p && Level(s, c[j]) <= level && |Kept(s, level, c, j)| == i && Kept(s, level, c, p)[i] == c[j]
  {
    if i < |Kept(s, level, c, p - 1)| {
      j := KeptIndex(s, level, c, p - 1, i);
    } else {
      j := p - 1;
    }
  }

  /** The state after the whole trail has been read. */
  function Backtracked(s0: State, s: State, level: nat, q: nat): State
    requires q <= |s.trail|
  {
    s.(trail := s.trail[..q], level := level, propagate := Start(s0, level))
  }

  /** A literal is true afterwards if and only if it was, at a level that is kept. */
  lemma BacktrackedTrue(s0: State, s: State, level: nat, q: nat, l: Lit)
    requires Shape(s0) && OnTrail(s0) && Filtering(s0, s, level, q, |s0.trail|)
    ensures True(s, l) <==> True(s0, l) && Level(s0, l) <= level
    ensures False(s, l) <==> False(s0, l) && Level(s0, l) <= level
    ensures l < |s.values| ==> -1 <= s.values[l] <= 1
    ensures l < |s.values| ==> Neg(l) < |s.values| && s.values[Neg(l)] == -s.values[l]
    ensures True(s, l) ==> Position(s, l) < q && s.trail[Position(s, l)] == l &&
                           Position(s, l) == |Kept(s0, level, s0.trail, Position(s0, l))|
  {
    hide Kept, Start;
    if l < |s0.values| {
      assert s0.values[Neg(l)] == -s0.values[l];
      SameVar(l, Neg(l));
      if s0.values[l] == 0 {
        assert NotRead(s0, |s0.trail|, l) && NotRead(s0, |s0.trail|, Neg(l));
      } else {
        var t := if s0.values[l] > 0 then l else Neg(l);
        assert True(s0, t);
        SameVar(t, Neg(t));
        var i := Position(s0, t);
        assert s0.trail[i] == t;
        if Level(s0, t) <= level {
          assert PositionKept(s0, s, level, q, i);
          assert s0.values[t] > 0;
        } else {
          assert Cleared(s, t);
        }
      }
    }
  }

  lemma BacktrackedShape(s0: State, s: State, level: nat, q: nat)
    requires Shape(s0) && OnTrail(s0) && Filtering(s0, s, level, q, |s0.trail|)
    ensures Shape(Backtracked(s0, s, level, q)) && OnTrail(Backtracked(s0, s, level, q))
  {
    hide Kept, Start, PositionKept, Cleared, NotRead;
    forall l: nat | l < |s.values|
      ensures -1 <= s.values[l] <= 1 && Neg(l) < |s.values| && s.values[Neg(l)] == -s.values[l]
    {
      BacktrackedTrue(s0, s, level, q, l);
    }
    var t := Backtracked(s0, s, level, q);
    forall l: nat | True(t, l) ensures Position(t, l) < |t.trail| && t.trail[Position(t, l)] == l {
      BacktrackedTrue(s0, s, level, q, l);
    }
    forall i | 0 <= i < |t.trail| ensures True(t, t.trail[i]) && Position(t, t.trail[i]) == i {
      var j := KeptIndex(s0, level, s0.trail, |s0.trail|, i);
      assert s.trail[i] == s.trail[..q][i];
      assert True(s0, s0.trail[j]);
      BacktrackedTrue(s0, s, level, q, s0.trail[j]);
    }
  }

  /** A forced literal is still forced: its reason has no higher level, and its order is kept. */
  lemma BacktrackedForced(s0: State, s: State, level: nat, q: nat, c: seq<Lit>, j: nat)
    requires Shape(s0) && OnTrail(s0) && Filtering(s0, s, level, q, |s0.trail|)
    requires j < |s0.trail| && Level(s0, s0.trail[j]) <= level && Forced(s0, c, j)
    ensures Position(s, s0.trail[j]) < q && s.trail[Position(s, s0.trail[j])] == s0.trail[j]
    ensures Forced(Backtracked(s0, s, level, q), c, Position(s, s0.trail[j]))
  {
    hide Kept, Start, PositionKept, Cleared, NotRead;
    var l := s0.trail[j];
    assert True(s0, l) && Position(s0, l) == j;
    BacktrackedTrue(s0, s, level, q, l);
    forall o | o in c && o != l ensures False(s, o) && Position(s, o) < Position(s, l) {
      FalseOnTrail(s0, o);
      SameVar(o, Neg(o));
      BacktrackedTrue(s0, s, level, q, o);
      BacktrackedTrue(s0, s, level, q, Neg(o));
      var i := Position(s0, o);
      KeptMore(s0, level, s0.trail, i, j);
    }
    assert forall x :: Level(Backtracked(s0, s, level, q), x) == Level(s0, x);
  }

  lemma KeptMore(s: State, level: nat, c: seq<Lit>, i: nat, j: nat)
    requires i < j <= |c| && Level(s, c[i]) <= level
    ensures |Kept(s, level, c, i)| < |Kept(s, level, c, j)|
  {
    KeptPrefix(s, level, c, i + 1, j);
  }

  lemma BacktrackedReason(s0: State, f: Clauses, s: State, level: nat, q: nat, i: nat)
    requires TrailOK(s0, f) && level < s0.level && Filtering(s0, s, level, q, |s0.trail|) && i < q
    ensures ReasonAt(Backtracked(s0, s, level, q), f, i)
  {
    hide Start, PositionKept, Cleared, NotRead, Reasons, Levels, Forced;
    var j := KeptIndex(s0, level, s0.trail, |s0.trail|, i);
    var l := s0.trail[j];
    assert ReasonAt(s0, f, j) by { AllReasons(s0, f, j); }
    assert True(s0, l) && Position(s0, l) == j;
    BacktrackedTrue(s0, s, level, q, l);
    assert s.trail[i] == s.trail[..q][i] == l;
    match ReasonOf(s0, l)
    case Decision => DecisionKept(s0, s, level, q, j);
    case Binary(o) => BacktrackedForced(s0, s, level, q, [l, o], j);
    case Large(ref) => BacktrackedForced(s0, s, level, q, s0.clauses[ref], j);
    case Unit =>
  }

  lemma AllReasons(s: State, f: Clauses, j: nat)
    requires Reasons(s, f) && j < |s.trail|
    ensures ReasonAt(s, f, j)
  {
  }

  /** A decision that stays keeps its position, so it still starts its level. */
  lemma DecisionKept(s0: State, s: State, level: nat, q: nat, j: nat)
    requires Levels(s0) && level < s0.level && Filtering(s0, s, level, q, |s0.trail|) && j < |s0.trail|
    requires Level(s0, s0.trail[j]) <= level && 0 < Level(s0, s0.trail[j])
    requires s0.frames[Level(s0, s0.trail[j])] == j
    ensures |Kept(s0, level, s0.trail, j)| == j
  {
    hide PositionKept, Cleared, NotRead;
    StartBound(s0, level);
    KeptAll(s0, level, j);
  }

  lemma BacktrackedLevels(s0: State, s: State, level: nat, q: nat)
    requires Shape(s0) && OnTrail(s0) && Levels(s0) && level < s0.level && Filtering(s0, s, level, q, |s0.trail|)
    ensures Levels(Backtracked(s0, s, level, q)) && Start(s0, level) <= q
  {
    hide Kept, Start, PositionKept, Cleared, NotRead, Shape, OnTrail;
    StartBound(s0, level);
    var n := Start(s0, level);
    var t := Backtracked(s0, s, level, q);
    BacktrackedPrefix(s0, s, level, q);
    forall i | 0 <= i < |t.trail| ensures Level(t, t.trail[i]) <= level {
      var j := KeptIndex(s0, level, s0.trail, |s0.trail|, i);
      SameLevel(s0, s, level, q, s0.trail[j]);
    }
    forall i, k | 0 < k < |t.frames| && 0 <= i < t.frames[k] && i < |t.trail| ensures Level(t, t.trail[i]) < k {
      assert t.trail[i] == t.trail[..n][i] == s0.trail[i];
      SameLevel(s0, s, level, q, s0.trail[i]);
    }
  }

  lemma SameLevel(s0: State, s: State, level: nat, q: nat, l: Lit)
    requires Filtering(s0, s, level, q, |s0.trail|)
    ensures Level(Backtracked(s0, s, level, q), l) == Level(s0, l)
  {
    hide Kept, PositionKept, Cleared, NotRead;
  }

  lemma BacktrackedPrefix(s0: State, s: State, level: nat, q: nat)
    requires Levels(s0) && level < s0.level && Filtering(s0, s, level, q, |s0.trail|)
    ensures Backtracked(s0, s, level, q).trail == Kept(s0, level, s0.trail, |s0.trail|)
    ensures Start(s0, level) <= q && Start(s0, level) <= |s0.trail|
    ensures Backtracked(s0, s, level, q).trail[..Start(s0, level)] == s0.trail[..Start(s0, level)]
  {
    hide Kept, PositionKept, Cleared, NotRead;
    StartBound(s0, level);
    var n := Start(s0, level);
    KeptAll(s0, level, n);
    KeptPrefix(s0, level, s0.trail, n, |s0.trail|);
  }

  /**
    Backtracking keeps exactly the literals of level at most the new one, in order; all that is known of
    the trail still holds.
   */
  lemma BacktrackedOK(s0: State, f: Clauses, s: State, level: nat, q: nat)
    requires TrailOK(s0, f) && level < s0.level && Filtering(s0, s, level, q, |s0.trail|)
    ensures var t := Backtracked(s0, s, level, q); TrailOK(t, f) && t.trail == Kept(s0, level, s0.trail, |s0.trail|)
  {
    hide Kept, PositionKept, Cleared, NotRead, Reasons, Start;
    BacktrackedShape(s0, s, level, q);
    BacktrackedLevels(s0, s, level, q);
    forall i | 0 <= i < q ensures ReasonAt(Backtracked(s0, s, level, q), f, i) {
      BacktrackedReason(s0, f, s, level, q, i);
    }
    BacktrackedReasons(Backtracked(s0, s, level, q), f);
  }

  lemma BacktrackedReasons(s: State, f: Clauses)
    requires forall i :: 0 <= i < |s.trail| ==> ReasonAt(s, f, i)
    ensures Reasons(s, f)
  {
  }

  // ------------------------------------------------------------------ the steps as a whole

  /** The trail invariant does not depend on the other fields. */
  lemma SameTrail(s: State, t: State)
    requires Shape(s) && OnTrail(s)
    requires t.values == s.values && t.assignments == s.assignments && t.trail == s.trail
    requires t.unassigned == s.unassigned
    ensures Shape(t) && OnTrail(t)
    ensures forall l: nat :: True(t, l) <==> True(s, l)
    ensures forall l: nat :: False(t, l) <==> False(s, l)
  {
    forall l: nat | True(t, l) ensures Position(t, l) < |t.trail| && t.trail[Position(t, l)] == l {
      assert True(s, l);
    }
    forall i | 0 <= i < |t.trail| ensures True(t, t.trail[i]) && Position(t, t.trail[i]) == i {
      assert True(s, s.trail[i]);
    }
  }

  lemma SameReason(s: State, f: Clauses, t: State, i: nat)
    requires i < |s.trail| && ReasonAt(s, f, i)
    requires t.values == s.values && t.assignments == s.assignments && t.trail == s.trail && t.clauses == s.clauses
    requires s.frames <= t.frames
    ensures ReasonAt(t, f, i)
  {
  }

  lemma OpenKeeps(s: State, f: Clauses, l: Lit)
    requires TrailOK(s, f)
    ensures TrailOK(s.(frames := s.frames + [|s.trail|], level := s.level + 1), f)
    ensures |s.frames| == s.level + 1
  {
    var t := s.(frames := s.frames + [|s.trail|], level := s.level + 1);
    SameTrail(s, t);
    hide Shape, OnTrail;
    forall i | 0 <= i < |t.trail| ensures ReasonAt(t, f, i) {
      SameReason(s, f, t, i);
    }
    OpenLevels(s, t);
    OpenReasons(t, f);
  }

  lemma OpenLevels(s: State, t: State)
    requires Levels(s) && t == s.(frames := s.frames + [|s.trail|], level := s.level + 1)
    ensures Levels(t)
  {
  }

  lemma OpenReasons(t: State, f: Clauses)
    requires forall i :: 0 <= i < |t.trail| ==> ReasonAt(t, f, i)
    ensures Reasons(t, f)
  {
  }

  lemma PutDecision(s: State, f: Clauses, l: Lit)
    requires TrailOK(s, f) && s.level > 0 && (|s.frames| > s.level ==> s.frames[s.level] == |s.trail|)
    requires l < |s.values| && s.values[l] == 0
    ensures MayForce(s, f, s.level, l, Decision)
    ensures Neg(l) < |s.values| && Var(l) < |s.assignments|
    ensures True(Put(s, s.level, l, Decision), l) && Level(Put(s, s.level, l, Decision), l) == s.level
    ensures ReasonOf(Put(s, s.level, l, Decision), l) == Decision
  {
    assert s.values[Neg(l)] == -s.values[l];
  }

  lemma BinaryFacts(s: State, f: Clauses, l: Lit, o: Lit)
    requires TrailOK(s, f) && l < |s.values| && s.values[l] == 0 && False(s, o) && Entails(f, [l, o])
    ensures Var(o) < |s.assignments| && MayForce(s, f, Level(s, o), l, Binary(o))
    ensures Neg(l) < |s.values| && Var(l) < |s.assignments|
    ensures forall r :: var t := Put(s, Level(s, o), l, r); True(t, l) && Level(t, l) == Level(s, o)
  {
    hide Levels, Forced;
    FalseOnTrail(s, o);
    SameVar(l, Neg(l));
    assert s.values[Neg(l)] == -s.values[l];
    var i := Position(s, o);
    assert ReasonAt(s, f, i) && Level(s, Neg(o)) == Level(s, o);
    if Level(s, o) == 0 {
      BinaryRoot(f, l, o);
    }
    FalseLevel(s, o);
  }

  lemma FalseLevel(s: State, o: Lit)
    requires Shape(s) && OnTrail(s) && Levels(s) && False(s, o)
    ensures Level(s, o) <= s.level
  {
    FalseOnTrail(s, o);
    SameVar(o, Neg(o));
  }

  lemma BinaryRoot(f: Clauses, l: Lit, o: Lit)
    requires Entails(f, [l, o]) && Entails(f, [Neg(o)])
    ensures Entails(f, [l])
  {
    SameVar(o, Neg(o));
    ResolveEntails(f, [l, o], [Neg(o)], o, [l]);
  }

  /** A reason over a binary reason is implied too, and of the same level. */
  lemma JumpedReason(s: State, f: Clauses, l: Lit, o: Lit)
    requires TrailOK(s, f) && l < |s.values| && s.values[l] == 0 && False(s, o) && Entails(f, [l, o])
    requires Level(s, o) > 0 && ReasonOf(s, o).Binary?
    ensures MayForce(s, f, Level(s, o), l, Binary(ReasonOf(s, o).other))
  {
    FalseOnTrail(s, o);
    SameVar(o, Neg(o));
    var i := Position(s, o);
    assert ReasonAt(s, f, i);
    var o' := ReasonOf(s, o).other;
    assert Forced(s, [Neg(o), o'], i);
    ResolveEntails(f, [l, o], [Neg(o), o'], o, [l, o']);
    FalseLevel(s, o);
  }

  lemma ReferenceFacts(s: State, f: Clauses, l: Lit, ref: nat)
    requires TrailOK(s, f) && ref < |s.clauses| && forall o :: o in s.clauses[ref] && o != l ==> False(s, o)
    ensures forall o :: o in s.clauses[ref] && o != l ==> Var(o) < |s.assignments|
  {
  }

  lemma ReferenceForces(s: State, f: Clauses, l: Lit, ref: nat, level: nat)
    requires TrailOK(s, f) && l < |s.values| && s.values[l] == 0
    requires ref < |s.clauses| && l in s.clauses[ref] && Entails(f, s.clauses[ref])
    requires forall o :: o in s.clauses[ref] && o != l ==> False(s, o) && Level(s, o) <= level
    requires level > 0 ==> exists o :: o in s.clauses[ref] && o != l && Level(s, o) == level
    ensures MayForce(s, f, level, l, Large(ref)) && Neg(l) < |s.values| && Var(l) < |s.assignments|
    ensures True(Put(s, level, l, Large(ref)), l) && Level(Put(s, level, l, Large(ref)), l) == level
  {
    SameVar(l, Neg(l));
    assert s.values[Neg(l)] == -s.values[l];
    if level > 0 {
      var o :| o in s.clauses[ref] && o != l && Level(s, o) == level;
      FalseLevel(s, o);
    } else {
      forall o | o in s.clauses[ref] && o != l ensures Entails(f, [Neg(o)]) {
        RootFalse(s, f, o);
      }
      SameVar(l, Neg(l));
      ResolveEntails(f, s.clauses[ref], s.clauses[ref], l, [l]);
    }
  }

  /** The negation of a literal that is false at the root level follows from the formula. */
  lemma RootFalse(s: State, f: Clauses, o: Lit)
    requires TrailOK(s, f) && False(s, o) && Level(s, o) == 0
    ensures Entails(f, [Neg(o)])
  {
    hide Levels, Forced;
    FalseOnTrail(s, o);
    SameVar(o, Neg(o));
    assert ReasonAt(s, f, Position(s, o));
  }

  /** What backtracking keeps: literals of level at most the new one, with level and reason. */
  ghost predicate SameKept(s0: State, s: State, level: nat) {
    && |s.values| == |s0.values| && |s.assignments| == |s0.assignments|
    && s.clauses == s0.clauses && s.clause == s0.clause && s.options == s0.options
    && s.analyzed == s0.analyzed && s.resolvent == s0.resolvent
    && (forall v ::
          0 <= v < |s.assignments| ==> s.assignments[v] == s0.assignments[v].(trail := s.assignments[v].trail))
    && (forall l: nat :: True(s, l) <==> True(s0, l) && Level(s0, l) <= level)
    && (forall l: nat :: False(s, l) <==> False(s0, l) && Level(s0, l) <= level)
    && (forall l: nat :: l < |s.values| ==> s.values[l] == 0 || s.values[l] == s0.values[l])
  }

  /** No variable is flagged as analyzed that was not before. */
  ghost predicate FlagsKept(s0: State, s: State) {
    && |s.values| == |s0.values| && |s.assignments| == |s0.assignments|
    && s.analyzed == s0.analyzed && s.resolvent == s0.resolvent
    && forall v :: 0 <= v < |s.assignments| && s.assignments[v].analyzed ==> s0.assignments[v].analyzed
  }

  lemma FlagsTrans(s0: State, s1: State, s: State)
    requires FlagsKept(s0, s1) && FlagsKept(s1, s)
    ensures FlagsKept(s0, s)
  {
  }

  lemma KeptFlags(s0: State, s: State, level: nat)
    requires SameKept(s0, s, level)
    ensures FlagsKept(s0, s)
  {
  }

  lemma PutFlags(s: State, level: nat, l: Lit, reason: Reason)
    requires Var(l) < |s.assignments| && l < |s.values| && Neg(l) < |s.values|
    ensures FlagsKept(s, Put(s, level, l, reason))
  {
  }

  lemma SameKeptRefl(s: State, f: Clauses, level: nat)
    requires TrailOK(s, f)
    ensures level == s.level ==> SameKept(s, s, level)
  {
    hide Reasons;
    forall l: nat | False(s, l) ensures Level(s, l) <= s.level {
      FalseLevel(s, l);
    }
  }

  lemma SameKeptTrans(s: State, s': State, s'': State, level: nat)
    requires s.level > 0 && SameKept(s, s', s.level - 1) && SameKept(s', s'', level) && level < s.level
    ensures SameKept(s, s'', level)
  {
  }

  lemma BacktrackStart(s: State, f: Clauses, level: nat)
    requires TrailOK(s, f) && level < s.level
    ensures level + 1 < |s.frames| && s.frames[level + 1] == Start(s, level) <= |s.trail|
    ensures Filtering(s, s.(frames := s.frames[..level + 1]), level, Start(s, level), Start(s, level))
  {
    hide Reasons, Shape, OnTrail, Filtering;
    StartBound(s, level);
    FilteringStart(s, level);
  }

  lemma BacktrackNext(s0: State, f: Clauses, s: State, level: nat, q: nat, p: nat)
    requires TrailOK(s0, f) && Filtering(s0, s, level, q, p) && p < |s0.trail|
    ensures p < |s.trail| && Var(s.trail[p]) < |s.assignments| && s.trail[p] < |s.values|
    ensures Neg(s.trail[p]) < |s.values|
    ensures q <= p && q <= s.assignments[Var(s.trail[p])].trail
    ensures if s.assignments[Var(s.trail[p])].level <= level then Filtering(s0, Keep(s, q, p), level, q + 1, p + 1)
            else Filtering(s0, Drop(s, s.trail[p]), level, q, p + 1)
  {
    hide Reasons, Shape, OnTrail, Levels, Kept, PositionKept, Cleared, NotRead, Start;
    FilteringNext(s0, s, level, q, p);
    if Level(s0, s0.trail[p]) <= level {
      FilterKeep(s0, s, level, q, p);
    } else {
      FilterDrop(s0, s, level, q, p);
    }
  }

  lemma BacktrackEnd(s0: State, f: Clauses, s: State, level: nat, q: nat)
    requires TrailOK(s0, f) && level < s0.level && Filtering(s0, s, level, q, |s0.trail|) && |s.trail| == |s0.trail|
    ensures q <= |s.trail|
    ensures var t := Backtracked(s0, s, level, q);
            TrailOK(t, f) && t.trail == Kept(s0, level, s0.trail, |s0.trail|) && SameKept(s0, t, level)
  {
    BacktrackedOK(s0, f, s, level, q);
    hide Reasons, Shape, OnTrail, Levels, Kept, PositionKept, Cleared, NotRead, Start;
    var t := Backtracked(s0, s, level, q);
    forall l: nat
      ensures True(t, l) <==> True(s0, l) && Level(s0, l) <= level
      ensures False(t, l) <==> False(s0, l) && Level(s0, l) <= level
      ensures l < |t.values| ==> t.values[l] == 0 || t.values[l] == s0.values[l]
    {
      BacktrackedValue(s0, s, level, q, l);
    }
  }

  lemma BacktrackedValue(s0: State, s: State, level: nat, q: nat, l: Lit)
    requires Shape(s0) && OnTrail(s0) && Filtering(s0, s, level, q, |s0.trail|)
    ensures True(s, l) <==> True(s0, l) && Level(s0, l) <= level
    ensures False(s, l) <==> False(s0, l) && Level(s0, l) <= level
    ensures l < |s.values| ==> s.values[l] == 0 || s.values[l] == s0.values[l]
  {
    BacktrackedTrue(s0, s, level, q, l);
  }
}
