/**
  The heap of variables ordered by score (inlineheap.h), with the position of every variable
  on it: holes move up and down, and no variable is ever lost.
 */
module ScoreHeap {

  /** The position of a variable that is not on the heap. */
  const DISCONTAIN := -1

  /** Scores and positions have an entry for every variable imported so far. */
  datatype Heap = Heap(stack: seq<nat>, score: seq<real>, pos: seq<int>, tainted: bool)

  function Parent(i: nat): nat
    requires i > 0
  {
    (i - 1) / 2
  }

  function Child(i: nat): nat {
    2 * i + 1
  }

  function Contains(h: Heap, idx: nat): bool {
    idx < |h.pos| && h.pos[idx] >= 0
  }

  /** The stack and the positions are inverse to each other. */
  ghost predicate Indexed(h: Heap) {
    && |h.score| == |h.pos|
    && (forall i :: 0 <= i < |h.stack| ==> h.stack[i] < |h.pos| && h.pos[h.stack[i]] == i)
    && (forall v ::
          0 <= v < |h.pos| ==> h.pos[v] == DISCONTAIN || (0 <= h.pos[v] < |h.stack| && h.stack[h.pos[v]] == v))
  }

  /** The score of a variable; variables not yet imported have score zero. */
  function ScoreOf(h: Heap, v: nat): real {
    if v < |h.score| then h.score[v] else 0.0
  }

  function ScoreAt(h: Heap, i: nat): real {
    if i < |h.stack| && h.stack[i] < |h.score| then h.score[h.stack[i]] else 0.0
  }

  /** The element at position i is not better than its parent. */
  ghost predicate Edge(h: Heap, i: nat) {
    0 < i < |h.stack| ==> ScoreAt(h, Parent(i)) >= ScoreAt(h, i)
  }

  /** All edges are in order but for those at position k; skipping k they are, too. */
  ghost predicate Almost(h: Heap, k: nat) {
    && (forall i: nat :: i != k && (i > 0 ==> Parent(i) != k) ==> Edge(h, i))
    && (forall i: nat :: 0 < i < |h.stack| && Parent(i) == k && k > 0 ==> ScoreAt(h, Parent(k)) >= ScoreAt(h, i))
  }

  ghost predicate DownOK(h: Heap, k: nat) {
    forall i: nat :: 0 < i < |h.stack| && Parent(i) == k ==> Edge(h, i)
  }

  ghost predicate Ordered(h: Heap) {
    forall i: nat :: Edge(h, i)
  }

  ghost predicate HeapOK(h: Heap) {
    Indexed(h) && Ordered(h)
  }

  /** The first element has the largest score. */
  lemma {:induction false} RootLargest(h: Heap, i: nat)
    requires Ordered(h) && i < |h.stack|
    ensures ScoreAt(h, 0) >= ScoreAt(h, i)
  {
    if i > 0 {
      RootLargest(h, Parent(i));
      assert Edge(h, i);
    }
  }

  // ------------------------------------------------------------------ moving the hole

  /** The heap with the element idx put into the hole. */
  function Filled(h: Heap, hole: nat, idx: nat): Heap
    requires hole < |h.stack| && idx < |h.pos|
  {
    h.(stack := h.stack[hole := idx], pos := h.pos[idx := hole])
  }

  /** The state of a loop that moves a hole: filled, only the order at the hole may be wrong. */
  ghost predicate Moving(h: Heap, hole: nat, idx: nat) {
    && hole < |h.stack| && idx < |h.pos| && Indexed(Filled(h, hole, idx)) && Almost(Filled(h, hole, idx), hole)
  }

  /** The stack after the element at position k has moved into the hole. */
  function Shifted(h: Heap, hole: nat, k: nat): Heap
    requires hole < |h.stack| && k < |h.stack| && h.stack[k] < |h.pos|
  {
    h.(stack := h.stack[hole := h.stack[k]], pos := h.pos[h.stack[k] := hole])
  }

  /** Moving an element into the hole exchanges it with the element to be put there. */
  lemma ShiftedIndexed(h: Heap, hole: nat, idx: nat, k: nat)
    requires hole < |h.stack| && idx < |h.pos| && Indexed(Filled(h, hole, idx)) && k < |h.stack| && k != hole
    ensures h.stack[k] < |h.pos| && h.stack[k] != idx
    ensures var t := Filled(Shifted(h, hole, k), k, idx);
            && Indexed(t) && (forall v: nat :: Contains(t, v) <==> Contains(Filled(h, hole, idx), v))
            && ScoreAt(t, k) == ScoreAt(Filled(h, hole, idx), hole) &&
               ScoreAt(t, hole) == ScoreAt(Filled(h, hole, idx), k)
            && forall i: nat :: i != k && i != hole ==> ScoreAt(t, i) == ScoreAt(Filled(h, hole, idx), i)
  {
    var f := Filled(h, hole, idx);
    assert f.stack[k] == h.stack[k] && f.stack[hole] == idx;
    assert f.pos[f.stack[k]] == k && f.pos[idx] == hole;
    var t := Filled(Shifted(h, hole, k), k, idx);
    forall i | 0 <= i < |t.stack| ensures t.stack[i] < |t.pos| && t.pos[t.stack[i]] == i {
      assert f.pos[f.stack[i]] == i;
    }
    forall v | 0 <= v < |t.pos|
      ensures t.pos[v] == DISCONTAIN || (0 <= t.pos[v] < |t.stack| && t.stack[t.pos[v]] == v)
    {
      assert f.pos[v] == DISCONTAIN || (0 <= f.pos[v] < |f.stack| && f.stack[f.pos[v]] == v);
    }
  }

  /** The hole moves up as long as the parent is worse. */
  lemma UpStep(h: Heap, hole: nat, idx: nat)
    requires Moving(h, hole, idx) && hole > 0
    requires ScoreAt(Filled(h, hole, idx), Parent(hole)) < ScoreAt(Filled(h, hole, idx), hole)
    ensures Parent(hole) < hole && h.stack[Parent(hole)] < |h.pos| && h.stack[Parent(hole)] != idx
    ensures var t := Shifted(h, hole, Parent(hole));
            Moving(t, Parent(hole), idx) && DownOK(Filled(t, Parent(hole), idx), Parent(hole))
    ensures forall v: nat :: Contains(Filled(Shifted(h, hole, Parent(hole)), Parent(hole), idx), v) <==>
                             Contains(Filled(h, hole, idx), v)
  {
    var k := Parent(hole);
    ShiftedIndexed(h, hole, idx, k);
    var f, t := Filled(h, hole, idx), Filled(Shifted(h, hole, k), k, idx);
    forall i: nat | 0 < i < |t.stack| ensures i != k ==> Edge(t, i)
      ensures Parent(i) == k && k > 0 ==> ScoreAt(t, Parent(k)) >= ScoreAt(t, i)
    {
      assert i != hole && Parent(i) != hole ==> Edge(f, i);
      assert k > 0 ==> Edge(f, k);
    }
  }

  /** The hole moves down to the better child as long as that is better. */
  lemma DownStep(h: Heap, hole: nat, idx: nat, k: nat)
    requires Moving(h, hole, idx) && k < |h.stack| && k > 0 && Parent(k) == hole
    requires ScoreAt(Filled(h, hole, idx), k) > ScoreAt(Filled(h, hole, idx), hole)
    requires forall i: nat :: 0 < i < |h.stack| && Parent(i) == hole ==>
               ScoreAt(Filled(h, hole, idx), i) <= ScoreAt(Filled(h, hole, idx), k)
    requires Edge(Filled(h, hole, idx), hole)
    ensures hole < k && h.stack[k] < |h.pos| && h.stack[k] != idx
    ensures var t := Shifted(h, hole, k); Moving(t, k, idx) && Edge(Filled(t, k, idx), k)
    ensures forall v: nat :: Contains(Filled(Shifted(h, hole, k), k, idx), v) <==> Contains(Filled(h, hole, idx), v)
  {
    ShiftedIndexed(h, hole, idx, k);
    var f, t := Filled(h, hole, idx), Filled(Shifted(h, hole, k), k, idx);
    forall i: nat | 0 < i < |t.stack| ensures Parent(i) != k ==> Edge(t, i)
      ensures Parent(i) == k ==> ScoreAt(t, Parent(k)) >= ScoreAt(t, i)
    {
      assert i != hole && Parent(i) != hole ==> Edge(f, i);
    }
  }

  // ------------------------------------------------------------------ importing, adding and removing

  function Enlarged(h: Heap, n: nat): Heap
    requires |h.pos| <= n && |h.score| == |h.pos|
  {
    h.(score := h.score + seq(n - |h.score|, _ => 0.0), pos := h.pos + seq(n - |h.pos|, _ => DISCONTAIN))
  }

  lemma EnlargedKeeps(h: Heap, n: nat)
    requires HeapOK(h) && |h.pos| <= n
    ensures var t := Enlarged(h, n);
            HeapOK(t) && (forall v: nat :: Contains(t, v) <==> Contains(h, v)) && forall v: nat ::
                  ScoreOf(t, v) == ScoreOf(h, v)
  {
    var t := Enlarged(h, n);
    forall i: nat ensures Edge(t, i) {
      assert Edge(h, i);
      assert forall j: nat :: j < |t.stack| ==> ScoreAt(t, j) == ScoreAt(h, j);
    }
  }

  function Appended(h: Heap, idx: nat): Heap
    requires idx < |h.pos|
  {
    h.(pos := h.pos[idx := |h.stack|], stack := h.stack + [idx])
  }

  lemma AppendedKeeps(h: Heap, idx: nat)
    requires HeapOK(h) && idx < |h.pos| && !Contains(h, idx)
    ensures var t := Appended(h, idx);
            && Indexed(t) && t.pos[idx] == |h.stack| && Almost(t, |h.stack|) && DownOK(t, |h.stack|)
            && forall v: nat :: Contains(t, v) <==> (Contains(h, v) || v == idx)
  {
    var t := Appended(h, idx);
    assert h.pos[idx] == DISCONTAIN;
    assert forall j: nat :: j < |h.stack| ==> t.stack[j] == h.stack[j] && ScoreAt(t, j) == ScoreAt(h, j);
    forall i: nat | i != |h.stack| ensures Edge(t, i) {
      assert Edge(h, i);
    }
  }

  /** The last element is taken off the stack, and put in the place of idx if that is another one. */
  function Removed(h: Heap, idx: nat): Heap
    requires Indexed(h) && Contains(h, idx)
  {
    var last := h.stack[|h.stack| - 1];
    var t := h.(stack := h.stack[..|h.stack| - 1], pos := h.pos[last := DISCONTAIN]);
    if last == idx then t
    else t.(stack := t.stack[h.pos[idx] := last], pos := t.pos[idx := DISCONTAIN][last := h.pos[idx]])
  }

  lemma RemovedKeeps(h: Heap, idx: nat)
    requires HeapOK(h) && Contains(h, idx)
    ensures |h.stack| > 0 && 0 <= h.pos[idx] < |h.stack|
    ensures var last := h.stack[|h.stack| - 1]; var t := Removed(h, idx);
            && Indexed(t) && (forall v: nat :: Contains(t, v) <==> (Contains(h, v) && v != idx))
            && (last == idx ==> Ordered(t))
            && (last != idx ==> h.pos[idx] < |h.stack| - 1 && t.pos[last] == h.pos[idx] && Almost(t, t.pos[last]))
  {
    RemovedIndexed(h, idx);
    var last, t := h.stack[|h.stack| - 1], Removed(h, idx);
    forall i: nat | i < |t.stack| && i != h.pos[idx] ensures ScoreAt(t, i) == ScoreAt(h, i) {
      assert t.stack[i] == h.stack[i];
    }
    if last == idx {
      forall i: nat ensures Edge(t, i) {
        assert Edge(h, i);
      }
    } else {
      RemovedAlmost(h, idx);
    }
  }

  lemma RemovedIndexed(h: Heap, idx: nat)
    requires Indexed(h) && Contains(h, idx)
    ensures |h.stack| > 0 && 0 <= h.pos[idx] < |h.stack|
    ensures var last := h.stack[|h.stack| - 1]; var t := Removed(h, idx);
            && Indexed(t) && (forall v: nat :: Contains(t, v) <==> (Contains(h, v) && v != idx))
            && (last == idx ==> h.pos[idx] == |h.stack| - 1)
            && (last != idx ==> h.pos[idx] < |h.stack| - 1 && t.pos[last] == h.pos[idx])
  {
    var n, t := |h.stack| - 1, Removed(h, idx);
    assert h.pos[h.stack[n]] == n && h.stack[h.pos[idx]] == idx;
    forall i | 0 <= i < |t.stack| ensures t.stack[i] < |t.pos| && t.pos[t.stack[i]] == i {
      assert h.pos[h.stack[i]] == i;
    }
    forall v | 0 <= v < |t.pos|
      ensures t.pos[v] == DISCONTAIN || (0 <= t.pos[v] < |t.stack| && t.stack[t.pos[v]] == v)
    {
      assert h.pos[v] == DISCONTAIN || (0 <= h.pos[v] < |h.stack| && h.stack[h.pos[v]] == v);
    }
  }

  lemma RemovedAlmost(h: Heap, idx: nat)
    requires HeapOK(h) && Contains(h, idx) && h.stack[|h.stack| - 1] != idx
    ensures 0 <= h.pos[idx] && Almost(Removed(h, idx), h.pos[idx])
  {
    var t, k: nat := Removed(h, idx), h.pos[idx];
    assert forall i: nat :: i < |t.stack| && i != k ==> t.stack[i] == h.stack[i] && ScoreAt(t, i) == ScoreAt(h, i);
    forall i: nat | i != k && (i > 0 ==> Parent(i) != k) ensures Edge(t, i) {
      assert Edge(h, i);
    }
    forall i: nat | 0 < i < |t.stack| && Parent(i) == k && k > 0 ensures ScoreAt(t, Parent(k)) >= ScoreAt(t, i) {
      assert Edge(h, i) && Edge(h, k);
    }
  }

  function Rescored(h: Heap, idx: nat, score: real): Heap
    requires idx < |h.score|
  {
    h.(score := h.score[idx := score], tainted := true)
  }

  /** Changing a score breaks the order in one direction only. */
  lemma RescoredKeeps(h: Heap, idx: nat, score: real)
    requires HeapOK(h) && idx < |h.score|
    ensures var t := Rescored(h, idx, score);
            && Indexed(t) && (!Contains(h, idx) ==> Ordered(t))
            && (Contains(h, idx) ==> Almost(t, t.pos[idx]))
            && (Contains(h, idx) && score > h.score[idx] ==> DownOK(t, t.pos[idx]))
            && (Contains(h, idx) && score <= h.score[idx] ==> Edge(t, t.pos[idx]))
  {
    var t := Rescored(h, idx, score);
    forall i: nat | i < |h.stack| ensures ScoreAt(t, i) == if i == h.pos[idx] then score else ScoreAt(h, i) {
      assert h.pos[h.stack[i]] == i;
    }
    forall i: nat ensures Edge(h, i) && (i > 0 ==> Parent(i) < i) {
    }
    if Contains(h, idx) {
      assert h.stack[h.pos[idx]] == idx && ScoreAt(h, h.pos[idx]) == h.score[idx];
    }
  }

  // ------------------------------------------------------------------ operations

  /** From h to h' elements have only moved. */
  ghost predicate SameElements(h: Heap, h': Heap) {
    && h'.score == h.score && h'.tainted == h.tainted && |h'.pos| == |h.pos| && |h'.stack| == |h.stack|
    && forall v: nat :: Contains(h', v) <==> Contains(h, v)
  }

  class VariableHeap {
    var h: Heap

    constructor ()
      ensures h == Heap([], [], [], false)
    {
      h := Heap([], [], [], false);
    }

    /** Moves an element up to its place; below it, the order is as before. */
    method BubbleUp(idx: nat)
      requires Indexed(h) && Contains(h, idx) && Almost(h, h.pos[idx])
      modifies this`h
      ensures Indexed(h) && SameElements(old(h), h) && Contains(h, idx)
      ensures Almost(h, h.pos[idx]) && Edge(h, h.pos[idx])
      ensures DownOK(old(h), old(h).pos[idx]) ==> Ordered(h)
    {
      hide Indexed, Almost, Edge, DownOK;
      StartMoving(h, idx);
      var idxPos: nat := h.pos[idx];
      var idxScore := h.score[idx];
      ghost var moved := false;
      while idxPos > 0
        invariant Moving(h, idxPos, idx) && SameElements(old(h), Filled(h, idxPos, idx))
        invariant moved ==> DownOK(Filled(h, idxPos, idx), idxPos)
        invariant !moved ==> h == old(h) && idxPos == old(h).pos[idx]
        decreases idxPos
      {
        MovingFacts(h, idxPos, idx);
        var parentPos := Parent(idxPos);
        var parent := h.stack[parentPos];
        if h.score[parent] >= idxScore {
          MovingStops(h, idxPos, idx);
          break;
        }
        UpStep(h, idxPos, idx);
        h := h.(stack := h.stack[idxPos := parent]);
        h := h.(pos := h.pos[parent := idxPos]);
        idxPos := parentPos;
        moved := true;
      }
      MovingTop(h, idxPos, idx);
      MovingDone(old(h), h, idxPos, idx, moved);
      h := h.(stack := h.stack[idxPos := idx]);
      h := h.(pos := h.pos[idx := idxPos]);
    }

    /** Moves an element down to its place. */
    method BubbleDown(idx: nat)
      requires Indexed(h) && Contains(h, idx) && Almost(h, h.pos[idx]) && Edge(h, h.pos[idx])
      modifies this`h
      ensures HeapOK(h) && SameElements(old(h), h)
    {
      hide Indexed, Almost, Edge, DownOK;
      StartMoving(h, idx);
      var idxPos: nat := h.pos[idx];
      var idxScore := h.score[idx];
      while true
        invariant Moving(h, idxPos, idx) && SameElements(old(h), Filled(h, idxPos, idx)) && idxPos < |h.stack|
        invariant Edge(Filled(h, idxPos, idx), idxPos)
        decreases |h.stack| - idxPos
      {
        MovingFacts(h, idxPos, idx);
        var childPos := Child(idxPos);
        if childPos >= |h.stack| {
          NoChildren(h, idxPos, idx);
          break;
        }
        var child := h.stack[childPos];
        ChildFacts(h, idxPos, idx, childPos);
        var childScore := h.score[child];
        var siblingPos := childPos + 1;
        if siblingPos < |h.stack| {
          var sibling := h.stack[siblingPos];
          ChildFacts(h, idxPos, idx, siblingPos);
          var siblingScore := h.score[sibling];
          if siblingScore > childScore {
            child := sibling;
            childPos := siblingPos;
            childScore := siblingScore;
          }
        }
        BestChild(h, idxPos, idx, childPos);
        if childScore <= idxScore {
          break;
        }
        DownStep(h, idxPos, idx, childPos);
        h := h.(stack := h.stack[idxPos := child]);
        h := h.(pos := h.pos[child := idxPos]);
        idxPos := childPos;
      }
      MovingPlaced(old(h), h, idxPos, idx);
      h := h.(stack := h.stack[idxPos := idx]);
      h := h.(pos := h.pos[idx := idxPos]);
    }

    method Enlarge(n: nat)
      requires HeapOK(h) && |h.pos| < n
      modifies this`h
      ensures HeapOK(h) && |h.pos| == n && h.tainted == old(h).tainted
      ensures (forall v: nat :: Contains(h, v) <==> Contains(old(h), v))
      ensures forall v: nat :: ScoreOf(h, v) == ScoreOf(old(h), v)
    {
      EnlargedKeeps(h, n);
      h := Enlarged(h, n);
    }

    /** Adds a variable, importing it if it is new. */
    method Push(idx: nat)
      requires HeapOK(h) && !Contains(h, idx)
      modifies this`h
      ensures HeapOK(h) && forall v: nat :: Contains(h, v) <==> (Contains(old(h), v) || v == idx)
      ensures h.tainted == old(h).tainted && forall v: nat :: ScoreOf(h, v) == ScoreOf(old(h), v)
    {
      hide Indexed, Almost, Edge, DownOK;
      if |h.pos| <= idx {
        Enlarge(idx + 1);
      }
      AppendedKeeps(h, idx);
      h := h.(pos := h.pos[idx := |h.stack|]);
      h := h.(stack := h.stack + [idx]);
      BubbleUp(idx);
    }

    /** Removes a variable. */
    method Pop(idx: nat)
      requires HeapOK(h) && Contains(h, idx)
      modifies this`h
      ensures HeapOK(h) && forall v: nat :: Contains(h, v) <==> (Contains(old(h), v) && v != idx)
      ensures h.score == old(h).score && h.tainted == old(h).tainted && |h.stack| == |old(h).stack| - 1
    {
      hide Almost, Edge, DownOK;
      RemovedKeeps(h, idx);
      var last := h.stack[|h.stack| - 1];
      h := h.(stack := h.stack[..|h.stack| - 1]);
      h := h.(pos := h.pos[last := DISCONTAIN]);
      if last == idx {
        return;
      }
      var idxPos := h.pos[idx];
      h := h.(pos := h.pos[idx := DISCONTAIN]);
      h := h.(stack := h.stack[idxPos := last]);
      h := h.(pos := h.pos[last := idxPos]);
      assert h == Removed(old(h), idx);
      BubbleUp(last);
      BubbleDown(last);
    }

    /** Removes a variable with the largest score. */
    method PopMax() returns (idx: nat)
      requires HeapOK(h) && h.stack != []
      modifies this`h
      ensures HeapOK(h) && Contains(old(h), idx) && idx == old(h).stack[0]
      ensures forall v: nat :: Contains(h, v) <==> (Contains(old(h), v) && v != idx)
      ensures forall v: nat :: Contains(old(h), v) ==> ScoreOf(h, idx) >= ScoreOf(h, v)
      ensures h.score == old(h).score && h.tainted == old(h).tainted && |h.stack| == |old(h).stack| - 1
    {
      hide Almost, DownOK;
      idx := h.stack[0];
      MaxLargest(h);
      RemovedKeeps(h, idx);
      var last := h.stack[|h.stack| - 1];
      h := h.(stack := h.stack[..|h.stack| - 1]);
      h := h.(pos := h.pos[last := DISCONTAIN]);
      if last == idx {
        return;
      }
      h := h.(pos := h.pos[idx := DISCONTAIN]);
      h := h.(stack := h.stack[0 := last]);
      h := h.(pos := h.pos[last := 0]);
      assert h == Removed(old(h), idx);
      BubbleDown(last);
    }

    /** Changes the score of a variable, on the heap or not. */
    method Update(idx: nat, newScore: real)
      requires HeapOK(h)
      modifies this`h
      ensures HeapOK(h) && forall v: nat :: Contains(h, v) <==> Contains(old(h), v)
      ensures forall v: nat :: ScoreOf(h, v) == if v == idx then newScore else ScoreOf(old(h), v)
      ensures h.tainted == (old(h).tainted || newScore != ScoreOf(old(h), idx))
    {
      hide Indexed, Almost, Edge, DownOK;
      var oldScore := ScoreOf(h, idx);
      if oldScore == newScore {
        return;
      }
      if |h.pos| <= idx {
        Enlarge(idx + 1);
      }
      SameSize(h);
      RescoredKeeps(h, idx, newScore);
      h := h.(score := h.score[idx := newScore]);
      if !h.tainted {
        h := h.(tainted := true);
      }
      if !Contains(h, idx) {
        return;
      }
      if newScore > oldScore {
        BubbleUp(idx);
      } else {
        BubbleDown(idx);
      }
    }
  }

  lemma SameSize(h: Heap)
    requires Indexed(h)
    ensures |h.score| == |h.pos|
  {
  }

  /** The first variable on the stack has the largest score of all variables on the heap. */
  lemma MaxLargest(h: Heap)
    requires HeapOK(h) && h.stack != []
    ensures Contains(h, h.stack[0]) && h.pos[h.stack[0]] == 0
    ensures forall v: nat :: Contains(h, v) ==> ScoreOf(h, h.stack[0]) >= ScoreOf(h, v)
  {
    forall v: nat | Contains(h, v) ensures ScoreOf(h, h.stack[0]) >= ScoreOf(h, v) {
      RootLargest(h, h.pos[v]);
    }
  }

  lemma StartMoving(h: Heap, idx: nat)
    requires Indexed(h) && Contains(h, idx) && Almost(h, h.pos[idx])
    ensures idx < |h.score| && 0 <= h.pos[idx] < |h.stack| && Filled(h, h.pos[idx], idx) == h
    ensures Moving(h, h.pos[idx], idx)
  {
    assert h.stack[h.pos[idx] := idx] == h.stack && h.pos[idx := h.pos[idx]] == h.pos;
  }

  lemma MovingFacts(h: Heap, hole: nat, idx: nat)
    requires Moving(h, hole, idx)
    ensures |h.score| == |h.pos| && idx < |h.score| && ScoreAt(Filled(h, hole, idx), hole) == h.score[idx]
    ensures hole > 0 ==> Parent(hole) < hole < |h.stack| && h.stack[Parent(hole)] < |h.score|
    ensures hole > 0 ==> ScoreAt(Filled(h, hole, idx), Parent(hole)) == h.score[h.stack[Parent(hole)]]
  {
    var f := Filled(h, hole, idx);
    assert f.stack[hole] == idx;
    if hole > 0 {
      assert f.stack[Parent(hole)] == h.stack[Parent(hole)];
    }
  }

  lemma MovingStops(h: Heap, hole: nat, idx: nat)
    requires Moving(h, hole, idx) && hole > 0
    requires ScoreAt(Filled(h, hole, idx), Parent(hole)) >= ScoreAt(Filled(h, hole, idx), hole)
    ensures Edge(Filled(h, hole, idx), hole)
  {
  }

  lemma MovingTop(h: Heap, hole: nat, idx: nat)
    requires Moving(h, hole, idx)
    ensures hole == 0 ==> Edge(Filled(h, hole, idx), hole)
  {
  }

  lemma MovingDone(h0: Heap, h: Heap, hole: nat, idx: nat, moved: bool)
    requires Moving(h, hole, idx) && Edge(Filled(h, hole, idx), hole) && Contains(h0, idx)
    requires moved ==> DownOK(Filled(h, hole, idx), hole)
    requires !moved ==> h == h0 && hole == h0.pos[idx] && Indexed(h0)
    requires SameElements(h0, Filled(h, hole, idx))
    ensures var t := Filled(h, hole, idx);
            && Indexed(t) && Contains(t, idx) && t.pos[idx] == hole && Almost(t, hole) && Edge(t, hole)
            && (DownOK(h0, h0.pos[idx]) ==> Ordered(t))
  {
    var t := Filled(h, hole, idx);
    if !moved {
      StartSame(h0, idx);
    }
    if DownOK(t, hole) {
      forall i: nat ensures Edge(t, i) {
        if i > 0 && Parent(i) != hole && i != hole {
          assert Edge(t, i);
        }
      }
    }
  }

  lemma StartSame(h: Heap, idx: nat)
    requires Indexed(h) && Contains(h, idx)
    ensures h.pos[idx] < |h.stack| && Filled(h, h.pos[idx], idx) == h
  {
    assert h.stack[h.pos[idx] := idx] == h.stack && h.pos[idx := h.pos[idx]] == h.pos;
  }

  lemma ChildFacts(h: Heap, hole: nat, idx: nat, c: nat)
    requires Moving(h, hole, idx) && hole < c < |h.stack|
    ensures h.stack[c] < |h.score| && ScoreAt(Filled(h, hole, idx), c) == h.score[h.stack[c]]
  {
    assert Filled(h, hole, idx).stack[c] == h.stack[c];
  }

  lemma NoChildren(h: Heap, hole: nat, idx: nat)
    requires Moving(h, hole, idx) && Child(hole) >= |h.stack|
    ensures DownOK(Filled(h, hole, idx), hole)
  {
  }

  /** The better child bounds both. */
  lemma BestChild(h: Heap, hole: nat, idx: nat, c: nat)
    requires Moving(h, hole, idx) && Child(hole) <= c <= Child(hole) + 1 && c < |h.stack|
    requires ScoreAt(Filled(h, hole, idx), Child(hole)) <= ScoreAt(Filled(h, hole, idx), c)
    requires Child(hole) + 1 < |h.stack| ==>
               ScoreAt(Filled(h, hole, idx), Child(hole) + 1) <= ScoreAt(Filled(h, hole, idx), c)
    ensures Parent(c) == hole && forall i: nat :: 0 < i < |h.stack| && Parent(i) == hole ==>
              ScoreAt(Filled(h, hole, idx), i) <= ScoreAt(Filled(h, hole, idx), c)
    ensures ScoreAt(Filled(h, hole, idx), c) <= ScoreAt(Filled(h, hole, idx), hole) ==>
              DownOK(Filled(h, hole, idx), hole)
  {
    forall i: nat | 0 < i < |h.stack| && Parent(i) == hole ensures i == Child(hole) || i == Child(hole) + 1 {
    }
  }

  lemma MovingPlaced(h0: Heap, h: Heap, hole: nat, idx: nat)
    requires Moving(h, hole, idx) && Edge(Filled(h, hole, idx), hole) && DownOK(Filled(h, hole, idx), hole)
    ensures HeapOK(Filled(h, hole, idx))
  {
    var t := Filled(h, hole, idx);
    forall i: nat ensures Edge(t, i) {
    }
  }
}
