/**
  Decision variables (decide.c, inlinequeue.h, queue.c, flags.c): the queue with its cached search
  position in focused mode and the heap of scores in stable mode.  Through every sequence of the
  operations the next decision variable is found whenever a variable is unassigned.
 */
module DecisionOrder {
  import opened LinkedQueue
  import opened Literals
  import opened ScoreHeap
  import opened Sequences

  /** Links (previous, next, stamp) per variable, two values per variable. */
  datatype Decisions = Decisions(links: seq<Link>, first: int, last: int, stamp: nat, search: int, searchStamp: nat,
                                 values: seq<int>, active: seq<bool>, stable: bool)

  /** The list of the queued variables, with increasing positive stamps. */
  ghost predicate Linked(d: Decisions, order: seq<nat>) {
    && QueueOK(d.links, d.first, d.last, d.stamp + 1, order) && d.stamp <= UINT_MAX && |d.links| < UINT_MAX
    && (forall i :: 0 <= i < |order| ==> d.links[order[i]].stamp >= 1)
  }

  /** The list alone, whatever the stamps are. */
  ghost predicate Chained(d: Decisions, order: seq<nat>) {
    && |d.links| < UINT_MAX
    && (forall i :: 0 <= i < |order| ==> NodeOK(d.links, order, i))
    && (forall i, j :: 0 <= i < j < |order| ==> order[i] != order[j])
    && d.first == (if order == [] then DISCONNECT else order[0])
    && d.last == (if order == [] then DISCONNECT else order[|order| - 1])
  }

  /** The queue holds exactly the active variables. */
  ghost predicate Members(d: Decisions, order: seq<nat>) {
    && |d.active| == |d.links| && |d.values| == 2 * |d.links|
    && forall v: nat :: (v < |d.active| && d.active[v]) <==> v in order
  }

  /** The stamp of the search position is cached. */
  ghost predicate Cached(d: Decisions, order: seq<nat>) {
    if d.search == DISCONNECT then d.searchStamp == 0
    else 0 <= d.search < |d.links| && d.search in order && d.searchStamp == d.links[d.search].stamp
  }

  /** Position j is behind the search position. */
  ghost predicate Behind(search: int, order: seq<nat>, j: nat) {
    search == DISCONNECT || exists k :: 0 <= k < j && k < |order| && order[k] == search
  }

  /** All variables behind the search position are assigned. */
  ghost predicate Searched(search: int, order: seq<nat>, values: seq<int>) {
    forall j: nat :: j < |order| && Behind(search, order, j) ==> IsAssigned(values, order[j])
  }

  predicate IsAssigned(values: seq<int>, v: nat) {
    2 * v < |values| && values[2 * v] != 0
  }

  /** Only active variables are on the heap. */
  ghost predicate Eligible(d: Decisions, h: Heap) {
    HeapOK(h) && forall v: nat :: Contains(h, v) ==> v < |d.active| && d.active[v]
  }

  /** All active unassigned variables are on the heap. */
  ghost predicate Heaped(d: Decisions, h: Heap) {
    forall v: nat :: v < |d.active| && d.active[v] && !IsAssigned(d.values, v) ==> Contains(h, v)
  }

  /** What every operation keeps. */
  ghost predicate Inv(d: Decisions, order: seq<nat>, h: Heap) {
    && Linked(d, order) && Members(d, order) && Cached(d, order) && Eligible(d, h)
    && (if d.stable then Heaped(d, h) else Searched(d.search, order, d.values))
  }

  /** v is unassigned, and every active variable enqueued after v is assigned. */
  ghost predicate LastUnassigned(d: Decisions, v: nat) {
    && v < |d.active| == |d.links| && d.active[v] && !IsAssigned(d.values, v)
    && forall w: nat :: w < |d.active| && d.active[w] && d.links[w].stamp > d.links[v].stamp ==> IsAssigned(d.values, w)
  }

  /** v is unassigned, and no active unassigned variable has a larger score. */
  ghost predicate LargestUnassigned(d: Decisions, h: Heap, v: nat) {
    && v < |d.active| && d.active[v] && !IsAssigned(d.values, v)
    && forall w: nat :: w < |d.active| && d.active[w] && !IsAssigned(d.values, w) ==> ScoreOf(h, v) >= ScoreOf(h, w)
  }

  ghost predicate SomeUnassigned(d: Decisions) {
    exists v: nat :: v < |d.active| && d.active[v] && !IsAssigned(d.values, v)
  }

  /** The k-th draw, taken modulo the number of variables, is active and unassigned. */
  ghost predicate Drawn(d: Decisions, draws: nat -> nat, k: nat)
    requires |d.active| > 0
  {
    var v := draws(k) % |d.active|;
    d.active[v] && !IsAssigned(d.values, v)
  }

  // ------------------------------------------------------------------ facts about the list

  lemma Position(d: Decisions, order: seq<nat>, v: nat) returns (i: nat)
    requires Linked(d, order) && v in order
    ensures i < |order| && order[i] == v && v < |d.links|
    ensures d.links[v].prev == (if i == 0 then DISCONNECT else order[i - 1])
    ensures d.links[v].next == (if i == |order| - 1 then DISCONNECT else order[i + 1])
    ensures 1 <= d.links[v].stamp <= d.stamp
    ensures forall j :: 0 <= j < |order| && j != i ==> order[j] != v
    ensures forall j: nat :: j < |order| ==> (j > i <==> d.links[order[j]].stamp > d.links[v].stamp)
  {
    i :| 0 <= i < |order| && order[i] == v;
    assert NodeOK(d.links, order, i);
    forall j: nat | j < |order| && j != i
      ensures order[j] != v && (j > i <==> d.links[order[j]].stamp > d.links[v].stamp) {
      if j < i {
        assert d.links[order[j]].stamp < d.links[order[i]].stamp;
      } else {
        assert d.links[order[i]].stamp < d.links[order[j]].stamp;
      }
    }
  }

  /** Moving the search position to one behind which all variables are assigned. */
  lemma SearchedAt(order: seq<nat>, values: seq<int>, i: nat)
    requires i < |order| && forall j :: 0 <= j < |order| && j != i ==> order[j] != order[i]
    requires forall j :: i < j < |order| ==> IsAssigned(values, order[j])
    ensures Searched(order[i], order, values)
  {
  }

  lemma SearchedFrom(search: int, order: seq<nat>, values: seq<int>, i: nat)
    requires Searched(search, order, values) && i < |order| && search == order[i]
    ensures forall j :: i < j < |order| ==> IsAssigned(values, order[j])
  {
    forall j | i < j < |order| ensures IsAssigned(values, order[j]) {
      assert order[i] == search;
      assert Behind(search, order, j);
    }
  }

  lemma LinkedChained(d: Decisions, order: seq<nat>)
    requires Linked(d, order)
    ensures Chained(d, order)
  {
    forall i, j | 0 <= i < j < |order| ensures order[i] != order[j] {
      assert d.links[order[i]].stamp < d.links[order[j]].stamp;
    }
  }

  lemma OrderBound(d: Decisions, order: seq<nat>)
    requires Chained(d, order)
    ensures |order| <= |d.links| && forall i :: 0 <= i < |order| ==> order[i] < |d.links|
  {
    forall i | 0 <= i < |order| ensures order[i] < |d.links| {
      assert NodeOK(d.links, order, i);
    }
    Pigeonhole(order, |d.links|);
  }

  // ------------------------------------------------------------------ the list operations

  /** The links while stamps are reassigned: the first n nodes have the stamps 1 to n. */
  ghost predicate Restamped(links: seq<Link>, links0: seq<Link>, order: seq<nat>, n: nat) {
    && n <= |order| && |links| == |links0|
    && (forall v :: 0 <= v < |links| ==> links[v] == links0[v].(stamp := links[v].stamp))
    && (forall v: nat :: v < |links| && v !in order ==> links[v] == links0[v])
    && (forall i :: 0 <= i < n ==> order[i] < |links| && links[order[i]].stamp == i + 1)
  }

  lemma RestampStep(links: seq<Link>, links0: seq<Link>, order: seq<nat>, n: nat)
    requires Restamped(links, links0, order, n) && n < |order| && order[n] < |links|
    requires forall i, j :: 0 <= i < j < |order| ==> order[i] != order[j]
    ensures Restamped(links[order[n] := links[order[n]].(stamp := n + 1)], links0, order, n + 1)
    ensures |links| == |links0| && links[order[n]].next == links0[order[n]].next
  {
  }

  lemma RestampStart(links: seq<Link>, order: seq<nat>)
    ensures Restamped(links, links, order, 0)
  {
  }

  lemma RestampedRest(links: seq<Link>, links0: seq<Link>, order: seq<nat>)
    requires Restamped(links, links0, order, |order|)
    ensures |links| == |links0| && forall v: nat :: v < |links| && v !in order ==> links[v] == links0[v]
  {
  }

  lemma RestampedLinked(d: Decisions, order: seq<nat>, links: seq<Link>, d': Decisions)
    requires Chained(d, order) && Restamped(links, d.links, order, |order|)
    requires d' == d.(links := links, stamp := |order|, searchStamp := d'.searchStamp)
    ensures Linked(d', order)
  {
    OrderBound(d, order);
    forall i: nat | i < |order| ensures NodeOK(links, order, i) {
      assert NodeOK(d.links, order, i);
    }
  }

  /** Taking a node out of the list. */
  function Cut(d: Decisions, i: nat): Decisions
    requires i < |d.links|
    requires var l := d.links[i];
             (l.prev == DISCONNECT || 0 <= l.prev < |d.links|) && (l.next == DISCONNECT || 0 <= l.next < |d.links|)
  {
    var l := d.links[i];
    d.(links := Unlinked(d.links, l.prev, l.next)[i := l.(prev := DISCONNECT, next := DISCONNECT)],
       first := if l.prev == DISCONNECT
           then l.next else d.first, last := if l.next == DISCONNECT then l.prev else d.last)
  }

  lemma CutLinked(d: Decisions, order: seq<nat>, i: nat)
    requires Linked(d, order) && i < |order|
    ensures var l := d.links[order[i]];
            (l.prev == DISCONNECT || 0 <= l.prev < |d.links|) && (l.next == DISCONNECT || 0 <= l.next < |d.links|)
    ensures Linked(Cut(d, order[i]), order[..i] + order[i + 1..]) && order[i] !in order[..i] + order[i + 1..]
    ensures forall v :: 0 <= v < |d.links| ==> Cut(d, order[i]).links[v].stamp == d.links[v].stamp
  {
    hide QueueOK, NodeOK;
    InLinks(d, order);
    UnlinkKeeps(d.links, d.first, d.last, d.stamp + 1, order, i);
    var v, l, rest := order[i], d.links[order[i]], order[..i] + order[i + 1..];
    LinkedChained(d, order);
    UnlinkedStamps(d.links, l.prev, l.next);
    forall k: nat | k < |rest| ensures rest[k] != v && rest[k] < |d.links| {
      assert rest[k] == order[if k < i then k else k + 1];
    }
    ChangeOutside(Unlinked(d.links, l.prev, l.next), if l.prev == DISCONNECT then l.next else d.first,
                  if l.next == DISCONNECT
                     then l.prev else d.last, d.stamp + 1, rest, v, l.(prev := DISCONNECT, next := DISCONNECT));
  }

  lemma InLinks(d: Decisions, order: seq<nat>)
    requires Linked(d, order)
    ensures forall k :: 0 <= k < |order| ==> order[k] < |d.links|
  {
  }

  /** Nodes outside the list do not matter. */
  lemma ChangeOutside(links: seq<Link>, first: int, last: int, stamp: nat, order: seq<nat>, v: nat, l: Link)
    requires QueueOK(links, first, last, stamp, order) && v !in order && v < |links|
    ensures QueueOK(links[v := l], first, last, stamp, order)
  {
    var links1 := links[v := l];
    forall k: nat | k < |order| ensures NodeOK(links1, order, k) {
      assert NodeOK(links, order, k) && order[k] != v;
    }
  }

  lemma UnlinkedStamps(links: seq<Link>, prev: int, next: int)
    requires prev == DISCONNECT || 0 <= prev < |links|
    requires next == DISCONNECT || 0 <= next < |links|
    ensures var links1 := Unlinked(links, prev, next);
            |links1| == |links| && forall v :: 0 <= v < |links| ==> links1[v].stamp == links[v].stamp
  {
  }

  /** Linking a node at the end of the list. */
  function Joined(d: Decisions, idx: nat): Decisions
    requires idx < |d.links| && (d.last == DISCONNECT || 0 <= d.last < |d.links|)
  {
    var links1 := d.links[idx := d.links[idx].(prev := d.last)];
    d.(links := if d.last == DISCONNECT then links1 else links1[d.last := links1[d.last].(next := idx)],
       first := if d.last == DISCONNECT then idx else d.first, last := idx)
  }

  function Stamped(d: Decisions, idx: nat): Decisions
    requires idx < |d.links|
  {
    d.(links := d.links[idx := d.links[idx].(stamp := d.stamp + 1)], stamp := d.stamp + 1)
  }

  lemma JoinedStamped(d: Decisions, order: seq<nat>, idx: nat)
    requires Linked(d, order) && idx < |d.links| && idx !in order && d.links[idx].next == DISCONNECT
    ensures d.last == DISCONNECT || 0 <= d.last < |d.links|
    ensures var t := Stamped(Joined(d, idx), idx); QueueOK(t.links, t.first, t.last, t.stamp + 1, order + [idx])
    ensures d.stamp < UINT_MAX ==> Linked(Stamped(Joined(d, idx), idx), order + [idx])
    ensures forall v ::
              0 <= v < |d.links| && v != idx ==> Stamped(Joined(d, idx), idx).links[v].stamp == d.links[v].stamp
  {
    hide QueueOK, NodeOK;
    LinkKeeps(d.links, d.first, d.last, d.stamp + 1, order, idx);
    FirstInOrder(d, order);
    JoinedSame(d, idx);
  }

  lemma JoinedSame(d: Decisions, idx: nat)
    requires idx < |d.links| && (d.last == DISCONNECT || 0 <= d.last < |d.links|) && d.last != idx
    requires d.links[idx].next == DISCONNECT
    ensures var links1 := if d.last == DISCONNECT then d.links else d.links[d.last := d.links[d.last].(next := idx)];
            Stamped(Joined(d, idx), idx).links == links1[idx := Link(d.last, DISCONNECT, d.stamp + 1)]
  {
  }

  lemma JoinedChained(d: Decisions, order: seq<nat>, idx: nat)
    requires Linked(d, order) && idx < |d.links| && idx !in order && d.links[idx].next == DISCONNECT
    ensures d.last == DISCONNECT || 0 <= d.last < |d.links|
    ensures Chained(Joined(d, idx), order + [idx])
  {
    JoinedStamped(d, order, idx);
    LinkedChained(d, order);
    var j, t := Joined(d, idx), Stamped(Joined(d, idx), idx);
    forall i: nat | i < |order + [idx]| ensures NodeOK(j.links, order + [idx], i) {
      assert NodeOK(t.links, order + [idx], i);
    }
  }

  // ------------------------------------------------------------------ what the operations keep

  /** The list after an operation on it: links and stamps have changed, and perhaps the cached stamp. */
  ghost predicate Relinked(d: Decisions, d': Decisions) {
    d' == d.(links := d'.links, first := d'.first, last := d'.last, stamp := d'.stamp, searchStamp := d'.searchStamp)
    && |d'.links| == |d.links|
  }

  lemma AssignKeeps(d: Decisions, order: seq<nat>, h: Heap, values: seq<int>)
    requires Inv(d, order, h) && |values| == |d.values|
    requires forall v: nat :: IsAssigned(d.values, v) ==> IsAssigned(values, v)
    ensures Inv(d.(values := values), order, h)
  {
    hide QueueOK, HeapOK;
  }

  /** An unassigned variable with a larger stamp than the search position becomes the search position. */
  lemma UnassignKeeps(d: Decisions, order: seq<nat>, h: Heap, v: nat, values: seq<int>)
    requires Inv(d, order, h) && |values| == |d.values| && !d.stable && v in order
    requires forall w: nat :: w != v && IsAssigned(d.values, w) ==> IsAssigned(values, w)
    ensures v < |d.links|
    ensures d.links[v].stamp > d.searchStamp ==>
              Inv(d.(values := values, search := v, searchStamp := d.links[v].stamp), order, h)
    ensures d.links[v].stamp <= d.searchStamp ==> Inv(d.(values := values), order, h)
  {
    hide QueueOK, HeapOK;
    var i := Position(d, order, v);
    if d.search == DISCONNECT {
      forall j | i < j < |order| ensures IsAssigned(values, order[j]) {
        assert Behind(d.search, order, j);
      }
      SearchedAt(order, values, i);
    } else {
      var k := Position(d, order, d.search);
      SearchedFrom(d.search, order, d.values, k);
      if d.links[v].stamp > d.searchStamp {
        SearchedAt(order, values, i);
      } else {
        SearchedAt(order, values, k);
      }
    }
  }

  /** Appending an assigned variable keeps the search position. */
  lemma SearchedAppend(search: int, order: seq<nat>, values: seq<int>, v: nat)
    requires Searched(search, order, values) && IsAssigned(values, v) && (search == DISCONNECT || search in order)
    ensures Searched(search, order + [v], values)
  {
    forall j: nat | j < |order| && Behind(search, order + [v], j) ensures IsAssigned(values, order[j]) {
      if search != DISCONNECT {
        var k :| 0 <= k < j && (order + [v])[k] == search;
        assert order[k] == search;
      }
      assert Behind(search, order, j);
    }
  }

  /** Removing another variable keeps the search position. */
  lemma SearchedRemove(search: int, order: seq<nat>, values: seq<int>, i: nat)
    requires Searched(search, order, values) && i < |order|
    ensures Searched(search, order[..i] + order[i + 1..], values)
  {
    var rest := order[..i] + order[i + 1..];
    forall j: nat | j < |rest| && Behind(search, rest, j) ensures IsAssigned(values, rest[j]) {
      var j' := if j < i then j else j + 1;
      assert rest[j] == order[j'];
      if search != DISCONNECT {
        var k :| 0 <= k < j && k < |rest| && rest[k] == search;
        assert order[if k < i then k else k + 1] == search;
      }
      assert Behind(search, order, j');
    }
  }

  /** The neighbours of a removed search position can replace it. */
  lemma SearchedNeighbour(order: seq<nat>, values: seq<int>, i: nat, next: bool)
    requires i < |order| && Searched(order[i], order, values)
    requires forall j, k :: 0 <= j < k < |order| ==> order[j] != order[k]
    requires if next then i + 1 < |order| else i > 0 && i + 1 <= |order|
    requires !next ==> i == |order| - 1 || IsAssigned(values, order[i])
    ensures Searched(order[if next then i + 1 else i - 1], order[..i] + order[i + 1..], values)
  {
    SearchedFrom(order[i], order, values, i);
    var rest := order[..i] + order[i + 1..];
    var m := if next then i else i - 1;
    assert rest[m] == order[if next then i + 1 else i - 1];
    forall j | m < j < |rest| ensures IsAssigned(values, rest[j]) {
      assert rest[j] == order[j + 1];
    }
    forall j | 0 <= j < |rest| && j != m ensures rest[j] != rest[m] {
      assert rest[j] == order[if j < i then j else j + 1];
    }
    SearchedAt(rest, values, m);
  }

  /** Nothing but the list and the search position has changed. */
  ghost predicate Requeued(d: Decisions, d': Decisions) {
    && d' == d.(links := d'.links, first := d'.first, last := d'.last, stamp := d'.stamp, search := d'.search,
                searchStamp := d'.searchStamp)
    && |d'.links| == |d.links|
  }

  lemma WithoutMember(d: Decisions, order: seq<nat>, i: nat)
    requires Linked(d, order) && i < |order|
    ensures forall v: nat :: v in Without(order, i) <==> (v in order && v != order[i])
  {
    hide QueueOK, NodeOK;
    LinkedChained(d, order);
    WithoutSet(order, i);
  }

  lemma WithoutSet(order: seq<nat>, i: nat)
    requires i < |order| && forall j, k :: 0 <= j < k < |order| ==> order[j] != order[k]
    ensures forall v: nat :: v in Without(order, i) <==> (v in order && v != order[i])
  {
    var rest := Without(order, i);
    forall v: nat | v in order && v != order[i] ensures v in rest {
      var k :| 0 <= k < |order| && order[k] == v;
      assert rest[if k < i then k else k - 1] == v;
    }
    forall v: nat | v in rest ensures v in order && v != order[i] {
      var k :| 0 <= k < |rest| && rest[k] == v;
      assert order[if k < i then k else k + 1] == v;
    }
  }

  lemma MovedMembers(d: Decisions, order: seq<nat>, i: nat, d': Decisions)
    requires Linked(d, order) && Members(d, order) && i < |order| && Requeued(d, d')
    ensures Members(d', Without(order, i) + [order[i]])
  {
    WithoutMember(d, order, i);
    var order' := Without(order, i) + [order[i]];
    forall v: nat ensures v in order' <==> v in order {
      assert order[i] in order && order'[|order'| - 1] == order[i];
    }
  }

  /** An unassigned variable put last is a search position. */
  lemma SearchedLast(order: seq<nat>, values: seq<int>, v: nat)
    requires v !in order
    ensures Searched(v, order + [v], values)
  {
    var order' := order + [v];
    forall j | 0 <= j < |order'| && j != |order| ensures order'[j] != v {
      assert order'[j] == order[j];
    }
    SearchedAt(order', values, |order|);
  }

  lemma SomeQueued(d: Decisions, order: seq<nat>) returns (i: nat)
    requires Members(d, order) && SomeUnassigned(d)
    ensures i < |order| && order[i] < |d.active| && !IsAssigned(d.values, order[i])
  {
    var v: nat :| v < |d.active| && d.active[v] && !IsAssigned(d.values, v);
    assert v in order;
    i :| 0 <= i < |order| && order[i] == v;
  }

  /** The search position is not before the last unassigned variable. */
  lemma StartOfSearch(d: Decisions, order: seq<nat>) returns (i: nat)
    requires Linked(d, order) && Members(d, order) && Cached(d, order) && Searched(d.search, order, d.values)
    requires SomeUnassigned(d)
    ensures i < |order| && d.search == order[i] && order[i] < |d.links| && |d.values| == 2 * |d.links|
    ensures forall j :: i < j < |order| ==> IsAssigned(d.values, order[j])
  {
    var k := SomeQueued(d, order);
    assert d.search == DISCONNECT ==> Behind(d.search, order, k);
    i := Position(d, order, d.search);
    SearchedFrom(d.search, order, d.values, i);
  }

  lemma FoundLast(d: Decisions, order: seq<nat>, i: nat)
    requires Linked(d, order) && Members(d, order) && i < |order| && !IsAssigned(d.values, order[i])
    requires forall j :: i < j < |order| ==> IsAssigned(d.values, order[j])
    ensures LastUnassigned(d, order[i])
    ensures forall s: int, n: nat :: LastUnassigned(d.(search := s, searchStamp := n), order[i])
  {
    var v := order[i];
    assert v in order;
    var i' := Position(d, order, v);
    forall w: nat | w < |d.active| && d.active[w] && d.links[w].stamp > d.links[v].stamp
      ensures IsAssigned(d.values, w) {
      var j := Position(d, order, w);
      assert order[j] == w;
    }
  }

  // ------------------------------------------------------------------ the operations

  class Decider {
    var d: Decisions
    const scores: VariableHeap
    ghost var order: seq<nat>

    ghost predicate Valid()
      reads this, scores
    {
      Inv(d, order, scores.h)
    }

    /** All variables are inactive at first. */
    constructor (n: nat, stable: bool)
      requires n < UINT_MAX
      ensures Valid() && fresh(scores) && order == []
      ensures d.active == seq(n, _ => false) && d.stable == stable
    {
      d := Decisions(seq(n, _ => Link(DISCONNECT, DISCONNECT, 0)), DISCONNECT, DISCONNECT, 0, DISCONNECT, 0,
                     seq(2 * n, _ => 0), seq(n, _ => false), stable);
      scores := new VariableHeap();
      order := [];
    }

    method UpdateQueue(idx: nat)
      requires idx < |d.links|
      modifies this`d
      ensures d == old(d).(search := idx, searchStamp := old(d).links[idx].stamp)
      ensures Linked(old(d), order) ==> Linked(d, order)
    {
      d := d.(search := idx, searchStamp := d.links[idx].stamp);
    }

    /** Stamps the list anew from 1; the order stays. */
    method ReassignQueueStamps()
      requires Chained(d, order) && (d.search == DISCONNECT || 0 <= d.search < |d.links|)
      modifies this`d
      ensures Linked(d, order) && Relinked(old(d), d) && d.stamp == |order| && d.first == old(d).first
      ensures d.last == old(d).last
      ensures d.searchStamp == if d.search == DISCONNECT then old(d).searchStamp else d.links[d.search].stamp
      ensures forall v: nat :: v < |d.links| && v !in order ==> d.links[v] == old(d).links[v]
    {
      hide Chained, Linked, Restamped;
      OrderBound(d, order);
      ChainedEnds(d, order);
      RestampStart(d.links, order);
      d := d.(stamp := 0);
      ghost var n := 0;
      var idx := d.first;
      while idx != DISCONNECT
        invariant d == old(d).(links := d.links, stamp := n) && Restamped(d.links, old(d).links, order, n)
        invariant |d.links| == |old(d).links|
        invariant n <= |order| && idx == if n < |order| then order[n] else DISCONNECT
        decreases |order| - n
      {
        NextInOrder(old(d), order, n);
        RestampStep(d.links, old(d).links, order, n);
        d := d.(stamp := d.stamp + 1);
        d := d.(links := d.links[idx := d.links[idx].(stamp := d.stamp)]);
        idx := d.links[idx].next;
        n := n + 1;
      }
      RestampedRest(d.links, old(d).links, order);
      if d.search != DISCONNECT {
        d := d.(searchStamp := d.links[d.search].stamp);
      }
      RestampedLinked(old(d), order, d.links, d);
    }

    method EnqueueLinks(idx: nat)
      requires Linked(d, order) && idx < |d.links| && idx !in order && d.links[idx].prev == DISCONNECT
      requires d.links[idx].next == DISCONNECT
      requires d.search == DISCONNECT || 0 <= d.search < |d.links|
      modifies this
      ensures Linked(d, order) && order == old(order) + [idx] && Relinked(old(d), d)
      ensures Cached(old(d), old(order)) ==> Cached(d, order)
    {
      hide QueueOK, Linked, Chained;
      JoinedChained(d, order, idx);
      JoinedStamped(d, order, idx);
      var j := d.last;
      d := d.(links := d.links[idx := d.links[idx].(prev := j)]);
      d := d.(last := idx);
      if j == DISCONNECT {
        d := d.(first := idx);
      } else {
        d := d.(links := d.links[j := d.links[j].(next := idx)]);
      }
      assert d == Joined(old(d), idx);
      order := order + [idx];
      if d.stamp == UINT_MAX {
        ReassignQueueStamps();
      } else {
        BoundedStamp(old(d), old(order));
        d := d.(stamp := d.stamp + 1);
        d := d.(links := d.links[idx := d.links[idx].(stamp := d.stamp)]);
        assert d == Stamped(Joined(old(d), idx), idx);
      }
    }

    method DequeueLinks(i: nat, ghost at: nat)
      requires Linked(d, order) && at < |order| && order[at] == i && i < |d.links|
      modifies this
      ensures Linked(d, order) && order == old(order)[..at] + old(order)[at + 1..] && i !in order
      ensures d == old(d).(links := d.links, first := d.first, last := d.last) && |d.links| == |old(d).links|
      ensures d.links[i].prev == DISCONNECT && d.links[i].next == DISCONNECT
      ensures forall v :: 0 <= v < |d.links| ==> d.links[v].stamp == old(d).links[v].stamp
    {
      hide QueueOK, Linked;
      CutLinked(d, order, at);
      CutApart(d, order, at);
      var l := d.links[i];
      var j, k := l.prev, l.next;
      d := d.(links := d.links[i := l.(prev := DISCONNECT, next := DISCONNECT)]);
      if j == DISCONNECT {
        d := d.(first := k);
      } else {
        d := d.(links := d.links[j := d.links[j].(next := k)]);
      }
      if k == DISCONNECT {
        d := d.(last := j);
      } else {
        d := d.(links := d.links[k := d.links[k].(prev := j)]);
      }
      assert d.links == Cut(old(d), i).links;
      order := order[..at] + order[at + 1..];
    }

    /** A new variable goes to the end; if unassigned it becomes the search position. */
    method Enqueue(idx: nat)
      requires Linked(d, order) && Cached(d, order) && idx < |d.links| && idx !in order && 2 * idx < |d.values|
      modifies this
      ensures Linked(d, order) && Cached(d, order) && order == old(order) + [idx] && Requeued(old(d), d)
      ensures Searched(old(d).search, old(order), d.values) ==> Searched(d.search, order, d.values)
    {
      hide QueueOK, Linked, Searched;
      ResetNode(d, order, idx);
      d := d.(links := d.links[idx := d.links[idx].(prev := DISCONNECT, next := DISCONNECT)]);
      EnqueueLinks(idx);
      if d.values[2 * idx] == 0 {
        UpdateQueue(idx);
        SearchedLast(old(order), d.values, idx);
      } else if Searched(d.search, old(order), d.values) {
        SearchedAppend(d.search, old(order), d.values, idx);
      }
    }

    /** If the search position is removed, a neighbour replaces it. */
    method Dequeue(idx: nat, ghost i: nat)
      requires Linked(d, order) && Cached(d, order) && i < |order| && order[i] == idx && idx < |d.links|
      modifies this
      ensures Linked(d, order) && Cached(d, order) && order == Without(old(order), i) && Requeued(old(d), d)
      ensures Searched(old(d).search, old(order), d.values) ==> Searched(d.search, order, d.values)
    {
      hide QueueOK, Linked, Searched;
      LinkedChained(d, order);
      ChainedEnds(d, order);
      NextInOrder(d, order, i);
      WithoutMember(d, order, i);
      if d.search == idx {
        var search := d.links[idx].next;
        if search == DISCONNECT {
          search := d.links[idx].prev;
        }
        if search == DISCONNECT {
          d := d.(search := DISCONNECT, searchStamp := 0);
          ActiveApart(old(d), order, d);
        } else {
          InLinks(d, order);
          UpdateQueue(search);
        }
      }
      DequeueLinks(idx, i);
      DequeuedSearch(old(d), old(order), i, d);
    }

    /** Moves a variable to the end of the queue, which is the front of the search. */
    method MoveToFront(idx: nat)
      requires Valid() && !d.stable && idx in order
      modifies this
      ensures Valid() && Requeued(old(d), d)
      ensures exists i :: 0 <= i < |old(order)| && old(order)[i] == idx && order == Without(old(order), i) + [idx]
    {
      hide QueueOK, Linked, Searched, HeapOK;
      ghost var i := Position(d, order, idx);
      FirstInOrder(d, order);
      if idx == d.last {
        LastMoved(d, order, i);
        return;
      }
      ghost var rest := Without(order, i);
      var tmp := d.values[2 * idx];
      WithoutMember(d, order, i);
      if tmp != 0 && d.search == idx {
        var prev := d.links[idx].prev;
        if prev != DISCONNECT {
          UpdateQueue(prev);
        } else {
          var next := d.links[idx].next;
          UpdateQueue(next);
        }
      }
      if tmp != 0 {
        MovedSearch(old(d), order, i, d);
      }
      DequeueLinks(idx, i);
      EnqueueLinks(idx);
      if tmp == 0 {
        UpdateQueue(idx);
        SearchedLast(rest, d.values, idx);
      } else {
        SearchedAppend(d.search, rest, d.values, idx);
      }
      MovedMembers(old(d), old(order), i, d);
    }

    // -------------------------------------------------------------- assigning and unassigning

    method Assign(lit: Lit)
      requires Valid() && lit < |d.values| && d.values[lit] == 0
      modifies this`d
      ensures Valid() && d == old(d).(values := old(d).values[lit := 1][Neg(lit) := -1])
    {
      hide QueueOK, Linked, HeapOK;
      SameVar(lit, lit);
      var values := d.values[lit := 1][Neg(lit) := -1];
      AssignKeeps(d, order, scores.h, values);
      d := d.(values := values);
    }

    /** An unassigned variable goes back to the heap, or becomes the search position if that is before it. */
    method Unassign(lit: Lit)
      requires Valid() && lit < |d.values| && d.values[lit] > 0 && d.active[Var(lit)]
      modifies this`d, scores
      ensures Valid()
      ensures d == old(d).(values := old(d).values[lit := 0][Neg(lit) := 0], search := d.search,
                           searchStamp := d.searchStamp)
      ensures forall v: nat :: ScoreOf(scores.h, v) == ScoreOf(old(scores.h), v)
    {
      hide QueueOK, Linked, HeapOK;
      var idx := Var(lit);
      var values := d.values[lit := 0][Neg(lit) := 0];
      UnassignedOnly(d.values, lit);
      if d.stable {
        d := d.(values := values);
        ActiveApart(old(d), order, d);
        if !Contains(scores.h, idx) {
          scores.Push(idx);
        }
      } else {
        UnassignKeeps(d, order, scores.h, idx, values);
        d := d.(values := values);
        ActiveApart(old(d), order, d);
        if d.links[idx].stamp > d.searchStamp {
          UpdateQueue(idx);
        }
      }
    }

    // -------------------------------------------------------------- active variables and modes

    /** A new variable is queued, gets its score, and in stable mode is put on the heap. */
    method Activate(idx: nat, score: real)
      requires Valid() && idx < |d.active| && !d.active[idx] && !IsAssigned(d.values, idx)
      modifies this, scores
      ensures Valid() && order == old(order) + [idx] && Requeued(old(d).(active := old(d).active[idx := true]), d)
      ensures forall v: nat :: ScoreOf(scores.h, v) == if v == idx then score else ScoreOf(old(scores.h), v)
    {
      hide QueueOK, Linked, HeapOK, Searched;
      d := d.(active := d.active[idx := true]);
      ActiveApart(old(d), order, d);
      Enqueue(idx);
      scores.Update(idx, score);
      if d.stable {
        if d.values[2 * idx] == 0 {
          scores.Push(idx);
        }
      }
      ActivatedMembers(old(d), old(order), idx, d, order);
    }

    /** A fixed or eliminated variable leaves the queue and the heap. */
    method Deactivate(idx: nat)
      requires Valid() && idx < |d.active| && d.active[idx]
      modifies this, scores
      ensures Valid() && Requeued(old(d).(active := old(d).active[idx := false]), d)
      ensures scores.h.score == old(scores.h).score
    {
      hide QueueOK, Linked, HeapOK, Searched;
      ghost var i := Position(d, order, idx);
      d := d.(active := d.active[idx := false]);
      ActiveApart(old(d), order, d);
      WithoutMember(d, order, i);
      Dequeue(idx, i);
      if Contains(scores.h, idx) {
        scores.Pop(idx);
      }
    }

    method BumpScore(idx: nat, inc: real)
      requires Valid()
      modifies scores
      ensures Valid()
      ensures forall v: nat :: ScoreOf(scores.h, v) == ScoreOf(old(scores.h), v) + if v == idx then inc else 0.0
    {
      hide HeapOK;
      var oldScore := ScoreOf(scores.h, idx);
      scores.Update(idx, oldScore + inc);
    }

    /** The search starts again at the last variable of the queue. */
    method SwitchToFocused()
      requires Valid() && d.stable && d.last != DISCONNECT
      modifies this`d
      ensures Valid() && d == old(d).(stable := false, search := d.search, searchStamp := d.searchStamp)
    {
      hide QueueOK, Linked, HeapOK;
      ResetSearch(d, order);
      d := d.(stable := false);
      UpdateQueue(d.last);
      ActiveApart(old(d), order, d);
    }

    /** All active variables are put on the heap. */
    method SwitchToStable()
      requires Valid() && !d.stable
      modifies this`d, scores
      ensures Valid() && d == old(d).(stable := true)
      ensures forall v: nat :: ScoreOf(scores.h, v) == ScoreOf(old(scores.h), v)
    {
      hide QueueOK, Linked, HeapOK, Searched;
      d := d.(stable := true);
      ActiveApart(old(d), order, d);
      for idx := 0 to |d.active|
        invariant d == old(d).(stable := true) && Eligible(d, scores.h)
        invariant forall v: nat :: v < idx && d.active[v] ==> Contains(scores.h, v)
        invariant forall v: nat :: ScoreOf(scores.h, v) == ScoreOf(old(scores.h), v)
      {
        if d.active[idx] && !Contains(scores.h, idx) {
          scores.Push(idx);
        }
      }
    }

    // -------------------------------------------------------------- decisions

    /** Finds the unassigned variable enqueued last. */
    method LastEnqueuedUnassigned() returns (res: nat)
      requires Valid() && !d.stable && SomeUnassigned(d)
      modifies this`d
      ensures Valid() && LastUnassigned(d, res) && d == old(d).(search := d.search, searchStamp := d.searchStamp)
    {
      hide QueueOK, Linked, HeapOK, Searched, Chained, Members, Eligible, Behind, Cached;
      ghost var i: nat := StartOfSearch(d, order);
      LinkedChained(d, order);
      InLinks(d, order);
      res := d.search;
      if d.values[2 * res] != 0 {
        ghost var k: nat := SomeQueued(d, order);
        while d.values[2 * res] != 0
          invariant d == old(d) && i < |order| && res == order[i] && k <= i && res < |d.links|
          invariant forall j :: i < j < |order| ==> IsAssigned(d.values, order[j])
          decreases i
        {
          NextInOrder(d, order, i);
          res := d.links[res].prev;
          i := i - 1;
        }
        SearchMoved(d, order, scores.h, i);
        FoundLast(d, order, i);
        UpdateQueue(res);
      } else {
        FoundLast(d, order, i);
      }
    }

    /** Finds an unassigned variable of largest score. */
    method LargestScoreUnassigned() returns (res: nat)
      requires Valid() && d.stable && SomeUnassigned(d)
      modifies scores
      ensures Valid() && LargestUnassigned(d, scores.h, res) && scores.h.score == old(scores.h).score
    {
      hide QueueOK, Linked, HeapOK, Searched;
      ghost var i := SomeQueued(d, order);
      OnHeap(d, scores.h, order[i]);
      res := scores.h.stack[0];
      MaxLargest(scores.h);
      while d.values[2 * res] != 0
        invariant Eligible(d, scores.h) && Heaped(d, scores.h) && scores.h.stack != [] && res == scores.h.stack[0]
        invariant res < |d.active| && d.active[res] && scores.h.score == old(scores.h).score
        invariant forall v: nat :: Contains(scores.h, v) ==> ScoreOf(scores.h, res) >= ScoreOf(scores.h, v)
        decreases |scores.h.stack|
      {
        var popped := scores.PopMax();
        OnHeap(d, scores.h, order[i]);
        res := scores.h.stack[0];
        MaxLargest(scores.h);
      }
    }

    /** The first draw that is an active and unassigned variable; the generator has to produce one some day. */
    method NextRandomDecision(draws: nat -> nat, ghost hit: nat) returns (res: nat)
      requires Valid() && |d.active| > 0 && Drawn(d, draws, hit)
      ensures exists k :: 0 <= k <= hit && res == draws(k) % |d.active| && Drawn(d, draws, k) &&
                          forall j :: 0 <= j < k ==> !Drawn(d, draws, j)
    {
      var k := 0;
      while true
        invariant 0 <= k <= hit && forall j :: 0 <= j < k ==> !Drawn(d, draws, j)
        decreases hit - k
      {
        res := draws(k) % |d.active|;
        if d.active[res] && d.values[2 * res] == 0 {
          assert Drawn(d, draws, k);
          return;
        }
        assert !Drawn(d, draws, k);
        k := k + 1;
      }
    }

    /** A random variable is taken if that is wanted; otherwise, in either mode, one by score or position. */
    method NextDecisionVariable(random: bool, draws: nat -> nat, ghost hit: nat) returns (res: nat)
      requires Valid() && SomeUnassigned(d) && (random ==> |d.active| > 0 && Drawn(d, draws, hit))
      modifies this`d, scores
      ensures Valid() && d == old(d).(search := d.search, searchStamp := d.searchStamp)
      ensures if random then res < |d.active| && d.active[res] && !IsAssigned(d.values, res) && d == old(d)
              else if d.stable then LargestUnassigned(d, scores.h, res) else LastUnassigned(d, res)
    {
      if random {
        res := NextRandomDecision(draws, hit);
      } else if d.stable {
        res := LargestScoreUnassigned();
      } else {
        res := LastEnqueuedUnassigned();
      }
    }
  }

  // ------------------------------------------------------------------ lemmas of the operations

  lemma ResetNode(d: Decisions, order: seq<nat>, idx: nat)
    requires Linked(d, order) && idx < |d.links| && idx !in order
    ensures var t := d.(links := d.links[idx := d.links[idx].(prev := DISCONNECT, next := DISCONNECT)]);
            Linked(t, order) && (Cached(d, order) ==> Cached(t, order))
  {
    ChangeOutside(d.links, d.first, d.last, d.stamp + 1, order, idx,
                  d.links[idx].(prev := DISCONNECT, next := DISCONNECT));
  }

  lemma DequeuedSearch(d: Decisions, order: seq<nat>, i: nat, d': Decisions)
    requires Linked(d, order) && i < |order| && Requeued(d, d') && Cached(d, order)
    requires forall v :: 0 <= v < |d.links| ==> d'.links[v].stamp == d.links[v].stamp
    requires if d.search != order[i] then d'.search == d.search && d'.searchStamp == d.searchStamp
             else if |order| == 1 then d'.search == DISCONNECT && d'.searchStamp == 0
             else (d'.search == order[if i + 1 < |order| then i + 1 else i - 1] && 0 <= d'.search < |d.links|
                   && d'.searchStamp == d.links[d'.search].stamp)
    ensures Cached(d', Without(order, i))
    ensures Searched(d.search, order, d.values) ==> Searched(d'.search, Without(order, i), d.values)
  {
    hide Linked;
    LinkedChained(d, order);
    WithoutMember(d, order, i);
    var rest := Without(order, i);
    if d.search != order[i] {
      if Searched(d.search, order, d.values) {
        SearchedRemove(d.search, order, d.values, i);
      }
    } else if |order| > 1 && Searched(d.search, order, d.values) {
      SearchedNeighbour(order, d.values, i, i + 1 < |order|);
    }
  }

  lemma MovedSearch(d: Decisions, order: seq<nat>, i: nat, d': Decisions)
    requires Linked(d, order) && i < |order| && |order| > 1 && Cached(d, order) && Searched(d.search, order, d.values)
    requires IsAssigned(d.values, order[i]) && d' == d.(search := d'.search, searchStamp := d'.searchStamp)
    requires if d.search != order[i] then d' == d
             else (d'.search == order[if i > 0 then i - 1 else 1] && 0 <= d'.search < |d.links|
                   && d'.searchStamp == d.links[d'.search].stamp)
    ensures Cached(d', Without(order, i)) && Searched(d'.search, Without(order, i), d.values)
    ensures d'.search == DISCONNECT || d'.search in Without(order, i)
  {
    hide Linked;
    LinkedChained(d, order);
    WithoutMember(d, order, i);
    if d.search != order[i] {
      SearchedRemove(d.search, order, d.values, i);
    } else {
      SearchedNeighbour(order, d.values, i, i == 0);
    }
  }

  /** Moving the last node changes nothing. */
  lemma LastMoved(d: Decisions, order: seq<nat>, i: nat)
    requires Linked(d, order) && i < |order| && d.last == order[i]
    ensures order == Without(order, i) + [order[i]]
  {
    LinkedChained(d, order);
  }

  lemma UnassignedOnly(values: seq<int>, lit: Lit)
    requires lit < |values| && |values| % 2 == 0
    ensures Neg(lit) < |values| && Var(lit) < |values| / 2
    ensures var values' := values[lit := 0][Neg(lit) := 0];
            && !IsAssigned(values', Var(lit))
            && forall w: nat :: w != Var(lit) ==> IsAssigned(values', w) == IsAssigned(values, w)
  {
  }

  /** The list and the cache do not depend on the active variables, the values and the mode. */
  lemma ActiveApart(d: Decisions, order: seq<nat>, d': Decisions)
    requires Linked(d, order)
    requires d' == d.(values := d'.values, active := d'.active, stable := d'.stable, search := d'.search,
                                          searchStamp := d'.searchStamp)
    ensures Linked(d', order)
  {
  }

  lemma ActivatedMembers(d: Decisions, order: seq<nat>, idx: nat, d': Decisions, order': seq<nat>)
    requires Linked(d, order) && Members(d, order) && idx < |d.active| && order' == order + [idx]
    requires Requeued(d.(active := d.active[idx := true]), d')
    ensures Members(d', order')
  {
    forall v: nat ensures v in order' <==> v in order || v == idx {
      assert order'[|order|] == idx;
    }
  }

  lemma ResetSearch(d: Decisions, order: seq<nat>)
    requires Linked(d, order) && d.last != DISCONNECT
    ensures 0 <= d.last < |d.links| && d.last in order && Searched(d.last, order, d.values)
  {
    LinkedChained(d, order);
    SearchedAt(order, d.values, |order| - 1);
  }

  lemma SearchMoved(d: Decisions, order: seq<nat>, h: Heap, i: nat)
    requires Inv(d, order, h) && i < |order| && forall j :: i < j < |order| ==> IsAssigned(d.values, order[j])
    ensures order[i] < |d.links| && Inv(d.(search := order[i], searchStamp := d.links[order[i]].stamp), order, h)
  {
    LinkedChained(d, order);
    SearchedAt(order, d.values, i);
  }

  lemma OnHeap(d: Decisions, h: Heap, v: nat)
    requires HeapOK(h) && Heaped(d, h) && v < |d.active| && d.active[v] && !IsAssigned(d.values, v)
    ensures h.stack != []
  {
    assert Contains(h, v);
  }

  lemma FirstInOrder(d: Decisions, order: seq<nat>)
    requires Linked(d, order)
    ensures d.first == if order == [] then DISCONNECT else order[0]
    ensures d.last == if order == [] then DISCONNECT else order[|order| - 1]
    ensures forall i :: 0 <= i < |order| ==> order[i] < |d.links|
  {
  }

  lemma ChainedEnds(d: Decisions, order: seq<nat>)
    requires Chained(d, order)
    ensures d.first == if order == [] then DISCONNECT else order[0]
    ensures forall i, j :: 0 <= i < j < |order| ==> order[i] != order[j]
  {
  }

  lemma NextInOrder(d: Decisions, order: seq<nat>, i: nat)
    requires Chained(d, order) && i < |order|
    ensures order[i] < |d.links| && d.links[order[i]].next == if i + 1 < |order| then order[i + 1] else DISCONNECT
    ensures d.links[order[i]].prev == if i > 0 then order[i - 1] else DISCONNECT
  {
    assert NodeOK(d.links, order, i);
  }

  lemma BoundedStamp(d: Decisions, order: seq<nat>)
    requires Linked(d, order)
    ensures d.stamp <= UINT_MAX
  {
  }

  lemma CutApart(d: Decisions, order: seq<nat>, i: nat)
    requires Linked(d, order) && i < |order|
    ensures order[i] < |d.links| && d.links[order[i]].prev != order[i] && d.links[order[i]].next != order[i]
  {
    LinkedChained(d, order);
    NextInOrder(d, order, i);
  }
}
