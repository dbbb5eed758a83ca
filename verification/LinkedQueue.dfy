/**
  Doubly linked queues of variables, as used for decisions by the solver (inlinequeue.h) and by the
  embedded one (kitten.c): taking a node out and putting one at the end.
 */
module LinkedQueue {

  const DISCONNECT := -1

  /** One node of the doubly linked queue. */
  datatype Link = Link(prev: int, next: int, stamp: nat)

  ghost predicate NodeOK(links: seq<Link>, order: seq<nat>, i: nat)
    requires i < |order|
  {
    && order[i] < |links|
    && links[order[i]].prev == (if i == 0 then DISCONNECT else order[i - 1])
    && links[order[i]].next == (if i == |order| - 1 then DISCONNECT else order[i + 1])
  }

  /**
    The nodes named by order form a doubly linked list in this order, with increasing stamps.
   */
  ghost predicate QueueOK(links: seq<Link>, first: int, last: int, stamp: nat, order: seq<nat>) {
    && (forall i :: 0 <= i < |order| ==> order[i] < |links| && links[order[i]].stamp < stamp)
    && (forall i, j :: 0 <= i < j < |order| ==> links[order[i]].stamp < links[order[j]].stamp)
    && (forall i :: 0 <= i < |order| ==> NodeOK(links, order, i))
    && first == (if order == [] then DISCONNECT else order[0])
    && last == (if order == [] then DISCONNECT else order[|order| - 1])
  }

  function Unlinked(links: seq<Link>, prev: int, next: int): seq<Link>
    requires prev == DISCONNECT || 0 <= prev < |links|
    requires next == DISCONNECT || 0 <= next < |links|
  {
    var links1 := if prev == DISCONNECT then links else links[prev := links[prev].(next := next)];
    if next == DISCONNECT then links1 else links1[next := links1[next].(prev := prev)]
  }

  lemma UnlinkAt(links: seq<Link>, first: int, last: int, stamp: nat, order: seq<nat>, i: nat, j: nat)
    requires QueueOK(links, first, last, stamp, order) && i < |order| && j < |order|
    ensures var prev, next := links[order[i]].prev, links[order[i]].next;
            && (prev == DISCONNECT || 0 <= prev < |links|)
            && (next == DISCONNECT || 0 <= next < |links|)
            && var k := Unlinked(links, prev, next)[order[j]];
               && k.stamp == links[order[j]].stamp
               && k.prev == (if j == i + 1 then prev else links[order[j]].prev)
               && k.next == (if j == i - 1 then next else links[order[j]].next)
  {
    var prev, next := links[order[i]].prev, links[order[i]].next;
    assert NodeOK(links, order, i) && NodeOK(links, order, j);
    if 0 < i {
      assert prev == order[i - 1];
      assert j < i - 1 ==> links[order[j]].stamp < links[order[i - 1]].stamp;
      assert j > i - 1 ==> links[order[j]].stamp > links[order[i - 1]].stamp;
    }
    if i + 1 < |order| {
      assert next == order[i + 1];
      assert j < i + 1 ==> links[order[j]].stamp < links[order[i + 1]].stamp;
      assert j > i + 1 ==> links[order[j]].stamp > links[order[i + 1]].stamp;
    }
  }

  lemma UnlinkNode(links: seq<Link>, first: int, last: int, stamp: nat, order: seq<nat>, i: nat, k: nat)
    requires QueueOK(links, first, last, stamp, order) && i < |order| && k < |order| - 1
    ensures var prev, next := links[order[i]].prev, links[order[i]].next;
            && (prev == DISCONNECT || 0 <= prev < |links|)
            && (next == DISCONNECT || 0 <= next < |links|)
            && var links', order' := Unlinked(links, prev, next), order[..i] + order[i + 1..];
               && order'[k] < |links|
               && links'[order'[k]].stamp == links[order[if k < i then k else k + 1]].stamp
               && NodeOK(links', order', k)
  {
    var j := if k < i then k else k + 1;
    assert NodeOK(links, order, i) && NodeOK(links, order, j);
    UnlinkAt(links, first, last, stamp, order, i, j);
    var order' := order[..i] + order[i + 1..];
    assert order'[k] == order[j];
    assert k > 0 ==> order'[k - 1] == order[if k - 1 < i then k - 1 else k];
    assert k < |order'| - 1 ==> order'[k + 1] == order[if k + 1 < i then k + 1 else k + 2];
  }

  lemma UnlinkSorted(links: seq<Link>, first: int, last: int, stamp: nat, order: seq<nat>, i: nat, links': seq<Link>)
    requires QueueOK(links, first, last, stamp, order) && i < |order|
    requires |links'| == |links|
    requires forall j :: 0 <= j < |order| ==> links'[order[j]].stamp == links[order[j]].stamp
    ensures var order' := order[..i] + order[i + 1..];
            && (forall k :: 0 <= k < |order'| ==> order'[k] < |links| && links'[order'[k]].stamp < stamp)
            && (forall j, k :: 0 <= j < k < |order'| ==> links'[order'[j]].stamp < links'[order'[k]].stamp)
  {
  }

  lemma UnlinkKeeps(links: seq<Link>, first: int, last: int, stamp: nat, order: seq<nat>, i: nat)
    requires QueueOK(links, first, last, stamp, order) && i < |order|
    ensures var l := links[order[i]];
            && (l.prev == DISCONNECT || 0 <= l.prev < |links|)
            && (l.next == DISCONNECT || 0 <= l.next < |links|)
            && QueueOK(Unlinked(links, l.prev, l.next), if l.prev == DISCONNECT then l.next else first,
                       if l.next == DISCONNECT then l.prev else last, stamp, order[..i] + order[i + 1..])
  {
    UnlinkAt(links, first, last, stamp, order, i, i);
    var links' := Unlinked(links, links[order[i]].prev, links[order[i]].next);
    forall j | 0 <= j < |order| ensures links'[order[j]].stamp == links[order[j]].stamp {
      UnlinkAt(links, first, last, stamp, order, i, j);
    }
    UnlinkSorted(links, first, last, stamp, order, i, links');
    UnlinkEnds(links, first, last, stamp, order, i);
    var order' := order[..i] + order[i + 1..];
    forall k | 0 <= k < |order'| ensures NodeOK(links', order', k) {
      UnlinkNode(links, first, last, stamp, order, i, k);
    }
  }

  lemma UnlinkEnds(links: seq<Link>, first: int, last: int, stamp: nat, order: seq<nat>, i: nat)
    requires QueueOK(links, first, last, stamp, order) && i < |order|
    ensures var l, order' := links[order[i]], order[..i] + order[i + 1..];
            && (if l.prev == DISCONNECT then l.next else first) == (if order' == [] then DISCONNECT else order'[0])
            && (if l.next == DISCONNECT then l.prev else last) ==
                 (if order' == [] then DISCONNECT else order'[|order'| - 1])
  {
    assert NodeOK(links, order, i);
  }

  lemma LinkKeeps(links: seq<Link>, first: int, last: int, stamp: nat, order: seq<nat>, idx: nat)
    requires QueueOK(links, first, last, stamp, order) && idx < |links| && idx !in order
    ensures last == DISCONNECT || 0 <= last < |links|
    ensures var links1 := if last == DISCONNECT then links else links[last := links[last].(next := idx)];
            QueueOK(links1[idx := Link(last, DISCONNECT, stamp)], if last == DISCONNECT then idx else first,
                    idx, stamp + 1, order + [idx])
  {
    var links1 := if last == DISCONNECT then links else links[last := links[last].(next := idx)];
    var links', order' := links1[idx := Link(last, DISCONNECT, stamp)], order + [idx];
    forall k | 0 <= k < |order'|
      ensures order'[k] < |links|
      ensures links'[order'[k]].stamp == if k < |order| then links[order[k]].stamp else stamp
      ensures NodeOK(links', order', k)
    {
      if k < |order| {
        assert NodeOK(links, order, k);
        assert order[k] != idx;
        assert k < |order| - 1 ==> links[order[k]].stamp < links[order[|order| - 1]].stamp;
      }
    }
  }
}
