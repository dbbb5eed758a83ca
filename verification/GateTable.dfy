/**
  The hash table of gates (congruence.c): open addressing with tombstones, lazily removed garbage,
  an entry counter that may count too much, and doubling.
 */
module GateTable {
  import opened Literals

  datatype Tag = And | Xor | Ite

  datatype Gate = Gate(tag: Tag, lhs: Lit, rhs: seq<Lit>, hash: nat, garbage: bool, indexed: bool)

  /** The contents of slots without a gate. */
  const NULL := -1
  const REMOVED := -2

  datatype Table = Table(gates: seq<Gate>, slots: seq<int>, entries: nat)

  /** Position k of the probe sequence; table sizes are powers of two, so the bit mask is a remainder. */
  function Probe(hash: nat, size: nat, k: nat): (p: nat)
    requires size > 0 && k <= size
    ensures p < size
  {
    var s := hash % size + k;
    if s < size then s else s - size
  }

  /** The first n positions of the probe sequence are not empty. */
  ghost predicate Run(slots: seq<int>, hash: nat, n: nat)
    requires n <= |slots|
  {
    forall j: nat {:trigger Probe(hash, |slots|, j)} :: j < n ==> slots[Probe(hash, |slots|, j)] != NULL
  }

  /** The gate id is found at position k of its probe sequence. */
  ghost predicate FoundAt(slots: seq<int>, hash: nat, id: nat, k: nat) {
    k < |slots| && slots[Probe(hash, |slots|, k)] == id && Run(slots, hash, k)
  }

  ghost predicate Found(slots: seq<int>, hash: nat, id: nat) {
    exists k: nat :: FoundAt(slots, hash, id, k)
  }

  /** The slots hold exactly the gates ids, each one where probing finds it. */
  ghost predicate Placed(slots: seq<int>, gates: seq<Gate>, ids: set<nat>) {
    && (forall p :: 0 <= p < |slots| ==> slots[p] == NULL || slots[p] == REMOVED || (slots[p] >= 0 && slots[p] in ids))
    && (forall p, q :: 0 <= p < q < |slots| && slots[p] == slots[q] ==> slots[p] < 0)
    && (forall id :: id in ids ==> id < |gates| && Found(slots, gates[id].hash, id))
  }

  /** The number of slots that are not empty, tombstones included. */
  function Occupied(slots: seq<int>): (n: nat)
    ensures n <= |slots|
  {
    if slots == [] then 0 else Occupied(slots[..|slots| - 1]) + if slots[|slots| - 1] == NULL then 0 else 1
  }

  function IndexedIds(gates: seq<Gate>): set<nat> {
    set id: nat | id < |gates| && gates[id].indexed
  }

  ghost predicate TableOK(t: Table) {
    Placed(t.slots, t.gates, IndexedIds(t.gates)) && Occupied(t.slots) <= t.entries <= |t.slots|
  }

  predicate Matches(g: Gate, tag: Tag, hash: nat, lits: seq<Lit>) {
    g.tag == tag && g.hash == hash && g.rhs == lits
  }

  // ------------------------------------------------------------------ probing

  lemma ProbeNext(hash: nat, size: nat, k: nat)
    requires size > 0 && k < size
    ensures Probe(hash, size, k + 1) == if Probe(hash, size, k) + 1 == size then 0 else Probe(hash, size, k) + 1
    ensures Probe(hash, size, 0) == hash % size
    ensures Probe(hash, size, k + 1) == hash % size <==> k + 1 == size
  {
  }

  /** Probing comes to every slot. */
  lemma ProbeCovers(hash: nat, size: nat, p: nat) returns (k: nat)
    requires p < size
    ensures k < size && Probe(hash, size, k) == p
  {
    var h := hash % size;
    k := if p >= h then p - h else p + size - h;
  }

  lemma ProbeInjective(hash: nat, size: nat, j: nat, k: nat)
    requires j < k < size
    ensures Probe(hash, size, j) != Probe(hash, size, k)
  {
  }

  lemma {:induction false} OccupiedUpdate(slots: seq<int>, p: nat, v: int)
    requires p < |slots|
    ensures Occupied(slots[p := v]) ==
            Occupied(slots) - (if slots[p] == NULL then 0 else 1) + (if v == NULL then 0 else 1)
  {
    var n := |slots| - 1;
    if p == n {
      assert slots[p := v][..n] == slots[..n];
    } else {
      OccupiedUpdate(slots[..n], p, v);
      assert slots[p := v][..n] == slots[..n][p := v];
    }
  }

  lemma {:induction false} SomeEmpty(slots: seq<int>) returns (p: nat)
    requires Occupied(slots) < |slots|
    ensures p < |slots| && slots[p] == NULL
  {
    var n := |slots| - 1;
    if slots[n] == NULL {
      p := n;
    } else {
      p := SomeEmpty(slots[..n]);
    }
  }

  /** Filling a slot never hides a gate. */
  lemma FoundKept(slots: seq<int>, hash: nat, id: nat, p: nat, v: int)
    requires Found(slots, hash, id) && p < |slots| && slots[p] != id && v != NULL
    ensures Found(slots[p := v], hash, id)
  {
    var k: nat :| FoundAt(slots, hash, id, k);
    assert FoundAt(slots[p := v], hash, id, k);
  }

  lemma PlacedInsert(slots: seq<int>, gates: seq<Gate>, ids: set<nat>, id: nat, k: nat)
    requires Placed(slots, gates, ids) && id < |gates| && id !in ids && k < |slots| && Run(slots, gates[id].hash, k)
    requires var v := slots[Probe(gates[id].hash, |slots|, k)]; v == NULL || v == REMOVED
    ensures Placed(slots[Probe(gates[id].hash, |slots|, k) := id], gates, ids + {id})
  {
    var p := Probe(gates[id].hash, |slots|, k);
    var slots' := slots[p := id];
    forall j: nat | j < k ensures slots'[Probe(gates[id].hash, |slots|, j)] != NULL {
      ProbeInjective(gates[id].hash, |slots|, j, k);
    }
    assert FoundAt(slots', gates[id].hash, id, k);
    forall other | other in ids ensures Found(slots', gates[other].hash, other) {
      FoundKept(slots, gates[other].hash, other, p, id);
    }
  }

  lemma PlacedRemove(slots: seq<int>, gates: seq<Gate>, ids: set<nat>, id: nat, p: nat)
    requires Placed(slots, gates, ids) && p < |slots| && slots[p] == id
    ensures Placed(slots[p := REMOVED], gates, ids - {id})
  {
    forall other | other in ids - {id} ensures Found(slots[p := REMOVED], gates[other].hash, other) {
      FoundKept(slots, gates[other].hash, other, p, REMOVED);
    }
  }

  /** The gates' other fields do not matter. */
  lemma PlacedFields(slots: seq<int>, gates: seq<Gate>, ids: set<nat>, gates': seq<Gate>)
    requires Placed(slots, gates, ids) && |gates'| >= |gates|
    requires forall id :: 0 <= id < |gates| ==> gates'[id].hash == gates[id].hash
    ensures Placed(slots, gates', ids)
  {
  }

  // ------------------------------------------------------------------ operations on the table

  /** A gate leaves the table. */
  function Unindexed(t: Table, id: nat, p: nat): Table
    requires id < |t.gates| && p < |t.slots|
  {
    t.(gates := t.gates[id := t.gates[id].(indexed := false)], slots := t.slots[p := REMOVED])
  }

  lemma UnindexedOK(t: Table, id: nat, p: nat)
    requires TableOK(t) && p < |t.slots| && t.slots[p] == id
    ensures id < |t.gates| && TableOK(Unindexed(t, id, p))
  {
    var t' := Unindexed(t, id, p);
    PlacedRemove(t.slots, t.gates, IndexedIds(t.gates), id, p);
    assert IndexedIds(t'.gates) == IndexedIds(t.gates) - {id};
    PlacedFields(t'.slots, t.gates, IndexedIds(t'.gates), t'.gates);
    OccupiedUpdate(t.slots, p, REMOVED);
  }

  /** A gate enters the table. */
  function Entered(t: Table, id: nat, p: nat): Table
    requires id < |t.gates| && p < |t.slots|
  {
    Table(t.gates[id := t.gates[id].(indexed := true)], t.slots[p := id], t.entries + 1)
  }

  lemma EnteredOK(t: Table, id: nat, k: nat)
    requires TableOK(t) && id < |t.gates| && !t.gates[id].indexed && k < |t.slots| && Run(t.slots, t.gates[id].hash, k)
    requires var v := t.slots[Probe(t.gates[id].hash, |t.slots|, k)]; v == NULL || v == REMOVED
    requires t.entries < |t.slots|
    ensures TableOK(Entered(t, id, Probe(t.gates[id].hash, |t.slots|, k)))
  {
    var p := Probe(t.gates[id].hash, |t.slots|, k);
    var t' := Entered(t, id, p);
    PlacedInsert(t.slots, t.gates, IndexedIds(t.gates), id, k);
    assert IndexedIds(t'.gates) == IndexedIds(t.gates) + {id};
    PlacedFields(t'.slots, t.gates, IndexedIds(t'.gates), t'.gates);
    OccupiedUpdate(t.slots, p, id);
  }

  /** From t to t' only the index flags of garbage gates have changed. */
  ghost predicate Swept(t: Table, t': Table) {
    && |t'.gates| == |t.gates| && |t'.slots| == |t.slots| && t'.entries == t.entries
    && forall id :: 0 <= id < |t.gates| ==>
         t'.gates[id] == t.gates[id] || (t.gates[id].garbage && t'.gates[id] == t.gates[id].(indexed := false))
  }

  lemma SweptRefl(t: Table)
    ensures Swept(t, t)
  {
  }

  /** Removing a garbage gate keeps what is known of the slots seen. */
  lemma SweepStep(t0: Table, t: Table, g: nat, p: nat, tag: Tag, hash: nat, lits: seq<Lit>, except: int, k: nat)
    requires Swept(t0, t) && g < |t.gates| && t.gates[g].garbage && p < |t.slots| && k <= |t.slots|
    requires Unmatched(t, tag, hash, lits, except, k)
    ensures Swept(t0, Unindexed(t, g, p)) && Unmatched(Unindexed(t, g, p), tag, hash, lits, except, k)
  {
  }

  lemma UnmatchedStart(t: Table, tag: Tag, hash: nat, lits: seq<Lit>, except: int)
    ensures Unmatched(t, tag, hash, lits, except, 0)
  {
  }

  class Index {
    var t: Table

    constructor ()
      ensures t == Table([], [], 0) && TableOK(t)
    {
      t := Table([], [], 0);
    }

    /** Finds a live gate with the given inputs if there is one; garbage come across is removed. */
    method FindGate(tag: Tag, hash: nat, lits: seq<Lit>, except: int) returns (res: int)
      requires TableOK(t)
      modifies this`t
      ensures TableOK(t) && Swept(old(t), t) && -1 <= res < |t.gates|
      ensures res >= 0 ==>
                res != except && t.gates[res].indexed && !t.gates[res].garbage && Matches(t.gates[res], tag, hash, lits)
      ensures res < 0 ==>
                forall id :: 0 <= id < |t.gates| && id != except && t.gates[id].indexed && !t.gates[id].garbage ==>
                !Matches(t.gates[id], tag, hash, lits)
    {
      hide TableOK, Probe, Swept, Unmatched, Matches;
      SweptRefl(t);
      if t.entries == 0 {
        NoEntries(t);
        return -1;
      }
      SomeSlots(t);
      var size := |t.slots|;
      var start := hash % size;
      var pos := start;
      res := -1;
      ghost var k := 0;
      ProbeNext(hash, size, 0);
      UnmatchedStart(t, tag, hash, lits, except);
      while t.slots[pos] != NULL
        invariant |t.slots| == size && k < size && pos == Probe(hash, size, k) && TableOK(t) && Swept(old(t), t)
        invariant res == -1
        invariant Unmatched(t, tag, hash, lits, except, k)
        decreases size - k
      {
        var g := t.slots[pos];
        ProbeNext(hash, size, k);
        if g != REMOVED {
          SlotGate(t, pos);
          if t.gates[g].garbage {
            UnindexedOK(t, g, pos);
            SweepStep(old(t), t, g, pos, tag, hash, lits, except, k);
            t := t.(gates := t.gates[g := t.gates[g].(indexed := false)]);
            t := t.(slots := t.slots[pos := REMOVED]);
          } else if g != except && Matches(t.gates[g], tag, hash, lits) {
            return g;
          }
        }
        UnmatchedStep(t, tag, hash, lits, except, k);
        pos := pos + 1;
        if pos == size {
          pos := 0;
        }
        k := k + 1;
        if pos == start {
          break;
        }
      }
      AllUnmatched(t, tag, hash, lits, except, k);
    }

    /** The gate is found where probing leads to. */
    method RemoveGate(g: nat) returns (removed: bool)
      requires TableOK(t) && g < |t.gates|
      modifies this`t
      ensures TableOK(t) && t.gates == old(t).gates[g := old(t).gates[g].(indexed := false)]
      ensures removed == old(t).gates[g].indexed
    {
      if !t.gates[g].indexed {
        return false;
      }
      hide TableOK, Probe, Run;
      ghost var k0: nat := IndexedAt(t, g);
      var size := |t.slots|;
      var pos := t.gates[g].hash % size;
      ghost var k: nat := 0;
      ProbeNext(t.gates[g].hash, size, 0);
      while t.slots[pos] != g
        invariant t == old(t) && k <= k0 && pos == Probe(t.gates[g].hash, size, k)
        decreases k0 - k
      {
        ProbeNext(t.gates[g].hash, size, k);
        pos := pos + 1;
        if pos == size {
          pos := 0;
        }
        k := k + 1;
      }
      UnindexedOK(t, g, pos);
      t := t.(slots := t.slots[pos := REMOVED]);
      t := t.(gates := t.gates[g := t.gates[g].(indexed := false)]);
      return true;
    }

    /** Puts a gate into the first free slot; if the table is half full it is doubled before. */
    method IndexGate(g: nat)
      requires TableOK(t) && g < |t.gates| && !t.gates[g].indexed
      modifies this`t
      ensures TableOK(t) && t.gates == old(t).gates[g := old(t).gates[g].(indexed := true)]
    {
      hide TableOK, Probe, Run;
      EntriesFit(t);
      if 2 * t.entries >= |t.slots| {
        Resize();
      }
      ghost var t1 := t;
      ghost var k0: nat := FreeSlot(t, t.gates[g].hash);
      var size := |t.slots|;
      var pos := t.gates[g].hash % size;
      ghost var k: nat := 0;
      ProbeNext(t.gates[g].hash, size, 0);
      RunStart(t.slots, t.gates[g].hash);
      while t.slots[pos] != NULL && t.slots[pos] != REMOVED
        invariant t == t1 && k <= k0 && pos == Probe(t.gates[g].hash, size, k) && Run(t.slots, t.gates[g].hash, k)
        decreases k0 - k
      {
        ProbeNext(t.gates[g].hash, size, k);
        RunStep(t.slots, t.gates[g].hash, k);
        pos := pos + 1;
        if pos == size {
          pos := 0;
        }
        k := k + 1;
      }
      EnteredOK(t, g, k);
      t := t.(slots := t.slots[pos := g]);
      t := t.(entries := t.entries + 1);
      t := t.(gates := t.gates[g := t.gates[g].(indexed := true)]);
    }

    /** Doubles the table and drops the tombstones. */
    method Resize()
      requires TableOK(t)
      modifies this`t
      ensures TableOK(t) && t.gates == old(t).gates
      ensures |t.slots| == (if |old(t).slots| > 0 then 2 * |old(t).slots| else 1)
      ensures t.entries < |t.slots|
    {
      hide Placed, Occupied, Run, Probe;
      var oldSlots := t.slots;
      var newSize := if |oldSlots| > 0 then 2 * |oldSlots| else 1;
      var slots := seq(newSize, _ => NULL);
      var flushed := 0;
      ghost var ids: set<nat> := {};
      EmptySlots(newSize, t.gates);
      for oldPos := 0 to |oldSlots|
        invariant t == old(t) && |slots| == newSize && Placed(slots, t.gates, ids)
        invariant forall p :: 0 <= p < newSize ==> slots[p] != REMOVED
        invariant Copied(oldSlots, oldPos, ids) && Occupied(slots) + flushed == Occupied(oldSlots[..oldPos])
      {
        var g := oldSlots[oldPos];
        OccupiedPrefix(oldSlots, oldPos);
        if g == NULL {
        } else if g == REMOVED {
          flushed := flushed + 1;
        } else {
          OldSlot(oldSlots, t.gates, IndexedIds(t.gates), oldPos, ids);
          ghost var k0: nat := EmptyProbe(slots, t.gates[g].hash);
          var pos := t.gates[g].hash % newSize;
          ghost var k: nat := 0;
          ProbeNext(t.gates[g].hash, newSize, 0);
          RunStart(slots, t.gates[g].hash);
          while slots[pos] != NULL
            invariant t == old(t) && k <= k0 && pos == Probe(t.gates[g].hash, newSize, k)
            invariant Run(slots, t.gates[g].hash, k)
            decreases k0 - k
          {
            ProbeNext(t.gates[g].hash, newSize, k);
            RunStep(slots, t.gates[g].hash, k);
            pos := pos + 1;
            if pos == newSize {
              pos := 0;
            }
            k := k + 1;
          }
          PlacedInsert(slots, t.gates, ids, g, k);
          OccupiedUpdate(slots, pos, g);
          slots := slots[pos := g];
          ids := ids + {g};
        }
      }
      AllCopied(oldSlots, t.gates, IndexedIds(t.gates), ids);
      assert oldSlots[..|oldSlots|] == oldSlots;
      t := t.(slots := slots, entries := t.entries - flushed);
    }
  }

  // ------------------------------------------------------------------ lemmas of the operations

  lemma SlotGate(t: Table, p: nat)
    requires TableOK(t) && p < |t.slots| && t.slots[p] != NULL && t.slots[p] != REMOVED
    ensures 0 <= t.slots[p] < |t.gates| && t.gates[t.slots[p]].indexed
  {
    assert t.slots[p] in IndexedIds(t.gates);
  }

  lemma NoEntries(t: Table)
    requires TableOK(t) && t.entries == 0
    ensures forall id :: 0 <= id < |t.gates| ==> !t.gates[id].indexed
  {
    forall id | 0 <= id < |t.gates| ensures !t.gates[id].indexed {
      if t.gates[id].indexed {
        assert id in IndexedIds(t.gates);
        var k: nat :| FoundAt(t.slots, t.gates[id].hash, id, k);
        OccupiedUpdate(t.slots, Probe(t.gates[id].hash, |t.slots|, k), NULL);
      }
    }
  }

  lemma SomeSlots(t: Table)
    requires TableOK(t) && t.entries > 0
    ensures |t.slots| > 0
  {
  }

  /** The first k positions of the probe sequence hold no live matching gate. */
  ghost predicate Unmatched(t: Table, tag: Tag, hash: nat, lits: seq<Lit>, except: int, k: nat)
    requires k <= |t.slots|
  {
    forall j: nat {:trigger Probe(hash, |t.slots|, j)} :: j < k ==>
      var g := t.slots[Probe(hash, |t.slots|, j)];
      0 <= g < |t.gates| ==> t.gates[g].garbage || g == except || !Matches(t.gates[g], tag, hash, lits)
  }

  lemma UnmatchedStep(t: Table, tag: Tag, hash: nat, lits: seq<Lit>, except: int, k: nat)
    requires k < |t.slots| && Unmatched(t, tag, hash, lits, except, k)
    requires var g := t.slots[Probe(hash, |t.slots|, k)];
             0 <= g < |t.gates| ==> t.gates[g].garbage || g == except || !Matches(t.gates[g], tag, hash, lits)
    ensures Unmatched(t, tag, hash, lits, except, k + 1)
  {
  }

  lemma AllUnmatched(t: Table, tag: Tag, hash: nat, lits: seq<Lit>, except: int, k: nat)
    requires TableOK(t) && k <= |t.slots| && |t.slots| > 0 && Unmatched(t, tag, hash, lits, except, k)
    requires k == |t.slots| || t.slots[Probe(hash, |t.slots|, k)] == NULL
    ensures forall id :: 0 <= id < |t.gates| && id != except && t.gates[id].indexed && !t.gates[id].garbage ==>
              !Matches(t.gates[id], tag, hash, lits)
  {
    forall id | 0 <= id < |t.gates| && id != except && t.gates[id].indexed && !t.gates[id].garbage
      ensures !Matches(t.gates[id], tag, hash, lits)
    {
      assert id in IndexedIds(t.gates);
      var k0: nat :| FoundAt(t.slots, t.gates[id].hash, id, k0);
      if t.gates[id].hash == hash {
        assert k0 < k;
      }
    }
  }

  lemma IndexedAt(t: Table, g: nat) returns (k: nat)
    requires TableOK(t) && g < |t.gates| && t.gates[g].indexed
    ensures FoundAt(t.slots, t.gates[g].hash, g, k)
  {
    assert g in IndexedIds(t.gates);
    k :| FoundAt(t.slots, t.gates[g].hash, g, k);
  }

  lemma EntriesFit(t: Table)
    requires TableOK(t)
    ensures t.entries <= |t.slots|
  {
  }

  lemma EmptyProbe(slots: seq<int>, hash: nat) returns (k: nat)
    requires Occupied(slots) < |slots|
    ensures k < |slots| && slots[Probe(hash, |slots|, k)] == NULL
  {
    var p := SomeEmpty(slots);
    k := ProbeCovers(hash, |slots|, p);
  }

  lemma FreeSlot(t: Table, hash: nat) returns (k: nat)
    requires TableOK(t) && t.entries < |t.slots|
    ensures k < |t.slots| && t.slots[Probe(hash, |t.slots|, k)] == NULL
  {
    k := EmptyProbe(t.slots, hash);
  }

  lemma RunStart(slots: seq<int>, hash: nat)
    ensures Run(slots, hash, 0)
  {
  }

  lemma RunStep(slots: seq<int>, hash: nat, k: nat)
    requires k < |slots| && Run(slots, hash, k) && slots[Probe(hash, |slots|, k)] != NULL
    ensures Run(slots, hash, k + 1)
  {
  }

  lemma EmptySlots(n: nat, gates: seq<Gate>)
    requires n > 0
    ensures var slots := seq(n, _ => NULL); Placed(slots, gates, {}) && Occupied(slots) == 0
  {
    AllEmpty(seq(n, _ => NULL));
  }

  lemma {:induction false} AllEmpty(slots: seq<int>)
    requires forall p :: 0 <= p < |slots| ==> slots[p] == NULL
    ensures Occupied(slots) == 0
  {
    if slots != [] {
      AllEmpty(slots[..|slots| - 1]);
    }
  }

  /** The gates in the first n old slots. */
  ghost predicate Copied(slots: seq<int>, n: nat, ids: set<nat>) {
    n <= |slots| && forall id: nat :: id in ids <==> id in slots[..n]
  }

  lemma OccupiedPrefix(slots: seq<int>, n: nat)
    requires n < |slots|
    ensures slots[..n + 1] == slots[..n] + [slots[n]]
    ensures Occupied(slots[..n + 1]) == Occupied(slots[..n]) + (if slots[n] == NULL then 0 else 1)
    ensures Occupied(slots[..n]) <= n
  {
    assert slots[..n + 1][..n] == slots[..n];
  }

  lemma OldSlot(slots: seq<int>, gates: seq<Gate>, all: set<nat>, p: nat, ids: set<nat>)
    requires Placed(slots, gates, all) && p < |slots| && slots[p] != NULL && slots[p] != REMOVED
    requires Copied(slots, p, ids)
    ensures 0 <= slots[p] < |gates| && slots[p] !in ids
  {
    assert slots[p] in all;
    assert forall q :: 0 <= q < p ==> slots[q] != slots[p];
  }

  lemma AllCopied(slots: seq<int>, gates: seq<Gate>, all: set<nat>, ids: set<nat>)
    requires Placed(slots, gates, all) && Copied(slots, |slots|, ids)
    ensures ids == all
  {
    assert slots[..|slots|] == slots;
    forall id: nat ensures id in ids <==> id in all {
      if id in all {
        var k: nat :| FoundAt(slots, gates[id].hash, id, k);
      }
    }
  }
}
