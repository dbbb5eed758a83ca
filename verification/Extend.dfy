/**
  Extending an assignment to the eliminated variables (extend.c): the backward pass over the
  extension stack computes the replay of its witness clauses.
 */
module Extend {
  import opened Literals
  import opened Reconstruction

  /** One entry of the extension stack: a clause starts with its blocking literal. */
  datatype Extension = Extension(lit: Lit, blocking: bool)

  /** Where the value of an external variable is kept: at an eliminated position or at an internal literal. */
  datatype Import = Import(eliminated: bool, lit: nat)

  function Entries(w: Witness): (es: seq<Extension>)
    ensures |es| == |Lits(w)|
    ensures forall i :: 0 <= i < |es| ==> es[i] == Extension(Lits(w)[i], i == 0)
  {
    [Extension(w.blocking, true)] + seq(|w.rest|, i requires 0 <= i < |w.rest| => Extension(w.rest[i], false))
  }

  function Flat(ws: seq<Witness>): seq<Extension> {
    if ws == [] then [] else Flat(ws[..|ws| - 1]) + Entries(ws[|ws| - 1])
  }

  function Zeros(n: nat): seq<int> {
    seq(n, _ => 0)
  }

  /** The positions of eliminated variables. */
  function Positions(imports: seq<Import>): seq<int> {
    seq(|imports|, v requires 0 <= v < |imports| => if imports[v].eliminated then imports[v].lit else -1)
  }

  ghost predicate Imported(imports: seq<Import>, eliminated: seq<int>, values: seq<int>) {
    && (forall v :: 0 <= v < |imports| ==>
          if imports[v].eliminated then imports[v].lit < |eliminated|
          else imports[v].lit < |values| && values[imports[v].lit] != 0)
    && (forall u, v :: 0 <= u < v < |imports| && imports[u].eliminated && imports[v].eliminated ==>
          imports[u].lit != imports[v].lit)
  }

  /** The values of the external variables. */
  ghost function ModelOf(imports: seq<Import>, eliminated: seq<int>, values: seq<int>): Values
    requires Imported(imports, eliminated, values)
  {
    seq(|imports|, v requires 0 <= v < |imports| =>
      if imports[v].eliminated then eliminated[imports[v].lit] else values[imports[v].lit])
  }

  ghost predicate Known(imports: seq<Import>, w: Witness) {
    && (forall l :: l in Lits(w) ==> Var(l) < |imports|)
    && Var(w.blocking) < |imports| && imports[Var(w.blocking)].eliminated
  }

  class Extender {
    var imports: seq<Import>
    var eliminated: seq<int>
    var etrail: seq<nat>
    var values: seq<int>
    var extend: seq<Extension>
    var extended: bool

    ghost predicate Valid()
      reads this
    {
      && Imported(imports, eliminated, values)
      && (forall p :: 0 <= p < |etrail| ==> etrail[p] < |eliminated|)
      && (forall p: nat :: p < |eliminated| && eliminated[p] != 0 ==> p in etrail)
    }

    /** The eliminated variables have no values yet. */
    constructor (imports: seq<Import>, count: nat, values: seq<int>, extend: seq<Extension>)
      requires Imported(imports, Zeros(count), values)
      ensures Valid() && this.imports == imports && eliminated == Zeros(count) && this.values == values
      ensures this.extend == extend
      ensures !extended
    {
      this.imports, eliminated, etrail, this.values, this.extend, extended := imports,
          Zeros(count), [], values, extend, false;
    }

    ghost function Model(): Values
      requires Imported(imports, eliminated, values)
      reads this
    {
      ModelOf(imports, eliminated, values)
    }

    method UndoEliminatedAssignment()
      requires Valid()
      modifies this`eliminated, this`etrail
      ensures Valid() && eliminated == Zeros(|old(eliminated)|) && etrail == []
    {
      while |etrail| != 0
        invariant Valid() && |eliminated| == |old(eliminated)|
        decreases |etrail|
      {
        var pos := etrail[|etrail| - 1];
        etrail := etrail[..|etrail| - 1];
        eliminated := eliminated[pos := 0];
        forall p: nat | p < |eliminated| && eliminated[p] != 0 ensures p in etrail {
          assert p in etrail + [pos];
        }
      }
    }

    method ExtendAssign(lit: Lit)
      requires Valid() && Var(lit) < |imports| && imports[Var(lit)].eliminated
      modifies this`eliminated, this`etrail
      ensures Valid() && Model() == Assign(old(Model()), lit) && |eliminated| == |old(eliminated)|
    {
      var pos := imports[Var(lit)].lit;
      eliminated := eliminated[pos := if lit % 2 == 1 then -1 else 1];
      etrail := etrail + [pos];
    }

    /** Reads one clause backwards: whether it is satisfied, else its last eliminated free literal. */
    method ReadClause(p: nat, ghost w: Witness) returns (p': nat, satisfied: bool, free: int, blocking: Lit)
      requires Valid() && Known(imports, w) && |Entries(w)| <= p <= |extend|
      requires extend[p - |Entries(w)|..p] == Entries(w)
      ensures p' == p - |Entries(w)| && blocking == w.blocking
      ensures satisfied <==> True(Model(), Lits(w))
      ensures !satisfied ==> free == Pick(Model(), Positions(imports), Lits(w), 0)
    {
      hide Imported, ModelOf, Positions, Val, Entries;
      var pos, found := 0, false;
      p', satisfied, free, blocking := p, false, -1, 0;
      ghost var c := Lits(w);
      ghost var k: nat := |c|;
      while !found
        invariant 0 <= k <= |c| && p' == p - |c| + k
        invariant found <==> k == 0
        invariant found ==> blocking == w.blocking
        invariant satisfied <==> exists l :: l in c[k..] && Val(Model(), l) > 0
        invariant !satisfied ==> free == Pick(Model(), Positions(imports), c, k)
        invariant !satisfied && free != -1 ==> pos == Pos(Positions(imports), free)
        decreases k
      {
        p' := p' - 1;
        k := k - 1;
        var ext := extend[p'];
        assert ext == Entries(w)[k];
        assert c[k] in c && c[k..] == [c[k]] + c[k + 1..];
        var elit := ext.lit;
        if ext.blocking {
          found, blocking := true, elit;
        }
        if satisfied {
          continue;
        }
        var imp, value := ReadLiteral(elit);
        if imp.eliminated {
          if value > 0 {
            satisfied := true;
          } else if value == 0 && (free == -1 || pos < imp.lit) {
            free, pos := elit, imp.lit;
          }
        } else if value > 0 {
          satisfied := true;
        }
      }
    }

    /** The value of an external literal, wherever it is kept. */
    method ReadLiteral(elit: Lit) returns (imp: Import, value: int)
      requires Valid() && Var(elit) < |imports|
      ensures imp == imports[Var(elit)] && value == Val(Model(), elit)
      ensures Pos(Positions(imports), elit) == if imp.eliminated then imp.lit else -1
      ensures !imp.eliminated ==> value != 0
    {
      imp := imports[Var(elit)];
      if imp.eliminated {
        value := eliminated[imp.lit];
      } else {
        value := values[imp.lit];
      }
      if elit % 2 == 1 {
        value := -value;
      }
    }

    /** Replays one clause: nothing, a free literal, or the blocking one. */
    method ReplayClause(p: nat, ghost w: Witness) returns (p': nat)
      requires Valid() && Known(imports, w) && |Entries(w)| <= p <= |extend|
      requires extend[p - |Entries(w)|..p] == Entries(w)
      modifies this`eliminated, this`etrail
      ensures Valid() && p' == p - |Entries(w)| && |eliminated| == |old(eliminated)|
      ensures Model() == Replay1(old(Model()), Positions(imports), w)
    {
      hide Entries, Pick, True, Positions;
      var satisfied, free, blocking;
      p', satisfied, free, blocking := ReadClause(p, w);
      if satisfied {
        return;
      }
      FreeKnown(imports, Model(), w);
      if free != -1 && free != blocking {
        ExtendAssign(free);
        return;
      }
      ExtendAssign(blocking);
    }

    /** Computes the replay of all witness clauses, from the values of the internal variables. */
    method Extend(ghost ws: seq<Witness>)
      requires Valid() && extend != [] && !extended
      requires extend == Flat(ws) && forall i :: 0 <= i < |ws| ==> Known(imports, ws[i])
      modifies this`eliminated, this`etrail, this`extended
      ensures Valid() && |eliminated| == |old(eliminated)| && extended
      ensures Model() == Replay(ModelOf(imports, Zeros(|eliminated|), values), Positions(imports), ws)
    {
      hide Known, Imported, Replay1, Entries, Positions;
      extended := true;
      UndoEliminatedAssignment();
      ghost var start := Model();
      var p: nat := |extend|;
      ghost var rest := ws;
      FlatLast(rest);
      while p != 0
        invariant Valid() && extended && |eliminated| == |old(eliminated)|
        invariant forall i :: 0 <= i < |rest| ==> Known(imports, rest[i])
        invariant p <= |extend| && extend[..p] == Flat(rest) && (p == 0 <==> rest == [])
        invariant Replay(Model(), Positions(imports), rest) == Replay(start, Positions(imports), ws)
        decreases p
      {
        ghost var w := rest[|rest| - 1];
        FlatLast(rest);
        assert extend[p - |Entries(w)|..p] == extend[..p][p - |Entries(w)|..];
        ghost var n := p;
        p := ReplayClause(p, w);
        assert extend[..p] == extend[..n][..p];
        rest := rest[..|rest| - 1];
        FlatLast(rest);
      }
      assert rest == [];
    }
  }

  /** The last clause on the stack. */
  lemma FlatLast(ws: seq<Witness>)
    ensures Flat(ws) == [] <==> ws == []
    ensures ws != [] ==> var w := ws[|ws| - 1];
              && 0 < |Entries(w)| <= |Flat(ws)|
              && Flat(ws)[|Flat(ws)| - |Entries(w)|..] == Entries(w)
              && Flat(ws)[..|Flat(ws)| - |Entries(w)|] == Flat(ws[..|ws| - 1])
  {
  }

  lemma FreeKnown(imports: seq<Import>, a: Values, w: Witness)
    requires Known(imports, w)
    ensures var free := Pick(a, Positions(imports), Lits(w), 0);
            free != -1 ==> Var(free) < |imports| && imports[Var(free)].eliminated
  {
  }

  /** The extended assignment is a model of all clauses, removed ones included. */
  lemma ExtendSound(f0: Clauses, f: Clauses, imports: seq<Import>, eliminated: seq<int>, values: seq<int>, k: nat,
                    ws: seq<Witness>)
    requires Imported(imports, eliminated, values) && |eliminated| == k
    requires Reconstructs(f0, f, Positions(imports), k, ws)
    requires Satisfies(ModelOf(imports, Zeros(k), values), f)
    ensures Satisfies(Replay(ModelOf(imports, Zeros(k), values), Positions(imports), ws), f0)
  {
    var a := ModelOf(imports, Zeros(k), values);
    assert Continues(Positions(imports), Positions(imports), k);
    assert Partial(a, Positions(imports), k);
  }
}
