/**
  From elimination to the extended model: whatever sequence of eliminations was run (fastel.c, eliminate.c), extending a
  model of the clauses that are left (extend.c) gives a model of the clauses at the start.
 */
module ModelExtension {
  import opened Literals
  import opened Reconstruction
  import opened Extend
  import opened Elimination

  lemma WitnessesKnown(s: Dense, imports: seq<Import>, ws: seq<Witness>)
    requires AllKnown(s, ws) && Positions(imports) == s.pos
    ensures forall i :: 0 <= i < |ws| ==> Known(imports, ws[i])
  {
    forall i | 0 <= i < |ws| ensures Known(imports, ws[i]) {
      assert KnownWitness(s.pos, ws[i]);
      assert Positions(imports)[Var(ws[i].blocking)] >= 0;
    }
  }

  /** The solver has found a model of the remaining formula; eliminated variables have no value. */
  method ExtendModel(e: Eliminator, x: Extender)
    requires e.Valid() && x.Valid() && x.extend == e.s.extend != [] && !x.extended
    requires Positions(x.imports) == e.s.pos && |x.eliminated| == e.s.count
    requires Satisfies(ModelOf(x.imports, Zeros(e.s.count), x.values), Formula(e.s))
    modifies x`eliminated, x`etrail, x`extended
    ensures x.Valid() && Satisfies(x.Model(), e.original)
  {
    hide Imported, Satisfies, Replay, Reconstructs, AllKnown, Known, Working, Alive, Formula;
    WitnessesKnown(e.s, x.imports, e.witnesses);
    ExtendSound(e.original, Formula(e.s), x.imports, x.eliminated, x.values, e.s.count, e.witnesses);
    x.Extend(e.witnesses);
  }
}
