/**
  Bounded variable addition (factor.c): the clauses as the full occurrence lists show them, the chain
  of quotients, and why replacing products of factors and quotients keeps satisfiability.
 */
module FactorModel {
  import opened Literals
  import opened Sequences

  /** One entry of an occurrence list. */
  datatype Watch = Binary(lit: Lit) | Large(ref: nat)

  /** Occurrence lists of all literals, and the clauses of more than two literals. */
  datatype Database = Database(watches: seq<seq<Watch>>, arena: seq<Clause>)

  /** Clauses with a common literal, the factor; matches index the clauses of the previous quotient. */
  datatype Quotient = Quotient(factor: Lit, clauses: seq<Watch>, matches: seq<nat>)

  function LitSet(c: seq<Lit>): set<Lit> {
    set l | l in c
  }

  /** The literals of the clause that entry w in the list of literal f stands for. */
  function Body(d: Database, f: Lit, w: Watch): set<Lit> {
    match w
    case Binary(b) => {f, b}
    case Large(r) => if r < |d.arena| then LitSet(d.arena[r].lits) else {}
  }

  ghost predicate EntryOK(d: Database, a: Lit, w: Watch) {
    match w
    case Binary(b) => b < |d.watches| && Var(b) != Var(a) && Binary(a) in d.watches[b]
    case Large(r) => r < |d.arena| && !d.arena[r].garbage && a in d.arena[r].lits
  }

  ghost predicate StoredOK(d: Database, r: nat)
    requires r < |d.arena|
  {
    !d.arena[r].garbage ==>
      && Proper(|d.watches|, d.arena[r].lits) && |d.arena[r].lits| >= 3
      && forall l :: l in d.arena[r].lits ==> Large(r) in d.watches[l]
  }

  /** The lists are complete, and no clause occurs twice. */
  ghost predicate DatabaseOK(d: Database) {
    && |d.watches| % 2 == 0
    && (forall a: nat, w :: a < |d.watches| && w in d.watches[a] ==> EntryOK(d, a, w))
    && (forall a: nat, i: nat, j: nat ::
          a < |d.watches| && i < j < |d.watches[a]| ==> d.watches[a][i] != d.watches[a][j])
    && (forall r: nat :: r < |d.arena| ==> StoredOK(d, r))
    && (forall r: nat, r': nat :: r < r' < |d.arena| && !d.arena[r].garbage && !d.arena[r'].garbage ==>
          LitSet(d.arena[r].lits) != LitSet(d.arena[r'].lits))
  }

  /** c is one of the clauses. */
  ghost predicate InFormula(d: Database, c: set<Lit>) {
    exists f: nat, w :: f < |d.watches| && w in d.watches[f] && Body(d, f, w) == c
  }

  // ------------------------------------------------------------------ sizes of clauses

  lemma {:induction false} LitSetSize(n: nat, c: seq<Lit>)
    requires Proper(n, c)
    ensures |LitSet(c)| == |c|
  {
    if c != [] {
      var k := |c| - 1;
      LitSetSize(n, c[..k]);
      assert LitSet(c) == LitSet(c[..k]) + {c[k]};
      assert c[k] !in LitSet(c[..k]);
    }
  }

  lemma BodySize(d: Database, f: nat, w: Watch)
    requires DatabaseOK(d) && f < |d.watches| && w in d.watches[f]
    ensures f in Body(d, f, w) && |Body(d, f, w)| == match w case Binary(_) => 2 case Large(r) => |d.arena[r].lits|
    ensures |Body(d, f, w)| == 2 <==> w.Binary?
    ensures forall l :: l in Body(d, f, w) ==> l < |d.watches| && (l != f ==> Var(l) != Var(f))
  {
    assert EntryOK(d, f, w);
    match w {
      case Binary(b) => {
        assert b != f;
      }
      case Large(r) => {
        assert StoredOK(d, r);
        LitSetSize(|d.watches|, d.arena[r].lits);
      }
    }
  }

  /** Two entries of one list stand for different clauses. */
  lemma SameBody(d: Database, f: nat, w: Watch, w': Watch)
    requires DatabaseOK(d) && f < |d.watches| && w in d.watches[f] && w' in d.watches[f]
    ensures Body(d, f, w) == Body(d, f, w') ==> w == w'
  {
    BodySize(d, f, w);
    BodySize(d, f, w');
    assert EntryOK(d, f, w) && EntryOK(d, f, w');
    if w.Binary? && w'.Binary? && Body(d, f, w) == Body(d, f, w') {
      assert w.lit in Body(d, f, w');
    }
  }

  /** A clause is in the list of each of its literals. */
  lemma ListedAt(d: Database, f: nat, w: Watch, l: Lit) returns (w': Watch)
    requires DatabaseOK(d) && f < |d.watches| && w in d.watches[f] && l in Body(d, f, w)
    ensures l < |d.watches| && w' in d.watches[l] && Body(d, l, w') == Body(d, f, w)
    ensures w' == if l == f then w else if w.Binary? then Binary(f) else w
  {
    assert EntryOK(d, f, w);
    match w {
      case Binary(b) => {
        w' := if l == f then w else Binary(f);
      }
      case Large(r) => {
        assert StoredOK(d, r);
        w' := w;
      }
    }
  }

  // ------------------------------------------------------------------ quotients

  ghost predicate QuotientOK(d: Database, q: Quotient) {
    && q.factor < |d.watches|
    && (forall k :: 0 <= k < |q.clauses| ==> q.clauses[k] in d.watches[q.factor])
    && (forall j, k :: 0 <= j < k < |q.clauses| ==> q.clauses[j] != q.clauses[k])
  }

  /** The clause at position k without the factor. */
  function Rest(d: Database, q: Quotient, k: nat): set<Lit>
    requires k < |q.clauses|
  {
    Body(d, q.factor, q.clauses[k]) - {q.factor}
  }

  /** Each clause of q is a clause of p with another factor. */
  ghost predicate MatchesOK(d: Database, p: Quotient, q: Quotient) {
    && |q.matches| == |q.clauses|
    && (forall k :: 0 <= k < |q.matches| ==> q.matches[k] < |p.clauses| && Rest(d, q, k) == Rest(d, p, q.matches[k]))
    && (forall j, k :: 0 <= j < k < |q.matches| ==> q.matches[j] < q.matches[k])
  }

  ghost predicate Chain(d: Database, qs: seq<Quotient>) {
    && (forall p :: 0 <= p < |qs| ==> QuotientOK(d, qs[p]))
    && (forall p :: 0 < p < |qs| ==> MatchesOK(d, qs[p - 1], qs[p]))
    && (forall p, p' :: 0 <= p < p' < |qs| ==> qs[p].factor != qs[p'].factor)
  }

  /** The formula has the clause at position k of q with the literal next as its factor. */
  ghost predicate Matchable(d: Database, q: Quotient, k: nat, next: Lit)
    requires k < |q.clauses|
  {
    next !in Rest(d, q, k) && InFormula(d, Rest(d, q, k) + {next})
  }

  /** No factor up to p occurs in a quotient of p. */
  lemma {:induction false} NoFactors(d: Database, qs: seq<Quotient>, p: nat, k: nat)
    requires Chain(d, qs) && p < |qs| && k < |qs[p].clauses|
    ensures forall j :: 0 <= j <= p ==> qs[j].factor !in Rest(d, qs[p], k)
  {
    if p > 0 {
      assert MatchesOK(d, qs[p - 1], qs[p]);
      NoFactors(d, qs, p - 1, qs[p].matches[k]);
    }
  }

  // ------------------------------------------------------------------ meaning

  ghost predicate SatSet(m: Model, c: set<Lit>) {
    exists l :: l in c && Holds(m, l)
  }

  ghost predicate SatFormula(m: Model, f: set<set<Lit>>) {
    forall c :: c in f ==> SatSet(m, c)
  }

  /** m with the value of one variable changed. */
  ghost function Assigned(m: Model, v: nat, b: bool): Model {
    if b then m + iset{v} else m - iset{v}
  }

  /** The clause of factor p and quotient k. */
  ghost predicate IsProduct(factors: seq<Lit>, rests: seq<set<Lit>>, c: set<Lit>) {
    exists p, k :: 0 <= p < |factors| && 0 <= k < |rests| && c == rests[k] + {factors[p]}
  }

  ghost predicate IsDivider(factors: seq<Lit>, x: Lit, c: set<Lit>) {
    exists p :: 0 <= p < |factors| && c == {x, factors[p]}
  }

  ghost predicate IsQuotient(rests: seq<set<Lit>>, x: Lit, c: set<Lit>) {
    exists k :: 0 <= k < |rests| && c == rests[k] + {Neg(x)}
  }

  /** All products of factors and quotients are replaced by dividers and quotients with a fresh literal. */
  ghost predicate Factored(f: set<set<Lit>>, f': set<set<Lit>>, factors: seq<Lit>, rests: seq<set<Lit>>, x: Lit) {
    && (forall p, k :: 0 <= p < |factors| && 0 <= k < |rests| ==> rests[k] + {factors[p]} in f)
    && (forall c ::
          c in f' <==> (c in f && !IsProduct(factors, rests, c)) || IsDivider(factors, x, c) || IsQuotient(rests, x, c))
    && (forall c, l :: c in f && l in c ==> Var(l) != Var(x))
  }

  /** The clauses that make up a product are in the new formula. */
  lemma PartsPresent(f: set<set<Lit>>, f': set<set<Lit>>, factors: seq<Lit>, rests: seq<set<Lit>>,
                     x: Lit, p: nat, k: nat)
    requires Factored(f, f', factors, rests, x) && p < |factors| && k < |rests|
    ensures {x, factors[p]} in f' && rests[k] + {Neg(x)} in f' && rests[k] + {factors[p]} in f
    ensures forall l :: l in rests[k] || l == factors[p] ==> Var(l) != Var(x)
  {
    hide IsProduct;
    var divider, quotient, product := {x, factors[p]}, rests[k] + {Neg(x)}, rests[k] + {factors[p]};
    assert IsDivider(factors, x, divider) && IsQuotient(rests, x, quotient);
    assert product in f;
    assert forall l :: l in rests[k] || l == factors[p] ==> l in product;
  }

  lemma ResolvedProduct(m: Model, rest: set<Lit>, factor: Lit, x: Lit)
    requires SatSet(m, {x, factor}) && SatSet(m, rest + {Neg(x)})
    ensures SatSet(m, rest + {factor})
  {
    var l :| l in {x, factor} && Holds(m, l);
    var l' :| l' in rest + {Neg(x)} && Holds(m, l');
    SameVar(x, x);
    if l == factor {
      assert l in rest + {factor};
    } else {
      assert l' in rest + {factor};
    }
  }

  /** A model of the new formula is a model of the old one. */
  lemma FactoredRestricts(f: set<set<Lit>>, f': set<set<Lit>>, factors: seq<Lit>,
                          rests: seq<set<Lit>>, x: Lit, m: Model)
    requires Factored(f, f', factors, rests, x) && SatFormula(m, f')
    ensures SatFormula(m, f)
  {
    hide IsDivider, IsQuotient, SatSet;
    forall c | c in f ensures SatSet(m, c) {
      if IsProduct(factors, rests, c) {
        var p, k :| 0 <= p < |factors| && 0 <= k < |rests| && c == rests[k] + {factors[p]};
        PartsPresent(f, f', factors, rests, x, p, k);
        ResolvedProduct(m, rests[k], factors[p], x);
      }
    }
  }

  lemma OtherVariables(m: Model, x: Lit, b: bool, c: set<Lit>)
    requires SatSet(m, c) && forall l :: l in c ==> Var(l) != Var(x)
    ensures SatSet(Assigned(m, Var(x), b), c)
  {
    var l :| l in c && Holds(m, l);
    assert Holds(Assigned(m, Var(x), b), l);
  }

  ghost predicate SomeFalse(m: Model, factors: seq<Lit>) {
    exists p :: 0 <= p < |factors| && !Holds(m, factors[p])
  }

  lemma DividerHolds(m: Model, factors: seq<Lit>, x: Lit, p: nat)
    requires p < |factors| && x % 2 == 0 && Var(factors[p]) != Var(x)
    ensures SatSet(Assigned(m, Var(x), SomeFalse(m, factors)), {x, factors[p]})
  {
    var m' := Assigned(m, Var(x), SomeFalse(m, factors));
    assert Holds(m', x) == SomeFalse(m, factors);
    assert Holds(m', x) || Holds(m', factors[p]);
    assert x in {x, factors[p]} && factors[p] in {x, factors[p]};
  }

  lemma QuotientHolds(m: Model, factors: seq<Lit>, x: Lit, rest: set<Lit>)
    requires x % 2 == 0 && forall l :: l in rest ==> Var(l) != Var(x)
    requires forall p :: 0 <= p < |factors| ==> SatSet(m, rest + {factors[p]})
    ensures SatSet(Assigned(m, Var(x), SomeFalse(m, factors)), rest + {Neg(x)})
  {
    var m' := Assigned(m, Var(x), SomeFalse(m, factors));
    assert Holds(m', Neg(x)) == !SomeFalse(m, factors);
    assert Neg(x) in rest + {Neg(x)};
    if SomeFalse(m, factors) {
      var p :| 0 <= p < |factors| && !Holds(m, factors[p]);
      var l :| l in rest + {factors[p]} && Holds(m, l);
      assert Holds(m', l) && l in rest + {Neg(x)};
    }
  }

  /** A model of the old formula becomes one of the new formula: x is false if all factors are true. */
  lemma FactoredExtends(f: set<set<Lit>>, f': set<set<Lit>>, factors: seq<Lit>, rests: seq<set<Lit>>, x: Lit, m: Model)
    requires Factored(f, f', factors, rests, x) && x % 2 == 0 && SatFormula(m, f)
    requires factors != [] && rests != []
    ensures SatFormula(Assigned(m, Var(x), SomeFalse(m, factors)), f')
  {
    hide SatSet, SomeFalse, IsProduct;
    var m' := Assigned(m, Var(x), SomeFalse(m, factors));
    forall c | c in f' ensures SatSet(m', c) {
      if IsDivider(factors, x, c) {
        var p :| 0 <= p < |factors| && c == {x, factors[p]};
        PartsPresent(f, f', factors, rests, x, p, 0);
        DividerHolds(m, factors, x, p);
      } else if IsQuotient(rests, x, c) {
        var k :| 0 <= k < |rests| && c == rests[k] + {Neg(x)};
        forall p | 0 <= p < |factors| ensures SatSet(m, rests[k] + {factors[p]}) {
          PartsPresent(f, f', factors, rests, x, p, k);
        }
        PartsPresent(f, f', factors, rests, x, 0, k);
        QuotientHolds(m, factors, x, rests[k]);
      } else {
        OtherVariables(m, x, SomeFalse(m, factors), c);
      }
    }
  }

  /** The old formula is satisfied exactly if the new one is for some value of the fresh variable. */
  lemma FactoringKeepsModels(f: set<set<Lit>>, f': set<set<Lit>>, factors: seq<Lit>,
                             rests: seq<set<Lit>>, x: Lit, m: Model)
    requires Factored(f, f', factors, rests, x) && x % 2 == 0 && factors != [] && rests != []
    ensures SatFormula(m, f) <==> exists b :: SatFormula(Assigned(m, Var(x), b), f')
  {
    hide IsProduct, IsDivider, IsQuotient, SomeFalse;
    if SatFormula(m, f) {
      FactoredExtends(f, f', factors, rests, x, m);
    }
    forall b: bool | SatFormula(Assigned(m, Var(x), b), f') ensures SatFormula(m, f) {
      var m' := Assigned(m, Var(x), b);
      FactoredRestricts(f, f', factors, rests, x, m');
      forall c | c in f ensures SatSet(m, c) {
        assert SatSet(m', c);
        var l :| l in c && Holds(m', l);
        assert Holds(m, l);
      }
    }
  }

  // ------------------------------------------------------------------ adding and deleting clauses

  ghost predicate Represents(d: Database, formula: set<set<Lit>>) {
    forall c :: c in formula <==> InFormula(d, c)
  }

  /** The clauses in the lists. */
  ghost function AllClauses(d: Database): set<set<Lit>> {
    set f: nat, i: nat | f < |d.watches| && i < |d.watches[f]| :: Body(d, f, d.watches[f][i])
  }

  lemma AllRepresented(d: Database)
    ensures Represents(d, AllClauses(d))
  {
    hide Body;
    forall c | InFormula(d, c) ensures c in AllClauses(d) {
      var f: nat, w :| f < |d.watches| && w in d.watches[f] && Body(d, f, w) == c;
      var i: nat :| i < |d.watches[f]| && d.watches[f][i] == w;
    }
    forall c | c in AllClauses(d) ensures InFormula(d, c) {
      var f: nat, i: nat :| f < |d.watches| && i < |d.watches[f]| && c == Body(d, f, d.watches[f][i]);
      assert d.watches[f][i] in d.watches[f];
    }
  }

  /** The lists with one entry removed; the others keep their order. */
  function Remove(ws: seq<Watch>, w: Watch): seq<Watch> {
    if ws == [] then [] else if ws[0] == w then ws[1..] else [ws[0]] + Remove(ws[1..], w)
  }

  lemma {:induction false} RemoveMembers(ws: seq<Watch>, w: Watch)
    requires Distinct(ws)
    ensures Distinct(Remove(ws, w)) && forall v :: v in Remove(ws, w) <==> v in ws && v != w
  {
    if ws != [] {
      RemoveMembers(ws[1..], w);
      assert forall v :: v in ws <==> v == ws[0] || v in ws[1..];
      assert ws[0] !in ws[1..];
      if ws[0] != w {
        var rest := Remove(ws[1..], w);
        assert forall v :: v in [ws[0]] + rest <==> v == ws[0] || v in rest;
      }
    }
  }

  lemma {:induction false} RemoveAt(ws: seq<Watch>, w: Watch, p: nat)
    requires p < |ws| && ws[p] == w && w !in ws[..p]
    ensures Remove(ws, w) == ws[..p] + ws[p + 1..]
  {
    if p > 0 {
      assert ws[1..][..p - 1] == ws[..p][1..];
      assert w !in ws[1..][..p - 1];
      RemoveAt(ws[1..], w, p - 1);
      assert ws[..p] + ws[p + 1..] == [ws[0]] + (ws[1..][..p - 1] + ws[1..][p..]);
    }
  }

  /** From d to d' the clauses cs, and perhaps new literals, have been added. */
  ghost predicate Grown(d: Database, d': Database, cs: set<set<Lit>>) {
    && |d'.watches| >= |d.watches| && |d'.arena| >= |d.arena| && d'.arena[..|d.arena|] == d.arena
    && (forall f: nat, w ::
          f < |d.watches| && w in d.watches[f] ==> w in d'.watches[f] && Body(d', f, w) == Body(d, f, w))
    && (forall f: nat, w :: f < |d'.watches| && w in d'.watches[f] ==>
          (f < |d.watches| && w in d.watches[f]) || Body(d', f, w) in cs)
    && (forall c :: c in cs ==> InFormula(d', c))
  }

  lemma GrownFormula(d: Database, d': Database, cs: set<set<Lit>>, formula: set<set<Lit>>)
    requires Represents(d, formula) && Grown(d, d', cs)
    ensures Represents(d', formula + cs)
  {
    forall b ensures InFormula(d', b) <==> InFormula(d, b) || b in cs {
      if InFormula(d, b) {
        var f: nat, w :| f < |d.watches| && w in d.watches[f] && Body(d, f, w) == b;
        assert w in d'.watches[f] && Body(d', f, w) == b;
      }
      if InFormula(d', b) && b !in cs {
        var f: nat, w :| f < |d'.watches| && w in d'.watches[f] && Body(d', f, w) == b;
        assert w in d.watches[f] && Body(d, f, w) == b;
      }
    }
  }

  lemma GrownTrans(d: Database, d1: Database, d2: Database, cs: set<set<Lit>>, cs': set<set<Lit>>)
    requires Grown(d, d1, cs) && Grown(d1, d2, cs')
    ensures Grown(d, d2, cs + cs')
  {
    assert d2.arena[..|d.arena|] == d1.arena[..|d.arena|];
    forall c | c in cs ensures InFormula(d2, c) {
      var f: nat, w :| f < |d1.watches| && w in d1.watches[f] && Body(d1, f, w) == c;
      assert w in d2.watches[f] && Body(d2, f, w) == c;
    }
  }

  function Pushed(d: Database, l: Lit, w: Watch): Database
    requires l < |d.watches|
  {
    d.(watches := d.watches[l := d.watches[l] + [w]])
  }

  lemma BinaryAdded(d: Database, a: Lit, b: Lit)
    requires DatabaseOK(d) && a < |d.watches| && b < |d.watches| && Var(a) != Var(b) && !InFormula(d, {a, b})
    ensures var d' := Pushed(Pushed(d, a, Binary(b)), b, Binary(a)); DatabaseOK(d') && Grown(d, d', {{a, b}})
  {
    var d' := Pushed(Pushed(d, a, Binary(b)), b, Binary(a));
    assert Binary(b) !in d.watches[a] by {
      assert Body(d, a, Binary(b)) == {a, b};
    }
    assert Binary(a) !in d.watches[b] by {
      assert Body(d, b, Binary(a)) == {a, b};
    }
    assert forall l: nat, w :: l < |d.watches| ==>
      (w in d'.watches[l] <==> w in d.watches[l] || (l == a && w == Binary(b)) || (l == b && w == Binary(a)));
    forall l: nat, w | l < |d.watches| && w in d'.watches[l] ensures EntryOK(d', l, w) {
      if w in d.watches[l] {
        assert EntryOK(d, l, w);
      }
    }
    forall r: nat | r < |d.arena| ensures StoredOK(d', r) {
      assert StoredOK(d, r);
    }
    assert Body(d', a, Binary(b)) == {a, b} && Body(d', b, Binary(a)) == {a, b};
  }

  /** All lists of literals of the new clause get its reference. */
  ghost predicate Connected(d: Database, d': Database, lits: seq<Lit>) {
    && |d'.watches| == |d.watches| && d'.arena == d.arena + [Clause(lits, false)]
    && forall l: nat :: l < |d.watches| ==>
         d'.watches[l] == d.watches[l] + if l in lits then [Large(|d.arena|)] else []
  }

  lemma LargeAdded(d: Database, lits: seq<Lit>, d': Database)
    requires DatabaseOK(d) && Proper(|d.watches|, lits) && |lits| >= 3 && !InFormula(d, LitSet(lits))
    requires Connected(d, d', lits)
    ensures DatabaseOK(d') && Grown(d, d', {LitSet(lits)})
  {
    hide Proper;
    var r0 := |d.arena|;
    assert forall l: nat, w ::
             l < |d.watches| ==> (w in d'.watches[l] <==> w in d.watches[l] || (l in lits && w == Large(r0)));
    forall l: nat, w | l < |d.watches| && w in d.watches[l]
      ensures EntryOK(d', l, w) && w != Large(r0) && Body(d', l, w) == Body(d, l, w) {
      assert EntryOK(d, l, w);
    }
    forall r: nat | r < |d'.arena| ensures StoredOK(d', r) {
      if r < r0 {
        assert StoredOK(d, r) && d'.arena[r] == d.arena[r];
        if !d.arena[r].garbage {
          ProperBelow(|d.watches|, d.arena[r].lits);
        }
      } else {
        ProperBelow(|d.watches|, lits);
      }
    }
    forall r: nat | r < r0 && !d.arena[r].garbage ensures LitSet(d.arena[r].lits) != LitSet(lits) {
      assert StoredOK(d, r);
      var l := d.arena[r].lits[0];
      ProperBelow(|d.watches|, d.arena[r].lits);
      assert l in d.arena[r].lits && Large(r) in d.watches[l];
      assert Body(d, l, Large(r)) == LitSet(d.arena[r].lits);
    }
    forall a: nat, i: nat, j: nat | a < |d.watches| && i < j < |d'.watches[a]|
      ensures d'.watches[a][i] != d'.watches[a][j] {
      assert d.watches[a][i] in d.watches[a];
    }
    assert d'.arena[r0] == Clause(lits, false);
    assert lits[0] in lits;
    ProperBelow(|d.watches|, lits);
    assert Large(r0) in d'.watches[lits[0]] && Body(d', lits[0], Large(r0)) == LitSet(lits);
  }

  lemma ProperBelow(n: nat, c: seq<Lit>)
    requires Proper(n, c)
    ensures forall l :: l in c ==> l < n
  {
  }

  /** From d to d' the clauses cs have been deleted. */
  ghost predicate Shrunk(d: Database, d': Database, cs: set<set<Lit>>) {
    && |d'.watches| == |d.watches| && |d'.arena| == |d.arena|
    && (forall r: nat :: r < |d.arena| ==> d'.arena[r].lits == d.arena[r].lits)
    && (forall f: nat, w :: f < |d.watches| ==> (w in d'.watches[f] <==> w in d.watches[f] && Body(d, f, w) !in cs))
  }

  lemma ShrunkBody(d: Database, d': Database, cs: set<set<Lit>>)
    requires Shrunk(d, d', cs)
    ensures forall f, w :: Body(d', f, w) == Body(d, f, w)
  {
  }

  lemma ShrunkFormula(d: Database, d': Database, cs: set<set<Lit>>, formula: set<set<Lit>>)
    requires Represents(d, formula) && Shrunk(d, d', cs)
    ensures Represents(d', formula - cs)
  {
    forall b ensures InFormula(d', b) <==> InFormula(d, b) && b !in cs {
      if InFormula(d, b) && b !in cs {
        var f: nat, w :| f < |d.watches| && w in d.watches[f] && Body(d, f, w) == b;
        assert w in d'.watches[f] && Body(d', f, w) == b;
      }
      if InFormula(d', b) {
        var f: nat, w :| f < |d'.watches| && w in d'.watches[f] && Body(d', f, w) == b;
        assert w in d.watches[f] && Body(d, f, w) == b;
      }
    }
  }

  lemma ShrunkTrans(d: Database, d1: Database, d2: Database, cs: set<set<Lit>>, cs': set<set<Lit>>)
    requires Shrunk(d, d1, cs) && Shrunk(d1, d2, cs')
    ensures Shrunk(d, d2, cs + cs')
  {
    ShrunkBody(d, d1, cs);
  }

  function Dropped(d: Database, l: Lit, w: Watch): Database
    requires l < |d.watches|
  {
    d.(watches := d.watches[l := Remove(d.watches[l], w)])
  }

  lemma BinaryDeleted(d: Database, a: Lit, b: Lit)
    requires DatabaseOK(d) && a < |d.watches| && Binary(b) in d.watches[a]
    ensures b < |d.watches| && Binary(a) in d.watches[b] && a != b
    ensures var d' := Dropped(Dropped(d, b, Binary(a)), a, Binary(b)); DatabaseOK(d') && Shrunk(d, d', {{a, b}})
  {
    assert EntryOK(d, a, Binary(b));
    var d' := Dropped(Dropped(d, b, Binary(a)), a, Binary(b));
    assert Distinct(d.watches[a]) && Distinct(d.watches[b]);
    RemoveMembers(d.watches[a], Binary(b));
    RemoveMembers(d.watches[b], Binary(a));
    forall f: nat, w | f < |d.watches| ensures w in d'.watches[f] <==> w in d.watches[f] && Body(d, f, w) != {a, b} {
      if w in d.watches[f] && Body(d, f, w) == {a, b} {
        BodySize(d, f, w);
        assert f == a || f == b;
        assert Body(d, a, Binary(b)) == {a, b} && Body(d, b, Binary(a)) == {a, b};
        SameBody(d, f, w, if f == a then Binary(b) else Binary(a));
      }
    }
    forall r: nat | r < |d.arena| && !d.arena[r].garbage ensures LitSet(d.arena[r].lits) != {a, b} {
      assert StoredOK(d, r);
      LitSetSize(|d.watches|, d.arena[r].lits);
    }
    ShrunkOK(d, d', {{a, b}});
  }

  lemma ShrunkOK(d: Database, d': Database, cs: set<set<Lit>>)
    requires DatabaseOK(d) && Shrunk(d, d', cs)
    requires forall f: nat :: f < |d.watches| ==> Distinct(d'.watches[f])
    requires forall r: nat :: r < |d.arena| ==>
               (!d'.arena[r].garbage <==> !d.arena[r].garbage && LitSet(d.arena[r].lits) !in cs)
    ensures DatabaseOK(d')
  {
    forall a: nat, w | a < |d.watches| && w in d'.watches[a] ensures EntryOK(d', a, w) {
      assert EntryOK(d, a, w);
      if w.Binary? {
        assert Body(d, w.lit, Binary(a)) == Body(d, a, w);
      }
    }
    forall r: nat | r < |d.arena| ensures StoredOK(d', r) {
      assert StoredOK(d, r);
      assert forall l :: Body(d, l, Large(r)) == LitSet(d.arena[r].lits);
    }
    forall f: nat, i: nat, j: nat | f < |d.watches| && i < j < |d'.watches[f]|
      ensures d'.watches[f][i] != d'.watches[f][j] {
      assert Distinct(d'.watches[f]);
    }
  }

  /** The entry of a clause has been removed from the lists of its first n literals. */
  ghost predicate Disconnected(d: Database, d': Database, r: nat, n: nat)
    requires r < |d.arena| && n <= |d.arena[r].lits|
  {
    && |d'.watches| == |d.watches| && d'.arena == d.arena
    && forall l: nat :: l < |d.watches| ==>
         d'.watches[l] == if l in d.arena[r].lits[..n] then Remove(d.watches[l], Large(r)) else d.watches[l]
  }

  lemma LargeDeleted(d: Database, d': Database, r: nat)
    requires DatabaseOK(d) && r < |d.arena| && !d.arena[r].garbage && Disconnected(d, d', r, |d.arena[r].lits|)
    ensures var d'' := d'.(arena := d'.arena[r := d'.arena[r].(garbage := true)]);
            DatabaseOK(d'') && Shrunk(d, d'', {LitSet(d.arena[r].lits)})
  {
    var c, lits := LitSet(d.arena[r].lits), d.arena[r].lits;
    assert StoredOK(d, r);
    assert lits[..|lits|] == lits;
    forall l: nat | l < |d.watches| ensures Distinct(d.watches[l]) {
    }
    forall f: nat, w | f < |d.watches|
      ensures Distinct(d'.watches[f]) && (w in d'.watches[f] <==> w in d.watches[f] && Body(d, f, w) != c) {
      RemoveMembers(d.watches[f], Large(r));
      if w in d.watches[f] {
        assert EntryOK(d, f, w);
        BodySize(d, f, w);
        if Body(d, f, w) == c {
          assert f in lits && Large(r) in d.watches[f] && Body(d, f, Large(r)) == c;
          SameBody(d, f, w, Large(r));
        }
      }
    }
    ShrunkOK(d, d'.(arena := d'.arena[r := d'.arena[r].(garbage := true)]), {c});
  }
}
