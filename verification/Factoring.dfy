/**
  Factoring (factor.c): building the chain of quotients, choosing the best one, and replacing the
  clauses it stands for.
 */
module Factoring {
  import opened Literals
  import opened FactorModel
  import opened Sequences

  datatype Mark = Mark(factor: bool, quotient: bool)

  // ------------------------------------------------------------------ marks

  /** Exactly the factors of the chain and the literals in extra are marked as factors. */
  ghost predicate FactorsMarked(marks: seq<Mark>, qs: seq<Quotient>, extra: set<Lit>) {
    forall l: nat :: l < |marks| ==> (marks[l].factor <==> l in extra || exists p :: 0 <= p < |qs| && qs[p].factor == l)
  }

  ghost predicate NoQuotientMarks(marks: seq<Mark>) {
    forall l: nat :: l < |marks| ==> !marks[l].quotient
  }

  ghost predicate SameFactors(marks: seq<Mark>, marks': seq<Mark>) {
    |marks'| == |marks| && forall l: nat :: l < |marks| ==> marks'[l].factor == marks[l].factor
  }

  ghost predicate IsFactor(marks: seq<Mark>, l: Lit) {
    l < |marks| && marks[l].factor
  }

  /** The literals of lits but for the factors carry the other mark. */
  ghost predicate BodyMarked(marks: seq<Mark>, lits: seq<Lit>) {
    forall l: nat :: l < |marks| ==> (marks[l].quotient <==> l in lits && !marks[l].factor)
  }

  ghost predicate OnlyMarked(marks: seq<Mark>, lits: seq<Lit>) {
    forall l: nat :: l < |marks| && marks[l].quotient ==> l in lits
  }

  ghost predicate OneFactor(marks: seq<Mark>, lits: seq<Lit>, j: nat) {
    && j < |lits| && IsFactor(marks, lits[j])
    && forall i :: 0 <= i < |lits| && i != j ==> !IsFactor(marks, lits[i])
  }

  /** The marks after the first i literals of a clause, at most one of them a factor. */
  ghost predicate Scanned(marks: seq<Mark>, lits: seq<Lit>, i: nat, factors: nat, first: nat, some: bool, minLit: Lit) {
    && i <= |lits| && factors <= 1 && BodyMarked(marks, lits[..i])
    && (factors == 0 ==> forall k :: 0 <= k < i ==> !IsFactor(marks, lits[k]))
    && (factors == 1 ==> first < i && OneFactor(marks, lits[..i], first))
    && (some ==> minLit in lits[..i] && !IsFactor(marks, minLit))
    && (!some ==> factors == i)
  }

  lemma ScanStart(marks: seq<Mark>, lits: seq<Lit>)
    requires NoQuotientMarks(marks)
    ensures Scanned(marks, lits, 0, 0, 0, false, 0)
  {
  }

  lemma ScanStep(marks: seq<Mark>, lits: seq<Lit>, i: nat, factors: nat, first: nat, some: bool, minLit: Lit)
    requires i < |lits| && Proper(|marks|, lits) && Scanned(marks, lits, i, factors, first, some, minLit)
    ensures lits[i] < |marks| && factors <= 1 && OnlyMarked(marks, lits)
    ensures marks[lits[i]].factor && factors == 1 ==>
              exists k, j :: 0 <= k < j < |lits| && IsFactor(marks, lits[k]) && IsFactor(marks, lits[j])
    ensures marks[lits[i]].factor && factors == 0 ==> Scanned(marks, lits, i + 1, 1, i, some, minLit)
    ensures !marks[lits[i]].factor ==>
              var marks' := marks[lits[i] := marks[lits[i]].(quotient := true)];
              && (some ==> Scanned(marks', lits, i + 1, factors, first, true, minLit))
              && Scanned(marks', lits, i + 1, factors, first, true, lits[i])
  {
    assert lits[..i + 1] == lits[..i] + [lits[i]];
    assert IsFactor(marks, lits[i]) == marks[lits[i]].factor;
    assert factors == 1 ==> IsFactor(marks, lits[first]);
    if !marks[lits[i]].factor {
      var marks' := marks[lits[i] := marks[lits[i]].(quotient := true)];
      assert forall l :: IsFactor(marks', l) == IsFactor(marks, l);
      assert BodyMarked(marks', lits[..i + 1]);
    }
  }

  lemma ScanEnd(marks: seq<Mark>, lits: seq<Lit>, factors: nat, first: nat, some: bool, minLit: Lit)
    requires Scanned(marks, lits, |lits|, factors, first, some, minLit)
    ensures BodyMarked(marks, lits) && OnlyMarked(marks, lits) && factors <= 1
    ensures factors == 0 ==> forall l :: l in lits ==> !IsFactor(marks, l)
    ensures factors == 1 ==> OneFactor(marks, lits, first)
    ensures factors == 1 && |lits| > 1 ==> minLit in lits && !IsFactor(marks, minLit)
  {
    assert lits[..|lits|] == lits;
  }

  // ------------------------------------------------------------------ matching clauses

  /** With as many literals, all of them allowed, the clause r' is r with next instead of f. */
  lemma MatchFound(d: Database, f: Lit, r: nat, r': nat, next: Lit)
    requires DatabaseOK(d) && r < |d.arena| && r' < |d.arena| && !d.arena[r].garbage && !d.arena[r'].garbage
    requires f in d.arena[r].lits && next !in d.arena[r].lits && |d.arena[r'].lits| == |d.arena[r].lits|
    requires forall o :: o in d.arena[r'].lits ==> o == next || (o in d.arena[r].lits && o != f)
    ensures LitSet(d.arena[r'].lits) == LitSet(d.arena[r].lits) - {f} + {next} && next in d.arena[r'].lits
    ensures next < |d.watches| && Large(r') in d.watches[next]
  {
    var c, c' := LitSet(d.arena[r].lits), LitSet(d.arena[r'].lits);
    assert StoredOK(d, r) && StoredOK(d, r');
    LitSetSize(|d.watches|, d.arena[r].lits);
    LitSetSize(|d.watches|, d.arena[r'].lits);
    SameSize(c', c - {f} + {next});
    assert next in c';
  }

  lemma SameSize(a: set<Lit>, b: set<Lit>)
    requires a <= b && |a| >= |b|
    ensures a == b
  {
    assert |b - a| == |b| - |a|;
  }

  /** A large clause of the formula is found in the list of any of its literals. */
  lemma MatchListed(d: Database, c: set<Lit>, l: Lit) returns (r: nat)
    requires DatabaseOK(d) && InFormula(d, c) && |c| >= 3 && l in c
    ensures r < |d.arena| && !d.arena[r].garbage && LitSet(d.arena[r].lits) == c && |d.arena[r].lits| == |c|
    ensures l < |d.watches| && Large(r) in d.watches[l]
  {
    var f: nat, w :| f < |d.watches| && w in d.watches[f] && Body(d, f, w) == c;
    BodySize(d, f, w);
    assert EntryOK(d, f, w);
    var w' := ListedAt(d, f, w, l);
    r := w.ref;
  }

  /** A binary clause of the formula is in the list of each of its literals. */
  lemma BinaryListed(d: Database, a: Lit, b: Lit)
    requires DatabaseOK(d) && InFormula(d, {a, b}) && a != b
    ensures a < |d.watches| && Binary(b) in d.watches[a]
  {
    var f: nat, w :| f < |d.watches| && w in d.watches[f] && Body(d, f, w) == {a, b};
    BodySize(d, f, w);
    assert |{a, b}| == 2;
    var w' := ListedAt(d, f, w, a);
    assert Body(d, a, w') == {a, b};
    BodySize(d, a, w');
    match w' {
      case Binary(b') => {
        assert b' in {a, b} && EntryOK(d, a, w');
      }
      case Large(_) => {
      }
    }
  }

  /** The next quotient after the first n clauses of the last one. */
  ghost predicate NextOK(d: Database, last: Quotient, next: Lit, clauses: seq<Watch>, matches: seq<nat>, n: nat)
    requires n <= |last.clauses|
  {
    && next < |d.watches| && |clauses| == |matches|
    && (forall k :: 0 <= k < |clauses| ==> clauses[k] in d.watches[next])
    && (forall k ::
          0 <= k < |matches| ==> matches[k] < n && Body(d, next, clauses[k]) - {next} == Rest(d, last, matches[k]))
    && (forall j, k :: 0 <= j < k < |matches| ==> matches[j] < matches[k])
    && (forall j :: 0 <= j < n ==> (j in matches <==> Matchable(d, last, j, next)))
  }

  lemma NextSkips(d: Database, last: Quotient, next: Lit, clauses: seq<Watch>, matches: seq<nat>, n: nat)
    requires n < |last.clauses| && NextOK(d, last, next, clauses, matches, n) && !Matchable(d, last, n, next)
    ensures NextOK(d, last, next, clauses, matches, n + 1)
  {
  }

  lemma NextTakes(d: Database, last: Quotient, next: Lit, clauses: seq<Watch>, matches: seq<nat>, n: nat, w: Watch)
    requires n < |last.clauses| && NextOK(d, last, next, clauses, matches, n)
    requires w in d.watches[next] && Body(d, next, w) - {next} == Rest(d, last, n) && next in Body(d, next, w)
    ensures NextOK(d, last, next, clauses + [w], matches + [n], n + 1)
  {
    var matches' := matches + [n];
    assert Body(d, next, w) == Rest(d, last, n) + {next};
    forall j | 0 <= j < n + 1 ensures j in matches' <==> Matchable(d, last, j, next) {
      assert matches'[|matches|] == n;
    }
  }

  /** The rests of different clauses of a quotient differ. */
  lemma DifferentRests(d: Database, q: Quotient, j: nat, k: nat)
    requires DatabaseOK(d) && QuotientOK(d, q) && j < |q.clauses| && k < |q.clauses| && j != k
    ensures Rest(d, q, j) != Rest(d, q, k)
  {
    BodySize(d, q.factor, q.clauses[j]);
    BodySize(d, q.factor, q.clauses[k]);
    assert Body(d, q.factor, q.clauses[j]) == Rest(d, q, j) + {q.factor};
    assert Body(d, q.factor, q.clauses[k]) == Rest(d, q, k) + {q.factor};
    SameBody(d, q.factor, q.clauses[j], q.clauses[k]);
  }

  /** With all clauses of the last quotient seen, the chain has grown by one. */
  lemma NextChain(d: Database, qs: seq<Quotient>, next: Lit, clauses: seq<Watch>, matches: seq<nat>)
    requires DatabaseOK(d) && Chain(d, qs) && qs != [] && forall p :: 0 <= p < |qs| ==> qs[p].factor != next
    requires var last := qs[|qs| - 1]; NextOK(d, last, next, clauses, matches, |last.clauses|)
    ensures Chain(d, qs + [Quotient(next, clauses, matches)])
  {
    var last, q := qs[|qs| - 1], Quotient(next, clauses, matches);
    forall j, k | 0 <= j < k < |clauses| ensures clauses[j] != clauses[k] {
      DifferentRests(d, last, matches[j], matches[k]);
    }
    assert QuotientOK(d, q) && MatchesOK(d, last, q);
    var qs' := qs + [q];
    forall p | 0 < p < |qs'| ensures MatchesOK(d, qs'[p - 1], qs'[p]) {
    }
  }

  lemma BinaryStep(d: Database, last: Quotient, i: nat, next: Lit)
    requires DatabaseOK(d) && QuotientOK(d, last) && i < |last.clauses| && last.clauses[i].Binary?
    ensures var w := last.clauses[i];
            w.lit < |d.watches| && Rest(d, last, i) == {w.lit} &&
            if Binary(next) in d.watches[w.lit]
            then next < |d.watches| && w in d.watches[next] && Body(d, next, w) - {next} == Rest(d, last, i) &&
                 next in Body(d, next, w)
            else !Matchable(d, last, i, next)
  {
    var w := last.clauses[i];
    assert EntryOK(d, last.factor, w);
    if Binary(next) in d.watches[w.lit] {
      assert EntryOK(d, w.lit, Binary(next));
    } else if next != w.lit && InFormula(d, {w.lit, next}) {
      BinaryListed(d, w.lit, next);
    }
    assert Rest(d, last, i) == {w.lit};
    assert Rest(d, last, i) + {next} == {w.lit, next};
  }

  /** The marked factors of a clause of the last quotient are its factor and perhaps next. */
  lemma FactorsOfClause(d: Database, marks: seq<Mark>, qs: seq<Quotient>, next: Lit, i: nat, l: Lit)
    requires DatabaseOK(d) && Chain(d, qs) && qs != [] && FactorsMarked(marks, qs, {next}) && |marks| == |d.watches|
    requires i < |qs[|qs| - 1].clauses|
    requires l in Body(d, qs[|qs| - 1].factor, qs[|qs| - 1].clauses[i])
    ensures IsFactor(marks, l) <==> l == next || l == qs[|qs| - 1].factor
  {
    var last := qs[|qs| - 1];
    NoFactors(d, qs, |qs| - 1, i);
    BodySize(d, last.factor, last.clauses[i]);
  }

  /** A large clause with two marked factors has no match; with one of them, next does not occur in it. */
  lemma ScannedClause(d: Database, marks: seq<Mark>, qs: seq<Quotient>, next: Lit, i: nat, ref: nat, factors: nat)
    requires DatabaseOK(d) && Chain(d, qs) && qs != [] && FactorsMarked(marks, qs, {next}) && |marks| == |d.watches|
    requires i < |qs[|qs| - 1].clauses| && qs[|qs| - 1].clauses[i] == Large(ref) && qs[|qs| - 1].factor != next
    requires ref < |d.arena| && Proper(|marks|, d.arena[ref].lits)
    requires var lits := d.arena[ref].lits;
             && (factors == 0 ==> forall l :: l in lits ==> !IsFactor(marks, l))
             && (factors == 1 ==> exists j :: OneFactor(marks, lits, j))
             && (factors > 1 ==>
                   exists i, j :: 0 <= i < j < |lits| && IsFactor(marks, lits[i]) && IsFactor(marks, lits[j]))
    ensures factors != 1 ==> !Matchable(d, qs[|qs| - 1], i, next)
    ensures factors == 1 ==> next !in d.arena[ref].lits
    ensures forall l :: l in d.arena[ref].lits ==> (IsFactor(marks, l) <==> l == next || l == qs[|qs| - 1].factor)
    ensures qs[|qs| - 1].factor in d.arena[ref].lits
  {
    hide Chain, FactorsMarked, DatabaseOK, InFormula, Matchable;
    var last, lits := qs[|qs| - 1], d.arena[ref].lits;
    ClauseOfLast(d, qs, i);
    forall l | l in lits ensures IsFactor(marks, l) <==> l == next || l == last.factor {
      FactorsOfClause(d, marks, qs, next, i, l);
    }
    if factors > 1 {
      var k, j :| 0 <= k < j < |lits| && IsFactor(marks, lits[k]) && IsFactor(marks, lits[j]);
      assert lits[k] != lits[j];
      OccurringNext(d, last, i, ref, next);
    } else if factors == 1 {
      var j :| OneFactor(marks, lits, j);
    }
  }

  lemma OccurringNext(d: Database, last: Quotient, i: nat, ref: nat, next: Lit)
    requires i < |last.clauses| && last.clauses[i] == Large(ref) && ref < |d.arena| && next in d.arena[ref].lits
    requires next != last.factor
    ensures !Matchable(d, last, i, next)
  {
    assert next in Rest(d, last, i);
  }

  /** A clause found is the one looked for. */
  lemma FoundMatch(d: Database, marks: seq<Mark>, last: Quotient, i: nat, ref: nat, found: nat, next: Lit)
    requires DatabaseOK(d) && QuotientOK(d, last) && |marks| == |d.watches|
    requires i < |last.clauses| && last.clauses[i] == Large(ref) && last.factor != next && found < |d.arena|
    requires !d.arena[found].garbage
    requires ref < |d.arena| && next !in d.arena[ref].lits && IsFactor(marks, last.factor)
    requires BodyMarked(marks, d.arena[ref].lits) && |d.arena[found].lits| == |d.arena[ref].lits|
    requires forall l :: l in d.arena[found].lits ==> l < |marks| && (marks[l].quotient || l == next)
    ensures next < |d.watches| && Large(found) in d.watches[next] && next in Body(d, next, Large(found))
    ensures Body(d, next, Large(found)) - {next} == Rest(d, last, i)
  {
    assert EntryOK(d, last.factor, last.clauses[i]);
    forall o | o in d.arena[found].lits ensures o == next || (o in d.arena[ref].lits && o != last.factor) {
    }
    MatchFound(d, last.factor, ref, found, next);
    var rest := Rest(d, last, i);
    assert next !in rest && Body(d, next, Large(found)) == rest + {next};
  }

  /** Clause r has the size of the clause ref, and only marked literals but for next. */
  ghost predicate Suits(d: Database, marks: seq<Mark>, flagged: seq<bool>, ref: nat, r: nat, next: Lit) {
    && ref < |d.arena| && r < |d.arena| && r < |flagged| && r != ref && !flagged[r] &&
       |d.arena[r].lits| == |d.arena[ref].lits|
    && forall l :: l in d.arena[r].lits ==> l < |marks| && (marks[l].quotient || l == next)
  }

  /** If there is a match, the search in the list of a literal of the quotient comes across it. */
  lemma NotFound(d: Database, marks: seq<Mark>, flagged: seq<bool>, last: Quotient, i: nat,
                 ref: nat, minLit: Lit, next: Lit,
                 clauses: seq<Watch>, matches: seq<nat>) returns (r: nat)
    requires DatabaseOK(d) && QuotientOK(d, last) && |marks| == |d.watches| && |flagged| == |d.arena|
    requires i < |last.clauses| && last.clauses[i] == Large(ref) && ref < |d.arena|
    requires NextOK(d, last, next, clauses, matches, i)
    requires forall r: nat :: r < |flagged| ==> (flagged[r] <==> Large(r) in clauses)
    requires next !in d.arena[ref].lits && IsFactor(marks, last.factor) && BodyMarked(marks, d.arena[ref].lits)
    requires forall l :: l in d.arena[ref].lits ==> (IsFactor(marks, l) <==> l == next || l == last.factor)
    requires minLit in d.arena[ref].lits && !IsFactor(marks, minLit) && minLit < |d.watches|
    ensures Matchable(d, last, i, next) ==> Large(r) in d.watches[minLit] && Suits(d, marks, flagged, ref, r, next)
  {
    r := 0;
    if Matchable(d, last, i, next) {
      r := MatchPresent(d, marks, last, i, ref, minLit, next);
      NotFlagged(d, last, i, next, clauses, matches, r);
    }
  }

  lemma MatchPresent(d: Database, marks: seq<Mark>, last: Quotient, i: nat, ref: nat, minLit: Lit, next: Lit)
    returns (r: nat)
    requires DatabaseOK(d) && QuotientOK(d, last) && |marks| == |d.watches|
    requires i < |last.clauses| && last.clauses[i] == Large(ref) && ref < |d.arena|
    requires next !in d.arena[ref].lits && IsFactor(marks, last.factor) && BodyMarked(marks, d.arena[ref].lits)
    requires forall l :: l in d.arena[ref].lits ==> (IsFactor(marks, l) <==> l == next || l == last.factor)
    requires minLit in d.arena[ref].lits && !IsFactor(marks, minLit) && Matchable(d, last, i, next)
    ensures minLit < |d.watches| && r < |d.arena| && Large(r) in d.watches[minLit] && r != ref && !d.arena[r].garbage
    ensures |d.arena[r].lits| == |d.arena[ref].lits| && LitSet(d.arena[r].lits) == Rest(d, last, i) + {next}
    ensures forall l :: l in d.arena[r].lits ==> l < |marks| && (marks[l].quotient || l == next)
  {
    var c := Rest(d, last, i) + {next};
    BodySize(d, last.factor, last.clauses[i]);
    assert EntryOK(d, last.factor, last.clauses[i]) && StoredOK(d, ref);
    assert Rest(d, last, i) == LitSet(d.arena[ref].lits) - {last.factor};
    assert |c| == |LitSet(d.arena[ref].lits)|;
    r := MatchListed(d, c, minLit);
    assert StoredOK(d, r);
    assert next in c;
    forall l | l in d.arena[r].lits ensures l < |marks| && (marks[l].quotient || l == next) {
      assert l in c;
    }
  }

  lemma NotFlagged(d: Database, last: Quotient, i: nat, next: Lit, clauses: seq<Watch>, matches: seq<nat>, r: nat)
    requires DatabaseOK(d) && QuotientOK(d, last) && i < |last.clauses| && NextOK(d, last, next, clauses, matches, i)
    requires r < |d.arena| && LitSet(d.arena[r].lits) == Rest(d, last, i) + {next} && next !in Rest(d, last, i)
    ensures Large(r) !in clauses
  {
    forall k | 0 <= k < |clauses| ensures clauses[k] != Large(r) {
      DifferentRests(d, last, matches[k], i);
      assert Body(d, next, Large(r)) - {next} == Rest(d, last, i);
    }
  }

  // ------------------------------------------------------------------ flushing

  /** Only the matched clauses of prev remain. */
  function Compacted(prev: Quotient, matches: seq<nat>, first: bool): Quotient
    requires forall k :: 0 <= k < |matches| ==> matches[k] < |prev.clauses| && (first || matches[k] < |prev.matches|)
  {
    Quotient(prev.factor, seq(|matches|, k requires 0 <= k < |matches| => prev.clauses[matches[k]]),
             if first then prev.matches else seq(|matches|, k requires 0 <= k < |matches| => prev.matches[matches[k]]))
  }

  lemma CompactedOK(d: Database, qs: seq<Quotient>, p: nat)
    requires Chain(d, qs) && 0 < p < |qs|
    ensures var m := qs[p].matches;
            forall k :: 0 <= k < |m| ==> m[k] < |qs[p - 1].clauses| && (p == 1 || m[k] < |qs[p - 1].matches|)
    ensures var prev := Compacted(qs[p - 1], qs[p].matches, p == 1);
            && Chain(d, qs[..p - 1] + [prev]) && |prev.clauses| == |qs[p].clauses|
            && forall k :: 0 <= k < |prev.clauses| ==> Rest(d, prev, k) == Rest(d, qs[p], k)
  {
    assert MatchesOK(d, qs[p - 1], qs[p]) && QuotientOK(d, qs[p - 1]);
    if p > 1 {
      assert MatchesOK(d, qs[p - 2], qs[p - 1]);
    }
    var prev := Compacted(qs[p - 1], qs[p].matches, p == 1);
    var qs' := qs[..p - 1] + [prev];
    forall k | 0 <= k < |prev.clauses| ensures Rest(d, prev, k) == Rest(d, qs[p - 1], qs[p].matches[k]) {
    }
    assert QuotientOK(d, prev) && (p > 1 ==> MatchesOK(d, qs[p - 2], prev));
    forall i | 0 < i < |qs'| ensures MatchesOK(d, qs'[i - 1], qs'[i]) {
      assert i < p - 1 ==> MatchesOK(d, qs[i - 1], qs[i]);
    }
  }

  lemma {:induction false} AboveIndex(m: seq<nat>, k: nat)
    requires k < |m| && forall i, j :: 0 <= i < j < |m| ==> m[i] < m[j]
    ensures k <= m[k]
  {
    if k > 0 {
      AboveIndex(m, k - 1);
    }
  }

  /** The first i elements of s0 that m selects have moved to the front. */
  ghost predicate Moved<T>(s: seq<T>, s0: seq<T>, m: seq<nat>, i: nat) {
    && |s| == |s0| && i <= |m| && (forall k :: 0 <= k < |m| ==> m[k] < |s0|) &&
       (forall j, k :: 0 <= j < k < |m| ==> m[j] < m[k])
    && (forall k :: 0 <= k < i && k < |s| ==> s[k] == s0[m[k]]) && (forall k :: i <= k < |s| ==> s[k] == s0[k])
  }

  lemma MovedStart<T>(s: seq<T>, m: seq<nat>)
    requires forall j, k :: 0 <= j < k < |m| ==> m[j] < m[k]
    ensures (forall k :: 0 <= k < |m| ==> m[k] < |s|) ==> Moved(s, s, m, 0)
  {
  }

  lemma MovedStep<T>(s: seq<T>, s0: seq<T>, m: seq<nat>, i: nat)
    requires i < |m| && Moved(s, s0, m, i)
    ensures i <= m[i] < |s| && Moved(s[i := s[m[i]]], s0, m, i + 1)
  {
    AboveIndex(m, i);
  }

  lemma MovedEnd<T>(s: seq<T>, s0: seq<T>, m: seq<nat>)
    requires Moved(s, s0, m, |m|)
    ensures |m| <= |s| && forall k :: 0 <= k < |m| ==> m[k] < |s0|
    ensures forall k :: 0 <= k < |m| ==> s[..|m|][k] == s0[m[k]]
  {
    if |m| > 0 {
      AboveIndex(m, |m| - 1);
    }
  }

  /** The quotients from p to q have the same rests at the same positions. */
  ghost predicate AlignedFrom(d: Database, qs: seq<Quotient>, p: nat, q: nat) {
    && p <= q < |qs|
    && (forall i :: p <= i <= q ==> QuotientOK(d, qs[i]) && |qs[i].clauses| == |qs[q].clauses|)
    && (forall i, k: nat :: p <= i <= q && k < |qs[i].clauses| ==> Rest(d, qs[i], k) == Rest(d, qs[q], k))
  }

  /** All quotients up to q are aligned, and no factor occurs in a rest. */
  ghost predicate Aligned(d: Database, qs: seq<Quotient>, q: nat) {
    && AlignedFrom(d, qs, 0, q)
    && (forall i, j :: 0 <= i < j <= q ==> qs[i].factor != qs[j].factor)
    && (forall i, k: nat :: 0 <= i <= q && k < |qs[q].clauses| ==> qs[i].factor !in Rest(d, qs[q], k))
  }

  ghost predicate SameChain(qs: seq<Quotient>, qs': seq<Quotient>) {
    |qs'| == |qs| && forall p :: 0 <= p < |qs| ==> qs'[p].factor == qs[p].factor
  }

  lemma FlushedAligned(d: Database, qs: seq<Quotient>, p: nat, q: nat, qs': seq<Quotient>)
    requires 0 < p <= q < |qs| && Chain(d, qs[..p + 1]) && AlignedFrom(d, qs, p, q)
    requires forall k :: 0 <= k < |qs[p].matches| ==>
                         qs[p].matches[k] < |qs[p - 1].clauses| && (p == 1 || qs[p].matches[k] < |qs[p - 1].matches|)
    requires qs' == qs[p - 1 := Compacted(qs[p - 1], qs[p].matches, p == 1)]
    ensures Chain(d, qs'[..p]) && AlignedFrom(d, qs', p - 1, q)
  {
    var c := qs[..p + 1];
    CompactedOK(d, c, p);
    var prev := Compacted(qs[p - 1], qs[p].matches, p == 1);
    assert c[..p - 1] + [prev] == qs'[..p];
    assert qs'[..p][p - 1] == prev;
    assert MatchesOK(d, c[p - 1], c[p]);
    forall i | p - 1 <= i <= q ensures QuotientOK(d, qs'[i]) && |qs'[i].clauses| == |qs'[q].clauses| {
      assert i >= p ==> qs'[i] == qs[i];
    }
    forall i, k: nat | p - 1 <= i <= q && k < |qs'[i].clauses| ensures Rest(d, qs'[i], k) == Rest(d, qs'[q], k) {
      assert qs'[q] == qs[q];
      assert i >= p ==> qs'[i] == qs[i];
      assert Rest(d, qs[p], k) == Rest(d, qs[q], k);
    }
  }

  // ------------------------------------------------------------------ counting

  /** What replacing the clauses up to quotient i saves. */
  function Reduction(qs: seq<Quotient>, i: nat): int
    requires i < |qs|
  {
    |qs[i].clauses| * (i + 1) - (|qs[i].clauses| + (i + 1))
  }

  // ------------------------------------------------------------------ what a chain finds, in terms of the formula

  /** The rests that go with every factor: the formula has the clause of each. */
  function Shared(f: set<set<Lit>>, factors: seq<Lit>): set<set<Lit>>
    requires factors != []
  {
    set c | c in f && factors[0] in c && SharedRest(f, factors, c - {factors[0]}) :: c - {factors[0]}
  }

  predicate SharedRest(f: set<set<Lit>>, factors: seq<Lit>, r: set<Lit>) {
    forall l :: l in factors ==> l !in r && r + {l} in f
  }

  lemma SharedMember(f: set<set<Lit>>, factors: seq<Lit>, r: set<Lit>)
    requires factors != []
    ensures r in Shared(f, factors) <==> SharedRest(f, factors, r)
  {
    var l := factors[0];
    if SharedRest(f, factors, r) {
      assert l !in r && r + {l} in f;
      assert r == r + {l} - {l};
    }
  }

  /** The number of clauses saved by factoring out the first i + 1 of the factors. */
  function Saved(f: set<set<Lit>>, factors: seq<Lit>, i: nat): int
    requires i < |factors|
  {
    var n := |Shared(f, factors[..i + 1])|;
    n * (i + 1) - (n + (i + 1))
  }

  /** The factors tried: as far as the literals proposed are in range and new. */
  function Tried(n: nat, factors: seq<Lit>, nexts: seq<Lit>): (tried: seq<Lit>)
    ensures factors <= tried
    decreases |nexts|
  {
    if nexts == [] || nexts[0] >= n || nexts[0] in factors then factors
    else Tried(n, factors + [nexts[0]], nexts[1..])
  }

  /** Each quotient has exactly the rests shared by the factors up to its own. */
  ghost predicate Complete(d: Database, f: set<set<Lit>>, qs: seq<Quotient>) {
    forall p :: 0 <= p < |qs| ==> CompleteAt(d, f, qs, p)
  }

  ghost predicate CompleteAt(d: Database, f: set<set<Lit>>, qs: seq<Quotient>, p: nat)
    requires p < |qs|
  {
    forall r: set<Lit> :: r in Rests(d, qs[p]) <==> SharedRest(f, Factors(qs, p), r)
  }

  lemma FirstComplete(d: Database, f: set<set<Lit>>, first: Lit)
    requires DatabaseOK(d) && Represents(d, f) && first < |d.watches|
    ensures Complete(d, f, [Quotient(first, d.watches[first], [])])
  {
    hide DatabaseOK, InFormula;
    var q := Quotient(first, d.watches[first], []);
    assert Factors([q], 0) == [first];
    forall r: set<Lit> ensures r in Rests(d, q) <==> SharedRest(f, [first], r) {
      assert SharedRest(f, [first], r) <==> first !in r && r + {first} in f;
      if r in Rests(d, q) {
        RestPresent(d, q, r);
      }
      if SharedRest(f, [first], r) {
        FirstListed(d, q, r);
      }
    }
  }

  lemma RestPresent(d: Database, q: Quotient, r: set<Lit>)
    requires DatabaseOK(d) && q.factor < |d.watches| && q.clauses == d.watches[q.factor] && r in Rests(d, q)
    ensures q.factor !in r && InFormula(d, r + {q.factor})
  {
    var k :| 0 <= k < |q.clauses| && Rest(d, q, k) == r;
    BodySize(d, q.factor, q.clauses[k]);
    assert r + {q.factor} == Body(d, q.factor, q.clauses[k]);
  }

  lemma FirstListed(d: Database, q: Quotient, r: set<Lit>)
    requires DatabaseOK(d) && q.factor < |d.watches| && q.clauses == d.watches[q.factor] && q.factor !in r
    requires InFormula(d, r + {q.factor})
    ensures r in Rests(d, q)
  {
    var c := r + {q.factor};
    var g: nat, w :| g < |d.watches| && w in d.watches[g] && Body(d, g, w) == c;
    assert q.factor in c;
    var w' := ListedAt(d, g, w, q.factor);
    var k :| 0 <= k < |q.clauses| && q.clauses[k] == w';
    assert Rests(d, q)[k] == c - {q.factor} == r;
  }

  lemma NextComplete(d: Database, f: set<set<Lit>>, qs: seq<Quotient>, q: Quotient)
    requires Represents(d, f) && Complete(d, f, qs) && qs != [] && MatchesOK(d, qs[|qs| - 1], q)
    requires var last := qs[|qs| - 1];
             forall i: nat :: i < |last.clauses| ==> (i in q.matches <==> Matchable(d, last, i, q.factor))
    ensures Complete(d, f, qs + [q])
  {
    hide InFormula;
    var qs', n := qs + [q], |qs|;
    forall p | 0 <= p < |qs'| ensures CompleteAt(d, f, qs', p) {
      if p < n {
        assert Factors(qs', p) == Factors(qs, p) && CompleteAt(d, f, qs, p);
      } else {
        NextRests(d, f, qs, q);
      }
    }
  }

  lemma NextRests(d: Database, f: set<set<Lit>>, qs: seq<Quotient>, q: Quotient)
    requires Represents(d, f) && Complete(d, f, qs) && qs != [] && MatchesOK(d, qs[|qs| - 1], q)
    requires var last := qs[|qs| - 1];
             forall i: nat :: i < |last.clauses| ==> (i in q.matches <==> Matchable(d, last, i, q.factor))
    ensures CompleteAt(d, f, qs + [q], |qs|)
  {
    hide InFormula;
    var qs', n, last := qs + [q], |qs|, qs[|qs| - 1];
    assert Factors(qs', n) == Factors(qs, n - 1) + [q.factor];
    assert CompleteAt(d, f, qs, n - 1);
    forall r: set<Lit> ensures r in Rests(d, q) <==> SharedRest(f, Factors(qs', n), r) {
      assert SharedRest(f, Factors(qs', n), r) <==>
             SharedRest(f, Factors(qs, n - 1), r) && q.factor !in r && r + {q.factor} in f;
      if r in Rests(d, q) {
        var k :| 0 <= k < |q.clauses| && Rest(d, q, k) == r;
        var i := q.matches[k];
        assert Rests(d, last)[i] == r && Matchable(d, last, i, q.factor);
      }
      if SharedRest(f, Factors(qs', n), r) {
        var i :| 0 <= i < |last.clauses| && Rests(d, last)[i] == r;
        assert Matchable(d, last, i, q.factor);
        var k :| 0 <= k < |q.matches| && q.matches[k] == i;
        assert Rests(d, q)[k] == r;
      }
    }
  }

  lemma TriedNext(n: nat, marks: seq<Mark>, qs: seq<Quotient>, nexts: seq<Lit>)
    requires qs != [] && nexts != [] && nexts[0] < n == |marks| && !marks[nexts[0]].factor
    requires FactorsMarked(marks, qs, {})
    ensures var factors := Factors(qs, |qs| - 1); Tried(n, factors, nexts) == Tried(n, factors + [nexts[0]], nexts[1..])
    ensures forall q: Quotient :: q.factor == nexts[0] ==> Factors(qs + [q], |qs|) == Factors(qs, |qs| - 1) + [nexts[0]]
  {
  }

  lemma TriedEnd(n: nat, marks: seq<Mark>, qs: seq<Quotient>, nexts: seq<Lit>)
    requires qs != [] && n == |marks| && FactorsMarked(marks, qs, {})
    requires nexts == [] || nexts[0] >= n || marks[nexts[0]].factor
    ensures var factors := Factors(qs, |qs| - 1); Tried(n, factors, nexts) == factors
  {
    var factors := Factors(qs, |qs| - 1);
    if nexts != [] && nexts[0] < n {
      var p :| 0 <= p < |qs| && qs[p].factor == nexts[0];
      assert factors[p] == nexts[0];
    }
  }

  lemma ChainLast(d: Database, qs: seq<Quotient>)
    requires Chain(d, qs) && |qs| > 1
    ensures MatchesOK(d, qs[|qs| - 2], qs[|qs| - 1])
  {
  }

  lemma AllSaved(d: Database, f: set<set<Lit>>, qs: seq<Quotient>)
    requires DatabaseOK(d) && Chain(d, qs) && Complete(d, f, qs) && qs != []
    ensures var factors := Factors(qs, |qs| - 1);
            forall p :: 0 <= p < |qs| ==> Reduction(qs, p) == Saved(f, factors, p)
  {
    forall p | 0 <= p < |qs| ensures Reduction(qs, p) == Saved(f, Factors(qs, |qs| - 1), p) {
      ReductionSaved(d, f, qs, p);
    }
  }

  lemma RestsDistinct(d: Database, qs: seq<Quotient>, p: nat)
    requires DatabaseOK(d) && Chain(d, qs) && p < |qs|
    ensures Distinct(Rests(d, qs[p]))
  {
    forall j, k | 0 <= j < k < |qs[p].clauses| ensures Rests(d, qs[p])[j] != Rests(d, qs[p])[k] {
      DifferentRests(d, qs[p], j, k);
    }
  }

  /** As many clauses as shared rests, so that the reduction is what is saved. */
  lemma ReductionSaved(d: Database, f: set<set<Lit>>, qs: seq<Quotient>, p: nat)
    requires DatabaseOK(d) && Chain(d, qs) && Complete(d, f, qs) && p < |qs|
    ensures |qs[p].clauses| == |Shared(f, Factors(qs, p))|
    ensures var factors := Factors(qs, |qs| - 1); Reduction(qs, p) == Saved(f, factors, p)
    ensures forall r :: r in Rests(d, qs[p]) <==> r in Shared(f, Factors(qs, p))
  {
    var q := qs[p];
    assert CompleteAt(d, f, qs, p);
    forall r: set<Lit> ensures r in Rests(d, q) <==> r in Shared(f, Factors(qs, p)) {
      SharedMember(f, Factors(qs, p), r);
    }
    forall j, k | 0 <= j < k < |q.clauses| ensures Rests(d, q)[j] != Rests(d, q)[k] {
      DifferentRests(d, q, j, k);
    }
    DistinctSize(Rests(d, q), Shared(f, Factors(qs, p)));
    assert Factors(qs, |qs| - 1)[..p + 1] == Factors(qs, p);
  }

  lemma {:induction false} DistinctSize<T>(s: seq<T>, c: set<T>)
    requires Distinct(s) && forall x :: x in s <==> x in c
    ensures |s| == |c|
  {
    if s == [] {
      assert c == {};
    } else {
      forall x ensures x in s[1..] <==> x in c - {s[0]} {
        assert x in s <==> x == s[0] || x in s[1..];
      }
      DistinctSize(s[1..], c - {s[0]});
    }
  }

  /** When a round applies a factoring. */
  ghost predicate Worthwhile(f: set<set<Lit>>, factors: seq<Lit>, bound: nat) {
    factors != [] && |Shared(f, factors[..1])| > 1 && exists i :: 0 <= i < |factors| && Saved(f, factors, i) > bound
  }

  /** The formula after factoring out the first of the largest savings. */
  ghost predicate Improved(f: set<set<Lit>>, f': set<set<Lit>>, factors: seq<Lit>, rests: seq<set<Lit>>, i: nat, x: Lit)
  {
    && i < |factors| && (forall r :: r in rests <==> r in Shared(f, factors[..i + 1])) && Distinct(rests)
    && (forall j :: 0 <= j < |factors| ==> Saved(f, factors, j) <= Saved(f, factors, i))
    && (forall j :: 0 <= j < i ==> Saved(f, factors, j) < Saved(f, factors, i))
    && |f'| == |f| - Saved(f, factors, i) && Factored(f, f', factors[..i + 1], rests, x)
  }

  lemma WorthwhileAt(f: set<set<Lit>>, factors: seq<Lit>, bound: nat, i: nat)
    requires i < |factors| && Saved(f, factors, i) > bound && |Shared(f, factors[..1])| > 1
    ensures Worthwhile(f, factors, bound)
  {
  }

  lemma NotWorthwhile(f: set<set<Lit>>, factors: seq<Lit>, bound: nat)
    requires forall i :: 0 <= i < |factors| ==> Saved(f, factors, i) <= bound
    ensures !Worthwhile(f, factors, bound)
  {
  }

  lemma FewRests(f: set<set<Lit>>, factors: seq<Lit>, bound: nat)
    requires factors != [] && |Shared(f, factors[..1])| <= 1
    ensures !Worthwhile(f, factors, bound)
  {
  }

  lemma ImprovedBy(f: set<set<Lit>>, f': set<set<Lit>>, factors: seq<Lit>, rests: seq<set<Lit>>, i: nat, x: Lit)
    requires i < |factors| && (forall r :: r in rests <==> r in Shared(f, factors[..i + 1])) && Distinct(rests)
    requires forall j :: 0 <= j < |factors| ==> Saved(f, factors, j) <= Saved(f, factors, i)
    requires forall j :: 0 <= j < i ==> Saved(f, factors, j) < Saved(f, factors, i)
    requires |f'| == |f| - Saved(f, factors, i) && Factored(f, f', factors[..i + 1], rests, x)
    ensures Improved(f, f', factors, rests, i, x)
  {
  }

  class Factorizer {
    var d: Database
    var marks: seq<Mark>
    var flagged: seq<bool>
    var quotients: seq<Quotient>
    ghost var formula: set<set<Lit>>

    ghost predicate Marked(extra: set<Lit>)
      reads this
    {
      && |marks| == |d.watches| && FactorsMarked(marks, quotients, extra) && NoQuotientMarks(marks) && Unflagged()
    }

    ghost predicate Unflagged()
      reads this
    {
      |flagged| == |d.arena| && forall r :: 0 <= r < |flagged| ==> !flagged[r]
    }

    /** All clauses are connected, no quotients have been started. */
    constructor (d: Database)
      requires DatabaseOK(d)
      ensures Valid() && this.d == d && quotients == []
    {
      hide DatabaseOK;
      this.d, quotients := d, [];
      marks, flagged := seq(|d.watches|, _ => Mark(false, false)), seq(|d.arena|, _ => false);
      formula := AllClauses(d);
      AllRepresented(d);
    }

    ghost predicate Valid()
      reads this
    {
      DatabaseOK(d) && Represents(d, formula) && Chain(d, quotients) && Marked({})
    }

    /** The first quotient holds all clauses with the factor. */
    method FirstFactor(factor: Lit)
      requires Valid() && quotients == [] && factor < |d.watches|
      modifies this`marks, this`quotients
      ensures Valid() && quotients == [Quotient(factor, d.watches[factor], [])]
    {
      marks := marks[factor := marks[factor].(factor := true)];
      var clauses: seq<Watch> := [];
      var ws := d.watches[factor];
      for i := 0 to |ws|
        invariant clauses == ws[..i]
      {
        clauses := clauses + [ws[i]];
      }
      assert ws[..|ws|] == ws;
      quotients := [Quotient(factor, clauses, [])];
      assert quotients[0].factor == factor;
    }

    // -------------------------------------------------------------- the next quotient

    /** Marks the literals of a clause until a second factor is found; finds one with few occurrences. */
    method MarkBody(lits: seq<Lit>) returns (factors: nat, minLit: Lit)
      requires Proper(|marks|, lits) && |marks| == |d.watches| && NoQuotientMarks(marks)
      modifies this`marks
      ensures SameFactors(old(marks), marks) && OnlyMarked(marks, lits)
      ensures factors == 0 ==> forall l :: l in lits ==> !IsFactor(marks, l)
      ensures factors == 1 ==> BodyMarked(marks, lits) && exists j :: OneFactor(marks, lits, j)
      ensures factors == 1 && |lits| > 1 ==> minLit in lits && !IsFactor(marks, minLit)
      ensures factors > 1 ==> exists i, j :: 0 <= i < j < |lits| && IsFactor(marks, lits[i]) && IsFactor(marks, lits[j])
    {
      hide Scanned, BodyMarked, OneFactor, OnlyMarked;
      factors, minLit := 0, 0;
      var some, minSize := false, 0;
      ghost var first := 0;
      ScanStart(marks, lits);
      var i := 0;
      while i < |lits|
        invariant 0 <= i <= |lits| && SameFactors(old(marks), marks)
        invariant Scanned(marks, lits, i, factors, first, some, minLit)
      {
        ScanStep(marks, lits, i, factors, first, some, minLit);
        var other := lits[i];
        if marks[other].factor {
          factors := factors + 1;
          if factors > 1 {
            return;
          }
          first := i;
        } else {
          marks := marks[other := marks[other].(quotient := true)];
          var otherSize := |d.watches[other]|;
          if !some || minSize > otherSize {
            some, minLit, minSize := true, other, otherSize;
          }
        }
        i := i + 1;
      }
      ScanEnd(marks, lits, factors, first, some, minLit);
    }

    method UnmarkBody(lits: seq<Lit>)
      requires Proper(|marks|, lits) && OnlyMarked(marks, lits)
      modifies this`marks
      ensures SameFactors(old(marks), marks) && NoQuotientMarks(marks)
    {
      for i := 0 to |lits|
        invariant SameFactors(old(marks), marks)
        invariant OnlyMarked(marks, lits[i..])
      {
        var other := lits[i];
        marks := marks[other := marks[other].(quotient := false)];
      }
    }

    method AllMarked(lits: seq<Lit>, next: Lit) returns (res: bool)
      requires Proper(|marks|, lits)
      ensures res <==> forall l :: l in lits ==> l < |marks| && (marks[l].quotient || l == next)
    {
      for i := 0 to |lits|
        invariant forall k :: 0 <= k < i ==> marks[lits[k]].quotient || lits[k] == next
      {
        if !marks[lits[i]].quotient && lits[i] != next {
          return false;
        }
      }
      return true;
    }

    /** Searches a list for an unused clause of the same size whose literals are marked or next. */
    method FindMatch(ref: nat, minLit: Lit, next: Lit) returns (found: int)
      requires DatabaseOK(d) && ref < |d.arena| && !d.arena[ref].garbage && minLit < |d.watches|
      requires |marks| == |d.watches| && |flagged| == |d.arena|
      ensures -1 <= found < |d.arena|
      ensures found >= 0 ==> Large(found) in d.watches[minLit] && Suits(d, marks, flagged, ref, found, next)
      ensures found < 0 ==> forall r: nat ::
                            r < |d.arena| && Large(r) in d.watches[minLit] ==> !Suits(d, marks, flagged, ref, r, next)
    {
      var ws := d.watches[minLit];
      found := -1;
      for i := 0 to |ws|
        invariant forall k, r: nat ::
                    0 <= k < i && r < |d.arena| && ws[k] == Large(r) ==> !Suits(d, marks, flagged, ref, r, next)
      {
        var w := ws[i];
        if w.Large? {
          assert EntryOK(d, minLit, w) && StoredOK(d, w.ref);
          if w.ref != ref && !flagged[w.ref] && |d.arena[w.ref].lits| == |d.arena[ref].lits| {
            var all := AllMarked(d.arena[w.ref].lits, next);
            if all {
              found := w.ref;
              return;
            }
          }
        }
      }
    }

    method HasBinary(q: Lit, next: Lit) returns (res: bool)
      requires q < |d.watches|
      ensures res <==> Binary(next) in d.watches[q]
    {
      var ws := d.watches[q];
      for i := 0 to |ws|
        invariant Binary(next) !in ws[..i]
      {
        if ws[i] == Binary(next) {
          return true;
        }
      }
      return false;
    }

    /** The literals marked and the clauses flagged while the next quotient is built. */
    ghost predicate Building(next: Lit, clauses: seq<Watch>, matches: seq<nat>, qlauses: seq<nat>, i: nat)
      reads this
    {
      && DatabaseOK(d) && Chain(d, quotients) && quotients != [] && next < |d.watches|
      && |marks| == |d.watches| && FactorsMarked(marks, quotients, {next}) && NoQuotientMarks(marks)
      && |flagged| == |d.arena| && (forall r: nat :: r < |flagged| ==> (flagged[r] <==> Large(r) in clauses))
      && (forall r :: r in qlauses ==> r < |flagged|) && (forall r: nat :: r < |flagged| && flagged[r] ==> r in qlauses)
      && i <= |Last().clauses| && NextOK(d, Last(), next, clauses, matches, i) && Last().factor != next
    }

    function Last(): Quotient
      requires quotients != []
      reads this
    {
      quotients[|quotients| - 1]
    }

    /** Looks for a match of one large clause. */
    method MatchLarge(i: nat, next: Lit, ghost clauses: seq<Watch>, ghost matches: seq<nat>, ghost qlauses: seq<nat>)
      returns (found: int)
      requires Building(next, clauses, matches, qlauses, i) && i < |Last().clauses| && Last().clauses[i].Large?
      modifies this`marks
      ensures Building(next, clauses, matches, qlauses, i) && -1 <= found < |d.arena|
      ensures if found < 0 then !Matchable(d, Last(), i, next)
              else (Large(found) in d.watches[next] && next in Body(d, next, Large(found))
                    && Body(d, next, Large(found)) - {next} == Rest(d, Last(), i))
    {
      hide Chain, NextOK, Matchable, MatchesOK;
      var ref := Last().clauses[i].ref;
      ClauseOfLast(d, quotients, i);
      var lits := d.arena[ref].lits;
      found := -1;
      var factors, minLit := MarkBody(lits);
      SameFactorsMarked(old(marks), marks, quotients, {next});
      ScannedClause(d, marks, quotients, next, i, ref, factors);
      if factors == 1 {
        FactorIsMarked(marks, quotients, next);
        found := FindMatch(ref, minLit, next);
        if found >= 0 {
          assert EntryOK(d, minLit, Large(found));
          FoundMatch(d, marks, Last(), i, ref, found, next);
        } else {
          ghost var r := NotFound(d, marks, flagged, Last(), i, ref, minLit, next, clauses, matches);
        }
      }
      ghost var marks1 := marks;
      UnmarkBody(lits);
      SameFactorsMarked(marks1, marks, quotients, {next});
    }

    /** The next quotient holds exactly the matches of the clauses of the last one. */
    method FactorizeNext(next: Lit)
      requires Valid() && quotients != [] && next < |d.watches| && !marks[next].factor
      modifies this`marks, this`flagged, this`quotients
      ensures Valid() && |quotients| == |old(quotients)| + 1 && quotients[..|old(quotients)|] == old(quotients)
      ensures var last, q := old(quotients)[|old(quotients)| - 1], quotients[|quotients| - 1];
              && q.factor == next
              && forall i: nat :: i < |last.clauses| ==> (i in q.matches <==> Matchable(d, last, i, next))
    {
      hide Chain, NextOK, Matchable, FactorsMarked, Represents, DatabaseOK;
      NewFactor(marks, quotients, next);
      marks := marks[next := marks[next].(factor := true)];
      var last := quotients[|quotients| - 1];
      var clauses: seq<Watch>, matches: seq<nat>, qlauses: seq<nat> := [], [], [];
      NextStart(d, last, next);
      var i := 0;
      while i < |last.clauses|
        invariant 0 <= i <= |last.clauses| && Building(next, clauses, matches, qlauses, i)
        invariant quotients == old(quotients)
      {
        var w := last.clauses[i];
        LastOK(d, quotients);
        if w.Binary? {
          BinaryStep(d, last, i, next);
          var has := HasBinary(w.lit, next);
          if has {
            NextTakes(d, last, next, clauses, matches, i, w);
            clauses, matches := clauses + [w], matches + [i];
          } else {
            NextSkips(d, last, next, clauses, matches, i);
          }
        } else {
          var found := MatchLarge(i, next, clauses, matches, qlauses);
          if found >= 0 {
            NextTakes(d, last, next, clauses, matches, i, Large(found));
            clauses, matches := clauses + [Large(found)], matches + [i];
            assert clauses[|clauses| - 1] == Large(found);
            qlauses := qlauses + [found];
            assert qlauses[|qlauses| - 1] == found;
            flagged := flagged[found := true];
          } else {
            NextSkips(d, last, next, clauses, matches, i);
          }
        }
        i := i + 1;
      }
      ClearQlauses(qlauses);
      NextDone(d, marks, quotients, next, clauses, matches);
      quotients := quotients + [Quotient(next, clauses, matches)];
    }

    method ClearQlauses(qlauses: seq<nat>)
      requires forall r :: r in qlauses ==> r < |flagged|
      requires forall r: nat :: r < |flagged| && flagged[r] ==> r in qlauses
      modifies this`flagged
      ensures |flagged| == |old(flagged)| && forall r :: 0 <= r < |flagged| ==> !flagged[r]
    {
      for i := 0 to |qlauses|
        invariant |flagged| == |old(flagged)| && forall r: nat :: r < |flagged| && flagged[r] ==> r in qlauses[i..]
      {
        assert qlauses[i] in qlauses;
        flagged := flagged[qlauses[i] := false];
      }
    }

    // -------------------------------------------------------------- choosing a quotient

    /** Finds the first quotient that saves the most clauses, if there is one that saves any. */
    method BestQuotient() returns (best: int, reduction: int)
      ensures -1 <= best < |quotients|
      ensures best < 0 ==> forall i :: 0 <= i < |quotients| ==> Reduction(quotients, i) <= 0
      ensures best >= 0 ==> reduction == Reduction(quotients, best) > 0
      ensures best >= 0 ==> forall i :: 0 <= i < |quotients| ==> Reduction(quotients, i) <= reduction
      ensures best >= 0 ==> forall i :: 0 <= i < best ==> Reduction(quotients, i) < reduction
    {
      var factors := 1;
      best, reduction := -1, 0;
      for i := 0 to |quotients|
        invariant factors == i + 1 && -1 <= best < i
        invariant best < 0 ==> reduction == 0
        invariant best >= 0 ==> reduction == Reduction(quotients, best) > 0
        invariant forall j :: 0 <= j < i ==> Reduction(quotients, j) <= reduction
        invariant best >= 0 ==> forall j :: 0 <= j < best ==> Reduction(quotients, j) < reduction
      {
        var number := |quotients[i].clauses|;
        var before, after := number * factors, number + factors;
        if before > after {
          var delta := before - after;
          if best < 0 || reduction < delta {
            best, reduction := i, delta;
          }
        }
        factors := factors + 1;
      }
    }

    // -------------------------------------------------------------- applying a quotient

    /** Keeps the matched clauses of the previous quotient, and their matches. */
    method FlushUnmatched(p: nat)
      requires 0 < p < |quotients|
      requires forall i, j :: 0 <= i < j < |quotients[p].matches| ==> quotients[p].matches[i] < quotients[p].matches[j]
      requires |quotients[p].matches| == |quotients[p].clauses|
      requires forall k :: 0 <= k < |quotients[p].matches| ==> quotients[p].matches[k] < |quotients[p - 1].clauses|
      requires p > 1 ==> |quotients[p - 1].matches| == |quotients[p - 1].clauses|
      modifies this`quotients
      ensures quotients == old(quotients)[p - 1 := Compacted(old(quotients)[p - 1], old(quotients)[p].matches, p == 1)]
    {
      hide Moved;
      var qMatches, prev := quotients[p].matches, quotients[p - 1];
      ghost var before := prev;
      var n := |quotients[p].clauses|;
      var prevIsFirst := p - 1 == 0;
      MovedStart(before.clauses, qMatches);
      MovedStart(before.matches, qMatches);
      var i := 0;
      while i != n
        invariant quotients == old(quotients) && 0 <= i <= n && prev.factor == before.factor
        invariant Moved(prev.clauses, before.clauses, qMatches, i)
        invariant if prevIsFirst then prev.matches == before.matches
                                      else Moved(prev.matches, before.matches, qMatches, i)
      {
        var j := qMatches[i];
        MovedStep(prev.clauses, before.clauses, qMatches, i);
        if !prevIsFirst {
          MovedStep(prev.matches, before.matches, qMatches, i);
          prev := prev.(matches := prev.matches[i := prev.matches[j]]);
        }
        prev := prev.(clauses := prev.clauses[i := prev.clauses[j]]);
        i := i + 1;
      }
      MovedEnd(prev.clauses, before.clauses, qMatches);
      if !prevIsFirst {
        MovedEnd(prev.matches, before.matches, qMatches);
        prev := prev.(matches := prev.matches[..n]);
      }
      prev := prev.(clauses := prev.clauses[..n]);
      assert prev == Compacted(before, qMatches, p == 1);
      quotients := quotients[p - 1 := prev];
    }

    method WatchBoth(a: Lit, b: Lit)
      requires DatabaseOK(d) && Represents(d, formula) && a < |d.watches| && b < |d.watches| && Var(a) != Var(b)
      requires {a, b} !in formula
      requires Unflagged()
      modifies this`d, this`formula
      ensures Unflagged() && |d.watches| == |old(d).watches|
      ensures DatabaseOK(d) && Represents(d, formula) && Grown(old(d), d, {{a, b}})
      ensures formula == old(formula) + {{a, b}} && |formula| == |old(formula)| + 1
    {
      BinaryAdded(d, a, b);
      d := Pushed(d, a, Binary(b));
      d := Pushed(d, b, Binary(a));
      GrownFormula(old(d), d, {{a, b}}, formula);
      formula := formula + {{a, b}};
    }

    /** The clause with the fresh literal instead of the factor. */
    method FactoredClause(lits: seq<Lit>, factor: Lit, notFresh: Lit) returns (clause: seq<Lit>)
      requires Proper(|d.watches|, lits) && factor in lits && notFresh < |d.watches|
      requires forall l :: l in lits ==> Var(l) != Var(notFresh)
      ensures LitSet(clause) == LitSet(lits) - {factor} + {notFresh} && Proper(|d.watches|, clause)
      ensures |clause| == |lits|
    {
      hide Proper, LitSet;
      clause := [notFresh];
      ClauseStart(|d.watches|, lits, factor, notFresh);
      for i := 0 to |lits|
        invariant ClauseSoFar(|d.watches|, lits, factor, notFresh, i, clause)
      {
        ClauseStep(|d.watches|, lits, factor, notFresh, i, clause);
        var other := lits[i];
        if other != factor {
          clause := clause + [other];
        }
      }
      ClauseEnd(|d.watches|, lits, factor, notFresh, clause);
    }

    method NewLarge(lits: seq<Lit>)
      requires DatabaseOK(d) && Represents(d, formula) && Proper(|d.watches|, lits) && |lits| >= 3
      requires LitSet(lits) !in formula
      requires Unflagged()
      modifies this`d, this`formula, this`flagged
      ensures Unflagged() && |d.watches| == |old(d).watches|
      ensures DatabaseOK(d) && Represents(d, formula) && Grown(old(d), d, {LitSet(lits)})
      ensures formula == old(formula) + {LitSet(lits)} && |formula| == |old(formula)| + 1
    {
      var ref := |d.arena|;
      d := d.(arena := d.arena + [Clause(lits, false)]);
      flagged := flagged + [false];
      for i := 0 to |lits|
        invariant formula == old(formula) && flagged == old(flagged) + [false]
        invariant |d.watches| == |old(d).watches| && d.arena == old(d).arena + [Clause(lits, false)]
        invariant forall l: nat :: l < |d.watches| ==>
                    d.watches[l] == old(d).watches[l] + if l in lits[..i] then [Large(ref)] else []
      {
        assert lits[..i + 1] == lits[..i] + [lits[i]];
        assert lits[i] !in lits[..i];
        d := Pushed(d, lits[i], Large(ref));
      }
      assert lits[..|lits|] == lits;
      LargeAdded(old(d), lits, d);
      GrownFormula(old(d), d, {LitSet(lits)}, formula);
      formula := formula + {LitSet(lits)};
    }

    /** Adds the quotient with the negated fresh literal. */
    method AddFactoredQuotient(q: Quotient, notFresh: Lit)
      requires DatabaseOK(d) && Represents(d, formula) && QuotientOK(d, q) && notFresh < |d.watches|
      requires Var(notFresh) != Var(q.factor)
      requires forall k, l :: 0 <= k < |q.clauses| && l in Rest(d, q, k) ==> Var(l) != Var(notFresh)
      requires forall k :: 0 <= k < |q.clauses| ==> Rest(d, q, k) + {notFresh} !in formula
      requires Unflagged()
      modifies this`d, this`formula, this`flagged
      ensures Unflagged() && |d.watches| == |old(d).watches|
      ensures DatabaseOK(d) && Represents(d, formula) && Grown(old(d), d, QuotientSet(old(d), q, notFresh, |q.clauses|))
      ensures formula == old(formula) + QuotientSet(old(d), q, notFresh, |q.clauses|)
      ensures |formula| == |old(formula)| + |q.clauses|
    {
      hide DatabaseOK, Represents, Grown, QuotientOK, Rest;
      GrownRefl(d);
      assert QuotientSet(d, q, notFresh, 0) == {};
      for k := 0 to |q.clauses|
        invariant DatabaseOK(d) && Represents(d, formula) && Grown(old(d), d, QuotientSet(old(d), q, notFresh, k))
        invariant formula == old(formula) + QuotientSet(old(d), q, notFresh, k) && |formula| == |old(formula)| + k
        invariant Unflagged() && |d.watches| == |old(d).watches|
      {
        AddQuotientEntry(q, notFresh, k, old(d), old(formula));
      }
    }

    /** Adds the clause at one position. */
    method AddQuotientEntry(q: Quotient, notFresh: Lit, k: nat, ghost d0: Database, ghost formula0: set<set<Lit>>)
      requires DatabaseOK(d0) && DatabaseOK(d) && Represents(d, formula) && QuotientOK(d0, q) && notFresh < |d0.watches|
      requires Var(notFresh) != Var(q.factor) && k < |q.clauses| && Grown(d0, d, QuotientSet(d0, q, notFresh, k))
      requires forall k, l :: 0 <= k < |q.clauses| && l in Rest(d0, q, k) ==> Var(l) != Var(notFresh)
      requires Rest(d0, q, k) + {notFresh} !in formula0 && formula == formula0 + QuotientSet(d0, q, notFresh, k)
      requires Unflagged()
      modifies this`d, this`formula, this`flagged
      ensures Unflagged() && |d.watches| == |old(d).watches|
      ensures DatabaseOK(d) && Represents(d, formula) && Grown(d0, d, QuotientSet(d0, q, notFresh, k + 1))
      ensures formula == formula0 + QuotientSet(d0, q, notFresh, k + 1) && |formula| == |old(formula)| + 1
    {
      hide DatabaseOK, Represents, Grown, QuotientOK, Rest, QuotientSet;
      ghost var added := Rest(d0, q, k) + {notFresh};
      QuotientEntry(d0, d, q, notFresh, k, formula, formula0);
      QuotientSetStep(d0, q, notFresh, k);
      var w := q.clauses[k];
      if w.Binary? {
        WatchBoth(notFresh, w.lit);
      } else {
        var clause := FactoredClause(d.arena[w.ref].lits, q.factor, notFresh);
        NewLarge(clause);
      }
      GrownTrans(d0, old(d), d, QuotientSet(d0, q, notFresh, k), {added});
    }

    method EagerlyRemoveWatch(l: Lit, needle: Watch)
      requires l < |d.watches| && needle in d.watches[l]
      modifies this`d
      ensures d == Dropped(old(d), l, needle)
    {
      var ws := d.watches[l];
      var p := 0;
      while ws[p] != needle
        invariant 0 <= p < |ws| && needle !in ws[..p]
        decreases |ws| - p
      {
        p := p + 1;
      }
      RemoveAt(ws, needle, p);
      d := d.(watches := d.watches[l := ws[..p] + ws[p + 1..]]);
    }

    method DeleteLarge(ref: nat)
      requires DatabaseOK(d) && Represents(d, formula) && ref < |d.arena| && !d.arena[ref].garbage
      requires Unflagged()
      modifies this`d, this`formula
      ensures Unflagged() && |d.watches| == |old(d).watches|
      ensures DatabaseOK(d) && Represents(d, formula) && Shrunk(old(d), d, {LitSet(old(d).arena[ref].lits)})
      ensures formula == old(formula) - {LitSet(old(d).arena[ref].lits)}
    {
      var lits := d.arena[ref].lits;
      assert StoredOK(d, ref);
      for i := 0 to |lits|
        invariant Disconnected(old(d), d, ref, i) && formula == old(formula) && Unflagged()
      {
        assert lits[..i + 1] == lits[..i] + [lits[i]];
        assert lits[i] !in lits[..i] && lits[i] in lits;
        EagerlyRemoveWatch(lits[i], Large(ref));
      }
      LargeDeleted(old(d), d, ref);
      d := d.(arena := d.arena[ref := d.arena[ref].(garbage := true)]);
      ShrunkFormula(old(d), d, {LitSet(lits)}, formula);
      formula := formula - {LitSet(lits)};
    }

    /** Deletes the clauses of a quotient. */
    method DeleteUnfactored(q: Quotient)
      requires DatabaseOK(d) && Represents(d, formula) && QuotientOK(d, q)
      requires Unflagged()
      modifies this`d, this`formula
      ensures Unflagged() && |d.watches| == |old(d).watches|
      ensures DatabaseOK(d) && Represents(d, formula) && Shrunk(old(d), d, ClauseSet(old(d), q, |q.clauses|))
      ensures formula == old(formula) - ClauseSet(old(d), q, |q.clauses|) && |formula| == |old(formula)| - |q.clauses|
    {
      hide DatabaseOK, Represents, Shrunk, QuotientOK;
      ShrunkRefl(d);
      assert ClauseSet(d, q, 0) == {};
      for k := 0 to |q.clauses|
        invariant DatabaseOK(d) && Represents(d, formula) && Shrunk(old(d), d, ClauseSet(old(d), q, k))
        invariant formula == old(formula) - ClauseSet(old(d), q, k) && |formula| == |old(formula)| - k
        invariant Unflagged() && |d.watches| == |old(d).watches|
      {
        DeleteQuotientEntry(q, k, old(d), old(formula));
      }
    }

    method DeleteQuotientEntry(q: Quotient, k: nat, ghost d0: Database, ghost formula0: set<set<Lit>>)
      requires DatabaseOK(d0) && DatabaseOK(d) && Represents(d, formula) && QuotientOK(d0, q)
      requires k < |q.clauses| && Shrunk(d0, d, ClauseSet(d0, q, k)) && formula == formula0 - ClauseSet(d0, q, k)
      requires Unflagged()
      modifies this`d, this`formula
      ensures Unflagged() && |d.watches| == |old(d).watches|
      ensures DatabaseOK(d) && Represents(d, formula) && Shrunk(d0, d, ClauseSet(d0, q, k + 1))
      ensures formula == formula0 - ClauseSet(d0, q, k + 1) && |formula| == |old(formula)| - 1
    {
      hide DatabaseOK, Represents, Shrunk, QuotientOK, ClauseSet;
      ghost var gone := Body(d0, q.factor, q.clauses[k]);
      ClauseEntry(d0, d, q, k, formula);
      ClauseSetStep(d0, q, k);
      var w := q.clauses[k];
      if w.Binary? {
        BinaryDeleted(d, q.factor, w.lit);
        EagerlyRemoveWatch(w.lit, Binary(q.factor));
        EagerlyRemoveWatch(q.factor, w);
        ShrunkFormula(old(d), d, {gone}, formula);
        formula := formula - {gone};
      } else {
        DeleteLarge(w.ref);
      }
      ShrunkTrans(d0, old(d), d, ClauseSet(d0, q, k), {gone});
    }

    /** A new variable with empty lists, if there is one left. */
    method FreshLiteral(available: bool) returns (newLit: int)
      requires DatabaseOK(d) && Represents(d, formula) && |marks| == |d.watches|
      modifies this`d, this`marks
      ensures if available then newLit == |old(d).watches| else newLit == -1 && d == old(d) && marks == old(marks)
      ensures available ==>
                |d.watches| == newLit + 2 && newLit % 2 == 0 && DatabaseOK(d) &&
                    Represents(d, formula) && Grown(old(d), d, {})
      ensures available ==> marks == old(marks) + [Mark(false, false), Mark(false, false)] && d.arena == old(d).arena
    {
      if !available {
        return -1;
      }
      newLit := |d.watches|;
      EnlargedDatabase(d);
      GrownFormula(d, Enlarged(d), {}, formula);
      assert formula + {} == formula;
      d := d.(watches := d.watches + [[], []]);
      marks := marks + [Mark(false, false), Mark(false, false)];
    }

    /** Flushes the quotients before q, backwards. */
    method FlushChain(q: nat)
      requires DatabaseOK(d) && Chain(d, quotients) && q < |quotients|
      modifies this`quotients
      ensures Aligned(d, quotients, q) && SameChain(old(quotients), quotients) && quotients[q] == old(quotients)[q]
    {
      hide Chain, AlignedFrom, MatchesOK;
      ghost var qs := quotients;
      FlushStart(d, quotients, q);
      var p: nat := q;
      while p > 0
        invariant p <= q < |quotients| && SameChain(qs, quotients) && quotients[q] == qs[q]
        invariant Chain(d, quotients[..p + 1]) && AlignedFrom(d, quotients, p, q)
      {
        FlushReady(d, quotients, p);
        FlushedAligned(d, quotients, p, q,
                       quotients[p - 1 := Compacted(quotients[p - 1], quotients[p].matches, p == 1)]);
        FlushUnmatched(p);
        p := p - 1;
      }
      FlushEnd(d, qs, q, quotients);
    }

    /** Adds the clauses of the fresh literal with each factor. */
    method AddDividers(q: nat, newLit: Lit)
      requires DatabaseOK(d) && Represents(d, formula) && q < |quotients| && newLit < |d.watches|
      requires forall i :: 0 <= i <= q ==> quotients[i].factor < |d.watches| && Var(quotients[i].factor) != Var(newLit)
      requires forall i, j :: 0 <= i < j <= q ==> quotients[i].factor != quotients[j].factor
      requires forall c :: c in formula ==> newLit !in c
      requires Unflagged()
      modifies this`d, this`formula
      ensures Unflagged() && |d.watches| == |old(d).watches|
      ensures DatabaseOK(d) && Represents(d, formula) && Grown(old(d), d, DividersFrom(quotients, q, newLit, 0))
      ensures formula == old(formula) + DividersFrom(quotients, q, newLit, 0) && |formula| == |old(formula)| + q + 1
    {
      hide DatabaseOK, Represents, Grown, DividersFrom;
      GrownRefl(d);
      var p: nat := q + 1;
      NoDividers(quotients, q, newLit);
      while p > 0
        invariant p <= q + 1 && DatabaseOK(d) && Represents(d, formula) && Unflagged()
        invariant |d.watches| == |old(d).watches|
        invariant Grown(old(d), d, DividersFrom(quotients, q, newLit, p))
        invariant formula == old(formula) + DividersFrom(quotients, q, newLit, p)
        invariant |formula| == |old(formula)| + (q + 1 - p)
      {
        p := p - 1;
        ghost var d1 := d;
        var factor := quotients[p].factor;
        DividersStep(quotients, q, newLit, p);
        assert newLit in {newLit, factor};
        WatchBoth(newLit, factor);
        GrownSize(d1, d, {{newLit, factor}});
        GrownTrans(old(d), d1, d, DividersFrom(quotients, q, newLit, p + 1), {{newLit, factor}});
      }
    }

    /** Adds the clauses of the fresh literal. */
    method AddFactored(q: nat, newLit: Lit)
      requires DatabaseOK(d) && Represents(d, formula) && q < |quotients| && Aligned(d, quotients, q)
      requires newLit % 2 == 0 && newLit + 1 < |d.watches| && forall i :: 0 <= i <= q ==> quotients[i].factor < newLit
      requires forall c, l :: c in formula && l in c ==> l < newLit
      requires Unflagged()
      modifies this`d, this`formula, this`flagged
      ensures Unflagged() && |d.watches| == |old(d).watches|
      ensures DatabaseOK(d) && Represents(d, formula) && Aligned(d, quotients, q)
      ensures forall k :: 0 <= k < |quotients[q].clauses| ==> Rest(d, quotients[q], k) == Rest(old(d), quotients[q], k)
      ensures formula == old(formula) + DividersFrom(quotients, q, newLit,
                                                     0) + QuotientSet(old(d), quotients[q],
                                                                      Neg(newLit), |quotients[q].clauses|)
      ensures |formula| == |old(formula)| + (q + 1) + |quotients[q].clauses|
    {
      hide DatabaseOK, Represents, Grown, DividersFrom, QuotientSet, Aligned, Rest, QuotientOK;
      AlignedFacts(d, quotients, q);
      RestBelow(d, quotients, q, formula, newLit);
      AddDividers(q, newLit);
      ghost var d2 := d;
      GrownAligned(old(d), d2, quotients, q, DividersFrom(quotients, q, newLit, 0));
      AlignedFacts(d, quotients, q);
      QuotientFresh(d2, quotients, q, newLit, old(formula), formula);
      GrownSize(old(d), d2, DividersFrom(quotients, q, newLit, 0));
      AddFactoredQuotient(quotients[q], Neg(newLit));
      GrownAligned(d2, d, quotients, q, QuotientSet(d2, quotients[q], Neg(newLit), |quotients[q].clauses|));
      SameQuotientSet(old(d), d2, quotients[q], Neg(newLit), |quotients[q].clauses|);
    }

    /** Deletes the clauses of all quotients up to q. */
    method DeleteProducts(q: nat)
      requires DatabaseOK(d) && Represents(d, formula) && q < |quotients| && Aligned(d, quotients, q)
      requires Unflagged()
      modifies this`d, this`formula
      ensures Unflagged() && |d.watches| == |old(d).watches|
      ensures DatabaseOK(d) && Represents(d, formula)
      ensures formula == old(formula) - ProductsFrom(old(d), quotients, q, 0)
      ensures |formula| == |old(formula)| - |quotients[q].clauses| * (q + 1)
    {
      hide DatabaseOK, Represents, Shrunk, Aligned, ClauseSet, ProductsFrom, QuotientOK;
      ShrunkRefl(d);
      AlignedFacts(d, quotients, q);
      var p: nat := q + 1;
      NoProducts(d, quotients, q);
      ghost var n, deleted := |quotients[q].clauses|, 0;
      while p > 0
        invariant p <= q + 1 && DatabaseOK(d) && Represents(d, formula)
        invariant Shrunk(old(d), d, ProductsFrom(old(d), quotients, q, p))
        invariant formula == old(formula) - ProductsFrom(old(d), quotients, q, p)
        invariant Unflagged() && |d.watches| == |old(d).watches|
        invariant |formula| == |old(formula)| - deleted && deleted == n * (q + 1 - p)
      {
        p := p - 1;
        ghost var d1 := d;
        ProductsLeft(old(d), d, quotients, q, p);
        DeleteUnfactored(quotients[p]);
        ShrunkTrans(old(d), d1, d, ProductsFrom(old(d), quotients, q, p + 1), ClauseSet(d1, quotients[p], n));
        Times(n, q + 1 - (p + 1));
        deleted := deleted + n;
      }
    }

    /** Replaces the products of the factors up to q and the rests of quotient q. */
    method ApplyFactoring(q: nat, available: bool) returns (applied: bool)
      requires Valid() && q < |quotients|
      modifies this`d, this`marks, this`quotients, this`formula, this`flagged
      ensures applied == available
      ensures (!applied ==> d == old(d) && formula == old(formula) && quotients == old(quotients) && Valid())
      ensures applied ==> DatabaseOK(d) && Represents(d, formula) && Marked({}) && SameChain(old(quotients), quotients)
      ensures applied ==>
                Factored(old(formula), formula, Factors(old(quotients), q),
                         Rests(old(d), old(quotients)[q]), |old(d).watches|)
      ensures applied ==> |formula| == |old(formula)| - Reduction(old(quotients), q)
      ensures applied ==> forall p :: 0 <= p < |quotients| ==> quotients[p].factor < |d.watches|
    {
      hide Chain, DatabaseOK, Represents, Aligned, Factored, Grown, FactorsMarked,
           DividersFrom, ProductsFrom, QuotientSet,
           Factors, Rests, Rest, NoQuotientMarks;
      FactorsBelow(d, quotients);
      FormulaBelow(d, formula);
      var newLit := FreshLiteral(available);
      if newLit == -1 {
        return false;
      }
      FreshMarks(old(marks), marks, quotients, newLit);
      GrownChain(old(d), d, quotients, {});
      ghost var d1, f0 := d, formula;
      FlushChain(q);
      SameChainMarked(marks, old(quotients), quotients);
      AlignedFacts(d, quotients, q);
      AddFactored(q, newLit);
      ghost var d3 := d;
      AlignedFacts(d, quotients, q);
      DeleteProducts(q);
      FactoredDone(old(d), d1, d3, old(quotients), quotients, q, newLit, f0, formula);
      return true;
    }

    /** Removes the marks of the factors. */
    method ReleaseQuotients()
      requires DatabaseOK(d) && Represents(d, formula) && Marked({})
      requires forall p :: 0 <= p < |quotients| ==> quotients[p].factor < |d.watches|
      modifies this`marks, this`quotients
      ensures Valid() && quotients == []
    {
      hide DatabaseOK, Represents;
      for p := 0 to |quotients|
        invariant quotients == old(quotients)
        invariant |marks| == |d.watches| && NoQuotientMarks(marks) && MarkedFrom(marks, quotients, p)
      {
        marks := marks[quotients[p].factor := Mark(false, false)];
      }
      quotients := [];
    }

    /** One round: a first factor, further factors as chosen, and the best quotient if it saves enough. */
    method FactorLiteral(first: Lit, nexts: seq<Lit>, bound: nat, available: bool)
      returns (applied: bool, ghost rests: seq<set<Lit>>, ghost best: int)
      requires Valid() && quotients == [] && first < |d.watches|
      modifies this
      ensures Valid() && quotients == [] && (!applied ==> d == old(d) && formula == old(formula))
      ensures var factors := Tried(|old(d).watches|, [first], nexts);
              && (applied <==> available && Worthwhile(old(formula), factors, bound))
              && (applied ==> best >= 0 && Improved(old(formula), formula, factors, rests, best, |old(d).watches|))
      ensures applied ==> |formula| + bound < |old(formula)|
      ensures applied ==> forall m: Model ::
                SatFormula(m, old(formula)) <==> exists b :: SatFormula(Assigned(m, Var(|old(d).watches|), b), formula)
    {
      hide Chain, DatabaseOK, Represents, FactorsMarked, SatFormula, Factored, Complete, Improved, Worthwhile, Shared,
           Saved, Tried;
      FirstFactor(first);
      FirstComplete(d, formula, first);
      ghost var n, factors := |d.watches|, Tried(|d.watches|, [first], nexts);
      applied, rests, best := false, [], -1;
      ReductionSaved(d, formula, quotients, 0);
      assert Factors(quotients, 0) == [first] == factors[..1];
      if |quotients[0].clauses| > 1 {
        var i := 0;
        while i < |nexts| && nexts[i] < |d.watches| && !marks[nexts[i]].factor
          invariant Valid() && quotients != [] && d == old(d) && formula == old(formula) && 0 <= i <= |nexts|
          invariant Complete(d, formula, quotients)
          invariant Tried(n, Factors(quotients, |quotients| - 1), nexts[i..]) == factors
        {
          TriedNext(n, marks, quotients, nexts[i..]);
          ghost var qs := quotients;
          FactorizeNext(nexts[i]);
          ChainLast(d, quotients);
          NextComplete(d, formula, qs, quotients[|qs|]);
          assert quotients == qs + [quotients[|qs|]] && nexts[i..][1..] == nexts[i + 1..];
          i := i + 1;
        }
        TriedEnd(n, marks, quotients, nexts[i..]);
        var q, reduction := BestQuotient();
        AllSaved(d, formula, quotients);
        if q >= 0 && reduction > bound {
          rests, best := Rests(d, quotients[q]), q;
          FormulaBelow(d, formula);
          ReductionSaved(d, formula, quotients, q);
          RestsDistinct(d, quotients, q);
          assert Factors(quotients, q) == factors[..q + 1];
          applied := ApplyFactoring(q, available);
          WorthwhileAt(old(formula), factors, bound, q);
          if applied {
            ImprovedBy(old(formula), formula, factors, rests, q, n);
            forall m: Model
              ensures SatFormula(m, old(formula)) <==>
                        exists b :: SatFormula(Assigned(m, Var(|old(d).watches|), b), formula)
            {
              FactoringKeepsModels(old(formula), formula, factors[..q + 1], rests, |old(d).watches|, m);
            }
          }
        } else {
          NotWorthwhile(old(formula), factors, bound);
        }
      } else {
        FewRests(old(formula), factors, bound);
      }
      if !applied {
        FactorsBelow(d, quotients);
      }
      ReleaseQuotients();
    }
  }

  /** The first i literals but for the factor, after the fresh one. */
  ghost predicate ClauseSoFar(n: nat, lits: seq<Lit>, factor: Lit, x: Lit, i: nat, clause: seq<Lit>) {
    i <= |lits| && LitSet(clause) == LitSet(lits[..i]) - {factor} + {x} && Proper(n, clause)
  }

  lemma ClauseStart(n: nat, lits: seq<Lit>, factor: Lit, x: Lit)
    requires x < n
    ensures ClauseSoFar(n, lits, factor, x, 0, [x])
  {
  }

  lemma ClauseStep(n: nat, lits: seq<Lit>, factor: Lit, x: Lit, i: nat, clause: seq<Lit>)
    requires Proper(n, lits) && (forall l :: l in lits ==> Var(l) != Var(x)) && i < |lits|
    requires ClauseSoFar(n, lits, factor, x, i, clause)
    ensures ClauseSoFar(n, lits, factor, x, i + 1, if lits[i] == factor then clause else clause + [lits[i]])
  {
    var other := lits[i];
    assert lits[..i + 1] == lits[..i] + [other];
    assert LitSet(lits[..i + 1]) == LitSet(lits[..i]) + {other};
    forall k | 0 <= k < |clause| ensures clause[k] == x || clause[k] in lits[..i] {
      assert clause[k] in LitSet(clause);
    }
    assert LitSet(clause + [other]) == LitSet(clause) + {other};
  }

  lemma ClauseEnd(n: nat, lits: seq<Lit>, factor: Lit, x: Lit, clause: seq<Lit>)
    requires Proper(n, lits) && factor in lits && x !in lits && ClauseSoFar(n, lits, factor, x, |lits|, clause)
    ensures LitSet(clause) == LitSet(lits) - {factor} + {x} && Proper(n, clause) && |clause| == |lits|
  {
    assert lits[..|lits|] == lits;
    LitSetSize(n, lits);
    LitSetSize(n, clause);
    assert LitSet(lits) == LitSet(lits) - {factor} + {factor};
  }

  // ------------------------------------------------------------------ sets of clauses

  /** The clauses of the fresh literal and the factors from p on. */
  function DividersFrom(qs: seq<Quotient>, q: nat, x: Lit, p: nat): set<set<Lit>>
    requires q < |qs|
  {
    set i {:trigger qs[i]} | p <= i <= q :: {x, qs[i].factor}
  }

  lemma DividersStep(qs: seq<Quotient>, q: nat, x: Lit, p: nat)
    requires p <= q < |qs| && x != qs[p].factor && forall i, j :: 0 <= i < j <= q ==> qs[i].factor != qs[j].factor
    ensures DividersFrom(qs, q, x, p) == DividersFrom(qs, q, x, p + 1) + {{x, qs[p].factor}}
    ensures {x, qs[p].factor} !in DividersFrom(qs, q, x, p + 1)
  {
    forall i | p + 1 <= i <= q ensures {x, qs[i].factor} != {x, qs[p].factor} {
      assert qs[p].factor in {x, qs[p].factor};
    }
  }

  /** The clauses of the quotients from p to q. */
  function ProductsFrom(d: Database, qs: seq<Quotient>, q: nat, p: nat): set<set<Lit>>
    requires q < |qs| && forall i :: p <= i <= q ==> |qs[i].clauses| == |qs[q].clauses|
  {
    set i, k | p <= i <= q && 0 <= k < |qs[q].clauses| :: Body(d, qs[i].factor, qs[i].clauses[k])
  }

  function Factors(qs: seq<Quotient>, q: nat): seq<Lit>
    requires q < |qs|
  {
    seq(q + 1, i requires 0 <= i <= q => qs[i].factor)
  }

  function Rests(d: Database, q: Quotient): seq<set<Lit>> {
    seq(|q.clauses|, k requires 0 <= k < |q.clauses| => Rest(d, q, k))
  }

  /** The first n clauses of a quotient. */
  function ClauseSet(d: Database, q: Quotient, n: nat): set<set<Lit>>
    requires n <= |q.clauses|
  {
    set k | 0 <= k < n :: Body(d, q.factor, q.clauses[k])
  }

  /** The first n rests with a literal added. */
  function QuotientSet(d: Database, q: Quotient, x: Lit, n: nat): set<set<Lit>>
    requires n <= |q.clauses|
  {
    set k | 0 <= k < n :: Rest(d, q, k) + {x}
  }

  lemma ClauseSetStep(d: Database, q: Quotient, n: nat)
    requires n < |q.clauses|
    ensures ClauseSet(d, q, n + 1) == ClauseSet(d, q, n) + {Body(d, q.factor, q.clauses[n])}
  {
  }

  lemma QuotientSetStep(d: Database, q: Quotient, x: Lit, n: nat)
    requires n < |q.clauses|
    ensures QuotientSet(d, q, x, n + 1) == QuotientSet(d, q, x, n) + {Rest(d, q, n) + {x}}
  {
  }

  lemma GrownRefl(d: Database)
    ensures Grown(d, d, {})
  {
    assert d.arena[..|d.arena|] == d.arena;
  }

  lemma ShrunkRefl(d: Database)
    ensures Shrunk(d, d, {})
  {
  }

  /** The next clause to be deleted is still there. */
  lemma ClauseEntry(d: Database, d': Database, q: Quotient, k: nat, formula: set<set<Lit>>)
    requires DatabaseOK(d) && DatabaseOK(d') && QuotientOK(d, q) && k < |q.clauses| && Shrunk(d, d', ClauseSet(d, q, k))
    requires Represents(d', formula)
    ensures q.factor < |d'.watches| && q.clauses[k] in d'.watches[q.factor]
    ensures Body(d', q.factor, q.clauses[k]) == Body(d, q.factor, q.clauses[k])
    ensures Body(d, q.factor, q.clauses[k]) in formula
    ensures q.clauses[k].Large? ==> q.clauses[k].ref < |d'.arena| && !d'.arena[q.clauses[k].ref].garbage
  {
    var w := q.clauses[k];
    forall j | 0 <= j < k ensures Body(d, q.factor, q.clauses[j]) != Body(d, q.factor, w) {
      SameBody(d, q.factor, q.clauses[j], w);
    }
    ShrunkBody(d, d', ClauseSet(d, q, k));
    assert EntryOK(d', q.factor, w);
    assert InFormula(d', Body(d', q.factor, w));
  }

  /** The next rest is as before, and its new clause is not there yet. */
  lemma QuotientEntry(d: Database, d': Database, q: Quotient, x: Lit, k: nat,
                      formula: set<set<Lit>>, formula0: set<set<Lit>>)
    requires DatabaseOK(d) && DatabaseOK(d') && QuotientOK(d, q) && k < |q.clauses|
    requires Grown(d, d', QuotientSet(d, q, x, k))
    requires forall k, l :: 0 <= k < |q.clauses| && l in Rest(d, q, k) ==> Var(l) != Var(x)
    requires formula == formula0 + QuotientSet(d, q, x, k) && Rest(d, q, k) + {x} !in formula0
    requires Var(x) != Var(q.factor)
    ensures Rest(d, q, k) + {x} !in formula && q.factor < |d'.watches| && |d.watches| <= |d'.watches|
    ensures q.clauses[k].Binary? ==>
              var b := q.clauses[k].lit; b < |d'.watches| && {x, b} == Rest(d, q, k) + {x} && Var(b) != Var(x)
    ensures q.clauses[k].Large? ==>
              var r := q.clauses[k].ref;
              && r < |d'.arena| && Proper(|d'.watches|, d'.arena[r].lits) && |d'.arena[r].lits| >= 3
              && q.factor in d'.arena[r].lits && LitSet(d'.arena[r].lits) - {q.factor} + {x} == Rest(d, q, k) + {x}
              && forall l :: l in d'.arena[r].lits ==> Var(l) != Var(x)
  {
    var w := q.clauses[k];
    forall j | 0 <= j < k ensures Rest(d, q, j) + {x} != Rest(d, q, k) + {x} {
      DifferentRests(d, q, j, k);
      assert x !in Rest(d, q, j) && x !in Rest(d, q, k);
      assert Rest(d, q, j) == Rest(d, q, j) + {x} - {x} && Rest(d, q, k) == Rest(d, q, k) + {x} - {x};
    }
    assert EntryOK(d, q.factor, w) && w in d'.watches[q.factor] && EntryOK(d', q.factor, w);
    BodySize(d, q.factor, w);
    match w {
      case Binary(b) => {
        assert Rest(d, q, k) == {b};
      }
      case Large(r) => {
        assert StoredOK(d', r) && Body(d', q.factor, w) == Body(d, q.factor, w);
        forall l | l in d'.arena[r].lits ensures Var(l) != Var(x) {
          assert l in Body(d, q.factor, w);
          assert l != q.factor ==> l in Rest(d, q, k);
        }
      }
    }
  }

  lemma ClauseOfLast(d: Database, qs: seq<Quotient>, i: nat)
    requires DatabaseOK(d) && Chain(d, qs) && qs != [] && i < |qs[|qs| - 1].clauses| && qs[|qs| - 1].clauses[i].Large?
    ensures QuotientOK(d, qs[|qs| - 1])
    ensures var ref := qs[|qs| - 1].clauses[i].ref;
            && ref < |d.arena| && !d.arena[ref].garbage && Proper(|d.watches|, d.arena[ref].lits) &&
               |d.arena[ref].lits| >= 3
            && qs[|qs| - 1].factor in d.arena[ref].lits
  {
    var last := qs[|qs| - 1];
    assert EntryOK(d, last.factor, last.clauses[i]) && StoredOK(d, last.clauses[i].ref);
  }

  lemma LastOK(d: Database, qs: seq<Quotient>)
    requires Chain(d, qs) && qs != []
    ensures QuotientOK(d, qs[|qs| - 1])
  {
  }

  lemma SameFactorsMarked(marks: seq<Mark>, marks': seq<Mark>, qs: seq<Quotient>, extra: set<Lit>)
    requires FactorsMarked(marks, qs, extra) && SameFactors(marks, marks')
    ensures FactorsMarked(marks', qs, extra)
  {
  }

  lemma FactorIsMarked(marks: seq<Mark>, qs: seq<Quotient>, next: Lit)
    requires FactorsMarked(marks, qs, {next}) && qs != []
    ensures qs[|qs| - 1].factor < |marks| ==> IsFactor(marks, qs[|qs| - 1].factor)
  {
  }

  lemma NewFactor(marks: seq<Mark>, qs: seq<Quotient>, next: Lit)
    requires FactorsMarked(marks, qs, {}) && next < |marks| && !marks[next].factor
    ensures FactorsMarked(marks[next := marks[next].(factor := true)], qs, {next})
    ensures forall p :: 0 <= p < |qs| ==> qs[p].factor != next
  {
  }

  lemma NextStart(d: Database, last: Quotient, next: Lit)
    requires next < |d.watches|
    ensures NextOK(d, last, next, [], [], 0)
  {
  }

  lemma NextDone(d: Database, marks: seq<Mark>, qs: seq<Quotient>, next: Lit, clauses: seq<Watch>, matches: seq<nat>)
    requires DatabaseOK(d) && Chain(d, qs) && qs != [] && forall p :: 0 <= p < |qs| ==> qs[p].factor != next
    requires FactorsMarked(marks, qs, {next})
    requires var last := qs[|qs| - 1]; NextOK(d, last, next, clauses, matches, |last.clauses|)
    ensures var q := Quotient(next, clauses, matches); Chain(d, qs + [q]) && FactorsMarked(marks, qs + [q], {})
    ensures var last := qs[|qs| - 1];
            forall i: nat :: i < |last.clauses| ==> (i in matches <==> Matchable(d, last, i, next))
  {
    NextChain(d, qs, next, clauses, matches);
    var qs' := qs + [Quotient(next, clauses, matches)];
    assert qs'[|qs|].factor == next;
    forall l: nat | l < |marks| ensures marks[l].factor <==> exists p :: 0 <= p < |qs'| && qs'[p].factor == l {
      if marks[l].factor && l != next {
        var p :| 0 <= p < |qs| && qs[p].factor == l;
        assert qs'[p].factor == l;
      }
    }
  }

  function Enlarged(d: Database): Database {
    d.(watches := d.watches + [[], []])
  }

  lemma EnlargedDatabase(d: Database)
    requires DatabaseOK(d)
    ensures DatabaseOK(Enlarged(d)) && Grown(d, Enlarged(d), {})
  {
    var d' := Enlarged(d);
    assert d'.arena[..|d.arena|] == d.arena;
    forall a: nat, w | a < |d'.watches| && w in d'.watches[a] ensures EntryOK(d', a, w) {
      assert EntryOK(d, a, w);
    }
    forall r: nat | r < |d'.arena| ensures StoredOK(d', r) {
      assert StoredOK(d, r);
    }
  }

  // ------------------------------------------------------------------ flushing the chain

  lemma FlushStart(d: Database, qs: seq<Quotient>, q: nat)
    requires Chain(d, qs) && q < |qs|
    ensures Chain(d, qs[..q + 1]) && AlignedFrom(d, qs, q, q)
  {
    var c := qs[..q + 1];
    forall p | 0 < p < |c| ensures MatchesOK(d, c[p - 1], c[p]) {
      assert MatchesOK(d, qs[p - 1], qs[p]);
    }
  }

  lemma FlushReady(d: Database, qs: seq<Quotient>, p: nat)
    requires 0 < p < |qs| && Chain(d, qs[..p + 1])
    ensures |qs[p].matches| == |qs[p].clauses| && (p > 1 ==> |qs[p - 1].matches| == |qs[p - 1].clauses|)
    ensures forall i, j :: 0 <= i < j < |qs[p].matches| ==> qs[p].matches[i] < qs[p].matches[j]
    ensures forall k :: 0 <= k < |qs[p].matches| ==>
              qs[p].matches[k] < |qs[p - 1].clauses| && (p == 1 || qs[p].matches[k] < |qs[p - 1].matches|)
  {
    var c := qs[..p + 1];
    assert MatchesOK(d, c[p - 1], c[p]);
    if p > 1 {
      assert MatchesOK(d, c[p - 2], c[p - 1]);
    }
  }

  lemma FlushEnd(d: Database, qs: seq<Quotient>, q: nat, qs': seq<Quotient>)
    requires Chain(d, qs) && q < |qs| && SameChain(qs, qs') && qs'[q] == qs[q] && AlignedFrom(d, qs', 0, q)
    ensures Aligned(d, qs', q)
  {
    forall i, k: nat | 0 <= i <= q && k < |qs'[q].clauses| ensures qs'[i].factor !in Rest(d, qs'[q], k) {
      NoFactors(d, qs, q, k);
    }
  }

  // ------------------------------------------------------------------ the applied factoring

  lemma FactorsBelow(d: Database, qs: seq<Quotient>)
    requires Chain(d, qs)
    ensures forall p :: 0 <= p < |qs| ==> qs[p].factor < |d.watches|
  {
    forall p | 0 <= p < |qs| ensures qs[p].factor < |d.watches| {
      assert QuotientOK(d, qs[p]);
    }
  }

  lemma FormulaBelow(d: Database, formula: set<set<Lit>>)
    requires DatabaseOK(d) && Represents(d, formula)
    ensures |d.watches| % 2 == 0 && forall c, l :: c in formula && l in c ==> l < |d.watches|
  {
    forall c, l | c in formula && l in c ensures l < |d.watches| {
      var f: nat, w :| f < |d.watches| && w in d.watches[f] && Body(d, f, w) == c;
      BodySize(d, f, w);
    }
  }

  lemma GrownSize(d: Database, d': Database, cs: set<set<Lit>>)
    requires Grown(d, d', cs)
    ensures |d'.watches| >= |d.watches|
  {
  }

  lemma GrownQuotient(d: Database, d': Database, q: Quotient, cs: set<set<Lit>>)
    requires QuotientOK(d, q) && Grown(d, d', cs)
    ensures QuotientOK(d', q) && forall k :: 0 <= k < |q.clauses| ==>
              Body(d', q.factor, q.clauses[k]) == Body(d, q.factor, q.clauses[k]) && Rest(d', q, k) == Rest(d, q, k)
  {
  }

  lemma GrownChain(d: Database, d': Database, qs: seq<Quotient>, cs: set<set<Lit>>)
    requires Chain(d, qs) && Grown(d, d', cs)
    ensures Chain(d', qs)
    ensures forall i, k :: 0 <= i < |qs| && 0 <= k < |qs[i].clauses| ==> Rest(d', qs[i], k) == Rest(d, qs[i], k)
  {
    hide Grown, QuotientOK, Rest;
    forall i | 0 <= i < |qs|
      ensures QuotientOK(d', qs[i]) && forall k :: 0 <= k < |qs[i].clauses| ==> Rest(d', qs[i], k) == Rest(d, qs[i], k)
    {
      GrownQuotient(d, d', qs[i], cs);
    }
    forall p | 0 < p < |qs| ensures MatchesOK(d', qs[p - 1], qs[p]) {
      assert MatchesOK(d, qs[p - 1], qs[p]);
    }
  }

  lemma GrownAligned(d: Database, d': Database, qs: seq<Quotient>, q: nat, cs: set<set<Lit>>)
    requires q < |qs| && Aligned(d, qs, q) && Grown(d, d', cs)
    ensures Aligned(d', qs, q)
    ensures forall k :: 0 <= k < |qs[q].clauses| ==> Rest(d', qs[q], k) == Rest(d, qs[q], k)
  {
    hide Grown, QuotientOK, Rest;
    forall i | 0 <= i <= q
      ensures QuotientOK(d', qs[i]) && forall k :: 0 <= k < |qs[i].clauses| ==> Rest(d', qs[i], k) == Rest(d, qs[i], k)
    {
      GrownQuotient(d, d', qs[i], cs);
    }
  }

  lemma AlignedFacts(d: Database, qs: seq<Quotient>, q: nat)
    requires q < |qs| && Aligned(d, qs, q)
    ensures QuotientOK(d, qs[q]) && forall i, j :: 0 <= i < j <= q ==> qs[i].factor != qs[j].factor
    ensures forall i :: 0 <= i <= q ==> qs[i].factor < |d.watches| && |qs[i].clauses| == |qs[q].clauses|
  {
    forall i | 0 <= i <= q ensures qs[i].factor < |d.watches| && |qs[i].clauses| == |qs[q].clauses| {
      assert QuotientOK(d, qs[i]);
    }
  }

  /** A clause of an aligned quotient is the rest with the factor. */
  lemma AlignedBody(d: Database, qs: seq<Quotient>, q: nat, i: nat, k: nat)
    requires DatabaseOK(d) && i <= q < |qs| && Aligned(d, qs, q) && k < |qs[q].clauses|
    ensures k < |qs[i].clauses| && Body(d, qs[i].factor, qs[i].clauses[k]) == Rest(d, qs[q], k) + {qs[i].factor}
    ensures InFormula(d, Body(d, qs[i].factor, qs[i].clauses[k]))
    ensures forall j :: 0 <= j <= q && j != i ==> qs[j].factor !in Body(d, qs[i].factor, qs[i].clauses[k])
  {
    assert QuotientOK(d, qs[i]) && Rest(d, qs[i], k) == Rest(d, qs[q], k);
    BodySize(d, qs[i].factor, qs[i].clauses[k]);
    assert Body(d, qs[i].factor, qs[i].clauses[k]) == Rest(d, qs[i], k) + {qs[i].factor};
  }

  /** The clauses of the next quotient to be deleted are still there. */
  lemma ProductsLeft(d: Database, d': Database, qs: seq<Quotient>, q: nat, p: nat)
    requires DatabaseOK(d) && p <= q < |qs| && Aligned(d, qs, q)
    requires forall i :: 0 <= i <= q ==> |qs[i].clauses| == |qs[q].clauses|
    requires Shrunk(d, d', ProductsFrom(d, qs, q, p + 1))
    ensures QuotientOK(d', qs[p])
    ensures ProductsFrom(d, qs, q, p) == ProductsFrom(d, qs, q, p + 1) + ClauseSet(d', qs[p], |qs[q].clauses|)
  {
    hide Aligned, DatabaseOK;
    var n, f := |qs[q].clauses|, qs[p].factor;
    AlignedQuotient(d, qs, q, p);
    ShrunkBody(d, d', ProductsFrom(d, qs, q, p + 1));
    forall k | 0 <= k < n ensures qs[p].clauses[k] in d'.watches[f] {
      ProductsApart(d, qs, q, p, k);
    }
    assert ClauseSet(d', qs[p], n) == ClauseSet(d, qs[p], n);
  }

  lemma AlignedQuotient(d: Database, qs: seq<Quotient>, q: nat, p: nat)
    requires p <= q < |qs| && Aligned(d, qs, q)
    ensures QuotientOK(d, qs[p]) && |qs[p].clauses| == |qs[q].clauses|
  {
  }

  lemma ProductsApart(d: Database, qs: seq<Quotient>, q: nat, p: nat, k: nat)
    requires DatabaseOK(d) && p <= q < |qs| && Aligned(d, qs, q)
    requires forall i :: 0 <= i <= q ==> |qs[i].clauses| == |qs[q].clauses|
    requires k < |qs[q].clauses|
    ensures Body(d, qs[p].factor, qs[p].clauses[k]) !in ProductsFrom(d, qs, q, p + 1)
  {
    hide Aligned, DatabaseOK;
    AlignedBody(d, qs, q, p, k);
    forall i, j | p + 1 <= i <= q && 0 <= j < |qs[q].clauses|
      ensures Body(d, qs[i].factor, qs[i].clauses[j]) != Body(d, qs[p].factor, qs[p].clauses[k])
    {
      AlignedBody(d, qs, q, i, j);
      assert qs[i].factor in Body(d, qs[i].factor, qs[i].clauses[j]);
    }
  }

  /** The clauses with the negated fresh literal are new. */
  lemma QuotientFresh(d: Database, qs: seq<Quotient>, q: nat, x: Lit, f0: set<set<Lit>>, formula: set<set<Lit>>)
    requires DatabaseOK(d) && q < |qs| && Aligned(d, qs, q) && x % 2 == 0 && formula == f0 + DividersFrom(qs, q, x, 0)
    requires forall i :: 0 <= i <= q ==> qs[i].factor < x
    requires forall c, l :: c in f0 && l in c ==> l < x
    requires forall k, l :: 0 <= k < |qs[q].clauses| && l in Rest(d, qs[q], k) ==> l < x
    ensures Var(Neg(x)) != Var(qs[q].factor)
    ensures forall k, l :: 0 <= k < |qs[q].clauses| && l in Rest(d, qs[q], k) ==> Var(l) != Var(Neg(x))
    ensures forall k :: 0 <= k < |qs[q].clauses| ==> Rest(d, qs[q], k) + {Neg(x)} !in formula
  {
    forall k | 0 <= k < |qs[q].clauses| ensures Rest(d, qs[q], k) + {Neg(x)} !in formula {
      assert Neg(x) in Rest(d, qs[q], k) + {Neg(x)};
    }
  }

  lemma Times(n: nat, k: nat)
    ensures n * (k + 1) == n * k + n
  {
  }

  lemma NoDividers(qs: seq<Quotient>, q: nat, x: Lit)
    requires q < |qs|
    ensures DividersFrom(qs, q, x, q + 1) == {}
  {
  }

  lemma NoProducts(d: Database, qs: seq<Quotient>, q: nat)
    requires q < |qs|
    ensures ProductsFrom(d, qs, q, q + 1) == {}
  {
  }

  lemma SameQuotientSet(d: Database, d': Database, q: Quotient, x: Lit, n: nat)
    requires n <= |q.clauses| && forall k :: 0 <= k < n ==> Rest(d', q, k) == Rest(d, q, k)
    ensures QuotientSet(d', q, x, n) == QuotientSet(d, q, x, n)
  {
  }

  lemma RestBelow(d: Database, qs: seq<Quotient>, q: nat, formula: set<set<Lit>>, x: Lit)
    requires DatabaseOK(d) && Represents(d, formula) && q < |qs| && Aligned(d, qs, q)
    requires forall c, l :: c in formula && l in c ==> l < x
    ensures forall k, l :: 0 <= k < |qs[q].clauses| && l in Rest(d, qs[q], k) ==> l < x
  {
    hide Aligned, DatabaseOK;
    forall k, l | 0 <= k < |qs[q].clauses| && l in Rest(d, qs[q], k) ensures l < x {
      AlignedBody(d, qs, q, q, k);
    }
  }

  lemma FreshMarks(marks: seq<Mark>, marks': seq<Mark>, qs: seq<Quotient>, n: nat)
    requires FactorsMarked(marks, qs, {}) && NoQuotientMarks(marks)
    requires marks' == marks + [Mark(false, false), Mark(false, false)]
    requires |marks| == n && forall p :: 0 <= p < |qs| ==> qs[p].factor < n
    ensures FactorsMarked(marks', qs, {}) && NoQuotientMarks(marks')
  {
  }

  lemma SameChainMarked(marks: seq<Mark>, qs: seq<Quotient>, qs': seq<Quotient>)
    requires FactorsMarked(marks, qs, {}) && SameChain(qs, qs')
    ensures FactorsMarked(marks, qs', {})
  {
    forall l: nat | l < |marks| ensures marks[l].factor <==> exists p :: 0 <= p < |qs'| && qs'[p].factor == l {
      if marks[l].factor {
        var p :| 0 <= p < |qs| && qs[p].factor == l;
        assert qs'[p].factor == l;
      }
      if p :| 0 <= p < |qs'| && qs'[p].factor == l {
        assert qs[p].factor == l;
      }
    }
  }

  ghost predicate MarkedFrom(marks: seq<Mark>, qs: seq<Quotient>, p: nat) {
    forall l: nat :: l < |marks| && marks[l].factor ==> exists i :: p <= i < |qs| && qs[i].factor == l
  }

  lemma FactoredDone(d0: Database, d1: Database, d3: Database, qs0: seq<Quotient>, qs: seq<Quotient>, q: nat, x: Lit,
                     f0: set<set<Lit>>, f: set<set<Lit>>)
    requires q < |qs| && DatabaseOK(d1) && DatabaseOK(d3) && Aligned(d1, qs, q) && Aligned(d3, qs, q)
    requires Represents(d1, f0)
    requires forall i :: 0 <= i <= q ==> |qs[i].clauses| == |qs[q].clauses|
    requires forall k :: 0 <= k < |qs[q].clauses| ==> Rest(d3, qs[q], k) == Rest(d1, qs[q], k)
    requires SameChain(qs0, qs) && qs[q] == qs0[q]
    requires forall k :: 0 <= k < |qs[q].clauses| ==> Rest(d1, qs[q], k) == Rest(d0, qs[q], k)
    requires f ==
               f0 + DividersFrom(qs, q, x,
                                 0) + QuotientSet(d1, qs[q], Neg(x), |qs[q].clauses|) - ProductsFrom(d3, qs, q, 0)
    requires x % 2 == 0 && forall c, l :: c in f0 && l in c ==> l < x
    ensures Factored(f0, f, Factors(qs0, q), Rests(d0, qs0[q]), x)
  {
    hide Aligned, DatabaseOK, Represents, Rest, DividersFrom, QuotientSet, ProductsFrom,
         Factored, IsProduct, IsDivider, IsQuotient;
    FactoredMembers(d1, d3, qs, q, x, f0);
    SameFactorsAndRests(d0, d1, qs0, qs, q);
    FactoredSets(f0, f, Factors(qs, q), Rests(d1, qs[q]), x, DividersFrom(qs, q, x, 0),
                 QuotientSet(d1, qs[q], Neg(x), |qs[q].clauses|), ProductsFrom(d3, qs, q, 0));
  }

  lemma SameFactorsAndRests(d: Database, d': Database, qs: seq<Quotient>, qs': seq<Quotient>, q: nat)
    requires q < |qs| && SameChain(qs, qs') && qs'[q] == qs[q]
    requires forall k :: 0 <= k < |qs[q].clauses| ==> Rest(d', qs[q], k) == Rest(d, qs[q], k)
    ensures Factors(qs', q) == Factors(qs, q) && Rests(d', qs'[q]) == Rests(d, qs[q])
  {
  }

  /** What the sets of clauses added and deleted are, in terms of factors and rests. */
  lemma FactoredMembers(d1: Database, d3: Database, qs: seq<Quotient>, q: nat, x: Lit, f0: set<set<Lit>>)
    requires q < |qs| && DatabaseOK(d1) && DatabaseOK(d3) && Aligned(d1, qs, q) && Aligned(d3, qs, q)
    requires Represents(d1, f0)
    requires forall i :: 0 <= i <= q ==> |qs[i].clauses| == |qs[q].clauses|
    requires forall k :: 0 <= k < |qs[q].clauses| ==> Rest(d3, qs[q], k) == Rest(d1, qs[q], k)
    ensures var factors, rests := Factors(qs, q), Rests(d1, qs[q]);
            && (forall c :: c in DividersFrom(qs, q, x, 0) <==> IsDivider(factors, x, c))
            && (forall c :: c in QuotientSet(d1, qs[q], Neg(x), |qs[q].clauses|) <==> IsQuotient(rests, Neg(Neg(x)), c))
            && (forall c :: c in ProductsFrom(d3, qs, q, 0) <==> IsProduct(factors, rests, c))
    ensures ProductsFrom(d3, qs, q, 0) <= f0
  {
    hide Aligned, DatabaseOK, Rest, IsProduct, IsQuotient, IsDivider;
    DividerMembers(qs, q, x);
    QuotientMembers(d1, qs[q], Neg(x));
    ProductMembers(d1, d3, qs, q, f0);
  }

  lemma DividerMembers(qs: seq<Quotient>, q: nat, x: Lit)
    requires q < |qs|
    ensures forall c :: c in DividersFrom(qs, q, x, 0) <==> IsDivider(Factors(qs, q), x, c)
  {
    var factors := Factors(qs, q);
    forall c ensures c in DividersFrom(qs, q, x, 0) <==> IsDivider(factors, x, c) {
      if IsDivider(factors, x, c) {
        var p :| 0 <= p < |factors| && c == {x, factors[p]};
        assert factors[p] == qs[p].factor;
      }
      if c in DividersFrom(qs, q, x, 0) {
        var i :| 0 <= i <= q && c == {x, qs[i].factor};
        assert factors[i] == qs[i].factor;
      }
    }
  }

  lemma QuotientMembers(d1: Database, q: Quotient, x: Lit)
    ensures forall c :: c in QuotientSet(d1, q, x, |q.clauses|) <==> IsQuotient(Rests(d1, q), Neg(x), c)
  {
    hide Rest;
    SameVar(x, x);
    var rests := Rests(d1, q);
    forall c ensures c in QuotientSet(d1, q, x, |q.clauses|) <==> IsQuotient(rests, Neg(x), c) {
      if IsQuotient(rests, Neg(x), c) {
        var k :| 0 <= k < |rests| && c == rests[k] + {Neg(Neg(x))};
        assert c == Rest(d1, q, k) + {x};
      }
      if c in QuotientSet(d1, q, x, |q.clauses|) {
        var k :| 0 <= k < |q.clauses| && c == Rest(d1, q, k) + {x};
        assert c == rests[k] + {Neg(Neg(x))};
      }
    }
  }

  lemma ProductMembers(d1: Database, d3: Database, qs: seq<Quotient>, q: nat, f0: set<set<Lit>>)
    requires q < |qs| && DatabaseOK(d1) && DatabaseOK(d3) && Aligned(d1, qs, q) && Aligned(d3, qs, q)
    requires Represents(d1, f0)
    requires forall i :: 0 <= i <= q ==> |qs[i].clauses| == |qs[q].clauses|
    requires forall k :: 0 <= k < |qs[q].clauses| ==> Rest(d3, qs[q], k) == Rest(d1, qs[q], k)
    ensures forall c :: c in ProductsFrom(d3, qs, q, 0) <==> IsProduct(Factors(qs, q), Rests(d1, qs[q]), c)
    ensures ProductsFrom(d3, qs, q, 0) <= f0
  {
    hide Aligned, DatabaseOK, Rest, InFormula;
    var factors, rests := Factors(qs, q), Rests(d1, qs[q]);
    forall i, k | 0 <= i <= q && 0 <= k < |qs[q].clauses|
      ensures Body(d3, qs[i].factor, qs[i].clauses[k]) == rests[k] + {factors[i]} && rests[k] + {factors[i]} in f0
    {
      AlignedBody(d1, qs, q, i, k);
      AlignedBody(d3, qs, q, i, k);
    }
    forall c ensures c in ProductsFrom(d3, qs, q, 0) <==> IsProduct(factors, rests, c) {
      if IsProduct(factors, rests, c) {
        var p, k :| 0 <= p < |factors| && 0 <= k < |rests| && c == rests[k] + {factors[p]};
        assert c == Body(d3, qs[p].factor, qs[p].clauses[k]);
      }
      if c in ProductsFrom(d3, qs, q, 0) {
        var i, k :| 0 <= i <= q && 0 <= k < |qs[q].clauses| && c == Body(d3, qs[i].factor, qs[i].clauses[k]);
        assert c == rests[k] + {factors[i]};
      }
    }
  }

  lemma FactoredSets(f: set<set<Lit>>, f': set<set<Lit>>, factors: seq<Lit>, rests: seq<set<Lit>>, x: Lit,
                     dividers: set<set<Lit>>, quotients: set<set<Lit>>, products: set<set<Lit>>)
    requires f' == f + dividers + quotients - products && products <= f && x % 2 == 0
    requires forall c :: c in dividers <==> IsDivider(factors, x, c)
    requires forall c :: c in quotients <==> IsQuotient(rests, Neg(Neg(x)), c)
    requires forall c :: c in products <==> IsProduct(factors, rests, c)
    requires forall c, l :: c in f && l in c ==> l < x
    ensures Factored(f, f', factors, rests, x)
  {
    hide IsProduct;
    SameVar(x, x);
    forall p, k | 0 <= p < |factors| && 0 <= k < |rests| ensures rests[k] + {factors[p]} in f {
      ProductIs(factors, rests, p, k);
    }
    forall c ensures c in f' <==>
          (c in f && !IsProduct(factors, rests, c)) || IsDivider(factors, x, c) || IsQuotient(rests, x, c) {
      if c in dividers {
        assert x in c;
      }
      if c in quotients {
        assert Neg(x) in c;
      }
    }
  }

  lemma ProductIs(factors: seq<Lit>, rests: seq<set<Lit>>, p: nat, k: nat)
    requires p < |factors| && k < |rests|
    ensures IsProduct(factors, rests, rests[k] + {factors[p]})
  {
  }
}
