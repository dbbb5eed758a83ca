/**
  The state of the embedded solver between two calls of its interface (kitten.c), and what
  adding clauses, assuming literals and resetting keep of it.
 */
module KittenApi {
  import opened LinkedQueue
  import opened Literals
  import opened KittenModel
  import opened KittenPropagation
  import opened KittenSearch
  import opened KittenBacktrack
  import opened KittenAnalysis
  import opened KittenTermination
  import opened KittenAssumptions
  import opened KittenOutcome

  ghost predicate NoCore(ks: seq<Klause>) {
    forall r :: 0 <= r < |ks| ==> !ks[r].core
  }

  /** What the status promises: 10 satisfied, 20 and 21 refuted or failed, 21 with a core. */
  ghost predicate Promised(s: State) {
    && (s.status == 0 || s.status == 10 || s.status == 20 || s.status == 21)
    && (s.status < 20 ==> NoFlags(s) && s.failing == INVALID)
    && (s.status == 10 ==> Satisfied(s))
    && (s.status >= 20 ==> Explained(s))
    && (s.status != 21 ==> NoCore(s.klauses) && s.core == [])
    && (s.assumptions == [] ==> s.failing == INVALID)
  }

  ghost predicate Idle(s: State) {
    Base(s) && Watched(s.klauses, s.watches) && Clean(s) && FlagsAssumed(s) && Promised(s)
  }

  /** The formula has not changed, but for learned clauses. */
  lemma NoCoreSame(ks: seq<Klause>, ks': seq<Klause>)
    requires SameFormula(ks, ks') && NoCore(ks)
    ensures NoCore(ks')
  {
  }

  // ------------------------------------------------------------------ outcome of a call

  /** The original clauses and the flagged assumptions have no common model. */
  lemma Unsatisfiable(s: State, m: Model)
    requires Base(s) && Explained(s) && Originals(m, s.klauses)
    ensures s.inconsistent == INVALID && Blames(m, s)
  {
    hide Failed, Blames, Assigned, SearchOK, CountFree, PendingOK;
    assert s.inconsistent != INVALID ==> Refuted(s.klauses);
    if s.inconsistent == INVALID {
      FailedUnsat(s, m);
    }
  }

  // ------------------------------------------------------------------ resetting

  lemma ResetFlag(s: State, a: Lit)
    requires Base(s) && a in s.assumptions
    ensures a < |s.failed| == |s.values|
  {
  }

  lemma ResetBase(s: State, n: nat, failed: seq<bool>)
    requires Base(s) && n <= |s.assumptions| && |failed| == |s.failed|
    ensures Base(s.(assumptions := s.assumptions[..n], failed := failed))
  {
    hide FormulaOK, SearchOK, CountFree, PendingOK, Assigned;
    forall a | a in s.assumptions[..n] ensures a < |s.values| {
      assert a in s.assumptions;
    }
  }

  lemma ResetStatus(s: State, status: int)
    requires Base(s)
    ensures Base(s.(status := status))
  {
  }

  /** Changing core flags changes no clause. */
  lemma CoreFlagsKeep(s: State, ks: seq<Klause>)
    requires Base(s) && Watched(s.klauses, s.watches) && |ks| == |s.klauses|
    requires forall r :: 0 <= r < |ks| ==> ks[r] == s.klauses[r].(core := ks[r].core)
    ensures Base(s.(klauses := ks)) && Watched(ks, s.watches)
  {
    FlagsSimilar(s.klauses, ks);
    FlagsKlauses(|s.values|, s.klauses, ks);
    FlagsWatched(s.klauses, ks, s.watches);
    hide FormulaOK, Assigned, SearchOK, CountFree, PendingOK, Below, Watched;
    BaseParts(s);
    SimilarKeepsBase(s, ks);
  }

  lemma FlagsSimilar(ks: seq<Klause>, ks': seq<Klause>)
    requires |ks'| == |ks| && forall r :: 0 <= r < |ks| ==> ks'[r] == ks[r].(core := ks'[r].core)
    ensures Similar(ks, ks')
  {
    forall r | 0 <= r < |ks| ensures ks'[r].lits == ks[r].lits && ks'[r].learned == ks[r].learned &&
                                     ks'[r].antecedents == ks[r].antecedents {
      assert ks'[r] == ks[r].(core := ks'[r].core);
    }
  }

  lemma FlagsKlauses(n: nat, ks: seq<Klause>, ks': seq<Klause>)
    requires |ks'| == |ks| && forall r :: 0 <= r < |ks| ==> ks'[r] == ks[r].(core := ks'[r].core)
    ensures Klauses(n, ks) ==> Klauses(n, ks')
  {
    forall r | 0 <= r < |ks| ensures ks'[r].lits == ks[r].lits {
      assert ks'[r] == ks[r].(core := ks'[r].core);
    }
  }

  lemma FlagsWatched(ks: seq<Klause>, ks': seq<Klause>, watches: seq<seq<Katch>>)
    requires |ks'| == |ks| && forall r :: 0 <= r < |ks| ==> ks'[r] == ks[r].(core := ks'[r].core)
    requires Watched(ks, watches)
    ensures Watched(ks', watches)
  {
    forall r | 0 <= r < |ks| ensures ks'[r].lits == ks[r].lits {
      assert ks'[r] == ks[r].(core := ks'[r].core);
    }
    forall l: nat | l < |watches| ensures ListOK(ks', l, watches[l]) {
      assert ListOK(ks, l, watches[l]);
      forall i | 0 <= i < |watches[l]| ensures KatchOK(ks', l, watches[l][i]) {
        assert KatchOK(ks, l, watches[l][i]);
      }
    }
    forall r | 0 <= r < |ks'| ensures WatchedAt(ks', watches, r) {
      assert WatchedAt(ks, watches, r);
    }
  }

  // ------------------------------------------------------------------ adding clauses

  function AddOriginal(s: State, c: seq<Lit>): State {
    Connected(s.(klauses := s.klauses + [Klause(c, false, false, [])]), |s.klauses|)
  }

  lemma OriginalFormula(ks: seq<Klause>, units: seq<nat>, inconsistent: int, tracked: bool, c: seq<Lit>)
    requires FormulaOK(ks, units, inconsistent, tracked)
    ensures FormulaOK(ks + [Klause(c, false, false, [])], units + (if |c| == 1 then [|ks|] else []),
                      if c == [] && inconsistent == INVALID then |ks| else inconsistent, tracked)
  {
    var k := Klause(c, false, false, []);
    var ks' := ks + [k];
    forall m: Model | Originals(m, ks') ensures Originals(m, ks) && Sat(m, c) {
      OriginalSplit(m, ks, c);
    }
    forall r | 0 <= r < |ks'| ensures tracked ==> DerivedAt(ks', r) {
      if r < |ks| && tracked {
        assert DerivedAt(ks, r) && ks'[r] == ks[r];
        if ks[r].learned {
          SameEntail(ks, ks', ks[r].antecedents, ks[r].lits);
        }
      }
    }
    var units' := units + if |c| == 1 then [|ks|] else [];
    forall r | 0 <= r < |ks'| && |ks'[r].lits| == 1 ensures r in units' {
      if r < |ks| {
        assert r in units;
      } else {
        assert units'[|units|] == r;
      }
    }
    OriginalEmpty(ks, inconsistent, tracked, c);
  }

  lemma OriginalSplit(m: Model, ks: seq<Klause>, c: seq<Lit>)
    ensures Originals(m, ks + [Klause(c, false, false, [])]) <==> Originals(m, ks) && Sat(m, c)
  {
    var k := Klause(c, false, false, []);
    var ks' := ks + [k];
    assert forall r :: 0 <= r < |ks| ==> ks'[r] == ks[r];
    assert ks'[|ks|] == k;
  }

  lemma OriginalEmpty(ks: seq<Klause>, inconsistent: int, tracked: bool, c: seq<Lit>)
    requires EmptyOK(ks, inconsistent, tracked)
    ensures EmptyOK(ks + [Klause(c, false, false, [])],
                    if c == [] && inconsistent == INVALID then |ks| else inconsistent, tracked)
  {
    var ks' := ks + [Klause(c, false, false, [])];
    forall m: Model | c == [] || inconsistent != INVALID ensures !Originals(m, ks') {
      OriginalSplit(m, ks, c);
    }
  }

  lemma AddKeeps(s: State, c: seq<Lit>)
    requires Base(s) && Watched(s.klauses, s.watches) && Proper(|s.values|, c)
    ensures Base(AddOriginal(s, c)) && Watched(AddOriginal(s, c).klauses, AddOriginal(s, c).watches)
  {
    OriginalFormula(s.klauses, s.units, s.inconsistent, s.tracked, c);
    hide FormulaOK, SearchOK, CountFree, PendingOK, Below, Shape, TrailOK, Reasons, Roots, Watched, Proper, Klauses;
    var k := Klause(c, false, false, []);
    LearnKeepsAssigned(s.values, s.vars, s.trail, s.level, s.klauses, k);
    ConnectKeepsWatched(s.klauses, s.watches, k);
    assert |Connect(s.watches, c, |s.klauses|)| == |s.watches|;
  }

  lemma ResetFlags(s: State, s': State, n: nat)
    requires FlagsAssumed(s) && |s.assumptions| == n + 1 && s.assumptions[n] < |s.failed|
    requires s' == s.(assumptions := s.assumptions[..n], failed := s.failed[s.assumptions[n] := false])
    ensures FlagsAssumed(s')
  {
    forall l: nat | Flagged(s', l) ensures l in s'.assumptions {
      assert Flagged(s, l) && l != s.assumptions[n];
      assert s.assumptions == s.assumptions[..n] + [s.assumptions[n]];
    }
  }

  lemma ResetNone(s: State)
    requires FlagsAssumed(s) && s.assumptions == []
    ensures NoFlags(s.(failing := INVALID))
  {
    assert forall l: nat :: Flagged(s.(failing := INVALID), l) <==> Flagged(s, l);
  }

  lemma FlagsNone(s: State)
    requires FlagsAssumed(s) && s.assumptions == []
    ensures NoFlags(s)
  {
  }

  lemma CoreBase(s: State, core: seq<nat>)
    requires Base(s)
    ensures Base(s.(core := core))
  {
  }

  lemma SimilarRefl(ks: seq<Klause>)
    ensures Similar(ks, ks)
  {
  }

  lemma QueueStays(s: State, s': State, order: seq<nat>)
    requires Queued(s, order) && s'.links == s.links && s'.first == s.first && s'.last == s.last && s'.stamp == s.stamp
    ensures Queued(s', order)
  {
  }

  lemma ResetDone(s1: State, s2: State, s: State)
    requires Fresh(s1) && NoFlags(s2) && s.values == s1.values && s.failed == s2.failed
    requires s.trail == [] && s.propagated == 0 && s.level == 0
    ensures NoFlags(s) && Fresh(s) && FlagsAssumed(s)
  {
    assert forall l: nat :: Flagged(s, l) <==> Flagged(s2, l);
  }

  // ------------------------------------------------------------------ solving

  /** The clauses added to ks in ks' are all learned ones. */
  ghost predicate Grown(ks: seq<Klause>, ks': seq<Klause>) {
    Similar(ks, ks') && forall r :: |ks| <= r < |ks'| ==> ks'[r].learned
  }

  /** Some model satisfies the original clauses and all assumptions. */
  ghost predicate Consistent(ks: seq<Klause>, assumptions: seq<Lit>) {
    exists m: Model :: Originals(m, ks) && forall a :: a in assumptions ==> Holds(m, a)
  }

  /** The state in which a search starts. */
  ghost predicate Ready(s: State) {
    && Base(s) && Watched(s.klauses, s.watches) && Clean(s) && Fresh(s)
    && NoFlags(s) && s.failing == INVALID && s.status == 0
    && NoCore(s.klauses) && s.core == []
  }

  /** What a search started in s0 has left alone in s. */
  ghost predicate Underway(s0: State, s: State) {
    && SameFormula(s0.klauses, s.klauses) && s.assumptions == s0.assumptions && s.tracked == s0.tracked
    && s.status == s0.status && s.core == s0.core && |s.values| == |s0.values|
  }

  /** A search started in s0 has reached s; res is its result so far. */
  ghost predicate Ongoing(s0: State, s: State, res: int) {
    && Base(s) && Watched(s.klauses, s.watches) && Clean(s) && Underway(s0, s)
    && (res == 0 ==> Searching(s) && Quiet(s, INVALID))
    && (res == -1 ==> Searching(s))
    && (res == 10 ==> Satisfied(s) && s.failing == INVALID && NoFlags(s))
    && (res == 20 ==> Failed(s) || (s.inconsistent != INVALID && s.failing == INVALID && NoFlags(s)))
  }

  lemma ReadyParts(s: State)
    requires Ready(s)
    ensures Base(s) && Watched(s.klauses, s.watches) && Clean(s) && Fresh(s)
  {
  }

  lemma OngoingParts(s0: State, s: State, res: int)
    requires Ongoing(s0, s, res)
    ensures Base(s) && Watched(s.klauses, s.watches) && s.klause == [] && s.resolved == []
    ensures res == 0 ==> Searching(s) && Quiet(s, INVALID) && Deciding(s, s.level)
    ensures res == -1 ==> Searching(s) && NoFlags(s) && FlagsAssumed(s)
  {
  }

  lemma OngoingUnits(s0: State, s: State, res: int)
    requires Ready(s0) && Base(s) && Watched(s.klauses, s.watches) && Clean(s) && SameFormula(s0.klauses, s.klauses)
    requires s == s0.(values := s.values, vars := s.vars, phases := s.phases, trail := s.trail,
                      unassigned := s.unassigned, klauses := s.klauses, units := s.units, watches := s.watches,
                      propagated := s.propagated, inconsistent := s.inconsistent, marks := s.marks)
    requires res == 0 ==> SameTask(s0, s) && s.inconsistent == INVALID && s.level == 0
    requires res == 0 ==> UnitsTrue(s.klauses, s.values, s.vars, 0) && Quiet(s, INVALID)
    requires res == 20 ==> s.inconsistent != INVALID
    requires res == 0 || res == 20
    ensures Ongoing(s0, s, res)
  {
    assert |s.values| == |s.failed| == |s0.failed| == |s0.values|;
    hide Base, Watched, Deciding, UnitsTrue, Quiet, SameFormula, AllZero;
    SameFlags(s0, s);
    if res == 0 {
      RootDeciding(s);
    }
  }

  lemma OngoingExtends(s0: State, s: State, s': State)
    requires Ongoing(s0, s, 0) && Extends(s, s') && Base(s') && Watched(s'.klauses, s'.watches)
    ensures Searching(s') && Underway(s0, s') && WeightLimit(s') == WeightLimit(s) && Weight(s) <= Weight(s')
    ensures Clean(s') && s'.inconsistent == INVALID
    ensures s'.links == s.links && s'.first == s.first && s'.last == s.last && s'.stamp == s.stamp
  {
    hide Base, Watched, Deciding, UnitsTrue, Quiet, SameFormula, Extends, Satisfied, Failed, NoFlags;
    ExtendsFrame(s, s');
    ExtendsSearching(s, s');
    SameFormulaTrans(s0.klauses, s.klauses, s'.klauses);
    ExtendsWeight(s, s');
  }

  /** A step of the search. */
  lemma OngoingTask(s0: State, s: State, s': State)
    requires Underway(s0, s) && SameFormula(s.klauses, s'.klauses) && SameTask(s, s')
    requires Searching(s') && Quiet(s', INVALID)
    ensures Ongoing(s0, s', 0) && WeightLimit(s') == WeightLimit(s)
  {
    hide Base, Watched, Deciding, UnitsTrue, Quiet, SameFormula, Satisfied, Failed, NoFlags, Power;
    SameFormulaTrans(s0.klauses, s.klauses, s'.klauses);
  }

  /** The end of the search in a decision, or a decision. */
  lemma OngoingDecided(s0: State, s: State, s': State, res: int)
    requires Underway(s0, s) && SameFormula(s.klauses, s'.klauses)
    requires s'.assumptions == s.assumptions && s'.tracked == s.tracked && s'.core == s.core && s'.status == s.status
    requires |s'.values| == |s.values| && |s'.vars| == |s.vars|
    requires Base(s') && Watched(s'.klauses, s'.watches) && Clean(s')
    requires res == 0 ==> Searching(s') && Quiet(s', INVALID)
    requires res == 10 ==> Satisfied(s') && s'.failing == INVALID && NoFlags(s')
    requires res == 20 ==> Failed(s')
    requires res == -1 ==> Searching(s')
    ensures Ongoing(s0, s', res) && WeightLimit(s') == WeightLimit(s)
  {
    hide Base, Watched, Deciding, UnitsTrue, Quiet, SameFormula, Satisfied, Failed, NoFlags, Searching, Power;
    SameFormulaTrans(s0.klauses, s.klauses, s'.klauses);
  }

  /** The end of the search in a conflict at the root level. */
  lemma OngoingInconsistent(s0: State, s: State, s': State)
    requires Underway(s0, s) && SameFormula(s.klauses, s'.klauses) && Searching(s)
    requires Base(s') && Watched(s'.klauses, s'.watches) && Clean(s')
    requires s' == s.(inconsistent := s'.inconsistent, klauses := s'.klauses, marks := s'.marks)
    requires s'.inconsistent != INVALID
    ensures Ongoing(s0, s', 20)
  {
    hide Base, Watched, Deciding, UnitsTrue, Quiet, SameFormula, Satisfied, Failed;
    SameFormulaTrans(s0.klauses, s.klauses, s'.klauses);
    SameFlags(s, s');
  }

  lemma ConflictIndex(s: State, conflict: int)
    requires Conflicting(s, conflict)
    ensures conflict >= 0
  {
  }

  lemma FormulaGrown(ks: seq<Klause>, ks': seq<Klause>)
    requires SameFormula(ks, ks')
    ensures Grown(ks, ks')
  {
  }

  /** The end of a search: the result becomes the status. */
  lemma Concluded(s0: State, s: State, s': State, result: int)
    requires Ready(s0) && Ongoing(s0, s, result) && (result == 10 || result == 20 || result == -1)
    requires if result == -1 &&
             s.assumptions != [] then s' == s.(assumptions := [], failed := s'.failed) && Base(s') && NoFlags(s')
             else s' == s
    ensures Idle(s'.(status := if result < 0 then 0 else result)) && Grown(s0.klauses, s'.klauses)
    ensures s'.assumptions == if result == -1 then [] else s0.assumptions
    ensures result == 20 ==> Explained(s')
    ensures result == 10 ==> Satisfied(s')
  {
    hide Base, Watched, Deciding, UnitsTrue, Quiet, SameFormula, Satisfied, Grown;
    var t := s'.(status := if result < 0 then 0 else result);
    ResetStatus(s', t.status);
    FormulaGrown(s0.klauses, s.klauses);
    NoCoreSame(s0.klauses, s.klauses);
    assert forall l: nat :: Flagged(t, l) <==> Flagged(s', l);
    StatusOutcome(s', t.status);
  }

  lemma StatusOutcome(s: State, status: int)
    ensures Satisfied(s) ==> Satisfied(s.(status := status))
    ensures Explained(s) ==> Explained(s.(status := status))
  {
    var t := s.(status := status);
    assert forall l: nat :: Flagged(t, l) <==> Flagged(s, l);
    forall c | FlagsExact(s, c) ensures FlagsExact(t, c) {
      ExactSame(s, t, c);
    }
  }

  lemma GrownOriginals(m: Model, ks: seq<Klause>, ks': seq<Klause>)
    requires Grown(ks, ks')
    ensures Originals(m, ks) <==> Originals(m, ks')
  {
    SameOriginals(m, ks, ks');
  }

  lemma GrownTrans(ks: seq<Klause>, ks': seq<Klause>, ks'': seq<Klause>)
    requires Grown(ks, ks') && Grown(ks', ks'')
    ensures Grown(ks, ks'')
  {
  }

  /**
    What the caller may read after a search: with 10 the values are a model of all clauses and assumptions, with 20
    the flagged literals are assumptions that contradict the clauses, and just those of the failing clause or of a
    clash, or the clauses have no model and nothing is flagged.
   */
  ghost predicate Answered(ks: seq<Klause>, s: State) {
    && (s.status == 10 ==>
          && (forall v: nat :: 2 * v < |s.values| ==> s.values[2 * v] != 0)
          && Originals(ModelOf(s.values), ks) && forall a :: a in s.assumptions ==> Holds(ModelOf(s.values), a))
    && (s.status == 20 ==>
          && FlagsAssumed(s) && (if s.inconsistent == INVALID then Culprit(s) else NoFlags(s))
          && forall m: Model | Originals(m, ks) :: s.inconsistent == INVALID && Blames(m, s))
  }

  lemma ExplainedParts(s: State)
    requires Explained(s)
    ensures if s.inconsistent == INVALID then Culprit(s) else NoFlags(s)
  {
  }

  /** The result of a search: the formula with the assumptions is satisfiable or not, and why. */
  lemma Outcome(ks: seq<Klause>, s: State)
    requires Idle(s) && Grown(ks, s.klauses)
    ensures Answered(ks, s)
    ensures s.status == 10 ==> Consistent(ks, s.assumptions)
    ensures s.status == 20 ==> !Consistent(ks, s.assumptions)
  {
    hide Base, Watched, Grown, Failed;
    if s.status == 10 {
      var m := ModelOf(s.values);
      GrownOriginals(m, ks, s.klauses);
    }
    if s.status == 20 {
      ExplainedParts(s);
      forall m: Model | Originals(m, ks) ensures s.inconsistent == INVALID && Blames(m, s) {
        GrownOriginals(m, ks, s.klauses);
        Unsatisfiable(s, m);
      }
      forall m: Model | Originals(m, ks) ensures exists a :: a in s.assumptions && !Holds(m, a) {
        assert Blames(m, s);
        var l :| Flagged(s, l) && !Holds(m, l);
      }
    }
  }

  // ------------------------------------------------------------------ the interface

  /** The state before the queue is filled. */
  function Blank(n: nat, tracked: bool): State {
    State(tracked, 0, 0, 0, INVALID, INVALID, INVALID, INVALID, 0, INVALID,
          seq(n, _ => Kar(0, INVALID)), seq(n, _ => Link(INVALID, INVALID, 0)), seq(n, _ => false),
          seq(2 * n, _ => 0), seq(2 * n, _ => false), seq(n, _ => false), seq(2 * n, _ => []),
          [], [], [], [], [], [], [], 0, [])
  }

  lemma BlankQueue(n: nat, tracked: bool)
    ensures var s := Blank(n, tracked); QueueOK(s.links, s.first, s.last, s.stamp, [])
  {
  }

  lemma {:induction false} CountZeros(values: seq<int>, k: nat)
    requires 2 * k <= |values| && forall v: nat :: v < k ==> values[2 * v] == 0
    ensures CountFree(values, k) == k
  {
    if k > 0 {
      CountZeros(values, k - 1);
    }
  }

  lemma BlankSearch(n: nat, links: seq<Link>, first: int, last: int, stamp: nat, order: seq<nat>)
    requires QueueOK(links, first, last, stamp, order) && |links| == n
    requires |order| == n && forall v :: 0 <= v < n ==> order[v] == v
    ensures SearchOK(links, last, seq(2 * n, _ => 0)) && Complete(links, order)
  {
    forall v: nat | v < n ensures v in order && links[v].stamp <= links[order[n - 1]].stamp {
      assert order[v] == v;
    }
  }

  lemma BlankIdle(n: nat, tracked: bool, s: State, order: seq<nat>)
    requires QueueOK(s.links, s.first, s.last, s.stamp, order) && |s.links| == n
    requires |order| == n && forall v :: 0 <= v < n ==> order[v] == v
    requires s ==
               Blank(n, tracked).(links := s.links, first := s.first, last := s.last, stamp := s.stamp, unassigned := n)
    ensures Idle(s.(search := s.last)) && Queued(s.(search := s.last), order)
  {
    hide CountFree, QueueOK, SearchOK, Complete, Assigned;
    var t := s.(search := s.last);
    CountZeros(t.values, n);
    BlankSearch(n, s.links, s.first, s.last, s.stamp, order);
    assert forall l: nat :: !Flagged(t, l);
    BlankAssigned(n, tracked);
    BlankFormula(tracked);
  }

  lemma BlankFormula(tracked: bool)
    ensures FormulaOK([], [], INVALID, tracked)
  {
  }

  lemma BlankAssigned(n: nat, tracked: bool)
    ensures var s := Blank(n, tracked); Assigned(s.values, s.vars, s.trail, s.level, s.klauses)
  {
  }

  function Excluding(elits: seq<Lit>, except: int, k: nat): seq<Lit>
    requires k <= |elits|
  {
    if k == 0 then []
    else Excluding(elits, except, k - 1) + if elits[k - 1] == except then [] else [elits[k - 1]]
  }

  /** The first k literals, but for the left out one, are a prefix of all of them. */
  lemma {:induction false} ExcludingPrefix(elits: seq<Lit>, except: int, k: nat, n: nat)
    requires k <= n <= |elits|
    ensures Excluding(elits, except, k) <= Excluding(elits, except, n)
  {
    if k < n {
      ExcludingPrefix(elits, except, k, n - 1);
    }
  }

  lemma WithoutBound(elits: seq<Lit>, except: int, k: nat, n: nat)
    requires k < |elits| && elits[k] != except && Proper(n, Excluding(elits, except, |elits|))
    ensures elits[k] < n
    ensures forall l :: l in Excluding(elits, except, k) ==> Var(l) != Var(elits[k])
  {
    ExcludingPrefix(elits, except, k + 1, |elits|);
    var c, d := Excluding(elits, except, k), Excluding(elits, except, |elits|);
    assert d[|c|] == elits[k];
    forall l | l in c ensures Var(l) != Var(elits[k]) {
      var i :| 0 <= i < |c| && c[i] == l;
      assert d[i] == l;
    }
  }

  /** Some literal of c from position k on has variable v. */
  ghost predicate OfVar(c: seq<Lit>, k: nat, v: nat) {
    exists i :: k <= i < |c| && Var(c[i]) == v
  }

  lemma OfVarPush(c: seq<Lit>, l: Lit)
    ensures forall v: nat :: OfVar(c, 0, v) || v == Var(l) ==> OfVar(c + [l], 0, v)
  {
    forall v: nat | OfVar(c, 0, v) || v == Var(l) ensures OfVar(c + [l], 0, v) {
      var i := if v == Var(l) then |c| else var i :| 0 <= i < |c| && Var(c[i]) == v; i;
      assert Var((c + [l])[i]) == v;
    }
  }

  lemma IdleParts(s: State)
    requires Idle(s)
    ensures Base(s) && Watched(s.klauses, s.watches) && Clean(s)
    ensures |s.values| == |s.watches| == 2 * |s.marks|
  {
  }

  lemma AddIdle(s0: State, s: State, c: seq<Lit>)
    requires Idle(s0) && s0.status == 0 && Proper(|s0.values|, c)
    requires s == AddOriginal(s0.(marks := s.marks), c) && |s.marks| == |s0.marks|
    requires forall v :: 0 <= v < |s.marks| ==> !s.marks[v]
    ensures Idle(s) && Similar(s0.klauses, s.klauses)
  {
    hide Base, Watched, Proper, Connect;
    var s1 := s0.(marks := s.marks);
    MarkedBase(s0, s1);
    AddKeeps(s1, c);
    assert forall l: nat :: Flagged(s, l) <==> Flagged(s0, l);
  }

  lemma AssumeIdle(s: State, lit: Lit)
    requires Idle(s) && s.status == 0 && lit < |s.values|
    ensures Idle(s.(assumptions := s.assumptions + [lit]))
  {
    hide Watched, FormulaOK, Assigned, SearchOK, CountFree, PendingOK;
    var t := s.(assumptions := s.assumptions + [lit]);
    assert forall l: nat :: Flagged(t, l) <==> Flagged(s, l);
  }

  lemma SimilarTrans(ks: seq<Klause>, ks': seq<Klause>, ks'': seq<Klause>)
    requires Similar(ks, ks') && Similar(ks', ks'')
    ensures Similar(ks, ks'')
  {
  }
}
