# A verified model of Kissat

This project models the reasoning core of the SAT solver Kissat in Dafny and proves it correct.  Kissat is written in C
and updates a few large structs in place.  Each struct becomes a class with one record field `s` for the state, methods
that update it in the order of the C code, and a predicate `Valid()` (or a named invariant) that every method keeps.
Methods are specified by what they mean for formulas, models, trails or tables; lemmas on records carry the proofs.

`dafny verify dfyconfig.toml` checks everything.

## Components

**The embedded solver** (`kitten.c`; `Kitten*.dfy`).  A complete CDCL solver with watches and blocking literals,
incremental assumptions and antecedent tracking.  The main theorem is the contract of `Kitten.Solve`: it terminates, and
its result decides whether the original clauses together with the assumptions have a model, with the model or the failed
assumptions as evidence; flagged as failed are exactly the assumptions that the failing klause negates, or two that
clash.  `Kitten.ComputeClausalCore` lists a core in which every learned klause is implied by the ones
before it and whose original klauses alone refute what is refuted.  Termination rests on a weight over the numbers of
variables per decision level, which each conflict and each decision makes larger.

**Congruence closure** (`congruence.c`; `Congruence`, `GateTable`, `GateMeaning`, `GateFunctions`, `Xor`,
`AndExtraction`, `IteExtraction`, `XorCounting`, `Extraction`).  AND, XOR and ITE gates are kept in an open-addressing
table with tombstones.  Units and merged literals are propagated until nothing is scheduled.  Then the closure is
complete: all inputs of the gates left are representatives without a value, no two gates have the same tag and inputs,
and of all gates there were at the start the outputs of those that have become the same function have been merged.  The
first part rests on an order that every operation on gates keeps (`Order`, with `done`, the variables propagated so
far): no input is done, each gate is listed for its inputs, sorted, in the table under its hash value, and unlike all
others, with exceptions for the gate being changed.  The second part rests on an account of every gate (`Keeps`,
`Accounted`): what it said is known from values and merges, or a live gate still says it, so that no gate is just thrown
away.  Different normalized gates are different functions (`GateFunctions`), hence two gates of the same function are
accounted for by the same live gate.

There are two exceptions (`Excused`).  An AND gate whose output is true is dropped by `skip_and_gate`.  An XOR gate is
dropped by `rewrite_xor_gate` when its output has been merged with the literal being rewritten, also if this literal is
no input any more; then a gate at the start has got its own output, or the negation, as an input, and nothing is
promised for gates that stand for such a gate (`Selfish`).  `SelfInputMisleads` gives two gates for which the promise
fails.  That gates are listed only for their inputs at the start (`Connected`) is part of what gate extraction keeps.

Every gate, unit, merge and added binary clause is a consequence of the clauses at the start; rewriting an ITE gate is
exact in all its branches.  Gates are extracted from the clauses, soundly and completely: no gate is missed whose
clauses are connected, in spite of early exits, counts and candidates that are dropped.  The search for XOR gates visits
every sign pattern exactly once.

**Elimination and model extension** (`fastel.c`, `eliminate.c`, `weaken.c`, `extend.c`; `Elimination`, `Extend`,
`Reconstruction`, `ModelExtension`).  A variable is resolved away, its clauses become witnesses on the extension stack,
and the backward pass of `extend.c` repairs a model.  `ModelExtension.ExtendModel` joins the two ends: after any
sequence of eliminations, extending a model of the clauses left gives a model of the clauses at the start.

**Trail and conflict analysis** (`assign.c`, `backtrack.c`, `deduce.c`, `learn.c`, `analyze.c`, `minimize.c`,
`strengthen.c`; `SolverTrail`, `SolverCore`, `SolverDeduce`, `Minimize`, `MinimizeTrail`, `FailedLiteral`, `Analysis`,
`WatchRepair`).  The trail is out of order: a literal of a lower level may stand behind one of a higher level.
Backtracking keeps exactly the lower levels; learning asserts the deduced clause; minimization drops literals that the
rest implies, on exactly this trail.  What analysis finds is pinned down by what is left of the conflict (`Left`) when
it is resolved with the reasons down to a position of the trail: the clause deduced is what is left where one literal on
the conflict level is for the first time, unless a reason is strengthened before, and the units of a failed literal are
the literals left alone.  Minimization drops only redundant literals, all of them if the depth allows it, and those with
a direct reason in any case.  `Analyzer.Analyze` joins all of this, with failed literals on the first level and
strengthened reasons as new conflicts: it ends with the formula refuted, or with exactly this clause asserted, which is
implied and was falsified before.

**Bounded variable addition** (`factor.c`; `FactorModel`, `Factoring`).  Quotients are matched against the occurrence
lists, flushed backwards and replaced by clauses over a fresh variable; models are the same up to that variable.  A
factorization is found if and only if one saves more clauses than the bound, and the first with the largest saving is
applied; the saving is stated in terms of the formula alone.

**The proof checker** (`check.c`; `CheckerModel`, `ProofChecker`, `LineTable`).  Watched propagation computes exactly
the least values under which no clause is falsified or unit (`UnitClosure`), and a clause is judged as naive propagation
of its negation would judge it: it follows, or the first blocked literal decides.  That an accepted clause keeps the
clauses satisfiable is not always true: `checker_blocked_literal` looks at all literals that are false, also at those
that were false before the negation was assigned.  Root-level units are not stored as lines, so for such a literal
nothing has to be in the way, and a clause can be accepted that makes the clauses unsatisfiable (`RootBlockedMisleads`).
`CheckAndAdd` says when this cannot happen, by what root-level propagation of the state before the call gives:

- If each literal that is false there has its negation in a large line (in particular if no literal is false), the
  clauses stay satisfiable, whatever the verdict.
- If all literals are false there, they stay satisfiable if and only if they were unsatisfiable before or no literal is
  blocked.
- In between, an accepted clause counts like the clause of its literals that are not false.  It keeps the clauses
  satisfiable exactly if this shorter clause does, which is a question about all models of the clauses and not one that
  values, watches and marks before the call can answer.  Refused clauses, which change nothing, have no blocked literal.

**The binary backbone** (`backbone.c`; `Backbone`).  Probes are assumed on top of each other while they propagate; a
failed one yields a unit, the negation of a dominator of the conflict.  A whole round, with its in-place compaction of
the candidates, is proved against the binary clauses: each candidate that is dropped does not fail, or is refuted by the
units returned.

**Decisions** (`decide.c`, `inlinequeue.h`, `queue.c`, `inlineheap.h`, `flags.c`, `mode.c`; `LinkedQueue`, `ScoreHeap`,
`DecisionOrder`).  Through every sequence of operations the queue with its cached search position and the heap yield the
unassigned variable enqueued last, or one with the largest score.

## Conventions

- A literal is a number; variable v has the literals 2v and 2v + 1.  A model is a possibly infinite set of variables.
- References to clauses and gates are indices into a sequence; deleted ones stay behind, marked as garbage.
- Ghost parameters name a formula, a first state or a position; they do not influence the run.
- Hash functions, limits, termination callbacks, the option values and the order in which candidates are picked are
  parameters, so results hold for all of them.
- The sorting macros are insertion sorts, as functions or, where they sort in place, as methods.
- Scores are real numbers.
- Root-level propagation inside congruence closure repeats the search for a unit clause instead of following watches.
- The AND gate search counts binary clauses, which decides the question only if no binary clause is listed twice.
  `congruence.c` removes the duplicates it adds itself; that there are none is part of the invariant of `AndFinder`.
  `CountingExact` shows that this condition is the right one: counting decides the question for every base clause if and
  only if no binary clause of the output is listed twice.
- When a random decision is wanted and what the generator draws are parameters.

## Model

| member | source | states |
|---|---|---|
| `KittenSolver.Kitten.Solve` | src/kitten.c:1897-1947 | always ends; returns 10 exactly when some model satisfies the originals and the assumptions, and then the values are one; 20 exactly when there is none: then the originals are unsatisfiable, or the flagged assumptions alone contradict them, and flagged are exactly those negated in the failing klause, or exactly two that clash; 0 only if a limit was set |
| `KittenSolver.Kitten.Decide` | src/kitten.c:1543-1601 | 10 only with all variables assigned, all klauses and assumptions true; 20 only with a false assumption analysed by `Failing`; otherwise true assumptions get pseudo levels, a free assumption or variable is decided, and the termination measure grows |
| `KittenSolver.Kitten.NextAssumption` | src/kitten.c:1550-1567 | skips true assumptions one level each, up to a false one or one to be decided; the measure stays |
| `KittenSolver.Kitten.NextVariable` | src/kitten.c:1583-1592 | finds an unassigned variable after which all variables of the queue are assigned, by following links from the search pointer |
| `KittenSolver.Kitten.Propagate` | src/kitten.c:1193-1206 | restores the watch invariant for the whole trail, or finds a klause all of whose literals are false with one on the current level |
| `KittenSolver.Kitten.PropagateLiteral` | src/kitten.c:1113-1191 | the list of the negated literal is compacted in place: every klause in it keeps its two watches and has a true literal early enough, or a falsified klause is returned |
| `KittenSolver.Kitten.VisitKatch` | src/kitten.c:1124-1145 | one katch is kept, moved or conflicting; katches visited before stay handled |
| `KittenSolver.Kitten.VisitKlause` | src/kitten.c:1146-1184 | a long klause is kept because of its other watch, moved to a replacement, made a reason, or conflicting |
| `KittenModel.RecentWatch` | src/kitten.c:835-854 | the watch added last, the second literal of the klause, always has the other watch as its blocking literal |
| `KittenModel.ConnectKeepsWatched` | src/kitten.c:856-874 | connecting a klause keeps the invariant of the watch lists |
| `KittenPropagation.MoveKeepsWatched` | src/kitten.c:1168-1175 | moving a watch to a replacement keeps each klause watched exactly once by its first two literals |
| `KittenPropagation.PropagatedNext` | src/kitten.c:1197-1201 | once the list of the next literal is handled, the watch invariant holds for one more literal of the trail |
| `KittenSolver.Kitten.Assign` | src/kitten.c:1069-1111 | at the root level the reason becomes a unit klause, learned with all its antecedents if it was longer |
| `KittenSolver.Kitten.LearnUnit` | src/kitten.c:1088-1107 | the learned unit klause holds the reason and the units of the other literals as antecedents |
| `KittenSolver.Kitten.Backtrack` | src/kitten.c:1236-1256 | cuts the trail exactly to the literals of level at most the jump level, which keep values, reasons and the watch invariant |
| `KittenModel.CutPropagated` | src/kitten.c:1236-1256 | a watch invariant for lower levels survives backtracking |
| `KittenSolver.Kitten.CompletelyBacktrack` | src/kitten.c:1258-1284 | unassigns everything; the queue search starts at a variable with only assigned ones behind |
| `KittenSolver.Kitten.FlushTrail` | src/kitten.c:1535-1541 | emptying the root-level trail keeps the invariants, since all root literals have been propagated |
| `KittenSolver.Kitten.Analyze` | src/kitten.c:1286-1349 | learns from a conflict, backjumps and asserts; the invariant, the assumptions and the originals stay and the termination measure strictly grows |
| `KittenSolver.Kitten.DeriveClause` | src/kitten.c:1292-1343 | the derived klause follows from the klauses resolved, has no variable twice, and is false but for one literal after the jump |
| `KittenAnalysis.LearntEntailed` | src/kitten.c:1299-1338 | what is left after resolving with all reasons met is implied by exactly the klauses listed as resolved |
| `KittenAnalysis.LearntProper` | src/kitten.c:1305-1341 | the learned klause is in range and has no variable twice |
| `KittenAnalysis.AssertKeeps` | src/kitten.c:1339-1348 | after the jump the learned klause is connected and its first literal may be assigned with it as the reason |
| `KittenTermination.JumpValue` | src/kitten.c:1236-1256 | a state cut to a lower level and extended by a literal there has a larger measure, whatever was above |
| `KittenTermination.WeightBound` | src/kitten.c:1909-1927 | the measure over the numbers of variables per level is bounded, so conflicts and decisions come to an end |
| `KittenSolver.Kitten.Bump` | src/kitten.c:1208-1215 | analysed variables move to the end of the queue, which stays a list of all variables with increasing stamps and a valid search pointer |
| `KittenSolver.Kitten.MoveToFront` | src/kitten.c:1060-1067 | dequeues and enqueues an assigned variable; queue and search pointer stay valid |
| `LinkedQueue.UnlinkKeeps` | src/kitten.c:497-511 | taking out a node gives the list without it, links and stamps intact |
| `LinkedQueue.LinkKeeps` | src/kitten.c:481-495 | the node becomes the last one with the largest stamp |
| `KittenSolver.Kitten.Failing` | src/kitten.c:1351-1533 | flags only assumptions, and the flagged ones contradict the originals; with a failing klause flagged is exactly what it negates (for an assumption false at the root level only that one), otherwise exactly an assumption and its negation |
| `KittenSolver.Kitten.FindFailed` | src/kitten.c:1358-1389 | prefers an assumption false at the root level, then one false by decision; reports which case it is |
| `KittenSolver.Kitten.DeriveFailing` | src/kitten.c:1407-1533 | resolves back to assumptions: the klause of the negations of exactly the flagged assumptions follows from the klauses resolved |
| `KittenAssumptions.FailedUnsat` | src/kitten.c:1351-1533 | every model of the originals falsifies a flagged assumption |
| `KittenOutcome.UnitFailing` | src/kitten.c:1391-1397 | an assumption false at the root level fails on its own, because of its unit klause |
| `KittenOutcome.ClashFailing` | src/kitten.c:1399-1405 | two clashing assumptions fail without any klause |
| `KittenSolver.Kitten.Inconsistent` | src/kitten.c:1603-1657 | a root-level conflict makes the solver inconsistent; with antecedents the empty klause is derived from the klauses that refute |
| `KittenOutcome.RootImplied` | src/kitten.c:1603-1657 | a klause falsified at the root level leaves the originals without a model |
| `KittenOutcome.EmptyLearned` | src/kitten.c:1647-1657 | registering the derived empty klause keeps the invariants and refutes the formula |
| `KittenSolver.Kitten.PropagateUnits` | src/kitten.c:1659-1694 | either all unit klauses are true and everything is propagated at the root level, or the solver is inconsistent |
| `KittenOutcome.SearchSatisfied` | src/kitten.c:1569-1570 | if nothing is left to propagate and all variables are assigned, all klauses and assumptions are true |
| `KittenApi.Unsatisfiable` | src/kitten.c:2202-2212 | an inconsistent solver has no model of the originals, and otherwise every model falsifies a flagged assumption |
| `KittenApi.Outcome` | src/kitten.c:2158-2168 | what status, values and failed flags mean for the originals after a search; the flags of a failed search are exactly those of the failing klause or of the clash |
| `KittenSolver.Kitten.constructor` | src/kitten.c:653-686 | an idle solver without klauses, with all variables queued |
| `KittenSolver.Kitten.AddClause` | src/kitten.c:1851-1877 | adds the klause without the excepted literal as an original; a status of an earlier search is reset |
| `KittenSolver.Kitten.Assume` | src/kitten.c:1842-1849 | one more assumption; a status of an earlier search is reset with its assumptions |
| `KittenSolver.Kitten.Restart` | src/kitten.c:1897-1908 | before the search everything is unassigned and results of an earlier search are forgotten |
| `KittenSolver.Kitten.Conclude` | src/kitten.c:1929-1947 | publishes the status; without a result the assumptions are dropped |
| `KittenSolver.Kitten.ComputeClausalCore` | src/kitten.c:1951-2025 | starts from the inconsistent or failing klause and lists a core: each learned klause after core klauses that imply it, each klause needed, and the flagged originals refute what the start refutes; counts both kinds |
| `KittenSolver.Kitten.ListCore` | src/kitten.c:1977-2008 | the marker-stack search ends with the start klause in the core and everything on the way listed once |
| `KittenCore.CoreImplies` | src/kitten.c:1951-2025 | in a core listed in this order the flagged originals imply each listed klause |
| `KittenCore.CoreClose` | src/kitten.c:1983-1993 | a klause is listed when its marker comes up, with all antecedents listed before |
| `KittenCore.CoreOpen` | src/kitten.c:1994-2007 | opening a klause pushes only antecedents, and the set of klauses still to be opened shrinks |
| `KittenCore.CoreDone` | src/kitten.c:1966-2025 | with the stack empty the flagged originals refute |
| `GateMeaning.RewriteIteMeans` | src/congruence.c:1927-2158 | all branches: where src and dst are equal the outcome (constant, equivalence, AND, XOR or ITE with negated output) says exactly what the gate said |
| `GateMeaning.SimplifyIteMeans` | src/congruence.c:1827-1925 | all branches: under the root values the outcome says exactly what the gate said |
| `GateMeaning.NormalIteHolds` | src/congruence.c:1300-1313 | condition and then-input become positive, and the function is negated exactly if reported |
| `GateMeaning.SortHolds` | src/congruence.c:343-346 | sorting inputs changes neither conjunction nor parity |
| `Congruence.Closure.PropagateUnitsAndEquivalences` | src/congruence.c:4210-4231 | ends after at most as many equivalences as there are roots and scheduled literals; unless stopped or inconsistent all units are propagated and nothing is scheduled, the inputs of all gates left are representatives without a value, and no two of these gates have the same tag and inputs; no gate has just been thrown away: any two gates before the call that have become the same function have equal outputs, in particular gates of one tag whose inputs have no value and the same roots (as sets, multisets or in order), unless an AND output is true, or a gate other than an AND gate stands for one that has got its own output as an input; everything merged is equal in every model of the clauses, and an inconsistency means there is no model |
| `Congruence.AllNormalized` | src/congruence.c:4210-4231 | with nothing left to propagate the order kept by every operation on gates means: all inputs are representatives without a value, and no two gates are congruent |
| `Congruence.SameKnownEqual` | src/congruence.c:732-738 | literals that are equal in all models of values and merges have the same representative or the same value |
| `GateFunctions.NotLiteral` | src/congruence.c:1500-1516 | a well-formed gate is neither a literal nor its negation |
| `GateFunctions.ShapedApart` | src/congruence.c:403-417 | two well-formed gates with different tags or inputs differ on some values of the inputs, also if one is negated |
| `Congruence.PairDone` | src/congruence.c:4161-4180 | two gates that are accounted for, by a live gate or a known output, and are the same function by what is known: their outputs are known to be equal, because different normalized gates are different functions |
| `Congruence.AllDone` | src/congruence.c:4210-4231 | with nothing left to propagate and no gate lost, all gates at the start that have become the same function have equal outputs |
| `Congruence.RootsDone` | src/congruence.c:4210-4231 | gates at the start with inputs without a value and the same roots have outputs of the same root or value, with exactly the exceptions named, if those that have become the same function have |
| `Congruence.Closure.constructor` | src/congruence.c:145-176 | without gates and merges the invariants hold, and the models are those of the clauses |
| `Congruence.Closure.PropagateUnits` | src/congruence.c:4200-4208 | simplifies the gates of all units, new ones included, so that no gate has an input with a value, or finds an inconsistency; no gate is lost, and all gates stay implied |
| `Congruence.Closure.PropagateEquivalence` | src/congruence.c:4185-4198 | rewrites all gates of a merged literal and of its negation to the representative; the occurrence lists of both are empty afterwards, unless the literal has a value, and its variable is in no gate any more; no gate is lost, and all gates stay implied |
| `Congruence.Closure.SimplifyGates` | src/congruence.c:4149-4159 | all gates listed for an assigned literal are simplified, none of them has it as an input afterwards, and the list is released; no gate is lost |
| `Congruence.Closure.SimplifyNext` | src/congruence.c:4154-4156 | one gate of the list: it loses the literal but is not lost itself, and no gate gets the negation of the literal as an input |
| `Congruence.Closure.RewriteGates` | src/congruence.c:4161-4174 | all gates listed for src are rewritten to dst, none of them has src as an input afterwards, and they are connected to dst if they contain it; no gate is lost |
| `Congruence.Closure.RewriteNext` | src/congruence.c:4166-4171 | one gate of the list: it loses src, is connected to dst if that became an input, and no gate gets the negation of src; the gate is not lost |
| `Congruence.SimplifyIteAccounted` | src/congruence.c:1827-1925 | what becomes of a simplified ITE gate still says what the gate said |
| `Congruence.RewriteIteAccounted` | src/congruence.c:1927-2158 | what becomes of a rewritten ITE gate still says what the gate said |
| `Congruence.SelfInputMisleads` | src/congruence.c:1453-1461 | two gates over the same roots whose outputs are not merged, because the first has got its own output as an input and is dropped |
| `Congruence.XorDropped` | src/congruence.c:1453-1461 | a rewritten XOR gate that is dropped because its output got merged with the literal rewritten comes from a gate that has got its own output as an input |
| `Congruence.RewriteAndAccounted` | src/congruence.c:1550-1618 | what becomes of a rewritten AND gate still says what the gate said: a unit, an equivalence, a gate merged with it, or the gate itself |
| `Congruence.KeepsOthers` | src/congruence.c:4161-4180 | changing one gate loses no gate, if this one is accounted for and still comes from its former self |
| `Congruence.Closure.MergeLiterals` | src/congruence.c:877-950 | afterwards the literals have one representative or one value or the clauses are inconsistent; literals represented alike stay so; units and binary clauses added are implied |
| `Congruence.Closure.JoinRoots` | src/congruence.c:922-950 | the smaller root represents the larger one; symmetric, decreasing, and two roots fewer for one literal scheduled |
| `Congruence.MergedRoot` | src/congruence.c:938-941 | after a merge the root of every literal is the old one, with the larger root and its negation redirected |
| `Congruence.Closure.FindRepr` | src/congruence.c:732-738 | ends at the root of the literal |
| `Congruence.RootHolds` | src/congruence.c:732-738 | a literal and its root have the same value in every model of the merges |
| `Congruence.Closure.LearnUnit` | src/congruence.c:794-816 | an implied unit is true afterwards, and if it was new no clause is falsified or unit any more; or the clauses are inconsistent |
| `Congruence.Closure.AddBinaryClause` | src/congruence.c:818-850 | an implied binary clause is added unless it is satisfied, trivial or a unit |
| `Congruence.Closure.SimplifyAnd` | src/congruence.c:1518-1548 | inputs without a value stay; a false input makes the output false; the gate is settled, merged or garbage |
| `Congruence.Closure.RewriteAnd` | src/congruence.c:1550-1618 | src becomes dst; opposite inputs or an input opposite to the output make the output false |
| `Congruence.Closure.UpdateAnd` | src/congruence.c:1483-1516 | an AND gate that changed becomes a unit, an equivalence, a duplicate merged away, or is indexed anew |
| `Congruence.Closure.SimplifyXor` | src/congruence.c:1729-1756 | inputs with values go, true ones negate the output |
| `Congruence.Closure.RewriteXor` | src/congruence.c:1758-1818 | src becomes dst with its sign moved to the output; two equal inputs cancel; every input other than dst stays connected |
| `Congruence.Closure.ReplaceInputs` | src/congruence.c:1804-1812 | the new inputs are settled as a constant, an equivalence, a duplicate or an indexed gate, connected with the positive literal of dst if that is negated |
| `Congruence.Closure.UpdateXor` | src/congruence.c:1691-1727 | an XOR gate that changed becomes a unit, an equivalence, a duplicate merged away, or is indexed anew |
| `Congruence.Closure.SimplifyIteGate` | src/congruence.c:1827-1925 | the outcome is carried out on the gate, the values and the merges |
| `Congruence.Closure.RewriteIteGate` | src/congruence.c:1927-2158 | the outcome is carried out; an ITE gate that turned into an AND gate also gets its binary clauses |
| `Congruence.Closure.SettleRewritten` | src/congruence.c:2076-2155 | what an ITE gate has become is merged with a gate like it, or indexed and connected with the inputs that are new |
| `Congruence.RewrittenSound` | src/congruence.c:1550-1618 | in all models of merges and values the rewritten AND gate holds, or its output is false |
| `Congruence.XorRewrittenSound` | src/congruence.c:1758-1818 | the rewritten XOR gate holds in all models in which src and dst are equal |
| `Congruence.XorSimplifiedSound` | src/congruence.c:1729-1756 | the simplified XOR gate holds in all models of the values |
| `Congruence.Closure.Settle` | src/congruence.c:1500-1516 | a gate with a counterpart is merged with it and becomes garbage; otherwise it is indexed |
| `Congruence.Closure.FindOrIndex` | src/congruence.c:486-549 | another live gate with the same tag and inputs is found if there is one; otherwise the gate is (re)indexed under its new hash value |
| `Congruence.Closure.NewGate` | src/congruence.c:959-999 | the gate or one with the same inputs and an equal output is there afterwards, and the gate is connected with all inputs and nothing else; gates stay pairwise different |
| `Congruence.Closure.NewAndGate` | src/congruence.c:1005-1031 | the AND gate of the negated other literals of a clause is there afterwards |
| `Congruence.Closure.NewXorGate` | src/congruence.c:1191-1220 | the XOR gate is there afterwards |
| `Congruence.Closure.NewIteGate` | src/congruence.c:1347-1396 | the normalized ITE gate is there afterwards, or with equal branches the equivalence; opposite branches are left to XOR gates |
| `GateTable.Index.FindGate` | src/congruence.c:486-523 | returns a live indexed gate other than the excepted one that matches if and only if there is one; the probing ends; garbage on the way becomes a tombstone |
| `GateTable.Index.RemoveGate` | src/congruence.c:462-484 | an indexed gate is found where its probing leads and replaced by a tombstone |
| `GateTable.Index.IndexGate` | src/congruence.c:525-549 | there is always a slot, after doubling if the table is half full |
| `GateTable.Index.Resize` | src/congruence.c:419-460 | twice the slots, no tombstones, the same gates |
| `GateTable.PlacedInsert` | src/congruence.c:534-549 | filling the first free or tombstone slot on the probe sequence keeps every indexed gate reachable |
| `AndExtraction.AndFinder.Extract` | src/congruence.c:2526-2671 | enters the gates of exactly those unassigned literals whose negation forms binary clauses with the negations of all others, unless the clause is satisfied, too small or too large, or an inconsistency is found; each gate is implied |
| `AndExtraction.AndFinder.TryOutputs` | src/congruence.c:2614-2659 | early aborts and the filtering of candidates lose no output |
| `AndExtraction.AndFinder.FindFirst` | src/congruence.c:2338-2378 | the gate is entered if and only if all binary clauses are there; the candidates are the literals seen |
| `AndExtraction.AndFinder.FindRemaining` | src/congruence.c:2380-2455 | a literal that is no candidate is skipped; otherwise the gate is entered if and only if all binary clauses are there, and only candidates seen again are kept |
| `AndExtraction.CountingExact` | src/congruence.c:2349-2378 | counting hits decides for every base clause with the output whether all its binary clauses are there, if and only if no binary clause of the output is listed twice; some variable must have no binary clause with the output |
| `AndExtraction.CountHits` | src/congruence.c:2349-2378 | without repetition there are as many hits as inputs if and only if every binary clause is there |
| `AndExtraction.DuplicateMisleads` | src/congruence.c:2360-2377 | whenever a binary clause is listed twice, the count of a base clause with its literal and a variable without a binary clause is reached although a clause is missing |
| `AndExtraction.AndFinder.ReadBase` | src/congruence.c:2531-2575 | gives the unassigned literals of an implied clause, or shows that the clause is satisfied, of the wrong size or without any output |
| `AndExtraction.AndFinder.MarkBase` | src/congruence.c:2576-2600 | marks the negated literals and moves those that cannot be outputs to the front, in place |
| `AndExtraction.AndFinder.SortByCount` | src/congruence.c:2473-2478 | the possible outputs are reordered by increasing numbers of binary clauses |
| `AndExtraction.AndFinder.constructor` | src/congruence.c:3012-3035 | each binary clause is in the lists of both literals and counted for their negations |
| `IteExtraction.IteFinder.ExtractOfVariable` | src/congruence.c:3686-3703 | whenever the four ternary clauses of an ITE gate with this condition are connected, the gate is entered (or the equivalence it is), unless an inconsistency is found; each gate is implied |
| `IteExtraction.IteFinder.ExtractOfLiteral` | src/congruence.c:3658-3684 | the same, starting from either sign of the condition |
| `IteExtraction.IteFinder.MergeEquivalences` | src/congruence.c:3630-3656 | walking both sorted lists enters the gate of every two equivalences that share a literal |
| `IteExtraction.IteFinder.ExtractEquivalences` | src/congruence.c:3496-3596 | going through the groups lists the equivalence of every two pairs with opposite literals, and its inverse; every one listed holds under the condition |
| `IteExtraction.IteFinder.SearchEquivalences` | src/congruence.c:3454-3494 | lists exactly the matches between the groups of a literal and of its negation |
| `IteExtraction.IteFinder.FindSecond` | src/congruence.c:3437-3452 | binary search finds a second literal if and only if it is in the group |
| `IteExtraction.IteFinder.CopyPairs` | src/congruence.c:3375-3414 | the two other literals of every connected clause, in order; with the condition literal they form an implied clause |
| `IteExtraction.IteFinder.FindEquivalences` | src/congruence.c:3598-3628 | all equivalences under the condition, sorted |
| `Xor.Extractor.ExtractXorGates` | src/congruence.c:2823-2950 | every gate emitted, one per literal of the base clause, holds in all models of the active clauses; if the counts suffice and all side clauses are connected, these gates are emitted |
| `Xor.Extractor.FindSides` | src/congruence.c:2902-2927 | succeeds only if every pattern of the base clause's parity has a side clause, and always if an exact side clause of each is connected; restores the base clause |
| `Xor.Extractor.FindSide` | src/congruence.c:2744-2819 | the clause found has, but for falsified literals, only literals of the pattern; none is found only if no exact side clause is connected |
| `Xor.Extractor.ReadBase` | src/congruence.c:2829-2898 | succeeds if and only if the clause has no true literal, three to size-limit many unassigned ones, and no negated one but the largest; gives the unassigned literals and their parity |
| `Xor.Extractor.Frequent` | src/congruence.c:2884-2898 | true if and only if every literal and its negation are counted in at least half as many clauses as there are patterns |
| `XorCounting.HalfWith` | src/congruence.c:2884-2898 | a literal is in exactly half of the patterns of the base clause |
| `XorCounting.SidesCounted` | src/congruence.c:2884-2898 | the test on counts never rejects a base clause all of whose side clauses are connected and counted |
| `Xor.Extractor.IncLits` | src/congruence.c:561-574 | increments the sign pattern as a binary number |
| `Xor.VisitsAll` | src/congruence.c:2902-2925 | every sign pattern of the starting parity is visited exactly once |
| `Xor.VisitsAround` | src/congruence.c:2926-2927 | after the last pattern comes the first |
| `Xor.OddTrue` | src/congruence.c:2902-2925 | if all patterns of a parity are satisfied an odd number of literals is true |
| `Extraction.XorFinder.Extract` | src/congruence.c:2823-2950 | if all side clauses are connected, the gates of all literals of the base clause are in the closure afterwards, or the clauses are inconsistent; gates stay implied |
| `Extraction.ExtractedSound` | src/congruence.c:1191-1220 | an extracted XOR gate meets what the closure demands of a gate |
| `Extraction.XorFinder.EnterGates` | src/congruence.c:2938-2947 | every gate is there afterwards, or the clauses are inconsistent |
| `ModelExtension.ExtendModel` | src/extend.c:44-181 | after any sequence of eliminations, extending a model of the remaining clauses gives a model of the original ones |
| `Elimination.Eliminator.FastEliminate` | src/fastel.c:421-458 | keeps, or ends inconsistent: replaying the witnesses turns models of the formula into models of the original; no consequence is lost, and the variable is gone |
| `Elimination.Eliminator.WeakenClauses` | src/eliminate.c:257-327 | the same with one polarity stored and a default unit for the other |
| `Elimination.Eliminator.Resolve` | src/fastel.c:364-389 | two clauses with the pivot leave their resolvent, a subsuming clause, a unit or an inconsistency, and the formula stays equivalent |
| `Elimination.Eliminator.ResolveBinaryBinary` | src/fastel.c:148-205 | the case of two binary clauses |
| `Elimination.Eliminator.ResolveBinaryLarge` | src/fastel.c:207-271 | the case of one binary clause, including the deletion of satisfied clauses |
| `Elimination.Eliminator.ResolveLargeLarge` | src/fastel.c:273-362 | the case of two large clauses, with marks set and cleared |
| `Elimination.Eliminator.ResolveAll` | src/fastel.c:421-451 | all pairs are resolved, up to an inconsistency |
| `Elimination.Eliminator.RemoveVariable` | src/fastel.c:452-458 | the clauses with the pivot become garbage, and those not satisfied at the root level are stored as witnesses |
| `Elimination.Eliminator.DeleteClauses` | src/fastel.c:391-419 | deletes exactly the clauses listed; stores each that is not satisfied, blocking literal first |
| `Elimination.Eliminator.WeakenClause` | src/weaken.c:36-44 | the clause without falsified literals is pushed, blocking literal first |
| `Elimination.Eliminator.constructor` | src/fastel.c:822-850 | with nothing eliminated the formula is the original one |
| `Elimination.ResolventSound` | src/fastel.c:148-205 | a resolvent is true in all models |
| `Elimination.RemovalEliminates` | src/fastel.c:391-419 | removing a resolved variable and storing its clauses meets the conditions for replay |
| `Reconstruction.EliminationReplay` | src/extend.c:69-169 | replaying the witnesses of one variable satisfies all clauses it was removed with and falsifies none |
| `Reconstruction.StepKeeps` | src/extend.c:80-168 | one witness: a free later-eliminated literal or the blocking literal is made true, true clauses stay true |
| `Reconstruction.FlipKeeps` | src/extend.c:140-168 | flipping a blocking literal is safe because a resolvent holds |
| `Reconstruction.RunStep` | src/extend.c:44-181 | one more elimination extends a run |
| `Extend.ExtendSound` | src/extend.c:44-181 | the replayed assignment satisfies the original formula |
| `Extend.Extender.Extend` | src/extend.c:44-181 | the backward loop over the stack computes the replay of all witnesses |
| `Extend.Extender.ReplayClause` | src/extend.c:70-168 | reads one clause backwards and assigns the literal that the replay picks |
| `Extend.Extender.ReadClause` | src/extend.c:70-133 | satisfied if and only if a literal is true, else the picked free eliminated literal |
| `Extend.Extender.UndoEliminatedAssignment` | src/extend.c:4-26 | all eliminated variables lose their values |
| `SolverCore.Solver.Backtrack` | src/backtrack.c:72-148 | keeps exactly the literals of level at most the new level, in order and with exact positions, and restarts propagation at the first of the cut; the trail invariant stays |
| `SolverCore.Solver.Assign` | src/inlineassign.h:8-78 | a literal with an admissible reason keeps the invariant of the out-of-order trail: reasons precede, levels are maxima, positions are exact |
| `SolverCore.Solver.AssignBinary` | src/assign.c:32-45 | with or without jumping over a binary reason the literal gets the level of the other one, and the reason is an implied clause |
| `SolverCore.Solver.AssignReference` | src/assign.c:47-59 | the level is the maximum of the levels of the other literals |
| `SolverCore.Solver.AssignmentLevel` | src/inlineassign.h:80-98 | computes this maximum |
| `SolverCore.Solver.AssignUnit` | src/assign.c:8-14 | an implied literal goes to the root level wherever it is on the trail |
| `SolverCore.Solver.Decide` | src/assign.c:26-30 | a decision opens a level at the end of the trail |
| `SolverTrail.PutKeeps` | src/inlineassign.h:8-78 | an assignment keeps the trail invariant |
| `SolverTrail.JumpedReason` | src/assign.c:32-45 | the other literal of the reason of the other literal is a valid reason of the same level |
| `SolverTrail.BacktrackedReason` | src/backtrack.c:91-134 | reasons of kept literals are kept and still precede them |
| `SolverCore.Solver.DeduceFirstUipClause` | src/deduce.c:70-168 | exact: the deduced clause is what is left of the conflict where, going down the trail, one literal on the conflict level is left for the first time; or, if the option is set and that comes earlier, the first reason with more literals above the root level than are left is strengthened, and reported to subsume the conflict if and only if it is the first one and the conflict is longer, too; the clause is entailed, all its literals are false, and exactly its first one is on the conflict level |
| `SolverCore.Solver.AnalyzeLiteral` | src/deduce.c:39-68 | marks a new literal, extends resolvent and clause, and counts it |
| `SolverCore.Solver.ResolveReason` | src/deduce.c:111-136 | one resolution step: the resolvent stays entailed and is exactly what is left of the conflict, with sizes counted exactly |
| `SolverCore.Solver.NextUip` | src/deduce.c:104-108 | walking back along the trail finds the next literal of the conflict level in the resolvent |
| `SolverDeduce.UipLearned` | src/deduce.c:109-162 | with one literal open the clause in the buffer is a first unique implication point clause |
| `SolverDeduce.LeavingResolved` | src/deduce.c:111-136 | resolving with a reason gives what is left of the conflict one step down the trail |
| `SolverDeduce.WalkLeft` | src/deduce.c:104-108 | what is left of the conflict does not change on the part of the trail walked over |
| `SolverDeduce.CountedStrengthens` | src/deduce.c:143-149 | the size test implies that the resolvent is exactly the reason without the resolved literal, but for root literals |
| `SolverDeduce.CountedSubsumes` | src/deduce.c:150-154 | the second size test implies that it is the conflict without the negated literal, too |
| `SolverCore.Solver.LearnClause` | src/learn.c:190-210 | after backtracking the learned clause is asserting: first literal true at the highest level of the others, which are all false |
| `SolverCore.Solver.LearnReference` | src/learn.c:81-116 | for large clauses: a literal of the jump level is moved to the second place and the clause stored |
| `SolverCore.Solver.LearnBinary` | src/learn.c:56-68 | for binary clauses |
| `SolverCore.Solver.LearnUnit` | src/learn.c:44-54 | for units, assigned at the root level even if fewer levels are undone |
| `SolverCore.Solver.DetermineNewLevel` | src/learn.c:16-42 | the jump level, or one level less if jumping would undo too many |
| `SolverCore.Solver.OneLiteralOnConflictLevel` | src/analyze.c:16-128 | a conflict forces a literal after backtracking if and only if only one of its literals is on its highest level; otherwise the solver is on the conflict level with several literals there, or on no level and the formula is unsatisfiable |
| `SolverCore.Solver.ForceLiteral` | src/analyze.c:105-127 | after backtracking the only literal on the conflict level is true, by the conflict as its reason, and the others are false on lower levels |
| `SolverCore.Solver.FindConflictLevel` | src/analyze.c:21-50 | the highest level, how many literals are on it, and the second highest if it is one |
| `Analysis.Analyzer.Analyze` | src/analyze.c:527-579 | always ends, through any number of reasons strengthened to new conflicts; either the formula is unsatisfiable, or the solver has backtracked below the level of the conflict, is ready for the next one, and an implied clause all of whose literals were false has one true and the others false; this clause is the conflict reached by strengthening, a unit found on level one, or the first clause with one literal on the conflict level, minimized if asked |
| `Analysis.Analyzer.AnalyzeFailedLiteral` | src/analyze.c:390-517 | the units are exactly the negated decision and each literal that is the only one left when the conflict is resolved back along the trail; all are implied, and true at the root level afterwards |
| `Analysis.Analyzer.ReadFailedConflict` | src/analyze.c:410-426 | flags the literals of the conflict above the root level and counts them, or stops at the negated decision if that is one of them |
| `Analysis.Analyzer.NextAnalyzed` | src/analyze.c:431-437 | finds the next flagged literal further down the trail, which is one of the resolvent |
| `Analysis.Analyzer.ResolveFailed` | src/analyze.c:438-496 | a literal is noted as a unit if and only if it is left alone; resolving with the reason keeps the resolvent implied, exactly what is left, and leaves a literal of the level, or stops at the negated decision |
| `Analysis.Analyzer.ReadFailedReason` | src/analyze.c:443-492 | flags and counts the other literals of a binary or large reason, and adds no others, or stops at the negated decision if that is one of them |
| `Analysis.Analyzer.LearnUnits` | src/analyze.c:508-512 | after backtracking to the root level all units are assigned there |
| `Analysis.Analyzer.LearnDeduced` | src/analyze.c:560-575 | the clause learned is the deduced one, minimized exactly if asked; it is asserting, and the analysis is reset |
| `Analysis.Analyzer.Minimize` | src/analyze.c:560-562 | on the trail of the solver, minimizing a deduced clause leaves a first unique implication point clause of some of its literals, still implied, without the literals that are redundant within the depth allowed |
| `Analysis.Analyzer.TakeStrengthened` | src/analyze.c:552-575 | the new conflict consists of the literals of the reason but for the resolved one and those of the root level, is stored if it is large, and lies strictly further down the trail; the analysis is reset |
| `Analysis.Analyzer.Strengthen` | src/strengthen.c:29-40 | the literals of the reason without the resolved one and without those of the root level |
| `Analysis.Analyzer.CountUsed` | src/deduce.c:55-66 | how many literals of the clause are on each level |
| `Analysis.Analyzer.ResetAnalyzed` | src/analyze.c:326-338 | no variable is flagged afterwards, and the trail is as before |
| `Analysis.StrengthenedConflict` | src/analyze.c:552-558 | the reason without its literal has at least two literals, all false and before that literal on the trail |
| `FailedLiteral.DecisionFails` | src/analyze.c:390-416 | on level one everything follows from the decision, so a conflict there refutes it |
| `FailedLiteral.DecisionBelow` | src/analyze.c:428-437 | from every literal of level one reasons lead back to the decision |
| `FailedLiteral.OneLeft` | src/analyze.c:438-442 | the only literal left of the conflict is implied and not among the units found before |
| `FailedLiteral.ExactNext` | src/analyze.c:438-442 | a literal is left alone if and only if one is counted as unresolved |
| `FailedLiteral.AllUnits` | src/analyze.c:438-498 | once the negated decision is met no other literal is left alone any more, so stopping there misses no unit |
| `FailedLiteral.FailingResolved` | src/analyze.c:443-494 | a resolution step on level one never empties the resolvent |
| `WatchRepair.Repairer.RepairWatches` | src/analyze.c:72-103 | afterwards the conflict is watched by two literals of its highest levels, is listed exactly there, has the same literals, and no other watch has changed |
| `WatchRepair.Repairer.RepairWatch` | src/analyze.c:73-102 | a literal of the highest level behind the first i goes to position i and is watched |
| `WatchRepair.Repairer.FindHighest` | src/analyze.c:74-89 | the position of a literal of the highest level, in spite of stopping at the conflict level |
| `WatchRepair.Repairer.Exchange` | src/analyze.c:92-101 | the literal that leaves the front loses its watch and the other one gets one |
| `WatchRepair.Repairer.UnwatchBlocking` | src/watch.c:44-79 | only the entries of this clause are removed from the list, in place |
| `Minimize.Minimizer.MinimizeClause` | src/minimize.c:155-211 | keeps the first literal; of the others it drops only those of the root level and redundant ones (above the root level, with a reason, not alone on their level, and all other literals of the reason root-level, in the clause or redundant); with a depth above one those of the root level and those whose reason has only root-level literals and literals of the clause besides are dropped; with a depth beyond the trail exactly the irredundant ones are kept, in order; the rest is entailed by every formula that entails the clause and the reasons |
| `Minimize.Minimizer.MinimizeLiteral` | src/minimize.c:95-134 | recursion down the trail: success means the literal is implied by flagged ones and is redundant; for lack of depth only can a redundant one be refused; a literal with a direct reason is never refused |
| `Minimize.Minimizer.MinimizeBinary` | src/minimize.c:60-93 | follows a chain of binary reasons and flags all of it with the outcome, which is that for the literal at its end |
| `Minimize.Minimizer.MinimizeReference` | src/minimize.c:45-58 | all other literals of the reason have to be removable, and with enough depth that is enough |
| `Minimize.Minimizer.MinimizedIndex` | src/minimize.c:4-40 | decides exactly: removable for root literals and those flagged before below the top; not for decisions, poisoned ones and those alone on their level; undecided otherwise |
| `Minimize.MinimizedEntailed` | src/minimize.c:155-211 | dropping all removable literals at once leaves an entailed clause, although flags rest on literals dropped, too |
| `Minimize.SafeFalse` | src/minimize.c:95-134 | by induction along the trail a flagged literal is false whenever the kept literals are |
| `Minimize.RedundantReason` | src/minimize.c:95-134 | a literal above the root level that is not alone on its level is redundant if and only if all other literals of its reason are root-level, in the clause or redundant |
| `MinimizeTrail.TrailView` | src/minimize.c:95-134 | the out-of-order trail meets what minimization needs |
| `MinimizeTrail.UipMinimizable` | src/minimize.c:155-211 | a deduced clause may be minimized and keeps exactly one literal on the conflict level |
| `Factoring.Factorizer.FactorLiteral` | src/factor.c:925-948 | one round: it is applied if and only if a fresh variable is available, more than one clause has the first factor, and some prefix of the factors tried saves more clauses than the bound, in terms of the old formula; then the first prefix with the largest saving is factored out, the number of clauses falls by exactly this saving, and the old formula is satisfied by exactly the assignments that satisfy the new one for some value of the fresh variable; otherwise nothing changes |
| `Factoring.Factorizer.ApplyFactoring` | src/factor.c:820-840 | n times k clauses become n plus k, and the number falls by exactly the reduction computed |
| `Factoring.Factorizer.FactorizeNext` | src/factor.c:500-605 | the next quotient has exactly the matches of the clauses of the last one |
| `Factoring.Factorizer.MatchLarge` | src/factor.c:537-596 | a large clause with the factor replaced is found if and only if the formula has it |
| `Factoring.Factorizer.BestQuotient` | src/factor.c:607-643 | the first quotient with the largest positive reduction |
| `Factoring.Factorizer.FlushUnmatched` | src/factor.c:681-706 | keeps the matched clauses of the previous quotient and their matches, in place |
| `Factoring.Factorizer.FlushChain` | src/factor.c:827-828 | after flushing backwards all quotients up to the chosen one list the clauses of the same rests at the same index |
| `Factoring.Factorizer.AddFactored` | src/factor.c:829-832 | adds exactly the clauses of the fresh literal with each factor and of its negation with each rest |
| `Factoring.Factorizer.AddFactoredQuotient` | src/factor.c:718-754 | adds each rest with the negated fresh literal |
| `Factoring.Factorizer.AddDividers` | src/factor.c:708-716 | adds the clauses of the fresh literal with each factor |
| `Factoring.Factorizer.DeleteProducts` | src/factor.c:833-834 | deletes exactly the products of factors and rests |
| `Factoring.Factorizer.DeleteUnfactored` | src/factor.c:775-798 | deletes exactly the clauses of one quotient, lists and clauses staying consistent |
| `Factoring.Factorizer.FirstFactor` | src/factor.c:211-235 | the first quotient holds all clauses with the factor |
| `FactorModel.FactoringKeepsModels` | src/factor.c:820-840 | the models of the old formula are those of the new one restricted |
| `Factoring.NextComplete` | src/factor.c:500-605 | the next quotient lists all rests shared by one factor more, if the chain before listed all shared |
| `Factoring.ReductionSaved` | src/factor.c:607-643 | the reduction computed from quotients is the number of clauses saved, in terms of the rests that the factors share in the formula |
| `FactorModel.FactoredExtends` | src/factor.c:708-754 | a model is extended by making the fresh variable false exactly if all factors are true |
| `FactorModel.FactoredRestricts` | src/factor.c:775-840 | a model of the new clauses satisfies all products |
| `Factoring.FlushedAligned` | src/factor.c:681-706 | flushing one quotient aligns it with those behind |
| `Factoring.NextChain` | src/factor.c:520-598 | a quotient of all matches continues the chain |
| `ProofChecker.Checker.CheckAndAdd` | src/check.c:828-902 | with the values that root-level propagation leads to: the clauses stay satisfiable if each literal of the clause that is false there has its negation in a large line; if all literals are false there, exactly if the clauses were unsatisfiable or no literal is blocked; an accepted clause counts like the clause without its false literals; a clause with a blocked literal is never refused |
| `ProofChecker.CheckedExact` | src/check.c:828-902 | these conditions for any verdict that agrees with unit propagation, in terms of the state before the check |
| `ProofChecker.RootExact` | src/check.c:787-883 | adding a clause falsified at the root level keeps the clauses satisfiable if and only if they were not, or no literal of it is blocked |
| `ProofChecker.FalsifiedContradicts` | src/check.c:838-883 | a clause falsified at the root level has no model in common with the clauses |
| `ProofChecker.NonFalseExact` | src/check.c:838-883 | with or without its literals that are false at the root level, a clause leaves the same models |
| `ProofChecker.FailedNoneBlocked` | src/check.c:866-883 | a refused clause has no literal that is blocked under the root-level values |
| `ProofChecker.Checker.CheckLine` | src/check.c:828-883 | a clause follows only if unit propagation of its negation cannot end without a conflict; it is refused or accepted as blocked exactly according to the first blocked literal under the least values closed under propagation that falsify it; a clause falsified at the root level is refused if and only if no literal of it is blocked; the checker is back at the root level, fully propagated |
| `ProofChecker.Checker.Refute` | src/check.c:866-881 | the last part: follows only if no values closed under propagation falsify the clause; otherwise the least ones that do give the verdict |
| `ProofChecker.VerdictMeans` | src/check.c:828-883 | an accepted clause keeps the clauses satisfiable if each literal of it that is false at the root level has its negation in a large line; one falsified there is refused if and only if none is blocked |
| `ProofChecker.Checker.BlockedLiteral` | src/check.c:787-819 | no large line has the negation, and all lines it watches have another literal that is true, if and only if the answer is yes |
| `CheckerModel.BlockedKeeps` | src/check.c:787-883 | a model of the clauses that falsifies the new one can be changed to satisfy it as well, if the blocked literal has no value at the root level |
| `CheckerModel.FalseAddsNothing` | src/check.c:787-819 | a literal false at the root level contributes nothing: the clause with it has exactly the models of the clause without it |
| `CheckerModel.RootBlockedMisleads` | src/check.c:787-819 | with only a unit clause added, the clause of its negation has a blocked literal, although the two have no common model |
| `ProofChecker.Checker.Propagate` | src/check.c:675-730 | true: the values are the least extension of the given ones under which no stored clause is falsified or unit, whatever the order of propagation; false: there is no such extension, and a clause is falsified; every value follows from clauses and decisions |
| `CheckerModel.ClosureUnique` | src/check.c:675-730 | the values that propagation leads to are determined by clauses and first values |
| `CheckerModel.BlockedLines` | src/check.c:787-819 | looking only at watched lines is enough: a literal passes if and only if its negation is in no large line and every line with the negation has another true literal |
| `CheckerModel.LineBlockedLater` | src/check.c:866-881 | a literal blocked under some values stays so under more |
| `ProofChecker.Checker.PropagateNext` | src/check.c:681-725 | one literal: the watch invariant holds for it, too, or a clause is falsified |
| `ProofChecker.Checker.VisitLine` | src/check.c:689-724 | one bucket: the other watch is true, a replacement is watched, the clause is unit or falsified |
| `ProofChecker.Checker.Backtrack` | src/check.c:771-785 | values and trail are as before the decisions, and nothing has to be propagated again |
| `ProofChecker.Checker.DecideNegations` | src/check.c:838-865 | negations are assigned up to a satisfied or pure literal |
| `ProofChecker.Checker.AddImported` | src/check.c:474-504 | the clause is stored, assigned, ignored or makes the checker inconsistent, so that the state stands for all clauses added |
| `ProofChecker.Checker.SimplifyImported` | src/check.c:378-441 | a satisfied, trivial, unit or falsified clause is dealt with; otherwise two unassigned literals come first |
| `ProofChecker.Checker.InsertImported` | src/check.c:474-494 | the line is watched by its first two literals and put into the table |
| `ProofChecker.Checker.RemoveLine` | src/check.c:608-625 | removes a line with these literals if and only if there is one; lines and units that remain follow from what was there, and are all the checker stands for |
| `ProofChecker.Checker.RemoveImported` | src/check.c:764-769 | exact: an inconsistent checker, or one that propagation makes inconsistent, agrees; otherwise the values are those of root-level propagation, a unit has to be true, the empty clause is refused, satisfied and trivial clauses are not removed, and any other is removed if and only if there is a live line with its literals; models of the clauses stay models |
| `CheckerModel.PropagatedQuiet` | src/check.c:675-730 | a fully propagated checker has no falsified or unit clause: watched propagation is as strong as naive propagation |
| `CheckerModel.ConflictRefutes` | src/check.c:675-730 | a falsified clause refutes the decisions together with the clauses |
| `CheckerModel.InsertSound` | src/check.c:474-494 | inserting keeps all values justified |
| `ProofChecker.RemovedKeeps` | src/check.c:608-625 | without the line all invariants hold for the lines and units that remain |
| `LineTable.Index.FindLine` | src/check.c:588-606 | a live line with the same hash value and literals is found if and only if there is one, and taken out of its chain on demand |
| `LineTable.Index.Resize` | src/check.c:246-263 | twice the chains, the same lines |
| `LineTable.Index.Insert` | src/check.c:474-494 | the line is in front of its chain |
| `LineTable.Index.Reduce` | src/check.c:234-244 | the loop computes the reduced hash value |
| `LineTable.ReducedTop` | src/check.c:234-244 | this value consists of the highest 32, 16, 8, 4, 2 or 1 bits, as many as stay below the modulus |
| `Backbone.Prober.Round` | src/backbone.c:371-508 | a round: units learned are implied by the binary clauses; a candidate that is dropped does not fail, or its negation is implied and in every set of literals closed under implication that contains the units and the root values; kept ones are negations of literals that do not fail, fewer candidates are left, and all assignments are undone |
| `Backbone.Prober.ProbeCandidates` | src/backbone.c:381-476 | the in-place compaction keeps what is not settled: what is dropped does not fail or is refuted by the units recorded; it ends inconsistent only if the clauses are |
| `Backbone.Prober.FlushSatisfied` | src/backbone.c:477-506 | removes exactly the candidates that are true |
| `Backbone.Prober.Probe` | src/backbone.c:416-457 | a successful probe leaves everything closed under implication; a failed one appends the negation of a dominator of the conflict to the units, from which the negated probe follows, too; a conflict after forcing it means the binary clauses have no model |
| `Backbone.Prober.Propagate` | src/backbone.c:205-237 | closes the trail under binary implication or finds a violated clause |
| `Backbone.Prober.PropagateLiteral` | src/backbone.c:153-203 | assigns everything the literal implies, reasons forming a tree, or finds a violated clause |
| `Backbone.Prober.Analyze` | src/backbone.c:261-299 | the literal found is on both chains of reasons that end in the conflict, and the last such one |
| `Backbone.Prober.Backtrack` | src/backbone.c:239-259 | cuts the trail back, and what is left is still closed |
| `Backbone.UipEntailed` | src/backbone.c:439-447 | the negations of the dominator and of the probe are implied |
| `Backbone.TreeBack` | src/backbone.c:153-203 | contraposition along the tree of reasons: a set closed under implication that contains the negation of a literal contains that of its predecessors |
| `Backbone.ProbeKnown` | src/backbone.c:416-447 | the negation of a failed probe follows from the negation of the dominator by binary clauses |
| `Backbone.ForcedConflict` | src/backbone.c:444-454 | a conflict after forcing an implied literal refutes the clauses |
| `Backbone.NotFailedPaths` | src/backbone.c:416-432 | from a literal that does not fail no two chains of implications end in opposite literals |
| `DecisionOrder.Decider.NextDecisionVariable` | src/decide.c:126-153 | finds a random active unassigned variable if asked to, otherwise the unassigned variable enqueued last, or one with the largest score |
| `DecisionOrder.Decider.NextRandomDecision` | src/decide.c:115-123 | ends with the first draw that is an active unassigned variable |
| `DecisionOrder.Decider.LastEnqueuedUnassigned` | src/decide.c:9-30 | all variables behind the one found are assigned, and the search position is updated |
| `DecisionOrder.Decider.LargestScoreUnassigned` | src/decide.c:32-55 | pops assigned variables only; no unassigned variable has a larger score |
| `DecisionOrder.Decider.Unassign` | src/backtrack.c:11-36 | the variable goes back to the heap or becomes the search position if it is behind it, so no unassigned variable is lost |
| `DecisionOrder.Decider.Enqueue` | src/inlinequeue.h:60-69 | the queue with its cached position stays valid |
| `DecisionOrder.Decider.Dequeue` | src/inlinequeue.h:71-88 | a neighbour replaces a removed search position without losing an unassigned variable |
| `DecisionOrder.Decider.MoveToFront` | src/inlinequeue.h:90-115 | the variable becomes the last of the queue; the invariant stays |
| `DecisionOrder.Decider.EnqueueLinks` | src/inlinequeue.h:16-35 | appended with a new stamp; when stamps run out all are reassigned |
| `DecisionOrder.Decider.DequeueLinks` | src/inlinequeue.h:37-58 | unlinked, the others keep order and stamps |
| `DecisionOrder.Decider.ReassignQueueStamps` | src/queue.c:22-35 | stamps from 1 in the order of the list, and the cached stamp follows |
| `DecisionOrder.Decider.Activate` | src/flags.c:5-34 | a new variable is queued and in stable mode on the heap |
| `DecisionOrder.Decider.Deactivate` | src/flags.c:36-48 | an inactive variable leaves queue and heap |
| `DecisionOrder.Decider.BumpScore` | src/bump.c:55-65 | only this score changes and the heap stays ordered |
| `DecisionOrder.Decider.SwitchToFocused` | src/mode.c:150-166 | the search position is reset so that the invariant of focused mode holds |
| `DecisionOrder.Decider.SwitchToStable` | src/mode.c:168-184 | all active variables are on the heap |
| `DecisionOrder.SearchedNeighbour` | src/inlinequeue.h:71-88 | either neighbour may replace a removed search position under the condition the code checks |
| `DecisionOrder.UnassignKeeps` | src/backtrack.c:20-27 | comparing stamps with the cached one is right |
| `ScoreHeap.VariableHeap.Push` | src/inlineheap.h:85-93 | adds the variable; order and position index stay valid |
| `ScoreHeap.VariableHeap.Pop` | src/inlineheap.h:95-112 | removes any variable |
| `ScoreHeap.VariableHeap.PopMax` | src/inlineheap.h:114-134 | removes a variable with the largest score |
| `ScoreHeap.VariableHeap.Update` | src/inlineheap.h:153-174 | changes one score, on the heap or not, and restores the order |
| `ScoreHeap.VariableHeap.BubbleUp` | src/inlineheap.h:12-35 | moving holes up restores the order above |
| `ScoreHeap.VariableHeap.BubbleDown` | src/inlineheap.h:37-74 | moving holes down restores the order |
| `ScoreHeap.VariableHeap.Enlarge` | src/heap.c:80-93 | new variables are not on the heap |
| `ScoreHeap.MaxLargest` | src/heap.h:52-55 | the first variable has the largest score |

## Left out

Embedded solver (`kitten.c`):

- `kitten_track_antecedents` after the start and growing the set of variables: both are fixed by the constructor, and external literals are the internal ones.
- `kitten_flip_literal`, `kitten_shrink_to_clausal_core` and the traversal functions are not modelled.
- Random phases and shuffled queues: the saved phase is arbitrary, the queue order is any order.
- Ticks and termination: a limit is a nondeterministic stop that happens only if a limit was set.
- Memory layout of klauses and the stack of references: klauses are a sequence, references are indices.

Congruence closure (`congruence.c`):

- Proof lines (`ADD_BINARY_TO_PROOF` and the clauses that justify gates) are not produced; implication is proved instead.
- `extract_binaries`, `find_units`, `find_equivalences` and forward subsumption only call operations proved here, or delete clauses.
- `init_and_gate_extraction` and its ternary and large counterparts: which clauses are connected is a parameter; the counts of `init_and_gate_extraction` are computed.
- Congruence.Closure.Propagate: repeats a naive search for unit clauses instead of following watch lists, so it finds the same units in another order.
- Congruence.Closure.PropagateUnitsAndEquivalences: that congruent gates are merged is promised if gates are listed only for their inputs before the call (`Connected`), and not for XOR and ITE gates that stand for one with its own output as an input, for which the code does not do it.
- The limit `MAX_HASH_TABLE_SIZE` for the gate table is not modelled; the table always doubles.

Elimination (`fastel.c`, `eliminate.c`, `weaken.c`, `extend.c`):

- Gathering and ranking candidates, occurrence and clause size limits (`can_fast_resolve_all` and the like) only decide whether to eliminate.
- Gate-based resolution in `resolve.c` is not modelled; all pairs of clauses are resolved.
- Binary clauses live in watch lists; here they are entries of the clause table, so that flushing and reconnecting watches is not captured.
- External variable numbers are the internal ones; growing the import table is not modelled.

Trail and conflict analysis:

- SolverCore.Solver.OneLiteralOnConflictLevel: does not repair the watches of the conflict (src/analyze.c:72-103); `WatchRepair.Repairer.RepairWatches` does, on the clause and the watch lists alone.
- Analysis.Analyzer.TakeStrengthened: stores the strengthened clause as a new one, where `strengthen.c` shortens the reason in place and reconnects it; a conflict that is subsumed is not marked as garbage.
- Minimize.Minimizer.MinimizeClause: with a depth limit shorter than the trail, which redundant literals are dropped besides those with a direct reason depends on the order of the visits and is not pinned down.
- Analysis.Analyzer.Strengthen: is one loop for binary and large results; for large ones `strengthen.c` keeps the other watched literal whatever its level.
- Analysis.Analyzer.ReadFailedReason: `other == unit` (src/analyze.c:473) is not tested, because reasons contain only literals that are earlier on the trail than the one whose negation is the unit.
- `sort_deduced_clause`, `analyze_reason_side_literals`, bumping, shrinking (`shrink.c`), glue, tiers and eager subsumption of learned clauses are not modelled.
- Saved and target phases, and chronological backtracking beyond `kissat_determine_new_level`, are not modelled.
- Propagation of the main solver (`proplit.h`) is not modelled; watched propagation is proved for the embedded solver and for the checker.

Bounded variable addition (`factor.c`):

- `next_factor` with its counts: the factors tried are a parameter, and the results hold for every choice.
- Ticks, schedule heap, scores of fresh variables and connecting clauses are not modelled; the `quotient` bit of a clause is a set of references.

Proof checker (`check.c`):

- Growing the checker, importing external literals, statistics and `kissat_check_shrink_clause` are not modelled.
- ProofChecker.Checker.RemoveImported: an inconsistent checker returns before propagating, where `bucket_redundant` propagates first; the answer is the same.
- ProofChecker.Checker.CheckAndAdd: for a clause with some literals false at the root level but not all, whose negations are not in large lines, satisfiability is reduced to that of the clause without them; the code does not keep it in general.

Backbone (`backbone.c`):

- Collecting candidates in `schedule_backbone_candidates`, the flags `backbone0` and `backbone1`, and ticks are not modelled.
- Backbone.Prober.Round: ends with the units of the round; propagating them through large clauses between two rounds is not modelled.

Decisions:

- DecisionOrder.Decider.NextDecisionVariable: whether a random decision is due is a parameter, and the generator has to draw an active unassigned variable at some point, without which the loop of `decide.c` does not end.
- `kissat_decide_phase`, warm-up, and rescaling of scores beyond a limit are not modelled.
- Restarts, inprocessing schedules, proof output, parsing and the application around the solver are not modelled.
