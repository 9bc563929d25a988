# grammar-analyser, modelled in Dafny

This project models the analysis core of grammar-analyser, a context-free
grammar analyser:
- It reads a grammar from text (`parseGrammar`).
- It computes FIRST and FOLLOW sets.
- It builds the LL(1) table and runs the predictive parser.
- It builds the SLR(1), LR(1) and LALR(1) shift-reduce tables and runs the
  shift-reduce driver.
- It tokenises input lines and rebuilds derivation trees.
- It runs the grammar normalisation passes: useless symbols, ε-productions,
  unit productions, left recursion and common prefixes.
- For a regular grammar it builds the NFA and the DFA, and reads a regular
  expression off the DFA by state elimination (`regex_from_dfa`).
- It simplifies regular expression trees.

Grammars, items, symbols and expression trees are values. A `Grammar` keeps
both the production list (`G.Productions`) and the per-non-terminal
production lists (`nt.productions`), because the passes update the two
separately. Symbols are identified by kind and name.

The objects the source updates in place are classes:
- the shift-reduce parser, with its ACTION and GOTO tables and its flag;
- the state graph (`State`), as an arena of nodes;
- the DFA, with its finals and its two label maps;
- the analyser object, with its fields.

The grammar library (`Grammar`, `Sentence`, `Production`, `Item`) and the
symbol container `ContainerSet` are not part of this model. The model uses
minimal stand-ins with these assumptions:
- `update` adds the symbols of its argument and reports whether any was new.
- `hard_update` also adds the ε marker.
- `Grammar.copy` is shallow, so the symbols are shared between copies.
- An item is a production, a position and a set of lookaheads; its center
  drops the lookaheads.

## Model

| member | source | states |
|---|---|---|
| Containers.Update | cmp/tools.py:89-91 | the container gains exactly the symbols of the argument, keeps its ε marker, and reports a change iff it changed |
| Containers.HardUpdate | cmp/tools.py:54-55 | the result is the least container including both arguments, ε marker included, and a change is reported iff it differs from the old one |
| Dataflow.ScanFirstMarker | cmp/tools.py:17-24 | the ε flag of a scanned sentence is set iff its first symbol's FIRST has ε: the `else` belongs to the `if`, so the flag is set at the first nullable symbol, and the scan stops at the first non-nullable one |
| Dataflow.ScanFirstItems | cmp/tools.py:17-24 | a symbol is in the scanned FIRST iff it is in the FIRST of some position whose predecessors are all nullable |
| Dataflow.LocalFirstMonotone | cmp/tools.py:6-26 | larger FIRST sets give a larger local FIRST, so the fixpoint only grows |
| Dataflow.FirstPass | cmp/tools.py:41-55 | one pass over the productions keeps the invariant, only grows the tables, reports a change iff it learnt something, and otherwise leaves every production closed |
| Dataflow.ComputeFirsts | cmp/tools.py:28-57 | FIRST(t) = {t} for terminals; the sentence cache holds exactly the local FIRST of every body; the result is a solution of the FIRST equations and is below every other solution (the least fixpoint) |
| Dataflow.FollowVisit | cmp/tools.py:78-91 | visiting one production keeps the invariant, only grows FOLLOW, and when nothing changed the production's FOLLOW constraints hold |
| Dataflow.FollowPass | cmp/tools.py:72-91 | one pass over the productions grows FOLLOW, reports a change iff it learnt something, and otherwise every production's constraints hold |
| Dataflow.ComputeFollows | cmp/tools.py:59-93 | one FOLLOW set per non-terminal, none with the ε marker, EOF in FOLLOW(start), FIRST(α[i+1:]) ⊆ FOLLOW(α[i]) and FOLLOW(X) ⊆ FOLLOW(α[i]) when the suffix is empty or nullable, and the least such sets |
| LL1.Enter | cmp/tools.py:105-112 | entering a production under a set of terminals either adds a one-element list at each new key, or stops at a key already present and leaves the rest of the table as it was |
| LL1.BuildParsingTable | cmp/tools.py:95-124 | `isLL1` is true iff no two keys of the productions collide; then every entry is exactly `[p]` for the one production keyed there; otherwise the reported conflict names a key hit twice with the incoming and the existing production |
| LL1.Parse | cmp/tools.py:126-153 | the stack loop computes the run of the parser from stack `[start]`, cursor 0 and an empty output |
| LL1.ParseSound | cmp/tools.py:126-153 | a run that accepts only at EOF outputs a leftmost derivation of a prefix of the input that ends just before an EOF |
| LL1.ParsePrefixSound | cmp/tools.py:126-153 | the parser as written, which stops when the stack empties, outputs a leftmost derivation of some prefix of the input |
| LL1.PrefixAccepted | cmp/tools.py:149-153 | the parser as written accepts `a b $` with the grammar S → a, deriving only `a` |
| Derivations.BuildTree | cmp/tools.py:187-205 | the tree has the production's head at its root and one child per body symbol, and the next unused index lies past `count` |
| Derivations.BuildTreeHeads | cmp/tools.py:187-205 | the inner nodes of the rebuilt tree, visited in preorder (left parse) or reversed preorder (right parse), are exactly the heads of the productions it used, in order |
| Useless.Generating | cmp/tools.py:360-370 | `M` holds each generating non-terminal once: exactly the least set closed under "every non-terminal of a body is in the set" |
| Useless.Expand | cmp/tools.py:399-405 | the inner loops add to `V` exactly the symbols of the popped non-terminal's productions, and to `pending` the new non-terminals among them |
| Useless.Reachable | cmp/tools.py:395-405 | `V` holds each symbol reachable from the start through the rule lists once: exactly the least set containing the start and closed under the rules |
| Useless.KeepGenerating | cmp/tools.py:372-389 | each generating non-terminal keeps the productions whose non-terminals all generate; the production list follows the non-terminal order and the terminal list holds each terminal of those productions once |
| Useless.KeepReachable | cmp/tools.py:407-424 | the kept terminals and non-terminals are the reached ones in their order; each kept non-terminal keeps the productions whose symbols were all reached |
| Useless.WithoutUselessSymbols | cmp/tools.py:356-426 | the result is the one described by `IsUselessResult`: the first filter is skipped exactly when `M` is as long as the non-terminal list, and reachability is computed over the filtered rule lists |
| Useless.UselessResultClean | cmp/tools.py:356-426 | every kept production is one of the input's; every kept non-terminal generates a terminal string with the kept productions and is reachable through the kept rules; the production list agrees with the rule lists; and the result is well formed when the start symbol generates |
| Epsilon.Nullable | cmp/tools.py:429-447 | `H`, taken as a set, is the least set of non-terminals closed under "a body made only of members puts its head in"; `prima` is the productions with a non-empty body, in order |
| Epsilon.Pot | cmp/tools.py:503-512 | `pot(k)` has 2^k entries and entry n is the k-digit binary numeral of n, most significant digit first |
| Epsilon.PotComplete | cmp/tools.py:503-512 | every 0/1 vector of length k occurs in `pot(k)` |
| Epsilon.PotDistinct | cmp/tools.py:503-512 | no vector occurs twice in `pot(k)` |
| Epsilon.Genera | cmp/tools.py:514-535 | the copy loops build, for each vector, the body `GeneraOf` describes, and emit it unless the vector is all ones and as long as the body |
| Epsilon.RewriteErases | cmp/tools.py:517-530 | for increasing positions, the body built for a vector is the original body without the positions marked 1, order kept |
| Epsilon.EmitsIff | cmp/tools.py:532-533 | for increasing positions, a body is emitted iff it is not empty |
| Epsilon.GeneraSound | cmp/tools.py:514-535 | every emitted production has the same head and a non-empty body equal to the original without some recorded positions |
| Epsilon.GeneraComplete | cmp/tools.py:514-535 | every removal of recorded positions that leaves a non-empty body is emitted from `pot(len(positions))` |
| Epsilon.IndexNullable | cmp/tools.py:452-462 | the loop fills `prods` and `other_productions` as `IndexOf` describes: one key per production with a nullable position, at its first occurrence |
| Epsilon.IndexClean | cmp/tools.py:452-462 | for productions listed once, the keys are exactly the productions with a nullable position, each recording those positions in order, and `other_productions` exactly those without |
| Epsilon.GenerateKeys | cmp/tools.py:464-478 | `final_productions` is the concatenation of `genera` over the keys, `nt_ready` their heads in order of first appearance, and each ready head's list is exactly its productions in `final_productions` |
| Epsilon.AddOthers | cmp/tools.py:480-492 | appending `other_productions` keeps every ready head's list equal to its productions in `final_productions` and adds new heads in order |
| Epsilon.WithoutEpsilonTransitions | cmp/tools.py:428-501 | the result is the input and `False` when nothing is nullable, and otherwise the grammar `EpsilonResult` describes, with the flag set iff the start symbol is nullable |
| Epsilon.EpsilonSound | cmp/tools.py:428-501 | for productions listed once, every production of the result is an input production with a non-empty body, minus some nullable positions, and is not an ε-production |
| Epsilon.EpsilonComplete | cmp/tools.py:428-501 | for productions listed once, every removal of nullable positions from a non-empty body that leaves something is a production of the result |
| Epsilon.EpsilonLists | cmp/tools.py:464-496 | the new non-terminal list names each head of a non-empty body once, and each listed non-terminal's productions agree with the new production list |
| Unitary.UnitChain | cmp/tools.py:323-334 | a unit production out of a non-terminal reachable from `a` through unit productions leads to another one reachable from `a` |
| Unitary.UnitSplit | cmp/tools.py:313-321 | `H` maps each non-terminal with a unit production `A -> B` (B ≠ A) to exactly those `B`, never to itself; `P` holds exactly the other productions, re-headed by their non-terminal |
| Unitary.CloseItem | cmp/tools.py:325-334 | one pass over `H[item]` only appends names reachable from `item` through unit productions, never `item`, and reports a change iff it appended one; without a change `H[item]` is closed |
| Unitary.ClosePass | cmp/tools.py:323-334 | one pass of the `while change` loop keeps `H` sound, only grows its lists, strictly shrinks what is still missing when it reports a change, and otherwise leaves every list closed |
| Unitary.CloseUnits | cmp/tools.py:323-334 | at the end `H[a]` is exactly the set of non-terminals other than `a` reachable from `a` through unit productions, and extends the first list |
| Unitary.InheritAll | cmp/tools.py:336-343 | the third loop appends, each once, exactly the productions `A -> β` with `B ≠ A` reachable from `A` and `B -> β` a production of `B` whose body is not a single non-terminal |
| Unitary.WithoutUnitaryProductions | cmp/tools.py:307-354 | the production list holds exactly the kept productions, the inherited ones and, for the empty word, `S' -> ε` and `S' -> S` appended last with `S'` the new start symbol; the kept ones come first and the inherited ones are not repeated |
| Unitary.WalkReach | cmp/tools.py:323-334 | the end of a path of unit productions from `a` is reachable from `a` |
| Unitary.ReachWalk | cmp/tools.py:323-334 | every non-terminal reachable from `a` is the end of a path of unit productions from `a` |
| Unitary.UnitaryNoUnits | cmp/tools.py:307-354 | the result has no unit production except the kept `A -> A` and the new `S' -> S` |
| Unitary.UnitarySound | cmp/tools.py:307-354 | every production of the result is a kept production of the input, a body of a non-terminal at the end of a unit path from its head, or one of the new start productions |
| Unitary.UnitaryComplete | cmp/tools.py:307-354 | every non-unit production of `A`, and every body not made of one non-terminal of a `B` at the end of a unit path from `A`, is a production of `A` in the result |
| Grammars.PrimeInjective | cmp/tools.py:219 | distinct names give distinct `_prima` names |
| LeftRecursion.LeftRecsMembers | cmp/tools.py:221-240 | the first loop sends exactly the left-recursive productions to the rewriting and every other one to the stack |
| LeftRecursion.SplitMultiset | cmp/tools.py:221-240 | the left-recursive and stacked productions together are the production list of `A` |
| LeftRecursion.RemoveFirst | cmp/tools.py:238 | `remove` succeeds iff the production is in the list, and then drops exactly one copy of it |
| LeftRecursion.RemoveFirstAt | cmp/tools.py:238 | `remove` drops the first occurrence and keeps the order of the rest |
| LeftRecursion.FirstRec | cmp/tools.py:222-238 | a left-recursive `A -> A α` adds `A'` and `A' -> ε` the first time, then `A' -> α A'`, and removes the production; the remove fails only when more copies were met than the production list had |
| LeftRecursion.FirstLoop | cmp/tools.py:221-240 | after the first loop the stack holds the other productions in order, `changed` is set iff some production was left-recursive, `A'` lists `A' -> ε` and the tails, and the production list trades the left-recursive productions for those of `A'`; for a list headed by `A` it fails iff the left-recursive productions outnumber their copies |
| LeftRecursion.SecondBody | cmp/tools.py:245-252 | popping `A -> ε` adds `A -> A'` and keeps `A -> ε` in the production list; popping another `A -> β` removes it and adds `A -> β A'`; the remove fails only when the popped productions outnumber their copies |
| LeftRecursion.SecondLoop | cmp/tools.py:242-252 | the stack is popped to the end: `A` lists its rewritten productions in popping order, and the production list trades the non-empty stacked productions for them |
| LeftRecursion.RemoveImmediate | cmp/tools.py:217-252 | a non-terminal without left-recursive productions leaves the grammar as it was; otherwise the grammar is the one `Rewrote` describes, and for a list headed by `A` no remove fails when its left-recursive and non-empty other productions all occur, with their multiplicity, in the production list |
| LeftRecursion.RewroteClean | cmp/tools.py:242-252 | after the rewriting no production of `A` is left-recursive, each ends in `A'`, and only `A` and `A'` changed their lists |
| LeftRecursion.TailShape | cmp/tools.py:234 | `A' -> α A'` ends in `A'` and is itself left-recursive iff `α` is empty or starts with `A'` |
| LeftRecursion.PrimeRulesShape | cmp/tools.py:222-234 | the productions of `A'` are `A' -> ε` and bodies ending in `A'`; one is left-recursive only if `A -> A` or `A -> A A' …` was rewritten |
| LeftRecursion.SelfLoopRepeats | cmp/tools.py:216-234 | `A -> A` gives `A' -> A'`, which is left-recursive on `A'`, so the outer loop creates `A'_prima` and so on without end |
| LeftRecursion.OuterBody | cmp/tools.py:217-252 | one turn of the outer loop extends the non-terminal list by at most `A'`, leaves a clean list unchanged, and keeps the processed non-terminals free of immediate left recursion while the names stay distinct; on a registered grammar (each rule list headed by its non-terminal and contained, with multiplicity, in the production list, as `Add_Production` builds it) the turn never raises, keeps the grammar registered and rewrites it as `Turn` does |
| LeftRecursion.RegisteredOwed | cmp/tools.py:227-241 | on a registered grammar every production the two `remove` calls ask for is in the production list |
| LeftRecursion.RewroteTurn | cmp/tools.py:217-252 | a finished rewriting of `A` is the rewriting `Turn` describes: `A'` appended, `A'` given `A' -> ε` and the tails, `A` given its other productions followed by `A'` in popping order, and the production list trading the left-recursive and non-empty other productions for the new ones |
| LeftRecursion.TurnRegistered | cmp/tools.py:217-252 | the rewriting of one non-terminal keeps a grammar registered |
| LeftRecursion.RemoveTurn | cmp/tools.py:217-252 | on a registered grammar the turn on `A` cannot raise, keeps the grammar registered and is `Turn` |
| LeftRecursion.OuterKeeps | cmp/tools.py:217-252 | one turn keeps the outer loop's invariant, including that the passes from the input reach the current grammar; it raises neither on a registered input nor on a clean one |
| LeftRecursion.WithoutLeftRecursion | cmp/tools.py:214-254 | the result extends the non-terminal list and keeps terminals and start; when its names are distinct no non-terminal has an immediately left-recursive production; a grammar without left recursion comes back unchanged; on a registered grammar it never raises, and its result is the grammar `Passes` reaches by rewriting the non-terminals one after the other (running out of fuel exactly when `Passes` does) |
| LeftRecursion.ExprFirstTurn | cmp/tools.py:217-252 | on `E -> E + T | T`, `T -> i` the turn on `E` gives `E -> T E'`, `E' -> ε`, `E' -> + T E'`, `T -> i` |
| LeftRecursion.ExprLaterTurns | cmp/tools.py:217-252 | the turns on `T` and on `E'` change nothing, since neither has a left-recursive production |
| LeftRecursion.ExprClean | cmp/tools.py:214-254 | no production of the rewritten expression grammar is left-recursive |
| LeftRecursion.ExpressionGrammar | cmp/tools.py:214-254 | `E -> E + T | T`, `T -> i` is registered, and the whole pass rewrites it to `E -> T E'`, `E' -> ε | + T E'`, `T -> i`, which has no left recursion |
| CommonPrefix.MatchingMembers | cmp/tools.py:276-283 | the productions the scan groups with `p` are exactly those of the scanned part that are not ε and start with the first symbol of `p` |
| CommonPrefix.UpTo | cmp/tools.py:276-278 | the scan of the reversed copy stops before the first occurrence of `p`, or runs to the end when `p` is absent |
| CommonPrefix.ScannedAfter | cmp/tools.py:274-278 | in a list without repetitions, the scan for the `k`-th production visits exactly the productions after it, last first |
| CommonPrefix.ScanStep | cmp/tools.py:278-283 | one visited production is appended to `comunes` and recorded in `old_prods` together with `p`, and sets `changed`, iff it is not ε and starts like `p` |
| CommonPrefix.ScanGroup | cmp/tools.py:273-283 | `comunes` is `p` followed by the matching scanned productions, `changed` holds iff there is at least one, and `old_prods` gains exactly those and, when changed, `p` |
| CommonPrefix.FactorStep | cmp/tools.py:266-299 | one turn of the loop over a production list keeps the loop invariant: on a list without repetitions none of whose productions was recorded, `new_prods` holds what the first `k` productions emit, the recorded ones are the shared productions met so far, and the primed non-terminals are one per shared first symbol |
| CommonPrefix.FactorNt | cmp/tools.py:266-299 | after the loop over a non-terminal's productions, `new_prods` and `old_prods` only grow, with productions of the list or headed by `A` or `A'`; each new `A'` has two or more productions, all in `new_prods`; on a list without repetitions, `new_prods` gains exactly `Emitted` |
| CommonPrefix.PrimesNone | cmp/tools.py:284-288 | a list in which no two productions share a first symbol makes no `A'` |
| CommonPrefix.TwoPrimes | cmp/tools.py:270-302 | factoring `A` with the bodies `a b`, `a c`, `d e` and `d f` creates two `A'` objects with different productions, both named `A_prima`, so the extended non-terminal list names `A_prima` twice |
| CommonPrefix.FactoredComplete | cmp/tools.py:266-299 | every production is emitted as it is when its first symbol is its own, and otherwise as `A -> X A'` together with `A' -> β` |
| CommonPrefix.NoCommonPrefix | cmp/tools.py:266-299 | two emitted productions of `A` that start with the same symbol are the same production |
| CommonPrefix.RegisterSpec | cmp/tools.py:285-296 | the added non-terminals keep their own production lists; a name not added keeps its list |
| CommonPrefix.PrimeTurn | cmp/tools.py:262-299 | popping a primed non-terminal adds no production headed by an original one |
| CommonPrefix.OriginalDistinct | cmp/tools.py:262-268 | when an original non-terminal is popped, none of its productions has been recorded in `old_prods` yet |
| CommonPrefix.OriginalTurn | cmp/tools.py:262-299 | popping an original non-terminal adds exactly what its loop emits and leaves the others already popped alone |
| CommonPrefix.StackStep | cmp/tools.py:262-299 | one turn of the `while` loop keeps the stack invariant: the stack holds the unpopped originals and then primed non-terminals, and every popped original is finished |
| CommonPrefix.WithoutCommonPrefix | cmp/tools.py:256-304 | the result appends primed non-terminals with two or more productions each, keeps terminals, start and the original lists, and for a plain grammar each original non-terminal has exactly its emitted productions; a grammar without shared first symbols needs one turn per non-terminal |
| CommonPrefix.ResultNoCommonPrefix | cmp/tools.py:256-304 | in the result, no two distinct productions of an original non-terminal start with the same symbol |
| CommonPrefix.ResultComplete | cmp/tools.py:256-304 | each production of an original non-terminal is in the result, or is replaced there by `A -> X A'` and `A' -> β` |
| CommonPrefix.ResultSound | cmp/tools.py:256-304 | each result production of an original non-terminal is one of its unshared productions, or `A -> X A'` for a shared first symbol `X` |
| RegexTrees.StrShape | cmp/regexAutomaton.py:28-189 | unions and concatenations print in parentheses, closures end in `*`, ε prints as `ε` and the empty language as `@` |
| RegexTrees.EqRefl | cmp/regexAutomaton.py:15-167 | every tree equals itself, so the identity shortcut of Python's `in` never changes a membership test |
| RegexTrees.UnionOrderIgnored | cmp/regexAutomaton.py:66-72 | two unions whose child lists are permutations of each other are equal |
| RegexTrees.EqUnionFree | cmp/regexAutomaton.py:15-167 | on trees without unions, equality (atoms by text and node type, concatenations position by position, closures by child) holds exactly for identical trees |
| RegexTrees.UnionEqNotSymmetric | cmp/regexAutomaton.py:66-72 | union equality is length plus one-way membership, so it is not symmetric when a union repeats a child |
| RegexTrees.NewUnion | cmp/regexAutomaton.py:53-57 | the constructor keeps the children in order minus those equal to an earlier kept one |
| RegexTrees.DedupFacts | cmp/regexAutomaton.py:53-57 | the kept children come from the list, no two are equal, and every dropped child equals a kept one |
| RegexTrees.DedupDistinct | cmp/regexAutomaton.py:53-57 | a list without equal children is kept as it is |
| RegexTrees.CopyWf | cmp/regexAutomaton.py:34-195 | a copy's unions have distinct children |
| RegexTrees.CopyIdentity | cmp/regexAutomaton.py:34-195 | `copy` returns the same tree when every union has distinct children |
| RegexTrees.CopyDropsRepeats | cmp/regexAutomaton.py:103-104 | a union that repeats a child is copied without the repetition |
| RegexTrees.Prune | cmp/regexAutomaton.py:79-83 | the loop of `UnionNode.simplify` keeps the children that are not `EmptyNode`, minus those equal to an earlier kept one |
| RegexTrees.SimplifyUnion | cmp/regexAutomaton.py:74-86 | no children give `EmptyNode`, one child is returned, otherwise the pruned children, or the single survivor |
| RegexTrees.RemoveEpsilon | cmp/regexAutomaton.py:88-96 | the `EpsilonNode` children are dropped and a single survivor is returned in place of the union |
| RegexTrees.SimplifyConcat | cmp/regexAutomaton.py:126-136 | one child is returned, an `EmptyNode` child gives `EmptyNode`, otherwise the `EpsilonNode` children are dropped |
| RegexTrees.SimplifyClosure | cmp/regexAutomaton.py:169-174 | a union child loses its `EpsilonNode` children, and a closure of ε is ε |
| RegexTrees.Evaluate | cmp/regexAutomaton.py:31-192 | the children are evaluated first; a concatenation splices in the children of child concatenations, one level, before simplifying |
| RegexTrees.UnionSimplifiedNormal | cmp/regexAutomaton.py:74-86 | simplifying a union of normal trees gives a normal tree |
| RegexTrees.EpsilonRemovedNormal | cmp/regexAutomaton.py:88-96 | removing ε from a normal union gives a normal tree that is not ε |
| RegexTrees.ClosureSimplifiedNormal | cmp/regexAutomaton.py:169-174 | simplifying the closure of a normal tree gives a normal tree |
| RegexTrees.SplicedNormal | cmp/regexAutomaton.py:141-148 | after splicing evaluated children, no child is a concatenation |
| RegexTrees.ConcatSimplifiedNormal | cmp/regexAutomaton.py:126-136 | simplifying spliced normal children gives a normal tree |
| RegexTrees.EvaluatedNormal | cmp/regexAutomaton.py:98-178 | `evaluate` returns a tree whose unions have zero or at least two distinct children, none `EmptyNode`, whose concatenations have no concatenation, `EmptyNode` or ε child, and whose closures are not of ε |
| RegexTrees.NormalWf | cmp/regexAutomaton.py:74-86 | evaluated trees have distinct union children, so copying one gives it back unchanged |
| RegexTrees.EvaluateNotIdempotent | cmp/regexAutomaton.py:126-149 | `evaluate` reduces `(a ε)` to a one-child concatenation, which only a second `evaluate` unwraps to `a` |
| Automata.NewNfa | cmp/automata.py:215-228 | the NFA is built exactly when every transition leaves a state of `range(states)`, with the given fields and the finals as a set |
| Automata.VocabularyNoEpsilon | cmp/automata.py:223-228 | the vocabulary is the set of non-empty symbols of the transition map |
| Automata.Move | cmp/automata.py:310-318 | `move` returns the union of the destinations of each state on the symbol, states without it adding nothing |
| Automata.MoveSetMembers | cmp/automata.py:310-318 | a state is in the move exactly when some state of the set has it on the symbol; the states without the symbol can be dropped |
| Automata.ClosureUnique | cmp/automata.py:320-331 | the ε-closure of a set is unique |
| Automata.ClosureEmpty | cmp/automata.py:320-331 | the ε-closure is empty exactly when the seeds are |
| Automata.PushNew | cmp/automata.py:325-328 | each destination not yet in the closure joins the closure and the worklist, once |
| Automata.EpsilonClosure | cmp/automata.py:320-331 | `epsilon_closure` returns a set holding the seeds, closed under ε-transitions and inside every such set, all states of the automaton |
| Automata.GrowKeeps | cmp/automata.py:345-349 | a new subset appended to the states and the worklist keeps the construction's invariants |
| Automata.EnterKeeps | cmp/automata.py:353-358 | entering the transition of the current subset on a symbol keeps the invariants and never meets an existing key |
| Automata.SubsetStep | cmp/automata.py:341-358 | one symbol: an empty closure adds nothing, a new closure becomes a new state, an old one is found by index, and the transition is entered |
| Automata.SubsetRow | cmp/automata.py:340-358 | after the loop over the vocabulary, the current subset has a transition on exactly the symbols whose move is non-empty |
| Automata.SubsetConstruction | cmp/automata.py:333-365 | state 0 is the closure of the start; the subsets are distinct; each transition leads to the closure of the move; the assertion against a second destination never fires; the finals are the subsets holding an NFA final |
| Automata.EdgeSymbolsMembers | cmp/automata.py:268-278 | a symbol labels the edge from `o` to `d` exactly when the transition map sends `(o, symbol)` to `d` |
| Automata.OutLabelStep | cmp/automata.py:270-273 | one transition extends `out_transitions[o][d]` by `'|' + symbol`, or creates it |
| Automata.InLabelStep | cmp/automata.py:274-277 | one transition extends `in_transitions[d][o]` by `'|' + symbol`, or creates it |
| Automata.LabelMaps | cmp/automata.py:266-277 | `out_transitions[o][d]` and `in_transitions[d][o]` are both the `'|'`-join, in insertion order, of the symbols on the edges from `o` to `d`, present exactly when there is such an edge |
| Automata.MapOf | cmp/automata.py:263 | every transition becomes a one-element destination list under the same key |
| Automata.RunAppend | cmp/automata.py:291-297 | reading `u + v` is reading `u` and then `v`; once a symbol is missing the run stays failed |
| Automata.Dfa.constructor | cmp/automata.py:259-278 | the DFA keeps the states, starts at 0, keeps the finals once each, maps every key to its single destination and builds both label maps |
| Automata.Dfa.Move | cmp/automata.py:281-286 | `_move` follows the transition and reports success, or leaves the current state and reports failure |
| Automata.Dfa.Reset | cmp/automata.py:288-289 | `_reset` returns to the start |
| Automata.Dfa.Recognize | cmp/automata.py:291-297 | `recognize` accepts exactly when the run from the start reads the whole string and ends in a final state |
| Automata.Dfa.ConvertIndexs | cmp/automata.py:370-386 | the start gets 0 when it is not final and the finals get consecutive numbers after it (from 0 when the start is final); the finals are replaced by their numbers; no two states share a number |
| Automata.Dfa.ConvertAutomaton | cmp/automata.py:388-395 | `map` becomes the renumbered edges of `out_transitions` with their labels, each to its renumbered destination; an edge without a number raises before `map` changes |
| Automata.Dfa.Copy | cmp/automata.py:299-302 | the copy is the determinised NFA of the renumbered map, or fails where the source raises |
| Automata.NfaToDfa | cmp/automata.py:333-367 | `nfa_to_dfa` returns a fresh DFA whose state `i` is subset `i`, with the transitions and finals of the subset construction |
| Automata.ReadsUnique | cmp/automata.py:320-331 | the set of NFA states reached on a string is unique |
| Automata.SubsetRun | cmp/automata.py:333-367 | the DFA's run on a string of non-empty symbols stops at the subset of states the NFA reaches, or fails exactly when the NFA reaches none |
| Automata.SameLanguage | cmp/automata.py:291-367 | the DFA accepts a string of non-empty symbols exactly when the NFA reaches a final state on it |
| StateGraphs.AddTo | cmp/automata.py:36-41 | `add_transition` appends the destination to the symbol's list, creating it when missing, and changes nothing else |
| StateGraphs.AddToSuccessors | cmp/automata.py:36-41 | adding a transition adds exactly its destination to the successors of the state |
| StateGraphs.Graph.NewState | cmp/automata.py:8-15 | a new state has no transitions, and the graph stays closed |
| StateGraphs.Graph.AddTransition | cmp/automata.py:36-41 | the state's transitions are extended as `add_transition` does, and the graph stays closed |
| StateGraphs.Graph.AddEpsilonTransition | cmp/automata.py:43-45 | the destination joins the state's ε-transitions, and the graph stays closed |
| StateGraphs.MoveInRange | cmp/automata.py:99-100 | every state of `move_by_state` is a state of the graph |
| StateGraphs.ClosureUnique | cmp/automata.py:103-113 | the ε-closure of a set is unique |
| StateGraphs.Graph.ClosurePass | cmp/automata.py:108-112 | one pass adds the ε-destinations of every state of the snapshot |
| StateGraphs.Graph.EpsilonClosureByState | cmp/automata.py:103-113 | once a pass adds nothing, the set holds the seeds, is closed under ε-transitions and lies inside every such set |
| StateGraphs.Graph.EpsilonClosure | cmp/automata.py:115-117 | `epsilon_closure` is the ε-closure of the state alone |
| StateGraphs.ReadsUnique | cmp/automata.py:47-52 | the set of states reached on a string is unique |
| StateGraphs.Graph.Recognize | cmp/automata.py:47-52 | `recognize` accepts exactly when the states reached on the string, by closure and move, include a final one |
| StateGraphs.DetPop | cmp/automata.py:62-63 | taking the last state off the worklist starts its row with no transitions |
| StateGraphs.StandsGrow | cmp/automata.py:70-75 | a new closure gets a new state, final exactly when a member is |
| StateGraphs.EdgesGrow | cmp/automata.py:70-75 | adding a state keeps every entered transition a single edge to the closure of its move |
| StateGraphs.PendingGrow | cmp/automata.py:70-75 | the new state joins the worklist once, without transitions |
| StateGraphs.DoneButGrow | cmp/automata.py:70-75 | adding a state leaves the finished rows finished |
| StateGraphs.DetGrowKeeps | cmp/automata.py:70-75 | a new closure appended to the closures, states and worklist keeps the construction's invariants |
| StateGraphs.DetEnterKeeps | cmp/automata.py:76-79 | `state.add_transition(symbol, new_state)` on a fresh symbol keeps every transition a single edge |
| StateGraphs.Graph.DetStep | cmp/automata.py:66-79 | one symbol: the closure of the move is found among the closures or made a new state, and becomes the only transition on the symbol |
| StateGraphs.Graph.DetRow | cmp/automata.py:64-79 | after its row, a state has a transition on exactly the symbols of its members |
| StateGraphs.Graph.ToDeterministic | cmp/automata.py:54-81 | every distinct closure gives one new state, the first being the closure of the start; a state is final exactly when a member is; each state has exactly one transition per symbol of its members, to the closure of the move |
| StateGraphs.ReadsSnoc | cmp/automata.py:49-51 | reading one more symbol is a move and a closure |
| StateGraphs.EmptyReads | cmp/automata.py:49-51 | once no state is reached, none ever is |
| StateGraphs.DetClosure | cmp/automata.py:54-81 | the determinised graph has no ε-transitions, so every set of its states is its own closure |
| StateGraphs.DetRunEdge | cmp/automata.py:66-79 | following a transition of the new graph matches the closure of the move in the old one |
| StateGraphs.DetRunMissing | cmp/automata.py:64-66 | a symbol missing from a new state is missing from every member of its closure |
| StateGraphs.DetRun | cmp/automata.py:47-81 | on strings of non-empty symbols, the new graph reaches state `k` exactly when the old one reaches closure `k`, and nothing when the old one reaches nothing |
| StateGraphs.DetSameLanguage | cmp/automata.py:47-81 | `to_deterministic` keeps the strings of non-empty symbols that `recognize` accepts |
| StateGraphs.NoDupConcat | cmp/automata.py:154-167 | joining two orders with no common state yields no state twice |
| StateGraphs.VisitStep | cmp/automata.py:162-167 | visiting one more successor extends the order and keeps the visited states closed and reachable |
| StateGraphs.Graph.VisitFrom | cmp/automata.py:154-167 | `_visit` yields each state not yet visited once, the start first; the new states are reachable from the start, and their successors are all visited |
| StateGraphs.Graph.Visit | cmp/automata.py:151-152 | iterating a state yields each state reachable from it exactly once, itself first |
| StateGraphs.DetClosed | cmp/automata.py:54-81 | a determinised graph without ε-transitions whose edges lead to subsets of the list only points at its own states |
| ShiftReduce.Register | cmp/shiftReduceParsers.py:60-68 | `_register` adds the value to the key's list once (a new key gets a one-element list, an old one keeps its list as a prefix), leaves the other keys alone, and answers true iff the key then holds exactly one value |
| ShiftReduce.RegisterAgain | cmp/shiftReduceParsers.py:60-68 | registering the same value twice has the effect of registering it once |
| ShiftReduce.RegisterSingle | cmp/shiftReduceParsers.py:60-68 | the answer is true iff the key was new or held nothing but this value |
| ShiftReduce.HoldsSingle | cmp/shiftReduceParsers.py:60-68 | while the flag is true, every registered value is the only one at its key |
| ShiftReduce.Parser.constructor | cmp/shiftReduceParsers.py:11-16 | a parser starts with empty ACTION and GOTO tables and a true flag |
| ShiftReduce.Parser.Enter | cmp/shiftReduceParsers.py:60-68 | one registration in the ACTION or GOTO table; the tables hold exactly the registrations so far and the flag is true iff no two of them clash at a key |
| ShiftReduce.Parser.Call | cmp/shiftReduceParsers.py:21-58 | `__call__` runs the driver from stack `[0]`, cursor 0 and an empty output: shift pushes, reduce pops the body and pushes the GOTO state, OK returns the reductions reversed, a missing entry returns nothing |
| ShiftReduce.RunFuel | cmp/shiftReduceParsers.py:21-58 | a run that ends within some number of steps ends the same way with more |
| ShiftReduce.RunReductions | cmp/shiftReduceParsers.py:21-58 | an accepted run outputs only productions registered as reductions in the ACTION table |
| ShiftReduce.Number | cmp/shiftReduceParsers.py:129-131 | each state gets its position in the enumeration as its index |
| ShiftReduce.EnterNode | cmp/shiftReduceParsers.py:133-149 | filling the entries of one state adds exactly that state's entries to the registrations |
| ShiftReduce.BuildTable | cmp/shiftReduceParsers.py:133-149 | after every state is filled the tables hold exactly the entries of all items of all states, and the flag is true iff none clash |
| Slr.Reach | cmp/shiftReduceParsers.py:99-108 | an item not yet visited gets a new state and goes on the pending list; a visited item changes nothing |
| Slr.ReachAll | cmp/shiftReduceParsers.py:103-108 | the start items of all productions of the next non-terminal are visited afterwards |
| Slr.ReachSuccessors | cmp/shiftReduceParsers.py:96-108 | the next item is visited, and the expansions are exactly the start items of the productions of the next symbol |
| Slr.Wire | cmp/shiftReduceParsers.py:110-117 | the current state gets exactly one transition on the next symbol and ε-transitions to the expansions; no other state changes |
| Slr.Expand | cmp/shiftReduceParsers.py:96-117 | after one item is expanded every visited item's state is complete or pending |
| Slr.Step | cmp/shiftReduceParsers.py:90-117 | one turn of the loop keeps the construction consistent and either visits a new item or shortens the pending list |
| Slr.Finished | cmp/shiftReduceParsers.py:90-117 | with nothing pending the graph is the LR(0) item automaton: one state per item, a move over the next symbol and ε-moves to the expansions |
| Slr.Lr0Automaton | cmp/shiftReduceParsers.py:78-119 | the item NFA of the augmented grammar from its start item, over LR(0) items only, and its determinisation |
| Slr.Slr1Parser | cmp/shiftReduceParsers.py:121-149 | FIRST and FOLLOW are the least solutions, and the tables hold exactly the SLR(1) entries, the flag true iff no two clash |
| Slr.SlrReduce | cmp/shiftReduceParsers.py:137-143 | there is a reduce entry by `p` at state `i` on `a` iff the state has `p`'s complete item, `p` is not the augmented production, and `a` is in FOLLOW of `p`'s head |
| Slr.SlrAccept | cmp/shiftReduceParsers.py:137-140 | there is an OK entry at state `i` on `a` iff `a` is EOF and the state has `S' -> S .` |
| Slr.SlrEdge | cmp/shiftReduceParsers.py:144-149 | there is a shift or goto entry from `i` to `j` on `a` iff some item of `i` expects `a` and the DFA moves from `i` to `j` on `a`; then every such item's successor is in `j` |
| Lr1Items.Expand | cmp/shiftReduceParsers.py:153-165 | `expand` returns nothing for a complete item or a terminal next symbol; otherwise one start item per production of the next non-terminal, each with the lookaheads of the previews |
| Lr1Items.PreviewLookaheads | cmp/shiftReduceParsers.py:158-163 | the child lookaheads are the union of the FIRST sets of the previews |
| Lr1Items.ExpansionItems | cmp/shiftReduceParsers.py:153-165 | the expansions of an LR(1) item are LR(1) items at position 0, and the previews are covered by FIRST |
| Lr1Items.CompressedProps | cmp/shiftReduceParsers.py:167-178 | compressing keeps the centers, leaves one item per center, and gives it exactly the union of the lookaheads of the items with that center |
| Lr1Items.Compress | cmp/shiftReduceParsers.py:167-178 | `compress` computes the compressed set |
| Lr1Items.Lr1Closure | cmp/shiftReduceParsers.py:180-193 | the closure contains the items, is closed under expansion, and lies inside every closed superset |
| Lr1Items.StepClosed | cmp/shiftReduceParsers.py:184-191 | a set that one pass does not grow is closed under expansion |
| Lr1Items.StepBelowAll | cmp/shiftReduceParsers.py:184-191 | one pass never leaves a closed superset |
| Lr1Items.Pass | cmp/shiftReduceParsers.py:187-191 | one pass adds the expansions, stays inside the closure, and reports a change iff it added something; without a change the closure is reached |
| Lr1Items.ClosureLr1 | cmp/shiftReduceParsers.py:180-193 | `closure_lr1` returns the compressed least closure |
| Lr1Items.Kernel | cmp/shiftReduceParsers.py:197 | the kernel holds exactly the successors of the items expecting the symbol, each right after that symbol |
| Lr1Items.KernelItems | cmp/shiftReduceParsers.py:197 | the kernel of LR(1) items is made of LR(1) items |
| Lr1Items.GotoLr1 | cmp/shiftReduceParsers.py:195-198 | `goto_lr1` returns the compressed closure of the kernel |
| Lr1.EofBase | cmp/shiftReduceParsers.py:204-205 | adding FIRST($) = {$} to the FIRST table keeps it a valid table and makes EOF a FIRST symbol |
| Lr1.Symbols | cmp/shiftReduceParsers.py:221 | the symbols are visited as terminals then non-terminals, covering every symbol of the grammar |
| Lr1.Target | cmp/shiftReduceParsers.py:223-232 | a kernel already visited gives its state; a new one gets a new state holding its closure and goes on the pending list |
| Lr1.Try | cmp/shiftReduceParsers.py:221-234 | one symbol of the row: the state gains the move to the kernel's state when the kernel is not empty |
| Lr1.Fill | cmp/shiftReduceParsers.py:221-234 | after all symbols the current state's row is complete |
| Lr1.Step | cmp/shiftReduceParsers.py:217-234 | one turn keeps the construction consistent and either visits a new kernel or shortens the pending list |
| Lr1.Finished | cmp/shiftReduceParsers.py:217-236 | with nothing pending the graph is the LR(1) kernel automaton |
| Lr1.Lr1Automaton | cmp/shiftReduceParsers.py:200-236 | FIRST is the least solution and the graph is the kernel automaton from the start kernel `[S' -> .S, $]` |
| Lr1.AutomatonEdges | cmp/shiftReduceParsers.py:221-234 | a state moves on a symbol iff its kernel for the symbol is not empty, then to the one state with that kernel, which is the goto of the state's kernel |
| Lr1.Lr1Parser | cmp/shiftReduceParsers.py:238-265 | the tables hold exactly the LR(1) entries, the flag true iff no two clash |
| Lr1.Lr1Reduce | cmp/shiftReduceParsers.py:252-258 | a reduce entry by `p` at `i` on `a` iff the state has `p`'s complete item with `a` among its lookaheads and `p` is not the augmented production |
| Lr1.Lr1Accept | cmp/shiftReduceParsers.py:252-255 | an OK entry at `i` on `a` iff `a` is EOF and the state has `S' -> S .` |
| Lr1.Lr1Edge | cmp/shiftReduceParsers.py:260-265 | a shift or goto entry from `i` to `j` on `a` iff the goto of `i`'s kernel on `a` is not empty and is `j`'s kernel |
| Lalr.FirstMatch | cmp/shiftReduceParsers.py:276-279 | the first item of the list with the given center, and none iff no item has it |
| Lalr.Find | cmp/shiftReduceParsers.py:276-281 | the inner loop of `merge` finds the first match |
| Lalr.Collect | cmp/shiftReduceParsers.py:271-281 | `merge` goes on iff both lists have the same length and every center of the first is matched in the second; the collected lookaheads are those of the matches |
| Lalr.WidenBy | cmp/shiftReduceParsers.py:283-285 | an item's lookaheads grow by the union of all collected lookaheads |
| Lalr.MergeAsWritten | cmp/shiftReduceParsers.py:270-287 | `merge` as written: on success every item gets the lookaheads of all matches; on failure nothing changes |
| Lalr.Merge | cmp/shiftReduceParsers.py:270-287 | the corrected merge: on success each item gets the lookaheads of the match with its own center |
| Lalr.MergeableIff | cmp/shiftReduceParsers.py:270-281 | for states with one item per center, `merge` succeeds iff the two states have the same centers |
| Lalr.MergeStep | cmp/shiftReduceParsers.py:301-303 | merging one more state into the running merged state gives the compressed union of both, with the corrected merge of the Findings |
| Lalr.Gather | cmp/shiftReduceParsers.py:299-303 | the merged state is the compressed union of the later states with the same centers, and those states are all assigned to it, with the corrected merge of the Findings |
| Lalr.Group | cmp/shiftReduceParsers.py:293-305 | every state is assigned a merged state; two share one iff they have the same centers; each merged state is the compressed union of its members; the first state is assigned to state 0, with the corrected merge of the Findings |
| Lalr.Connect | cmp/shiftReduceParsers.py:307-313 | the merged graph gains exactly the images of the old edges |
| Lalr.MergeStates | cmp/shiftReduceParsers.py:293-316 | the merged graph and the assignment of states are a merging of the LR(1) automaton, with the corrected merge of the Findings |
| Lalr.LalrAutomaton | cmp/shiftReduceParsers.py:290-316 | the LR(1) kernel automaton is built, then merged by centers, with the corrected merge of the Findings |
| Lalr.LalrParser | cmp/shiftReduceParsers.py:238-265 | the tables hold exactly the LALR(1) entries of the merged automaton, the flag true iff no two clash, with the corrected merge of the Findings |
| Lalr.LalrReduce | cmp/shiftReduceParsers.py:252-258 | a reduce entry by `p` at merged state `i` on `a` iff some LR(1) state merged into `i` has `p`'s complete item with `a` among its lookaheads, with the corrected merge of the Findings |
| Lalr.LalrAccept | cmp/shiftReduceParsers.py:252-255 | an OK entry at `i` on `a` iff `a` is EOF and some state merged into `i` has `S' -> S .` |
| Lalr.LalrEdge | cmp/shiftReduceParsers.py:260-265 | a shift or goto entry from `i` to `j` on `a` iff some state merged into `i` expects `a` and the merged graph moves from `i` to `j` on `a` |
| Lalr.MergeSelfAsWritten | cmp/shiftReduceParsers.py:270-287 | merging a state with its own centers as written gives every item all the lookaheads of the state |
| Lalr.MergeSelf | cmp/shiftReduceParsers.py:270-287 | the corrected merge of a state with its own centers gives the state back |
| Lalr.MergeAsWrittenClash | cmp/shiftReduceParsers.py:270-287 | as written, a state with items `A -> c., {d}` and `B -> c., {e}` becomes a reduce/reduce conflict on `e` |
| Lalr.MergeByCenterNoClash | cmp/shiftReduceParsers.py:270-287 | the corrected merge keeps the lookaheads of that state disjoint |
| Text.Split | cmp/grammarAnalyzer.py:50 | `str.split(sep)` always gives at least one piece |
| Text.SplitJoin | cmp/grammarAnalyzer.py:50 | joining the pieces of a split with the separator gives the text back |
| Text.SplitPieces | cmp/grammarAnalyzer.py:50-61 | no piece of a split contains the separator |
| Text.SplitOfJoin | cmp/grammarAnalyzer.py:50 | splitting a join of pieces that lack the separator's first character gives the pieces back |
| Text.Words | cmp/grammarAnalyzer.py:54-62 | `str.split()` gives non-empty pieces without whitespace |
| Text.WordsJoin | cmp/grammarAnalyzer.py:54-62 | the words of non-empty whitespace-free words joined by spaces are those words |
| Analyser.BodyWordsIn | cmp/grammarAnalyzer.py:61-63 | a word is collected iff it occurs in some body |
| Analyser.LineRulesWords | cmp/grammarAnalyzer.py:52-63 | an accepted line yields at least one production, each headed by the line's head with the words of a body |
| Analyser.AllRulesHeads | cmp/grammarAnalyzer.py:52-68 | the heads of the productions are exactly the heads of the lines |
| Analyser.AllRulesWords | cmp/grammarAnalyzer.py:52-63 | every body is a list of words |
| Analyser.ReadRenderedLines | cmp/grammarAnalyzer.py:52-63 | written lines are accepted and read back as the productions they were written from |
| Analyser.ParseRendered | cmp/grammarAnalyzer.py:46-77 | a grammar written as `A -> b C | d` lines joined by `\r\n` parses back to the same productions and non-terminals |
| Analyser.ParseGrammar | cmp/grammarAnalyzer.py:46-77 | `BadGrammarException` iff some line lacks exactly one `->` or a one-word head; otherwise the productions in order, the heads as non-terminals, and the body words that are neither heads nor `epsilon` as terminals |
| Analyser.ReadLine | cmp/grammarAnalyzer.py:53-61 | a line is read iff it is well formed, into its head and its `|`-separated bodies |
| Analyser.AddBodies | cmp/grammarAnalyzer.py:61-63 | the bodies of a line are appended as productions and their words as terminal candidates |
| Analyser.ParsedCoherent | cmp/grammarAnalyzer.py:68-69 | the collected non-terminals, terminals and productions agree with each other |
| Analyser.FromData | cmp/grammarAnalyzer.py:71-77 | the grammar built from the data is well formed, keeps the given order of non-terminals and terminals and the start, and one production per entry with its head |
| Analyser.Scan | cmp/grammarAnalyzer.py:96-102 | the tokens are scanned iff every one names a symbol, each mapped to that symbol |
| Analyser.TokenizeWord | cmp/grammarAnalyzer.py:92-106 | a line is recognised iff every space-separated token names a symbol; then it becomes those symbols and EOF, otherwise it is kept as text |
| Analyser.TokenizeJoined | cmp/grammarAnalyzer.py:92-106 | symbol names joined by spaces tokenise back to the symbols followed by EOF |
| Analyser.NumbersFacts | cmp/grammarAnalyzer.py:168-179 | the start is state 0, every other non-terminal gets a number from 1 up to their count, and no two share a number |
| Analyser.NumbersBelow | cmp/grammarAnalyzer.py:168-179 | with distinct non-terminals including the start, every number is below their count |
| Analyser.DestsIn | cmp/grammarAnalyzer.py:185-202 | a destination is listed under a key iff some production with a terminal body moves from that key's state on that symbol to it |
| Analyser.FinalsIn | cmp/grammarAnalyzer.py:189-205 | a state is final iff it is the state of a head with an ε-body, or it is the extra state and some body has one symbol |
| Analyser.FinalsExtra | cmp/grammarAnalyzer.py:198-211 | the extra state is final iff some production has a one-symbol body |
| Analyser.Place | cmp/grammarAnalyzer.py:185-206 | one more production keeps the finals and the transition lists those of the productions so far |
| Analyser.RegularTranslatable | cmp/grammarAnalyzer.py:129-208 | a grammar `IsRegular` accepts is translated to an NFA without raising |
| Analyser.GrammarAnalyser.constructor | cmp/grammarAnalyzer.py:12-44 | after the grammar is read, nothing is computed and the list of words is empty |
| Analyser.GrammarAnalyser.ComputeFirst | cmp/grammarAnalyzer.py:79-80 | FIRST is the least solution, with the local FIRST of every body |
| Analyser.GrammarAnalyser.ComputeFollow | cmp/grammarAnalyzer.py:82-83 | FOLLOW is the least solution, one set per non-terminal |
| Analyser.GrammarAnalyser.LL1 | cmp/grammarAnalyzer.py:108-110 | the table is built, the grammar is LL(1) iff the table has no conflict, and a conflict is kept iff there is one |
| Analyser.GrammarAnalyser.SLR1 | cmp/grammarAnalyzer.py:112-116 | a new SLR(1) parser, and its flag copied |
| Analyser.GrammarAnalyser.LR1 | cmp/grammarAnalyzer.py:118-122 | a new LR(1) parser, and its flag copied |
| Analyser.GrammarAnalyser.LALR1 | cmp/grammarAnalyzer.py:124-127 | a new LALR(1) parser, with `isLALR1` left as it was |
| Analyser.GrammarAnalyser.Tokenizer | cmp/grammarAnalyzer.py:85-106 | empty text clears the words; otherwise one tokenised word per `\r\n` line is appended |
| Analyser.GrammarAnalyser.TokenizeOne | cmp/grammarAnalyzer.py:93-106 | the loop over the tokens of a line computes its tokenisation |
| Analyser.GrammarAnalyser.IsRegular | cmp/grammarAnalyzer.py:129-160 | true iff every body is ε at the start, a terminal, or a terminal then a non-terminal, and the start does not both have an ε-body and occur in a body; the answer is kept |
| Analyser.GrammarAnalyser.RegularAutomata | cmp/grammarAnalyzer.py:162-215 | succeeds iff every production translates; the NFA is the regular grammar's automaton and the DFA its determinisation, with both label maps |
| Analyser.GrammarAnalyser.BuildNfa | cmp/grammarAnalyzer.py:162-213 | the NFA exists iff every production translates, and is the regular grammar's automaton from state 0 |
| Analyser.GrammarAnalyser.Numbering | cmp/grammarAnalyzer.py:168-179 | the loop numbers the non-terminals as `Numbers` says |
| Analyser.GrammarAnalyser.Translate | cmp/grammarAnalyzer.py:185-208 | the loop over the productions succeeds iff every one translates, and then lists exactly the finals and transitions of the NFA |
| Analyser.GrammarAnalyser.RegexFromDfa | cmp/grammarAnalyzer.py:217-218 | the outcome of `regex_from_dfa` on the DFA is kept; it never ends when the start loops on itself without being final, and with one final it is read off as `RegexSynthesis.ReadOff` says; with at most one final it runs out of fuel only when the fuel is no more than the states |
| Analyser.GrammarAnalyser.GetParserType | cmp/grammarAnalyzer.py:221-226 | "right" when a shift-reduce flag is true, else "left" when LL(1), else unchanged |
| Analyser.GrammarAnalyser.GetDerivations | cmp/grammarAnalyzer.py:229-234 | one entry per word is appended: the parser's output for a recognised word, nothing otherwise |
| Analyser.GrammarAnalyser.WithoutLeftRecursion | cmp/grammarAnalyzer.py:246-247 | the result is kept when the pass finishes; it keeps the terminals, the start and the non-terminals and is free of immediate left recursion; on a registered grammar it never raises and is the grammar `LeftRecursion.Passes` reaches |
| Analyser.GrammarAnalyser.WithoutCommonPrefix | cmp/grammarAnalyzer.py:249-250 | left factoring of the grammar without left recursion: the non-terminals extend the old list, terminals and start are kept, and for a plain grammar every original non-terminal is factored; with enough fuel a plain grammar always gets a result |
| Analyser.GrammarAnalyser.AlmostFNCh | cmp/grammarAnalyzer.py:253-258 | useless symbols, then ε-productions, then unit productions are removed, each pass applied to the previous result |
| Automata.LabelsNonblank | cmp/automata.py:259-278 | since every symbol is non-empty, every label in `out_transitions` is non-empty |
| RegexSynthesis.EliminationForgets | cmp/tools.py:554-582 | after eliminating `q` no row has `q` as a key or an entry |
| RegexSynthesis.EliminationReroutes | cmp/tools.py:555-574 | for every source `p` and target `r` of `q` (other than `q`), the edge `p -> r` becomes the old label alternated with `in[q][p]`, the starred loop of `q`, and `out[q][r]`, or just that when there was no edge; the same in both maps |
| RegexSynthesis.EliminationKeeps | cmp/tools.py:554-582 | every other edge keeps its presence and its label |
| RegexSynthesis.EliminationMirror | cmp/tools.py:554-582 | eliminating a state keeps `in_transitions` the mirror of `out_transitions` |
| RegexSynthesis.EliminationNonblank | cmp/tools.py:554-582 | eliminating a state keeps every label non-empty |
| RegexSynthesis.MirrorNonblank | cmp/automata.py:270-278 | mirrored maps with non-empty out-labels have non-empty in-labels |
| RegexSynthesis.MirrorLinked | cmp/tools.py:555-579 | in mirrored maps every source and target of `q` has its own row pointing back at `q`, so the lookups of the elimination succeed |
| RegexSynthesis.RouteFrom | cmp/tools.py:557-574 | the loop over the targets of one source reroutes exactly the pairs of that source |
| RegexSynthesis.RouteAll | cmp/tools.py:555-576 | the loop over the sources reroutes every pair and removes the edges into `q` |
| RegexSynthesis.CutIns | cmp/tools.py:578-579 | the in-rows of `q`'s targets lose their entry for `q` |
| RegexSynthesis.Eliminate | cmp/tools.py:554-582 | eliminating `q` leaves the maps as the elimination functions say and one state fewer |
| RegexSynthesis.LabelledShaped | cmp/automata.py:259-278 | a DFA built by the constructor, with its start among its states, has mirrored non-empty label maps with one row per state |
| RegexSynthesis.AfterAllMirror | cmp/tools.py:545-583 | eliminating states one after another keeps the maps mirrored with non-empty labels and forgets exactly the eliminated states |
| RegexSynthesis.SelfLoopKept | cmp/tools.py:554-582 | eliminating another state keeps a state's loop on itself |
| RegexSynthesis.AfterAllKeepsLoop | cmp/tools.py:545-583 | a loop on a state survives every elimination of other states |
| RegexSynthesis.PushTargets | cmp/tools.py:557-561 | when `q` has another source, its targets that are neither final, the start, nor on the stack are pushed once |
| RegexSynthesis.Pop | cmp/tools.py:546-582 | popping a state other than the start eliminates it and keeps the loop's invariant: no state eliminated twice, no final nor the start eliminated, one state fewer each time |
| RegexSynthesis.StartPop | cmp/tools.py:550-553 | popping the start pushes its non-final targets; the start is back on the stack iff it loops on itself without being final |
| RegexSynthesis.Reduce | cmp/tools.py:542-583 | the stack loop eliminates distinct states, never a final nor the start; it never ends when the start loops on itself without being final, and otherwise ends within as many turns as states |
| RegexSynthesis.ReduceStep | cmp/tools.py:545-582 | one turn of the stack loop keeps its invariant: the maps are those after eliminating the states popped so far, none final nor the start; from the second turn on the start is on the stack iff it loops on itself without being final, and otherwise every turn after the first eliminates a state |
| RegexSynthesis.AlternationEmpty | cmp/tools.py:606-611 | the expression read off one final is empty iff every incoming label is |
| RegexSynthesis.AlternationMentions | cmp/tools.py:606-611 | every incoming label shows up in the expression |
| RegexSynthesis.UnionEmpty | cmp/tools.py:593-598 | the joined alternatives are empty iff every alternative is |
| RegexSynthesis.UnionMentions | cmp/tools.py:593-598 | every non-empty alternative shows up in parentheses |
| RegexSynthesis.ReadIncoming | cmp/tools.py:606-611 | the loop visits every source of the final other than itself once and builds their alternation |
| RegexSynthesis.ReadOffAlternation | cmp/tools.py:601-611 | the expression read off a final is empty iff only its loop enters it, and mentions every other incoming label followed by the starred loop |
| RegexSynthesis.ReadFinal | cmp/tools.py:600-611 | the last final is popped; an empty list or a final without a row raises; otherwise the expression is the alternation of its incoming labels |
| RegexSynthesis.JoinAlternatives | cmp/tools.py:593-598 | the loop over the alternatives computes their union |
| RegexSynthesis.FinalExp | cmp/tools.py:616-618 | `final_exp` keeps only the given final and never ends when the copy's start loops on itself without being that final |
| RegexSynthesis.Alternatives | cmp/tools.py:584-598 | with several finals, an edge left at a state that is neither the start nor a final raises; otherwise the result is the union of one expression per final |
| RegexSynthesis.RegexFromDfa | cmp/tools.py:539-614 | the states eliminated are distinct and neither final nor the start; a looping non-final start never ends; no final raises; one final with a row gives an expression as `ReadOff` says; several give the union of their expressions; with at most one final, `OutOfFuel` only when the start does not loop and the fuel is no more than the states |
| RegexSynthesis.CycleLost | cmp/tools.py:545-611 | on the DFA `0 -a-> 1`, `1 -b-> 0` with final 1 (language `a(ba)*`) no state can be eliminated and the final is read off as `a`, so the cycle through the final is lost |

## Left out

- Grammar library internals (`Grammar.copy`, `AugmentedGrammar`, `Sentence`, `Item`, `ContainerSet`): those files are not part of this model; minimal stand-ins are stated above.
- Aliasing of non-terminals between a grammar and its copies: the passes assign `nt.productions` on symbols shared with the input grammar, so the input is changed too; the model returns a new grammar value and leaves the input as it was.
- Useless.WithoutUselessSymbols: the order of `M` follows the production list; the contract states the non-terminal set and not its order.
- Useless.WithoutUselessSymbols: requires distinct non-terminal names, because non-terminals are modelled by their names. The source compares `len(M)` with `len(G.nonTerminals)` by object (cmp/tools.py:372), so it also handles a list that names one non-terminal twice. The left factoring produces such a list whenever one non-terminal has two factored groups: both new objects are named `A_prima` (CommonPrefix.TwoPrimes). Such a grammar is not covered.
- Debug `print` output.
- Unitary.WithoutUnitaryProductions: the production list is stated as a set, with the kept productions as a prefix and the inherited ones appended once each; their exact order (first by non-terminal, then by the order of `H`) is not stated.
- Unitary.WithoutUnitaryProductions: `NonTerminal(name, True)` is taken to append the non-terminal and make it the start symbol.
- LeftRecursion.RemoveImmediate: the production list is stated up to order (as a multiset).
- LeftRecursion.WithoutLeftRecursion: the outer loop takes a `fuel` bound on its turns and returns `Unfinished` when it runs out, because on `A -> A` the source never stops (`SelfLoopRepeats`).
- LeftRecursion.WithoutLeftRecursion: the absence of left recursion is stated for results whose non-terminal names are distinct; an input name ending in `_prima` can clash with a new one, and then a rule list is overwritten.
- CommonPrefix.WithoutCommonPrefix: the stack loop takes a `fuel` bound on its turns and returns `None` when it runs out; the source stops on every input, but its measure (body lengths under a multiset ordering) is not stated.
- CommonPrefix.WithoutCommonPrefix: each `NonTerminal('A_prima')` object is modelled by its name. Two groups of one non-terminal both create `A_prima`, so the rule map keeps the later list only.
- CommonPrefix.WithoutCommonPrefix: the factoring is stated for the original non-terminals of a plain grammar (distinct names, none ending in `_prima`, each list headed by its own non-terminal and without repetitions). The primed non-terminals are stated only to have two or more productions in the result; their productions may still share a first symbol, because the nested `A_prima_prima` productions are added beside them.
- CommonPrefix.WithoutCommonPrefix: the production list is stated as a set; the order in which the productions are appended is not stated.
- Indirect left recursion (`A -> B …`, `B -> A …`) is not removed by the source and is not stated either.
- Regular expression trees are values: `UnionNode.simplify`, `removeEpsilon` and `ConcatNode.evaluate` rebuild or rewrite `self.childs` in place, and the model returns the rewritten tree instead. The shared mutable default `childs=[]` of `UnionNode` and `ConcatNode`, and `ConcatNode` keeping the caller's list rather than a copy, are aliasing effects that the model does not capture.
- RegexTrees.Evaluate: the language the tree denotes is not modelled, so the contract does not say that simplification keeps the language; it states the normal form of the result.
- Automata.NfaToDfa: requires every destination of the NFA to be one of its states; the source only fails on such a destination when the search reaches it.
- Python set and dictionary iteration order (the vocabulary, `set(finals)`, the symbols of a `State`, the successors in `_visit`, the edges in `convert_automaton`) is left open: the model picks an arbitrary element each time, and the contracts hold for every order.
- Automata.Dfa.ConvertAutomaton: when two edges of a state carry the same label, which destination survives depends on the iteration order; the contract only says it is one of them.
- The `State` objects of a graph are named by their index in one `Graph`; the objects `to_deterministic` creates are fresh and unaliased, so the model builds them as values and wraps them in a new graph. `from_nfa`, `set_formatter`, the display labels and formatters are not modelled.
- StateGraphs.DetSameLanguage, Automata.SameLanguage: stated for strings whose symbols are non-empty; an empty symbol reads the ε-transitions through `state['']` and is not a symbol of the DFA.
- Exceptions (`KeyError`, `AssertionError`) are modelled as a failed result (`None`, `false` or `null`); which exception and its message are not.
- `Grammar.from_json` is not part of this model: Analyser.FromData takes the order of the non-terminals and terminals and the start symbol as parameters.
- `parseGrammar` checks `len(head[0]) > 1`, the length of the first character of the head, which is never more than 1; the check is left out because it never raises.
- `doTheTree`, `write_to`, the SVG output, the state tags of `RegularAutomata` and `verbose` printing are display only and are left out.
- Lalr.LalrParser: the merged automaton is not proved to have one destination per symbol; the table entries are stated through the first destination, as the source reads them.
- Lalr.Merge: the source rebinds `item.lookaheads` on the center items of the new state; the model builds the merged items as values.
- Analyser.GrammarAnalyser.LALR1: the source never sets `isLALR1`, so it keeps its old value; the model does the same. Its tables are those of the corrected merge, as for Lalr.LalrParser.
- Analyser.GrammarAnalyser.LL1: the predictive parser closure is represented by the table it parses with; LL1.Parse runs it.
- ShiftReduce.Parser.Call, LL1.Parse, RegexSynthesis.RegexFromDfa, LeftRecursion.WithoutLeftRecursion, CommonPrefix.WithoutCommonPrefix and the analyser methods that call them take a `fuel` bound on the turns of their loops. Running out is its own outcome: `OutOfFuel` for the first three, `Unfinished` for the left-recursion pass and `None` for the left factoring, which has no other failure. `Diverged` is kept for the loop of `regex_from_dfa` that the source never leaves.
- ShiftReduce.Parser.Call: no round trip is stated from an accepted run back to the grammar (that the reversed output is a rightmost derivation of the input); the contract states the driver's steps, and the tables' entries are stated by the parser builders.
- RegexSynthesis.RegexFromDfa: the language of the expression is not modelled, and the source does not keep the DFA's language. The start is never eliminated (cmp/tools.py:550-553) and only the in-edges of the final are read (cmp/tools.py:600-611). On the DFA `0 -a-> 1`, `1 -b-> 0` with final 1 (the regular automaton of `S -> a A | a`, `A -> b S`), whose language is `a(ba)*`, the result is `a` (RegexSynthesis.CycleLost). The contract states the text the source builds, not a language.
- Analyser.GrammarAnalyser.RegexFromDfa: inherits the gap of RegexSynthesis.RegexFromDfa; the expression kept is not stated to denote the grammar's language.
- Lalr.Gather: built on the corrected merge of the Findings (each item gains the lookaheads of its own center only), not on `merge` as written; as written, the state merged for `S -> a A d | a B e`, `A -> c`, `B -> c` has a reduce/reduce conflict (Lalr.MergeAsWrittenClash), which is stated at the level of that state only.
- Lalr.MergeStep: uses the corrected merge, as Lalr.Gather does; the widening of `merge` as written is not carried into the merged states.
- Lalr.Group: the merged states are those of the corrected merge, as for Lalr.Gather.
- Lalr.MergeStates: the merged automaton is that of the corrected merge, as for Lalr.Gather.
- Lalr.LalrAutomaton: the LALR(1) automaton is that of the corrected merge, as for Lalr.Gather; the automaton the source builds can carry extra lookaheads.
- Lalr.LalrParser: the tables and the conflict flag are those of the corrected merge; the source's tables can hold the extra reduce/reduce conflict shown by Lalr.MergeAsWrittenClash, and its flag can then be false where the model's is true.
- Lalr.LalrReduce: the reduce entries are those of the corrected merge; as written, a merged state also reduces on the lookaheads of items with other centers.
- `isSLR1 ⇒ isLR1` (every SLR(1) grammar is LR(1)) is not stated: the SLR(1) and LR(1) builders run on two different automata (LR(0) items with Follow sets, LR(1) items), and the model does not relate their states.
- The expression grammar `E -> T X`, `X -> + T X | - T X | ε`, `T -> F Y`, `Y -> * F Y | / F Y | ε`, `F -> ( E ) | i` run end to end (LL(1), SLR(1), LR(1) and LALR(1), `i + i - i` accepted) is not stated: the items, closures and tables of a grammar of that size are beyond what the verifier evaluates on concrete values here; LeftRecursion.ExpressionGrammar states the left-recursion pass on `E -> E + T | T`, `T -> i`.
- Analyser.GrammarAnalyser.AlmostFNCh: requires the non-terminal names of its input to be distinct. The left factoring does not guarantee this: a non-terminal with two factored groups gets two `A_prima` objects of one name (CommonPrefix.TwoPrimes, for `A -> a b | a c | d e | d f`), and the source still removes the useless symbols of such a grammar. This method does not cover that grammar.
- Analyser.GrammarAnalyser.RegexFromDfa: requires the DFA built by `RegularAutomata` (label maps mirrored, non-empty labels, start among the states); the source is only ever called on that DFA.
- RegexSynthesis.RegexFromDfa: the order in which `regex_from_dfa` visits the rows of the label dictionaries is left open. The contract states which states are eliminated and what the maps become, but not the exact text of an expression built from several rows, since that text depends on the order.
- RegexSynthesis.RegexFromDfa: with several finals, `convert_indexs` is called once, on the first turn, because it always returns a non-empty map. The finals it renumbers are those of the DFA after elimination. The copy is determinised afresh and numbered by subsets, while the final handed to `final_exp` keeps the number `convert_indexs` gave it. The model follows the code; the contract for several finals states only how the alternatives are joined.
- RegexSynthesis.FinalExp: the contract states divergence only; what the copy's expression means is not stated, because the copy's numbering differs from the one the final is given in.
- RegexSynthesis.Reduce: the label maps are modelled as values reassigned on the DFA object; the source updates the dictionaries of the DFA in place, and both give the same final maps.
- Strings in labels and expressions are Python `str` values modelled as `seq<char>`; no encoding is modelled.

## Findings

| source | as written | input that shows it | evidently intended | confidence | as-written member | corrected member |
|---|---|---|---|---|---|---|
| cmp/tools.py:149-153 | the predictive parser accepts when its stack empties, whatever input is left | grammar `S -> a`, input `a b $`: the parser returns the derivation `S -> a` | accept only when the stack empties at EOF | not executed | LL1.PrefixAccepted | LL1.ParseSound |
| cmp/shiftReduceParsers.py:283-285 | `merge` widens every item of the merged state by the lookaheads of all the matched items | state `{A -> c., {d}; B -> c., {e}}` of `S -> a A d | a B e`, `A -> c`, `B -> c`: both reductions get `{d, e}`, a reduce/reduce conflict the grammar does not have | each item gains only the lookaheads of the item with its own center | not executed | Lalr.MergeAsWrittenClash | Lalr.MergeByCenterNoClash |
