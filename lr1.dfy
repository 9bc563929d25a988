/** The LR(1) parser (cmp/shiftReduceParsers.py, `LR1Parser`): the
    automaton whose states are the compressed closures of LR(1) kernels,
    one state per distinct kernel, and its table, whose REDUCE entries use
    each item's own lookaheads. */
module Lr1 {
  import opened Grammars
  import opened Containers
  import opened Dataflow
  import opened ShiftReduce
  import opened StateGraphs
  import opened Lr1Items
  import Slr
  import Automata

  /** `firsts[G.EOF] = ContainerSet(G.EOF)`: FIRST with an entry for EOF. */
  function WithEof(firsts: Firsts): Firsts {
    firsts[EOF := FSet({EOF}, false)]
  }

  /** FIRST of a grammar, with EOF added, is a table the LR(1) item
      operations can work with, and EOF is one of its symbols. */
  lemma EofBase(G: Grammar, F: Firsts)
    requires WellFormed(G) && Consistent(G)
    requires F.Keys == AllSymbols(G) && forall s :: s in F ==> F[s].items <= TerminalSymbols(G)
    ensures Base(G, WithEof(F)) && EOF in FirstSymbols(WithEof(F))
  {
    var F' := WithEof(F);
    assert EOF in F'[EOF].items;
    forall x | x in FirstSymbols(F') ensures x in F' {
      var s :| s in F' && x in F'[s].items;
      if s != EOF {
        assert x in TerminalSymbols(G);
      }
    }
  }

  /** The start kernel: the item `S' -> .S` with lookahead EOF. */
  function StartKernel(g: Grammar): set<Item> {
    {Item(Production(AugmentedStart, [N(g.start)]), 0, {EOF})}
  }

  /** `G.terminals + G.nonTerminals`, as symbols: every symbol of the
      grammar, each name in the order of the two lists. */
  function Symbols(G: Grammar): (r: seq<Symbol>)
    ensures Elems(r) == AllSymbols(G)
    ensures |r| == |G.terminals + G.nonTerminals|
    ensures forall j :: 0 <= j < |r| ==> r[j].name == (G.terminals + G.nonTerminals)[j]
  {
    var ts := seq(|G.terminals|, j requires 0 <= j < |G.terminals| => T(G.terminals[j]));
    var ns := seq(|G.nonTerminals|, j requires 0 <= j < |G.nonTerminals| => N(G.nonTerminals[j]));
    var r := ts + ns;
    assert Elems(r) == AllSymbols(G) by {
      forall s | s in AllSymbols(G) ensures s in Elems(r) {
        if s in TerminalSymbols(G) {
          var j :| 0 <= j < |G.terminals| && s == T(G.terminals[j]);
          assert r[j] == s;
        } else {
          var j :| 0 <= j < |G.nonTerminals| && s == N(G.nonTerminals[j]);
          assert r[|ts| + j] == s;
        }
      }
      forall s | s in Elems(r) ensures s in AllSymbols(G) {
        var j :| 0 <= j < |r| && r[j] == s;
        if j < |ts| {
          assert s == T(G.terminals[j]) && G.terminals[j] in G.terminals;
        } else {
          assert s == N(G.nonTerminals[j - |ts|]) && G.nonTerminals[j - |ts|] in G.nonTerminals;
        }
      }
    }
    r
  }

  /** No two symbols of `syms` share a name. */
  predicate DistinctNames(syms: seq<Symbol>) {
    forall i, j :: 0 <= i < j < |syms| ==> syms[i].name != syms[j].name
  }

  lemma SymbolsDistinct(G: Grammar)
    requires NoDup(G.terminals + G.nonTerminals)
    ensures DistinctNames(Symbols(G))
  {
  }

  /** The kernel reached from the state of kernel `K` on `s`: the items of
      the compressed closure of `K` with `s` after the dot, advanced. */
  ghost function Goto(G: Grammar, firsts: Firsts, K: set<Item>, s: Symbol): set<Item>
    requires Base(G, firsts) && Lr1Set(G, firsts, K)
  {
    Kernel(Compressed(Lr1Closure(G, firsts, K)), s)
  }

  /** A set of kernels holding every non-empty kernel reached from its
      members on a symbol of the grammar. */
  ghost predicate GotoClosed(G: Grammar, firsts: Firsts, X: set<set<Item>>)
    requires Base(G, firsts)
  {
    forall K, s :: K in X && Lr1Set(G, firsts, K) && s in AllSymbols(G) && Goto(G, firsts, K, s) != {} ==>
      Goto(G, firsts, K, s) in X
  }

  /** Every kernel met so far is reachable from the start kernel. */
  ghost predicate Reached(G: Grammar, firsts: Firsts, start: set<Item>, kernels: seq<set<Item>>)
    requires Base(G, firsts)
  {
    forall X :: start in X && GotoClosed(G, firsts, X) ==> Elems(kernels) <= X
  }

  /** The kernels of the items `S` on each symbol of `syms`, in order. */
  ghost function Kernels(S: set<Item>, syms: seq<Symbol>): (ks: seq<set<Item>>)
    ensures |ks| == |syms| && forall j :: 0 <= j < |syms| ==> ks[j] == Kernel(S, syms[j])
  {
    seq(|syms|, j requires 0 <= j < |syms| => Kernel(S, syms[j]))
  }

  /** Every kernel among the first `n` of `ks` that is not empty has a
      state. */
  ghost predicate Found(ks: seq<set<Item>>, n: nat, visited: map<set<Item>, nat>)
    requires n <= |ks|
  {
    forall j :: 0 <= j < n && ks[j] != {} ==> ks[j] in visited
  }

  /** The state `LR1_automaton` makes once the first `n` symbols are tried,
      `ks` being the kernels of its items on the symbols: each symbol whose
      kernel is not empty appends the state of that kernel to the list of
      its name. */
  ghost function Row(syms: seq<Symbol>, ks: seq<set<Item>>, n: nat, visited: map<set<Item>, nat>): Node
    requires n <= |syms| == |ks| && Found(ks, n, visited)
  {
    if n == 0 then Node(true, map[], {})
    else if ks[n - 1] == {} then Row(syms, ks, n - 1, visited)
    else AddTo(Row(syms, ks, n - 1, visited), syms[n - 1].name, visited[ks[n - 1]])
  }

  /** Trying one more symbol adds its kernel's state to the row, if the
      kernel is not empty. */
  lemma RowStep(syms: seq<Symbol>, ks: seq<set<Item>>, i: nat, visited: map<set<Item>, nat>)
    requires i < |syms| == |ks| && Found(ks, i, visited) && (ks[i] != {} ==> ks[i] in visited)
    ensures Found(ks, i + 1, visited)
    ensures ks[i] == {} ==> Row(syms, ks, i + 1, visited) == Row(syms, ks, i, visited)
    ensures ks[i] != {} ==> Row(syms, ks, i + 1, visited) == AddTo(Row(syms, ks, i, visited), syms[i].name, visited[ks[i]])
  {
  }

  /** The map `visited` only grows, keeping what it had. */
  ghost predicate Grows(visited0: map<set<Item>, nat>, visited: map<set<Item>, nat>) {
    visited0.Keys <= visited.Keys && forall K :: K in visited0 ==> visited[K] == visited0[K]
  }

  lemma {:induction false} RowGrow(syms: seq<Symbol>, ks: seq<set<Item>>, n: nat, visited: map<set<Item>, nat>,
                                   visited': map<set<Item>, nat>)
    requires n <= |syms| == |ks| && Found(ks, n, visited) && Grows(visited, visited')
    ensures Found(ks, n, visited') && Row(syms, ks, n, visited') == Row(syms, ks, n, visited)
  {
    if n > 0 {
      RowGrow(syms, ks, n - 1, visited, visited');
    }
  }

  /** A state made by `Row` is final and has no ε-edges. */
  lemma {:induction false} RowShape(syms: seq<Symbol>, ks: seq<set<Item>>, n: nat, visited: map<set<Item>, nat>)
    requires n <= |syms| == |ks| && Found(ks, n, visited)
    ensures Row(syms, ks, n, visited).final && Row(syms, ks, n, visited).epsilon == {}
  {
    if n > 0 {
      RowShape(syms, ks, n - 1, visited);
    }
  }

  /** A state made by `Row` has a transition on exactly the names of the
      symbols tried whose kernel is not empty. */
  lemma {:induction false} RowKeys(syms: seq<Symbol>, ks: seq<set<Item>>, n: nat, visited: map<set<Item>, nat>, name: string)
    requires n <= |syms| == |ks| && Found(ks, n, visited)
    ensures name in Row(syms, ks, n, visited).transitions <==> exists j :: 0 <= j < n && ks[j] != {} && syms[j].name == name
  {
    if n > 0 {
      RowKeys(syms, ks, n - 1, visited, name);
    }
  }

  /** Every transition list of a state made by `Row` has a destination. */
  lemma {:induction false} RowListed(syms: seq<Symbol>, ks: seq<set<Item>>, n: nat, visited: map<set<Item>, nat>, name: string)
    requires n <= |syms| == |ks| && Found(ks, n, visited)
    requires name in Row(syms, ks, n, visited).transitions
    ensures |Row(syms, ks, n, visited).transitions[name]| > 0
  {
    if ks[n - 1] == {} || syms[n - 1].name != name {
      RowListed(syms, ks, n - 1, visited, name);
    }
  }

  /** With distinct names, the list of the name of a tried symbol whose
      kernel is not empty holds the state of that kernel alone. */
  lemma {:induction false} RowDistinct(syms: seq<Symbol>, ks: seq<set<Item>>, n: nat, visited: map<set<Item>, nat>, j: nat)
    requires n <= |syms| == |ks| && Found(ks, n, visited) && DistinctNames(syms)
    requires j < n && ks[j] != {}
    ensures syms[j].name in Row(syms, ks, n, visited).transitions
    ensures Row(syms, ks, n, visited).transitions[syms[j].name] == [visited[ks[j]]]
  {
    if j == n - 1 {
      RowKeys(syms, ks, n - 1, visited, syms[j].name);
      assert syms[j].name !in Row(syms, ks, n - 1, visited).transitions;
    } else {
      RowDistinct(syms, ks, n - 1, visited, j);
    }
  }

  /** State `k` stands for kernel `kernels[k]`, and `visited` finds it. */
  ghost predicate Indexed(kernels: seq<set<Item>>, visited: map<set<Item>, nat>) {
    && visited.Keys == Elems(kernels)
    && (forall k :: 0 <= k < |kernels| ==> visited[kernels[k]] == k)
  }

  /** The items of each state are the compressed closure of its kernel. */
  ghost predicate Closures(G: Grammar, firsts: Firsts, states: seq<set<Item>>, kernels: seq<set<Item>>)
    requires Base(G, firsts)
  {
    && |states| == |kernels|
    && (forall k :: 0 <= k < |kernels| ==>
          && Lr1Set(G, firsts, kernels[k]) && Lr1Set(G, firsts, states[k])
          && states[k] == Compressed(Lr1Closure(G, firsts, kernels[k])))
  }

  ghost predicate Labelled(G: Grammar, firsts: Firsts, states: seq<set<Item>>, kernels: seq<set<Item>>,
                           visited: map<set<Item>, nat>)
    requires Base(G, firsts)
  {
    Indexed(kernels, visited) && Closures(G, firsts, states, kernels)
  }

  /** The kernels waiting in `pending` are distinct and their states are
      still bare. */
  ghost predicate Waiting(ns: seq<Node>, kernels: seq<set<Item>>, pending: seq<set<Item>>) {
    && |ns| == |kernels|
    && NoDup(pending) && Elems(pending) <= Elems(kernels)
    && (forall k :: 0 <= k < |kernels| && kernels[k] in pending ==> ns[k] == Node(true, map[], {}))
  }

  /** State `k` is complete: it is what `Row` makes of its items after
      every symbol. */
  ghost predicate Built(syms: seq<Symbol>, ns: seq<Node>, states: seq<set<Item>>, visited: map<set<Item>, nat>, k: nat)
    requires k < |ns| && k < |states|
  {
    Found(Kernels(states[k], syms), |syms|, visited) && ns[k] == Row(syms, Kernels(states[k], syms), |syms|, visited)
  }

  /** What every turn of `LR1_automaton` keeps. */
  ghost predicate Frame(G: Grammar, firsts: Firsts, syms: seq<Symbol>, start: set<Item>, ns: seq<Node>,
                        states: seq<set<Item>>, kernels: seq<set<Item>>, visited: map<set<Item>, nat>,
                        pending: seq<set<Item>>)
    requires Base(G, firsts)
  {
    && |kernels| >= 1 && kernels[0] == start && |ns| == |kernels|
    && Labelled(G, firsts, states, kernels, visited)
    && Closed(ns)
    && Waiting(ns, kernels, pending)
    && Elems(syms) == AllSymbols(G)
    && Reached(G, firsts, start, kernels)
  }

  /** Every state whose kernel has left `pending`, other than `except`, is
      complete. */
  ghost predicate BuiltBut(syms: seq<Symbol>, ns: seq<Node>, states: seq<set<Item>>, kernels: seq<set<Item>>,
                           visited: map<set<Item>, nat>, pending: seq<set<Item>>, except: int)
    requires |ns| == |kernels| == |states|
  {
    forall k :: 0 <= k < |kernels| && kernels[k] !in pending && k != except ==> Built(syms, ns, states, visited, k)
  }

  /** The LR(1) automaton: one state per distinct kernel, the start kernel
      first; the items of each state are the compressed closure of its
      kernel; every state is complete; the kernels are exactly those
      reachable from the start kernel. */
  ghost predicate KernelAutomaton(G: Grammar, firsts: Firsts, syms: seq<Symbol>, start: set<Item>, ns: seq<Node>,
                                  states: seq<set<Item>>, kernels: seq<set<Item>>)
    requires Base(G, firsts)
  {
    && |ns| == |kernels| >= 1 && kernels[0] == start && NoDup(kernels)
    && Closed(ns)
    && (exists visited :: Labelled(G, firsts, states, kernels, visited) &&
          forall k :: 0 <= k < |kernels| ==> Built(syms, ns, states, visited, k))
    && GotoClosed(G, firsts, Elems(kernels))
    && Reached(G, firsts, start, kernels)
  }

  /** Compressing LR(1) items gives LR(1) items. */
  lemma CompressedItems(G: Grammar, firsts: Firsts, C: set<Item>)
    requires Lr1Set(G, firsts, C)
    ensures Lr1Set(G, firsts, Compressed(C))
  {
    forall a | a in Compressed(C) ensures Lr1Item(G, firsts, a) {
      var x :| x in C && a == Item(x.production, x.pos, CenterLookaheads(C, x.Center()));
      forall y | y in a.lookaheads ensures y in FirstSymbols(firsts) {
        var z, w :| z in C && z.Center() == x.Center() && w in z.lookaheads && y == w;
      }
    }
  }

  /** A new kernel, reachable from the start kernel, gets a bare state of
      its own, waiting in `pending`. */
  lemma Added(G: Grammar, firsts: Firsts, syms: seq<Symbol>, start: set<Item>, ns: seq<Node>,
              states: seq<set<Item>>, kernels: seq<set<Item>>, visited: map<set<Item>, nat>, pending: seq<set<Item>>,
              kernel: set<Item>)
    requires Base(G, firsts)
    requires Frame(G, firsts, syms, start, ns, states, kernels, visited, pending)
    requires kernel !in visited && Lr1Set(G, firsts, kernel) && Reached(G, firsts, start, kernels + [kernel])
    ensures Frame(G, firsts, syms, start, ns + [Node(true, map[], {})], states + [Compressed(Lr1Closure(G, firsts, kernel))],
                  kernels + [kernel], visited[kernel := |ns|], pending + [kernel])
  {
    assert kernel !in kernels by { assert kernel !in Elems(kernels); }
    AddedLabelled(G, firsts, states, kernels, visited, kernel);
    AddedClosed(ns);
    AddedWaiting(ns, kernels, pending, kernel);
  }

  lemma AddedWaiting(ns: seq<Node>, kernels: seq<set<Item>>, pending: seq<set<Item>>, kernel: set<Item>)
    requires Waiting(ns, kernels, pending) && kernel !in kernels
    ensures Waiting(ns + [Node(true, map[], {})], kernels + [kernel], pending + [kernel])
  {
    assert kernel !in pending by { assert kernel !in Elems(kernels); }
    NoDupAppend(pending, kernel);
    assert Elems(pending + [kernel]) == Elems(pending) + {kernel};
    assert Elems(kernels + [kernel]) == Elems(kernels) + {kernel};
    forall k | 0 <= k < |kernels| + 1 && (kernels + [kernel])[k] in pending + [kernel]
      ensures (ns + [Node(true, map[], {})])[k] == Node(true, map[], {})
    {
      if k < |kernels| {
        assert kernels[k] != kernel;
        assert kernels[k] in pending;
      }
    }
  }

  lemma AddedLabelled(G: Grammar, firsts: Firsts, states: seq<set<Item>>, kernels: seq<set<Item>>,
                      visited: map<set<Item>, nat>, kernel: set<Item>)
    requires Base(G, firsts) && Labelled(G, firsts, states, kernels, visited)
    requires kernel !in visited && Lr1Set(G, firsts, kernel)
    ensures Labelled(G, firsts, states + [Compressed(Lr1Closure(G, firsts, kernel))], kernels + [kernel],
                     visited[kernel := |kernels|])
  {
    AddedIndexed(kernels, visited, kernel);
    AddedClosures(G, firsts, states, kernels, kernel);
  }

  lemma AddedIndexed(kernels: seq<set<Item>>, visited: map<set<Item>, nat>, kernel: set<Item>)
    requires Indexed(kernels, visited) && kernel !in visited
    ensures Indexed(kernels + [kernel], visited[kernel := |kernels|])
  {
    var kernels', visited' := kernels + [kernel], visited[kernel := |kernels|];
    assert Elems(kernels') == Elems(kernels) + {kernel};
    forall k | 0 <= k < |kernels'| ensures visited'[kernels'[k]] == k {
      if k < |kernels| {
        assert kernels[k] in visited;
      }
    }
  }

  lemma AddedClosures(G: Grammar, firsts: Firsts, states: seq<set<Item>>, kernels: seq<set<Item>>, kernel: set<Item>)
    requires Base(G, firsts) && Closures(G, firsts, states, kernels) && Lr1Set(G, firsts, kernel)
    ensures Closures(G, firsts, states + [Compressed(Lr1Closure(G, firsts, kernel))], kernels + [kernel])
  {
    CompressedItems(G, firsts, Lr1Closure(G, firsts, kernel));
  }

  lemma AddedClosed(ns: seq<Node>)
    requires Closed(ns)
    ensures Closed(ns + [Node(true, map[], {})])
  {
    var ns' := ns + [Node(true, map[], {})];
    forall q, r | 0 <= q < |ns'| && r in Successors(ns'[q]) ensures r < |ns'| {
      if q < |ns| {
        assert ns'[q] == ns[q];
      }
    }
  }

  lemma AddedBuilt(syms: seq<Symbol>, ns: seq<Node>, states: seq<set<Item>>, kernels: seq<set<Item>>,
                   visited: map<set<Item>, nat>, pending: seq<set<Item>>, cur: nat, kernel: set<Item>, C: set<Item>)
    requires |ns| == |kernels| == |states| && kernel !in visited
    requires BuiltBut(syms, ns, states, kernels, visited, pending, cur)
    ensures BuiltBut(syms, ns + [Node(true, map[], {})], states + [C], kernels + [kernel],
                     visited[kernel := |ns|], pending + [kernel], cur)
  {
    var ns', states', kernels' := ns + [Node(true, map[], {})], states + [C], kernels + [kernel];
    var visited', pending' := visited[kernel := |ns|], pending + [kernel];
    assert Grows(visited, visited');
    forall k | 0 <= k < |kernels'| && kernels'[k] !in pending' && k != cur
      ensures Built(syms, ns', states', visited', k)
    {
      assert k < |kernels| && kernels[k] !in pending;
      assert Built(syms, ns, states, visited, k);
      RowGrow(syms, Kernels(states[k], syms), |syms|, visited, visited');
      assert ns'[k] == ns[k] && states'[k] == states[k];
    }
  }

  lemma AddedReached(G: Grammar, firsts: Firsts, start: set<Item>, states: seq<set<Item>>, kernels: seq<set<Item>>,
                     cur: nat, sym: Symbol, kernel: set<Item>)
    requires Base(G, firsts) && Reached(G, firsts, start, kernels)
    requires cur < |kernels| && cur < |states| && Lr1Set(G, firsts, kernels[cur])
    requires states[cur] == Compressed(Lr1Closure(G, firsts, kernels[cur]))
    requires sym in AllSymbols(G) && kernel == Kernel(states[cur], sym) && kernel != {}
    ensures Reached(G, firsts, start, kernels + [kernel])
  {
    forall X | start in X && GotoClosed(G, firsts, X) ensures Elems(kernels + [kernel]) <= X {
      assert kernels[cur] in Elems(kernels);
      assert Goto(G, firsts, kernels[cur], sym) == kernel;
      assert Elems(kernels + [kernel]) == Elems(kernels) + {kernel};
    }
  }

  /** The `try: next_state = visited[kernels] except KeyError: ...` step:
      the state of `kernel`, made, with the compressed closure of the kernel
      as its items, when the kernel is new. */
  method Target(a: Graph, G: Grammar, firsts: Firsts, syms: seq<Symbol>, start: set<Item>, cur: nat, sym: Symbol,
                kernel: set<Item>, states0: seq<set<Item>>, kernels0: seq<set<Item>>, visited0: map<set<Item>, nat>,
                pending0: seq<set<Item>>)
    returns (next: nat, states: seq<set<Item>>, kernels: seq<set<Item>>, visited: map<set<Item>, nat>, pending: seq<set<Item>>)
    requires Base(G, firsts)
    requires Frame(G, firsts, syms, start, a.nodes, states0, kernels0, visited0, pending0)
    requires BuiltBut(syms, a.nodes, states0, kernels0, visited0, pending0, cur)
    requires cur < |kernels0| && kernels0[cur] !in pending0 && sym in AllSymbols(G)
    requires kernel == Kernel(states0[cur], sym) && kernel != {}
    modifies a
    ensures Frame(G, firsts, syms, start, a.nodes, states, kernels, visited, pending)
    ensures BuiltBut(syms, a.nodes, states, kernels, visited, pending, cur)
    ensures |old(a.nodes)| <= |a.nodes| && a.nodes[cur] == old(a.nodes)[cur]
    ensures |states0| <= |states| && states[cur] == states0[cur] && kernels[cur] == kernels0[cur] && kernels[cur] !in pending
    ensures kernel in visited && next == visited[kernel] && next < |a.nodes|
    ensures Grows(visited0, visited)
    ensures visited.Keys == visited0.Keys ==> pending == pending0
  {
    if kernel in visited0 {
      next := visited0[kernel];
      states, kernels, visited, pending := states0, kernels0, visited0, pending0;
      Known(kernels0, visited0, kernel);
      return;
    }
    ghost var ns0 := a.nodes;
    NewKernel(G, firsts, syms, start, a.nodes, states0, kernels0, visited0, pending0, cur, sym, kernel);
    pending := pending0 + [kernel];
    next := a.NewState(true);
    var st := GotoLr1(G, firsts, states0[cur], sym);
    AddedBuilt(syms, ns0, states0, kernels0, visited0, pending0, cur, kernel, st);
    states, kernels, visited := states0 + [st], kernels0 + [kernel], visited0[kernel := next];
  }

  /** A new kernel met from the state `cur` keeps the frame. */
  lemma NewKernel(G: Grammar, firsts: Firsts, syms: seq<Symbol>, start: set<Item>, ns: seq<Node>,
                  states: seq<set<Item>>, kernels: seq<set<Item>>, visited: map<set<Item>, nat>, pending: seq<set<Item>>,
                  cur: nat, sym: Symbol, kernel: set<Item>)
    requires Base(G, firsts)
    requires Frame(G, firsts, syms, start, ns, states, kernels, visited, pending)
    requires cur < |kernels| && sym in AllSymbols(G)
    requires kernel == Kernel(states[cur], sym) && kernel != {} && kernel !in visited
    ensures Lr1Set(G, firsts, kernel) && kernels[cur] != kernel
    ensures Frame(G, firsts, syms, start, ns + [Node(true, map[], {})], states + [Compressed(Lr1Closure(G, firsts, kernel))],
                  kernels + [kernel], visited[kernel := |ns|], pending + [kernel])
  {
    KernelItems(G, firsts, states[cur], sym);
    assert kernels[cur] in visited;
    AddedReached(G, firsts, start, states, kernels, cur, sym, kernel);
    Added(G, firsts, syms, start, ns, states, kernels, visited, pending, kernel);
  }

  lemma Known(kernels: seq<set<Item>>, visited: map<set<Item>, nat>, kernel: set<Item>)
    requires Indexed(kernels, visited) && kernel in visited
    ensures visited[kernel] < |kernels|
  {
    var k :| 0 <= k < |kernels| && kernels[k] == kernel;
  }

  /** Changing the state `cur`, whose kernel has left `pending`, keeps the
      frame. */
  lemma Rewired(G: Grammar, firsts: Firsts, syms: seq<Symbol>, start: set<Item>, ns: seq<Node>, n: Node,
                states: seq<set<Item>>, kernels: seq<set<Item>>, visited: map<set<Item>, nat>, pending: seq<set<Item>>, cur: nat)
    requires Base(G, firsts)
    requires Frame(G, firsts, syms, start, ns, states, kernels, visited, pending)
    requires BuiltBut(syms, ns, states, kernels, visited, pending, cur)
    requires cur < |ns| && kernels[cur] !in pending && Closed(ns[cur := n])
    ensures Frame(G, firsts, syms, start, ns[cur := n], states, kernels, visited, pending)
    ensures BuiltBut(syms, ns[cur := n], states, kernels, visited, pending, cur)
  {
    var ns' := ns[cur := n];
    forall k | 0 <= k < |kernels| && kernels[k] in pending ensures ns'[k] == Node(true, map[], {}) {
      assert k != cur;
    }
    forall k | 0 <= k < |kernels| && kernels[k] !in pending && k != cur ensures Built(syms, ns', states, visited, k) {
      assert Built(syms, ns, states, visited, k);
    }
  }

  /** What the loop over the symbols keeps for the state `cur`, whose items
      are `S`, once the first `i` symbols are tried: every other state out
      of `pending` is complete, and `cur` holds the row of those symbols. */
  ghost predicate Filling(G: Grammar, firsts: Firsts, syms: seq<Symbol>, start: set<Item>, ns: seq<Node>,
                          states: seq<set<Item>>, kernels: seq<set<Item>>, visited: map<set<Item>, nat>,
                          pending: seq<set<Item>>, cur: nat, S: set<Item>, i: nat)
  {
    && Base(G, firsts) && i <= |syms|
    && Frame(G, firsts, syms, start, ns, states, kernels, visited, pending)
    && BuiltBut(syms, ns, states, kernels, visited, pending, cur)
    && cur < |kernels| && states[cur] == S && kernels[cur] !in pending
    && Found(Kernels(S, syms), i, visited) && ns[cur] == Row(syms, Kernels(S, syms), i, visited)
  }

  /** One symbol of `for symbol in G.terminals + G.nonTerminals`: when its
      kernel is not empty, the state of the kernel is found or made and
      added to the transitions of the current state. */
  method Try(a: Graph, G: Grammar, firsts: Firsts, syms: seq<Symbol>, start: set<Item>, cur: nat, S: set<Item>, i: nat,
             states0: seq<set<Item>>, kernels0: seq<set<Item>>, visited0: map<set<Item>, nat>, pending0: seq<set<Item>>)
    returns (states: seq<set<Item>>, kernels: seq<set<Item>>, visited: map<set<Item>, nat>, pending: seq<set<Item>>)
    requires i < |syms| && Filling(G, firsts, syms, start, a.nodes, states0, kernels0, visited0, pending0, cur, S, i)
    modifies a
    ensures Filling(G, firsts, syms, start, a.nodes, states, kernels, visited, pending, cur, S, i + 1)
    ensures Grows(visited0, visited)
    ensures visited.Keys == visited0.Keys ==> pending == pending0
  {
    var sym := syms[i];
    var kernel := set it | it in S && !it.IsReduceItem() && it.production.rhs[it.pos] == sym :: it.NextItem();
    ghost var ks := Kernels(S, syms);
    assert kernel == Kernel(S, sym) == ks[i];
    if kernel == {} {
      states, kernels, visited, pending := states0, kernels0, visited0, pending0;
      RowStep(syms, ks, i, visited);
      return;
    }
    assert sym in Elems(syms);
    var next;
    next, states, kernels, visited, pending := Target(a, G, firsts, syms, start, cur, sym, kernel, states0, kernels0, visited0, pending0);
    RowGrow(syms, ks, i, visited0, visited);
    RowStep(syms, ks, i, visited);
    ghost var ns1 := a.nodes;
    a.AddTransition(cur, sym.name, next);
    Rewired(G, firsts, syms, start, ns1, a.nodes[cur], states, kernels, visited, pending, cur);
  }

  /** The body of `for symbol in G.terminals + G.nonTerminals` for the
      state `cur`, which ends complete. */
  method Fill(a: Graph, G: Grammar, firsts: Firsts, syms: seq<Symbol>, start: set<Item>, cur: nat,
              states0: seq<set<Item>>, kernels0: seq<set<Item>>, visited0: map<set<Item>, nat>, pending0: seq<set<Item>>)
    returns (states: seq<set<Item>>, kernels: seq<set<Item>>, visited: map<set<Item>, nat>, pending: seq<set<Item>>)
    requires Base(G, firsts)
    requires Frame(G, firsts, syms, start, a.nodes, states0, kernels0, visited0, pending0)
    requires BuiltBut(syms, a.nodes, states0, kernels0, visited0, pending0, cur)
    requires cur < |kernels0| && kernels0[cur] !in pending0 && a.nodes[cur] == Node(true, map[], {})
    modifies a
    ensures Frame(G, firsts, syms, start, a.nodes, states, kernels, visited, pending)
    ensures BuiltBut(syms, a.nodes, states, kernels, visited, pending, -1)
    ensures Grows(visited0, visited)
    ensures visited.Keys == visited0.Keys ==> pending == pending0
  {
    states, kernels, visited, pending := states0, kernels0, visited0, pending0;
    var S := states0[cur];
    var i := 0;
    while i < |syms|
      invariant Filling(G, firsts, syms, start, a.nodes, states, kernels, visited, pending, cur, S, i)
      invariant Grows(visited0, visited)
      invariant visited.Keys == visited0.Keys ==> pending == pending0
    {
      ghost var visited1, pending1 := visited, pending;
      states, kernels, visited, pending := Try(a, G, firsts, syms, start, cur, S, i, states, kernels, visited, pending);
      Chained(visited0, visited1, visited, pending0, pending1, pending);
      i := i + 1;
    }
    Completed(syms, a.nodes, states, kernels, visited, pending, cur);
  }

  /** Growth of `visited` is transitive, and so is leaving `pending` alone
      while `visited` stays put. */
  lemma Chained(v0: map<set<Item>, nat>, v1: map<set<Item>, nat>, v2: map<set<Item>, nat>,
                p0: seq<set<Item>>, p1: seq<set<Item>>, p2: seq<set<Item>>)
    requires Grows(v0, v1) && Grows(v1, v2)
    requires v1.Keys == v0.Keys ==> p1 == p0
    requires v2.Keys == v1.Keys ==> p2 == p1
    ensures Grows(v0, v2)
    ensures v2.Keys == v0.Keys ==> p2 == p0
  {
  }

  /** Once `cur` is complete as well, every state whose kernel has left
      `pending` is. */
  lemma Completed(syms: seq<Symbol>, ns: seq<Node>, states: seq<set<Item>>, kernels: seq<set<Item>>,
                  visited: map<set<Item>, nat>, pending: seq<set<Item>>, cur: nat)
    requires |ns| == |kernels| == |states| && cur < |ns|
    requires BuiltBut(syms, ns, states, kernels, visited, pending, cur)
    requires Found(Kernels(states[cur], syms), |syms|, visited) && ns[cur] == Row(syms, Kernels(states[cur], syms), |syms|, visited)
    ensures BuiltBut(syms, ns, states, kernels, visited, pending, -1)
  {
    assert Built(syms, ns, states, visited, cur);
  }

  /** One turn of the worklist: the last pending kernel is popped and its
      state filled in. */
  method Step(a: Graph, G: Grammar, firsts: Firsts, syms: seq<Symbol>, start: set<Item>,
              states0: seq<set<Item>>, kernels0: seq<set<Item>>, visited0: map<set<Item>, nat>, pending0: seq<set<Item>>)
    returns (states: seq<set<Item>>, kernels: seq<set<Item>>, visited: map<set<Item>, nat>, pending: seq<set<Item>>)
    requires Base(G, firsts) && pending0 != []
    requires Frame(G, firsts, syms, start, a.nodes, states0, kernels0, visited0, pending0)
    requires BuiltBut(syms, a.nodes, states0, kernels0, visited0, pending0, -1)
    modifies a
    ensures Frame(G, firsts, syms, start, a.nodes, states, kernels, visited, pending)
    ensures BuiltBut(syms, a.nodes, states, kernels, visited, pending, -1)
    ensures visited0.Keys <= visited.Keys
    ensures visited.Keys == visited0.Keys ==> |pending| < |pending0|
  {
    var current := pending0[|pending0| - 1];
    var rest := pending0[..|pending0| - 1];
    var cur := visited0[current];
    Popped(G, firsts, syms, start, a.nodes, states0, kernels0, visited0, pending0, current, rest);
    states, kernels, visited, pending := Fill(a, G, firsts, syms, start, cur, states0, kernels0, visited0, rest);
  }

  /** Popping the last pending kernel leaves its bare state outside
      `pending`, the one state not yet complete. */
  lemma Popped(G: Grammar, firsts: Firsts, syms: seq<Symbol>, start: set<Item>, ns: seq<Node>,
               states: seq<set<Item>>, kernels: seq<set<Item>>, visited: map<set<Item>, nat>, pending: seq<set<Item>>,
               current: set<Item>, rest: seq<set<Item>>)
    requires Base(G, firsts) && pending != []
    requires Frame(G, firsts, syms, start, ns, states, kernels, visited, pending)
    requires BuiltBut(syms, ns, states, kernels, visited, pending, -1)
    requires current == pending[|pending| - 1] && rest == pending[..|pending| - 1]
    ensures current in visited && visited[current] < |kernels| && kernels[visited[current]] == current
    ensures Frame(G, firsts, syms, start, ns, states, kernels, visited, rest)
    ensures BuiltBut(syms, ns, states, kernels, visited, rest, visited[current])
    ensures current !in rest && ns[visited[current]] == Node(true, map[], {})
  {
    PoppedWaiting(ns, kernels, pending, current, rest);
    var cur := visited[current];
    forall j | 0 <= j < |kernels| && kernels[j] !in rest && j != cur ensures Built(syms, ns, states, visited, j) {
      assert kernels[j] !in pending;
    }
  }

  /** The popped kernel has a bare state, and the rest still wait. */
  lemma PoppedWaiting(ns: seq<Node>, kernels: seq<set<Item>>, pending: seq<set<Item>>, current: set<Item>, rest: seq<set<Item>>)
    requires Waiting(ns, kernels, pending) && pending != []
    requires current == pending[|pending| - 1] && rest == pending[..|pending| - 1]
    ensures Waiting(ns, kernels, rest) && current !in rest && current in Elems(kernels)
    ensures forall k :: 0 <= k < |kernels| && kernels[k] == current ==> ns[k] == Node(true, map[], {})
  {
    assert pending == rest + [current];
    assert Elems(pending) == Elems(rest) + {current};
  }


  /** Every LR(1) item of `G` whose lookaheads are FIRST symbols. */
  ghost function Lr1Universe(G: Grammar, firsts: Firsts): set<Item> {
    set p, k, L | p in G.productions && 0 <= k <= |p.rhs| && L in PowerSet(FirstSymbols(firsts)) :: Item(p, k, L)
  }

  /** A set of LR(1) items is a set of members of the universe. */
  lemma InPowerSet(G: Grammar, firsts: Firsts, K: set<Item>)
    requires Lr1Set(G, firsts, K)
    ensures K in PowerSet(Lr1Universe(G, firsts))
  {
    var U := Lr1Universe(G, firsts);
    forall it | it in K ensures it in U {
      PowerSetMember(FirstSymbols(firsts), it.lookaheads);
      assert it == Item(it.production, it.pos, it.lookaheads);
    }
    PowerSetMember(U, K);
  }

  /** A new kernel leaves fewer sets of LR(1) items to meet. */
  lemma VisitedShrinks(G: Grammar, firsts: Firsts, keys0: set<set<Item>>, states: seq<set<Item>>, kernels: seq<set<Item>>,
                       visited: map<set<Item>, nat>)
    requires Base(G, firsts) && Labelled(G, firsts, states, kernels, visited)
    requires keys0 <= visited.Keys && keys0 != visited.Keys
    ensures |PowerSet(Lr1Universe(G, firsts)) - visited.Keys| < |PowerSet(Lr1Universe(G, firsts)) - keys0|
  {
    forall K | K in visited.Keys ensures K in PowerSet(Lr1Universe(G, firsts)) {
      var k :| 0 <= k < |kernels| && kernels[k] == K;
      InPowerSet(G, firsts, K);
    }
    Shrink(PowerSet(Lr1Universe(G, firsts)), keys0, visited.Keys);
  }

  lemma StartFrame(g: Grammar, firsts: Firsts, closure: set<Item>)
    requires AugmentedStart !in g.nonTerminals && WellFormed(g) && Consistent(g)
    requires Base(Augmented(g), firsts) && EOF in FirstSymbols(firsts)
    ensures Lr1Set(Augmented(g), firsts, StartKernel(g))
    ensures closure == Compressed(Lr1Closure(Augmented(g), firsts, StartKernel(g))) ==>
      && Frame(Augmented(g), firsts, Symbols(Augmented(g)), StartKernel(g), [Node(true, map[], {})], [closure],
               [StartKernel(g)], map[StartKernel(g) := 0], [StartKernel(g)])
      && BuiltBut(Symbols(Augmented(g)), [Node(true, map[], {})], [closure], [StartKernel(g)],
                  map[StartKernel(g) := 0], [StartKernel(g)], -1)
  {
    var G := Augmented(g);
    var sp := Production(AugmentedStart, [N(g.start)]);
    assert sp in G.productions by {
      assert G.start in G.nonTerminals;
      assert sp in G.RulesOf(G.start);
      assert sp in WithHead(G.productions, G.start);
    }
    var start := StartKernel(g);
    assert Elems([start]) == {start};
    if closure == Compressed(Lr1Closure(G, firsts, start)) {
      CompressedItems(G, firsts, Lr1Closure(G, firsts, start));
    }
  }

  /** With nothing pending, the graph is the LR(1) automaton. */
  lemma Finished(G: Grammar, firsts: Firsts, syms: seq<Symbol>, start: set<Item>, ns: seq<Node>,
                 states: seq<set<Item>>, kernels: seq<set<Item>>, visited: map<set<Item>, nat>)
    requires Base(G, firsts)
    requires Frame(G, firsts, syms, start, ns, states, kernels, visited, [])
    requires BuiltBut(syms, ns, states, kernels, visited, [], -1)
    ensures KernelAutomaton(G, firsts, syms, start, ns, states, kernels)
  {
    assert forall k :: 0 <= k < |kernels| ==> Built(syms, ns, states, visited, k);
    assert GotoClosed(G, firsts, Elems(kernels)) by {
      forall K, s | K in Elems(kernels) && Lr1Set(G, firsts, K) && s in AllSymbols(G) && Goto(G, firsts, K, s) != {}
        ensures Goto(G, firsts, K, s) in Elems(kernels)
      {
        var k :| 0 <= k < |kernels| && kernels[k] == K;
        assert Built(syms, ns, states, visited, k);
        assert s in Elems(syms);
        var j :| 0 <= j < |syms| && syms[j] == s;
        assert Kernel(states[k], syms[j]) == Goto(G, firsts, K, s);
      }
    }
    assert NoDup(kernels) by {
      forall i, j | 0 <= i < j < |kernels| ensures kernels[i] != kernels[j] {
        assert visited[kernels[i]] == i && visited[kernels[j]] == j;
      }
    }
  }

  /** `LR1_automaton`: FIRST of the augmented grammar with EOF added, the
      start kernel `S' -> .S, $` and its compressed closure as the first
      state, then a worklist of kernels: the last one is popped and, for
      each symbol of the grammar, its non-empty kernel is looked up (or its
      state made and queued) and joined to the popped state by a transition
      on the symbol's name. */
  method Lr1Automaton(g: Grammar) returns (a: Graph, states: seq<set<Item>>, kernels: seq<set<Item>>, ft: FirstTable)
    requires AugmentedStart !in g.nonTerminals && WellFormed(g) && Consistent(g)
    ensures fresh(a)
    ensures IsFirstSolution(Augmented(g), ft.ofSymbol)
    ensures forall F :: IsFirstSolution(Augmented(g), F) ==> Below(ft.ofSymbol, F)
    ensures Base(Augmented(g), WithEof(ft.ofSymbol)) && EOF in FirstSymbols(WithEof(ft.ofSymbol))
    ensures KernelAutomaton(Augmented(g), WithEof(ft.ofSymbol), Symbols(Augmented(g)), StartKernel(g), a.nodes, states, kernels)
  {
    var G := Augmented(g);
    ft := ComputeFirsts(G);
    var firsts := WithEof(ft.ofSymbol);
    EofBase(G, ft.ofSymbol);
    var sp := G.RulesOf(G.start)[0];
    var start := {Item(sp, 0, {EOF})};
    assert start == StartKernel(g);
    StartFrame(g, firsts, Compressed(Lr1Closure(G, firsts, start)));
    var closure := ClosureLr1(G, firsts, start);
    a := new Graph([Node(true, map[], {})]);
    states, kernels := [closure], [start];
    var visited := map[start := 0];
    var pending := [start];
    var syms := Symbols(G);
    while pending != []
      invariant Frame(G, firsts, syms, start, a.nodes, states, kernels, visited, pending)
      invariant BuiltBut(syms, a.nodes, states, kernels, visited, pending, -1)
      invariant fresh(a)
      decreases |PowerSet(Lr1Universe(G, firsts)) - visited.Keys|, |pending|
    {
      ghost var keys0 := visited.Keys;
      states, kernels, visited, pending := Step(a, G, firsts, syms, start, states, kernels, visited, pending);
      if visited.Keys != keys0 {
        VisitedShrinks(G, firsts, keys0, states, kernels, visited);
      }
    }
    Finished(G, firsts, syms, start, a.nodes, states, kernels, visited);
  }

  /** With distinct symbol names, a state has a transition on the name of a
      symbol of the grammar exactly when the kernel it reaches on the symbol
      is not empty, and the transition then leads to the one state of that
      kernel alone. */
  lemma AutomatonEdges(G: Grammar, firsts: Firsts, start: set<Item>, ns: seq<Node>, states: seq<set<Item>>,
                       kernels: seq<set<Item>>, k: nat, s: Symbol)
    requires Base(G, firsts) && KernelAutomaton(G, firsts, Symbols(G), start, ns, states, kernels)
    requires NoDup(G.terminals + G.nonTerminals)
    requires k < |kernels| && s in AllSymbols(G)
    ensures s.name in ns[k].transitions <==> Kernel(states[k], s) != {}
    ensures Kernel(states[k], s) != {} ==>
              exists j :: 0 <= j < |kernels| && ns[k].transitions[s.name] == [j] && kernels[j] == Kernel(states[k], s)
    ensures Kernel(states[k], s) == Goto(G, firsts, kernels[k], s)
  {
    var syms := Symbols(G);
    SymbolsDistinct(G);
    var visited := Unpack(G, firsts, start, ns, states, kernels, k);
    assert s in Elems(syms);
    StateEdges(syms, ns, states, kernels, visited, k, s);
  }

  /** The labelling of the states that the automaton is built with. */
  lemma Unpack(G: Grammar, firsts: Firsts, start: set<Item>, ns: seq<Node>, states: seq<set<Item>>,
               kernels: seq<set<Item>>, k: nat) returns (visited: map<set<Item>, nat>)
    requires Base(G, firsts) && KernelAutomaton(G, firsts, Symbols(G), start, ns, states, kernels)
    requires k < |kernels|
    ensures |states| == |kernels| && Indexed(kernels, visited) && Built(Symbols(G), ns, states, visited, k)
    ensures Lr1Set(G, firsts, kernels[k]) && states[k] == Compressed(Lr1Closure(G, firsts, kernels[k]))
  {
    visited :| Labelled(G, firsts, states, kernels, visited) &&
               forall m :: 0 <= m < |kernels| ==> Built(Symbols(G), ns, states, visited, m);
  }

  /** The transitions of a complete state, symbol by symbol. */
  lemma StateEdges(syms: seq<Symbol>, ns: seq<Node>, states: seq<set<Item>>, kernels: seq<set<Item>>,
                   visited: map<set<Item>, nat>, k: nat, s: Symbol)
    requires |ns| == |kernels| == |states| && k < |kernels|
    requires Indexed(kernels, visited) && Built(syms, ns, states, visited, k)
    requires s in Elems(syms) && DistinctNames(syms)
    ensures s.name in ns[k].transitions <==> Kernel(states[k], s) != {}
    ensures Kernel(states[k], s) != {} ==>
              exists j :: 0 <= j < |kernels| && ns[k].transitions[s.name] == [j] && kernels[j] == Kernel(states[k], s)
  {
    RowKeys(syms, Kernels(states[k], syms), |syms|, visited, s.name);
    var m :| 0 <= m < |syms| && syms[m] == s;
    if s.name in ns[k].transitions {
      var j :| 0 <= j < |syms| && Kernel(states[k], syms[j]) != {} && syms[j].name == s.name;
      assert j == m;
    }
    if Kernel(states[k], s) != {} {
      RowDistinct(syms, Kernels(states[k], syms), |syms|, visited, m);
      var K := Kernel(states[k], s);
      assert K in Elems(kernels);
      var j :| 0 <= j < |kernels| && kernels[j] == K;
      assert visited[K] == j;
    }
  }

  /** Every state's items are LR(1) items of `G`. */
  lemma StatesItems(G: Grammar, firsts: Firsts, syms: seq<Symbol>, start: set<Item>, ns: seq<Node>, states: seq<set<Item>>,
                    kernels: seq<set<Item>>)
    requires Base(G, firsts) && KernelAutomaton(G, firsts, syms, start, ns, states, kernels)
    ensures |states| == |kernels| == |ns|
    ensures forall k :: 0 <= k < |kernels| ==> Lr1Set(G, firsts, states[k])
  {
    var visited :| Labelled(G, firsts, states, kernels, visited) &&
                   forall m :: 0 <= m < |kernels| ==> Built(syms, ns, states, visited, m);
  }

  /** What the LR(1) table is built from: the LR(1) automaton of the
      augmented grammar with FIRST sets `firsts`, and the numbering of its
      states. */
  ghost predicate Lr1Setting(g: Grammar, firsts: Firsts, ns: seq<Node>, states: seq<set<Item>>, kernels: seq<set<Item>>,
                             order: seq<nat>, idx: map<nat, nat>)
    requires AugmentedStart !in g.nonTerminals
  {
    var G := Augmented(g);
    && WellFormed(g) && Consistent(g) && Slr.Named(g)
    && Base(G, firsts)
    && KernelAutomaton(G, firsts, Symbols(G), StartKernel(g), ns, states, kernels)
    && Slr.Numbered(ns, order, idx)
  }

  /** Every item of every numbered state fits the table construction. */
  lemma Lr1Fits(g: Grammar, firsts: Firsts, ns: seq<Node>, states: seq<set<Item>>, kernels: seq<set<Item>>,
                order: seq<nat>, idx: map<nat, nat>)
    requires AugmentedStart !in g.nonTerminals
    requires Lr1Setting(g, firsts, ns, states, kernels, order, idx)
    ensures AllFit(order, ns, states, idx, ByItem)
  {
    var G := Augmented(g);
    Slr.NamedAugmented(g);
    StatesItems(G, firsts, Symbols(G), StartKernel(g), ns, states, kernels);
    forall j | 0 <= j < |order|
      ensures order[j] < |ns| && order[j] < |states|
      ensures forall it :: it in states[order[j]] ==> Fits(it, ns[order[j]], idx, ByItem)
    {
      var k := order[j];
      assert k in Elems(order);
      var visited := Unpack(G, firsts, StartKernel(g), ns, states, kernels, k);
      forall it | it in states[k] ensures Fits(it, ns[k], idx, ByItem) {
        ItemFits(G, firsts, ns, states, kernels, visited, order, idx, k, it);
      }
    }
  }

  lemma ItemFits(G: Grammar, firsts: Firsts, ns: seq<Node>, states: seq<set<Item>>, kernels: seq<set<Item>>,
                 visited: map<set<Item>, nat>, order: seq<nat>, idx: map<nat, nat>, k: nat, it: Item)
    requires WellFormed(G) && Slr.Named(G)
    requires |ns| == |kernels| == |states| && k < |kernels|
    requires Built(Symbols(G), ns, states, visited, k) && Lr1Set(G, firsts, states[k])
    requires idx.Keys == Elems(order) && k in Elems(order) && SuccClosed(ns, Elems(order))
    requires it in states[k]
    ensures Fits(it, ns[k], idx, ByItem)
  {
    if !it.IsReduceItem() {
      var s := it.production.rhs[it.pos];
      assert Declared(G, s) by { assert s in it.production.rhs; }
      var syms := Symbols(G);
      assert s in Elems(syms);
      var m :| 0 <= m < |syms| && syms[m] == s;
      var ks := Kernels(states[k], syms);
      assert it.NextItem() in ks[m];
      RowKeys(syms, ks, |syms|, visited, s.name);
      RowListed(syms, ks, |syms|, visited, s.name);
      var t := ns[k].transitions[s.name][0];
      assert t in ns[k].transitions[s.name];
      assert t in Successors(ns[k]);
    }
  }

  /** The registrations of the LR(1) table. */
  ghost function Lr1Entries(g: Grammar, firsts: Firsts, ns: seq<Node>, states: seq<set<Item>>, kernels: seq<set<Item>>,
                            order: seq<nat>, idx: map<nat, nat>): set<Entry>
    requires AugmentedStart !in g.nonTerminals
    requires Lr1Setting(g, firsts, ns, states, kernels, order, idx)
  {
    Lr1Fits(g, firsts, ns, states, kernels, order, idx);
    TableEntries(order, |order|, ns, states, idx, ByItem, AugmentedStart)
  }

  /** `LR1Parser(G)`: the LR(1) automaton of the augmented grammar, its
      states numbered in the order of a visit from the start state, and
      every registration of every item of every state entered into the
      tables; the flag `isLR1` ends up true exactly when no two
      registrations clash. */
  method Lr1Parser(g: Grammar)
    returns (p: Parser, ns: seq<Node>, states: seq<set<Item>>, kernels: seq<set<Item>>, order: seq<nat>,
             idx: map<nat, nat>, ft: FirstTable)
    requires AugmentedStart !in g.nonTerminals && WellFormed(g) && Consistent(g) && Slr.Named(g)
    ensures fresh(p)
    ensures IsFirstSolution(Augmented(g), ft.ofSymbol)
    ensures forall F :: IsFirstSolution(Augmented(g), F) ==> Below(ft.ofSymbol, F)
    ensures Lr1Setting(g, WithEof(ft.ofSymbol), ns, states, kernels, order, idx)
    ensures Holds(p.action, p.goto, p.flag, Lr1Entries(g, WithEof(ft.ofSymbol), ns, states, kernels, order, idx))
  {
    var a;
    a, states, kernels, ft := Lr1Automaton(g);
    ns := a.nodes;
    order := a.Visit(0);
    idx := Number(order);
    Lr1Fits(g, WithEof(ft.ofSymbol), ns, states, kernels, order, idx);
    p := new Parser();
    BuildTable(p, order, ns, states, idx, ByItem, AugmentedStart);
  }

  /** Every item of every state is an LR(1) item of `G`. */
  ghost predicate Lr1States(G: Grammar, firsts: Firsts, itemsOf: seq<set<Item>>) {
    forall k, it :: 0 <= k < |itemsOf| && it in itemsOf[k] ==> Lr1Item(G, firsts, it)
  }

  lemma SettingStates(g: Grammar, firsts: Firsts, ns: seq<Node>, states: seq<set<Item>>, kernels: seq<set<Item>>,
                      order: seq<nat>, idx: map<nat, nat>)
    requires AugmentedStart !in g.nonTerminals
    requires Lr1Setting(g, firsts, ns, states, kernels, order, idx)
    ensures AllFit(order, ns, states, idx, ByItem) && Lr1States(Augmented(g), firsts, states)
  {
    var G := Augmented(g);
    Lr1Fits(g, firsts, ns, states, kernels, order, idx);
    StatesItems(G, firsts, Symbols(G), StartKernel(g), ns, states, kernels);
  }

  /** REDUCE registrations of a table built on the lookaheads of LR(1)
      items. */
  lemma {:induction false} ReduceEntries(G: Grammar, firsts: Firsts, order: seq<nat>, ns: seq<Node>, itemsOf: seq<set<Item>>,
                                         idx: map<nat, nat>, i: nat, a: Symbol, p: Production)
    requires AllFit(order, ns, itemsOf, idx, ByItem) && Lr1States(G, firsts, itemsOf)
    ensures ActionEntry((i, a), Reduce(p)) in TableEntries(order, |order|, ns, itemsOf, idx, ByItem, AugmentedStart) <==>
            && i < |order| && p.lhs != AugmentedStart
            && exists L :: Item(p, |p.rhs|, L) in itemsOf[order[i]] && a in L
  {
    var e := ActionEntry((i, a), Reduce(p));
    TableEntriesMember(order, |order|, ns, itemsOf, idx, ByItem, AugmentedStart, e);
    if e in TableEntries(order, |order|, ns, itemsOf, idx, ByItem, AugmentedStart) {
      var m, it :| 0 <= m < |order| && it in itemsOf[order[m]] && e in ItemEntries(m, it, ns[order[m]], idx, ByItem, AugmentedStart);
      assert Lr1Item(G, firsts, it);
      assert it.IsReduceItem() && it.production.lhs != AugmentedStart;
      assert e in Reduces(m, it.production, it.lookaheads);
      assert it == Item(p, |p.rhs|, it.lookaheads);
    }
    if && i < |order| && p.lhs != AugmentedStart
       && exists L :: Item(p, |p.rhs|, L) in itemsOf[order[i]] && a in L {
      var L :| Item(p, |p.rhs|, L) in itemsOf[order[i]] && a in L;
      assert e in Reduces(i, p, L);
      assert e in ItemEntries(i, Item(p, |p.rhs|, L), ns[order[i]], idx, ByItem, AugmentedStart);
    }
  }

  /** OK registrations of a table built from LR(1) items. */
  lemma {:induction false} AcceptEntries(G: Grammar, firsts: Firsts, order: seq<nat>, ns: seq<Node>, itemsOf: seq<set<Item>>,
                                         idx: map<nat, nat>, i: nat, a: Symbol, sp: Production)
    requires AllFit(order, ns, itemsOf, idx, ByItem) && Lr1States(G, firsts, itemsOf)
    requires sp.lhs == AugmentedStart && forall p :: p in G.productions && p.lhs == AugmentedStart ==> p == sp
    ensures ActionEntry((i, a), Accept) in TableEntries(order, |order|, ns, itemsOf, idx, ByItem, AugmentedStart) <==>
            i < |order| && a == EOF && exists L :: Item(sp, |sp.rhs|, L) in itemsOf[order[i]]
  {
    var e := ActionEntry((i, a), Accept);
    TableEntriesMember(order, |order|, ns, itemsOf, idx, ByItem, AugmentedStart, e);
    if e in TableEntries(order, |order|, ns, itemsOf, idx, ByItem, AugmentedStart) {
      var m, it :| 0 <= m < |order| && it in itemsOf[order[m]] && e in ItemEntries(m, it, ns[order[m]], idx, ByItem, AugmentedStart);
      assert Lr1Item(G, firsts, it);
      assert it.IsReduceItem() && it.production.lhs == AugmentedStart;
      assert it == Item(sp, |sp.rhs|, it.lookaheads);
    }
    if i < |order| && a == EOF && exists L :: Item(sp, |sp.rhs|, L) in itemsOf[order[i]] {
      var L :| Item(sp, |sp.rhs|, L) in itemsOf[order[i]];
      assert e in ItemEntries(i, Item(sp, |sp.rhs|, L), ns[order[i]], idx, ByItem, AugmentedStart);
    }
  }

  /** A state of the LR(1) table REDUCEs by `p` on `a` exactly when it holds
      a reduce item of `p` with `a` among its lookaheads, and the head of
      `p` is not the augmented start. */
  lemma Lr1Reduce(g: Grammar, firsts: Firsts, ns: seq<Node>, states: seq<set<Item>>, kernels: seq<set<Item>>,
                  order: seq<nat>, idx: map<nat, nat>, i: nat, a: Symbol, p: Production)
    requires AugmentedStart !in g.nonTerminals
    requires Lr1Setting(g, firsts, ns, states, kernels, order, idx)
    ensures ActionEntry((i, a), Reduce(p)) in Lr1Entries(g, firsts, ns, states, kernels, order, idx) <==>
            && i < |order| && order[i] < |states| && p.lhs != AugmentedStart
            && exists L :: Item(p, |p.rhs|, L) in states[order[i]] && a in L
  {
    SettingStates(g, firsts, ns, states, kernels, order, idx);
    ReduceEntries(Augmented(g), firsts, order, ns, states, idx, i, a, p);
  }

  /** A state of the LR(1) table registers OK on a symbol exactly when the
      symbol is EOF and the state holds an item `S' -> S .`. */
  lemma Lr1Accept(g: Grammar, firsts: Firsts, ns: seq<Node>, states: seq<set<Item>>, kernels: seq<set<Item>>,
                  order: seq<nat>, idx: map<nat, nat>, i: nat, a: Symbol)
    requires AugmentedStart !in g.nonTerminals
    requires Lr1Setting(g, firsts, ns, states, kernels, order, idx)
    ensures ActionEntry((i, a), Accept) in Lr1Entries(g, firsts, ns, states, kernels, order, idx) <==>
            && i < |order| && order[i] < |states| && a == EOF
            && exists L :: Item(Production(AugmentedStart, [N(g.start)]), 1, L) in states[order[i]]
  {
    var sp := Production(AugmentedStart, [N(g.start)]);
    SettingStates(g, firsts, ns, states, kernels, order, idx);
    forall p | p in Augmented(g).productions && p.lhs == AugmentedStart ensures p == sp {
      Slr.StartProduction(g, p);
    }
    AcceptEntries(Augmented(g), firsts, order, ns, states, idx, i, a, sp);
  }

  /** With distinct symbol names, a state of the LR(1) table SHIFTs (on a
      terminal) or GOes TO (on a non-terminal) state `j` exactly when the
      kernel its items reach on `a` is not empty and is the kernel of state
      `j`; that kernel is `goto` of the state's own kernel on `a`. */
  lemma Lr1Edge(g: Grammar, firsts: Firsts, ns: seq<Node>, states: seq<set<Item>>, kernels: seq<set<Item>>,
                order: seq<nat>, idx: map<nat, nat>, i: nat, a: Symbol, j: nat)
    requires AugmentedStart !in g.nonTerminals
    requires Lr1Setting(g, firsts, ns, states, kernels, order, idx)
    requires NoDup(Augmented(g).terminals + Augmented(g).nonTerminals)
    ensures EdgeEntry(i, a, j) in Lr1Entries(g, firsts, ns, states, kernels, order, idx) <==>
            && i < |order| && j < |order| && order[i] < |kernels| && order[j] < |kernels|
            && Goto(Augmented(g), firsts, kernels[order[i]], a) != {}
            && kernels[order[j]] == Goto(Augmented(g), firsts, kernels[order[i]], a)
  {
    var G := Augmented(g);
    Lr1Fits(g, firsts, ns, states, kernels, order, idx);
    EdgeEntries(order, ns, states, idx, ByItem, AugmentedStart, i, a, j);
    if i < |order| && j < |order| {
      assert order[i] in Elems(order) && order[j] in Elems(order);
      StatesItems(G, firsts, Symbols(G), StartKernel(g), ns, states, kernels);
      EdgeTarget(G, firsts, StartKernel(g), ns, states, kernels, order[i], a, order[j]);
    }
  }

  /** State `k` has an item with `a` after the dot and its transition on the
      name of `a` leads first to state `u` exactly when `goto` of its kernel
      on `a` is not empty and is the kernel of `u`. */
  lemma EdgeTarget(G: Grammar, firsts: Firsts, start: set<Item>, ns: seq<Node>, states: seq<set<Item>>,
                   kernels: seq<set<Item>>, k: nat, a: Symbol, u: nat)
    requires Base(G, firsts) && KernelAutomaton(G, firsts, Symbols(G), start, ns, states, kernels)
    requires NoDup(G.terminals + G.nonTerminals)
    requires k < |kernels| && u < |kernels|
    ensures && (exists it :: it in states[k] && !it.IsReduceItem() && it.production.rhs[it.pos] == a)
            && a.name in ns[k].transitions && |ns[k].transitions[a.name]| > 0
            && ns[k].transitions[a.name][0] == u
            <==>
            Goto(G, firsts, kernels[k], a) != {} && kernels[u] == Goto(G, firsts, kernels[k], a)
  {
    EdgeFacts(G, firsts, start, ns, states, kernels, k, a);
    KernelTarget(ns, states, kernels, k, a, u);
  }

  /** The transition of state `k` on the name of `a` when the kernel of its
      items on `a` is not empty. */
  lemma EdgeFacts(G: Grammar, firsts: Firsts, start: set<Item>, ns: seq<Node>, states: seq<set<Item>>,
                  kernels: seq<set<Item>>, k: nat, a: Symbol)
    requires Base(G, firsts) && KernelAutomaton(G, firsts, Symbols(G), start, ns, states, kernels)
    requires NoDup(G.terminals + G.nonTerminals)
    requires k < |kernels|
    ensures |ns| == |states| == |kernels| && NoDup(kernels)
    ensures Kernel(states[k], a) == Goto(G, firsts, kernels[k], a)
    ensures Kernel(states[k], a) != {} ==>
              && a.name in ns[k].transitions
              && exists t :: 0 <= t < |kernels| && ns[k].transitions[a.name] == [t] && kernels[t] == Kernel(states[k], a)
  {
    var visited := Unpack(G, firsts, start, ns, states, kernels, k);
    var K := Kernel(states[k], a);
    if K != {} {
      var it :| it in states[k] && !it.IsReduceItem() && it.production.rhs[it.pos] == a && it.NextItem() in K;
      StatesItems(G, firsts, Symbols(G), start, ns, states, kernels);
      assert Lr1Item(G, firsts, it);
      assert Declared(G, a) by { assert a in it.production.rhs; }
      AutomatonEdges(G, firsts, start, ns, states, kernels, k, a);
    }
  }

  lemma KernelTarget(ns: seq<Node>, states: seq<set<Item>>, kernels: seq<set<Item>>, k: nat, a: Symbol, u: nat)
    requires |ns| == |states| == |kernels| && NoDup(kernels) && k < |kernels| && u < |kernels|
    requires Kernel(states[k], a) != {} ==>
              && a.name in ns[k].transitions
              && exists t :: 0 <= t < |kernels| && ns[k].transitions[a.name] == [t] && kernels[t] == Kernel(states[k], a)
    ensures && (exists it :: it in states[k] && !it.IsReduceItem() && it.production.rhs[it.pos] == a)
            && a.name in ns[k].transitions && |ns[k].transitions[a.name]| > 0
            && ns[k].transitions[a.name][0] == u
            <==>
            Kernel(states[k], a) != {} && kernels[u] == Kernel(states[k], a)
  {
    var K := Kernel(states[k], a);
    if exists it :: it in states[k] && !it.IsReduceItem() && it.production.rhs[it.pos] == a {
      var it :| it in states[k] && !it.IsReduceItem() && it.production.rhs[it.pos] == a;
      assert it.NextItem() in K;
    }
    if K != {} {
      var it :| it in states[k] && !it.IsReduceItem() && it.production.rhs[it.pos] == a && it.NextItem() in K;
      var t :| 0 <= t < |kernels| && ns[k].transitions[a.name] == [t] && kernels[t] == K;
      assert ns[k].transitions[a.name][0] == t;
      if kernels[u] == K {
        assert t == u;
      }
    }
  }
}
