/** The SLR(1) parser: the automaton of LR(0) items, built as a graph of
    states with ε-transitions and made deterministic, and its table, whose
    REDUCE entries use FOLLOW. */
module Slr {
  import opened Grammars
  import opened Containers
  import opened Dataflow
  import opened ShiftReduce
  import opened StateGraphs
  import Automata

  /** Every declared name is non-empty, as the grammar reader makes them. */
  predicate Named(g: Grammar) {
    && (forall A :: A in g.nonTerminals ==> A != "")
    && (forall t :: t in g.terminals ==> t != "")
  }

  /** Every LR(0) item of the grammar's productions. */
  function Lr0Items(g: Grammar): set<Item> {
    set p, k | p in g.productions && 0 <= k <= |p.rhs| :: Item(p, k, {})
  }

  /** The items the ε-transitions of `it` lead to: the position-0 items of
      the productions of its next symbol, when that is a non-terminal. */
  function Expansions(g: Grammar, it: Item): set<Item> {
    if it.pos < |it.production.rhs| && it.production.rhs[it.pos].N? then
      set p | p in g.RulesOf(it.production.rhs[it.pos].name) :: Item(p, 0, {})
    else {}
  }

  /** A set of items closed under both kinds of transition. */
  ghost predicate ItemClosed(g: Grammar, X: set<Item>) {
    forall it :: it in X && !it.IsReduceItem() ==> it.NextItem() in X && Expansions(g, it) <= X
  }

  /** The state of item `labels[k]` is complete: a reduce item has no
      transition; any other has one edge, labelled with the name of its next
      symbol, to the state of its dot-advanced item, and an ε-edge to the
      state of each of its expansions. */
  ghost predicate Built(g: Grammar, ns: seq<Node>, labels: seq<Item>, visited: map<Item, nat>, k: nat)
    requires k < |ns| && k < |labels|
  {
    var it := labels[k];
    && ns[k].final
    && if it.IsReduceItem() then ns[k].transitions == map[] && ns[k].epsilon == {}
       else
         && it.NextItem() in visited && Expansions(g, it) <= visited.Keys
         && ns[k].transitions == map[it.production.rhs[it.pos].name := [visited[it.NextItem()]]]
         && ns[k].epsilon == set e | e in Expansions(g, it) :: visited[e]
  }

  /** State `k` is the state of item `labels[k]`, and `visited` finds it. */
  ghost predicate Labelled(ns: seq<Node>, labels: seq<Item>, visited: map<Item, nat>) {
    && |ns| == |labels|
    && visited.Keys == Elems(labels)
    && (forall k :: 0 <= k < |labels| ==> visited[labels[k]] == k)
  }

  /** The items waiting in `pending` are distinct and their states are
      still bare. */
  ghost predicate Waiting(ns: seq<Node>, labels: seq<Item>, pending: seq<Item>) {
    && |ns| == |labels|
    && NoDup(pending) && Elems(pending) <= Elems(labels)
    && (forall k :: 0 <= k < |labels| && labels[k] in pending ==> ns[k] == Node(true, map[], {}))
  }

  /** Every state whose item has left `pending`, other than `except`, is
      complete. */
  ghost predicate BuiltBut(g: Grammar, ns: seq<Node>, labels: seq<Item>, visited: map<Item, nat>, pending: seq<Item>, except: int)
    requires |ns| == |labels|
  {
    forall k :: 0 <= k < |labels| && labels[k] !in pending && k != except ==> Built(g, ns, labels, visited, k)
  }

  /** Every item reached so far is reachable from the start item. */
  ghost predicate Reached(g: Grammar, start: Item, labels: seq<Item>) {
    forall X :: start in X && ItemClosed(g, X) ==> Elems(labels) <= X
  }

  /** What every turn of `LR0_automaton` keeps. */
  ghost predicate ItemFrame(g: Grammar, start: Item, ns: seq<Node>, labels: seq<Item>, visited: map<Item, nat>, pending: seq<Item>) {
    && |labels| >= 1 && labels[0] == start
    && Labelled(ns, labels, visited) && Waiting(ns, labels, pending)
    && Elems(labels) <= Lr0Items(g)
    && Closed(ns)
    && Reached(g, start, labels)
  }

  /** The item automaton: its states stand for distinct items, the start
      item first; every state is complete; the items are exactly those
      reachable from the start item. */
  ghost predicate ItemAutomaton(g: Grammar, start: Item, ns: seq<Node>, labels: seq<Item>) {
    && |ns| == |labels| >= 1 && labels[0] == start && NoDup(labels)
    && Closed(ns)
    && (exists visited :: Labelled(ns, labels, visited) && forall k :: 0 <= k < |labels| ==> Built(g, ns, labels, visited, k))
    && start in Elems(labels) && ItemClosed(g, Elems(labels))
    && Reached(g, start, labels)
  }

  lemma BuiltGrow(g: Grammar, ns: seq<Node>, labels: seq<Item>, visited: map<Item, nat>, k: nat,
                  ns': seq<Node>, labels': seq<Item>, visited': map<Item, nat>)
    requires k < |ns| && k < |labels| && Built(g, ns, labels, visited, k)
    requires k < |ns'| && k < |labels'| && ns'[k] == ns[k] && labels'[k] == labels[k]
    requires visited.Keys <= visited'.Keys && forall x :: x in visited ==> visited'[x] == visited[x]
    ensures Built(g, ns', labels', visited', k)
  {
    var it := labels[k];
    if !it.IsReduceItem() {
      assert (set e | e in Expansions(g, it) :: visited'[e]) == (set e | e in Expansions(g, it) :: visited[e]);
    }
  }

  /** Consistent grammars list under a non-terminal only productions of the
      production list. */
  lemma ExpansionsIn(g: Grammar, it: Item)
    requires WellFormed(g) && Consistent(g) && it in Lr0Items(g)
    ensures Expansions(g, it) <= Lr0Items(g)
    ensures !it.IsReduceItem() ==> it.NextItem() in Lr0Items(g)
  {
    var p := it.production;
    assert p in g.productions;
    if it.pos < |p.rhs| && p.rhs[it.pos].N? {
      var A := p.rhs[it.pos].name;
      assert Declared(g, p.rhs[it.pos]);
      forall q | q in g.RulesOf(A) ensures Item(q, 0, {}) in Lr0Items(g) {
        assert q in WithHead(g.productions, A);
      }
    }
    if !it.IsReduceItem() {
      assert it.NextItem() == Item(p, it.pos + 1, {});
    }
  }

  /** Adds a state for `it` unless it has one: the `if not next_item in
      visited` step. */
  method Reach(nfa: Graph, g: Grammar, start: Item, it: Item, labels0: seq<Item>, visited0: map<Item, nat>,
               pending0: seq<Item>, ghost cur: int, ghost from: Item)
    returns (labels: seq<Item>, visited: map<Item, nat>, pending: seq<Item>)
    requires ItemFrame(g, start, nfa.nodes, labels0, visited0, pending0)
    requires BuiltBut(g, nfa.nodes, labels0, visited0, pending0, cur)
    requires it in Lr0Items(g)
    requires from in Elems(labels0) && !from.IsReduceItem() && (it == from.NextItem() || it in Expansions(g, from))
    modifies nfa
    ensures ItemFrame(g, start, nfa.nodes, labels, visited, pending)
    ensures BuiltBut(g, nfa.nodes, labels, visited, pending, cur)
    ensures it in visited
    ensures IsPrefix(old(nfa.nodes), nfa.nodes) && IsPrefix(labels0, labels)
    ensures Extends(visited0, visited)
    ensures visited.Keys == visited0.Keys ==> pending == pending0
    ensures visited.Keys != visited0.Keys ==> visited.Keys == visited0.Keys + {it} && it !in visited0 && pending == pending0 + [it]
    ensures OnlyNew(visited0, pending0, pending)
  {
    if it in visited0 {
      return labels0, visited0, pending0;
    }
    ghost var ns0 := nfa.nodes;
    var q := nfa.NewState(true);
    labels, visited, pending := labels0 + [it], visited0[it := q], pending0 + [it];
    NoDupAppend(pending0, it);
    assert Elems(labels) == Elems(labels0) + {it};
    forall k | 0 <= k < |labels| ensures visited[labels[k]] == k {
      if k < |labels0| { assert labels0[k] in Elems(labels0); }
    }
    forall k | 0 <= k < |labels| && labels[k] !in pending && k != cur
      ensures Built(g, nfa.nodes, labels, visited, k)
    {
      BuiltGrow(g, ns0, labels0, visited0, k, nfa.nodes, labels, visited);
    }
    forall X | start in X && ItemClosed(g, X) ensures Elems(labels) <= X {
      assert from in X;
    }
    assert labels[..|labels0|] == labels0;
  }

  /** Whatever joined `pending` was not visited before. */
  ghost predicate OnlyNew(visited0: map<Item, nat>, pending0: seq<Item>, pending: seq<Item>) {
    forall x :: x in pending ==> x in pending0 || x !in visited0
  }

  /** The visited map only grows, keeping what it had. */
  ghost predicate Extends(visited0: map<Item, nat>, visited: map<Item, nat>) {
    visited0.Keys <= visited.Keys && forall x :: x in visited0 ==> visited[x] == visited0[x]
  }

  /** Adds a state for each expansion of `from`, in the order of the
      productions. */
  method ReachAll(nfa: Graph, g: Grammar, start: Item, prods: seq<Production>, labels0: seq<Item>, visited0: map<Item, nat>,
                  pending0: seq<Item>, ghost cur: int, ghost from: Item)
    returns (labels: seq<Item>, visited: map<Item, nat>, pending: seq<Item>)
    requires WellFormed(g) && Consistent(g)
    requires ItemFrame(g, start, nfa.nodes, labels0, visited0, pending0)
    requires BuiltBut(g, nfa.nodes, labels0, visited0, pending0, cur)
    requires from in Elems(labels0) && !from.IsReduceItem()
    requires forall p :: p in prods ==> Item(p, 0, {}) in Expansions(g, from)
    modifies nfa
    ensures ItemFrame(g, start, nfa.nodes, labels, visited, pending)
    ensures BuiltBut(g, nfa.nodes, labels, visited, pending, cur)
    ensures forall p :: p in prods ==> Item(p, 0, {}) in visited
    ensures IsPrefix(old(nfa.nodes), nfa.nodes) && IsPrefix(labels0, labels)
    ensures Extends(visited0, visited)
    ensures visited.Keys == visited0.Keys ==> pending == pending0
    ensures OnlyNew(visited0, pending0, pending)
  {
    labels, visited, pending := labels0, visited0, pending0;
    var i := 0;
    while i < |prods|
      invariant 0 <= i <= |prods|
      invariant ItemFrame(g, start, nfa.nodes, labels, visited, pending)
      invariant BuiltBut(g, nfa.nodes, labels, visited, pending, cur)
      invariant forall j :: 0 <= j < i ==> Item(prods[j], 0, {}) in visited
      invariant IsPrefix(old(nfa.nodes), nfa.nodes) && IsPrefix(labels0, labels)
      invariant Extends(visited0, visited)
      invariant visited.Keys == visited0.Keys ==> pending == pending0
      invariant from in Elems(labels)
      invariant OnlyNew(visited0, pending0, pending)
    {
      assert from in Lr0Items(g);
      ExpansionsIn(g, from);
      assert Item(prods[i], 0, {}) in Lr0Items(g);
      ghost var ns1, labels1, visited1, pending1 := nfa.nodes, labels, visited, pending;
      labels, visited, pending := Reach(nfa, g, start, Item(prods[i], 0, {}), labels, visited, pending, cur, from);
      assert from in Elems(labels) by {
        var k :| 0 <= k < |labels1| && labels1[k] == from;
        assert labels[k] == from;
      }
      PrefixTrans(labels0, labels1, labels);
      PrefixTrans(old(nfa.nodes), ns1, nfa.nodes);
      ExtendsTrans(visited0, visited1, visited);
      assert OnlyNew(visited0, pending0, pending) by {
        forall x | x in pending ensures x in pending0 || x !in visited0 {
          if x !in pending1 {
            assert x !in visited1;
          }
        }
      }
      CoveredGrow(prods, i, visited1, visited);
      i := i + 1;
    }
    assert forall p :: p in prods ==> exists j :: 0 <= j < |prods| && prods[j] == p;
  }

  lemma CoveredGrow(prods: seq<Production>, i: nat, visited1: map<Item, nat>, visited: map<Item, nat>)
    requires i < |prods| && visited1.Keys <= visited.Keys
    requires forall j :: 0 <= j < i ==> Item(prods[j], 0, {}) in visited1
    requires Item(prods[i], 0, {}) in visited
    ensures forall j :: 0 <= j < i + 1 ==> Item(prods[j], 0, {}) in visited
  {
  }

  /** Adds the edge of a state and its ε-edges, which start out empty. */
  method Wire(nfa: Graph, cur: nat, name: string, next: nat, eps: seq<nat>)
    requires Closed(nfa.nodes) && cur < |nfa.nodes| && next < |nfa.nodes|
    requires forall t :: t in eps ==> t < |nfa.nodes|
    requires nfa.nodes[cur] == Node(true, map[], {})
    modifies nfa
    ensures nfa.nodes == old(nfa.nodes)[cur := Node(true, map[name := [next]], Elems(eps))]
    ensures Closed(nfa.nodes)
  {
    nfa.AddTransition(cur, name, next);
    assert nfa.nodes[cur].transitions == map[name := [next]];
    assert nfa.nodes[cur] == Node(true, map[name := [next]], {});
    assert Elems(eps[..0]) == {} by { assert eps[..0] == []; }
    var i := 0;
    while i < |eps|
      invariant 0 <= i <= |eps|
      invariant Closed(nfa.nodes)
      invariant nfa.nodes == old(nfa.nodes)[cur := Node(true, map[name := [next]], Elems(eps[..i]))]
    {
      assert eps[i] in eps;
      nfa.AddEpsilonTransition(cur, eps[i]);
      assert Elems(eps[..i + 1]) == Elems(eps[..i]) + {eps[i]} by {
        assert eps[..i + 1] == eps[..i] + [eps[i]];
      }
      i := i + 1;
    }
    assert eps[..|eps|] == eps;
  }

  lemma EpsTargets(g: Grammar, it: Item, prods: seq<Production>, visited: map<Item, nat>, eps: seq<nat>)
    requires Expansions(g, it) == set p | p in prods :: Item(p, 0, {})
    requires forall p :: p in prods ==> Item(p, 0, {}) in visited
    requires |eps| == |prods| && forall j :: 0 <= j < |prods| ==> eps[j] == visited[Item(prods[j], 0, {})]
    ensures Expansions(g, it) <= visited.Keys
    ensures Elems(eps) == set e | e in Expansions(g, it) :: visited[e]
  {
    forall e | e in Expansions(g, it) ensures visited[e] in Elems(eps) {
      var p :| p in prods && e == Item(p, 0, {});
      var j :| 0 <= j < |prods| && prods[j] == p;
      assert eps[j] == visited[e];
    }
    forall t | t in Elems(eps) ensures t in set e | e in Expansions(g, it) :: visited[e] {
      var j :| 0 <= j < |eps| && eps[j] == t;
      assert Item(prods[j], 0, {}) in Expansions(g, it);
    }
  }

  /** Completing the state `cur`, whose item has left `pending`, completes
      the graph. */
  lemma WiredFrame(g: Grammar, start: Item, ns: seq<Node>, ns': seq<Node>, labels: seq<Item>, visited: map<Item, nat>,
                   pending: seq<Item>, cur: nat)
    requires ItemFrame(g, start, ns, labels, visited, pending) && BuiltBut(g, ns, labels, visited, pending, cur)
    requires cur < |ns| && labels[cur] !in pending && !labels[cur].IsReduceItem()
    requires labels[cur].NextItem() in visited && Expansions(g, labels[cur]) <= visited.Keys
    requires ns' == ns[cur := Node(true, map[labels[cur].production.rhs[labels[cur].pos].name := [visited[labels[cur].NextItem()]]],
                                   set e | e in Expansions(g, labels[cur]) :: visited[e])]
    requires Closed(ns')
    ensures ItemFrame(g, start, ns', labels, visited, pending) && BuiltBut(g, ns', labels, visited, pending, -1)
  {
    assert Built(g, ns', labels, visited, cur);
    forall k | 0 <= k < |labels| && labels[k] !in pending && k != cur
      ensures Built(g, ns', labels, visited, k)
    {
      BuiltGrow(g, ns, labels, visited, k, ns', labels, visited);
    }
    forall k | 0 <= k < |labels| && labels[k] in pending ensures ns'[k] == Node(true, map[], {}) {
      assert k != cur;
    }
  }

  /** One turn of `LR0_automaton` for a popped item that is not a reduce
      item: the states of its successors are created as needed, then its
      edge and its ε-edges are added. */
  method Expand(nfa: Graph, g: Grammar, start: Item, cur: nat, labels0: seq<Item>, visited0: map<Item, nat>, pending0: seq<Item>)
    returns (labels: seq<Item>, visited: map<Item, nat>, pending: seq<Item>)
    requires WellFormed(g) && Consistent(g)
    requires ItemFrame(g, start, nfa.nodes, labels0, visited0, pending0)
    requires BuiltBut(g, nfa.nodes, labels0, visited0, pending0, cur)
    requires cur < |labels0| && labels0[cur] !in pending0 && !labels0[cur].IsReduceItem()
    requires nfa.nodes[cur] == Node(true, map[], {})
    modifies nfa
    ensures ItemFrame(g, start, nfa.nodes, labels, visited, pending)
    ensures BuiltBut(g, nfa.nodes, labels, visited, pending, -1)
    ensures visited0.Keys <= visited.Keys
    ensures visited.Keys == visited0.Keys ==> pending == pending0
  {
    var it := labels0[cur];
    var prods;
    labels, visited, pending, prods := ReachSuccessors(nfa, g, start, cur, labels0, visited0, pending0);
    var eps := seq(|prods|, j requires 0 <= j < |prods| => visited[Item(prods[j], 0, {})]);
    EpsTargets(g, it, prods, visited, eps);
    ghost var ns2 := nfa.nodes;
    Wire(nfa, cur, it.production.rhs[it.pos].name, visited[it.NextItem()], eps);
    WiredFrame(g, start, ns2, nfa.nodes, labels, visited, pending, cur);
  }

  /** The first half of `Expand`: the states of the successors of the
      item of `cur`, which stays bare and out of `pending`. */
  method ReachSuccessors(nfa: Graph, g: Grammar, start: Item, cur: nat, labels0: seq<Item>, visited0: map<Item, nat>,
                         pending0: seq<Item>)
    returns (labels: seq<Item>, visited: map<Item, nat>, pending: seq<Item>, prods: seq<Production>)
    requires WellFormed(g) && Consistent(g)
    requires ItemFrame(g, start, nfa.nodes, labels0, visited0, pending0)
    requires BuiltBut(g, nfa.nodes, labels0, visited0, pending0, cur)
    requires cur < |labels0| && labels0[cur] !in pending0 && !labels0[cur].IsReduceItem()
    requires nfa.nodes[cur] == Node(true, map[], {})
    modifies nfa
    ensures ItemFrame(g, start, nfa.nodes, labels, visited, pending)
    ensures BuiltBut(g, nfa.nodes, labels, visited, pending, cur)
    ensures cur < |labels| && labels[cur] == labels0[cur] && labels[cur] !in pending && nfa.nodes[cur] == Node(true, map[], {})
    ensures labels0[cur].NextItem() in visited
    ensures Expansions(g, labels0[cur]) == set p | p in prods :: Item(p, 0, {})
    ensures forall p :: p in prods ==> Item(p, 0, {}) in visited
    ensures visited0.Keys <= visited.Keys
    ensures visited.Keys == visited0.Keys ==> pending == pending0
  {
    var it := labels0[cur];
    assert it in Elems(labels0);
    ExpansionsIn(g, it);
    ghost var ns0 := nfa.nodes;
    labels, visited, pending := Reach(nfa, g, start, it.NextItem(), labels0, visited0, pending0, cur, it);
    var sym := it.production.rhs[it.pos];
    prods := if sym.N? then g.RulesOf(sym.name) else [];
    assert Expansions(g, it) == set p | p in prods :: Item(p, 0, {});
    ghost var ns1, labels1, visited1, pending1 := nfa.nodes, labels, visited, pending;
    assert it in Elems(labels) by { assert labels[cur] == it; }
    labels, visited, pending := ReachAll(nfa, g, start, prods, labels, visited, pending, cur, it);
    PrefixTrans(labels0, labels1, labels);
    PrefixTrans(ns0, ns1, nfa.nodes);
    ExtendsTrans(visited0, visited1, visited);
    assert labels[cur] == it && nfa.nodes[cur] == Node(true, map[], {});
    assert labels[cur] !in pending by {
      assert it in visited0 by { assert it in Elems(labels0); }
      assert it in visited1;
      assert it !in pending1;
    }
  }

  /** `LR0_automaton`: the items of the augmented grammar reachable from
      the item of its start production, each in a state of a graph with
      ε-transitions, and the deterministic automaton made from it. */
  method Lr0Automaton(g: Grammar) returns (nfa: Graph, labels: seq<Item>, d: Graph, cls: seq<set<nat>>)
    requires AugmentedStart !in g.nonTerminals && WellFormed(g) && Consistent(g)
    ensures fresh(nfa) && fresh(d)
    ensures ItemAutomaton(Augmented(g), Item(Augmented(g).RulesOf(AugmentedStart)[0], 0, {}), nfa.nodes, labels)
    ensures Elems(labels) <= Lr0Items(Augmented(g))
    ensures Determinised(nfa.nodes, 0, cls, d.nodes)
  {
    var G := Augmented(g);
    assert |G.RulesOf(G.start)| == 1;
    var sp := G.RulesOf(G.start)[0];
    var start := Item(sp, 0, {});
    assert start in Lr0Items(G) by {
      assert G.start in G.nonTerminals;
      assert sp in WithHead(G.productions, G.start);
    }
    nfa := new Graph([Node(true, map[], {})]);
    labels := [start];
    var visited := map[start := 0];
    var pending := [start];
    StartFrame(G, start);
    while pending != []
      invariant ItemFrame(G, start, nfa.nodes, labels, visited, pending)
      invariant BuiltBut(G, nfa.nodes, labels, visited, pending, -1)
      invariant fresh(nfa)
      decreases |Lr0Items(G) - visited.Keys|, |pending|
    {
      ghost var keys0, pending0 := visited.Keys, pending;
      labels, visited, pending := Step(nfa, G, start, labels, visited, pending);
      if visited.Keys != keys0 {
        Shrinks(Lr0Items(G), keys0, visited.Keys);
      }
    }
    Finished(G, start, nfa.nodes, labels, visited);
    d, cls := nfa.ToDeterministic(0);
  }

  lemma StartFrame(g: Grammar, start: Item)
    requires start in Lr0Items(g)
    ensures ItemFrame(g, start, [Node(true, map[], {})], [start], map[start := 0], [start])
    ensures BuiltBut(g, [Node(true, map[], {})], [start], map[start := 0], [start], -1)
  {
    assert Elems([start]) == {start};
  }

  /** One turn of the worklist: the last pending item is popped and, unless
      it is a reduce item, expanded. */
  method Step(nfa: Graph, g: Grammar, start: Item, labels0: seq<Item>, visited0: map<Item, nat>, pending0: seq<Item>)
    returns (labels: seq<Item>, visited: map<Item, nat>, pending: seq<Item>)
    requires WellFormed(g) && Consistent(g) && pending0 != []
    requires ItemFrame(g, start, nfa.nodes, labels0, visited0, pending0)
    requires BuiltBut(g, nfa.nodes, labels0, visited0, pending0, -1)
    modifies nfa
    ensures ItemFrame(g, start, nfa.nodes, labels, visited, pending)
    ensures BuiltBut(g, nfa.nodes, labels, visited, pending, -1)
    ensures visited0.Keys <= visited.Keys
    ensures visited.Keys == visited0.Keys ==> |pending| < |pending0|
  {
    var current := pending0[|pending0| - 1];
    pending := pending0[..|pending0| - 1];
    assert pending0 == pending + [current];
    assert Elems(pending0) == Elems(pending) + {current};
    assert current !in pending;
    var cur := visited0[current];
    assert labels0[cur] == current by { assert current in Elems(labels0); }
    labels, visited := labels0, visited0;
    assert BuiltBut(g, nfa.nodes, labels, visited, pending, cur) by {
      forall k | 0 <= k < |labels| && labels[k] !in pending && k != cur ensures Built(g, nfa.nodes, labels, visited, k) {
        assert labels[k] !in pending0;
      }
    }
    assert nfa.nodes[cur] == Node(true, map[], {}) by { assert labels[cur] in pending0; }
    if !current.IsReduceItem() {
      labels, visited, pending := Expand(nfa, g, start, cur, labels, visited, pending);
    } else {
      assert Built(g, nfa.nodes, labels, visited, cur);
    }
  }

  lemma Shrinks(U: set<Item>, keys0: set<Item>, keys: set<Item>)
    requires keys0 < keys && keys <= U
    ensures |U - keys| < |U - keys0|
  {
    var x :| x in keys && x !in keys0;
    assert U - keys <= U - keys0 - {x};
    SubsetLe(U - keys, U - keys0 - {x});
  }

  /** With nothing pending, the graph is the item automaton. */
  lemma Finished(g: Grammar, start: Item, ns: seq<Node>, labels: seq<Item>, visited: map<Item, nat>)
    requires ItemFrame(g, start, ns, labels, visited, []) && BuiltBut(g, ns, labels, visited, [], -1)
    ensures ItemAutomaton(g, start, ns, labels)
  {
    assert forall k :: 0 <= k < |labels| ==> Built(g, ns, labels, visited, k);
    assert ItemClosed(g, Elems(labels)) by {
      forall it | it in Elems(labels) && !it.IsReduceItem()
        ensures it.NextItem() in Elems(labels) && Expansions(g, it) <= Elems(labels)
      {
        var k :| 0 <= k < |labels| && labels[k] == it;
        assert Built(g, ns, labels, visited, k);
      }
    }
    assert NoDup(labels) by {
      forall i, j | 0 <= i < j < |labels| ensures labels[i] != labels[j] {
        assert visited[labels[i]] == i && visited[labels[j]] == j;
      }
    }
    assert labels[0] in Elems(labels);
  }

  /** The items an output state stands for: `state.state` for each state in
      its `state` label. */
  function ItemsOf(labels: seq<Item>, cls: seq<set<nat>>): (r: seq<set<Item>>)
    ensures |r| == |cls|
    ensures forall k, it :: 0 <= k < |cls| ==> (it in r[k] <==> exists s :: s in cls[k] && s < |labels| && labels[s] == it)
  {
    seq(|cls|, k requires 0 <= k < |cls| => set s | s in cls[k] && s < |labels| :: labels[s])
  }

  /** `order` lists the states reachable from state 0, each once, and `idx`
      numbers each by its position. */
  ghost predicate Numbered(dn: seq<Node>, order: seq<nat>, idx: map<nat, nat>) {
    && NoDup(order) && order != [] && order[0] == 0
    && Elems(order) <= Automata.Range(|dn|) && SuccClosed(dn, Elems(order))
    && idx.Keys == Elems(order) && (forall i :: 0 <= i < |order| ==> idx[order[i]] == i)
  }

  /** What the SLR(1) table is built from: the item automaton of the
      augmented grammar, its deterministic form, the numbering of its
      states and the FOLLOW sets. */
  ghost predicate SlrSetting(g: Grammar, ns: seq<Node>, labels: seq<Item>, cls: seq<set<nat>>, dn: seq<Node>,
                             order: seq<nat>, idx: map<nat, nat>, follows: Follows)
    requires AugmentedStart !in g.nonTerminals
  {
    var G := Augmented(g);
    && WellFormed(g) && Consistent(g) && Named(g)
    && ItemAutomaton(G, Item(G.RulesOf(AugmentedStart)[0], 0, {}), ns, labels)
    && Elems(labels) <= Lr0Items(G)
    && Determinised(ns, 0, cls, dn)
    && Numbered(dn, order, idx)
    && follows.Keys == NonTerminalNames(G)
  }

  lemma NamedAugmented(g: Grammar)
    requires AugmentedStart !in g.nonTerminals && Named(g)
    ensures Named(Augmented(g))
  {
  }

  /** An item of an output state that is not a reduce item has its next
      symbol's name among the state's transitions, whose single target
      holds the item with the dot advanced. */
  lemma EdgeItem(g: Grammar, ns: seq<Node>, labels: seq<Item>, visited: map<Item, nat>, cls: seq<set<nat>>, dn: seq<Node>,
                 k: nat, it: Item)
    requires Labelled(ns, labels, visited) && forall m :: 0 <= m < |labels| ==> Built(g, ns, labels, visited, m)
    requires |cls| == |dn| && EdgesOk(ns, cls, dn)
    requires k < |dn| && dn[k].transitions.Keys == SymbolsOf(ns, cls[k])
    requires it in ItemsOf(labels, cls)[k] && !it.IsReduceItem() && it.production.rhs[it.pos].name != ""
    ensures it.production.rhs[it.pos].name in dn[k].transitions
    ensures |dn[k].transitions[it.production.rhs[it.pos].name]| == 1
    ensures it.NextItem() in ItemsOf(labels, cls)[dn[k].transitions[it.production.rhs[it.pos].name][0]]
  {
    var name := it.production.rhs[it.pos].name;
    var s :| s in cls[k] && s < |labels| && labels[s] == it;
    assert Built(g, ns, labels, visited, s);
    assert name in ns[s].transitions;
    assert name in SymbolsOf(ns, cls[k]);
    var t := dn[k].transitions[name][0];
    assert DetEdge(ns, cls, k, name, t);
    var n := visited[it.NextItem()];
    assert n in Get(ns[s], name);
    assert n in MoveByState(ns, name, cls[k]);
    assert it.NextItem() in Elems(labels);
    var m :| 0 <= m < |labels| && labels[m] == it.NextItem();
    assert n == m;
  }

  /** Every item of every numbered state fits the table construction. */
  lemma SlrFits(g: Grammar, ns: seq<Node>, labels: seq<Item>, cls: seq<set<nat>>, dn: seq<Node>,
                order: seq<nat>, idx: map<nat, nat>, follows: Follows)
    requires AugmentedStart !in g.nonTerminals
    requires SlrSetting(g, ns, labels, cls, dn, order, idx, follows)
    ensures AllFit(order, dn, ItemsOf(labels, cls), idx, ByFollow(follows))
  {
    var G := Augmented(g);
    NamedAugmented(g);
    var visited :| Labelled(ns, labels, visited) && forall m :: 0 <= m < |labels| ==> Built(G, ns, labels, visited, m);
    var itemsOf := ItemsOf(labels, cls);
    forall j | 0 <= j < |order|
      ensures order[j] < |dn| && order[j] < |itemsOf|
      ensures forall it :: it in itemsOf[order[j]] ==> Fits(it, dn[order[j]], idx, ByFollow(follows))
    {
      var k := order[j];
      assert k in Elems(order);
      forall it | it in itemsOf[k] ensures Fits(it, dn[k], idx, ByFollow(follows)) {
        ItemFits(G, ns, labels, visited, cls, dn, order, idx, follows, k, it);
      }
    }
  }

  lemma ItemFits(G: Grammar, ns: seq<Node>, labels: seq<Item>, visited: map<Item, nat>, cls: seq<set<nat>>, dn: seq<Node>,
                 order: seq<nat>, idx: map<nat, nat>, follows: Follows, k: nat, it: Item)
    requires WellFormed(G) && Named(G) && follows.Keys == NonTerminalNames(G)
    requires Labelled(ns, labels, visited) && forall m :: 0 <= m < |labels| ==> Built(G, ns, labels, visited, m)
    requires Elems(labels) <= Lr0Items(G)
    requires |cls| == |dn| && EdgesOk(ns, cls, dn)
    requires k < |dn| && dn[k].transitions.Keys == SymbolsOf(ns, cls[k])
    requires idx.Keys == Elems(order) && k in Elems(order) && SuccClosed(dn, Elems(order))
    requires it in ItemsOf(labels, cls)[k]
    ensures Fits(it, dn[k], idx, ByFollow(follows))
  {
    var s :| s in cls[k] && s < |labels| && labels[s] == it;
    assert it in Lr0Items(G) by { assert it in Elems(labels); }
    assert it.production in G.productions;
    if !it.IsReduceItem() {
      var sym := it.production.rhs[it.pos];
      assert Declared(G, sym) by { assert sym in it.production.rhs; }
      EdgeItem(G, ns, labels, visited, cls, dn, k, it);
      var t := dn[k].transitions[sym.name][0];
      assert t in dn[k].transitions[sym.name];
      assert t in Successors(dn[k]);
    }
  }

  /** The registrations of the SLR(1) table. */
  ghost function SlrEntries(g: Grammar, ns: seq<Node>, labels: seq<Item>, cls: seq<set<nat>>, dn: seq<Node>,
                            order: seq<nat>, idx: map<nat, nat>, follows: Follows): set<Entry>
    requires AugmentedStart !in g.nonTerminals
    requires SlrSetting(g, ns, labels, cls, dn, order, idx, follows)
  {
    SlrFits(g, ns, labels, cls, dn, order, idx, follows);
    TableEntries(order, |order|, dn, ItemsOf(labels, cls), idx, ByFollow(follows), AugmentedStart)
  }

  /** `SLR1Parser(G)`: the LR(0) automaton of the augmented grammar, FIRST
      and FOLLOW of the augmented grammar, the states numbered in the order
      of a visit from the start state, and every registration of every item
      of every state entered into the tables; the flag `isSLR1` ends up
      true exactly when no two registrations clash. */
  method Slr1Parser(g: Grammar)
    returns (p: Parser, ns: seq<Node>, labels: seq<Item>, cls: seq<set<nat>>, dn: seq<Node>, order: seq<nat>,
             idx: map<nat, nat>, ft: FirstTable, follows: Follows)
    requires AugmentedStart !in g.nonTerminals && WellFormed(g) && Consistent(g) && Named(g)
    ensures fresh(p)
    ensures SlrSetting(g, ns, labels, cls, dn, order, idx, follows)
    ensures IsFirstSolution(Augmented(g), ft.ofSymbol)
    ensures forall F :: IsFirstSolution(Augmented(g), F) ==> Below(ft.ofSymbol, F)
    ensures IsFollowSolution(Augmented(g), ft.ofSymbol, follows)
    ensures forall Fo :: IsFollowSolution(Augmented(g), ft.ofSymbol, Fo) ==> Below(follows, Fo)
    ensures Holds(p.action, p.goto, p.flag, SlrEntries(g, ns, labels, cls, dn, order, idx, follows))
  {
    var G := Augmented(g);
    var nfa, d;
    nfa, labels, d, cls := Lr0Automaton(g);
    ns, dn := nfa.nodes, d.nodes;
    ft := ComputeFirsts(G);
    follows := ComputeFollows(G, ft.ofSymbol);
    DetClosed(ns, cls, dn);
    order := d.Visit(0);
    idx := Number(order);
    SlrFits(g, ns, labels, cls, dn, order, idx, follows);
    p := new Parser();
    BuildTable(p, order, dn, ItemsOf(labels, cls), idx, ByFollow(follows), AugmentedStart);
  }

  /** Every item of every output state is an LR(0) item of `G`. */
  ghost predicate Lr0States(G: Grammar, itemsOf: seq<set<Item>>) {
    forall k, it :: 0 <= k < |itemsOf| && it in itemsOf[k] ==> it in Lr0Items(G)
  }

  lemma StatesLr0(G: Grammar, labels: seq<Item>, cls: seq<set<nat>>)
    requires Elems(labels) <= Lr0Items(G)
    ensures Lr0States(G, ItemsOf(labels, cls))
  {
    forall k, it | 0 <= k < |cls| && it in ItemsOf(labels, cls)[k] ensures it in Lr0Items(G) {
      var s :| s in cls[k] && s < |labels| && labels[s] == it;
      assert it in Elems(labels);
    }
  }

  /** The only production of the augmented start. */
  lemma StartProduction(g: Grammar, p: Production)
    requires AugmentedStart !in g.nonTerminals && WellFormed(g) && Consistent(g)
    requires p in Augmented(g).productions && p.lhs == AugmentedStart
    ensures p == Production(AugmentedStart, [N(g.start)])
  {
    var G := Augmented(g);
    assert p in WithHead(G.productions, AugmentedStart);
  }

  /** REDUCE registrations of a table built on FOLLOW sets from LR(0)
      states. */
  lemma {:induction false} ReduceEntries(G: Grammar, order: seq<nat>, dn: seq<Node>, itemsOf: seq<set<Item>>, idx: map<nat, nat>,
                                         follows: Follows, i: nat, a: Symbol, p: Production)
    requires AllFit(order, dn, itemsOf, idx, ByFollow(follows)) && Lr0States(G, itemsOf)
    ensures ActionEntry((i, a), Reduce(p)) in TableEntries(order, |order|, dn, itemsOf, idx, ByFollow(follows), AugmentedStart) <==>
            && i < |order| && Item(p, |p.rhs|, {}) in itemsOf[order[i]]
            && p.lhs != AugmentedStart && p.lhs in follows && a in follows[p.lhs].items
  {
    var mode := ByFollow(follows);
    var e := ActionEntry((i, a), Reduce(p));
    TableEntriesMember(order, |order|, dn, itemsOf, idx, mode, AugmentedStart, e);
    if e in TableEntries(order, |order|, dn, itemsOf, idx, mode, AugmentedStart) {
      var j, it :| 0 <= j < |order| && it in itemsOf[order[j]] && e in ItemEntries(j, it, dn[order[j]], idx, mode, AugmentedStart);
      assert it in Lr0Items(G);
      assert it.IsReduceItem() && it.production.lhs != AugmentedStart;
      assert e in Reduces(j, it.production, follows[it.production.lhs].items);
    }
    if && i < |order| && Item(p, |p.rhs|, {}) in itemsOf[order[i]]
       && p.lhs != AugmentedStart && p.lhs in follows && a in follows[p.lhs].items {
      var it := Item(p, |p.rhs|, {});
      assert e in ItemEntries(i, it, dn[order[i]], idx, mode, AugmentedStart);
    }
  }

  /** OK registrations of a table built from LR(0) states. */
  lemma {:induction false} AcceptEntries(G: Grammar, order: seq<nat>, dn: seq<Node>, itemsOf: seq<set<Item>>, idx: map<nat, nat>,
                                         mode: Lookaheads, i: nat, a: Symbol, sp: Production)
    requires AllFit(order, dn, itemsOf, idx, mode) && Lr0States(G, itemsOf)
    requires sp.lhs == AugmentedStart && forall p :: p in G.productions && p.lhs == AugmentedStart ==> p == sp
    ensures ActionEntry((i, a), Accept) in TableEntries(order, |order|, dn, itemsOf, idx, mode, AugmentedStart) <==>
            i < |order| && a == EOF && Item(sp, |sp.rhs|, {}) in itemsOf[order[i]]
  {
    var e := ActionEntry((i, a), Accept);
    TableEntriesMember(order, |order|, dn, itemsOf, idx, mode, AugmentedStart, e);
    if e in TableEntries(order, |order|, dn, itemsOf, idx, mode, AugmentedStart) {
      var j, it :| 0 <= j < |order| && it in itemsOf[order[j]] && e in ItemEntries(j, it, dn[order[j]], idx, mode, AugmentedStart);
      assert it in Lr0Items(G);
      assert it.IsReduceItem() && it.production.lhs == AugmentedStart;
    }
    if i < |order| && a == EOF && Item(sp, |sp.rhs|, {}) in itemsOf[order[i]] {
      assert e in ItemEntries(i, Item(sp, |sp.rhs|, {}), dn[order[i]], idx, mode, AugmentedStart);
    }
  }

  /** A state of the SLR(1) table SHIFTs (on a terminal) or GOes TO (on a
      non-terminal) state `j` exactly when one of its items has `a` after
      the dot and `j` is the state its transition on `a` leads to; that
      state then holds every such item with the dot advanced past `a`. */
  lemma SlrEdge(g: Grammar, ns: seq<Node>, labels: seq<Item>, cls: seq<set<nat>>, dn: seq<Node>,
                order: seq<nat>, idx: map<nat, nat>, follows: Follows, i: nat, a: Symbol, j: nat)
    requires AugmentedStart !in g.nonTerminals
    requires SlrSetting(g, ns, labels, cls, dn, order, idx, follows)
    ensures EdgeEntry(i, a, j) in SlrEntries(g, ns, labels, cls, dn, order, idx, follows) <==>
            && i < |order| && j < |order| && order[i] < |dn|
            && (exists it :: it in ItemsOf(labels, cls)[order[i]] && !it.IsReduceItem() && it.production.rhs[it.pos] == a)
            && a.name in dn[order[i]].transitions && |dn[order[i]].transitions[a.name]| > 0
            && dn[order[i]].transitions[a.name][0] == order[j]
    ensures EdgeEntry(i, a, j) in SlrEntries(g, ns, labels, cls, dn, order, idx, follows) ==>
            forall it :: it in ItemsOf(labels, cls)[order[i]] && !it.IsReduceItem() && it.production.rhs[it.pos] == a ==>
              it.NextItem() in ItemsOf(labels, cls)[order[j]]
  {
    SlrFits(g, ns, labels, cls, dn, order, idx, follows);
    EdgeEntries(order, dn, ItemsOf(labels, cls), idx, ByFollow(follows), AugmentedStart, i, a, j);
    if EdgeEntry(i, a, j) in SlrEntries(g, ns, labels, cls, dn, order, idx, follows) {
      var G := Augmented(g);
      NamedAugmented(g);
      var visited :| Labelled(ns, labels, visited) && forall m :: 0 <= m < |labels| ==> Built(G, ns, labels, visited, m);
      forall it | it in ItemsOf(labels, cls)[order[i]] && !it.IsReduceItem() && it.production.rhs[it.pos] == a
        ensures it.NextItem() in ItemsOf(labels, cls)[order[j]]
      {
        StatesLr0(G, labels, cls);
        assert it in Lr0Items(G);
        assert Declared(G, a) by { assert a in it.production.rhs; }
        EdgeItem(G, ns, labels, visited, cls, dn, order[i], it);
      }
    }
  }

  /** A state of the SLR(1) table REDUCEs by `p` on `a` exactly when it holds
      the reduce item of `p`, the head of `p` is not the augmented start and
      `a` is in FOLLOW of the head of `p`. */
  lemma SlrReduce(g: Grammar, ns: seq<Node>, labels: seq<Item>, cls: seq<set<nat>>, dn: seq<Node>,
                  order: seq<nat>, idx: map<nat, nat>, follows: Follows, i: nat, a: Symbol, p: Production)
    requires AugmentedStart !in g.nonTerminals
    requires SlrSetting(g, ns, labels, cls, dn, order, idx, follows)
    ensures ActionEntry((i, a), Reduce(p)) in SlrEntries(g, ns, labels, cls, dn, order, idx, follows) <==>
            && i < |order| && order[i] < |cls| && Item(p, |p.rhs|, {}) in ItemsOf(labels, cls)[order[i]]
            && p.lhs != AugmentedStart && p.lhs in follows && a in follows[p.lhs].items
  {
    SlrFits(g, ns, labels, cls, dn, order, idx, follows);
    StatesLr0(Augmented(g), labels, cls);
    ReduceEntries(Augmented(g), order, dn, ItemsOf(labels, cls), idx, follows, i, a, p);
  }

  /** A state of the SLR(1) table registers OK on a symbol exactly when the
      symbol is EOF and the state holds the item `S' -> S .`. */
  lemma SlrAccept(g: Grammar, ns: seq<Node>, labels: seq<Item>, cls: seq<set<nat>>, dn: seq<Node>,
                  order: seq<nat>, idx: map<nat, nat>, follows: Follows, i: nat, a: Symbol)
    requires AugmentedStart !in g.nonTerminals
    requires SlrSetting(g, ns, labels, cls, dn, order, idx, follows)
    ensures ActionEntry((i, a), Accept) in SlrEntries(g, ns, labels, cls, dn, order, idx, follows) <==>
            && i < |order| && order[i] < |cls| && a == EOF
            && Item(Production(AugmentedStart, [N(g.start)]), 1, {}) in ItemsOf(labels, cls)[order[i]]
  {
    var sp := Production(AugmentedStart, [N(g.start)]);
    SlrFits(g, ns, labels, cls, dn, order, idx, follows);
    StatesLr0(Augmented(g), labels, cls);
    forall p | p in Augmented(g).productions && p.lhs == AugmentedStart ensures p == sp {
      StartProduction(g, p);
    }
    AcceptEntries(Augmented(g), order, dn, ItemsOf(labels, cls), idx, ByFollow(follows), i, a, sp);
  }

  ghost predicate IsPrefix<A>(a: seq<A>, b: seq<A>) {
    |a| <= |b| && b[..|a|] == a
  }

  lemma PrefixTrans<A>(a: seq<A>, b: seq<A>, c: seq<A>)
    requires IsPrefix(a, b) && IsPrefix(b, c)
    ensures IsPrefix(a, c)
  {
    assert c[..|a|] == c[..|b|][..|a|];
  }

  lemma ExtendsTrans(a: map<Item, nat>, b: map<Item, nat>, c: map<Item, nat>)
    requires Extends(a, b) && Extends(b, c)
    ensures Extends(a, c)
  {
  }
}
