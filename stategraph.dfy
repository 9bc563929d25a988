/** The linked form of the automaton engine: `State` objects with their
    transitions, the ε-closure by repeated passes, recognition, the subset
    construction on the graph and the depth-first visit.  The objects live in
    one graph and name each other by their index in it. */
module StateGraphs {
  import opened Grammars
  import Automata

  /** A `State` object: its `final` flag, its `transitions` (a symbol to the
      list of destinations) and its `epsilon_transitions`.  The `state` label
      is kept beside the graph, in a sequence indexed like the nodes, by the
      code that reads it; the tag, the formatter and the shape only serve
      display. */
  datatype Node = Node(final: bool, transitions: map<string, seq<nat>>, epsilon: set<nat>)

  /** `add_transition` on one state: the destination is appended to the
      symbol's list, which is created when missing. */
  function AddTo(n: Node, symbol: string, r: nat): (n': Node)
    ensures n'.final == n.final && n'.epsilon == n.epsilon
    ensures n'.transitions.Keys == n.transitions.Keys + {symbol}
    ensures symbol in n.transitions ==> n'.transitions[symbol] == n.transitions[symbol] + [r]
    ensures symbol !in n.transitions ==> n'.transitions[symbol] == [r]
    ensures forall s :: s in n.transitions && s != symbol ==> n'.transitions[s] == n.transitions[s]
  {
    var old_ := if symbol in n.transitions then n.transitions[symbol] else [];
    n.(transitions := n.transitions[symbol := old_ + [r]])
  }

  lemma AddToSuccessors(n: Node, symbol: string, r: nat)
    ensures Successors(AddTo(n, symbol, r)) == Successors(n) + {r}
  {
    var n' := AddTo(n, symbol, r);
    forall t | t in Successors(n') ensures t in Successors(n) + {r} {
      if t !in n'.epsilon && t != r {
        var s :| s in n'.transitions && t in n'.transitions[s];
        if s == symbol {
          assert t in n.transitions[symbol];
        }
      }
    }
    forall t | t in Successors(n) ensures t in Successors(n') {
      if t !in n.epsilon {
        var s :| s in n.transitions && t in n.transitions[s];
        assert t in n'.transitions[s];
      }
    }
    assert r in n'.transitions[symbol];
  }

  /** `state[symbol]` for a symbol the state `has_transition` on: `''`
      selects the ε-transitions, any other symbol its list. */
  function Get(n: Node, symbol: string): set<nat> {
    if symbol !in n.transitions then {}
    else if symbol == "" then n.epsilon
    else Elems(n.transitions[symbol])
  }

  /** Every state a node points to. */
  function Successors(n: Node): set<nat> {
    (set s, r | s in n.transitions && r in n.transitions[s] :: r) + n.epsilon
  }

  /** Every state named in the graph is one of its states. */
  predicate Closed(ns: seq<Node>) {
    forall q, r :: 0 <= q < |ns| && r in Successors(ns[q]) ==> r < |ns|
  }

  /** `move_by_state`: the destinations on `symbol` of the states that have
      a transition on it. */
  function MoveByState(ns: seq<Node>, symbol: string, S: set<nat>): set<nat> {
    set s, r | s in S && s < |ns| && r in Get(ns[s], symbol) :: r
  }

  /** `C` is closed under ε-transitions. */
  predicate EpsClosed(ns: seq<Node>, C: set<nat>) {
    forall s, r :: s in C && s < |ns| && r in ns[s].epsilon ==> r in C
  }

  /** `C` is the ε-closure of `S`: it holds `S`, is closed under
      ε-transitions and lies inside every closed set that holds `S`. */
  ghost predicate IsClosure(ns: seq<Node>, S: set<nat>, C: set<nat>) {
    && S <= C
    && EpsClosed(ns, C)
    && forall X :: S <= X && EpsClosed(ns, X) ==> C <= X
  }

  lemma ClosureUnique(ns: seq<Node>, S: set<nat>, C1: set<nat>, C2: set<nat>)
    requires IsClosure(ns, S, C1) && IsClosure(ns, S, C2)
    ensures C1 == C2
  {
  }

  /** One pass of `epsilon_closure_by_state`: the set and the ε-destinations
      of its states. */
  function EpsPass(ns: seq<Node>, C: set<nat>): set<nat> {
    C + set s, r | s in C && s < |ns| && r in ns[s].epsilon :: r
  }

  /** `any(s.final for s in C)`. */
  predicate HasFinal(ns: seq<Node>, C: set<nat>) {
    exists s :: s in C && s < |ns| && ns[s].final
  }

  /** `{symbol for s in C for symbol in s.transitions}`. */
  function SymbolsOf(ns: seq<Node>, C: set<nat>): set<string> {
    set s, symbol | s in C && s < |ns| && symbol in ns[s].transitions :: symbol
  }

  lemma MoveInRange(ns: seq<Node>, symbol: string, S: set<nat>)
    requires Closed(ns)
    ensures forall r :: r in MoveByState(ns, symbol, S) ==> r < |ns|
  {
    forall r | r in MoveByState(ns, symbol, S) ensures r < |ns| {
      var s :| s in S && s < |ns| && r in Get(ns[s], symbol);
      assert r in Successors(ns[s]);
    }
  }

  // ------------------------------------------------------------ recognition

  /** `S` is the set of states reached from `q` by reading `w`: the
      ε-closure of `q`, then a move and a closure per symbol. */
  ghost predicate Reads(ns: seq<Node>, q: nat, w: seq<string>, S: set<nat>)
    decreases |w|
  {
    if w == [] then IsClosure(ns, {q}, S)
    else
      var u, x := w[..|w| - 1], w[|w| - 1];
      exists S0 :: Reads(ns, q, u, S0) && IsClosure(ns, MoveByState(ns, x, S0), S)
  }

  /** The states reached by a string are determined by the string. */
  lemma {:induction false} ReadsUnique(ns: seq<Node>, q: nat, w: seq<string>, S1: set<nat>, S2: set<nat>)
    requires Reads(ns, q, w, S1) && Reads(ns, q, w, S2)
    ensures S1 == S2
    decreases |w|
  {
    if w == [] {
      ClosureUnique(ns, {q}, S1, S2);
    } else {
      var u, x := w[..|w| - 1], w[|w| - 1];
      var T1 :| Reads(ns, q, u, T1) && IsClosure(ns, MoveByState(ns, x, T1), S1);
      var T2 :| Reads(ns, q, u, T2) && IsClosure(ns, MoveByState(ns, x, T2), S2);
      ReadsUnique(ns, q, u, T1, T2);
      ClosureUnique(ns, MoveByState(ns, x, T1), S1, S2);
    }
  }

  // ------------------------------------------------- subset construction

  /** The transition of output state `k` on `symbol` leads to the closure of
      the move of its subset. */
  ghost predicate DetEdge(ns: seq<Node>, cls: seq<set<nat>>, k: nat, symbol: string, j: nat)
    requires k < |cls|
  {
    j < |cls| && IsClosure(ns, MoveByState(ns, symbol, cls[k]), cls[j])
  }

  /** Output state `k` stands for the closure `cls[k]`, the first one being
      the closure of the start; the closures are distinct sets of states; an
      output state is final exactly when some member is, and has no
      ε-transitions. */
  ghost predicate Stands(ns: seq<Node>, q: nat, cls: seq<set<nat>>, dn: seq<Node>) {
    && |cls| == |dn| >= 1 && IsClosure(ns, {q}, cls[0])
    && NoDup(cls)
    && (forall j :: 0 <= j < |cls| ==> cls[j] <= Automata.Range(|ns|))
    && (forall k :: 0 <= k < |dn| ==> dn[k].final == HasFinal(ns, cls[k]) && dn[k].epsilon == {})
  }

  /** Every transition entered is a single edge to the closure of the move. */
  ghost predicate EdgesOk(ns: seq<Node>, cls: seq<set<nat>>, dn: seq<Node>)
    requires |cls| == |dn|
  {
    forall k, symbol :: 0 <= k < |dn| && symbol in dn[k].transitions ==>
      |dn[k].transitions[symbol]| == 1 && DetEdge(ns, cls, k, symbol, dn[k].transitions[symbol][0])
  }

  /** The worklist holds distinct output states without transitions. */
  ghost predicate PendingOk(dn: seq<Node>, pending: seq<nat>) {
    && (forall k :: k in pending ==> k < |dn|) && NoDup(pending)
    && (forall k :: k in pending ==> dn[k].transitions == map[])
  }

  /** What every turn of `to_deterministic` keeps. */
  ghost predicate DetFrame(ns: seq<Node>, q: nat, cls: seq<set<nat>>, dn: seq<Node>, pending: seq<nat>) {
    Stands(ns, q, cls, dn) && EdgesOk(ns, cls, dn) && PendingOk(dn, pending)
  }

  /** The output states taken from the worklist, other than `cur`, have a
      transition on exactly the symbols of their members. */
  ghost predicate DetDoneBut(ns: seq<Node>, cls: seq<set<nat>>, dn: seq<Node>, pending: seq<nat>, cur: int)
    requires |cls| == |dn|
  {
    forall k :: 0 <= k < |dn| && k !in pending && k != cur ==> dn[k].transitions.Keys == SymbolsOf(ns, cls[k])
  }

  /** The output state `cur` has its transitions on the symbols of `done`. */
  ghost predicate DetPartial(dn: seq<Node>, pending: seq<nat>, cur: nat, done: set<string>) {
    cur < |dn| && cur !in pending && dn[cur].transitions.Keys == done
  }

  /** The result of `to_deterministic` from `q`: output state `k` stands for
      the closure `cls[k]`, state 0 for the closure of `q`; each closure
      gives exactly one state; a state is final exactly when one of its
      members is; and every state has exactly one transition per symbol found
      on its members, to the state of the closure of the move. */
  ghost predicate Determinised(ns: seq<Node>, q: nat, cls: seq<set<nat>>, dn: seq<Node>) {
    && Stands(ns, q, cls, dn)
    && EdgesOk(ns, cls, dn)
    && (forall k :: 0 <= k < |dn| ==> dn[k].transitions.Keys == SymbolsOf(ns, cls[k]))
  }

  /** A determinised graph names only its own states. */
  lemma DetClosed(ns: seq<Node>, cls: seq<set<nat>>, dn: seq<Node>)
    requires |cls| == |dn| && EdgesOk(ns, cls, dn) && forall k :: 0 <= k < |dn| ==> dn[k].epsilon == {}
    ensures Closed(dn)
  {
    forall k, r | 0 <= k < |dn| && r in Successors(dn[k]) ensures r < |dn| {
      var symbol :| symbol in dn[k].transitions && r in dn[k].transitions[symbol];
      assert DetEdge(ns, cls, k, symbol, dn[k].transitions[symbol][0]);
    }
  }

  lemma StandsGrow(ns: seq<Node>, q: nat, cls: seq<set<nat>>, dn: seq<Node>, c: set<nat>)
    requires Stands(ns, q, cls, dn)
    requires c !in cls && c <= Automata.Range(|ns|)
    ensures Stands(ns, q, cls + [c], dn + [Node(HasFinal(ns, c), map[], {})])
  {
    NoDupAppend(cls, c);
    var cls', dn' := cls + [c], dn + [Node(HasFinal(ns, c), map[], {})];
    assert cls'[0] == cls[0];
    forall k | 0 <= k < |dn'| ensures dn'[k].final == HasFinal(ns, cls'[k]) && dn'[k].epsilon == {} {
      if k < |dn| {
        assert dn'[k] == dn[k] && cls'[k] == cls[k];
      }
    }
  }

  lemma EdgesGrow(ns: seq<Node>, cls: seq<set<nat>>, dn: seq<Node>, c: set<nat>, n: Node)
    requires |cls| == |dn| && EdgesOk(ns, cls, dn)
    requires n.transitions == map[]
    ensures EdgesOk(ns, cls + [c], dn + [n])
  {
    var cls', dn' := cls + [c], dn + [n];
    forall k, symbol | 0 <= k < |dn'| && symbol in dn'[k].transitions
      ensures |dn'[k].transitions[symbol]| == 1 && DetEdge(ns, cls', k, symbol, dn'[k].transitions[symbol][0])
    {
      assert k < |dn| && dn'[k] == dn[k] && cls'[k] == cls[k];
      var j := dn[k].transitions[symbol][0];
      assert DetEdge(ns, cls, k, symbol, j);
      assert cls'[j] == cls[j];
    }
  }

  /** Taking the last output state off the worklist starts its row. */
  lemma DetPop(ns: seq<Node>, q: nat, cls: seq<set<nat>>, dn: seq<Node>, pending: seq<nat>)
    requires pending != []
    requires DetFrame(ns, q, cls, dn, pending) && DetDoneBut(ns, cls, dn, pending, -1)
    ensures DetFrame(ns, q, cls, dn, pending[..|pending| - 1])
    ensures DetDoneBut(ns, cls, dn, pending[..|pending| - 1], pending[|pending| - 1])
    ensures DetPartial(dn, pending[..|pending| - 1], pending[|pending| - 1], {})
  {
    var cur, rest := pending[|pending| - 1], pending[..|pending| - 1];
    assert pending == rest + [cur] && cur in pending;
    assert cur !in rest;
    assert forall x :: x in rest ==> x in pending;
  }

  /** A new output state for a new closure keeps the invariants. */
  lemma DetGrowKeeps(ns: seq<Node>, q: nat, cls: seq<set<nat>>, dn: seq<Node>, pending: seq<nat>,
                     cur: nat, done: set<string>, c: set<nat>)
    requires DetFrame(ns, q, cls, dn, pending)
    requires DetDoneBut(ns, cls, dn, pending, cur)
    requires DetPartial(dn, pending, cur, done)
    requires c !in cls && c <= Automata.Range(|ns|)
    ensures DetFrame(ns, q, cls + [c], dn + [Node(HasFinal(ns, c), map[], {})], pending + [|cls|])
    ensures DetDoneBut(ns, cls + [c], dn + [Node(HasFinal(ns, c), map[], {})], pending + [|cls|], cur)
    ensures DetPartial(dn + [Node(HasFinal(ns, c), map[], {})], pending + [|cls|], cur, done)
  {
    var n := Node(HasFinal(ns, c), map[], {});
    var dn' := dn + [n];
    StandsGrow(ns, q, cls, dn, c);
    EdgesGrow(ns, cls, dn, c, n);
    PendingGrow(dn, pending, n);
    DoneButGrow(ns, cls, dn, pending, cur, c, n);
    assert dn'[cur] == dn[cur];
  }

  lemma PendingGrow(dn: seq<Node>, pending: seq<nat>, n: Node)
    requires PendingOk(dn, pending) && n.transitions == map[]
    ensures PendingOk(dn + [n], pending + [|dn|])
  {
    var dn', pending' := dn + [n], pending + [|dn|];
    NoDupAppend(pending, |dn|);
    forall k | k in pending' ensures k < |dn'| && dn'[k].transitions == map[] {
      if k != |dn| {
        assert k in pending && dn'[k] == dn[k];
      }
    }
  }

  lemma DoneButGrow(ns: seq<Node>, cls: seq<set<nat>>, dn: seq<Node>, pending: seq<nat>, cur: nat, c: set<nat>, n: Node)
    requires |cls| == |dn| && DetDoneBut(ns, cls, dn, pending, cur)
    ensures DetDoneBut(ns, cls + [c], dn + [n], pending + [|dn|], cur)
  {
    var cls', dn', pending' := cls + [c], dn + [n], pending + [|dn|];
    forall k | 0 <= k < |dn'| && k !in pending' && k != cur
      ensures dn'[k].transitions.Keys == SymbolsOf(ns, cls'[k])
    {
      assert k < |dn| && dn'[k] == dn[k] && cls'[k] == cls[k] && k !in pending;
    }
  }

  /** Entering the transition of `cur` on `symbol` keeps the invariants and
      marks the symbol as done. */
  lemma DetEnterKeeps(ns: seq<Node>, q: nat, cls: seq<set<nat>>, dn: seq<Node>, pending: seq<nat>,
                      cur: nat, done: set<string>, symbol: string, j: nat)
    requires DetFrame(ns, q, cls, dn, pending)
    requires DetDoneBut(ns, cls, dn, pending, cur)
    requires DetPartial(dn, pending, cur, done)
    requires symbol !in done && DetEdge(ns, cls, cur, symbol, j)
    ensures DetFrame(ns, q, cls, dn[cur := AddTo(dn[cur], symbol, j)], pending)
    ensures DetDoneBut(ns, cls, dn[cur := AddTo(dn[cur], symbol, j)], pending, cur)
    ensures DetPartial(dn[cur := AddTo(dn[cur], symbol, j)], pending, cur, done + {symbol})
  {
    var dn' := dn[cur := AddTo(dn[cur], symbol, j)];
    forall k, s | 0 <= k < |dn'| && s in dn'[k].transitions
      ensures |dn'[k].transitions[s]| == 1 && DetEdge(ns, cls, k, s, dn'[k].transitions[s][0])
    {
      if k != cur || s != symbol {
        assert DetEdge(ns, cls, k, s, dn[k].transitions[s][0]);
      }
    }
  }

  /** A closure in the graph of a subset construction: output states have
      no ε-transitions, so a set of them is its own closure. */
  lemma DetClosure(dn: seq<Node>, S: set<nat>)
    requires forall k :: 0 <= k < |dn| ==> dn[k].epsilon == {}
    ensures IsClosure(dn, S, S)
  {
  }

  lemma ReadsSnoc(ns: seq<Node>, q: nat, u: seq<string>, x: string, S0: set<nat>, S: set<nat>)
    requires Reads(ns, q, u, S0) && IsClosure(ns, MoveByState(ns, x, S0), S)
    ensures Reads(ns, q, u + [x], S)
  {
    var w := u + [x];
    assert w[..|w| - 1] == u && w[|w| - 1] == x;
  }

  lemma EmptyReads(ns: seq<Node>, q: nat, u: seq<string>, x: string)
    requires Reads(ns, q, u, {})
    ensures Reads(ns, q, u + [x], {})
  {
    assert MoveByState(ns, x, {}) == {};
    ReadsSnoc(ns, q, u, x, {}, {});
  }

  /** The output has a transition on `x` from state `i`. */
  lemma DetRunEdge(ns: seq<Node>, q: nat, cls: seq<set<nat>>, dn: seq<Node>, u: seq<string>, x: string, i: nat)
    requires Determinised(ns, q, cls, dn)
    requires x != "" && i < |dn| && x in dn[i].transitions
    requires Reads(dn, 0, u, {i}) && Reads(ns, q, u, cls[i])
    ensures dn[i].transitions[x][0] < |dn|
    ensures Reads(dn, 0, u + [x], {dn[i].transitions[x][0]}) && Reads(ns, q, u + [x], cls[dn[i].transitions[x][0]])
  {
    var k := dn[i].transitions[x][0];
    assert DetEdge(ns, cls, i, x, k);
    assert dn[i].transitions[x] == [k];
    assert Get(dn[i], x) == {k};
    assert k in MoveByState(dn, x, {i});
    assert MoveByState(dn, x, {i}) == {k};
    DetClosure(dn, {k});
    ReadsSnoc(dn, 0, u, x, {i}, {k});
    ReadsSnoc(ns, q, u, x, cls[i], cls[k]);
  }

  /** The output has no transition on `x` from state `i`: neither does any
      member of its closure. */
  lemma DetRunMissing(ns: seq<Node>, q: nat, cls: seq<set<nat>>, dn: seq<Node>, u: seq<string>, x: string, i: nat)
    requires Determinised(ns, q, cls, dn)
    requires x != "" && i < |dn| && x !in dn[i].transitions
    requires Reads(dn, 0, u, {i}) && Reads(ns, q, u, cls[i])
    ensures Reads(dn, 0, u + [x], {}) && Reads(ns, q, u + [x], {})
  {
    assert MoveByState(dn, x, {i}) == {};
    assert forall s :: s in cls[i] && s < |ns| && x in ns[s].transitions ==> x in SymbolsOf(ns, cls[i]);
    assert forall s :: s in cls[i] && s < |ns| ==> Get(ns[s], x) == {};
    assert MoveByState(ns, x, cls[i]) == {};
    DetClosure(dn, {});
    assert IsClosure(ns, {}, {});
    ReadsSnoc(dn, 0, u, x, {i}, {});
    ReadsSnoc(ns, q, u, x, cls[i], {});
  }

  /** Running the output of `to_deterministic` on a string of non-empty
      symbols follows the closures: it reaches the single state `k` exactly
      when the original graph reaches `cls[k]`, and nothing when the graph
      reaches nothing. */
  lemma {:induction false} DetRun(ns: seq<Node>, q: nat, cls: seq<set<nat>>, dn: seq<Node>, w: seq<string>)
    returns (k: int)
    requires Determinised(ns, q, cls, dn)
    requires forall i :: 0 <= i < |w| ==> w[i] != ""
    ensures -1 <= k < |dn|
    ensures k >= 0 ==> Reads(dn, 0, w, {k}) && Reads(ns, q, w, cls[k])
    ensures k < 0 ==> Reads(dn, 0, w, {}) && Reads(ns, q, w, {})
    decreases |w|
  {
    if w == [] {
      DetClosure(dn, {0});
      return 0;
    }
    var u, x := w[..|w| - 1], w[|w| - 1];
    var i := DetRun(ns, q, cls, dn, u);
    assert w == u + [x];
    if i < 0 {
      EmptyReads(dn, 0, u, x);
      EmptyReads(ns, q, u, x);
      k := -1;
    } else if x in dn[i].transitions {
      DetRunEdge(ns, q, cls, dn, u, x, i);
      k := dn[i].transitions[x][0];
    } else {
      DetRunMissing(ns, q, cls, dn, u, x, i);
      k := -1;
    }
  }

  /** `to_deterministic` keeps the language on strings of non-empty
      symbols: its output recognizes `w` from state 0 exactly when the
      original graph recognizes `w` from `q`. */
  lemma DetSameLanguage(ns: seq<Node>, q: nat, cls: seq<set<nat>>, dn: seq<Node>, w: seq<string>)
    requires Determinised(ns, q, cls, dn)
    requires forall i :: 0 <= i < |w| ==> w[i] != ""
    ensures (exists S :: Reads(dn, 0, w, S) && HasFinal(dn, S)) <==> (exists S :: Reads(ns, q, w, S) && HasFinal(ns, S))
  {
    DetAccepted(ns, q, cls, dn, w);
    NodesAccepted(ns, q, cls, dn, w);
  }

  /** A word the deterministic graph accepts is accepted by the original. */
  lemma DetAccepted(ns: seq<Node>, q: nat, cls: seq<set<nat>>, dn: seq<Node>, w: seq<string>)
    requires Determinised(ns, q, cls, dn)
    requires forall i :: 0 <= i < |w| ==> w[i] != ""
    ensures (exists S :: Reads(dn, 0, w, S) && HasFinal(dn, S)) ==> (exists S :: Reads(ns, q, w, S) && HasFinal(ns, S))
  {
    var k := DetRun(ns, q, cls, dn, w);
    if exists S :: Reads(dn, 0, w, S) && HasFinal(dn, S) {
      var S :| Reads(dn, 0, w, S) && HasFinal(dn, S);
      if k < 0 {
        ReadsUnique(dn, 0, w, S, {});
      } else {
        ReadsUnique(dn, 0, w, S, {k});
        assert HasFinal(ns, cls[k]);
      }
    }
  }

  /** A word the original graph accepts is accepted by the deterministic one. */
  lemma NodesAccepted(ns: seq<Node>, q: nat, cls: seq<set<nat>>, dn: seq<Node>, w: seq<string>)
    requires Determinised(ns, q, cls, dn)
    requires forall i :: 0 <= i < |w| ==> w[i] != ""
    ensures (exists S :: Reads(ns, q, w, S) && HasFinal(ns, S)) ==> (exists S :: Reads(dn, 0, w, S) && HasFinal(dn, S))
  {
    var k := DetRun(ns, q, cls, dn, w);
    if exists S :: Reads(ns, q, w, S) && HasFinal(ns, S) {
      var S :| Reads(ns, q, w, S) && HasFinal(ns, S);
      if k < 0 {
        ReadsUnique(ns, q, w, S, {});
      } else {
        ReadsUnique(ns, q, w, S, cls[k]);
        assert HasFinal(dn, {k});
      }
    }
  }

  // --------------------------------------------------------------- visit

  /** One successor of the loop of `_visit`: the recursive visit of `r`
      extends the order and the visited set and keeps the loop's facts. */
  lemma VisitStep(ns: seq<Node>, q: nat, r: nat, visited0: set<nat>, visited: set<nat>, visited': set<nat>,
                  order: seq<nat>, more: seq<nat>, rest: set<nat>)
    requires q < |ns| && r in rest && rest <= Successors(ns[q])
    requires visited0 + {q} <= visited
    requires NoDup(order) && Elems(order) == visited - visited0 && |order| >= 1 && order[0] == q
    requires forall t :: t in Successors(ns[q]) - rest ==> t in visited
    requires forall s, t :: s in visited - visited0 - {q} && s < |ns| && t in Successors(ns[s]) ==> t in visited
    requires forall X :: q in X && SuccClosed(ns, X) ==> visited - visited0 <= X
    requires visited <= visited' && r in visited'
    requires NoDup(more) && Elems(more) == visited' - visited
    requires forall s, t :: s in visited' - visited && s < |ns| && t in Successors(ns[s]) ==> t in visited'
    requires forall X :: r in X && SuccClosed(ns, X) ==> visited' - visited <= X
    ensures NoDup(order + more) && Elems(order + more) == visited' - visited0 && (order + more)[0] == q
    ensures forall t :: t in Successors(ns[q]) - (rest - {r}) ==> t in visited'
    ensures forall s, t :: s in visited' - visited0 - {q} && s < |ns| && t in Successors(ns[s]) ==> t in visited'
    ensures forall X :: q in X && SuccClosed(ns, X) ==> visited' - visited0 <= X
  {
    forall X | q in X && SuccClosed(ns, X) ensures visited' - visited0 <= X {
      assert r in X;
    }
    NoDupConcat(order, more);
  }

  lemma NoDupConcat(a: seq<nat>, b: seq<nat>)
    requires NoDup(a) && NoDup(b) && Elems(a) !! Elems(b)
    ensures NoDup(a + b) && Elems(a + b) == Elems(a) + Elems(b)
  {
    forall i, j | 0 <= i < j < |a + b| ensures (a + b)[i] != (a + b)[j] {
      if i < |a| && j >= |a| {
        assert (a + b)[i] in Elems(a) && (a + b)[j] in Elems(b);
      }
    }
  }

  /** Every successor of a state of `X` is in `X`. */
  ghost predicate SuccClosed(ns: seq<Node>, X: set<nat>) {
    forall s, r :: s in X && s < |ns| && r in Successors(ns[s]) ==> r in X
  }


  /** A graph of `State` objects. */
  class Graph {
    var nodes: seq<Node>

    ghost predicate Valid()
      reads this
    {
      Closed(nodes)
    }

    constructor (nodes: seq<Node>)
      ensures this.nodes == nodes
    {
      this.nodes := nodes;
    }

    /** `State(state, final)`: a new state without transitions. */
    method NewState(final: bool) returns (q: nat)
      modifies this
      ensures q == |old(nodes)| && nodes == old(nodes) + [Node(final, map[], {})]
      ensures old(Valid()) ==> Valid()
    {
      q := |nodes|;
      nodes := nodes + [Node(final, map[], {})];
      assert forall p :: 0 <= p < q ==> nodes[p] == old(nodes)[p];
    }

    /** `add_transition`: `r` is appended to the destinations of `q` on
        `symbol`. */
    method AddTransition(q: nat, symbol: string, r: nat)
      requires q < |nodes| && r < |nodes|
      modifies this
      ensures nodes == old(nodes)[q := AddTo(old(nodes)[q], symbol, r)]
      ensures old(Valid()) ==> Valid()
    {
      nodes := nodes[q := AddTo(nodes[q], symbol, r)];
      if old(Valid()) {
        AddToSuccessors(old(nodes)[q], symbol, r);
        forall p, t | 0 <= p < |nodes| && t in Successors(nodes[p]) ensures t < |nodes| {
          if t != r {
            assert t in Successors(old(nodes)[p]);
          }
        }
      }
    }

    /** `add_epsilon_transition`: `r` joins the ε-transitions of `q`. */
    method AddEpsilonTransition(q: nat, r: nat)
      requires q < |nodes| && r < |nodes|
      modifies this
      ensures nodes == old(nodes)[q := old(nodes)[q].(epsilon := old(nodes)[q].epsilon + {r})]
      ensures old(Valid()) ==> Valid()
    {
      nodes := nodes[q := nodes[q].(epsilon := nodes[q].epsilon + {r})];
      if old(Valid()) {
        forall p, t | 0 <= p < |nodes| && t in Successors(nodes[p]) ensures t < |nodes| {
          if t != r {
            assert t in Successors(old(nodes)[p]);
          }
        }
      }
    }

    /** One pass of the loop of `epsilon_closure_by_state` over a snapshot
        of the closure. */
    method ClosurePass(closure0: set<nat>) returns (closure: set<nat>)
      ensures closure == EpsPass(nodes, closure0)
    {
      var tmp := Automata.ListOf(closure0);
      closure := closure0;
      for i := 0 to |tmp|
        invariant closure == closure0 + set s, r | s in Elems(tmp[..i]) && s < |nodes| && r in nodes[s].epsilon :: r
      {
        assert Elems(tmp[..i + 1]) == Elems(tmp[..i]) + {tmp[i]} by { assert tmp[..i + 1] == tmp[..i] + [tmp[i]]; }
        if tmp[i] < |nodes| {
          closure := closure + nodes[tmp[i]].epsilon;
        }
      }
      assert tmp[..|tmp|] == tmp;
    }

    /** `epsilon_closure_by_state`: passes over the closure until its size
        stops changing. */
    method EpsilonClosureByState(states: set<nat>) returns (closure: set<nat>)
      requires Valid() && forall s :: s in states ==> s < |nodes|
      ensures IsClosure(nodes, states, closure)
      ensures closure <= Automata.Range(|nodes|)
    {
      closure := states;
      var l := 0;
      while l != |closure|
        invariant states <= closure <= Automata.Range(|nodes|)
        invariant l <= |closure|
        invariant l == |closure| ==> EpsClosed(nodes, closure)
        invariant forall X :: states <= X && EpsClosed(nodes, X) ==> closure <= X
        decreases |Automata.Range(|nodes|)| - l
      {
        l := |closure|;
        ghost var before := closure;
        closure := ClosurePass(closure);
        forall r | r in closure ensures r < |nodes| {
          if r !in before {
            var s :| s in before && s < |nodes| && r in nodes[s].epsilon;
            assert r in Successors(nodes[s]);
          }
        }
        forall X | states <= X && EpsClosed(nodes, X) ensures closure <= X {
          assert before <= X;
        }
        SubsetLe(before, closure);
        SubsetLe(closure, Automata.Range(|nodes|));
        if l == |closure| {
          SubsetCard(before, closure);
          assert EpsClosed(nodes, closure);
        }
      }
    }

    /** `epsilon_closure` of one state. */
    method EpsilonClosure(q: nat) returns (closure: set<nat>)
      requires Valid() && q < |nodes|
      ensures IsClosure(nodes, {q}, closure)
      ensures closure <= Automata.Range(|nodes|)
    {
      closure := EpsilonClosureByState({q});
    }

    /** `recognize`: the closure of the state, then a move and a closure per
        symbol; the string is accepted when a final state remains. */
    method Recognize(q: nat, w: seq<string>) returns (accepted: bool)
      requires Valid() && q < |nodes|
      ensures accepted <==> exists S :: Reads(nodes, q, w, S) && HasFinal(nodes, S)
    {
      var states := EpsilonClosure(q);
      SubsetLe(states, states);
      for i := 0 to |w|
        invariant Reads(nodes, q, w[..i], states)
        invariant states <= Automata.Range(|nodes|)
      {
        var m := MoveByState(nodes, w[i], states);
        MoveInRange(nodes, w[i], states);
        ghost var prev := states;
        states := EpsilonClosureByState(m);
        assert w[..i + 1][..i] == w[..i] && w[..i + 1][i] == w[i];
        assert Reads(nodes, q, w[..i], prev) && IsClosure(nodes, MoveByState(nodes, w[i], prev), states);
      }
      assert w[..|w|] == w;
      accepted := HasFinal(nodes, states);
      if exists S :: Reads(nodes, q, w, S) && HasFinal(nodes, S) {
        var S :| Reads(nodes, q, w, S) && HasFinal(nodes, S);
        ReadsUnique(nodes, q, w, S, states);
      }
    }

    /** One symbol of the inner loop of `to_deterministic` for output state
        `cur`: the closure of the move is looked up among the closures or
        made a new output state, and entered as the transition. */
    method DetStep(q: nat, cls0: seq<set<nat>>, dn0: seq<Node>, pending0: seq<nat>,
                   cur: nat, symbol: string, ghost done: set<string>)
      returns (cls: seq<set<nat>>, dn: seq<Node>, pending: seq<nat>)
      requires Valid()
      requires DetFrame(nodes, q, cls0, dn0, pending0)
      requires DetDoneBut(nodes, cls0, dn0, pending0, cur)
      requires DetPartial(dn0, pending0, cur, done)
      requires symbol !in done
      ensures DetFrame(nodes, q, cls, dn, pending)
      ensures DetDoneBut(nodes, cls, dn, pending, cur)
      ensures DetPartial(dn, pending, cur, done + {symbol})
      ensures |cls0| <= |cls| && cls[..|cls0|] == cls0
      ensures |pending| - |pending0| == |cls| - |cls0|
    {
      cls, dn, pending := cls0, dn0, pending0;
      var m := MoveByState(nodes, symbol, cls[cur]);
      MoveInRange(nodes, symbol, cls[cur]);
      var c := EpsilonClosureByState(m);
      var j: nat;
      if c !in cls {
        DetGrowKeeps(nodes, q, cls, dn, pending, cur, done, c);
        j := |cls|;
        cls := cls + [c];
        dn := dn + [Node(HasFinal(nodes, c), map[], {})];
        pending := pending + [j];
      } else {
        j := Automata.IndexOf(cls, c);
      }
      DetEnterKeeps(nodes, q, cls, dn, pending, cur, done, symbol, j);
      dn := dn[cur := AddTo(dn[cur], symbol, j)];
    }

    /** The inner loop of `to_deterministic` for output state `cur`, over
        the symbols of its members in an order the model leaves open. */
    method DetRow(q: nat, cls0: seq<set<nat>>, dn0: seq<Node>, pending0: seq<nat>, cur: nat)
      returns (cls: seq<set<nat>>, dn: seq<Node>, pending: seq<nat>)
      requires Valid()
      requires DetFrame(nodes, q, cls0, dn0, pending0)
      requires DetDoneBut(nodes, cls0, dn0, pending0, cur)
      requires DetPartial(dn0, pending0, cur, {})
      ensures DetFrame(nodes, q, cls, dn, pending)
      ensures DetDoneBut(nodes, cls, dn, pending, -1)
      ensures |cls0| <= |cls|
      ensures |pending| - |pending0| == |cls| - |cls0|
    {
      cls, dn, pending := cls0, dn0, pending0;
      var symbols := SymbolsOf(nodes, cls[cur]);
      var rest := symbols;
      while rest != {}
        invariant rest <= symbols
        invariant DetFrame(nodes, q, cls, dn, pending)
        invariant DetDoneBut(nodes, cls, dn, pending, cur)
        invariant DetPartial(dn, pending, cur, symbols - rest)
        invariant cur < |cls0| <= |cls| && cls[cur] == cls0[cur]
        invariant |pending| - |pending0| == |cls| - |cls0|
        decreases rest
      {
        var symbol := Pick(rest);
        cls, dn, pending := DetStep(q, cls, dn, pending, cur, symbol, symbols - rest);
        assert symbols - (rest - {symbol}) == (symbols - rest) + {symbol};
        rest := rest - {symbol};
      }
    }

    /** `to_deterministic`: the subset construction on the graph, returning
        the new states (state 0 is the returned `start`) together with the
        closure each stands for (its `state` label). */
    method ToDeterministic(q: nat) returns (d: Graph, cls: seq<set<nat>>)
      requires Valid() && q < |nodes|
      ensures fresh(d) && Determinised(nodes, q, cls, d.nodes)
    {
      var c0 := EpsilonClosure(q);
      var closures := [c0];
      var dn := [Node(HasFinal(nodes, c0), map[], {})];
      var pending: seq<nat> := [0];
      SubsetLe(c0, c0);
      while pending != []
        invariant DetFrame(nodes, q, closures, dn, pending)
        invariant DetDoneBut(nodes, closures, dn, pending, -1)
        decreases Automata.Pow2(|Automata.Range(|nodes|)|) - |closures|, |pending|
      {
        var cur := pending[|pending| - 1];
        DetPop(nodes, q, closures, dn, pending);
        pending := pending[..|pending| - 1];
        closures, dn, pending := DetRow(q, closures, dn, pending, cur);
        NoDupCard(closures);
        Automata.FamilyBound(Elems(closures), Automata.Range(|nodes|));
      }
      d := new Graph(dn);
      cls := closures;
    }

    /** `_visit` from `q` with the states in `visited` already seen: the
        states it yields, in order, and the visited set afterwards.  The
        successors are taken in an order the model leaves open. */
    method VisitFrom(q: nat, visited0: set<nat>) returns (order: seq<nat>, visited: set<nat>)
      requires Valid() && q < |nodes| && visited0 <= Automata.Range(|nodes|)
      ensures visited0 <= visited <= Automata.Range(|nodes|)
      ensures q in visited
      ensures NoDup(order) && Elems(order) == visited - visited0
      ensures q !in visited0 ==> order != [] && order[0] == q
      ensures q in visited0 ==> order == []
      ensures forall s, r :: s in visited - visited0 && s < |nodes| && r in Successors(nodes[s]) ==> r in visited
      ensures forall X :: q in X && SuccClosed(nodes, X) ==> visited - visited0 <= X
      decreases |Automata.Range(|nodes|)| - |visited0|
    {
      if q in visited0 {
        return [], visited0;
      }
      visited := visited0 + {q};
      order := [q];
      SubsetLe(visited0, visited);
      assert visited0 < visited;
      var rest := Successors(nodes[q]);
      while rest != {}
        invariant rest <= Successors(nodes[q])
        invariant visited0 + {q} <= visited <= Automata.Range(|nodes|)
        invariant NoDup(order) && Elems(order) == visited - visited0 && |order| >= 1 && order[0] == q
        invariant forall r :: r in Successors(nodes[q]) - rest ==> r in visited
        invariant forall s, r :: s in visited - visited0 - {q} && s < |nodes| && r in Successors(nodes[s]) ==> r in visited
        invariant forall X :: q in X && SuccClosed(nodes, X) ==> visited - visited0 <= X
        decreases rest
      {
        var r := Pick(rest);
        assert r < |nodes|;
        SubsetLe(visited0 + {q}, visited);
        SubsetLe(visited, Automata.Range(|nodes|));
        assert |visited0 + {q}| == |visited0| + 1;
        assert |Automata.Range(|nodes|)| - |visited| < |Automata.Range(|nodes|)| - |visited0|;
        var more, visited' := VisitFrom(r, visited);
        VisitStep(nodes, q, r, visited0, visited, visited', order, more, rest);
        order, visited := order + more, visited';
        rest := rest - {r};
      }
    }

    /** `__iter__`: the states reachable from `q`, each yielded once, `q`
        first. */
    method Visit(q: nat) returns (order: seq<nat>)
      requires Valid() && q < |nodes|
      ensures NoDup(order) && order != [] && order[0] == q
      ensures Elems(order) <= Automata.Range(|nodes|)
      ensures SuccClosed(nodes, Elems(order))
      ensures forall X :: q in X && SuccClosed(nodes, X) ==> Elems(order) <= X
    {
      var visited;
      order, visited := VisitFrom(q, {});
      assert visited - {} == visited;
    }
  }
}
