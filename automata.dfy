/** The automaton engine over integer states: NFAs, `move`, the ε-closure,
    the subset construction, DFAs with their label maps, recognition and the
    index renumbering the regular expression synthesis relies on. */
module Automata {
  import opened Grammars

  /** `range(n)`: the states of an automaton with `n` states. */
  function Range(n: nat): (r: set<nat>)
    ensures forall i: nat :: i in r <==> i < n
    decreases n
  {
    if n <= 0 then {} else Range(n - 1) + {n - 1}
  }

  /** `2 ^ n`. */
  function Pow2(n: nat): nat {
    if n == 0 then 1 else 2 * Pow2(n - 1)
  }

  /** An NFA: the number of states, the start, the final states and the
      transition map from `(origin, symbol)` to a list of destinations.  The
      empty symbol labels the ε-transitions. */
  datatype Nfa = Nfa(states: nat, start: nat, finals: set<nat>, trans: map<(nat, string), seq<nat>>)
  {
    /** The destinations of `q` on `symbol`; none when there is no entry. */
    function Dests(q: nat, symbol: string): seq<nat> {
      if (q, symbol) in trans then trans[(q, symbol)] else []
    }

    /** `vocabulary`: the symbols of the transition map other than ε. */
    function Vocabulary(): set<string> {
      set k | k in trans && k.1 != "" :: k.1
    }

    /** Every destination is a state of the automaton. */
    predicate Targets() {
      forall k, d :: k in trans && d in trans[k] ==> d < states
    }

    /** Every ε-destination is a state of the automaton. */
    predicate EpsTargets() {
      forall k, d :: k in trans && k.1 == "" && d in trans[k] ==> d < states
    }
  }

  /** The `NFA` constructor.  It builds `transitions[origin][symbol]` on the
      dictionary `{state: {} for state in range(states)}`, so a transition
      leaving a state outside that range is a `KeyError`. */
  function NewNfa(states: nat, finals: seq<nat>, trans: map<(nat, string), seq<nat>>, start: nat): (r: Option<Nfa>)
    ensures r.Some? <==> forall k :: k in trans ==> k.0 < states
    ensures r.Some? ==> r.value.states == states && r.value.start == start
                        && r.value.finals == Elems(finals) && r.value.trans == trans
  {
    if forall k :: k in trans ==> k.0 < states then Some(Nfa(states, start, Elems(finals), trans))
    else None
  }

  /** The vocabulary holds exactly the non-empty symbols of the transition map. */
  lemma VocabularyNoEpsilon(a: Nfa, s: string)
    ensures s in a.Vocabulary() <==> s != "" && exists q :: (q, s) in a.trans
  {
    if s != "" && exists q :: (q, s) in a.trans {
      var q :| (q, s) in a.trans;
      assert (q, s).1 == s;
    }
  }

  // ---------------------------------------------------------------- move

  /** The destinations on `symbol` of the states of `S`. */
  function MoveSet(a: Nfa, S: set<nat>, symbol: string): set<nat> {
    set q, d | q in S && d in a.Dests(q, symbol) :: d
  }

  lemma MoveSetAdd(a: Nfa, S: set<nat>, q: nat, symbol: string)
    ensures MoveSet(a, S + {q}, symbol) == MoveSet(a, S, symbol) + Elems(a.Dests(q, symbol))
  {
  }

  /** `move`: the union of the destinations on `symbol`; a state without a
      transition on `symbol` (or outside the automaton) adds nothing. */
  method Move(a: Nfa, states: set<nat>, symbol: string) returns (moves: set<nat>)
    ensures moves == MoveSet(a, states, symbol)
  {
    moves := {};
    var rest := states;
    while rest != {}
      invariant rest <= states
      invariant moves == MoveSet(a, states - rest, symbol)
      decreases rest
    {
      var q := Pick(rest);
      MoveSetAdd(a, states - rest, q, symbol);
      assert states - (rest - {q}) == (states - rest) + {q};
      moves := moves + Elems(a.Dests(q, symbol));
      rest := rest - {q};
    }
  }

  /** A destination is in the move exactly when some state of the set has it
      on the symbol; the states without the symbol can be dropped. */
  lemma MoveSetMembers(a: Nfa, S: set<nat>, symbol: string, d: nat)
    ensures d in MoveSet(a, S, symbol) <==> exists q :: q in S && (q, symbol) in a.trans && d in a.trans[(q, symbol)]
    ensures MoveSet(a, S, symbol) == MoveSet(a, (set q | q in S && (q, symbol) in a.trans), symbol)
  {
    if exists q :: q in S && (q, symbol) in a.trans && d in a.trans[(q, symbol)] {
      var q :| q in S && (q, symbol) in a.trans && d in a.trans[(q, symbol)];
      assert d in a.Dests(q, symbol);
    }
    var R := set q | q in S && (q, symbol) in a.trans;
    forall e | e in MoveSet(a, S, symbol) ensures e in MoveSet(a, R, symbol) {
      var q :| q in S && e in a.Dests(q, symbol);
      assert q in R;
    }
  }

  // ---------------------------------------------------------- ε-closure

  /** `C` is closed under ε-transitions. */
  predicate EpsClosed(a: Nfa, C: set<nat>) {
    forall q, d :: q in C && d in a.Dests(q, "") ==> d in C
  }

  /** `C` is the ε-closure of `S`: it holds `S`, is closed under
      ε-transitions and lies inside every closed set that holds `S`. */
  ghost predicate IsClosure(a: Nfa, S: set<nat>, C: set<nat>) {
    && S <= C
    && EpsClosed(a, C)
    && forall X :: S <= X && EpsClosed(a, X) ==> C <= X
  }

  /** The ε-closure of a set is determined by the set. */
  lemma ClosureUnique(a: Nfa, S: set<nat>, C1: set<nat>, C2: set<nat>)
    requires IsClosure(a, S, C1) && IsClosure(a, S, C2)
    ensures C1 == C2
  {
  }

  /** The closure of a set is empty exactly when the set is. */
  lemma ClosureEmpty(a: Nfa, S: set<nat>, C: set<nat>)
    requires IsClosure(a, S, C)
    ensures C == {} <==> S == {}
  {
    if S == {} {
      assert EpsClosed(a, {});
    }
  }

  /** `[s for s in states]`: the elements of a set, listed once each in some
      order. */
  method ListOf(states: set<nat>) returns (l: seq<nat>)
    ensures Elems(l) == states && NoDup(l)
  {
    l := [];
    var rest := states;
    while rest != {}
      invariant rest <= states
      invariant Elems(l) == states - rest && NoDup(l)
      decreases rest
    {
      var q := Pick(rest);
      assert Elems(l + [q]) == Elems(l) + {q};
      l := l + [q];
      rest := rest - {q};
    }
  }

  /** One turn of the inner loop of `epsilon_closure`: each destination not
      yet in the closure is added to it and to the worklist. */
  method PushNew(closure0: set<nat>, pending0: seq<nat>, ds: seq<nat>)
    returns (closure: set<nat>, pending: seq<nat>)
    requires Elems(pending0) <= closure0
    ensures closure == closure0 + Elems(ds)
    ensures Elems(pending) == Elems(pending0) + (closure - closure0)
    ensures |pending| - |pending0| == |closure| - |closure0|
  {
    closure, pending := closure0, pending0;
    for i := 0 to |ds|
      invariant closure == closure0 + Elems(ds[..i])
      invariant Elems(pending) == Elems(pending0) + (closure - closure0)
      invariant |pending| - |pending0| == |closure| - |closure0|
    {
      var d := ds[i];
      assert Elems(ds[..i + 1]) == Elems(ds[..i]) + {d} by { assert ds[..i + 1] == ds[..i] + [d]; }
      if d !in closure {
        closure := closure + {d};
        assert Elems(pending + [d]) == Elems(pending) + {d};
        pending := pending + [d];
      }
    }
    assert ds[..|ds|] == ds;
  }

  /** `epsilon_closure`: the worklist search along ε-transitions.  Every
      state it takes from the worklist passes the `state in transitions`
      assertion of `epsilon_transitions`, because the seeds and the
      ε-destinations are states of the automaton. */
  method EpsilonClosure(a: Nfa, states: set<nat>) returns (closure: set<nat>)
    requires forall s :: s in states ==> s < a.states
    requires a.EpsTargets()
    ensures IsClosure(a, states, closure)
    ensures closure <= Range(a.states)
  {
    var pending := ListOf(states);
    closure := states;
    while pending != []
      invariant states <= closure <= Range(a.states)
      invariant Elems(pending) <= closure
      invariant forall q, d :: q in closure && q !in Elems(pending) && d in a.Dests(q, "") ==> d in closure
      invariant forall X :: states <= X && EpsClosed(a, X) ==> closure <= X
      decreases |Range(a.states)| - |closure|, |pending|
    {
      ghost var pOld := pending;
      var state := pending[|pending| - 1];
      pending := pending[..|pending| - 1];
      ghost var c0 := closure;
      ghost var p0 := pending;
      assert pOld == p0 + [state];
      assert Elems(pOld) == Elems(p0) + {state};
      var ds := a.Dests(state, "");
      forall X | states <= X && EpsClosed(a, X) ensures c0 + Elems(ds) <= X {
        forall d | d in ds ensures d in X { assert d in a.Dests(state, ""); }
      }
      forall d | d in ds ensures d < a.states { assert d in a.trans[(state, "")]; }
      closure, pending := PushNew(closure, pending, ds);
      assert closure <= Range(a.states);
      forall q, d | q in closure && q !in Elems(pending) && d in a.Dests(q, "") ensures d in closure {
        if q == state {
          assert d in ds;
        } else {
          assert q in c0 && q !in Elems(pOld);
        }
      }
      SubsetLe(closure, Range(a.states));
      SubsetLe(c0, closure);
    }
  }

  // ---------------------------------------------------------- nfa_to_dfa

  /** The transition entries of a DFA under construction, in insertion
      order: `((origin, symbol), destination)`. */
  type Entries = seq<((nat, string), nat)>

  /** The keys of the entries. */
  function KeysOf(entries: Entries): set<(nat, string)> {
    set e | e in entries :: e.0
  }

  /** No key is entered twice, as in a dictionary. */
  predicate KeysDistinct(entries: Entries) {
    forall i, j :: 0 <= i < j < |entries| ==> entries[i].0 != entries[j].0
  }

  lemma KeysOfSnoc(entries: Entries, e: ((nat, string), nat))
    ensures KeysOf(entries + [e]) == KeysOf(entries) + {e.0}
  {
    assert forall x :: x in entries + [e] <==> x in entries || x == e;
  }

  /** A transition of the subset construction: from subset `i` on a symbol
      of the vocabulary to the ε-closure of the move, which is never empty. */
  ghost predicate SubsetEdge(a: Nfa, states: seq<set<nat>>, e: ((nat, string), nat)) {
    && e.0.0 < |states| && e.1 < |states| && e.0.1 in a.Vocabulary()
    && IsClosure(a, MoveSet(a, states[e.0.0], e.0.1), states[e.1])
    && states[e.1] != {}
  }

  /** Subset `i` has a transition on exactly those symbols of `syms` whose
      move is non-empty. */
  ghost predicate Handled(a: Nfa, states: seq<set<nat>>, entries: Entries, i: nat, syms: set<string>)
    requires i < |states|
  {
    forall s :: s in syms ==> ((i, s) in KeysOf(entries) <==> MoveSet(a, states[i], s) != {})
  }

  /** What every turn of `nfa_to_dfa` keeps: the first subset is the closure
      of the start, the subsets are distinct sets of states, every entry is a
      transition of the construction, no key is entered twice, and the
      subsets still pending have no transitions yet. */
  ghost predicate Frame(a: Nfa, states: seq<set<nat>>, pending: seq<nat>, entries: Entries) {
    && |states| >= 1 && IsClosure(a, {a.start}, states[0])
    && NoDup(states)
    && (forall j :: 0 <= j < |states| ==> states[j] <= Range(a.states))
    && (forall k :: k in pending ==> k < |states|) && NoDup(pending)
    && (forall e :: e in entries ==> SubsetEdge(a, states, e))
    && KeysDistinct(entries)
    && (forall j, s :: j in pending ==> (j, s) !in KeysOf(entries))
  }

  /** The subsets already taken from the worklist, other than `cur`, have
      all their transitions. */
  ghost predicate DoneBut(a: Nfa, states: seq<set<nat>>, pending: seq<nat>, entries: Entries, cur: int) {
    forall j :: 0 <= j < |states| && j !in pending && j != cur ==> Handled(a, states, entries, j, a.Vocabulary())
  }

  /** The subset `cur` has its transitions on the symbols of `done` and none
      on the others. */
  ghost predicate Partial(a: Nfa, states: seq<set<nat>>, pending: seq<nat>, entries: Entries, cur: nat, done: set<string>) {
    && cur < |states| && cur !in pending
    && Handled(a, states, entries, cur, done)
    && (forall s :: s !in done ==> (cur, s) !in KeysOf(entries))
  }

  /** Every destination of a move is a state of the automaton. */
  lemma MoveInRange(a: Nfa, S: set<nat>, symbol: string)
    requires a.Targets()
    ensures forall d :: d in MoveSet(a, S, symbol) ==> d < a.states
  {
    forall d | d in MoveSet(a, S, symbol) ensures d < a.states {
      var q :| q in S && d in a.Dests(q, symbol);
      assert d in a.trans[(q, symbol)];
    }
  }

  /** The first index of `x` in `s`: `[x for x in states if x == d][0]`. */
  function IndexOf<T(==)>(s: seq<T>, x: T): (i: nat)
    requires x in s
    ensures i < |s| && s[i] == x
  {
    if s[0] == x then 0 else 1 + IndexOf(s[1..], x)
  }

  /** Adding a new subset to the end of the list and of the worklist keeps
      the invariants. */
  lemma GrowKeeps(a: Nfa, states: seq<set<nat>>, pending: seq<nat>, entries: Entries,
                  cur: nat, done: set<string>, dest: set<nat>)
    requires Frame(a, states, pending, entries)
    requires DoneBut(a, states, pending, entries, cur)
    requires Partial(a, states, pending, entries, cur, done)
    requires dest !in states && dest <= Range(a.states)
    ensures Frame(a, states + [dest], pending + [|states|], entries)
    ensures DoneBut(a, states + [dest], pending + [|states|], entries, cur)
    ensures Partial(a, states + [dest], pending + [|states|], entries, cur, done)
  {
    var states', pending' := states + [dest], pending + [|states|];
    NoDupAppend(states, dest);
    NoDupAppend(pending, |states|);
    forall e | e in entries ensures SubsetEdge(a, states', e) {
      assert SubsetEdge(a, states, e);
    }
    forall j | 0 <= j < |states'| && j !in pending' && j != cur
      ensures Handled(a, states', entries, j, a.Vocabulary())
    {
      assert Handled(a, states, entries, j, a.Vocabulary());
    }
  }

  /** Entering the transition of `cur` on `symbol` keeps the invariants and
      marks the symbol as done. */
  lemma EnterKeeps(a: Nfa, states: seq<set<nat>>, pending: seq<nat>, entries: Entries,
                   cur: nat, done: set<string>, symbol: string, j: nat)
    requires Frame(a, states, pending, entries)
    requires DoneBut(a, states, pending, entries, cur)
    requires Partial(a, states, pending, entries, cur, done)
    requires symbol !in done
    requires SubsetEdge(a, states, ((cur, symbol), j))
    ensures Frame(a, states, pending, entries + [((cur, symbol), j)])
    ensures DoneBut(a, states, pending, entries + [((cur, symbol), j)], cur)
    ensures Partial(a, states, pending, entries + [((cur, symbol), j)], cur, done + {symbol})
  {
    var e := ((cur, symbol), j);
    var entries' := entries + [e];
    KeysOfSnoc(entries, e);
    ClosureEmpty(a, MoveSet(a, states[cur], symbol), states[j]);
    forall s | s in done + {symbol}
      ensures (cur, s) in KeysOf(entries') <==> MoveSet(a, states[cur], s) != {}
    {
      if s != symbol {
        assert Handled(a, states, entries, cur, done);
      }
    }
    forall i | 0 <= i < |entries| ensures entries[i].0 != e.0 {
      assert entries[i] in entries;
    }
    forall x | x in entries' ensures SubsetEdge(a, states, x) {
      if x != e {
        assert x in entries;
      }
    }
    forall jj | 0 <= jj < |states| && jj !in pending && jj != cur
      ensures Handled(a, states, entries', jj, a.Vocabulary())
    {
      assert Handled(a, states, entries, jj, a.Vocabulary());
    }
  }

  /** One symbol of the inner loop of `nfa_to_dfa` for subset `cur`: the
      closure of the move, skipped when empty, otherwise looked up among the
      subsets or added as a new one, and entered as the transition. */
  method SubsetStep(a: Nfa, states0: seq<set<nat>>, pending0: seq<nat>, entries0: Entries,
                    cur: nat, symbol: string, ghost done: set<string>)
    returns (states: seq<set<nat>>, pending: seq<nat>, entries: Entries)
    requires a.Targets() && 0 <= a.start < a.states
    requires Frame(a, states0, pending0, entries0)
    requires DoneBut(a, states0, pending0, entries0, cur)
    requires Partial(a, states0, pending0, entries0, cur, done)
    requires symbol in a.Vocabulary() && symbol !in done
    ensures Frame(a, states, pending, entries)
    ensures DoneBut(a, states, pending, entries, cur)
    ensures Partial(a, states, pending, entries, cur, done + {symbol})
    ensures |states0| <= |states|
    ensures |pending| - |pending0| == |states| - |states0|
  {
    states, pending, entries := states0, pending0, entries0;
    var m := Move(a, states[cur], symbol);
    MoveInRange(a, states[cur], symbol);
    var dest := EpsilonClosure(a, m);
    ClosureEmpty(a, m, dest);
    if dest == {} {
      return;
    }
    var j: nat;
    if dest !in states {
      GrowKeeps(a, states, pending, entries, cur, done, dest);
      j := |states|;
      states := states + [dest];
      pending := pending + [j];
    } else {
      j := IndexOf(states, dest);
    }
    EnterKeeps(a, states, pending, entries, cur, done, symbol, j);
    entries := entries + [((cur, symbol), j)];
  }

  /** The whole inner loop of `nfa_to_dfa` for subset `cur`, over the
      vocabulary in an order the model leaves open. */
  method SubsetRow(a: Nfa, states0: seq<set<nat>>, pending0: seq<nat>, entries0: Entries, cur: nat)
    returns (states: seq<set<nat>>, pending: seq<nat>, entries: Entries)
    requires a.Targets() && 0 <= a.start < a.states
    requires Frame(a, states0, pending0, entries0)
    requires DoneBut(a, states0, pending0, entries0, cur)
    requires Partial(a, states0, pending0, entries0, cur, {})
    ensures Frame(a, states, pending, entries)
    ensures DoneBut(a, states, pending, entries, -1)
    ensures |states0| <= |states|
    ensures |pending| - |pending0| == |states| - |states0|
  {
    states, pending, entries := states0, pending0, entries0;
    var rest := a.Vocabulary();
    while rest != {}
      invariant rest <= a.Vocabulary()
      invariant Frame(a, states, pending, entries)
      invariant DoneBut(a, states, pending, entries, cur)
      invariant Partial(a, states, pending, entries, cur, a.Vocabulary() - rest)
      invariant |states0| <= |states|
      invariant |pending| - |pending0| == |states| - |states0|
      decreases rest
    {
      var symbol := Pick(rest);
      states, pending, entries := SubsetStep(a, states, pending, entries, cur, symbol, a.Vocabulary() - rest);
      assert a.Vocabulary() - (rest - {symbol}) == (a.Vocabulary() - rest) + {symbol};
      rest := rest - {symbol};
    }
  }

  /** `nfa_to_dfa` up to the `DFA` constructor: the subsets in the order they
      were created (subset `i` is the DFA state `i`), the transitions in
      insertion order, and the final subsets.  The assertion against a second
      destination for one `(state, symbol)` never fails: the keys are
      distinct. */
  method SubsetConstruction(a: Nfa) returns (states: seq<set<nat>>, entries: Entries, finals: seq<nat>)
    requires a.Targets() && 0 <= a.start < a.states
    ensures |states| >= 1 && IsClosure(a, {a.start}, states[0])
    ensures NoDup(states) && forall j :: 0 <= j < |states| ==> states[j] <= Range(a.states)
    ensures forall e :: e in entries ==> SubsetEdge(a, states, e)
    ensures KeysDistinct(entries)
    ensures forall i :: 0 <= i < |states| ==> Handled(a, states, entries, i, a.Vocabulary())
    ensures forall k: nat :: k in finals <==> k < |states| && states[k] * a.finals != {}
    ensures NoDup(finals)
  {
    var c0 := EpsilonClosure(a, {a.start});
    states := [c0];
    var pending: seq<nat> := [0];
    entries := [];
    while pending != []
      invariant Frame(a, states, pending, entries)
      invariant DoneBut(a, states, pending, entries, -1)
      decreases Pow2(|Range(a.states)|) - |states|, |pending|
    {
      ghost var pOld := pending;
      var cur := pending[|pending| - 1];
      pending := pending[..|pending| - 1];
      assert pOld == pending + [cur] && cur in pOld;
      assert cur !in pending;
      assert forall x :: x in pending ==> x in pOld;
      assert Partial(a, states, pending, entries, cur, {});
      assert DoneBut(a, states, pending, entries, cur);
      assert Frame(a, states, pending, entries);
      states, pending, entries := SubsetRow(a, states, pending, entries, cur);
      NoDupCard(states);
      FamilyBound(Elems(states), Range(a.states));
    }
    finals := [];
    for k := 0 to |states|
      invariant forall x: nat :: x in finals <==> x < k && states[x] * a.finals != {}
      invariant NoDup(finals) && forall x :: x in finals ==> x < k
    {
      if states[k] * a.finals != {} {
        finals := finals + [k];
      }
    }
  }

  // ---------------------------------------------------------------- DFA

  /** The symbols of the entries from `o` to `d`, in insertion order. */
  function EdgeSymbols(entries: Entries, o: nat, d: nat): seq<string> {
    if entries == [] then []
    else
      var e := entries[|entries| - 1];
      EdgeSymbols(entries[..|entries| - 1], o, d) + (if e.0.0 == o && e.1 == d then [e.0.1] else [])
  }

  /** A symbol is on the edge from `o` to `d` exactly when an entry says so. */
  lemma {:induction false} EdgeSymbolsMembers(entries: Entries, o: nat, d: nat, s: string)
    ensures s in EdgeSymbols(entries, o, d) <==> ((o, s), d) in entries
  {
    if entries != [] {
      var prefix := entries[..|entries| - 1];
      assert entries == prefix + [entries[|entries| - 1]];
      EdgeSymbolsMembers(prefix, o, d, s);
    }
  }

  /** `'|'.join(ss)`, built the way the constructor extends a label. */
  function Join(ss: seq<string>): string
    requires ss != []
  {
    if |ss| == 1 then ss[0] else Join(ss[..|ss| - 1]) + "|" + ss[|ss| - 1]
  }

  /** `out_transitions`: every state of `range(n)` has a label map; the label
      to `d` is present exactly when some entry goes there, and it is the
      `|`-join of the symbols of those entries in insertion order. */
  ghost predicate OutLabelled(entries: Entries, n: nat, m: map<nat, map<nat, string>>) {
    && m.Keys == Range(n)
    && forall o, d :: o in m ==>
         if d in m[o] then EdgeSymbols(entries, o, d) != [] && m[o][d] == Join(EdgeSymbols(entries, o, d))
         else EdgeSymbols(entries, o, d) == []
  }

  /** No edge carries an empty label. */
  ghost predicate Nonblank(m: map<nat, map<nat, string>>) {
    forall o, d :: o in m && d in m[o] ==> m[o][d] != ""
  }

  lemma {:induction false} JoinNonblank(ss: seq<string>)
    requires ss != [] && ss[0] != ""
    ensures Join(ss) != ""
    decreases |ss|
  {
    if |ss| > 1 {
      JoinNonblank(ss[..|ss| - 1]);
    }
  }

  /** Symbols are not empty, so neither is a label joined from them. */
  lemma LabelsNonblank(entries: Entries, n: nat, m: map<nat, map<nat, string>>)
    requires OutLabelled(entries, n, m) && forall e :: e in entries ==> e.0.1 != ""
    ensures Nonblank(m)
  {
    forall o, d | o in m && d in m[o] ensures m[o][d] != "" {
      var ss := EdgeSymbols(entries, o, d);
      EdgeSymbolsMembers(entries, o, d, ss[0]);
      JoinNonblank(ss);
    }
  }

  /** `in_transitions`: the same labels, indexed by destination first. */
  ghost predicate InLabelled(entries: Entries, n: nat, m: map<nat, map<nat, string>>) {
    && m.Keys == Range(n)
    && forall d, o :: d in m ==>
         if o in m[d] then EdgeSymbols(entries, o, d) != [] && m[d][o] == Join(EdgeSymbols(entries, o, d))
         else EdgeSymbols(entries, o, d) == []
  }

  /** The two label maps describe the same edges with the same labels: an
      edge from `o` to `d` is in `outT[o]` exactly when it is in `inT[d]`. */
  ghost predicate Mirror(inT: map<nat, map<nat, string>>, outT: map<nat, map<nat, string>>) {
    inT.Keys == outT.Keys && OutsMirrored(inT, outT) && InsMirrored(inT, outT)
  }

  ghost predicate OutsMirrored(inT: map<nat, map<nat, string>>, outT: map<nat, map<nat, string>>) {
    forall o, d :: o in outT && d in outT[o] ==> d in inT && o in inT[d] && inT[d][o] == outT[o][d]
  }

  ghost predicate InsMirrored(inT: map<nat, map<nat, string>>, outT: map<nat, map<nat, string>>) {
    forall d, o :: d in inT && o in inT[d] ==> o in outT && d in outT[o]
  }

  /** The label maps the constructor builds from entries within range. */
  ghost predicate Built(entries: Entries, n: nat, inT: map<nat, map<nat, string>>, outT: map<nat, map<nat, string>>) {
    && (forall e :: e in entries ==> e.0.0 < n && e.1 < n)
    && OutLabelled(entries, n, outT) && InLabelled(entries, n, inT)
  }

  /** The label maps the constructor builds mirror each other. */
  lemma LabelledMirror(entries: Entries, n: nat, inT: map<nat, map<nat, string>>, outT: map<nat, map<nat, string>>)
    requires Built(entries, n, inT, outT)
    ensures Mirror(inT, outT)
  {
    OutsLabelledMirrored(entries, n, inT, outT);
    InsLabelledMirrored(entries, n, inT, outT);
  }

  lemma OutsLabelledMirrored(entries: Entries, n: nat, inT: map<nat, map<nat, string>>, outT: map<nat, map<nat, string>>)
    requires Built(entries, n, inT, outT)
    ensures OutsMirrored(inT, outT)
  {
    forall o | o in outT ensures forall d :: d in outT[o] ==> d in inT && o in inT[d] && inT[d][o] == outT[o][d] {
      forall d | d in outT[o] ensures d in inT && o in inT[d] && inT[d][o] == outT[o][d] {
        OutEdgeMirrored(entries, n, inT, outT, o, d);
      }
    }
  }

  lemma InsLabelledMirrored(entries: Entries, n: nat, inT: map<nat, map<nat, string>>, outT: map<nat, map<nat, string>>)
    requires Built(entries, n, inT, outT)
    ensures InsMirrored(inT, outT)
  {
    forall d | d in inT ensures forall o :: o in inT[d] ==> o in outT && d in outT[o] {
      forall o | o in inT[d] ensures o in outT && d in outT[o] {
        InEdgeMirrored(entries, n, inT, outT, o, d);
      }
    }
  }

  lemma OutEdgeMirrored(entries: Entries, n: nat, inT: map<nat, map<nat, string>>, outT: map<nat, map<nat, string>>, o: nat, d: nat)
    requires Built(entries, n, inT, outT)
    requires o in outT && d in outT[o]
    ensures d in inT && o in inT[d] && inT[d][o] == outT[o][d]
  {
    var s := EdgeSymbols(entries, o, d)[0];
    EdgeSymbolsMembers(entries, o, d, s);
    assert ((o, s), d) in entries;
    assert d in inT;
  }

  lemma InEdgeMirrored(entries: Entries, n: nat, inT: map<nat, map<nat, string>>, outT: map<nat, map<nat, string>>, o: nat, d: nat)
    requires Built(entries, n, inT, outT)
    requires d in inT && o in inT[d]
    ensures o in outT && d in outT[o]
  {
    var s := EdgeSymbols(entries, o, d)[0];
    EdgeSymbolsMembers(entries, o, d, s);
    assert ((o, s), d) in entries;
    assert o in outT;
  }

  lemma EdgeSymbolsSnoc(entries: Entries, i: nat, o: nat, d: nat)
    requires i < |entries|
    ensures EdgeSymbols(entries[..i + 1], o, d) ==
            EdgeSymbols(entries[..i], o, d) + (if entries[i].0.0 == o && entries[i].1 == d then [entries[i].0.1] else [])
  {
    assert entries[..i + 1][..i] == entries[..i];
  }

  lemma JoinSnoc(ss: seq<string>, s: string)
    requires ss != []
    ensures Join(ss + [s]) == Join(ss) + "|" + s
  {
    assert (ss + [s])[..|ss|] == ss;
  }

  /** Appends `symbol` to the label from `x` to `y`, as the constructor's
      `'|'.join` does one symbol at a time. */
  function Extend(m: map<nat, map<nat, string>>, x: nat, y: nat, symbol: string): map<nat, map<nat, string>>
    requires x in m
  {
    var row: map<nat, string> := m[x][y := if y in m[x] then m[x][y] + "|" + symbol else symbol];
    m[x := row]
  }

  lemma OutLabelStep(entries: Entries, n: nat, i: nat, m: map<nat, map<nat, string>>)
    requires i < |entries| && entries[i].0.0 < n
    requires OutLabelled(entries[..i], n, m)
    ensures OutLabelled(entries[..i + 1], n, Extend(m, entries[i].0.0, entries[i].1, entries[i].0.1))
  {
    var o, symbol, d := entries[i].0.0, entries[i].0.1, entries[i].1;
    var m' := Extend(m, o, d, symbol);
    forall x, y | x in m'
      ensures if y in m'[x] then EdgeSymbols(entries[..i + 1], x, y) != [] && m'[x][y] == Join(EdgeSymbols(entries[..i + 1], x, y))
              else EdgeSymbols(entries[..i + 1], x, y) == []
    {
      EdgeSymbolsSnoc(entries, i, x, y);
      if x == o && y == d {
        if d in m[o] {
          JoinSnoc(EdgeSymbols(entries[..i], x, y), symbol);
        } else {
          assert EdgeSymbols(entries[..i + 1], x, y) == [symbol];
        }
      } else {
        assert EdgeSymbols(entries[..i + 1], x, y) == EdgeSymbols(entries[..i], x, y);
      }
    }
  }

  lemma InLabelStep(entries: Entries, n: nat, i: nat, m: map<nat, map<nat, string>>)
    requires i < |entries| && entries[i].1 < n
    requires InLabelled(entries[..i], n, m)
    ensures InLabelled(entries[..i + 1], n, Extend(m, entries[i].1, entries[i].0.0, entries[i].0.1))
  {
    var o, symbol, d := entries[i].0.0, entries[i].0.1, entries[i].1;
    var m' := Extend(m, d, o, symbol);
    forall y, x | y in m'
      ensures if x in m'[y] then EdgeSymbols(entries[..i + 1], x, y) != [] && m'[y][x] == Join(EdgeSymbols(entries[..i + 1], x, y))
              else EdgeSymbols(entries[..i + 1], x, y) == []
    {
      EdgeSymbolsSnoc(entries, i, x, y);
      if x == o && y == d {
        if o in m[d] {
          JoinSnoc(EdgeSymbols(entries[..i], x, y), symbol);
        } else {
          assert EdgeSymbols(entries[..i + 1], x, y) == [symbol];
        }
      } else {
        assert EdgeSymbols(entries[..i + 1], x, y) == EdgeSymbols(entries[..i], x, y);
      }
    }
  }

  /** The label maps the `DFA` constructor builds from its transitions. */
  method LabelMaps(n: nat, entries: Entries) returns (inT: map<nat, map<nat, string>>, outT: map<nat, map<nat, string>>)
    requires forall e :: e in entries ==> e.0.0 < n && e.1 < n
    ensures OutLabelled(entries, n, outT) && InLabelled(entries, n, inT)
  {
    inT := map q | q in Range(n) :: map[];
    outT := map q | q in Range(n) :: map[];
    for i := 0 to |entries|
      invariant OutLabelled(entries[..i], n, outT) && InLabelled(entries[..i], n, inT)
    {
      var o, symbol, d := entries[i].0.0, entries[i].0.1, entries[i].1;
      assert entries[i] in entries;
      OutLabelStep(entries, n, i, outT);
      InLabelStep(entries, n, i, inT);
      outT := outT[o := outT[o][d := if d in outT[o] then outT[o][d] + "|" + symbol else symbol]];
      inT := inT[d := inT[d][o := if o in inT[d] then inT[d][o] + "|" + symbol else symbol]];
    }
    assert entries[..|entries|] == entries;
  }

  /** `{key: [value] for key, value in transitions.items()}`. */
  function MapOf(entries: Entries): (m: map<(nat, string), seq<nat>>)
    ensures m.Keys == KeysOf(entries)
    ensures forall k :: k in m ==> |m[k]| == 1
    ensures KeysDistinct(entries) ==> forall e :: e in entries ==> m[e.0] == [e.1]
  {
    if entries == [] then map[]
    else
      var prefix := entries[..|entries| - 1];
      var e := entries[|entries| - 1];
      assert entries == prefix + [e];
      KeysOfSnoc(prefix, e);
      MapOf(prefix)[e.0 := [e.1]]
  }

  /** The state reached from `q` by reading `w`, if no symbol is missing. */
  function Run(delta: map<(nat, string), nat>, q: nat, w: seq<string>): Option<nat> {
    if w == [] then Some(q)
    else
      match Run(delta, q, w[..|w| - 1])
      case None => None
      case Some(p) => if (p, w[|w| - 1]) in delta then Some(delta[(p, w[|w| - 1])]) else None
  }

  /** Reading `u` then `v` is reading `u + v`, and a missing symbol stops
      the run for good. */
  lemma {:induction false} RunAppend(delta: map<(nat, string), nat>, q: nat, u: seq<string>, v: seq<string>)
    ensures Run(delta, q, u + v) == if Run(delta, q, u).None? then None else Run(delta, Run(delta, q, u).value, v)
    decreases |v|
  {
    if v == [] {
      assert u + v == u;
    } else {
      var v' := v[..|v| - 1];
      assert (u + v)[..|u + v| - 1] == u + v';
      assert (u + v)[|u + v| - 1] == v[|v| - 1];
      RunAppend(delta, q, u, v');
    }
  }

  /** A `DFA` object: the NFA fields, the current state `_move` updates and
      the label maps `in_transitions`/`out_transitions` that the regular
      expression synthesis edits.  `delta` is `transitions[state][symbol][0]`
      as built by the constructor; `trans` is `map`, which the renumbering
      replaces. */
  class Dfa {
    var states: nat
    var start: nat
    var finals: seq<nat>
    var trans: map<(nat, string), seq<nat>>
    var delta: map<(nat, string), nat>
    var current: nat
    var inT: map<nat, map<nat, string>>
    var outT: map<nat, map<nat, string>>

    /** `DFA(states, finals, transitions)`: the keys are those of a
        dictionary, the symbols are not empty and the states are in range,
        as the constructor's assertions and lookups demand.  `set(finals)`
        is listed in an order the model leaves open. */
    constructor (states: nat, finals: seq<nat>, entries: Entries)
      requires KeysDistinct(entries)
      requires forall e :: e in entries ==> e.0.1 != "" && e.0.0 < states && e.1 < states
      ensures this.states == states && start == 0 && current == 0
      ensures Elems(this.finals) == Elems(finals) && NoDup(this.finals)
      ensures trans.Keys == delta.Keys == KeysOf(entries)
      ensures forall e :: e in entries ==> trans[e.0] == [e.1] && delta[e.0] == e.1
      ensures OutLabelled(entries, states, outT) && InLabelled(entries, states, inT)
      ensures Labelled()
    {
      var fs := ListOf(Elems(finals));
      var ins, outs := LabelMaps(states, entries);
      var m := MapOf(entries);
      this.states := states;
      start := 0;
      this.finals := fs;
      trans := m;
      delta := map k | k in m :: m[k][0];
      current := 0;
      inT := ins;
      outT := outs;
      LabelledMirror(entries, states, ins, outs);
      LabelsNonblank(entries, states, outs);
    }

    /** The label maps mirror each other, cover exactly the states and
        carry no empty label, and the finals are listed once each. */
    ghost predicate Labelled()
      reads this
    {
      Mirror(inT, outT) && outT.Keys == Range(states) && Nonblank(outT) && NoDup(finals)
    }

    /** `_move`: follows the transition on `symbol`, or reports its absence. */
    method Move(symbol: string) returns (ok: bool)
      modifies this`current
      ensures ok <==> (old(current), symbol) in delta
      ensures current == if ok then delta[(old(current), symbol)] else old(current)
    {
      if (current, symbol) in delta {
        current := delta[(current, symbol)];
        return true;
      }
      return false;
    }

    /** `_reset`. */
    method Reset()
      modifies this`current
      ensures current == start
    {
      current := start;
    }

    /** `recognize`: the run from the start reads the whole string and ends
        in a final state. */
    method Recognize(w: seq<string>) returns (accepted: bool)
      modifies this`current
      ensures accepted <==> Run(delta, start, w).Some? && Run(delta, start, w).value in finals
    {
      Reset();
      for i := 0 to |w|
        invariant Run(delta, start, w[..i]) == Some(current)
      {
        assert w[..i + 1][..i] == w[..i];
        var ok := Move(w[i]);
        if !ok {
          RunAppend(delta, start, w[..i + 1], w[i + 1..]);
          assert w[..i + 1] + w[i + 1..] == w;
          return false;
        }
      }
      assert w[..|w|] == w;
      return current in finals;
    }

    /** `convert_indexs`: the finals are numbered from 0 in list order when
        the start is final, otherwise from 1 after the start, numbered 0; the
        finals are replaced by their numbers.  The final lists are always
        without repetitions: the constructor takes a set and `final_exp` a
        one-element list. */
    method ConvertIndexs() returns (newIndexs: map<nat, nat>)
      requires NoDup(finals)
      modifies this`finals
      ensures newIndexs.Keys == Elems(old(finals)) + {start}
      ensures start !in old(finals) ==> newIndexs[start] == 0
      ensures forall i :: 0 <= i < |old(finals)| ==> newIndexs[old(finals)[i]] == i + (if start in old(finals) then 0 else 1)
      ensures |finals| == |old(finals)|
      ensures forall i :: 0 <= i < |finals| ==> finals[i] == i + (if start in old(finals) then 0 else 1)
      ensures forall x, y :: x in newIndexs && y in newIndexs && x != y ==> newIndexs[x] != newIndexs[y]
    {
      newIndexs := map[];
      var offset := if start in finals then 0 else 1;
      for i := 0 to |finals|
        invariant newIndexs.Keys == Elems(finals[..i])
        invariant forall k :: 0 <= k < i ==> newIndexs[finals[k]] == k + offset
      {
        assert finals[..i + 1] == finals[..i] + [finals[i]];
        newIndexs := newIndexs[finals[i] := i + offset];
      }
      assert finals[..|finals|] == finals;
      if start !in finals {
        newIndexs := newIndexs[start := 0];
      }
      forall x, y | x in newIndexs && y in newIndexs && x != y ensures newIndexs[x] != newIndexs[y] {
        if x in finals && y in finals {
          var i, j :| 0 <= i < |finals| && finals[i] == x && 0 <= j < |finals| && finals[j] == y;
        }
      }
      var newFinals := [];
      for i := 0 to |finals|
        invariant |newFinals| == i
        invariant forall k :: 0 <= k < i ==> newFinals[k] == k + offset
      {
        newFinals := newFinals + [newIndexs[finals[i]]];
      }
      finals := newFinals;
    }

    /** The edges of the label maps, as `(origin, destination)` pairs. */
    function Edges(): set<(nat, nat)>
      reads this`outT
    {
      set s, d | s in outT && d in outT[s] :: (s, d)
    }

    /** `convert_automaton`: `map` becomes, for every edge of
        `out_transitions`, the renumbered origin and the edge's label mapped
        to the renumbered destination.  A state without a number is a
        `KeyError` before `map` is assigned.  When two edges of one state carry
        the same label, the one visited last wins; the visiting order is left
        open. */
    method ConvertAutomaton(newIndexs: map<nat, nat>) returns (ok: bool)
      modifies this`trans
      ensures ok <==> forall e :: e in Edges() ==> e.0 in newIndexs && e.1 in newIndexs
      ensures !ok ==> trans == old(trans)
      ensures ok ==> forall e :: e in Edges() ==> (newIndexs[e.0], outT[e.0][e.1]) in trans
      ensures ok ==> forall k :: k in trans ==>
                exists e :: e in Edges() && k == (newIndexs[e.0], outT[e.0][e.1]) && trans[k] == [newIndexs[e.1]]
    {
      var edges := Edges();
      if !(forall e :: e in edges ==> e.0 in newIndexs && e.1 in newIndexs) {
        return false;
      }
      var m: map<(nat, string), seq<nat>> := map[];
      var rest := edges;
      while rest != {}
        invariant rest <= edges
        invariant forall e :: e in edges - rest ==> (newIndexs[e.0], outT[e.0][e.1]) in m
        invariant forall k :: k in m ==>
                    exists e :: e in edges - rest && k == (newIndexs[e.0], outT[e.0][e.1]) && m[k] == [newIndexs[e.1]]
        decreases rest
      {
        var e := Pick(rest);
        m := m[(newIndexs[e.0], outT[e.0][e.1]) := [newIndexs[e.1]]];
        rest := rest - {e};
      }
      trans := m;
      return true;
    }

    /** `copy`: renumbers the transitions, then determinises the NFA built
        from them.  Each way the source raises (a state without a number, a
        transition leaving the range of states, an empty or out-of-range
        destination set) gives `null`. */
    method Copy(newIndexs: map<nat, nat>) returns (clon: Dfa?, ghost subsets: seq<set<nat>>)
      modifies this`trans
      ensures (forall e :: e in Edges() ==> e.0 in newIndexs && e.1 in newIndexs) ==>
                (clon == null <==> !(0 < states && (forall k :: k in trans ==> k.0 < states) && Nfa(states, 0, Elems(finals), trans).Targets()))
      ensures !(forall e :: e in Edges() ==> e.0 in newIndexs && e.1 in newIndexs) ==> clon == null
      ensures clon != null ==> fresh(clon) && DfaOf(Nfa(states, 0, Elems(finals), trans), subsets, clon) && clon.Labelled()
    {
      subsets := [];
      var ok := ConvertAutomaton(newIndexs);
      if !ok {
        return null, subsets;
      }
      var a := NewNfa(states, finals, trans, 0);
      if a.None? || !(0 < states && a.value.Targets()) {
        return null, subsets;
      }
      var d;
      d, subsets := NfaToDfa(a.value);
      return d, subsets;
    }
  }

  /** `nfa_to_dfa` after the construction: subset `i` is state `i` of `d`. */
  ghost predicate DfaOf(a: Nfa, subsets: seq<set<nat>>, d: Dfa)
    reads d
  {
    && d.states == |subsets| >= 1 && d.start == 0
    && IsClosure(a, {a.start}, subsets[0])
    && NoDup(subsets)
    && (forall k :: k in d.delta ==> SubsetEdge(a, subsets, (k, d.delta[k])))
    && (forall i, s :: 0 <= i < |subsets| && s in a.Vocabulary() ==> ((i, s) in d.delta <==> MoveSet(a, subsets[i], s) != {}))
    && (forall k: nat :: k in d.finals <==> k < |subsets| && subsets[k] * a.finals != {})
  }

  /** `nfa_to_dfa`: the DFA of the subsets reachable from the closure of the
      start. */
  method NfaToDfa(a: Nfa) returns (d: Dfa, ghost subsets: seq<set<nat>>)
    requires a.Targets() && 0 <= a.start < a.states
    ensures fresh(d) && DfaOf(a, subsets, d) && d.Labelled()
  {
    var sts, entries, finals := SubsetConstruction(a);
    subsets := sts;
    forall e | e in entries ensures e.0.1 != "" && e.0.0 < |subsets| && e.1 < |subsets| {
      assert SubsetEdge(a, subsets, e);
      VocabularyNoEpsilon(a, e.0.1);
    }
    d := new Dfa(|sts|, finals, entries);
    BuiltDfaOf(a, subsets, entries, finals, d);
  }

  /** The DFA the constructor builds from the subset construction's entries
      and finals is the DFA of the subsets. */
  lemma BuiltDfaOf(a: Nfa, subsets: seq<set<nat>>, entries: Entries, finals: seq<nat>, d: Dfa)
    requires |subsets| >= 1 && IsClosure(a, {a.start}, subsets[0]) && NoDup(subsets)
    requires forall e :: e in entries ==> SubsetEdge(a, subsets, e)
    requires forall i :: 0 <= i < |subsets| ==> Handled(a, subsets, entries, i, a.Vocabulary())
    requires forall k: nat :: k in finals <==> k < |subsets| && subsets[k] * a.finals != {}
    requires d.states == |subsets| && d.start == 0 && Elems(d.finals) == Elems(finals)
    requires d.delta.Keys == KeysOf(entries) && forall e :: e in entries ==> d.delta[e.0] == e.1
    ensures DfaOf(a, subsets, d)
  {
    forall k: nat ensures k in d.finals <==> k < |subsets| && subsets[k] * a.finals != {} {
      assert k in d.finals <==> k in Elems(d.finals);
      assert k in finals <==> k in Elems(finals);
    }
    forall k | k in d.delta ensures SubsetEdge(a, subsets, (k, d.delta[k])) {
      var e :| e in entries && e.0 == k;
    }
    forall i, s | 0 <= i < |subsets| && s in a.Vocabulary()
      ensures (i, s) in d.delta <==> MoveSet(a, subsets[i], s) != {}
    {
      assert Handled(a, subsets, entries, i, a.Vocabulary());
    }
  }

  // ------------------------------------------------------- languages

  /** `S` is the set of NFA states reachable by reading `w` from the start,
      ε-moves included: the closure of the start, then a move and a closure
      per symbol. */
  ghost predicate Reads(a: Nfa, w: seq<string>, S: set<nat>)
    decreases |w|
  {
    if w == [] then IsClosure(a, {a.start}, S)
    else
      var u, x := w[..|w| - 1], w[|w| - 1];
      exists S0 :: Reads(a, u, S0) && IsClosure(a, MoveSet(a, S0, x), S)
  }

  /** The states reached by a string are determined by the string. */
  lemma {:induction false} ReadsUnique(a: Nfa, w: seq<string>, S1: set<nat>, S2: set<nat>)
    requires Reads(a, w, S1) && Reads(a, w, S2)
    ensures S1 == S2
    decreases |w|
  {
    if w == [] {
      ClosureUnique(a, {a.start}, S1, S2);
    } else {
      var u := w[..|w| - 1];
      var T1 :| Reads(a, u, T1) && IsClosure(a, MoveSet(a, T1, w[|w| - 1]), S1);
      var T2 :| Reads(a, u, T2) && IsClosure(a, MoveSet(a, T2, w[|w| - 1]), S2);
      ReadsUnique(a, u, T1, T2);
      ClosureUnique(a, MoveSet(a, T1, w[|w| - 1]), S1, S2);
    }
  }

  lemma EmptyClosure(a: Nfa)
    ensures IsClosure(a, {}, {})
  {
  }

  /** Running the DFA on a string of non-empty symbols follows the subsets:
      it stops at subset `j` exactly when those are the states the NFA
      reaches, and it stops short exactly when the NFA reaches none. */
  lemma {:induction false} SubsetRun(a: Nfa, subsets: seq<set<nat>>, d: Dfa, w: seq<string>)
    requires DfaOf(a, subsets, d)
    requires forall i :: 0 <= i < |w| ==> w[i] != ""
    ensures Run(d.delta, 0, w).Some? ==> Run(d.delta, 0, w).value < |subsets| && Reads(a, w, subsets[Run(d.delta, 0, w).value])
    ensures Run(d.delta, 0, w).None? ==> Reads(a, w, {})
    decreases |w|
  {
    if w != [] {
      var u, x := w[..|w| - 1], w[|w| - 1];
      SubsetRun(a, subsets, d, u);
      EmptyClosure(a);
      match Run(d.delta, 0, u)
      case None =>
        assert MoveSet(a, {}, x) == {};
        assert Reads(a, u, {}) && IsClosure(a, MoveSet(a, {}, x), {});
      case Some(i) =>
        if (i, x) in d.delta {
          assert SubsetEdge(a, subsets, ((i, x), d.delta[(i, x)]));
          assert Reads(a, u, subsets[i]);
        } else {
          if x in a.Vocabulary() {
            assert MoveSet(a, subsets[i], x) == {};
          } else {
            VocabularyNoEpsilon(a, x);
            forall q | q in subsets[i] ensures a.Dests(q, x) == [] {
              assert (q, x) !in a.trans;
            }
            assert MoveSet(a, subsets[i], x) == {};
          }
          assert Reads(a, u, subsets[i]) && IsClosure(a, MoveSet(a, subsets[i], x), {});
        }
    }
  }

  /** `nfa_to_dfa` preserves the language on strings of non-empty symbols:
      the DFA accepts `w` exactly when the states the NFA reaches on `w`
      include a final state. */
  lemma SameLanguage(a: Nfa, subsets: seq<set<nat>>, d: Dfa, w: seq<string>)
    requires DfaOf(a, subsets, d)
    requires forall i :: 0 <= i < |w| ==> w[i] != ""
    ensures (Run(d.delta, d.start, w).Some? && Run(d.delta, d.start, w).value in d.finals)
            <==> exists S :: Reads(a, w, S) && S * a.finals != {}
  {
    SubsetRun(a, subsets, d, w);
    if exists S :: Reads(a, w, S) && S * a.finals != {} {
      var S :| Reads(a, w, S) && S * a.finals != {};
      match Run(d.delta, 0, w)
      case None => ReadsUnique(a, w, S, {});
      case Some(j) => ReadsUnique(a, w, S, subsets[j]);
    }
  }

  // ------------------------------------------------ counting subsets

  /** A family of subsets of `U` has at most `2 ^ |U|` members: the bound
      that makes the subset construction stop. */
  lemma {:induction false} FamilyBound<T>(F: set<set<T>>, U: set<T>)
    requires forall S :: S in F ==> S <= U
    ensures |F| <= Pow2(|U|)
    decreases |U|
  {
    if U == {} {
      forall S | S in F ensures S == {} { }
      assert F <= {{}};
      SubsetLe(F, {{}});
    } else {
      var x :| x in U;
      var F1 := set S | S in F && x in S;
      var F0 := set S | S in F && x !in S;
      var G1 := set S | S in F1 :: S - {x};
      assert F == F0 + F1 && F0 * F1 == {};
      DropCard(F1, x);
      FamilyBound(F0, U - {x});
      FamilyBound(G1, U - {x});
    }
  }

  /** Removing an element every member holds loses no member. */
  lemma {:induction false} DropCard<T>(F: set<set<T>>, x: T)
    requires forall S :: S in F ==> x in S
    ensures |set S | S in F :: S - {x}| == |F|
  {
    if F != {} {
      var S :| S in F;
      var F' := F - {S};
      DropCard(F', x);
      var G := set T | T in F :: T - {x};
      var G' := set T | T in F' :: T - {x};
      assert G == G' + {S - {x}};
      forall T | T in F' ensures T - {x} != S - {x} {
        DropDistinct(T, S, x);
      }
      assert S - {x} !in G';
    }
  }

  lemma DropDistinct<T>(A: set<T>, B: set<T>, x: T)
    requires x in A && x in B && A != B
    ensures A - {x} != B - {x}
  {
    var y :| (y in A) != (y in B);
    assert (y in A - {x}) != (y in B - {x});
  }
}
