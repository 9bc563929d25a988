/** The part every shift-reduce parser shares: the ACTION and GOTO tables,
    filled through the registration rule that detects conflicts, the stack
    driver that runs them, and the table builder that reads the entries off
    an automaton of item sets. */
module ShiftReduce {
  import opened Grammars
  import opened Containers
  import opened Dataflow
  import StateGraphs

  /** An ACTION entry: `('SHIFT', state)`, `('REDUCE', production)` or
      `('OK', None)`. */
  datatype Action = Shift(target: nat) | Reduce(production: Production) | Accept

  /** Both tables are keyed by (state index, symbol) and hold the list of
      the values registered under the key. */
  type ActionTable = map<(nat, Symbol), seq<Action>>
  type GotoTable = map<(nat, Symbol), seq<nat>>

  // ------------------------------------------------------------ registering

  /** `_register`: the value is appended to the key's list unless it is
      already there, a missing key getting a one-element list; the result
      tells whether the list holds a single value afterwards. */
  function Register<K, V(==)>(table: map<K, seq<V>>, key: K, value: V): (r: (map<K, seq<V>>, bool))
    ensures r.0.Keys == table.Keys + {key}
    ensures forall k :: k in table && k != key ==> r.0[k] == table[k]
    ensures key !in table ==> r.0[key] == [value]
    ensures key in table ==> |table[key]| <= |r.0[key]| && r.0[key][..|table[key]|] == table[key]
    ensures Elems(r.0[key]) == (if key in table then Elems(table[key]) else {}) + {value}
    ensures key in table && NoDup(table[key]) ==> NoDup(r.0[key])
    ensures r.1 <==> |r.0[key]| == 1
  {
    if key !in table then (table[key := [value]], true)
    else if value in table[key] then (table, |table[key]| == 1)
    else
      assert NoDup(table[key]) ==> NoDup(table[key] + [value]) by {
        if NoDup(table[key]) { NoDupAppend(table[key], value); }
      }
      (table[key := table[key] + [value]], |table[key] + [value]| == 1)
  }

  /** Registering the same value twice changes nothing the second time and
      reports the same outcome: re-registering an entry is not a conflict. */
  lemma RegisterAgain<K, V>(table: map<K, seq<V>>, key: K, value: V)
    ensures Register(Register(table, key, value).0, key, value) == Register(table, key, value)
  {
  }

  /** On duplicate-free lists the outcome is true exactly when every value
      registered under the key so far is this one. */
  lemma RegisterSingle<K, V>(table: map<K, seq<V>>, key: K, value: V)
    requires key in table ==> NoDup(table[key])
    ensures Register(table, key, value).1 <==> key !in table || Elems(table[key]) <= {value}
  {
    var l := Register(table, key, value).0[key];
    if key in table {
      NoDupCard(l);
      if Elems(table[key]) <= {value} {
        assert Elems(l) == {value};
      } else {
        var v :| v in Elems(table[key]) && v != value;
        assert {v, value} <= Elems(l);
        SubsetLe({v, value}, Elems(l));
      }
    }
  }

  /** One call of `_register` on either table. */
  datatype Entry = ActionEntry(key: (nat, Symbol), action: Action) | GotoEntry(key: (nat, Symbol), target: nat)

  /** Two registrations under the same key of the same table with
      different values. */
  predicate Clash(e1: Entry, e2: Entry) {
    e1.ActionEntry? == e2.ActionEntry? && e1.key == e2.key && e1 != e2
  }

  ghost predicate Conflicts(E: set<Entry>) {
    exists e1, e2 :: e1 in E && e2 in E && Clash(e1, e2)
  }

  function ActionValues(E: set<Entry>, k: (nat, Symbol)): set<Action> {
    set e | e in E && e.ActionEntry? && e.key == k :: e.action
  }

  function GotoValues(E: set<Entry>, k: (nat, Symbol)): set<nat> {
    set e | e in E && e.GotoEntry? && e.key == k :: e.target
  }

  /** The tables record exactly the registrations `E`: a key is present iff
      something was registered under it, its list holds each registered
      value once, and the flag is true iff no two registrations clash. */
  ghost predicate Holds(action: ActionTable, goto: GotoTable, flag: bool, E: set<Entry>) {
    ActionHolds(action, E) && GotoHolds(goto, E) && (flag <==> !Conflicts(E))
  }

  ghost predicate ActionHolds(action: ActionTable, E: set<Entry>) {
    && (forall k :: k in action <==> ActionValues(E, k) != {})
    && (forall k :: k in action ==> NoDup(action[k]) && Elems(action[k]) == ActionValues(E, k))
  }

  ghost predicate GotoHolds(goto: GotoTable, E: set<Entry>) {
    && (forall k :: k in goto <==> GotoValues(E, k) != {})
    && (forall k :: k in goto ==> NoDup(goto[k]) && Elems(goto[k]) == GotoValues(E, k))
  }

  /** With no conflict every list is a single value, the one registered. */
  lemma HoldsSingle(action: ActionTable, goto: GotoTable, E: set<Entry>, e: Entry)
    requires Holds(action, goto, true, E) && e in E
    ensures e.ActionEntry? ==> e.key in action && action[e.key] == [e.action]
    ensures e.GotoEntry? ==> e.key in goto && goto[e.key] == [e.target]
  {
    if e.ActionEntry? {
      assert e.action in ActionValues(E, e.key);
      var l := action[e.key];
      assert Elems(l) == {e.action} by {
        forall a | a in ActionValues(E, e.key) ensures a == e.action {
          var e2 :| e2 in E && e2.ActionEntry? && e2.key == e.key && e2.action == a;
          assert !Clash(e, e2);
        }
      }
      NoDupCard(l);
      assert l[0] in Elems(l);
    } else {
      assert e.target in GotoValues(E, e.key);
      var l := goto[e.key];
      assert Elems(l) == {e.target} by {
        forall t | t in GotoValues(E, e.key) ensures t == e.target {
          var e2 :| e2 in E && e2.GotoEntry? && e2.key == e.key && e2.target == t;
          assert !Clash(e, e2);
        }
      }
      NoDupCard(l);
      assert l[0] in Elems(l);
    }
  }

  lemma EnterActionValues(E: set<Entry>, k: (nat, Symbol), a: Action)
    ensures forall k' :: ActionValues(E + {ActionEntry(k, a)}, k') == ActionValues(E, k') + (if k' == k then {a} else {})
    ensures forall k' :: GotoValues(E + {ActionEntry(k, a)}, k') == GotoValues(E, k')
  {
    var E' := E + {ActionEntry(k, a)};
    forall k' ensures ActionValues(E', k') == ActionValues(E, k') + (if k' == k then {a} else {}) {
      if k' == k { assert a in ActionValues(E', k'); }
    }
    forall k' ensures GotoValues(E', k') == GotoValues(E, k') { }
  }

  lemma EnterGotoValues(E: set<Entry>, k: (nat, Symbol), t: nat)
    ensures forall k' :: GotoValues(E + {GotoEntry(k, t)}, k') == GotoValues(E, k') + (if k' == k then {t} else {})
    ensures forall k' :: ActionValues(E + {GotoEntry(k, t)}, k') == ActionValues(E, k')
  {
    var E' := E + {GotoEntry(k, t)};
    forall k' ensures GotoValues(E', k') == GotoValues(E, k') + (if k' == k then {t} else {}) {
      if k' == k { assert t in GotoValues(E', k'); }
    }
    forall k' ensures ActionValues(E', k') == ActionValues(E, k') { }
  }

  /** A new registration adds a conflict exactly when a different value is
      already registered under its key in its table. */
  lemma ConflictsAdd(E: set<Entry>, e: Entry)
    ensures Conflicts(E + {e}) <==> Conflicts(E) || exists e2 :: e2 in E && Clash(e2, e)
  {
    if Conflicts(E + {e}) && !Conflicts(E) {
      var e1, e2 :| e1 in E + {e} && e2 in E + {e} && Clash(e1, e2);
      if e1 == e { assert e2 in E && Clash(e2, e); } else { assert e1 in E && Clash(e1, e); }
    }
  }

  lemma EnterActionHolds(action: ActionTable, goto: GotoTable, flag: bool, E: set<Entry>, k: (nat, Symbol), a: Action)
    requires Holds(action, goto, flag, E)
    ensures Holds(Register(action, k, a).0, goto, flag && Register(action, k, a).1, E + {ActionEntry(k, a)})
  {
    var e := ActionEntry(k, a);
    EnterActionValues(E, k, a);
    ConflictsAdd(E, e);
    ActionTableAfter(action, E, k, a);
    ActionFlagAfter(action, E, k, a);
    assert GotoHolds(goto, E + {e});
  }

  /** Registering an action keeps the ACTION table in step with the
      registrations. */
  lemma ActionTableAfter(action: ActionTable, E: set<Entry>, k: (nat, Symbol), a: Action)
    requires ActionHolds(action, E)
    requires forall k' :: ActionValues(E + {ActionEntry(k, a)}, k') == ActionValues(E, k') + (if k' == k then {a} else {})
    ensures ActionHolds(Register(action, k, a).0, E + {ActionEntry(k, a)})
  {
    var E', r := E + {ActionEntry(k, a)}, Register(action, k, a).0;
    forall k' ensures (k' in r <==> ActionValues(E', k') != {}) && (k' in r ==> NoDup(r[k']) && Elems(r[k']) == ActionValues(E', k')) {
      ActionKeyAfter(action, E, k, a, k');
    }
  }

  lemma ActionKeyAfter(action: ActionTable, E: set<Entry>, k: (nat, Symbol), a: Action, k': (nat, Symbol))
    requires k' in action <==> ActionValues(E, k') != {}
    requires k' in action ==> NoDup(action[k']) && Elems(action[k']) == ActionValues(E, k')
    requires ActionValues(E + {ActionEntry(k, a)}, k') == ActionValues(E, k') + (if k' == k then {a} else {})
    ensures k' in Register(action, k, a).0 <==> ActionValues(E + {ActionEntry(k, a)}, k') != {}
    ensures k' in Register(action, k, a).0 ==> NoDup(Register(action, k, a).0[k']) && Elems(Register(action, k, a).0[k']) == ActionValues(E + {ActionEntry(k, a)}, k')
  {
  }

  /** The outcome of registering an action is true iff it clashes with no
      earlier registration. */
  lemma ActionFlagAfter(action: ActionTable, E: set<Entry>, k: (nat, Symbol), a: Action)
    requires ActionHolds(action, E)
    ensures Register(action, k, a).1 <==> !exists e2 :: e2 in E && Clash(e2, ActionEntry(k, a))
  {
    var e := ActionEntry(k, a);
    RegisterSingle(action, k, a);
    if !Register(action, k, a).1 {
      var v :| v in Elems(action[k]) && v != a;
      var other :| other in E && other.ActionEntry? && other.key == k && other.action == v;
      assert Clash(other, e);
    }
    if exists e2 :: e2 in E && Clash(e2, e) {
      var e2 :| e2 in E && Clash(e2, e);
      assert e2.action in ActionValues(E, k);
    }
  }

  lemma EnterGotoHolds(action: ActionTable, goto: GotoTable, flag: bool, E: set<Entry>, k: (nat, Symbol), t: nat)
    requires Holds(action, goto, flag, E)
    ensures Holds(action, Register(goto, k, t).0, flag && Register(goto, k, t).1, E + {GotoEntry(k, t)})
  {
    var e := GotoEntry(k, t);
    EnterGotoValues(E, k, t);
    ConflictsAdd(E, e);
    GotoTableAfter(goto, E, k, t);
    GotoFlagAfter(goto, E, k, t);
    assert ActionHolds(action, E + {e});
  }

  /** Registering a GOTO target keeps the GOTO table in step with the
      registrations. */
  lemma GotoTableAfter(goto: GotoTable, E: set<Entry>, k: (nat, Symbol), t: nat)
    requires GotoHolds(goto, E)
    requires forall k' :: GotoValues(E + {GotoEntry(k, t)}, k') == GotoValues(E, k') + (if k' == k then {t} else {})
    ensures GotoHolds(Register(goto, k, t).0, E + {GotoEntry(k, t)})
  {
    var E', r := E + {GotoEntry(k, t)}, Register(goto, k, t).0;
    forall k' ensures (k' in r <==> GotoValues(E', k') != {}) && (k' in r ==> NoDup(r[k']) && Elems(r[k']) == GotoValues(E', k')) {
      GotoKeyAfter(goto, E, k, t, k');
    }
  }

  lemma GotoKeyAfter(goto: GotoTable, E: set<Entry>, k: (nat, Symbol), t: nat, k': (nat, Symbol))
    requires k' in goto <==> GotoValues(E, k') != {}
    requires k' in goto ==> NoDup(goto[k']) && Elems(goto[k']) == GotoValues(E, k')
    requires GotoValues(E + {GotoEntry(k, t)}, k') == GotoValues(E, k') + (if k' == k then {t} else {})
    ensures k' in Register(goto, k, t).0 <==> GotoValues(E + {GotoEntry(k, t)}, k') != {}
    ensures k' in Register(goto, k, t).0 ==> NoDup(Register(goto, k, t).0[k']) && Elems(Register(goto, k, t).0[k']) == GotoValues(E + {GotoEntry(k, t)}, k')
  {
  }

  /** The outcome of registering a GOTO target is true iff it clashes with
      no earlier registration. */
  lemma GotoFlagAfter(goto: GotoTable, E: set<Entry>, k: (nat, Symbol), t: nat)
    requires GotoHolds(goto, E)
    ensures Register(goto, k, t).1 <==> !exists e2 :: e2 in E && Clash(e2, GotoEntry(k, t))
  {
    var e := GotoEntry(k, t);
    RegisterSingle(goto, k, t);
    if !Register(goto, k, t).1 {
      var v :| v in Elems(goto[k]) && v != t;
      var other :| other in E && other.GotoEntry? && other.key == k && other.target == v;
      assert Clash(other, e);
    }
    if exists e2 :: e2 in E && Clash(e2, e) {
      var e2 :| e2 in E && Clash(e2, e);
      assert e2.target in GotoValues(E, k);
    }
  }

  // ------------------------------------------------------------ the driver

  /** How a run of the driver ends: the reductions in rightmost order, a
      missing ACTION or GOTO entry (`KeyError`, answered with `None`), an
      index error (reading past the word, popping an empty stack), or the
      step bound of the model. */
  datatype Outcome = Accepted(output: seq<Production>) | Rejected | Crashed | OutOfFuel

  /** The driver loop from a configuration; the top of the stack is its last
      element and `out` holds the reductions made so far, in order. */
  function Run(action: ActionTable, goto: GotoTable, stack: seq<nat>, w: seq<Symbol>, cursor: nat,
               out: seq<Production>, fuel: nat): Outcome
    decreases fuel
  {
    if fuel == 0 then OutOfFuel
    else if |stack| == 0 || cursor >= |w| then Crashed
    else
      var key := (stack[|stack| - 1], w[cursor]);
      if key !in action then Rejected
      else if |action[key]| == 0 then Crashed
      else match action[key][0]
        case Shift(j) => Run(action, goto, stack + [j], w, cursor + 1, out, fuel - 1)
        case Accept => Accepted(Reverse(out))
        case Reduce(p) =>
          if |stack| <= |p.rhs| then Crashed
          else
            var rest := stack[..|stack| - |p.rhs|];
            var gkey := (rest[|rest| - 1], N(p.lhs));
            if gkey !in goto then Rejected
            else if |goto[gkey]| == 0 then Crashed
            else Run(action, goto, rest + [goto[gkey][0]], w, cursor, out + [p], fuel - 1)
  }

  /** A run that is given more steps ends the same way once it has ended. */
  lemma {:induction false} RunFuel(action: ActionTable, goto: GotoTable, stack: seq<nat>, w: seq<Symbol>, cursor: nat,
                                   out: seq<Production>, fuel: nat, more: nat)
    requires fuel <= more && Run(action, goto, stack, w, cursor, out, fuel) != OutOfFuel
    ensures Run(action, goto, stack, w, cursor, out, more) == Run(action, goto, stack, w, cursor, out, fuel)
    decreases fuel
  {
    if |stack| > 0 && cursor < |w| {
      var key := (stack[|stack| - 1], w[cursor]);
      if key in action && |action[key]| > 0 {
        match action[key][0]
        case Shift(j) =>
          RunFuel(action, goto, stack + [j], w, cursor + 1, out, fuel - 1, more - 1);
        case Accept =>
        case Reduce(p) =>
          if |stack| > |p.rhs| {
            var rest := stack[..|stack| - |p.rhs|];
            var gkey := (rest[|rest| - 1], N(p.lhs));
            if gkey in goto && |goto[gkey]| > 0 {
              RunFuel(action, goto, rest + [goto[gkey][0]], w, cursor, out + [p], fuel - 1, more - 1);
            }
          }
      }
    }
  }

  ghost predicate Registered(action: ActionTable, p: Production) {
    exists k :: k in action && Reduce(p) in action[k]
  }

  ghost predicate AllRegistered(action: ActionTable, out: seq<Production>) {
    forall p :: p in out ==> Registered(action, p)
  }

  /** Every production an accepting run outputs was registered as a REDUCE
      action of the table. */
  lemma {:induction false} RunReductions(action: ActionTable, goto: GotoTable, stack: seq<nat>, w: seq<Symbol>, cursor: nat,
                                         out: seq<Production>, fuel: nat)
    requires AllRegistered(action, out)
    requires Run(action, goto, stack, w, cursor, out, fuel).Accepted?
    ensures AllRegistered(action, Run(action, goto, stack, w, cursor, out, fuel).output)
    decreases fuel
  {
    var key := (stack[|stack| - 1], w[cursor]);
    var r := Run(action, goto, stack, w, cursor, out, fuel);
    match action[key][0]
    case Shift(j) =>
      assert r == Run(action, goto, stack + [j], w, cursor + 1, out, fuel - 1);
      RunReductions(action, goto, stack + [j], w, cursor + 1, out, fuel - 1);
    case Accept =>
      assert r == Accepted(Reverse(out));
      forall p | p in Reverse(out) ensures Registered(action, p) {
        var i :| 0 <= i < |Reverse(out)| && Reverse(out)[i] == p;
        assert out[|out| - 1 - i] == p;
      }
    case Reduce(p) =>
      var rest := stack[..|stack| - |p.rhs|];
      var gkey := (rest[|rest| - 1], N(p.lhs));
      assert r == Run(action, goto, rest + [goto[gkey][0]], w, cursor, out + [p], fuel - 1);
      assert Registered(action, p) by { assert Reduce(p) in action[key]; }
      RunReductions(action, goto, rest + [goto[gkey][0]], w, cursor, out + [p], fuel - 1);
  }

  /** A shift-reduce parser: its ACTION and GOTO tables and the flag
      (`isSLR1`, `isLR1`) that the table construction keeps. */
  /** The tables and flag after `flag &= self._register(table, key, value)`:
      the entry goes to the table of its kind, the other table is left
      alone. */
  function Entered(action: ActionTable, goto: GotoTable, flag: bool, e: Entry): (ActionTable, GotoTable, bool) {
    if e.ActionEntry? then
      var r := Register(action, e.key, e.action);
      (r.0, goto, flag && r.1)
    else
      var r := Register(goto, e.key, e.target);
      (action, r.0, flag && r.1)
  }

  class Parser {
    var action: ActionTable
    var goto: GotoTable
    var flag: bool

    /** `__init__` up to the table construction: empty tables, and a flag
        that no registration has falsified yet. */
    constructor ()
      ensures action == map[] && goto == map[] && flag
      ensures Holds(action, goto, flag, {})
    {
      action, goto, flag := map[], map[], true;
    }

    /** `flag &= self._register(table, key, value)` for one entry. */
    method Enter(e: Entry, ghost E: set<Entry>)
      requires Holds(action, goto, flag, E)
      modifies this
      ensures (action, goto, flag) == Entered(old(action), old(goto), old(flag), e)
      ensures Holds(action, goto, flag, E + {e})
    {
      if e.ActionEntry? {
        EnterActionHolds(action, goto, flag, E, e.key, e.action);
        var r := Register(action, e.key, e.action);
        action, flag := r.0, flag && r.1;
      } else {
        EnterGotoHolds(action, goto, flag, E, e.key, e.target);
        var r := Register(goto, e.key, e.target);
        goto, flag := r.0, flag && r.1;
      }
    }

    /** `__call__`: the stack loop from stack `[0]`, cursor 0 and no output.
        The model bounds the number of steps by `fuel`. */
    method Call(w: seq<Symbol>, fuel: nat) returns (r: Outcome)
      ensures r == Run(action, goto, [0], w, 0, [], fuel)
    {
      var stack: seq<nat> := [0];
      var cursor: nat := 0;
      var output: seq<Production> := [];
      var steps := fuel;
      while true
        invariant Run(action, goto, stack, w, cursor, output, steps) == Run(action, goto, [0], w, 0, [], fuel)
        decreases steps
      {
        if steps == 0 { return OutOfFuel; }
        if |stack| == 0 || cursor >= |w| { return Crashed; }
        var state := stack[|stack| - 1];
        var lookahead := w[cursor];
        if (state, lookahead) !in action { return Rejected; }
        if |action[(state, lookahead)]| == 0 { return Crashed; }
        match action[(state, lookahead)][0] {
        case Shift(j) =>
          stack := stack + [j];
          cursor := cursor + 1;
        case Reduce(p) =>
          var i := 0;
          ghost var stack0 := stack;
          while i < |p.rhs|
            invariant 0 <= i <= |p.rhs|
            invariant i <= |stack0| && stack == stack0[..|stack0| - i]
          {
            if |stack| == 0 { return Crashed; }
            stack := stack[..|stack| - 1];
            i := i + 1;
          }
          if |stack| == 0 { return Crashed; }
          var gkey := (stack[|stack| - 1], p.Left());
          if gkey !in goto { return Rejected; }
          if |goto[gkey]| == 0 { return Crashed; }
          stack := stack + [goto[gkey][0]];
          output := output + [p];
        case Accept =>
          return Accepted(Reverse(output));
        }
        steps := steps - 1;
      }
    }
  }

  // ------------------------------------------------------------ the tables of an automaton

  /** Where a table takes the lookaheads of a REDUCE: the FOLLOW set of the
      head (SLR(1)) or the item's own lookaheads (LR(1) and LALR(1)). */
  datatype Lookaheads = ByFollow(follows: Follows) | ByItem

  /** What the construction needs of an item in a state: a head with a
      FOLLOW entry when reducing by FOLLOW, and otherwise a transition of the
      state on the next symbol whose first destination is numbered. */
  predicate Fits(it: Item, node: StateGraphs.Node, idx: map<nat, nat>, mode: Lookaheads) {
    if it.IsReduceItem() then mode.ByFollow? ==> it.production.lhs in mode.follows
    else
      var name := it.production.rhs[it.pos].name;
      && name != "" && name in node.transitions && |node.transitions[name]| > 0
      && node.transitions[name][0] in idx
  }

  function ReduceOn(mode: Lookaheads, it: Item): set<Symbol>
    requires mode.ByFollow? ==> it.production.lhs in mode.follows
  {
    match mode
    case ByFollow(f) => f[it.production.lhs].items
    case ByItem => it.lookaheads
  }

  /** The registrations one item of the state numbered `i` makes: OK on EOF
      for a reduce item of the start production, REDUCE on each lookahead for
      another reduce item, SHIFT to the state reached on a terminal next
      symbol and GOTO the state reached on a non-terminal one. */
  function ItemEntries(i: nat, it: Item, node: StateGraphs.Node, idx: map<nat, nat>, mode: Lookaheads, start: string): set<Entry>
    requires Fits(it, node, idx, mode)
  {
    if it.IsReduceItem() then
      if it.production.lhs == start then {ActionEntry((i, EOF), Accept)}
      else Reduces(i, it.production, ReduceOn(mode, it))
    else
      var s := it.production.rhs[it.pos];
      var j := idx[node.transitions[s.name][0]];
      if s.T? then {ActionEntry((i, s), Shift(j))} else {GotoEntry((i, s), j)}
  }

  function Reduces(i: nat, p: Production, las: set<Symbol>): set<Entry> {
    set a | a in las :: ActionEntry((i, a), Reduce(p))
  }

  lemma ReducesAdd(i: nat, p: Production, las: set<Symbol>, a: Symbol)
    ensures Reduces(i, p, las + {a}) == Reduces(i, p, las) + {ActionEntry((i, a), Reduce(p))}
  {
  }

  /** One more lookahead taken from `rest`. */
  lemma ReducesStep(E: set<Entry>, i: nat, p: Production, las: set<Symbol>, rest: set<Symbol>, a: Symbol)
    requires a in rest && rest <= las
    ensures E + Reduces(i, p, las - rest) + {ActionEntry((i, a), Reduce(p))} == E + Reduces(i, p, las - (rest - {a}))
  {
    ReducesAdd(i, p, las - rest, a);
    assert las - (rest - {a}) == (las - rest) + {a};
  }

  function NodeEntries(i: nat, items: set<Item>, node: StateGraphs.Node, idx: map<nat, nat>, mode: Lookaheads, start: string): set<Entry>
    requires forall it :: it in items ==> Fits(it, node, idx, mode)
  {
    set it, e | it in items && e in ItemEntries(i, it, node, idx, mode, start) :: e
  }

  lemma NodeEntriesAdd(i: nat, items: set<Item>, it: Item, node: StateGraphs.Node, idx: map<nat, nat>, mode: Lookaheads, start: string)
    requires forall x :: x in items + {it} ==> Fits(x, node, idx, mode)
    ensures NodeEntries(i, items + {it}, node, idx, mode, start)
         == NodeEntries(i, items, node, idx, mode, start) + ItemEntries(i, it, node, idx, mode, start)
  {
  }

  /** One more item taken from `rest`. */
  lemma NodeStep(E: set<Entry>, i: nat, items: set<Item>, rest: set<Item>, it: Item, node: StateGraphs.Node, idx: map<nat, nat>,
                 mode: Lookaheads, start: string)
    requires forall x :: x in items ==> Fits(x, node, idx, mode)
    requires it in rest && rest <= items
    ensures E + NodeEntries(i, items - rest, node, idx, mode, start) + ItemEntries(i, it, node, idx, mode, start)
         == E + NodeEntries(i, items - (rest - {it}), node, idx, mode, start)
  {
    NodeEntriesAdd(i, items - rest, it, node, idx, mode, start);
    assert items - (rest - {it}) == (items - rest) + {it};
  }

  /** Every state of `order` is a state of the graph with an item set, and
      each of its items fits. */
  predicate AllFit(order: seq<nat>, nodes: seq<StateGraphs.Node>, itemsOf: seq<set<Item>>, idx: map<nat, nat>, mode: Lookaheads) {
    forall j :: 0 <= j < |order| ==>
      order[j] < |nodes| && order[j] < |itemsOf| && forall it :: it in itemsOf[order[j]] ==> Fits(it, nodes[order[j]], idx, mode)
  }

  /** The registrations of the first `n` states of `order`, the state at
      position `i` being numbered `i`. */
  function TableEntries(order: seq<nat>, n: nat, nodes: seq<StateGraphs.Node>, itemsOf: seq<set<Item>>, idx: map<nat, nat>,
                        mode: Lookaheads, start: string): set<Entry>
    requires AllFit(order, nodes, itemsOf, idx, mode) && n <= |order|
  {
    if n == 0 then {}
    else
      TableEntries(order, n - 1, nodes, itemsOf, idx, mode, start)
        + NodeEntries(n - 1, itemsOf[order[n - 1]], nodes[order[n - 1]], idx, mode, start)
  }

  /** A registration is in the table exactly when some item of some state
      makes it. */
  lemma {:induction false} TableEntriesMember(order: seq<nat>, n: nat, nodes: seq<StateGraphs.Node>, itemsOf: seq<set<Item>>,
                                              idx: map<nat, nat>, mode: Lookaheads, start: string, e: Entry)
    requires AllFit(order, nodes, itemsOf, idx, mode) && n <= |order|
    ensures e in TableEntries(order, n, nodes, itemsOf, idx, mode, start) <==>
            exists i, it :: 0 <= i < n && it in itemsOf[order[i]] && e in ItemEntries(i, it, nodes[order[i]], idx, mode, start)
  {
    if n > 0 {
      TableEntriesMember(order, n - 1, nodes, itemsOf, idx, mode, start, e);
      var k := order[n - 1];
      if e in NodeEntries(n - 1, itemsOf[k], nodes[k], idx, mode, start) {
        var it :| it in itemsOf[k] && e in ItemEntries(n - 1, it, nodes[k], idx, mode, start);
        assert 0 <= n - 1 < n;
      }
      if exists i, it :: 0 <= i < n && it in itemsOf[order[i]] && e in ItemEntries(i, it, nodes[order[i]], idx, mode, start) {
        var i, it :| 0 <= i < n && it in itemsOf[order[i]] && e in ItemEntries(i, it, nodes[order[i]], idx, mode, start);
        if i == n - 1 {
          assert e in NodeEntries(n - 1, itemsOf[k], nodes[k], idx, mode, start);
        }
      }
    }
  }

  /** The SHIFT or GOTO registration on `a` of state `i`: SHIFT for a
      terminal, GOTO for a non-terminal. */
  function EdgeEntry(i: nat, a: Symbol, j: nat): Entry {
    if a.T? then ActionEntry((i, a), Shift(j)) else GotoEntry((i, a), j)
  }

  /** A state registers SHIFT or GOTO on `a` to state `j` exactly when one of
      its items has `a` after the dot and `j` is the number of the state its
      transition on `a` leads to. */
  lemma {:induction false} EdgeEntries(order: seq<nat>, dn: seq<StateGraphs.Node>, itemsOf: seq<set<Item>>, idx: map<nat, nat>,
                                       mode: Lookaheads, start: string, i: nat, a: Symbol, j: nat)
    requires AllFit(order, dn, itemsOf, idx, mode)
    requires idx.Keys == Elems(order) && forall m :: 0 <= m < |order| ==> idx[order[m]] == m
    ensures EdgeEntry(i, a, j) in TableEntries(order, |order|, dn, itemsOf, idx, mode, start) <==>
            && i < |order| && j < |order|
            && (exists it :: it in itemsOf[order[i]] && !it.IsReduceItem() && it.production.rhs[it.pos] == a)
            && a.name in dn[order[i]].transitions && |dn[order[i]].transitions[a.name]| > 0
            && dn[order[i]].transitions[a.name][0] == order[j]
  {
    var e := EdgeEntry(i, a, j);
    TableEntriesMember(order, |order|, dn, itemsOf, idx, mode, start, e);
    if e in TableEntries(order, |order|, dn, itemsOf, idx, mode, start) {
      var m, it :| 0 <= m < |order| && it in itemsOf[order[m]] && e in ItemEntries(m, it, dn[order[m]], idx, mode, start);
      assert Fits(it, dn[order[m]], idx, mode);
      if !it.IsReduceItem() {
        var t := dn[order[m]].transitions[it.production.rhs[it.pos].name][0];
        assert m == i && it.production.rhs[it.pos] == a && j == idx[t];
        var n :| 0 <= n < |order| && order[n] == t;
        assert idx[order[n]] == n;
      }
    }
    if && i < |order| && j < |order|
       && (exists it :: it in itemsOf[order[i]] && !it.IsReduceItem() && it.production.rhs[it.pos] == a)
       && a.name in dn[order[i]].transitions && |dn[order[i]].transitions[a.name]| > 0
       && dn[order[i]].transitions[a.name][0] == order[j] {
      var it :| it in itemsOf[order[i]] && !it.IsReduceItem() && it.production.rhs[it.pos] == a;
      assert e in ItemEntries(i, it, dn[order[i]], idx, mode, start);
    }
  }

  /** `for i, node in enumerate(automaton): node.idx = i`: every state of the
      visit is numbered by its position in it. */
  method Number(order: seq<nat>) returns (idx: map<nat, nat>)
    requires NoDup(order)
    ensures idx.Keys == Elems(order)
    ensures forall i :: 0 <= i < |order| ==> idx[order[i]] == i
  {
    idx := map[];
    var i := 0;
    while i < |order|
      invariant 0 <= i <= |order|
      invariant idx.Keys == Elems(order[..i])
      invariant forall j :: 0 <= j < i ==> idx[order[j]] == j
    {
      assert order[..i + 1] == order[..i] + [order[i]];
      idx := idx[order[i] := i];
      i := i + 1;
    }
    assert order[..|order|] == order;
  }

  /** Registers the REDUCE entries of a reduce item, one lookahead at a time. */
  method EnterReduces(p: Parser, i: nat, prod: Production, las: set<Symbol>, ghost E: set<Entry>)
    requires Holds(p.action, p.goto, p.flag, E)
    modifies p
    ensures Holds(p.action, p.goto, p.flag, E + Reduces(i, prod, las))
  {
    var rest := las;
    while rest != {}
      invariant rest <= las
      invariant Holds(p.action, p.goto, p.flag, E + Reduces(i, prod, las - rest))
      decreases rest
    {
      var a := Pick(rest);
      p.Enter(ActionEntry((i, a), Reduce(prod)), E + Reduces(i, prod, las - rest));
      ReducesStep(E, i, prod, las, rest, a);
      rest := rest - {a};
    }
    assert las - {} == las;
  }

  /** Registers the entries of one item. */
  method EnterItem(p: Parser, i: nat, it: Item, node: StateGraphs.Node, idx: map<nat, nat>, mode: Lookaheads, start: string,
                   ghost E: set<Entry>)
    requires Fits(it, node, idx, mode)
    requires Holds(p.action, p.goto, p.flag, E)
    modifies p
    ensures Holds(p.action, p.goto, p.flag, E + ItemEntries(i, it, node, idx, mode, start))
  {
    if it.IsReduceItem() {
      if it.production.lhs == start {
        p.Enter(ActionEntry((i, EOF), Accept), E);
      } else {
        var las := match mode case ByFollow(f) => f[it.production.lhs].items case ByItem => it.lookaheads;
        EnterReduces(p, i, it.production, las, E);
      }
    } else {
      var s := it.production.rhs[it.pos];
      var j := idx[node.transitions[s.name][0]];
      if s.T? {
        p.Enter(ActionEntry((i, s), Shift(j)), E);
      } else {
        p.Enter(GotoEntry((i, s), j), E);
      }
    }
  }

  /** Registers the entries of every item of one state, in any order. */
  method EnterNode(p: Parser, i: nat, items: set<Item>, node: StateGraphs.Node, idx: map<nat, nat>, mode: Lookaheads,
                   start: string, ghost E0: set<Entry>)
    requires forall it :: it in items ==> Fits(it, node, idx, mode)
    requires Holds(p.action, p.goto, p.flag, E0)
    modifies p
    ensures Holds(p.action, p.goto, p.flag, E0 + NodeEntries(i, items, node, idx, mode, start))
  {
    var rest := items;
    while rest != {}
      invariant rest <= items
      invariant Holds(p.action, p.goto, p.flag, E0 + NodeEntries(i, items - rest, node, idx, mode, start))
      decreases rest
    {
      var it := Pick(rest);
      ghost var before := NodeEntries(i, items - rest, node, idx, mode, start);
      EnterItem(p, i, it, node, idx, mode, start, E0 + before);
      NodeStep(E0, i, items, rest, it, node, idx, mode, start);
      rest := rest - {it};
    }
    assert items - {} == items;
  }

  /** The state at position `i` of the visit registers its entries. */
  method EnterState(p: Parser, order: seq<nat>, i: nat, nodes: seq<StateGraphs.Node>, itemsOf: seq<set<Item>>,
                    idx: map<nat, nat>, mode: Lookaheads, start: string)
    requires AllFit(order, nodes, itemsOf, idx, mode) && i < |order|
    requires Holds(p.action, p.goto, p.flag, TableEntries(order, i, nodes, itemsOf, idx, mode, start))
    modifies p
    ensures Holds(p.action, p.goto, p.flag, TableEntries(order, i + 1, nodes, itemsOf, idx, mode, start))
  {
    var k := order[i];
    EnterNode(p, i, itemsOf[k], nodes[k], idx, mode, start, TableEntries(order, i, nodes, itemsOf, idx, mode, start));
  }

  /** The body of `_build_parsing_table` after the numbering: every item of
      every state, in the order of the visit, registers its entries; the
      tables then hold exactly those entries, and the flag is true iff no two
      of them clash. */
  method BuildTable(p: Parser, order: seq<nat>, nodes: seq<StateGraphs.Node>, itemsOf: seq<set<Item>>,
                    idx: map<nat, nat>, mode: Lookaheads, start: string)
    requires AllFit(order, nodes, itemsOf, idx, mode)
    requires Holds(p.action, p.goto, p.flag, {})
    modifies p
    ensures Holds(p.action, p.goto, p.flag, TableEntries(order, |order|, nodes, itemsOf, idx, mode, start))
  {
    for i := 0 to |order|
      invariant Holds(p.action, p.goto, p.flag, TableEntries(order, i, nodes, itemsOf, idx, mode, start))
    {
      EnterState(p, order, i, nodes, itemsOf, idx, mode, start);
    }
  }
}
