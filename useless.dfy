/** Removal of useless symbols: first the non-terminals that generate no word,
    then the symbols the start symbol cannot reach. */
module Useless {
  import opened Grammars

  function Heads(ps: seq<Production>): set<string> {
    set p | p in ps :: p.lhs
  }

  /** `S` is closed under the productions: a production whose non-terminals
      are all in `S` puts its head in `S`. */
  ghost predicate GenClosed(ps: seq<Production>, S: set<string>) {
    forall p :: p in ps && NtsIn(p.rhs, S) ==> p.lhs in S
  }

  /** The generating non-terminals: the least closed set. */
  ghost function GenSet(ps: seq<Production>): set<string> {
    set x | x in Heads(ps) && forall S :: GenClosed(ps, S) ==> x in S
  }

  lemma GenSetIs(ps: seq<Production>, X: set<string>)
    requires X <= Heads(ps) && GenClosed(ps, X)
    requires forall S :: GenClosed(ps, S) ==> X <= S
    ensures GenSet(ps) == X
  {
  }

  /** The head of a production with a body of declared terminals only. */
  predicate AllTerminals(terminals: seq<string>, body: seq<Symbol>) {
    forall s :: s in body ==> s.T? && s.name in terminals
  }

  /** The list `M` of `without_useless_symbols`: seeded with the heads of
      all-terminal bodies, then grown until a pass adds nothing.  It holds
      exactly the generating non-terminals, each once. */
  method Generating(ps: seq<Production>, terminals: seq<string>) returns (M: seq<string>)
    ensures NoDup(M)
    ensures Elems(M) == GenSet(ps)
  {
    M := [];
    for i := 0 to |ps|
      invariant NoDup(M)
      invariant forall x :: x in M ==> x in Heads(ps) && forall S :: GenClosed(ps, S) ==> x in S
    {
      var p := ps[i];
      if AllTerminals(terminals, p.rhs) && p.lhs !in M {
        M := M + [p.lhs];
      }
    }
    var change := true;
    while change
      invariant NoDup(M)
      invariant forall x :: x in M ==> x in Heads(ps) && forall S :: GenClosed(ps, S) ==> x in S
      invariant !change ==> GenClosed(ps, Elems(M))
      decreases Heads(ps) - Elems(M), change
    {
      change := false;
      ghost var M0 := M;
      for i := 0 to |ps|
        invariant NoDup(M)
        invariant forall x :: x in M ==> x in Heads(ps) && forall S :: GenClosed(ps, S) ==> x in S
        invariant Elems(M0) <= Elems(M)
        invariant change ==> Elems(M0) < Elems(M)
        invariant !change ==> M == M0 && forall j :: 0 <= j < i && NtsIn(ps[j].rhs, Elems(M)) ==> ps[j].lhs in M
      {
        var p := ps[i];
        if (forall s :: s in p.rhs && s.N? ==> s.name in M) && p.lhs !in M {
          assert NtsIn(p.rhs, Elems(M));
          assert Elems(M + [p.lhs]) == Elems(M) + {p.lhs};
          M := M + [p.lhs];
          change := true;
        }
      }
    }
    GenSetIs(ps, Elems(M));
  }

  function RulesAt(rules: map<string, seq<Production>>, a: string): seq<Production> {
    if a in rules then rules[a] else []
  }

  /** `S` is closed under reachability: the symbols of the productions of a
      non-terminal in `S` are in `S`. */
  ghost predicate ReachClosed(rules: map<string, seq<Production>>, S: set<Symbol>) {
    forall a, p :: N(a) in S && p in RulesAt(rules, a) ==> AllIn(p.rhs, S)
  }

  ghost function RuleSymbols(rules: map<string, seq<Production>>): set<Symbol> {
    set a, p, s | a in rules && p in rules[a] && s in p.rhs :: s
  }

  /** The symbols reachable from `start`: the least closed set holding it. */
  ghost function ReachSet(rules: map<string, seq<Production>>, start: string): set<Symbol> {
    set x | x in RuleSymbols(rules) + {N(start)} && forall S :: N(start) in S && ReachClosed(rules, S) ==> x in S
  }

  lemma ReachSetIs(rules: map<string, seq<Production>>, start: string, X: set<Symbol>)
    requires X <= RuleSymbols(rules) + {N(start)} && N(start) in X && ReachClosed(rules, X)
    requires forall S :: N(start) in S && ReachClosed(rules, S) ==> X <= S
    ensures ReachSet(rules, start) == X
  {
  }

  /** The symbols of the productions of `a`. */
  ghost function SymbolsOf(ps: seq<Production>): set<Symbol> {
    set p, s | p in ps && s in p.rhs :: s
  }

  /** The two inner loops of the reachability search for the popped
      non-terminal `a`: every symbol of its productions not seen yet is
      appended to `V`, and to `pending` when it is a non-terminal. */
  method Expand(rules: map<string, seq<Production>>, a: string, V0: seq<Symbol>, pending0: seq<Symbol>)
    returns (V: seq<Symbol>, pending: seq<Symbol>)
    requires NoDup(V0) && NoDup(pending0) && forall x :: x in pending0 ==> x in V0
    ensures NoDup(V) && NoDup(pending) && (forall x :: x in pending ==> x in V)
    ensures Elems(V) == Elems(V0) + SymbolsOf(RulesAt(rules, a))
    ensures forall x :: x in pending <==> x in pending0 || (x in V && x !in V0 && x.N?)
    ensures |V0| <= |V| && V[..|V0|] == V0 && |V| - |V0| >= |pending| - |pending0| >= 0
  {
    V, pending := V0, pending0;
    var ps := RulesAt(rules, a);
    for i := 0 to |ps|
      invariant NoDup(V) && NoDup(pending) && (forall x :: x in pending ==> x in V)
      invariant Elems(V) == Elems(V0) + SymbolsOf(ps[..i])
      invariant forall x :: x in pending <==> x in pending0 || (x in V && x !in V0 && x.N?)
      invariant |V0| <= |V| && V[..|V0|] == V0 && |V| - |V0| >= |pending| - |pending0| >= 0
    {
      var p := ps[i];
      for j := 0 to |p.rhs|
        invariant NoDup(V) && NoDup(pending) && (forall x :: x in pending ==> x in V)
        invariant Elems(V) == Elems(V0) + SymbolsOf(ps[..i]) + Elems(p.rhs[..j])
        invariant forall x :: x in pending <==> x in pending0 || (x in V && x !in V0 && x.N?)
        invariant |V0| <= |V| && V[..|V0|] == V0 && |V| - |V0| >= |pending| - |pending0| >= 0
      {
        var symbol := p.rhs[j];
        if symbol !in V {
          assert symbol !in V0;
          assert Elems(V + [symbol]) == Elems(V) + {symbol};
          assert (V + [symbol])[..|V0|] == V[..|V0|];
          V := V + [symbol];
          if symbol.N? {
            pending := pending + [symbol];
          }
        }
        assert p.rhs[..j + 1] == p.rhs[..j] + [symbol];
      }
      assert p.rhs[..|p.rhs|] == p.rhs;
      assert ps[..i + 1] == ps[..i] + [p];
      assert SymbolsOf(ps[..i + 1]) == SymbolsOf(ps[..i]) + Elems(p.rhs);
    }
    assert ps[..|ps|] == ps;
  }

  /** What the worklist search keeps: every seen symbol is reachable, and a
      seen non-terminal no longer pending has had its productions scanned. */
  ghost predicate ReachInv(rules: map<string, seq<Production>>, start: string, V: seq<Symbol>, pending: seq<Symbol>) {
    && NoDup(V) && NoDup(pending) && (forall x :: x in pending ==> x in V && x.N?)
    && N(start) in V && Elems(V) <= RuleSymbols(rules) + {N(start)}
    && (forall x :: x in V ==> forall S :: N(start) in S && ReachClosed(rules, S) ==> x in S)
    && (forall b, p :: N(b) in V && N(b) !in pending && p in RulesAt(rules, b) ==> AllIn(p.rhs, Elems(V)))
  }

  lemma ReachStepBound(rules: map<string, seq<Production>>, start: string, V0: seq<Symbol>, a: string, V: seq<Symbol>)
    requires Elems(V0) <= RuleSymbols(rules) + {N(start)}
    requires Elems(V) == Elems(V0) + SymbolsOf(RulesAt(rules, a))
    ensures Elems(V) <= RuleSymbols(rules) + {N(start)}
  {
    forall x | x in SymbolsOf(RulesAt(rules, a)) ensures x in RuleSymbols(rules) {
      var p, s :| p in RulesAt(rules, a) && s in p.rhs && s == x;
      assert a in rules;
    }
  }

  lemma ReachStepSound(rules: map<string, seq<Production>>, start: string, V0: seq<Symbol>, a: string, V: seq<Symbol>)
    requires N(a) in V0
    requires forall x :: x in V0 ==> forall S :: N(start) in S && ReachClosed(rules, S) ==> x in S
    requires Elems(V) == Elems(V0) + SymbolsOf(RulesAt(rules, a))
    ensures forall x :: x in V ==> forall S :: N(start) in S && ReachClosed(rules, S) ==> x in S
  {
    forall x, S | x in V && N(start) in S && ReachClosed(rules, S) ensures x in S {
      if x !in V0 {
        assert x in Elems(V) && x !in Elems(V0);
        assert x in SymbolsOf(RulesAt(rules, a));
        var p, s :| p in RulesAt(rules, a) && s in p.rhs && s == x;
        assert N(a) in S;
      }
    }
  }

  lemma ReachStepScanned(rules: map<string, seq<Production>>, V0: seq<Symbol>, pending0: seq<Symbol>,
                         a: string, V: seq<Symbol>, pending: seq<Symbol>)
    requires forall b, p :: N(b) in V0 && N(b) !in pending0 + [N(a)] && p in RulesAt(rules, b) ==> AllIn(p.rhs, Elems(V0))
    requires Elems(V) == Elems(V0) + SymbolsOf(RulesAt(rules, a))
    requires forall x :: x in pending <==> x in pending0 || (x in V && x !in V0 && x.N?)
    ensures forall b, p :: N(b) in V && N(b) !in pending && p in RulesAt(rules, b) ==> AllIn(p.rhs, Elems(V))
  {
    forall b, p | N(b) in V && N(b) !in pending && p in RulesAt(rules, b) ensures AllIn(p.rhs, Elems(V)) {
      if b != a {
        assert N(b) in V0;
      } else {
        forall s | s in p.rhs ensures s in Elems(V) {
          assert s in SymbolsOf(RulesAt(rules, a));
        }
      }
    }
  }

  /** One round of the search keeps the invariant and shrinks the measure. */
  lemma ReachStep(rules: map<string, seq<Production>>, start: string, V0: seq<Symbol>, pending0: seq<Symbol>,
                  a: Symbol, V: seq<Symbol>, pending: seq<Symbol>)
    requires ReachInv(rules, start, V0, pending0 + [a])
    requires NoDup(V) && NoDup(pending) && (forall x :: x in pending ==> x in V)
    requires Elems(V) == Elems(V0) + SymbolsOf(RulesAt(rules, a.name))
    requires forall x :: x in pending <==> x in pending0 || (x in V && x !in V0 && x.N?)
    requires |V0| <= |V| && V[..|V0|] == V0 && |V| - |V0| >= |pending| - |pending0| >= 0
    ensures ReachInv(rules, start, V, pending)
    ensures Elems(V0) <= Elems(V)
    ensures Elems(V) == Elems(V0) ==> |pending| < |pending0 + [a]|
  {
    assert a in pending0 + [a];
    assert a in V0 && a.N? && a == N(a.name);
    ReachStepBound(rules, start, V0, a.name, V);
    ReachStepSound(rules, start, V0, a.name, V);
    ReachStepScanned(rules, V0, pending0, a.name, V, pending);
    if Elems(V) == Elems(V0) {
      NoDupCard(V);
      NoDupCard(V0);
    }
  }

  /** The worklist search from the start symbol: `V` ends with exactly the
      reachable symbols. */
  method Reachable(rules: map<string, seq<Production>>, start: string) returns (V: seq<Symbol>)
    ensures NoDup(V) && Elems(V) == ReachSet(rules, start)
  {
    ghost var U := RuleSymbols(rules) + {N(start)};
    var pending := [N(start)];
    V := [N(start)];
    while |pending| > 0
      invariant ReachInv(rules, start, V, pending)
      decreases U - Elems(V), |pending|
    {
      var a := pending[|pending| - 1];
      ghost var V0, pending0 := V, pending;
      pending := pending[..|pending| - 1];
      assert pending0 == pending + [a];
      V, pending := Expand(rules, a.name, V, pending);
      ReachStep(rules, start, V0, pending0[..|pending0| - 1], a, V, pending);
    }
    ReachSetIs(rules, start, Elems(V));
  }

  /** The productions of `ps` whose non-terminals are all in `S`, in order. */
  function FilterNts(ps: seq<Production>, S: set<string>): (r: seq<Production>)
    ensures forall p :: p in r <==> p in ps && NtsIn(p.rhs, S)
  {
    if ps == [] then []
    else (if NtsIn(ps[0].rhs, S) then [ps[0]] else []) + FilterNts(ps[1..], S)
  }

  /** The productions of `ps` whose symbols are all in `V`, in order. */
  function FilterAll(ps: seq<Production>, V: set<Symbol>): (r: seq<Production>)
    ensures forall p :: p in r <==> p in ps && AllIn(p.rhs, V)
  {
    if ps == [] then []
    else (if AllIn(ps[0].rhs, V) then [ps[0]] else []) + FilterAll(ps[1..], V)
  }

  lemma FilterNtsAppend(ps: seq<Production>, p: Production, S: set<string>)
    ensures FilterNts(ps + [p], S) == FilterNts(ps, S) + (if NtsIn(p.rhs, S) then [p] else [])
  {
    if ps != [] {
      assert (ps + [p])[1..] == ps[1..] + [p];
      FilterNtsAppend(ps[1..], p, S);
    }
  }

  lemma FilterAllAppend(ps: seq<Production>, p: Production, V: set<Symbol>)
    ensures FilterAll(ps + [p], V) == FilterAll(ps, V) + (if AllIn(p.rhs, V) then [p] else [])
  {
    if ps != [] {
      assert (ps + [p])[1..] == ps[1..] + [p];
      FilterAllAppend(ps[1..], p, V);
    }
  }

  /** The members of `ns` that are in `S`, in order. */
  function KeepIn(ns: seq<string>, S: set<string>): (r: seq<string>)
    ensures forall n :: n in r <==> n in ns && n in S
  {
    if ns == [] then [] else (if ns[0] in S then [ns[0]] else []) + KeepIn(ns[1..], S)
  }

  /** The non-terminal names of `ns` whose symbol is in `V`, in order. */
  function KeepNts(ns: seq<string>, V: set<Symbol>): (r: seq<string>)
    ensures forall n :: n in r <==> n in ns && N(n) in V
    ensures NoDup(ns) ==> NoDup(r)
  {
    if ns == [] then [] else (if N(ns[0]) in V then [ns[0]] else []) + KeepNts(ns[1..], V)
  }

  /** The terminal names of `ts` whose symbol is in `V`, in order. */
  function KeepTerms(ts: seq<string>, V: set<Symbol>): (r: seq<string>)
    ensures forall t :: t in r <==> t in ts && T(t) in V
  {
    if ts == [] then [] else (if T(ts[0]) in V then [ts[0]] else []) + KeepTerms(ts[1..], V)
  }

  /** The terminals the productions mention. */
  ghost function TermsOf(ps: seq<Production>): set<string> {
    set p, s | p in ps && s in p.rhs && s.T? :: s.name
  }

  /** The rule lists after the first filter: each non-terminal of `nts` that
      is in `S` keeps the productions whose non-terminals are all in `S`. */
  function FilteredRules(rules: map<string, seq<Production>>, D: set<string>, S: set<string>): map<string, seq<Production>> {
    map a | a in rules.Keys + (S * D) :: if a in S && a in D then FilterNts(RulesAt(rules, a), S) else rules[a]
  }

  /** The rule lists after the second filter: each non-terminal of `np` keeps
      the productions whose symbols are all in `V`. */
  function ReachRules(rules: map<string, seq<Production>>, D: set<string>, V: set<Symbol>): map<string, seq<Production>> {
    map a | a in rules.Keys + D :: if a in D then FilterAll(RulesAt(rules, a), V) else rules[a]
  }

  /** The terminals of a body not yet in `ts`, appended in order. */
  method AddTerms(ts: seq<string>, body: seq<Symbol>) returns (ts': seq<string>)
    requires NoDup(ts)
    ensures NoDup(ts') && Elems(ts') == Elems(ts) + (set s | s in body && s.T? :: s.name)
  {
    ts' := ts;
    for j := 0 to |body|
      invariant NoDup(ts')
      invariant Elems(ts') == Elems(ts) + (set s | s in body[..j] && s.T? :: s.name)
    {
      var t := body[j];
      assert body[..j + 1] == body[..j] + [t];
      assert (set s | s in body[..j + 1] && s.T? :: s.name)
          == (set s | s in body[..j] && s.T? :: s.name) + (if t.T? then {t.name} else {});
      if t.T? && t.name !in ts' {
        NoDupAppend(ts', t.name);
        assert Elems(ts' + [t.name]) == Elems(ts') + {t.name};
        ts' := ts' + [t.name];
      }
    }
    assert body[..|body|] == body;
  }

  /** The inner loop of the first filter over one rule list. */
  method KeepRule(ps: seq<Production>, S: set<string>, prods0: seq<Production>, ts0: seq<string>)
    returns (kept: seq<Production>, prods: seq<Production>, ts: seq<string>)
    requires NoDup(ts0) && Elems(ts0) == TermsOf(prods0)
    ensures kept == FilterNts(ps, S) && prods == prods0 + kept
    ensures NoDup(ts) && Elems(ts) == TermsOf(prods)
  {
    kept, prods, ts := [], prods0, ts0;
    for i := 0 to |ps|
      invariant kept == FilterNts(ps[..i], S)
      invariant prods == prods0 + kept
      invariant NoDup(ts) && Elems(ts) == TermsOf(prods)
    {
      var p := ps[i];
      assert ps[..i + 1] == ps[..i] + [p];
      FilterNtsAppend(ps[..i], p, S);
      if forall s :: s in p.rhs && s.N? ==> s.name in S {
        TermsOfAppend(prods, p);
        kept := kept + [p];
        prods := prods + [p];
        ts := AddTerms(ts, p.rhs);
      }
    }
    assert ps[..|ps|] == ps;
  }

  /** The first filter, the branch taken when some non-terminal does not
      generate: the kept productions in non-terminal order, the terminals
      they mention, and `M` as the non-terminal list. */
  method KeepGenerating(g: Grammar, M: seq<string>) returns (mid: Grammar)
    requires NoDup(g.nonTerminals)
    ensures mid.start == g.start && mid.nonTerminals == M
    ensures mid.rules == FilteredRules(g.rules, Elems(g.nonTerminals), Elems(M))
    ensures mid.productions == Flatten(mid.rules, KeepIn(g.nonTerminals, Elems(M)))
    ensures NoDup(mid.terminals) && Elems(mid.terminals) == TermsOf(mid.productions)
  {
    var S := Elems(M);
    var nts := g.nonTerminals;
    var prods: seq<Production> := [];
    var tprima: seq<string> := [];
    var rules := g.rules;
    for k := 0 to |nts|
      invariant rules == FilteredRules(g.rules, Elems(nts[..k]), S)
      invariant prods == Flatten(rules, KeepIn(nts[..k], S))
      invariant NoDup(tprima) && Elems(tprima) == TermsOf(prods)
    {
      var nt := nts[k];
      ghost var rules0, prods0 := rules, prods;
      var kept: seq<Production> := [];
      if nt in S {
        kept, prods, tprima := KeepRule(RulesAt(rules, nt), S, prods, tprima);
        rules := rules[nt := kept];
      }
      KeepGeneratingStep(g.rules, nts, k, S, rules0, prods0, kept);
    }
    assert nts[..|nts|] == nts;
    mid := g.(productions := prods, nonTerminals := M, terminals := tprima, rules := rules);
  }

  /** The invariant of the first filter's outer loop, kept by one step. */
  lemma KeepGeneratingStep(R: map<string, seq<Production>>, nts: seq<string>, k: nat, S: set<string>,
                           rules: map<string, seq<Production>>, prods: seq<Production>, kept: seq<Production>)
    requires NoDup(nts) && k < |nts|
    requires rules == FilteredRules(R, Elems(nts[..k]), S) && prods == Flatten(rules, KeepIn(nts[..k], S))
    requires nts[k] in S ==> kept == FilterNts(RulesAt(rules, nts[k]), S)
    ensures RulesAt(rules, nts[k]) == RulesAt(R, nts[k])
    ensures nts[k] in S ==> (rules[nts[k] := kept] == FilteredRules(R, Elems(nts[..k + 1]), S)
                             && prods + kept == Flatten(rules[nts[k] := kept], KeepIn(nts[..k + 1], S)))
    ensures nts[k] !in S ==> (rules == FilteredRules(R, Elems(nts[..k + 1]), S)
                              && prods == Flatten(rules, KeepIn(nts[..k + 1], S)))
  {
    var ns, n := nts[..k], nts[k];
    PrefixSnoc(nts, k);
    KeepInAppend(ns, n, S);
    FilteredRulesStep(R, Elems(ns), n, S);
    if n in S {
      FlattenPut(rules, KeepIn(ns, S), n, kept);
    } else {
      assert KeepIn(ns, S) + [] == KeepIn(ns, S);
    }
  }

  /** One more non-terminal through the first filter. */
  lemma FilteredRulesStep(rules: map<string, seq<Production>>, D: set<string>, n: string, S: set<string>)
    requires n !in D
    ensures RulesAt(FilteredRules(rules, D, S), n) == RulesAt(rules, n)
    ensures FilteredRules(rules, D + {n}, S)
         == if n in S then FilteredRules(rules, D, S)[n := FilterNts(RulesAt(rules, n), S)] else FilteredRules(rules, D, S)
  {
    if n in S {
      FilteredRulesIn(rules, D, n, S);
    } else {
      FilteredRulesOut(rules, D, n, S);
    }
  }

  lemma FilteredRulesIn(rules: map<string, seq<Production>>, D: set<string>, n: string, S: set<string>)
    requires n !in D && n in S
    ensures FilteredRules(rules, D + {n}, S) == FilteredRules(rules, D, S)[n := FilterNts(RulesAt(rules, n), S)]
  {
    var A, C := FilteredRules(rules, D + {n}, S), FilteredRules(rules, D, S)[n := FilterNts(RulesAt(rules, n), S)];
    assert A.Keys == C.Keys;
    forall a | a in A ensures A[a] == C[a] {
    }
  }

  lemma FilteredRulesOut(rules: map<string, seq<Production>>, D: set<string>, n: string, S: set<string>)
    requires n !in D && n !in S
    ensures FilteredRules(rules, D + {n}, S) == FilteredRules(rules, D, S)
  {
    var A, B := FilteredRules(rules, D + {n}, S), FilteredRules(rules, D, S);
    assert A.Keys == B.Keys;
    forall a | a in A ensures A[a] == B[a] {
    }
  }

  lemma TermsOfAppend(ps: seq<Production>, p: Production)
    ensures TermsOf(ps + [p]) == TermsOf(ps) + (set s | s in p.rhs && s.T? :: s.name)
  {
  }

  lemma KeepInAppend(ns: seq<string>, n: string, S: set<string>)
    ensures KeepIn(ns + [n], S) == KeepIn(ns, S) + (if n in S then [n] else [])
  {
    if ns != [] {
      assert (ns + [n])[1..] == ns[1..] + [n];
      KeepInAppend(ns[1..], n, S);
    }
  }

  /** Setting the entry of a non-terminal after `ns` appends it to their
      productions. */
  lemma FlattenPut(rules: map<string, seq<Production>>, ns: seq<string>, n: string, ps: seq<Production>)
    requires n !in ns
    ensures Flatten(rules[n := ps], ns + [n]) == Flatten(rules, ns) + ps
  {
    FlattenUnchanged(rules, rules[n := ps], ns, n);
    FlattenAppend(rules[n := ps], ns, n);
  }

  /** Updating the entry of a non-terminal outside `ns` leaves their
      productions as they were. */
  lemma FlattenUnchanged(rules: map<string, seq<Production>>, rules': map<string, seq<Production>>, ns: seq<string>, n: string)
    requires n !in ns
    requires forall a :: a != n ==> (a in rules <==> a in rules') && (a in rules ==> rules[a] == rules'[a])
    ensures Flatten(rules, ns) == Flatten(rules', ns)
  {
    if ns != [] { FlattenUnchanged(rules, rules', ns[1..], n); }
  }

  /** The innermost loop of the second filter: the productions whose symbols
      were all reached, appended to the production list as well. */
  method KeepAllIn(ps: seq<Production>, V: set<Symbol>, prods0: seq<Production>)
    returns (kept: seq<Production>, prods: seq<Production>)
    ensures kept == FilterAll(ps, V) && prods == prods0 + kept
  {
    kept, prods := [], prods0;
    for i := 0 to |ps|
      invariant kept == FilterAll(ps[..i], V) && prods == prods0 + kept
    {
      var p := ps[i];
      assert ps[..i + 1] == ps[..i] + [p];
      FilterAllAppend(ps[..i], p, V);
      if forall s :: s in p.rhs ==> s in V {
        kept := kept + [p];
        prods := prods + [p];
      }
    }
    assert ps[..|ps|] == ps;
  }

  /** The inner loops of the second filter for one non-terminal `nt`: the
      scan of the non-terminal list for `nt`, keeping the productions whose
      symbols were all reached. */
  method KeepRuleReachable(nts: seq<string>, rules: map<string, seq<Production>>, nt: string, V: set<Symbol>,
                           prods0: seq<Production>)
    returns (kept: seq<Production>, prods: seq<Production>)
    requires NoDup(nts) && nt in nts
    ensures kept == FilterAll(RulesAt(rules, nt), V) && prods == prods0 + kept
  {
    kept, prods := [], prods0;
    for e := 0 to |nts|
      invariant nt in nts[..e] ==> kept == FilterAll(RulesAt(rules, nt), V)
      invariant nt !in nts[..e] ==> kept == []
      invariant prods == prods0 + kept
    {
      assert nts[..e + 1] == nts[..e] + [nts[e]];
      if nts[e] == nt {
        assert nt !in nts[..e];
        kept, prods := KeepAllIn(RulesAt(rules, nt), V, prods0);
      }
    }
    assert nts[..|nts|] == nts;
  }

  /** The invariant of the second filter's outer loop, kept by one step. */
  lemma KeepReachableStep(R: map<string, seq<Production>>, np: seq<string>, k: nat, V: set<Symbol>,
                          rules: map<string, seq<Production>>, prods: seq<Production>, kept: seq<Production>)
    requires NoDup(np) && k < |np|
    requires rules == ReachRules(R, Elems(np[..k]), V) && prods == Flatten(rules, np[..k])
    requires kept == FilterAll(RulesAt(rules, np[k]), V)
    ensures RulesAt(rules, np[k]) == RulesAt(R, np[k])
    ensures rules[np[k] := kept] == ReachRules(R, Elems(np[..k + 1]), V)
    ensures prods + kept == Flatten(rules[np[k] := kept], np[..k + 1])
  {
    var ns, n := np[..k], np[k];
    PrefixSnoc(np, k);
    ReachRulesStep(R, Elems(ns), n, V);
    FlattenPut(rules, ns, n, kept);
  }

  lemma ReachRulesStep(rules: map<string, seq<Production>>, D: set<string>, n: string, V: set<Symbol>)
    requires n !in D
    ensures RulesAt(ReachRules(rules, D, V), n) == RulesAt(rules, n)
    ensures ReachRules(rules, D + {n}, V) == ReachRules(rules, D, V)[n := FilterAll(RulesAt(rules, n), V)]
  {
  }

  /** The second filter: the terminals and non-terminals that were reached,
      in their order, each kept non-terminal keeping the productions whose
      symbols were all reached. */
  method KeepReachable(g: Grammar, mid: Grammar, V: set<Symbol>) returns (r: Grammar)
    requires NoDup(mid.nonTerminals)
    ensures r.nonTerminals == KeepNts(mid.nonTerminals, V) && r.terminals == KeepTerms(mid.terminals, V)
    ensures r.rules == ReachRules(mid.rules, Elems(r.nonTerminals), V)
    ensures r.productions == Flatten(r.rules, r.nonTerminals)
    ensures r.start == g.start
  {
    var tp := KeepTerms(mid.terminals, V);
    var np := KeepNts(mid.nonTerminals, V);
    var prods: seq<Production> := [];
    var rules := mid.rules;
    for k := 0 to |np|
      invariant rules == ReachRules(mid.rules, Elems(np[..k]), V)
      invariant prods == Flatten(rules, np[..k])
    {
      var nt := np[k];
      ghost var rules0, prods0 := rules, prods;
      var kept;
      kept, prods := KeepRuleReachable(mid.nonTerminals, rules, nt, V, prods);
      rules := rules[nt := kept];
      KeepReachableStep(mid.rules, np, k, V, rules0, prods0, kept);
    }
    assert np[..|np|] == np;
    r := g.(productions := prods, terminals := tp, nonTerminals := np, rules := rules);
  }

  /** The non-terminals after the first filter: all of them when every one
      generates (the lists have the same length), otherwise the generating
      ones. */
  ghost function MidNts(g: Grammar): set<string> {
    if |GenSet(g.productions)| == |g.nonTerminals| then Elems(g.nonTerminals) else GenSet(g.productions)
  }

  /** The rule lists after the first filter. */
  ghost function MidRules(g: Grammar): map<string, seq<Production>> {
    if |GenSet(g.productions)| == |g.nonTerminals| then g.rules
    else FilteredRules(g.rules, Elems(g.nonTerminals), GenSet(g.productions))
  }

  /** The terminals after the first filter. */
  ghost function MidTerms(g: Grammar): set<string> {
    if |GenSet(g.productions)| == |g.nonTerminals| then Elems(g.terminals)
    else TermsOf(Flatten(MidRules(g), KeepIn(g.nonTerminals, GenSet(g.productions))))
  }

  /** What `without_useless_symbols` returns, up to the order of the
      generating non-terminals (which follows the production list): the
      symbols reachable from the start through the filtered rules, the rules
      of the kept non-terminals restricted to productions over those symbols,
      and the productions listed non-terminal by non-terminal. */
  ghost predicate IsUselessResult(g: Grammar, r: Grammar) {
    var V := ReachSet(MidRules(g), g.start);
    && r.start == g.start
    && NoDup(r.nonTerminals)
    && Elems(r.nonTerminals) == (set n | n in MidNts(g) && N(n) in V)
    && Elems(r.terminals) == (set t | t in MidTerms(g) && T(t) in V)
    && r.rules == ReachRules(MidRules(g), Elems(r.nonTerminals), V)
    && r.productions == Flatten(r.rules, r.nonTerminals)
  }

  /** `without_useless_symbols`: drops the non-terminals that generate no
      terminal string, then the symbols unreachable from the start symbol. */
  method WithoutUselessSymbols(g: Grammar) returns (r: Grammar)
    requires NoDup(g.nonTerminals)
    ensures IsUselessResult(g, r)
  {
    var M := Generating(g.productions, g.terminals);
    NoDupCard(M);
    var mid := g;
    if |M| != |g.nonTerminals| {
      mid := KeepGenerating(g, M);
    }
    assert Elems(mid.nonTerminals) == MidNts(g) && NoDup(mid.nonTerminals);
    assert mid.rules == MidRules(g) && mid.start == g.start;
    assert Elems(mid.terminals) == MidTerms(g);
    var V := Reachable(mid.rules, mid.start);
    r := KeepReachable(g, mid, Elems(V));
  }

  lemma GenSetClosed(ps: seq<Production>)
    ensures GenClosed(ps, GenSet(ps))
  {
    forall p | p in ps && NtsIn(p.rhs, GenSet(ps)) ensures p.lhs in GenSet(ps) {
      forall S | GenClosed(ps, S) ensures p.lhs in S {
        assert NtsIn(p.rhs, S);
      }
    }
  }

  lemma ReachSetClosed(rules: map<string, seq<Production>>, start: string)
    ensures N(start) in ReachSet(rules, start) && ReachClosed(rules, ReachSet(rules, start))
  {
    var R := ReachSet(rules, start);
    forall a, p | N(a) in R && p in RulesAt(rules, a) ensures AllIn(p.rhs, R) {
      forall s | s in p.rhs ensures s in R {
        assert s in RuleSymbols(rules);
        forall S | N(start) in S && ReachClosed(rules, S) ensures s in S {
          assert N(a) in S;
        }
      }
    }
  }

  /** Two rule maps that agree on every non-terminal reachable through the
      first reach the same symbols. */
  lemma ReachSetAgree(R1: map<string, seq<Production>>, R2: map<string, seq<Production>>, start: string)
    requires forall a :: N(a) in ReachSet(R1, start) ==> RulesAt(R1, a) == RulesAt(R2, a)
    ensures ReachSet(R1, start) == ReachSet(R2, start)
  {
    var X := ReachSet(R1, start);
    ReachSetClosed(R1, start);
    ReachSetClosed(R2, start);
    assert ReachClosed(R2, X);
    var Y := ReachSet(R2, start);
    assert Y <= X;
    var Z := X * Y;
    forall a, p | N(a) in Z && p in RulesAt(R1, a) ensures AllIn(p.rhs, Z) {
      assert p in RulesAt(R2, a);
    }
    assert X <= Z;
  }

  lemma FilterAllAll(ps: seq<Production>, V: set<Symbol>)
    requires forall p :: p in ps ==> AllIn(p.rhs, V)
    ensures FilterAll(ps, V) == ps
  {
  }

  /** The productions after the first filter, under the grammar's own
      invariants: productions of `g` headed by their non-terminal, over
      generating non-terminals and the terminals kept. */
  lemma MidFacts(g: Grammar)
    requires WellFormed(g) && Consistent(g) && NoDup(g.nonTerminals)
    ensures MidNts(g) == GenSet(g.productions) <= Elems(g.nonTerminals)
    ensures forall n, p :: n in MidNts(g) && p in RulesAt(MidRules(g), n) ==>
              p in g.productions && p.lhs == n && NtsIn(p.rhs, MidNts(g))
              && forall s :: s in p.rhs && s.T? ==> s.name in MidTerms(g)
  {
    var ps, gen := g.productions, GenSet(g.productions);
    assert gen <= Elems(g.nonTerminals);
    NoDupCard(g.nonTerminals);
    if |gen| == |g.nonTerminals| {
      SubsetCard(gen, Elems(g.nonTerminals));
    }
    forall n, p | n in MidNts(g) && p in RulesAt(MidRules(g), n)
      ensures p in g.productions && p.lhs == n && NtsIn(p.rhs, MidNts(g))
      ensures forall s :: s in p.rhs && s.T? ==> s.name in MidTerms(g)
    {
      assert p in g.RulesOf(n);
      if |gen| != |g.nonTerminals| {
        var kept := KeepIn(g.nonTerminals, gen);
        FlattenMember(MidRules(g), kept, p);
        assert n in kept && n in MidRules(g);
      }
    }
  }

  /** The productions of `WithHead` order: listing non-terminal by
      non-terminal, each once, the productions headed by `A` are those of
      `A`'s list. */
  lemma {:induction false} WithHeadFlatten(rules: map<string, seq<Production>>, ns: seq<string>, A: string)
    requires NoDup(ns)
    requires forall n, p :: n in ns && p in RulesAt(rules, n) ==> p.lhs == n
    ensures WithHead(Flatten(rules, ns), A) == if A in ns then RulesAt(rules, A) else []
  {
    if ns != [] {
      WithHeadFlatten(rules, ns[1..], A);
      WithHeadConcat(RulesAt(rules, ns[0]), Flatten(rules, ns[1..]), A);
      WithHeadAll(RulesAt(rules, ns[0]), ns[0], A);
    }
  }

  /** The rule lists of the result: unchanged on the reached non-terminals,
      and for a kept non-terminal, productions of `g` it heads, over
      generating non-terminals and reached symbols. */
  lemma ResultRules(g: Grammar, r: Grammar)
    requires WellFormed(g) && Consistent(g) && NoDup(g.nonTerminals)
    requires IsUselessResult(g, r)
    ensures forall a :: N(a) in ReachSet(MidRules(g), g.start) ==> RulesAt(MidRules(g), a) == RulesAt(r.rules, a)
    ensures forall n, p :: n in r.nonTerminals && p in RulesAt(r.rules, n) ==>
              p in g.productions && p.lhs == n && NtsIn(p.rhs, GenSet(g.productions))
              && AllIn(p.rhs, ReachSet(MidRules(g), g.start))
              && forall s :: s in p.rhs && s.T? ==> s.name in MidTerms(g)
    ensures forall p :: p in r.productions <==> exists n :: n in r.nonTerminals && p in RulesAt(r.rules, n)
  {
    var Mid, V := MidRules(g), ReachSet(MidRules(g), g.start);
    MidFacts(g);
    ReachSetClosed(Mid, g.start);
    forall a | N(a) in V ensures RulesAt(Mid, a) == RulesAt(r.rules, a) {
      if a in r.nonTerminals {
        FilterAllAll(RulesAt(Mid, a), V);
      }
    }
    forall n, p | n in r.nonTerminals && p in RulesAt(r.rules, n)
      ensures p in g.productions && p.lhs == n && NtsIn(p.rhs, GenSet(g.productions)) && AllIn(p.rhs, V)
      ensures forall s :: s in p.rhs && s.T? ==> s.name in MidTerms(g)
    {
      assert n in Elems(r.nonTerminals);
      assert n in MidNts(g);
      assert r.rules[n] == FilterAll(RulesAt(Mid, n), V);
      assert p in RulesAt(Mid, n);
    }
    forall p ensures p in r.productions <==> exists n :: n in r.nonTerminals && p in RulesAt(r.rules, n) {
      FlattenMember(r.rules, r.nonTerminals, p);
    }
  }

  /** Every kept non-terminal generates a terminal string with the result's
      own productions. */
  lemma ResultGenerates(g: Grammar, r: Grammar)
    requires WellFormed(g) && Consistent(g) && NoDup(g.nonTerminals)
    requires IsUselessResult(g, r)
    ensures forall n :: n in r.nonTerminals ==> n in GenSet(r.productions)
  {
    var V, gen := ReachSet(MidRules(g), g.start), GenSet(g.productions);
    var S := set n | n in Heads(g.productions) && n in gen && (N(n) in V ==> n in GenSet(r.productions));
    GenSetStep(g, r, S);
    assert gen <= S;
    forall n | n in r.nonTerminals ensures n in GenSet(r.productions) {
      assert n in Elems(r.nonTerminals);
      MidFacts(g);
    }
  }

  lemma GenSetStep(g: Grammar, r: Grammar, S: set<string>)
    requires WellFormed(g) && Consistent(g) && NoDup(g.nonTerminals)
    requires IsUselessResult(g, r)
    requires S == set n | n in Heads(g.productions) && n in GenSet(g.productions)
                       && (N(n) in ReachSet(MidRules(g), g.start) ==> n in GenSet(r.productions))
    ensures GenClosed(g.productions, S)
  {
    var Mid, V, gen := MidRules(g), ReachSet(MidRules(g), g.start), GenSet(g.productions);
    MidFacts(g);
    ResultRules(g, r);
    GenSetClosed(g.productions);
    GenSetClosed(r.productions);
    forall p | p in g.productions && NtsIn(p.rhs, S) ensures p.lhs in S {
      assert NtsIn(p.rhs, gen);
      if N(p.lhs) in V {
        assert p in RulesAt(Mid, p.lhs);
        assert p.lhs in r.nonTerminals by { assert p.lhs in Elems(r.nonTerminals); }
        assert p in r.productions;
      }
    }
  }

  /** When the start symbol generates, the result is well formed. */
  lemma ResultWellFormed(g: Grammar, r: Grammar)
    requires WellFormed(g) && Consistent(g) && NoDup(g.nonTerminals)
    requires IsUselessResult(g, r) && g.start in GenSet(g.productions)
    ensures WellFormed(r)
  {
    var V := ReachSet(MidRules(g), g.start);
    MidFacts(g);
    ResultRules(g, r);
    ReachSetClosed(MidRules(g), g.start);
    assert g.start in Elems(r.nonTerminals);
    forall p | p in r.productions
      ensures p.lhs in r.nonTerminals && forall s :: s in p.rhs ==> Declared(r, s)
    {
      var n :| n in r.nonTerminals && p in RulesAt(r.rules, n);
      forall s | s in p.rhs ensures Declared(r, s) {
        assert s in V;
        if s.N? {
          assert s.name in Elems(r.nonTerminals);
        } else {
          assert s.name in Elems(r.terminals);
        }
      }
    }
  }

  /** The result is clean: its productions are productions of `g`, its rules
      reach what the filtered rules reached, and each of its non-terminals
      generates a terminal string and is reachable in the result itself.
      Its production list agrees with its rule lists, and when the start
      symbol generates, the result is a well-formed grammar. */
  lemma UselessResultClean(g: Grammar, r: Grammar)
    requires WellFormed(g) && Consistent(g) && NoDup(g.nonTerminals)
    requires IsUselessResult(g, r)
    ensures forall p :: p in r.productions ==> p in g.productions
    ensures ReachSet(r.rules, r.start) == ReachSet(MidRules(g), g.start)
    ensures forall n :: n in r.nonTerminals ==> N(n) in ReachSet(r.rules, r.start) && n in GenSet(r.productions)
    ensures Consistent(r)
    ensures g.start in GenSet(g.productions) ==> WellFormed(r)
  {
    ResultReach(g, r);
    ResultGenerates(g, r);
    ResultConsistent(g, r);
    if g.start in GenSet(g.productions) {
      ResultWellFormed(g, r);
    }
  }

  lemma ResultReach(g: Grammar, r: Grammar)
    requires WellFormed(g) && Consistent(g) && NoDup(g.nonTerminals)
    requires IsUselessResult(g, r)
    ensures forall p :: p in r.productions ==> p in g.productions
    ensures ReachSet(r.rules, r.start) == ReachSet(MidRules(g), g.start)
    ensures forall n :: n in r.nonTerminals ==> N(n) in ReachSet(r.rules, r.start)
  {
    var V := ReachSet(MidRules(g), g.start);
    ResultRules(g, r);
    ReachSetAgree(MidRules(g), r.rules, g.start);
    forall n | n in r.nonTerminals ensures N(n) in V {
      assert n in Elems(r.nonTerminals);
    }
  }

  lemma ResultConsistent(g: Grammar, r: Grammar)
    requires WellFormed(g) && Consistent(g) && NoDup(g.nonTerminals)
    requires IsUselessResult(g, r)
    ensures Consistent(r)
  {
    ResultRules(g, r);
    forall A | A in r.nonTerminals ensures r.RulesOf(A) == WithHead(r.productions, A) {
      WithHeadFlatten(r.rules, r.nonTerminals, A);
    }
  }
}
