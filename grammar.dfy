/** The grammar model the analyser is built on: symbols, sentences, productions,
    the grammar container and LR items.  The classes of the original grammar
    library are not part of this model; this module states the behaviour the
    analyser relies on, as it is used by the analyser's own code. */
module Grammars {

  datatype Option<T> = None | Some(value: T)

  /** A grammar symbol.  Symbols are identified by their kind and name. */
  datatype Symbol = T(name: string) | N(name: string)

  /** The end-of-input terminal `$` every grammar owns. */
  const EOF: Symbol := T("$")

  /** The name `AugmentedGrammar` gives its fresh start symbol. */
  const AugmentedStart: string := "S'"

  /** A production `lhs -> rhs`; an empty body is the epsilon sentence. */
  datatype Production = Production(lhs: string, rhs: seq<Symbol>) {
    function Left(): Symbol { N(lhs) }
    predicate IsEpsilon() { |rhs| == 0 }
  }

  /** A grammar: ordered non-terminals and terminals, the production list
      (`G.Productions`), the per-non-terminal production lists
      (`nt.productions`, kept separately because the rewriting passes update the
      two independently) and the start symbol. */
  datatype Grammar = Grammar(
    nonTerminals: seq<string>,
    terminals: seq<string>,
    productions: seq<Production>,
    rules: map<string, seq<Production>>,
    start: string)
  {
    /** `nt.productions`: a non-terminal without an entry has no productions. */
    function RulesOf(A: string): seq<Production> {
      if A in rules then rules[A] else []
    }
  }

  predicate Declared(g: Grammar, s: Symbol) {
    match s
    case T(x) => x in g.terminals
    case N(x) => x in g.nonTerminals
  }

  /** Every head is a declared non-terminal and every body symbol is declared. */
  predicate WellFormed(g: Grammar) {
    && g.start in g.nonTerminals
    && (forall p :: p in g.productions ==>
          p.lhs in g.nonTerminals && forall s :: s in p.rhs ==> Declared(g, s))
  }

  /** The productions of `ps` whose head is `A`, in order. */
  function WithHead(ps: seq<Production>, A: string): (r: seq<Production>)
    ensures forall p :: p in r <==> p in ps && p.lhs == A
    ensures |r| <= |ps|
  {
    if ps == [] then []
    else if ps[0].lhs == A then [ps[0]] + WithHead(ps[1..], A)
    else WithHead(ps[1..], A)
  }

  /** A grammar built from text: each non-terminal's list holds exactly its
      productions from the production list, in the same order. */
  predicate Consistent(g: Grammar) {
    forall A :: A in g.nonTerminals ==> g.RulesOf(A) == WithHead(g.productions, A)
  }

  function TerminalSymbols(g: Grammar): set<Symbol> {
    set t | t in g.terminals :: T(t)
  }

  function NonTerminalSymbols(g: Grammar): set<Symbol> {
    set n | n in g.nonTerminals :: N(n)
  }

  function AllSymbols(g: Grammar): set<Symbol> {
    TerminalSymbols(g) + NonTerminalSymbols(g)
  }

  function Bodies(g: Grammar): set<seq<Symbol>> {
    set p | p in g.productions :: p.rhs
  }

  lemma DeclaredIsSymbol(g: Grammar, s: Symbol)
    requires Declared(g, s)
    ensures s in AllSymbols(g)
  {
    match s
    case T(x) => assert T(x) in TerminalSymbols(g);
    case N(x) => assert N(x) in NonTerminalSymbols(g);
  }

  /** `G[name]`: the symbol table lookup the tokenizer uses.  The table maps `$`
      to EOF and every declared name to its symbol. */
  function Lookup(g: Grammar, name: string): (r: Option<Symbol>)
    ensures r.Some? ==> r.value == EOF || Declared(g, r.value)
    ensures r.None? <==> name !in g.nonTerminals && name !in g.terminals && name != "$"
  {
    if name in g.nonTerminals then Some(N(name))
    else if name in g.terminals || name == "$" then Some(T(name))
    else None
  }

  /** `AugmentedGrammar(True)`: a copy with the fresh start `S'` whose single
      production is `S' -> S`, appended last. */
  function Augmented(g: Grammar): (r: Grammar)
    requires AugmentedStart !in g.nonTerminals
    ensures r.start == AugmentedStart
    ensures r.RulesOf(r.start) == [Production(AugmentedStart, [N(g.start)])]
    ensures WellFormed(g) ==> WellFormed(r)
    ensures WellFormed(g) && Consistent(g) ==> Consistent(r)
  {
    var p := Production(AugmentedStart, [N(g.start)]);
    var r := Grammar(g.nonTerminals + [AugmentedStart], g.terminals,
                     g.productions + [p], g.rules[AugmentedStart := [p]], AugmentedStart);
    assert WellFormed(g) ==> WellFormed(r) by {
      if WellFormed(g) {
        forall q | q in r.productions
          ensures q.lhs in r.nonTerminals && forall s :: s in q.rhs ==> Declared(r, s)
        {
          if q != p {
            assert q in g.productions;
            forall s | s in q.rhs ensures Declared(r, s) { assert Declared(g, s); }
          }
        }
      }
    }
    assert WellFormed(g) && Consistent(g) ==> Consistent(r) by {
      if WellFormed(g) && Consistent(g) {
        forall A | A in r.nonTerminals ensures r.RulesOf(A) == WithHead(r.productions, A) {
          WithHeadAppend(g.productions, p, A);
          if A != AugmentedStart {
            assert A in g.nonTerminals;
          } else {
            NoHead(g.productions, A);
          }
        }
      }
    }
    r
  }

  lemma WithHeadAppend(ps: seq<Production>, p: Production, A: string)
    ensures WithHead(ps + [p], A) == WithHead(ps, A) + (if p.lhs == A then [p] else [])
  {
    if ps != [] {
      assert (ps + [p])[1..] == ps[1..] + [p];
      WithHeadAppend(ps[1..], p, A);
    }
  }

  lemma NoHead(ps: seq<Production>, A: string)
    requires forall p :: p in ps ==> p.lhs != A
    ensures WithHead(ps, A) == []
  {
  }

  lemma {:induction false} WithHeadConcat(a: seq<Production>, b: seq<Production>, A: string)
    ensures WithHead(a + b, A) == WithHead(a, A) + WithHead(b, A)
  {
    if a != [] {
      assert (a + b)[0] == a[0] && (a + b)[1..] == a[1..] + b;
      WithHeadConcat(a[1..], b, A);
      if a[0].lhs == A {
        calc {
          WithHead(a + b, A);
          [a[0]] + WithHead(a[1..] + b, A);
          [a[0]] + (WithHead(a[1..], A) + WithHead(b, A));
          ([a[0]] + WithHead(a[1..], A)) + WithHead(b, A);
        }
      }
    } else {
      assert a + b == b;
    }
  }

  lemma {:induction false} WithHeadAll(ps: seq<Production>, n: string, A: string)
    requires forall p :: p in ps ==> p.lhs == n
    ensures WithHead(ps, A) == if A == n then ps else []
  {
    if ps != [] {
      WithHeadAll(ps[1..], n, A);
    }
  }

  /** An LR item: a production, a dot position and a lookahead set. */
  datatype Item = Item(production: Production, pos: nat, lookaheads: set<Symbol>) {
    predicate IsReduceItem() { pos >= |production.rhs| }

    /** The symbol right after the dot, if any. */
    function NextSymbol(): Option<Symbol> {
      if pos < |production.rhs| then Some(production.rhs[pos]) else None
    }

    /** The item with the dot advanced by one, keeping the lookaheads. */
    function NextItem(): Item
      requires pos < |production.rhs|
    {
      Item(production, pos + 1, lookaheads)
    }

    /** The item without its lookaheads: the key LALR(1) merging compares. */
    function Center(): Item {
      Item(production, pos, {})
    }

    /** The symbols after the next symbol followed by each lookahead. */
    function Preview(): set<seq<Symbol>> {
      var rest := if pos + 1 <= |production.rhs| then production.rhs[pos + 1..] else [];
      set la | la in lookaheads :: rest + [la]
    }
  }

  /** The sequence read back to front. */
  function Reverse<A>(s: seq<A>): (r: seq<A>)
    ensures |r| == |s| && forall i :: 0 <= i < |s| ==> r[i] == s[|s| - 1 - i]
  {
    if s == [] then [] else Reverse(s[1..]) + [s[0]]
  }

  lemma ReverseAppend<A>(a: seq<A>, b: seq<A>)
    ensures Reverse(a + b) == Reverse(b) + Reverse(a)
  {
    assert forall i :: 0 <= i < |a| + |b| ==> Reverse(a + b)[i] == (Reverse(b) + Reverse(a))[i];
  }

  lemma ReverseReverse<A>(a: seq<A>)
    ensures Reverse(Reverse(a)) == a
  {
  }

  /** The `_prima` name the passes give to a non-terminal they introduce
      for `A`. */
  function Prime(A: string): string {
    A + "_prima"
  }

  lemma PrimeFresh(A: string)
    ensures Prime(A) != A
  {
    assert |Prime(A)| == |A| + 6;
  }

  lemma PrimeInjective(A: string, B: string)
    requires Prime(A) == Prime(B)
    ensures A == B
  {
    assert A == Prime(A)[..|A|];
    assert |A| == |B|;
    assert B == Prime(B)[..|B|];
  }

  /** Every production of `ps` has head `A`, as in a list `nt.productions`
      built by `Add_Production`. */
  predicate HeadsAre(ps: seq<Production>, A: string) {
    forall p :: p in ps ==> p.lhs == A
  }

  /** No element occurs twice: the non-terminal lists of the source hold
      distinct objects. */
  predicate NoDup<A(==)>(s: seq<A>) {
    forall i, j :: 0 <= i < j < |s| ==> s[i] != s[j]
  }

  lemma NoDupAppend<A>(s: seq<A>, x: A)
    requires NoDup(s) && x !in s
    ensures NoDup(s + [x])
  {
  }

  /** Every non-terminal of `body` is named in `S`. */
  predicate NtsIn(body: seq<Symbol>, S: set<string>) {
    forall s :: s in body && s.N? ==> s.name in S
  }

  /** Every symbol of `body` is in `S`. */
  predicate AllIn(body: seq<Symbol>, S: set<Symbol>) {
    forall s :: s in body ==> s in S
  }

  /** The production lists of `nts`, one after the other. */
  function Flatten(rules: map<string, seq<Production>>, nts: seq<string>): seq<Production> {
    if nts == [] then [] else (if nts[0] in rules then rules[nts[0]] else []) + Flatten(rules, nts[1..])
  }

  lemma FlattenMember(rules: map<string, seq<Production>>, nts: seq<string>, p: Production)
    ensures p in Flatten(rules, nts) <==> exists n :: n in nts && n in rules && p in rules[n]
  {
    if nts != [] {
      FlattenMember(rules, nts[1..], p);
      if p in Flatten(rules, nts) && !(nts[0] in rules && p in rules[nts[0]]) {
        var n :| n in nts[1..] && n in rules && p in rules[n];
      }
    }
  }

  lemma FlattenAppend(rules: map<string, seq<Production>>, nts: seq<string>, n: string)
    ensures Flatten(rules, nts + [n]) == Flatten(rules, nts) + (if n in rules then rules[n] else [])
  {
    if nts != [] {
      assert (nts + [n])[1..] == nts[1..] + [n];
      FlattenAppend(rules, nts[1..], n);
    }
  }

  /** Some element of a non-empty set: one turn of a loop over the set, in
      an order the model leaves open. */
  method Pick<A>(s: set<A>) returns (x: A)
    requires s != {}
    ensures x in s
  {
    x :| x in s;
  }

  function Elems<A>(s: seq<A>): set<A> {
    set x | x in s
  }

  lemma ElemsConcat<A>(a: seq<A>, b: seq<A>)
    ensures Elems(a + b) == Elems(a) + Elems(b)
  {
  }

  /** Growing a prefix of `s` by one element. */
  lemma PrefixSnoc<A>(s: seq<A>, k: nat)
    requires k < |s|
    ensures s[..k + 1] == s[..k] + [s[k]]
    ensures Elems(s[..k + 1]) == Elems(s[..k]) + {s[k]}
    ensures NoDup(s) ==> s[k] !in Elems(s[..k])
  {
    assert s[..k + 1] == s[..k] + [s[k]];
  }

  lemma NoDupCard<A>(s: seq<A>)
    requires NoDup(s)
    ensures |Elems(s)| == |s|
  {
    if s != [] {
      var t := s[..|s| - 1];
      assert Elems(s) == Elems(t) + {s[|s| - 1]};
      NoDupCard(t);
    }
  }

  /** A subset as large as its superset is the superset. */
  lemma SubsetCard<A>(a: set<A>, b: set<A>)
    requires a <= b && |a| == |b|
    ensures a == b
  {
    if a != b {
      assert !(b <= a);
      var x :| x in b && x !in a;
      SubsetLe(a, b - {x});
    }
  }

  lemma SubsetLe<A>(a: set<A>, b: set<A>)
    requires a <= b
    ensures |a| <= |b|
  {
    if a != {} {
      var x :| x in a;
      SubsetLe(a - {x}, b - {x});
    }
  }
}
