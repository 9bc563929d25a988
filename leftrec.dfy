/** Removal of immediate left recursion: `A -> A α | β` becomes
    `A -> β A'`, `A' -> α A' | ε`, one non-terminal at a time, over a
    non-terminal list that grows while it is walked. */
module LeftRecursion {
  import opened Grammars

  /** `A -> A α`: a non-empty body that starts with the head. */
  predicate LeftRec(p: Production, A: string) {
    |p.rhs| > 0 && p.rhs[0] == N(A)
  }

  /** The left-recursive productions of `ps`, in order. */
  function LeftRecs(ps: seq<Production>, A: string): seq<Production> {
    if ps == [] then [] else (if LeftRec(ps[0], A) then [ps[0]] else []) + LeftRecs(ps[1..], A)
  }

  /** The other productions of `ps`, in order: the ones the loop stacks. */
  function Others(ps: seq<Production>, A: string): seq<Production> {
    if ps == [] then [] else (if LeftRec(ps[0], A) then [] else [ps[0]]) + Others(ps[1..], A)
  }

  /** The productions of `ps` with a non-empty body. */
  function NonEpsilon(ps: seq<Production>): seq<Production> {
    if ps == [] then [] else (if ps[0].IsEpsilon() then [] else [ps[0]]) + NonEpsilon(ps[1..])
  }

  lemma {:induction false} LeftRecsAppend(a: seq<Production>, b: seq<Production>, A: string)
    ensures LeftRecs(a + b, A) == LeftRecs(a, A) + LeftRecs(b, A)
    ensures Others(a + b, A) == Others(a, A) + Others(b, A)
  {
    if a != [] {
      assert (a + b)[1..] == a[1..] + b;
      LeftRecsAppend(a[1..], b, A);
    } else {
      assert a + b == b;
    }
  }

  /** `LeftRecs` and `Others` split `ps` by left recursion. */
  lemma {:induction false} LeftRecsMembers(ps: seq<Production>, A: string)
    ensures forall p :: p in LeftRecs(ps, A) <==> p in ps && LeftRec(p, A)
    ensures forall p :: p in Others(ps, A) <==> p in ps && !LeftRec(p, A)
  {
    if ps != [] {
      LeftRecsMembers(ps[1..], A);
      assert ps == [ps[0]] + ps[1..];
    }
  }

  lemma {:induction false} NonEpsilonAppend(a: seq<Production>, b: seq<Production>)
    ensures NonEpsilon(a + b) == NonEpsilon(a) + NonEpsilon(b)
  {
    if a != [] {
      assert (a + b)[1..] == a[1..] + b;
      NonEpsilonAppend(a[1..], b);
    } else {
      assert a + b == b;
    }
  }

  /** Every production falls into exactly one of the two lists. */
  lemma {:induction false} SplitMultiset(ps: seq<Production>, A: string)
    ensures multiset(LeftRecs(ps, A)) + multiset(Others(ps, A)) == multiset(ps)
  {
    if ps != [] {
      SplitMultiset(ps[1..], A);
      assert ps == [ps[0]] + ps[1..];
    }
  }

  /** `A' -> α A'` for a left-recursive `A -> A α`. */
  function Tail(A: string, p: Production): Production {
    Production(Prime(A), (if p.rhs == [] then [] else p.rhs[1..]) + [N(Prime(A))])
  }

  /** The productions of `A'`: `A' -> ε` first, then one `A' -> α A'` per
      left-recursive production, in order. */
  function PrimeRules(A: string, lrs: seq<Production>): (r: seq<Production>)
    ensures |r| == |lrs| + 1 && r[0] == Production(Prime(A), [])
    ensures forall k :: 0 <= k < |lrs| ==> r[k + 1] == Tail(A, lrs[k])
  {
    [Production(Prime(A), [])] + seq(|lrs|, k requires 0 <= k < |lrs| => Tail(A, lrs[k]))
  }

  /** `A -> β A'` for a stacked `A -> β`, and `A -> A'` for `A -> ε`. */
  function Rewritten(A: string, q: Production): Production {
    Production(A, q.rhs + [N(Prime(A))])
  }

  /** The new productions of `A`, in the order they are popped. */
  function NewRules(A: string, qs: seq<Production>): (r: seq<Production>)
    ensures |r| == |qs| && forall k :: 0 <= k < |qs| ==> r[k] == Rewritten(A, qs[k])
  {
    seq(|qs|, k requires 0 <= k < |qs| => Rewritten(A, qs[k]))
  }

  // ---------------------------------------------------------------------
  // `list.remove`
  // ---------------------------------------------------------------------

  /** `xs.remove(p)`: drop the first occurrence; `None` stands for the
      `ValueError` raised when `p` is absent. */
  function RemoveFirst(xs: seq<Production>, p: Production): (r: Option<seq<Production>>)
    ensures r.Some? <==> p in xs
    ensures r.Some? ==> multiset(r.value) + multiset{p} == multiset(xs)
  {
    if xs == [] then None
    else if xs[0] == p then
      assert xs == [p] + xs[1..];
      Some(xs[1..])
    else
      match RemoveFirst(xs[1..], p)
      case None => None
      case Some(rest) =>
        assert xs == [xs[0]] + xs[1..];
        Some([xs[0]] + rest)
  }

  /** The first occurrence is the one dropped: the order of the rest is kept. */
  lemma {:induction false} RemoveFirstAt(xs: seq<Production>, p: Production) returns (i: nat)
    requires p in xs
    ensures i < |xs| && xs[i] == p && p !in xs[..i]
    ensures RemoveFirst(xs, p) == Some(xs[..i] + xs[i + 1..])
  {
    if xs[0] == p {
      i := 0;
      assert xs[..0] + xs[1..] == xs[1..];
    } else {
      var tail := xs[1..];
      var j := RemoveFirstAt(tail, p);
      i := j + 1;
      RemoveFirstCons(xs, p, tail[..j] + tail[j + 1..]);
      SpliceCons(xs, j);
    }
  }

  lemma RemoveFirstCons(xs: seq<Production>, p: Production, rest: seq<Production>)
    requires xs != [] && xs[0] != p && RemoveFirst(xs[1..], p) == Some(rest)
    ensures RemoveFirst(xs, p) == Some([xs[0]] + rest)
  {
  }

  lemma SpliceCons<T>(xs: seq<T>, j: nat)
    requires j + 1 < |xs|
    ensures xs[..j + 1] == [xs[0]] + xs[1..][..j]
    ensures [xs[0]] + (xs[1..][..j] + xs[1..][j + 1..]) == xs[..j + 1] + xs[j + 2..]
  {
    assert xs[j + 2..] == xs[1..][j + 1..];
  }

  // ---------------------------------------------------------------------
  // One non-terminal
  // ---------------------------------------------------------------------

  /** No production of `Prime(A)` has head `A`. */
  lemma PrimeRulesHead(A: string, lrs: seq<Production>, p: Production)
    requires p.lhs == A
    ensures multiset(PrimeRules(A, lrs))[p] == 0
  {
    PrimeFresh(A);
  }

  lemma PrimeRulesAppend(A: string, lrs: seq<Production>, p: Production)
    ensures PrimeRules(A, lrs + [p]) == PrimeRules(A, lrs) + [Tail(A, p)]
  {
  }

  /** The state after the first loop has met the left-recursive
      productions `lrs`. */
  predicate FirstState(g0: Grammar, A: string, lrs: seq<Production>, g: Grammar) {
    if lrs == [] then g == g0
    else
      && g.nonTerminals == g0.nonTerminals + [Prime(A)]
      && g.terminals == g0.terminals && g.start == g0.start
      && g.rules == g0.rules[Prime(A) := PrimeRules(A, lrs)]
      && multiset(g.productions) + multiset(lrs) == multiset(g0.productions) + multiset(PrimeRules(A, lrs))
  }

  /** Multiset bookkeeping: removing `q` after adding `add` to a list that
      balanced `l` against `pr` balances `l + q` against `pr + add`. */
  lemma Balance<T>(r: multiset<T>, g: multiset<T>, g0: multiset<T>, l: multiset<T>, pr: multiset<T>, add: multiset<T>, q: multiset<T>)
    requires r + q == g + add && g + l == g0 + pr
    ensures r + (l + q) == g0 + (pr + add)
  {
    forall x ensures (r + (l + q))[x] == (g0 + (pr + add))[x] {
      assert (r + q)[x] == (g + add)[x];
      assert (g + l)[x] == (g0 + pr)[x];
    }
  }

  /** `LeftRecs` of a single production. */
  function One(p: Production, A: string): seq<Production> {
    if LeftRec(p, A) then [p] else []
  }

  /** A remove succeeds exactly while the left-recursive productions met so
      far fit in the original production list. */
  lemma RemoveCount(P0: seq<Production>, P: seq<Production>, lrs: seq<Production>, PR: seq<Production>, p: Production)
    requires multiset(P) + multiset(lrs) == multiset(P0) + multiset(PR)
    requires multiset(PR)[p] == 0 && multiset(lrs) <= multiset(P0)
    ensures p in P <==> multiset(lrs + [p]) <= multiset(P0)
  {
    assert (multiset(P) + multiset(lrs))[p] == (multiset(P0) + multiset(PR))[p];
    assert multiset(lrs + [p]) == multiset(lrs) + multiset{p};
  }

  /** A left-recursive `A -> A α` in the first loop: adds `A'` (the first
      time, with `A' -> ε`), adds `A' -> α A'` and removes the production
      from the production list. */
  method FirstRec(g0: Grammar, A: string, ghost lrs: seq<Production>, p: Production, g: Grammar, changed: bool)
    returns (g': Grammar, ok: bool)
    requires FirstState(g0, A, lrs, g) && (changed <==> lrs != []) && LeftRec(p, A)
    ensures ok ==> FirstState(g0, A, lrs + [p], g')
    ensures p.lhs == A && multiset(lrs) <= multiset(g0.productions) ==> (ok <==> multiset(lrs + [p]) <= multiset(g0.productions))
  {
    var prime := Prime(A);
    ghost var lrs' := lrs + [p];
    PrimeRulesAppend(A, lrs, p);
    g', ok := g, true;
    var base := g.RulesOf(prime);
    if !changed {
      g' := g'.(nonTerminals := g'.nonTerminals + [prime]);
      base := [];
    }
    var added: seq<Production> := [];
    if !changed {
      added := [Production(prime, [])];
    }
    added := added + [Tail(A, p)];
    assert base + added == PrimeRules(A, lrs');
    var prods := g.productions + added;
    if p.lhs == A && multiset(lrs) <= multiset(g0.productions) {
      PrimeRulesHead(A, lrs, p);
      PrimeFresh(A);
      assert p !in added;
      if lrs == [] {
        RemoveCount(g0.productions, g.productions, lrs, [], p);
      } else {
        RemoveCount(g0.productions, g.productions, lrs, PrimeRules(A, lrs), p);
      }
    }
    match RemoveFirst(prods, p)
    case None =>
      ok := false;
    case Some(rest) =>
      g' := g'.(productions := rest, rules := g.rules[prime := base + added]);
      assert multiset(rest) + multiset{p} == multiset(g.productions) + multiset(added);
      assert multiset(lrs') == multiset(lrs) + multiset{p};
      if lrs != [] {
        assert g'.rules == g0.rules[prime := PrimeRules(A, lrs')];
        assert multiset(PrimeRules(A, lrs')) == multiset(PrimeRules(A, lrs)) + multiset(added);
        Balance(multiset(rest), multiset(g.productions), multiset(g0.productions), multiset(lrs),
                multiset(PrimeRules(A, lrs)), multiset(added), multiset{p});
      } else {
        assert added == PrimeRules(A, lrs');
      }
  }

  /** One production of the first loop; a production that is not
      left-recursive is only stacked. */
  method FirstIter(g0: Grammar, A: string, ghost lrs: seq<Production>, p: Production, g: Grammar, changed: bool)
    returns (g': Grammar, changed': bool, ok: bool)
    requires FirstState(g0, A, lrs, g) && (changed <==> lrs != [])
    ensures changed' <==> lrs + One(p, A) != []
    ensures ok ==> FirstState(g0, A, lrs + One(p, A), g')
    ensures p.lhs == A && multiset(lrs) <= multiset(g0.productions) ==> (ok <==> multiset(lrs + One(p, A)) <= multiset(g0.productions))
    ensures !ok ==> LeftRec(p, A)
  {
    if |p.rhs| > 0 && p.rhs[0] == N(A) {
      assert One(p, A) == [p];
      g', ok := FirstRec(g0, A, lrs, p, g, changed);
      changed' := true;
    } else {
      assert lrs + One(p, A) == lrs;
      g', changed', ok := g, changed, true;
    }
  }

  lemma LeftRecsPrefix(ps: seq<Production>, A: string, k: nat)
    requires k <= |ps|
    ensures multiset(LeftRecs(ps[..k], A)) <= multiset(LeftRecs(ps, A))
  {
    assert ps == ps[..k] + ps[k..];
    LeftRecsAppend(ps[..k], ps[k..], A);
  }

  /** The loop invariant of the first loop after `k` productions. */
  predicate FirstInv(g0: Grammar, A: string, k: nat, lrs: seq<Production>, stack: seq<Production>, g: Grammar, changed: bool)
    requires k <= |g0.RulesOf(A)|
  {
    var ps := g0.RulesOf(A);
    && lrs == LeftRecs(ps[..k], A) && stack == Others(ps[..k], A)
    && (changed <==> lrs != [])
    && FirstState(g0, A, lrs, g)
    && (HeadsAre(ps, A) ==> multiset(lrs) <= multiset(g0.productions))
  }

  /** One turn of the first loop: `ok` is false when the `remove` raised,
      which happens, for lists headed by `A`, only when the left-recursive
      productions outnumber their copies in the production list. */
  method FirstBody(g0: Grammar, A: string, k: nat, ghost lrs: seq<Production>, stack: seq<Production>, g: Grammar, changed: bool)
    returns (ghost lrs': seq<Production>, stack': seq<Production>, g': Grammar, changed': bool, ok: bool)
    requires k < |g0.RulesOf(A)| && FirstInv(g0, A, k, lrs, stack, g, changed)
    ensures ok ==> FirstInv(g0, A, k + 1, lrs', stack', g', changed')
    ensures !ok && HeadsAre(g0.RulesOf(A), A) ==> !(multiset(LeftRecs(g0.RulesOf(A), A)) <= multiset(g0.productions))
    ensures !ok ==> LeftRec(g0.RulesOf(A)[k], A)
  {
    var ps := g0.RulesOf(A);
    var p := ps[k];
    assert ps[..k + 1] == ps[..k] + [p];
    LeftRecsAppend(ps[..k], [p], A);
    assert LeftRecs([p], A) == One(p, A);
    if HeadsAre(ps, A) {
      assert p in ps;
    }
    g', changed', ok := FirstIter(g0, A, lrs, p, g, changed);
    if !ok && HeadsAre(ps, A) {
      LeftRecsPrefix(ps, A, k + 1);
    }
    lrs' := lrs + One(p, A);
    stack' := stack + if LeftRec(p, A) then [] else [p];
  }

  /** The first loop, over `nt.productions`.  `ok` is false when a
      `remove` raised. */
  method FirstLoop(g0: Grammar, A: string) returns (g: Grammar, changed: bool, stack: seq<Production>, ok: bool)
    ensures ok ==> stack == Others(g0.RulesOf(A), A)
    ensures ok ==> (changed <==> LeftRecs(g0.RulesOf(A), A) != [])
    ensures ok ==> FirstState(g0, A, LeftRecs(g0.RulesOf(A), A), g)
    ensures HeadsAre(g0.RulesOf(A), A) ==> (ok <==> multiset(LeftRecs(g0.RulesOf(A), A)) <= multiset(g0.productions))
    ensures LeftRecs(g0.RulesOf(A), A) == [] ==> ok
  {
    var ps := g0.RulesOf(A);
    LeftRecsMembers(ps, A);
    g, changed, stack, ok := g0, false, [], true;
    ghost var lrs: seq<Production> := [];
    for k := 0 to |ps|
      invariant FirstInv(g0, A, k, lrs, stack, g, changed)
    {
      lrs, stack, g, changed, ok := FirstBody(g0, A, k, lrs, stack, g, changed);
      if !ok {
        return;
      }
    }
    assert ps[..|ps|] == ps;
  }

  // ---------------------------------------------------------------------
  // The second loop: pop the stacked productions
  // ---------------------------------------------------------------------

  /** The state once the productions `os[m..]` have been popped, `A`'s list
      having been emptied first. */
  predicate SecondState(g0: Grammar, A: string, lrs: seq<Production>, os: seq<Production>, m: nat, g: Grammar)
    requires m <= |os|
  {
    && g.nonTerminals == g0.nonTerminals + [Prime(A)]
    && g.terminals == g0.terminals && g.start == g0.start
    && g.rules == g0.rules[Prime(A) := PrimeRules(A, lrs)][A := NewRules(A, Reverse(os[m..]))]
    && multiset(g.productions) + multiset(lrs) + multiset(NonEpsilon(os[m..]))
       == multiset(g0.productions) + multiset(PrimeRules(A, lrs)) + multiset(NewRules(A, Reverse(os[m..])))
  }

  /** A production still owed to the removals is in the list. */
  lemma RemovePresent<T>(P: multiset<T>, L: multiset<T>, E: multiset<T>, P0: multiset<T>, PR: multiset<T>, Nw: multiset<T>, q: T)
    requires P + L + E == P0 + PR + Nw
    requires L + (multiset{q} + E) <= P0
    ensures q in P
  {
    assert (P + L + E)[q] == (P0 + PR + Nw)[q];
    assert (L + (multiset{q} + E))[q] <= P0[q];
  }

  /** Multiset bookkeeping of one pop: `rest + {q} == P` when `q` was
      removed (`q` is empty for `A -> ε`), and `r` is added. */
  lemma PopBalance<T>(P: multiset<T>, rest: multiset<T>, q: multiset<T>, r: multiset<T>,
                      L: multiset<T>, E: multiset<T>, M0: multiset<T>, PR: multiset<T>, Nw: multiset<T>)
    requires P + L + E == M0 + PR + Nw
    requires rest + q == P
    ensures (rest + r) + L + (q + E) == M0 + PR + (Nw + r)
  {
    forall x ensures ((rest + r) + L + (q + E))[x] == (M0 + PR + (Nw + r))[x] {
      assert (P + L + E)[x] == (M0 + PR + Nw)[x];
      assert (rest + q)[x] == P[x];
    }
  }

  lemma PopShape(A: string, os: seq<Production>, m: nat)
    requires 0 < m <= |os|
    ensures os[m - 1..] == [os[m - 1]] + os[m..]
    ensures Reverse(os[m - 1..]) == Reverse(os[m..]) + [os[m - 1]]
    ensures NewRules(A, Reverse(os[m - 1..])) == NewRules(A, Reverse(os[m..])) + [Rewritten(A, os[m - 1])]
    ensures NonEpsilon(os[m - 1..]) == (if os[m - 1].IsEpsilon() then [] else [os[m - 1]]) + NonEpsilon(os[m..])
  {
    assert os[m - 1..] == [os[m - 1]] + os[m..];
    ReverseAppend([os[m - 1]], os[m..]);
  }

  /** Suffixes of `os` have fewer non-empty bodies. */
  lemma NonEpsilonSuffix(os: seq<Production>, m: nat)
    requires m <= |os|
    ensures multiset(NonEpsilon(os[m..])) <= multiset(NonEpsilon(os))
  {
    var a, b := os[..m], os[m..];
    assert a + b == os;
    NonEpsilonAppend(a, b);
    assert multiset(NonEpsilon(a) + NonEpsilon(b)) == multiset(NonEpsilon(a)) + multiset(NonEpsilon(b));
  }

  /** One pop: `A -> ε` adds `A -> A'` (and stays in the production list);
      any other `A -> β` is removed and `A -> β A'` added. */
  method SecondBody(g0: Grammar, A: string, ghost lrs: seq<Production>, os: seq<Production>, m: nat, g: Grammar)
    returns (g': Grammar, ok: bool)
    requires 0 < m <= |os| && SecondState(g0, A, lrs, os, m, g)
    ensures ok ==> SecondState(g0, A, lrs, os, m - 1, g')
    ensures multiset(lrs) + multiset(NonEpsilon(os[m - 1..])) <= multiset(g0.productions) ==> ok
  {
    var q := os[m - 1];
    PopShape(A, os, m);
    var r := Rewritten(A, q);
    ghost var done := Reverse(os[m..]);
    ghost var E := multiset(NonEpsilon(os[m..]));
    ghost var Q: multiset<Production> := if q.IsEpsilon() then multiset{} else multiset{q};
    assert multiset(NonEpsilon(os[m - 1..])) == Q + E;
    g', ok := g, true;
    var prods := g.productions;
    if !q.IsEpsilon() {
      if multiset(lrs) + (Q + E) <= multiset(g0.productions) {
        RemovePresent(multiset(g.productions), multiset(lrs), E, multiset(g0.productions),
                      multiset(PrimeRules(A, lrs)), multiset(NewRules(A, done)), q);
      }
      match RemoveFirst(prods, q)
      case None =>
        ok := false;
        return;
      case Some(rest) =>
        prods := rest;
    }
    assert multiset(prods) + Q == multiset(g.productions);
    PopBalance(multiset(g.productions), multiset(prods), Q, multiset{r}, multiset(lrs), E,
               multiset(g0.productions), multiset(PrimeRules(A, lrs)), multiset(NewRules(A, done)));
    g' := g.(productions := prods + [r], rules := g.rules[A := g.RulesOf(A) + [r]]);
    assert g.RulesOf(A) == NewRules(A, done) by {
      PrimeFresh(A);
    }
    assert g'.rules == g0.rules[Prime(A) := PrimeRules(A, lrs)][A := NewRules(A, Reverse(os[m - 1..]))];
    assert multiset(NewRules(A, Reverse(os[m - 1..]))) == multiset(NewRules(A, done)) + multiset{r};
  }


  /** The state of the second loop: `stack` is what is left of `os`. */
  predicate Popping(g0: Grammar, A: string, lrs: seq<Production>, os: seq<Production>, stack: seq<Production>, g: Grammar) {
    |stack| <= |os| && stack == os[..|stack|] && SecondState(g0, A, lrs, os, |stack|, g)
  }

  /** Emptying `A`'s list starts the second loop. */
  lemma SecondStart(g0: Grammar, A: string, lrs: seq<Production>, os: seq<Production>, g1: Grammar)
    requires lrs != [] && FirstState(g0, A, lrs, g1)
    ensures Popping(g0, A, lrs, os, os, g1.(rules := g1.rules[A := []]))
  {
    var g := g1.(rules := g1.rules[A := []]);
    assert os[|os|..] == [] && os[..|os|] == os;
    assert g.rules == g0.rules[Prime(A) := PrimeRules(A, lrs)][A := NewRules(A, Reverse(os[|os|..]))];
  }

  /** The `while changed and len(stack)` loop. */
  method SecondLoop(g0: Grammar, A: string, ghost lrs: seq<Production>, os: seq<Production>, g1: Grammar)
    returns (g: Grammar, ok: bool)
    requires lrs != [] && FirstState(g0, A, lrs, g1)
    ensures ok ==> SecondState(g0, A, lrs, os, 0, g)
    ensures multiset(lrs) + multiset(NonEpsilon(os)) <= multiset(g0.productions) ==> ok
  {
    g, ok := g1.(rules := g1.rules[A := []]), true;
    SecondStart(g0, A, lrs, os, g1);
    var stack := os;
    while |stack| > 0
      invariant Popping(g0, A, lrs, os, stack, g)
    {
      var m := |stack|;
      NonEpsilonSuffix(os, m - 1);
      var g', ok' := SecondBody(g0, A, lrs, os, m, g);
      if !ok' {
        ok := false;
        return;
      }
      g := g';
      stack := stack[..m - 1];
      assert stack == os[..m - 1];
    }
  }

  /** The result of the rewriting of `A` when it has left-recursive
      productions `lrs` and other productions `os`: `A'` is appended to the
      non-terminals, `A'` lists `A' -> ε` and the `A' -> α A'`, `A` lists
      the `A -> β A'` in popping order, and the production list loses the
      left-recursive productions and the non-empty `A -> β` and gains the
      productions of `A'` and the new ones of `A`. */
  predicate Rewrote(g0: Grammar, A: string, g: Grammar) {
    var ps := g0.RulesOf(A);
    var lrs := LeftRecs(ps, A);
    var os := Others(ps, A);
    && g.nonTerminals == g0.nonTerminals + [Prime(A)]
    && g.terminals == g0.terminals && g.start == g0.start
    && g.rules == g0.rules[Prime(A) := PrimeRules(A, lrs)][A := NewRules(A, Reverse(os))]
    && multiset(g.productions) + multiset(lrs) + multiset(NonEpsilon(os))
       == multiset(g0.productions) + multiset(PrimeRules(A, lrs)) + multiset(NewRules(A, Reverse(os)))
  }

  /** The body of the outer loop for one non-terminal `A`; `ok` is false
      when a `remove` raised. */
  method RemoveImmediate(g0: Grammar, A: string) returns (g: Grammar, ok: bool)
    ensures LeftRecs(g0.RulesOf(A), A) == [] ==> ok && g == g0
    ensures ok && LeftRecs(g0.RulesOf(A), A) != [] ==> Rewrote(g0, A, g)
    ensures HeadsAre(g0.RulesOf(A), A) && multiset(LeftRecs(g0.RulesOf(A), A)) + multiset(NonEpsilon(Others(g0.RulesOf(A), A))) <= multiset(g0.productions) ==> ok
  {
    var changed, stack;
    g, changed, stack, ok := FirstLoop(g0, A);
    if !ok {
      return;
    }
    if changed {
      g, ok := SecondLoop(g0, A, LeftRecs(g0.RulesOf(A), A), stack, g);
    }
  }

  // ---------------------------------------------------------------------
  // What one rewriting leaves
  // ---------------------------------------------------------------------

  /** No production of `A` is left-recursive. */
  predicate Clean(g: Grammar, A: string) {
    forall p :: p in g.RulesOf(A) ==> !LeftRec(p, A)
  }

  /** A list without left-recursive productions has nothing to rewrite. */
  lemma {:induction false} CleanNoLeftRecs(ps: seq<Production>, A: string)
    requires forall p :: p in ps ==> !LeftRec(p, A)
    ensures LeftRecs(ps, A) == []
  {
    if ps != [] {
      assert ps[0] in ps;
      CleanNoLeftRecs(ps[1..], A);
    }
  }

  /** After the rewriting, every production of `A` is `A -> β A'` with `β`
      not starting with `A`: the immediate left recursion on `A` is gone, and
      the lists of the other non-terminals but `A'` are as they were. */
  lemma RewroteClean(g0: Grammar, A: string, g: Grammar)
    requires Rewrote(g0, A, g)
    ensures Clean(g, A)
    ensures forall p :: p in g.RulesOf(A) ==> p.lhs == A && |p.rhs| > 0 && p.rhs[|p.rhs| - 1] == N(Prime(A))
    ensures forall X :: X != A && X != Prime(A) ==> g.RulesOf(X) == g0.RulesOf(X)
  {
    var os := Others(g0.RulesOf(A), A);
    LeftRecsMembers(g0.RulesOf(A), A);
    PrimeFresh(A);
    forall p | p in g.RulesOf(A)
      ensures p.lhs == A && |p.rhs| > 0 && p.rhs[|p.rhs| - 1] == N(Prime(A)) && !LeftRec(p, A)
    {
      var k :| 0 <= k < |os| && p == NewRules(A, Reverse(os))[k];
      var q := os[|os| - 1 - k];
      assert q in os && p == Rewritten(A, q);
      if q.rhs != [] {
        assert p.rhs[0] == q.rhs[0];
      }
    }
  }

  /** `A' -> α A'` ends in `A'`, and starts with `A'` exactly when `α` is
      empty or starts with `A'`. */
  lemma TailShape(A: string, q: Production)
    ensures Tail(A, q).lhs == Prime(A) && |Tail(A, q).rhs| > 0
    ensures Tail(A, q).rhs[|Tail(A, q).rhs| - 1] == N(Prime(A))
    ensures LeftRec(Tail(A, q), Prime(A)) <==> |q.rhs| <= 1 || q.rhs[1] == N(Prime(A))
  {
    if |q.rhs| == 1 {
      assert q.rhs[1..] == [];
    }
  }

  /** The productions of `A'`: `A' -> ε` and bodies ending in `A'`.  One of
      them is left-recursive on `A'` only when `A -> A` or `A -> A A' ...` was
      among the left-recursive productions. */
  lemma PrimeRulesShape(A: string, lrs: seq<Production>)
    requires forall q :: q in lrs ==> LeftRec(q, A)
    ensures forall p :: p in PrimeRules(A, lrs) ==> p.lhs == Prime(A) && (p.rhs == [] || p.rhs[|p.rhs| - 1] == N(Prime(A)))
    ensures forall p :: p in PrimeRules(A, lrs) && LeftRec(p, Prime(A)) ==>
      exists q :: q in lrs && (q.rhs == [N(A)] || (|q.rhs| > 1 && q.rhs[1] == N(Prime(A))))
  {
    var r := PrimeRules(A, lrs);
    forall p | p in r
      ensures p.lhs == Prime(A) && (p.rhs == [] || p.rhs[|p.rhs| - 1] == N(Prime(A)))
      ensures LeftRec(p, Prime(A)) ==> exists q :: q in lrs && (q.rhs == [N(A)] || (|q.rhs| > 1 && q.rhs[1] == N(Prime(A))))
    {
      var k :| 0 <= k < |r| && r[k] == p;
      if k > 0 {
        var q := lrs[k - 1];
        assert p == Tail(A, q) && q in lrs;
        TailShape(A, q);
        if |q.rhs| == 1 {
          assert q.rhs == [q.rhs[0]];
        }
      }
    }
  }

  /** `A -> A` gives `A' -> A'`, which the outer loop meets again when it
      reaches `A'`: each new non-terminal makes the next one, without end. */
  lemma SelfLoopRepeats(A: string, lrs: seq<Production>)
    requires Production(A, [N(A)]) in lrs
    ensures Production(Prime(A), [N(Prime(A))]) in PrimeRules(A, lrs)
    ensures LeftRec(Production(Prime(A), [N(Prime(A))]), Prime(A))
  {
    var k :| 0 <= k < |lrs| && lrs[k] == Production(A, [N(A)]);
    assert lrs[k].rhs[1..] == [];
    assert PrimeRules(A, lrs)[k + 1] == Tail(A, lrs[k]) == Production(Prime(A), [N(Prime(A))]);
  }

  // ---------------------------------------------------------------------
  // The rewriting as a function
  // ---------------------------------------------------------------------

  /** A grammar with its production list taken up to order. */
  datatype Shape = Shape(
    nonTerminals: seq<string>,
    terminals: seq<string>,
    productions: multiset<Production>,
    rules: map<string, seq<Production>>,
    start: string)
  {
    function RulesOf(A: string): seq<Production> {
      if A in rules then rules[A] else []
    }
  }

  function ShapeOf(g: Grammar): Shape {
    Shape(g.nonTerminals, g.terminals, multiset(g.productions), g.rules, g.start)
  }

  /** Every list `nt.productions` is headed by its non-terminal and occurs,
      with its repetitions, in the production list, as `Add_Production`
      leaves them. */
  ghost predicate Registered(g: Grammar) {
    forall X :: RegisteredAt(g, X)
  }

  predicate RegisteredAt(g: Grammar, X: string) {
    HeadsAre(g.RulesOf(X), X) && multiset(g.RulesOf(X)) <= multiset(g.productions)
  }

  /** One turn of the outer loop on `A`: nothing when `A` has no
      left-recursive production, and otherwise `A'` is appended, `A'` and `A`
      get their new lists, and the production list trades the left-recursive
      productions and the non-empty others for the new ones. */
  function Turn(s: Shape, A: string): Shape {
    var ps := s.RulesOf(A);
    var lrs := LeftRecs(ps, A);
    var os := Others(ps, A);
    if lrs == [] then s
    else
      Shape(s.nonTerminals + [Prime(A)], s.terminals,
            (s.productions - (multiset(lrs) + multiset(NonEpsilon(os))))
              + (multiset(PrimeRules(A, lrs)) + multiset(NewRules(A, Reverse(os)))),
            s.rules[Prime(A) := PrimeRules(A, lrs)][A := NewRules(A, Reverse(os))],
            s.start)
  }

  /** The turns of the outer loop from position `i` of the growing
      non-terminal list; `None` when more than `fuel` turns are needed. */
  function Passes(s: Shape, i: nat, fuel: nat): Option<Shape>
    decreases fuel - i
  {
    if i >= |s.nonTerminals| then Some(s)
    else if i >= fuel then None
    else Passes(Turn(s, s.nonTerminals[i]), i + 1, fuel)
  }

  lemma {:induction false} NonEpsilonFewer(ps: seq<Production>)
    ensures multiset(NonEpsilon(ps)) <= multiset(ps)
  {
    if ps != [] {
      NonEpsilonFewer(ps[1..]);
      assert ps == [ps[0]] + ps[1..];
    }
  }

  /** `P + L == Q + Add` with `L` inside `Q` leaves `P == Q - L + Add`. */
  lemma Cancel<T>(P: multiset<T>, L1: multiset<T>, L2: multiset<T>, Q: multiset<T>, A1: multiset<T>, A2: multiset<T>)
    requires P + L1 + L2 == Q + A1 + A2 && L1 + L2 <= Q
    ensures P == (Q - (L1 + L2)) + (A1 + A2)
  {
    forall x ensures P[x] == ((Q - (L1 + L2)) + (A1 + A2))[x] {
      assert (P + L1 + L2)[x] == (Q + A1 + A2)[x];
    }
  }

  /** In a registered grammar, what one rewriting removes is in the
      production list, so no `remove` raises. */
  lemma RegisteredOwed(g: Grammar, A: string)
    requires Registered(g)
    ensures HeadsAre(g.RulesOf(A), A)
    ensures multiset(LeftRecs(g.RulesOf(A), A)) + multiset(NonEpsilon(Others(g.RulesOf(A), A))) <= multiset(g.productions)
  {
    var ps := g.RulesOf(A);
    SplitMultiset(ps, A);
    NonEpsilonFewer(Others(ps, A));
    assert RegisteredAt(g, A);
  }

  /** The rewriting of a registered grammar is `Turn`. */
  lemma RewroteTurn(g0: Grammar, A: string, g: Grammar)
    requires Registered(g0) && LeftRecs(g0.RulesOf(A), A) != [] && Rewrote(g0, A, g)
    ensures ShapeOf(g) == Turn(ShapeOf(g0), A)
  {
    var ps := g0.RulesOf(A);
    var lrs := LeftRecs(ps, A);
    var os := Others(ps, A);
    RegisteredOwed(g0, A);
    Cancel(multiset(g.productions), multiset(lrs), multiset(NonEpsilon(os)), multiset(g0.productions),
           multiset(PrimeRules(A, lrs)), multiset(NewRules(A, Reverse(os))));
  }

  /** A list headed by `X` that fits in `P0` still fits once productions
      headed by `A` are taken away and others added. */
  lemma KeepsOthers(R: seq<Production>, X: string, P0: multiset<Production>, A: string,
                    L1: seq<Production>, L2: seq<Production>, Add: multiset<Production>, P: multiset<Production>)
    requires HeadsAre(R, X) && multiset(R) <= P0
    requires X != A && HeadsAre(L1, A) && HeadsAre(L2, A)
    requires P == (P0 - (multiset(L1) + multiset(L2))) + Add
    ensures multiset(R) <= P
  {
    forall p | p in R ensures multiset(R)[p] <= P[p] {
      assert p !in L1 && p !in L2;
    }
  }

  /** What the rewriting removes is headed by `A`. */
  lemma RemovedHeads(g0: Grammar, A: string)
    requires Registered(g0)
    ensures HeadsAre(LeftRecs(g0.RulesOf(A), A), A)
    ensures HeadsAre(NonEpsilon(Others(g0.RulesOf(A), A)), A)
  {
    var ps := g0.RulesOf(A);
    assert RegisteredAt(g0, A);
    LeftRecsMembers(ps, A);
    NonEpsilonFewer(Others(ps, A));
    forall p | p in NonEpsilon(Others(ps, A)) ensures p.lhs == A {
      assert multiset(NonEpsilon(Others(ps, A)))[p] > 0;
      assert p in Others(ps, A);
    }
  }

  lemma AddedFits<T>(P: multiset<T>, Q: multiset<T>, A1: multiset<T>, A2: multiset<T>)
    requires P == Q + (A1 + A2)
    ensures A1 <= P && A2 <= P
  {
  }

  lemma NewHeads(A: string, lrs: seq<Production>, os: seq<Production>)
    ensures HeadsAre(PrimeRules(A, lrs), Prime(A)) && HeadsAre(NewRules(A, os), A)
  {
    forall p | p in PrimeRules(A, lrs) ensures p.lhs == Prime(A) {
      var k :| 0 <= k < |PrimeRules(A, lrs)| && PrimeRules(A, lrs)[k] == p;
    }
  }

  /** Taking away productions headed by `A` and giving `A` and `A'` new
      lists of their own keeps a grammar registered. */
  lemma RegisteredAfter(g0: Grammar, g: Grammar, A: string, L1: seq<Production>, L2: seq<Production>,
                        PR: seq<Production>, NR: seq<Production>)
    requires Registered(g0) && Prime(A) != A
    requires HeadsAre(L1, A) && HeadsAre(L2, A) && HeadsAre(PR, Prime(A)) && HeadsAre(NR, A)
    requires g.rules == g0.rules[Prime(A) := PR][A := NR]
    requires multiset(g.productions) == (multiset(g0.productions) - (multiset(L1) + multiset(L2))) + (multiset(PR) + multiset(NR))
    ensures Registered(g)
  {
    var P := multiset(g.productions);
    AddedFits(P, multiset(g0.productions) - (multiset(L1) + multiset(L2)), multiset(PR), multiset(NR));
    forall X ensures RegisteredAt(g, X) {
      if X == A {
        assert g.RulesOf(X) == NR;
      } else if X == Prime(A) {
        assert g.RulesOf(X) == PR;
      } else {
        assert g.RulesOf(X) == g0.RulesOf(X);
        assert RegisteredAt(g0, X);
        KeepsOthers(g0.RulesOf(X), X, multiset(g0.productions), A, L1, L2, multiset(PR) + multiset(NR), P);
      }
    }
  }

  /** The rewriting of a registered grammar leaves it registered. */
  lemma TurnRegistered(g0: Grammar, A: string, g: Grammar)
    requires Registered(g0) && LeftRecs(g0.RulesOf(A), A) != [] && ShapeOf(g) == Turn(ShapeOf(g0), A)
    ensures Registered(g)
  {
    var ps := g0.RulesOf(A);
    var lrs := LeftRecs(ps, A);
    var os := Others(ps, A);
    assert multiset(g.productions) == (multiset(g0.productions) - (multiset(lrs) + multiset(NonEpsilon(os))))
      + (multiset(PrimeRules(A, lrs)) + multiset(NewRules(A, Reverse(os))));
    assert g.rules == g0.rules[Prime(A) := PrimeRules(A, lrs)][A := NewRules(A, Reverse(os))];
    RemovedHeads(g0, A);
    PrimeFresh(A);
    NewHeads(A, lrs, Reverse(os));
    RegisteredAfter(g0, g, A, lrs, NonEpsilon(os), PrimeRules(A, lrs), NewRules(A, Reverse(os)));
  }

  /** On a registered grammar the body of the outer loop never raises, and
      it does what `Turn` says. */
  lemma RemoveTurn(g0: Grammar, A: string, g: Grammar, ok: bool)
    requires Registered(g0)
    requires LeftRecs(g0.RulesOf(A), A) == [] ==> ok && g == g0
    requires ok && LeftRecs(g0.RulesOf(A), A) != [] ==> Rewrote(g0, A, g)
    requires HeadsAre(g0.RulesOf(A), A) && multiset(LeftRecs(g0.RulesOf(A), A)) + multiset(NonEpsilon(Others(g0.RulesOf(A), A))) <= multiset(g0.productions) ==> ok
    ensures ok && Registered(g) && ShapeOf(g) == Turn(ShapeOf(g0), A)
  {
    RegisteredOwed(g0, A);
    if LeftRecs(g0.RulesOf(A), A) != [] {
      RewroteTurn(g0, A, g);
      TurnRegistered(g0, A, g);
    }
  }

  /** `E -> E + T | T`, `T -> i`, for any two names `e` (for `E`) and `t` (for `T`). */
  function ExprGrammar(e: string, t: string): Grammar {
    var rec := Production(e, [N(e), T("+"), N(t)]);
    var unit := Production(e, [N(t)]);
    var ti := Production(t, [T("i")]);
    Grammar([e, t], ["+", "i"], [rec, unit, ti], map[e := [rec, unit], t := [ti]], e)
  }

  /** `E -> T E'`, `E' -> ε | + T E'`, `T -> i`. */
  function ExprRewritten(e: string, t: string): Shape {
    var ePrime := Prime(e);
    var eps := Production(ePrime, []);
    var tail := Production(ePrime, [T("+"), N(t), N(ePrime)]);
    var newE := Production(e, [N(t), N(ePrime)]);
    var ti := Production(t, [T("i")]);
    Shape([e, t, ePrime], ["+", "i"], multiset{ti, eps, tail, newE},
          map[e := [newE], t := [ti], ePrime := [eps, tail]], e)
  }

  lemma ExprRegistered(e: string, t: string)
    requires e != t
    ensures Registered(ExprGrammar(e, t))
  {
    var g := ExprGrammar(e, t);
    forall X ensures RegisteredAt(g, X) {
      if X == e {
        assert multiset(g.RulesOf(X)) == multiset{g.productions[0], g.productions[1]};
      } else if X == t {
        assert multiset(g.RulesOf(X)) == multiset{g.productions[2]};
      }
    }
  }

  /** What the turn on `E` computes from `E -> E + T | T`. */
  lemma ExprParts(e: string, t: string)
    requires e != t
    ensures var rec := Production(e, [N(e), T("+"), N(t)]);
            var unit := Production(e, [N(t)]);
            && LeftRecs([rec, unit], e) == [rec] && Others([rec, unit], e) == [unit]
            && PrimeRules(e, [rec]) == [Production(Prime(e), []), Production(Prime(e), [T("+"), N(t), N(Prime(e))])]
            && NewRules(e, Reverse([unit])) == [Production(e, [N(t), N(Prime(e))])]
            && NonEpsilon([unit]) == [unit]
  {
    var rec := Production(e, [N(e), T("+"), N(t)]);
    var unit := Production(e, [N(t)]);
    assert !LeftRec(unit, e) && LeftRec(rec, e);
    assert LeftRecs([unit], e) == [] && Others([unit], e) == [unit] by {
      assert [unit][1..] == [];
      assert LeftRecs([], e) == [] && Others([], e) == [];
    }
    assert LeftRecs([rec, unit], e) == [rec] && Others([rec, unit], e) == [unit] by {
      assert [rec, unit][1..] == [unit];
    }
    assert Tail(e, rec) == Production(Prime(e), [T("+"), N(t), N(Prime(e))]);
    assert Reverse([unit]) == [unit];
    assert Rewritten(e, unit) == Production(e, [N(t), N(Prime(e))]);
  }

  lemma MapShuffle<K, V>(e: K, t: K, p: K, a: V, b: V, c: V, d: V)
    requires e != t && p != e && p != t
    ensures map[e := a, t := b][p := c][e := d] == map[e := d, t := b, p := c]
  {
  }

  /** `Turn` on a non-terminal with left-recursive productions, in terms of
      the lists it computes. */
  lemma TurnAt(s: Shape, A: string, lrs: seq<Production>, os: seq<Production>, PR: seq<Production>, NR: seq<Production>)
    requires LeftRecs(s.RulesOf(A), A) == lrs && lrs != [] && Others(s.RulesOf(A), A) == os
    requires PrimeRules(A, lrs) == PR && NewRules(A, Reverse(os)) == NR
    ensures Turn(s, A) == Shape(s.nonTerminals + [Prime(A)], s.terminals,
                                (s.productions - (multiset(lrs) + multiset(NonEpsilon(os)))) + (multiset(PR) + multiset(NR)),
                                s.rules[Prime(A) := PR][A := NR], s.start)
  {
  }

  /** The turn on `E`, before the lists are tidied. */
  lemma ExprTurnRaw(e: string, t: string)
    requires e != t
    ensures var rec := Production(e, [N(e), T("+"), N(t)]);
            var unit := Production(e, [N(t)]);
            var ti := Production(t, [T("i")]);
            var PR := [Production(Prime(e), []), Production(Prime(e), [T("+"), N(t), N(Prime(e))])];
            var NR := [Production(e, [N(t), N(Prime(e))])];
            Turn(ShapeOf(ExprGrammar(e, t)), e)
              == Shape([e, t] + [Prime(e)], ["+", "i"],
                       (multiset{rec, unit, ti} - (multiset([rec]) + multiset([unit]))) + (multiset(PR) + multiset(NR)),
                       map[e := [rec, unit], t := [ti]][Prime(e) := PR][e := NR], e)
  {
    var rec := Production(e, [N(e), T("+"), N(t)]);
    var unit := Production(e, [N(t)]);
    var ti := Production(t, [T("i")]);
    var s0 := ShapeOf(ExprGrammar(e, t));
    assert s0 == Shape([e, t], ["+", "i"], multiset{rec, unit, ti}, map[e := [rec, unit], t := [ti]], e);
    ExprParts(e, t);
    TurnAt(s0, e, [rec], [unit], [Production(Prime(e), []), Production(Prime(e), [T("+"), N(t), N(Prime(e))])],
           [Production(e, [N(t), N(Prime(e))])]);
  }

  /** The lists of `ExprTurnRaw`, tidied. */
  lemma ExprTidy(e: string, t: string)
    requires e != t && Prime(e) != t
    ensures var rec := Production(e, [N(e), T("+"), N(t)]);
            var unit := Production(e, [N(t)]);
            var ti := Production(t, [T("i")]);
            var PR := [Production(Prime(e), []), Production(Prime(e), [T("+"), N(t), N(Prime(e))])];
            var NR := [Production(e, [N(t), N(Prime(e))])];
            Shape([e, t] + [Prime(e)], ["+", "i"],
                  (multiset{rec, unit, ti} - (multiset([rec]) + multiset([unit]))) + (multiset(PR) + multiset(NR)),
                  map[e := [rec, unit], t := [ti]][Prime(e) := PR][e := NR], e)
              == ExprRewritten(e, t)
  {
    var ePrime := Prime(e);
    PrimeFresh(e);
    var rec := Production(e, [N(e), T("+"), N(t)]);
    var unit := Production(e, [N(t)]);
    var ti := Production(t, [T("i")]);
    var eps := Production(ePrime, []);
    var tail := Production(ePrime, [T("+"), N(t), N(ePrime)]);
    var newE := Production(e, [N(t), N(ePrime)]);
    MapShuffle(e, t, ePrime, [rec, unit], [ti], [eps, tail], [newE]);
    TradeThree(rec, unit, ti, eps, tail, newE);
    assert [e, t] + [ePrime] == [e, t, ePrime];
    assert ExprRewritten(e, t) == Shape([e, t, ePrime], ["+", "i"], multiset{ti, eps, tail, newE},
                                        map[e := [newE], t := [ti], ePrime := [eps, tail]], e);
  }

  /** The turn on `E` rewrites it. */
  lemma ExprFirstTurn(e: string, t: string)
    requires e != t && Prime(e) != t
    ensures Turn(ShapeOf(ExprGrammar(e, t)), e) == ExprRewritten(e, t)
  {
    ExprTurnRaw(e, t);
    ExprTidy(e, t);
  }

  lemma TradeDrop<T>(a: T, b: T, c: T)
    ensures multiset{a, b, c} - (multiset([a]) + multiset([b])) == multiset{c}
  {
    var A := multiset{a, b, c};
    var B := multiset{a} + multiset{b};
    assert multiset([a]) == multiset{a} && multiset([b]) == multiset{b};
    assert A == B + multiset{c};
    forall v ensures (A - B)[v] == multiset{c}[v] {
      assert A[v] == B[v] + multiset{c}[v];
    }
  }

  lemma TradeGain<T>(c: T, x: T, y: T, z: T)
    ensures multiset{c} + (multiset([x, y]) + multiset([z])) == multiset{c, x, y, z}
  {
  }

  /** Trading `a` and `b` for `x`, `y` and `z` in `{a, b, c}`. */
  lemma TradeThree<T>(a: T, b: T, c: T, x: T, y: T, z: T)
    ensures (multiset{a, b, c} - (multiset([a]) + multiset([b]))) + (multiset([x, y]) + multiset([z])) == multiset{c, x, y, z}
  {
    TradeDrop(a, b, c);
    TradeGain(c, x, y, z);
  }

  /** The turns on `T` and on `E'` change nothing. */
  lemma ExprLaterTurns(e: string, t: string)
    requires e != t && Prime(e) != t
    ensures Turn(ExprRewritten(e, t), t) == ExprRewritten(e, t)
    ensures Turn(ExprRewritten(e, t), Prime(e)) == ExprRewritten(e, t)
  {
    var ePrime := Prime(e);
    PrimeFresh(e);
    var ti := Production(t, [T("i")]);
    var eps := Production(ePrime, []);
    var tail := Production(ePrime, [T("+"), N(t), N(ePrime)]);
    assert ExprRewritten(e, t).RulesOf(t) == [ti];
    assert LeftRecs([ti], t) == [] by {
      assert [ti][1..] == [];
    }
    var s1 := ExprRewritten(e, t);
    assert s1.rules == map[e := [Production(e, [N(t), N(ePrime)])], t := [ti], ePrime := [eps, tail]];
    assert s1.rules[ePrime] == [eps, tail];
    assert s1.RulesOf(ePrime) == [eps, tail];
    assert !LeftRec(tail, ePrime) && !LeftRec(eps, ePrime);
    assert LeftRecs([tail], ePrime) == [] by {
      assert [tail][1..] == [];
    }
    assert LeftRecs([eps, tail], ePrime) == [] by {
      assert [eps, tail][1..] == [tail];
    }
  }

  /** `E -> E + T | T`, `T -> i` is registered, and three turns bring it to
      `E -> T E'`, `E' -> ε | + T E'`, `T -> i`, in which no production is
      left-recursive. */
  lemma ExpressionGrammar(e: string, t: string)
    requires e != t && Prime(e) != t
    ensures Registered(ExprGrammar(e, t))
    ensures Passes(ShapeOf(ExprGrammar(e, t)), 0, 3) == Some(ExprRewritten(e, t))
    ensures forall X :: X in ExprRewritten(e, t).nonTerminals ==>
              forall p :: p in ExprRewritten(e, t).RulesOf(X) ==> !LeftRec(p, X)
  {
    ExprRegistered(e, t);
    ExprFirstTurn(e, t);
    ExprLaterTurns(e, t);
    var s1 := ExprRewritten(e, t);
    assert Passes(s1, 3, 3) == Some(s1);
    assert Passes(s1, 2, 3) == Passes(s1, 3, 3);
    assert Passes(s1, 1, 3) == Passes(s1, 2, 3);
    assert Passes(ShapeOf(ExprGrammar(e, t)), 0, 3) == Passes(s1, 1, 3);
    ExprClean(e, t);
  }

  /** No production of `E -> T E'`, `E' -> ε | + T E'`, `T -> i` is
      left-recursive. */
  lemma ExprClean(e: string, t: string)
    requires e != t && Prime(e) != t
    ensures forall X :: X in ExprRewritten(e, t).nonTerminals ==>
              forall p :: p in ExprRewritten(e, t).RulesOf(X) ==> !LeftRec(p, X)
  {
    var ePrime := Prime(e);
    PrimeFresh(e);
    var ti := Production(t, [T("i")]);
    var eps := Production(ePrime, []);
    var tail := Production(ePrime, [T("+"), N(t), N(ePrime)]);
    var newE := Production(e, [N(t), N(ePrime)]);
    var s1 := ExprRewritten(e, t);
    assert s1 == Shape([e, t, ePrime], ["+", "i"], multiset{ti, eps, tail, newE},
                       map[e := [newE], t := [ti], ePrime := [eps, tail]], e);
    assert s1.RulesOf(e) == [newE] && !LeftRec(newE, e);
    assert s1.RulesOf(t) == [ti] && !LeftRec(ti, t);
    assert s1.RulesOf(ePrime) == [eps, tail] && !LeftRec(eps, ePrime) && !LeftRec(tail, ePrime);
    forall X | X in s1.nonTerminals
      ensures forall p :: p in s1.RulesOf(X) ==> !LeftRec(p, X)
    {
      assert X == e || X == t || X == ePrime;
    }
  }

  // ---------------------------------------------------------------------
  // The outer loop
  // ---------------------------------------------------------------------

  /** The result of the pass: `Failed` when a `remove` raised, `Unfinished`
      when the fuel ran out before the growing non-terminal list was
      exhausted. */
  datatype Outcome = Done(grammar: Grammar) | Failed | Unfinished

  /** After a turn that did not raise, the first `i + 1` non-terminals are
      clean when the first `i` were and the names are distinct. */
  lemma OuterClean(G: Grammar, i: nat, G': Grammar)
    requires i < |G.nonTerminals|
    requires NoDup(G.nonTerminals) ==> forall j :: 0 <= j < i ==> Clean(G, G.nonTerminals[j])
    requires LeftRecs(G.RulesOf(G.nonTerminals[i]), G.nonTerminals[i]) == [] ==> G' == G
    requires LeftRecs(G.RulesOf(G.nonTerminals[i]), G.nonTerminals[i]) != [] ==> Rewrote(G, G.nonTerminals[i], G')
    ensures NoDup(G'.nonTerminals) ==> forall j :: 0 <= j < i + 1 ==> Clean(G', G'.nonTerminals[j])
  {
    var A := G.nonTerminals[i];
    LeftRecsMembers(G.RulesOf(A), A);
    if LeftRecs(G.RulesOf(A), A) != [] {
      RewroteClean(G, A, G');
      if NoDup(G'.nonTerminals) {
        assert G'.nonTerminals == G.nonTerminals + [Prime(A)];
        assert NoDup(G.nonTerminals) by {
          forall a, b | 0 <= a < b < |G.nonTerminals| ensures G.nonTerminals[a] != G.nonTerminals[b] {
            assert G'.nonTerminals[a] != G'.nonTerminals[b];
          }
        }
        forall j | 0 <= j < i + 1 ensures Clean(G', G'.nonTerminals[j]) {
          var X := G'.nonTerminals[j];
          if j < i {
            assert X != A by { assert G'.nonTerminals[i] == A; }
            assert X != Prime(A) by { assert G'.nonTerminals[|G.nonTerminals|] == Prime(A); }
          }
        }
      }
    }
  }

  /** One turn of the outer loop on a grammar whose first `i` non-terminals
      are clean: the turn adds at most `A'`, and the first `i + 1` are clean
      as long as the list has no repeated name. */
  method OuterBody(g0: Grammar, G: Grammar, i: nat) returns (G': Grammar, ok: bool)
    requires g0.nonTerminals <= G.nonTerminals && i < |G.nonTerminals|
    requires G.terminals == g0.terminals && G.start == g0.start
    requires NoDup(G.nonTerminals) ==> forall j :: 0 <= j < i ==> Clean(G, G.nonTerminals[j])
    ensures ok ==> G.nonTerminals <= G'.nonTerminals && G'.terminals == g0.terminals && G'.start == g0.start
    ensures ok && NoDup(G'.nonTerminals) ==> forall j :: 0 <= j < i + 1 ==> Clean(G', G'.nonTerminals[j])
    ensures LeftRecs(G.RulesOf(G.nonTerminals[i]), G.nonTerminals[i]) == [] ==> ok && G' == G
    ensures Registered(G) ==> ok && Registered(G') && ShapeOf(G') == Turn(ShapeOf(G), G.nonTerminals[i])
  {
    var A := G.nonTerminals[i];
    G', ok := RemoveImmediate(G, A);
    if ok {
      OuterClean(G, i, G');
    }
    if Registered(G) {
      RemoveTurn(G, A, G', ok);
    }
  }

  /** The invariant of the outer loop after `i` turns on `G`, started from
      `g`. */
  ghost predicate Outer(g: Grammar, fuel: nat, G: Grammar, i: nat) {
    && i <= |G.nonTerminals| && i <= fuel
    && (Registered(g) ==> Registered(G) && Passes(ShapeOf(g), 0, fuel) == Passes(ShapeOf(G), i, fuel))
    && g.nonTerminals <= G.nonTerminals && G.terminals == g.terminals && G.start == g.start
    && (NoDup(G.nonTerminals) ==> forall j :: 0 <= j < i ==> Clean(G, G.nonTerminals[j]))
    && ((forall X :: X in g.nonTerminals ==> Clean(g, X)) && |g.nonTerminals| <= fuel ==> G == g)
  }

  /** Out of fuel before the last nonterminal: so are the passes. */
  lemma OuterStop(g: Grammar, fuel: nat, G: Grammar, i: nat)
    requires Outer(g, fuel, G, i) && i < |G.nonTerminals| && i == fuel
    ensures Registered(g) ==> Passes(ShapeOf(g), 0, fuel) == None
  {
    assert |ShapeOf(G).nonTerminals| == |G.nonTerminals|;
  }

  /** Past the last nonterminal: the passes end on the grammar reached. */
  lemma OuterEnd(g: Grammar, fuel: nat, G: Grammar, i: nat)
    requires Outer(g, fuel, G, i) && i >= |G.nonTerminals|
    ensures Registered(g) ==> Passes(ShapeOf(g), 0, fuel) == Some(ShapeOf(G))
  {
    assert |ShapeOf(G).nonTerminals| == |G.nonTerminals|;
  }

  /** One turn keeps the invariant, and raises only on a grammar that is
      not registered. */
  lemma OuterKeeps(g: Grammar, fuel: nat, G: Grammar, i: nat, G': Grammar, ok: bool)
    requires Outer(g, fuel, G, i) && i < |G.nonTerminals| && i < fuel
    requires ok ==> G.nonTerminals <= G'.nonTerminals && G'.terminals == g.terminals && G'.start == g.start
    requires ok && NoDup(G'.nonTerminals) ==> forall j :: 0 <= j < i + 1 ==> Clean(G', G'.nonTerminals[j])
    requires LeftRecs(G.RulesOf(G.nonTerminals[i]), G.nonTerminals[i]) == [] ==> ok && G' == G
    requires Registered(G) ==> ok && Registered(G') && ShapeOf(G') == Turn(ShapeOf(G), G.nonTerminals[i])
    ensures Registered(g) ==> ok
    ensures (forall X :: X in g.nonTerminals ==> Clean(g, X)) && |g.nonTerminals| <= fuel ==> ok
    ensures ok ==> Outer(g, fuel, G', i + 1)
  {
    if (forall X :: X in g.nonTerminals ==> Clean(g, X)) && |g.nonTerminals| <= fuel {
      assert G == g && G.nonTerminals[i] in g.nonTerminals;
      assert Clean(g, G.nonTerminals[i]);
      CleanNoLeftRecs(g.RulesOf(G.nonTerminals[i]), G.nonTerminals[i]);
    }
    if Registered(g) {
      assert Passes(ShapeOf(G), i, fuel) == Passes(ShapeOf(G'), i + 1, fuel);
    }
  }

  /** `without_left_recursion`: each non-terminal of the growing list, the
      new `A'` included, is rewritten in turn.  `fuel` bounds the number of
      turns, because the source runs forever on `A -> A` (see
      `SelfLoopRepeats`). */
  method WithoutLeftRecursion(g: Grammar, fuel: nat) returns (r: Outcome)
    ensures r.Done? ==> g.nonTerminals <= r.grammar.nonTerminals
    ensures r.Done? ==> r.grammar.terminals == g.terminals && r.grammar.start == g.start
    ensures r.Done? && NoDup(r.grammar.nonTerminals) ==>
      forall X :: X in r.grammar.nonTerminals ==> Clean(r.grammar, X)
    ensures (forall X :: X in g.nonTerminals ==> Clean(g, X)) && |g.nonTerminals| <= fuel ==> r == Done(g)
    ensures Registered(g) ==> !r.Failed?
    ensures Registered(g) && r.Done? ==> Passes(ShapeOf(g), 0, fuel) == Some(ShapeOf(r.grammar))
    ensures Registered(g) && r.Unfinished? ==> Passes(ShapeOf(g), 0, fuel) == None
  {
    var G := g;
    var i := 0;
    while i < |G.nonTerminals|
      invariant Outer(g, fuel, G, i)
      decreases fuel - i
    {
      if i == fuel {
        OuterStop(g, fuel, G, i);
        return Unfinished;
      }
      var G', ok := OuterBody(g, G, i);
      OuterKeeps(g, fuel, G, i, G', ok);
      if !ok {
        return Failed;
      }
      G, i := G', i + 1;
    }
    OuterEnd(g, fuel, G, i);
    r := Done(G);
  }
}
