/** LR(1) items (cmp/shiftReduceParsers.py, `LR1Parser`): the children an
    item expands into, the compression of a set of items to one item per
    center, the closure of a set of items and the kernel reached on a
    symbol. */
module Lr1Items {
  import opened Grammars
  import opened Containers
  import opened Dataflow

  /** Every subset of `S`. */
  ghost function PowerSet<A>(S: set<A>): set<set<A>>
  {
    if S == {} then {{}}
    else
      var x :| x in S;
      PowerSet(S - {x}) + set M | M in PowerSet(S - {x}) :: M + {x}
  }

  lemma {:induction false} PowerSetMember<A>(S: set<A>, L: set<A>)
    ensures L in PowerSet(S) <==> L <= S
    decreases S
  {
    if S != {} {
      var x :| x in S && PowerSet(S) == PowerSet(S - {x}) + set M | M in PowerSet(S - {x}) :: M + {x};
      if L in PowerSet(S) {
        if L !in PowerSet(S - {x}) {
          var M :| M in PowerSet(S - {x}) && L == M + {x};
          PowerSetMember(S - {x}, M);
        } else {
          PowerSetMember(S - {x}, L);
        }
      }
      if L <= S {
        PowerSetMember(S - {x}, L - {x});
        if x in L {
          assert L == (L - {x}) + {x};
        } else {
          assert L - {x} == L;
        }
      }
    } else if L <= S {
      assert L == {};
    }
  }

  /** The FIRST table the LR(1) construction works with covers every
      symbol of the grammar and every symbol its sets mention. */
  ghost predicate Base(G: Grammar, firsts: Firsts) {
    && WellFormed(G) && Consistent(G)
    && AllSymbols(G) <= firsts.Keys && FirstSymbols(firsts) <= firsts.Keys
  }

  /** An LR(1) item of `G` whose lookaheads are FIRST symbols. */
  ghost predicate Lr1Item(G: Grammar, firsts: Firsts, it: Item) {
    && it.production in G.productions && it.pos <= |it.production.rhs|
    && it.lookaheads <= FirstSymbols(firsts)
  }

  ghost predicate Lr1Set(G: Grammar, firsts: Firsts, C: set<Item>) {
    forall it :: it in C ==> Lr1Item(G, firsts, it)
  }

  predicate PreviewsCovered(firsts: Firsts, it: Item) {
    forall pv :: pv in it.Preview() ==> Covers(firsts, pv)
  }

  lemma ItemCovered(G: Grammar, firsts: Firsts, it: Item)
    requires Base(G, firsts) && Lr1Item(G, firsts, it)
    ensures PreviewsCovered(firsts, it)
  {
    forall pv | pv in it.Preview() ensures Covers(firsts, pv) {
      var la :| la in it.lookaheads && pv == (if it.pos + 1 <= |it.production.rhs| then it.production.rhs[it.pos + 1..] else []) + [la];
      forall s | s in pv ensures s in firsts {
        if s != la {
          assert s in it.production.rhs;
          DeclaredIsSymbol(G, s);
        }
      }
    }
  }

  /** The symbols FIRST gives for the previews in `P`. */
  function LookaheadsOver(firsts: Firsts, P: set<seq<Symbol>>): set<Symbol>
    requires forall pv :: pv in P ==> Covers(firsts, pv)
  {
    set pv, x | pv in P && x in ScanFirst(firsts, pv).items :: x
  }

  lemma LookaheadsOverAdd(firsts: Firsts, P: set<seq<Symbol>>, pv: seq<Symbol>)
    requires forall q :: q in P + {pv} ==> Covers(firsts, q)
    ensures LookaheadsOver(firsts, P + {pv}) == LookaheadsOver(firsts, P) + ScanFirst(firsts, pv).items
  {
  }

  /** The lookaheads of the children of `it`: FIRST of each of its
      previews. */
  function ChildLookaheads(firsts: Firsts, it: Item): set<Symbol>
    requires PreviewsCovered(firsts, it)
  {
    LookaheadsOver(firsts, it.Preview())
  }

  /** What `expand` returns, as a set: nothing at a reduce item or before a
      terminal, else one item at position 0 per production of the next
      non-terminal, each with the children's lookaheads. */
  function Expansion(G: Grammar, firsts: Firsts, it: Item): set<Item>
    requires PreviewsCovered(firsts, it)
  {
    if it.IsReduceItem() || it.production.rhs[it.pos].T? then {}
    else set p | p in G.RulesOf(it.production.rhs[it.pos].name) :: Item(p, 0, ChildLookaheads(firsts, it))
  }

  /** `expand`: the children of an item, in the order of the productions of
      its next non-terminal. */
  method Expand(G: Grammar, firsts: Firsts, it: Item) returns (r: seq<Item>)
    requires PreviewsCovered(firsts, it)
    ensures Elems(r) == Expansion(G, firsts, it)
    ensures it.IsReduceItem() || it.production.rhs[it.pos].T? ==> r == []
    ensures !it.IsReduceItem() && it.production.rhs[it.pos].N? ==>
              |r| == |G.RulesOf(it.production.rhs[it.pos].name)| &&
              forall j :: 0 <= j < |r| ==> r[j] == Item(G.RulesOf(it.production.rhs[it.pos].name)[j], 0, ChildLookaheads(firsts, it))
  {
    if it.IsReduceItem() || it.production.rhs[it.pos].T? {
      r := [];
      assert Elems(r) == {};
      return;
    }
    var lookaheads := PreviewLookaheads(firsts, it);
    var prods := G.RulesOf(it.production.rhs[it.pos].name);
    r := seq(|prods|, j requires 0 <= j < |prods| => Item(prods[j], 0, lookaheads));
    AtStart(prods, lookaheads, r);
  }

  /** The loop of `expand` over the previews of an item. */
  method PreviewLookaheads(firsts: Firsts, it: Item) returns (lookaheads: set<Symbol>)
    requires PreviewsCovered(firsts, it)
    ensures lookaheads == ChildLookaheads(firsts, it)
  {
    lookaheads := {};
    var previews := it.Preview();
    ghost var done: set<seq<Symbol>> := {};
    while previews != {}
      invariant previews + done == it.Preview() && previews !! done
      invariant lookaheads == LookaheadsOver(firsts, done)
      decreases |previews|
    {
      var pv := Pick(previews);
      LookaheadsOverAdd(firsts, done, pv);
      lookaheads := lookaheads + ScanFirst(firsts, pv).items;
      previews := previews - {pv};
      done := done + {pv};
    }
    assert done == it.Preview();
  }

  lemma AtStart(prods: seq<Production>, L: set<Symbol>, r: seq<Item>)
    requires |r| == |prods| && forall j :: 0 <= j < |r| ==> r[j] == Item(prods[j], 0, L)
    ensures Elems(r) == set p | p in prods :: Item(p, 0, L)
  {
    forall p | p in prods ensures Item(p, 0, L) in Elems(r) {
      var j :| 0 <= j < |prods| && prods[j] == p;
      assert r[j] == Item(p, 0, L);
    }
  }

  /** The children of an LR(1) item are LR(1) items at position 0. */
  lemma ExpansionItems(G: Grammar, firsts: Firsts, it: Item)
    requires Base(G, firsts) && Lr1Item(G, firsts, it)
    ensures PreviewsCovered(firsts, it)
    ensures forall e :: e in Expansion(G, firsts, it) ==> Lr1Item(G, firsts, e) && e.pos == 0
  {
    ItemCovered(G, firsts, it);
    if !it.IsReduceItem() && it.production.rhs[it.pos].N? {
      var A := it.production.rhs[it.pos].name;
      assert Declared(G, it.production.rhs[it.pos]) by { assert it.production.rhs[it.pos] in it.production.rhs; }
      forall pv | pv in it.Preview() ensures ScanFirst(firsts, pv).items <= FirstSymbols(firsts) {
        ScanFirstInSymbols(firsts, pv);
      }
      forall p | p in G.RulesOf(A) ensures p in G.productions {
        assert p in WithHead(G.productions, A);
      }
    }
  }

  /** The centers of a set of items. */
  function Centers(items: set<Item>): set<Item> {
    set x | x in items :: x.Center()
  }

  /** The lookaheads of the items of `items` whose center is `c`. */
  function CenterLookaheads(items: set<Item>, c: Item): set<Symbol> {
    set x, y | x in items && x.Center() == c && y in x.lookaheads :: y
  }

  /** What `compress` returns: one item per center, with the lookaheads of
      all the items that share it. */
  function Compressed(items: set<Item>): set<Item> {
    set x | x in items :: Item(x.production, x.pos, CenterLookaheads(items, x.Center()))
  }

  /** Compression keeps the centers, leaves one item per center, and that
      item carries every lookahead of every item with its center and no
      other. */
  lemma CompressedProps(items: set<Item>)
    ensures Centers(Compressed(items)) == Centers(items)
    ensures forall a, b :: a in Compressed(items) && b in Compressed(items) && a.Center() == b.Center() ==> a == b
    ensures forall a, x :: a in Compressed(items) && x in items && x.Center() == a.Center() ==> x.lookaheads <= a.lookaheads
    ensures forall a, y :: a in Compressed(items) && y in a.lookaheads ==>
              exists x :: x in items && x.Center() == a.Center() && y in x.lookaheads
  {
    var r := Compressed(items);
    forall c | c in Centers(items) ensures c in Centers(r) {
      var x :| x in items && x.Center() == c;
      assert Item(x.production, x.pos, CenterLookaheads(items, c)) in r;
    }
    forall a, x | a in r && x in items && x.Center() == a.Center() ensures x.lookaheads <= a.lookaheads {
      var z :| z in items && a == Item(z.production, z.pos, CenterLookaheads(items, z.Center()));
      assert z.Center() == a.Center();
    }
  }

  /** `compress`: the lookaheads are gathered per center in a dictionary,
      then one item per entry is built. */
  method Compress(items: set<Item>) returns (r: set<Item>)
    ensures r == Compressed(items)
  {
    var centers: map<Item, set<Symbol>> := map[];
    var rest := items;
    while rest != {}
      invariant rest <= items
      invariant centers.Keys == Centers(items - rest)
      invariant forall c :: c in centers ==> centers[c] == CenterLookaheads(items - rest, c)
      decreases |rest|
    {
      var item := Pick(rest);
      var c := item.Center();
      var lookaheads := if c in centers then centers[c] else {};
      ghost var done := items - rest;
      centers := centers[c := lookaheads + item.lookaheads];
      rest := rest - {item};
      assert items - rest == done + {item};
      forall d | d in centers ensures centers[d] == CenterLookaheads(done + {item}, d) {
        if d == c {
          assert CenterLookaheads(done + {item}, d) == CenterLookaheads(done, d) + item.lookaheads;
        } else {
          assert CenterLookaheads(done + {item}, d) == CenterLookaheads(done, d);
        }
      }
    }
    assert items - rest == items;
    r := set c | c in centers :: Item(c.production, c.pos, centers[c]);
    forall a | a in Compressed(items) ensures a in r {
      var x :| x in items && a == Item(x.production, x.pos, CenterLookaheads(items, x.Center()));
      assert x.Center() in centers;
    }
  }

  /** The items at position 0 whose lookaheads are FIRST symbols: every
      child any LR(1) item can have is one of them. */
  ghost function Children(G: Grammar, firsts: Firsts): set<Item> {
    set p, L | p in G.productions && L in PowerSet(FirstSymbols(firsts)) :: Item(p, 0, L)
  }

  /** The children of `x`, none when its previews are not covered. */
  ghost function ChildrenOf(G: Grammar, firsts: Firsts, x: Item): set<Item> {
    if PreviewsCovered(firsts, x) then Expansion(G, firsts, x) else {}
  }

  /** Every child of every item of `D`. */
  ghost function StepOver(G: Grammar, firsts: Firsts, D: set<Item>): set<Item> {
    set x, e | x in D && e in ChildrenOf(G, firsts, x) :: e
  }

  lemma StepOverAdd(G: Grammar, firsts: Firsts, D: set<Item>, x: Item)
    ensures StepOver(G, firsts, D + {x}) == StepOver(G, firsts, D) + ChildrenOf(G, firsts, x)
  {
  }

  /** Every child of every item of `C`. */
  ghost function Step(G: Grammar, firsts: Firsts, C: set<Item>): (r: set<Item>)
    requires Base(G, firsts) && Lr1Set(G, firsts, C)
    ensures Lr1Set(G, firsts, r) && r <= Children(G, firsts)
  {
    var r := StepOver(G, firsts, C);
    assert Lr1Set(G, firsts, r) && r <= Children(G, firsts) by {
      forall e | e in r ensures Lr1Item(G, firsts, e) && e in Children(G, firsts) {
        var x :| x in C && e in ChildrenOf(G, firsts, x);
        ExpansionItems(G, firsts, x);
        PowerSetMember(FirstSymbols(firsts), e.lookaheads);
      }
    }
    r
  }

  /** `C` holds the children of each of its items. */
  ghost predicate ExpansionClosed(G: Grammar, firsts: Firsts, C: set<Item>) {
    forall x :: x in C && PreviewsCovered(firsts, x) ==> Expansion(G, firsts, x) <= C
  }

  /** The closure of a set of LR(1) items: it holds them, holds the children
      of each of its items, and lies inside every set that does both. */
  ghost function Lr1Closure(G: Grammar, firsts: Firsts, items: set<Item>): (C: set<Item>)
    requires Base(G, firsts) && Lr1Set(G, firsts, items)
    ensures items <= C && Lr1Set(G, firsts, C) && ExpansionClosed(G, firsts, C)
    ensures forall X :: items <= X && ExpansionClosed(G, firsts, X) ==> C <= X
    decreases |Children(G, firsts) - items|
  {
    var next := items + Step(G, firsts, items);
    if next == items then
      StepClosed(G, firsts, items);
      items
    else
      Shrink(Children(G, firsts), items, next);
      StepBelowAll(G, firsts, items);
      Lr1Closure(G, firsts, next)
  }

  /** A set that holds its own children is closed. */
  lemma StepClosed(G: Grammar, firsts: Firsts, C: set<Item>)
    requires Base(G, firsts) && Lr1Set(G, firsts, C) && Step(G, firsts, C) <= C
    ensures ExpansionClosed(G, firsts, C)
  {
    forall x | x in C && PreviewsCovered(firsts, x) ensures Expansion(G, firsts, x) <= C {
      forall e | e in Expansion(G, firsts, x) ensures e in Step(G, firsts, C) {
        assert e in ChildrenOf(G, firsts, x);
      }
    }
  }

  /** A closed set that holds `C` holds its children. */
  lemma StepBelow(G: Grammar, firsts: Firsts, C: set<Item>, X: set<Item>)
    requires Base(G, firsts) && Lr1Set(G, firsts, C)
    requires C <= X && ExpansionClosed(G, firsts, X)
    ensures Step(G, firsts, C) <= X
  {
    forall e | e in Step(G, firsts, C) ensures e in X {
      var x :| x in C && e in ChildrenOf(G, firsts, x);
    }
  }

  lemma StepBelowAll(G: Grammar, firsts: Firsts, C: set<Item>)
    requires Base(G, firsts) && Lr1Set(G, firsts, C)
    ensures forall X :: C <= X && ExpansionClosed(G, firsts, X) ==> C + Step(G, firsts, C) <= X
  {
    forall X | C <= X && ExpansionClosed(G, firsts, X) ensures C + Step(G, firsts, C) <= X {
      StepBelow(G, firsts, C, X);
    }
  }

  /** Adding a member of `U` leaves fewer members of `U` to add. */
  lemma Shrink<A>(U: set<A>, a: set<A>, b: set<A>)
    requires a <= b && b <= a + U && a != b
    ensures |U - b| < |U - a|
  {
    var e :| e in b && e !in a;
    assert U - b <= U - a - {e};
    SubsetLe(U - b, U - a - {e});
  }

  /** One pass of `closure_lr1`: the children of every item of the
      closure so far. */
  method StepOf(G: Grammar, firsts: Firsts, C: set<Item>) returns (news: set<Item>)
    requires Base(G, firsts) && Lr1Set(G, firsts, C)
    ensures news == Step(G, firsts, C)
  {
    news := {};
    var rest := C;
    while rest != {}
      invariant rest <= C
      invariant news == StepOver(G, firsts, C - rest)
      decreases |rest|
    {
      var item := Pick(rest);
      ItemCovered(G, firsts, item);
      var children := Expand(G, firsts, item);
      ghost var done := C - rest;
      StepOverAdd(G, firsts, done, item);
      news := news + Elems(children);
      rest := rest - {item};
      assert C - rest == done + {item};
    }
    assert C - rest == C;
  }

  /** `closure_lr1`: the closure grows by the children of its items until a
      pass adds nothing, and is then compressed. */
  method ClosureLr1(G: Grammar, firsts: Firsts, items: set<Item>) returns (r: set<Item>)
    requires Base(G, firsts) && Lr1Set(G, firsts, items)
    ensures r == Compressed(Lr1Closure(G, firsts, items))
  {
    ghost var U := Children(G, firsts);
    var closure := items;
    var changed := true;
    while changed
      invariant items <= closure && Lr1Set(G, firsts, closure)
      invariant closure <= Lr1Closure(G, firsts, items)
      invariant !changed ==> closure == Lr1Closure(G, firsts, items)
      decreases |U - closure|, changed
    {
      ghost var closure0 := closure;
      closure, changed := Pass(G, firsts, items, closure);
      if changed {
        StepShrinks(G, firsts, closure0);
      }
    }
    r := Compress(closure);
  }

  /** One turn of the `while changed` loop of `closure_lr1`. */
  method Pass(G: Grammar, firsts: Firsts, items: set<Item>, closure0: set<Item>) returns (closure: set<Item>, changed: bool)
    requires Base(G, firsts) && Lr1Set(G, firsts, items) && Lr1Set(G, firsts, closure0)
    requires items <= closure0 <= Lr1Closure(G, firsts, items)
    ensures closure == closure0 + Step(G, firsts, closure0)
    ensures closure <= Lr1Closure(G, firsts, items) && Lr1Set(G, firsts, closure)
    ensures changed <==> !(Step(G, firsts, closure0) <= closure0)
    ensures !changed ==> closure == closure0 == Lr1Closure(G, firsts, items)
  {
    var news := StepOf(G, firsts, closure0);
    changed := !(news <= closure0);
    PassFacts(G, firsts, items, closure0);
    closure := closure0 + news;
  }

  /** One pass stays inside the closure, ends it when it adds nothing, and
      otherwise leaves fewer children to add. */
  lemma PassFacts(G: Grammar, firsts: Firsts, items: set<Item>, closure: set<Item>)
    requires Base(G, firsts) && Lr1Set(G, firsts, items) && Lr1Set(G, firsts, closure)
    requires items <= closure <= Lr1Closure(G, firsts, items)
    ensures Lr1Set(G, firsts, closure + Step(G, firsts, closure))
    ensures closure + Step(G, firsts, closure) <= Lr1Closure(G, firsts, items)
    ensures Step(G, firsts, closure) <= closure ==> closure == Lr1Closure(G, firsts, items)
  {
    var C := Lr1Closure(G, firsts, items);
    StepBelow(G, firsts, closure, C);
    if Step(G, firsts, closure) <= closure {
      StepClosed(G, firsts, closure);
    }
  }

  lemma StepShrinks(G: Grammar, firsts: Firsts, closure: set<Item>)
    requires Base(G, firsts) && Lr1Set(G, firsts, closure) && !(Step(G, firsts, closure) <= closure)
    ensures |Children(G, firsts) - (closure + Step(G, firsts, closure))| < |Children(G, firsts) - closure|
  {
    Shrink(Children(G, firsts), closure, closure + Step(G, firsts, closure));
  }

  /** `goto_lr1(items, symbol, just_kernel=True)`: the items whose next
      symbol is `symbol`, with the dot advanced. */
  function Kernel(items: set<Item>, symbol: Symbol): (r: set<Item>)
    ensures forall x :: x in r ==> x.pos > 0 && x.pos <= |x.production.rhs| && x.production.rhs[x.pos - 1] == symbol
    ensures forall x :: x in r <==> exists it :: it in items && !it.IsReduceItem() && it.production.rhs[it.pos] == symbol && x == it.NextItem()
  {
    set it | it in items && !it.IsReduceItem() && it.production.rhs[it.pos] == symbol :: it.NextItem()
  }

  lemma KernelItems(G: Grammar, firsts: Firsts, items: set<Item>, symbol: Symbol)
    requires Lr1Set(G, firsts, items)
    ensures Lr1Set(G, firsts, Kernel(items, symbol))
  {
  }

  /** `goto_lr1(items, symbol, firsts)`: the compressed closure of the
      kernel. */
  method GotoLr1(G: Grammar, firsts: Firsts, items: set<Item>, symbol: Symbol) returns (r: set<Item>)
    requires Base(G, firsts) && Lr1Set(G, firsts, items)
    ensures r == Compressed(Lr1Closure(G, firsts, Kernel(items, symbol)))
  {
    var kernel := set it | it in items && !it.IsReduceItem() && it.production.rhs[it.pos] == symbol :: it.NextItem();
    r := ClosureLr1(G, firsts, kernel);
  }
}
