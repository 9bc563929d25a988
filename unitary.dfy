/** Removal of unit productions `A -> B`: the unit graph, its transitive
    closure, and the productions inherited along it. */
module Unitary {
  import opened Grammars

  /** `p`, listed under `a`, is a unit production to another non-terminal:
      the condition that sends it to `H`.  A self-unit `A -> A` is not one. */
  predicate IsUnit(p: Production, a: string) {
    |p.rhs| == 1 && p.rhs[0].N? && p.rhs[0].name != a
  }

  /** A body made of one non-terminal: the bodies the last stage skips. */
  predicate UnitBody(body: seq<Symbol>) {
    |body| == 1 && body[0].N?
  }

  /** The targets of the unit productions of `a`. */
  function UnitTargets(g: Grammar, a: string): set<string> {
    set p | p in g.RulesOf(a) && IsUnit(p, a) :: p.rhs[0].name
  }

  /** The unit graph: each non-terminal with a unit production, mapped to
      the targets of its unit productions. */
  function UnitGraph(g: Grammar): map<string, set<string>> {
    map a | a in g.nonTerminals && UnitTargets(g, a) != {} :: UnitTargets(g, a)
  }

  /** The productions the first stage copies to `P`: every production that
      is not a unit production to another non-terminal, under its list's
      non-terminal. */
  function Kept(g: Grammar): set<Production> {
    set a, p | a in g.nonTerminals && p in g.RulesOf(a) && !IsUnit(p, a) :: Production(a, p.rhs)
  }

  // ---------------------------------------------------------------------
  // Reachability in the unit graph
  // ---------------------------------------------------------------------

  function Targets(G: map<string, set<string>>): set<string> {
    set a, x | a in G && x in G[a] :: x
  }

  /** `S` holds the successors of `a` and of each of its own members. */
  ghost predicate ClosedFrom(G: map<string, set<string>>, a: string, S: set<string>) {
    && (a in G ==> G[a] <= S)
    && forall v :: v in S && v in G ==> G[v] <= S
  }

  /** The non-terminals reachable from `a` in one step or more. */
  ghost function Reach(G: map<string, set<string>>, a: string): set<string> {
    set x | x in Targets(G) && forall S :: ClosedFrom(G, a, S) ==> x in S
  }

  lemma ReachClosed(G: map<string, set<string>>, a: string)
    ensures ClosedFrom(G, a, Reach(G, a))
  {
    if a in G {
      forall x | x in G[a] ensures x in Reach(G, a) {
        assert x in Targets(G);
      }
    }
    forall v | v in Reach(G, a) && v in G ensures G[v] <= Reach(G, a) {
      forall x | x in G[v] ensures x in Reach(G, a) {
        assert x in Targets(G);
      }
    }
  }

  lemma ReachLeast(G: map<string, set<string>>, a: string, S: set<string>)
    requires ClosedFrom(G, a, S)
    ensures Reach(G, a) <= S
  {
  }

  /** What is reachable from a reachable node is reachable. */
  lemma ReachTrans(G: map<string, set<string>>, a: string, v: string)
    requires v in Reach(G, a)
    ensures Reach(G, v) <= Reach(G, a)
  {
    ReachClosed(G, a);
    ReachLeast(G, v, Reach(G, a));
  }

  /** The closure of a unit production: a unit production from `a` or from
      anything `a` reaches leads somewhere `a` reaches. */
  lemma UnitChain(g: Grammar, a: string, b: string, c: string)
    requires b == a || b in Reach(UnitGraph(g), a)
    requires b in g.nonTerminals && c in UnitTargets(g, b)
    ensures c in Reach(UnitGraph(g), a)
  {
    ReachClosed(UnitGraph(g), a);
    assert b in UnitGraph(g);
  }

  // ---------------------------------------------------------------------
  // First stage: split the productions
  // ---------------------------------------------------------------------

  /** The targets of the unit productions among `ps[..i]`. */
  function UnitsUpTo(ps: seq<Production>, a: string, i: nat): set<string>
    requires i <= |ps|
  {
    set j | 0 <= j < i && IsUnit(ps[j], a) :: ps[j].rhs[0].name
  }

  /** The other productions among `ps[..i]`, under `a`. */
  function KeptUpTo(ps: seq<Production>, a: string, i: nat): set<Production>
    requires i <= |ps|
  {
    set j | 0 <= j < i && !IsUnit(ps[j], a) :: Production(a, ps[j].rhs)
  }

  lemma UpToStep(ps: seq<Production>, a: string, i: nat)
    requires i < |ps|
    ensures UnitsUpTo(ps, a, i + 1) == UnitsUpTo(ps, a, i) + (if IsUnit(ps[i], a) then {ps[i].rhs[0].name} else {})
    ensures KeptUpTo(ps, a, i + 1) == KeptUpTo(ps, a, i) + (if IsUnit(ps[i], a) then {} else {Production(a, ps[i].rhs)})
  {
  }

  lemma UpToAll(g: Grammar, a: string)
    ensures UnitsUpTo(g.RulesOf(a), a, |g.RulesOf(a)|) == UnitTargets(g, a)
    ensures KeptUpTo(g.RulesOf(a), a, |g.RulesOf(a)|) == set p | p in g.RulesOf(a) && !IsUnit(p, a) :: Production(a, p.rhs)
  {
    var ps := g.RulesOf(a);
    forall x | x in UnitTargets(g, a) ensures x in UnitsUpTo(ps, a, |ps|) {
      var p :| p in ps && IsUnit(p, a) && x == p.rhs[0].name;
      var j :| 0 <= j < |ps| && ps[j] == p;
    }
    var K := set p | p in ps && !IsUnit(p, a) :: Production(a, p.rhs);
    forall q | q in K ensures q in KeptUpTo(ps, a, |ps|) {
      var p :| p in ps && !IsUnit(p, a) && q == Production(a, p.rhs);
      var j :| 0 <= j < |ps| && ps[j] == p;
    }
  }

  /** One production `p` of `a`: a unit production goes to `H[a]`, any
      other to `P`. */
  method SplitOne(p: Production, a: string, ks0: seq<string>, H0: map<string, seq<string>>, P0: seq<Production>)
    returns (ks: seq<string>, H: map<string, seq<string>>, P: seq<Production>)
    requires NoDup(ks0) && Elems(ks0) == H0.Keys
    ensures NoDup(ks) && Elems(ks) == H.Keys
    ensures forall b :: b != a ==> (b in H <==> b in H0) && (b in H ==> H[b] == H0[b])
    ensures a in H <==> a in H0 || IsUnit(p, a)
    ensures a in H ==> Elems(H[a]) == (if a in H0 then Elems(H0[a]) else {}) + (if IsUnit(p, a) then {p.rhs[0].name} else {})
    ensures Elems(P) == Elems(P0) + (if IsUnit(p, a) then {} else {Production(a, p.rhs)})
    ensures P0 <= P
  {
    ks, H, P := ks0, H0, P0;
    if |p.rhs| == 1 && p.rhs[0].N? && p.rhs[0].name != a {
      if a in H {
        assert Elems(H[a] + [p.rhs[0].name]) == Elems(H[a]) + {p.rhs[0].name};
        H := H[a := H[a] + [p.rhs[0].name]];
      } else {
        assert Elems(ks + [a]) == Elems(ks) + {a};
        assert Elems([p.rhs[0].name]) == {p.rhs[0].name};
        H := H[a := [p.rhs[0].name]];
        ks := ks + [a];
      }
    } else {
      assert Elems(P + [Production(a, p.rhs)]) == Elems(P) + {Production(a, p.rhs)};
      assert (P + [Production(a, p.rhs)])[..|P0|] == P[..|P0|];
      P := P + [Production(a, p.rhs)];
    }
  }

  /** The loop over the productions of one non-terminal `a`. */
  method SplitRules(g: Grammar, a: string, ks0: seq<string>, H0: map<string, seq<string>>, P0: seq<Production>)
    returns (ks: seq<string>, H: map<string, seq<string>>, P: seq<Production>)
    requires NoDup(ks0) && Elems(ks0) == H0.Keys
    ensures NoDup(ks) && Elems(ks) == H.Keys
    ensures forall b :: b != a ==> (b in H <==> b in H0) && (b in H ==> H[b] == H0[b])
    ensures a in H <==> a in H0 || UnitTargets(g, a) != {}
    ensures a in H ==> Elems(H[a]) == (if a in H0 then Elems(H0[a]) else {}) + UnitTargets(g, a)
    ensures Elems(P) == Elems(P0) + set p | p in g.RulesOf(a) && !IsUnit(p, a) :: Production(a, p.rhs)
    ensures P0 <= P
  {
    ks, H, P := ks0, H0, P0;
    var ps := g.RulesOf(a);
    for i := 0 to |ps|
      invariant NoDup(ks) && Elems(ks) == H.Keys
      invariant forall b :: b != a ==> (b in H <==> b in H0) && (b in H ==> H[b] == H0[b])
      invariant a in H <==> a in H0 || UnitsUpTo(ps, a, i) != {}
      invariant a in H ==> Elems(H[a]) == (if a in H0 then Elems(H0[a]) else {}) + UnitsUpTo(ps, a, i)
      invariant Elems(P) == Elems(P0) + KeptUpTo(ps, a, i)
      invariant P0 <= P
    {
      UpToStep(ps, a, i);
      ks, H, P := SplitOne(ps[i], a, ks, H, P);
    }
    UpToAll(g, a);
  }

  /** `Kept`, restricted to the non-terminals of `S`. */
  function KeptIn(g: Grammar, S: set<string>): set<Production> {
    set a, p | a in S && p in g.RulesOf(a) && !IsUnit(p, a) :: Production(a, p.rhs)
  }

  lemma KeptInStep(g: Grammar, S: set<string>, a: string)
    ensures KeptIn(g, S + {a}) == KeptIn(g, S) + set p | p in g.RulesOf(a) && !IsUnit(p, a) :: Production(a, p.rhs)
  {
  }

  /** The first loop: `H` maps each non-terminal with a unit production to
      the targets of its unit productions (keys in order of first insertion),
      and `P` collects every other production. */
  method UnitSplit(g: Grammar) returns (ks: seq<string>, H: map<string, seq<string>>, P: seq<Production>)
    ensures NoDup(ks) && Elems(ks) == H.Keys
    ensures H.Keys == UnitGraph(g).Keys
    ensures forall a :: a in H ==> Elems(H[a]) == UnitGraph(g)[a] && a !in Elems(H[a])
    ensures Elems(P) == Kept(g)
  {
    ks, H, P := [], map[], [];
    var nts := g.nonTerminals;
    for i := 0 to |nts|
      invariant NoDup(ks) && Elems(ks) == H.Keys
      invariant forall b :: b in H <==> b in Elems(nts[..i]) && UnitTargets(g, b) != {}
      invariant forall b :: b in H ==> Elems(H[b]) == UnitTargets(g, b)
      invariant Elems(P) == KeptIn(g, Elems(nts[..i]))
    {
      assert Elems(nts[..i + 1]) == Elems(nts[..i]) + {nts[i]} by {
        assert nts[..i + 1] == nts[..i] + [nts[i]];
      }
      KeptInStep(g, Elems(nts[..i]), nts[i]);
      ks, H, P := SplitRules(g, nts[i], ks, H, P);
    }
    assert nts[..|nts|] == nts;
  }

  // ---------------------------------------------------------------------
  // Second stage: close `H` under the unit graph
  // ---------------------------------------------------------------------

  /** The graph `H` stands for: each key to the set of its list. */
  function Graph(H: map<string, seq<string>>): (G: map<string, set<string>>)
    ensures G.Keys == H.Keys
    ensures forall a :: a in H ==> G[a] == Elems(H[a])
  {
    map a | a in H :: Elems(H[a])
  }

  /** Every list of `H` lists only nodes reachable from its key in `G`,
      and never the key itself. */
  ghost predicate Sound(G: map<string, set<string>>, H: map<string, seq<string>>) {
    forall a :: a in H ==> Elems(H[a]) <= Reach(G, a) - {a}
  }

  /** The list of `a` already holds whatever its members' lists hold. */
  predicate ClosedAt(H: map<string, seq<string>>, a: string)
    requires a in H
  {
    forall v :: v in Elems(H[a]) && v in H ==> Elems(H[v]) <= Elems(H[a]) + {a}
  }

  /** The pairs (key, target) not yet recorded in `H`: the measure of the
      closure loop. */
  function Missing(G: map<string, set<string>>, H: map<string, seq<string>>): set<(string, string)> {
    set a, x | a in H && x in Targets(G) && x !in Elems(H[a]) :: (a, x)
  }

  /** The innermost loop: append each member of `L` that is neither `item`
      nor already listed. */
  method AppendNew(item: string, Hi0: seq<string>, L: seq<string>) returns (Hi: seq<string>, changed: bool)
    ensures Hi0 <= Hi
    ensures Elems(Hi) == Elems(Hi0) + (Elems(L) - {item})
    ensures changed <==> Elems(Hi0) < Elems(Hi)
    ensures !changed ==> Hi == Hi0
  {
    Hi, changed := Hi0, false;
    for k := 0 to |L|
      invariant Hi0 <= Hi
      invariant Elems(Hi) == Elems(Hi0) + (Elems(L[..k]) - {item})
      invariant changed <==> Elems(Hi0) < Elems(Hi)
      invariant !changed ==> Hi == Hi0
    {
      assert Elems(L[..k + 1]) == Elems(L[..k]) + {L[k]} by {
        assert L[..k + 1] == L[..k] + [L[k]];
      }
      if L[k] != item && L[k] !in Hi {
        assert Elems(Hi + [L[k]]) == Elems(Hi) + {L[k]};
        assert L[k] !in Elems(Hi);
        Hi := Hi + [L[k]];
        changed := true;
      }
    }
    assert L[..|L|] == L;
  }

  lemma ReachTargets(G: map<string, set<string>>, a: string)
    ensures Reach(G, a) <= Targets(G)
  {
  }

  /** One key: walk its list while it grows, appending the lists of its
      members. */
  method CloseItem(ghost G: map<string, set<string>>, item: string, H: map<string, seq<string>>)
    returns (Hi: seq<string>, changed: bool)
    requires item in H && Sound(G, H)
    ensures H[item] <= Hi
    ensures Elems(Hi) <= Reach(G, item) - {item}
    ensures changed ==> Elems(H[item]) < Elems(Hi)
    ensures !changed ==> Hi == H[item] && ClosedAt(H, item)
  {
    Hi, changed := H[item], false;
    ReachTargets(G, item);
    var j := 0;
    while j < |Hi|
      invariant j <= |Hi|
      invariant H[item] <= Hi
      invariant Elems(Hi) <= Reach(G, item) - {item}
      invariant changed ==> Elems(H[item]) < Elems(Hi)
      invariant !changed ==> Hi == H[item]
      invariant !changed ==> forall k :: 0 <= k < j && Hi[k] in H ==> Elems(H[Hi[k]]) <= Elems(Hi) + {item}
      decreases Targets(G) - Elems(Hi), |Hi| - j
    {
      var v := Hi[j];
      if v in H {
        assert v in Elems(Hi);
        ReachTrans(G, item, v);
        var Hi', c := AppendNew(item, Hi, H[v]);
        if c {
          assert Targets(G) - Elems(Hi') < Targets(G) - Elems(Hi);
        }
        Hi := Hi';
        changed := changed || c;
      }
      j := j + 1;
    }
    if !changed {
      forall x | x in Elems(Hi) && x in H ensures Elems(H[x]) <= Elems(Hi) + {item} {
        var k :| 0 <= k < |Hi| && Hi[k] == x;
      }
    }
  }

  /** Growing one list within the targets removes pairs from `Missing`,
      and at least one when it gains a member. */
  lemma MissingShrinks(G: map<string, set<string>>, H: map<string, seq<string>>, item: string, Hi: seq<string>)
    requires item in H && Elems(H[item]) <= Elems(Hi) <= Targets(G)
    ensures Missing(G, H[item := Hi]) <= Missing(G, H)
    ensures Elems(H[item]) < Elems(Hi) ==> Missing(G, H[item := Hi]) < Missing(G, H)
  {
    if Elems(H[item]) < Elems(Hi) {
      var x :| x in Elems(Hi) && x !in Elems(H[item]);
      assert (item, x) in Missing(G, H);
    }
  }

  /** One pass of the `while change` loop over the keys. */
  method ClosePass(ghost G: map<string, set<string>>, ks: seq<string>, H0: map<string, seq<string>>)
    returns (H: map<string, seq<string>>, change: bool)
    requires Elems(ks) == H0.Keys && Sound(G, H0)
    ensures H.Keys == H0.Keys && Sound(G, H)
    ensures forall a :: a in H ==> H0[a] <= H[a]
    ensures change ==> Missing(G, H) < Missing(G, H0)
    ensures !change ==> H == H0 && forall a :: a in H ==> ClosedAt(H, a)
  {
    H, change := H0, false;
    for k := 0 to |ks|
      invariant H.Keys == H0.Keys && Sound(G, H)
      invariant forall a :: a in H ==> H0[a] <= H[a]
      invariant Missing(G, H) <= Missing(G, H0)
      invariant change ==> Missing(G, H) < Missing(G, H0)
      invariant !change ==> H == H0
      invariant !change ==> forall i :: 0 <= i < k ==> ClosedAt(H0, ks[i])
    {
      var item := ks[k];
      var Hi, c := CloseItem(G, item, H);
      ReachTargets(G, item);
      MissingShrinks(G, H, item, Hi);
      if c {
        H := H[item := Hi];
        change := true;
      } else if !change {
        assert ClosedAt(H0, item);
        assert forall i :: 0 <= i < k + 1 ==> ClosedAt(H0, ks[i]) by {
          forall i | 0 <= i < k + 1 ensures ClosedAt(H0, ks[i]) {
            if i == k { assert ks[i] == item; }
          }
        }
      }
    }
    if !change {
      forall a | a in H ensures ClosedAt(H, a) {
        var i :| 0 <= i < |ks| && ks[i] == a;
      }
    }
  }

  /** The `while change` loop: on exit each list holds exactly the nodes its
      key reaches in the graph the loop started from, other than the key. */
  method CloseUnits(ks: seq<string>, H0: map<string, seq<string>>) returns (H: map<string, seq<string>>)
    requires Elems(ks) == H0.Keys
    requires forall a :: a in H0 ==> a !in Elems(H0[a])
    ensures H.Keys == H0.Keys
    ensures forall a :: a in H ==> H0[a] <= H[a] && Elems(H[a]) == Reach(Graph(H0), a) - {a}
  {
    ghost var G := Graph(H0);
    SoundStart(H0);
    H := H0;
    var change := true;
    while change
      invariant H.Keys == H0.Keys && Sound(G, H)
      invariant forall a :: a in H ==> H0[a] <= H[a]
      invariant !change ==> forall a :: a in H ==> ClosedAt(H, a)
      decreases Missing(G, H), change
    {
      H, change := ClosePass(G, ks, H);
    }
    ClosedComplete(H0, H);
  }

  /** The direct unit successors of each non-terminal are reachable. */
  lemma SoundStart(H0: map<string, seq<string>>)
    requires forall a :: a in H0 ==> a !in Elems(H0[a])
    ensures Sound(Graph(H0), H0)
  {
    var G := Graph(H0);
    forall a | a in H0 ensures Elems(H0[a]) <= Reach(G, a) - {a} {
      ReachClosed(G, a);
    }
  }

  /** Once every list is closed, each holds everything reachable. */
  lemma ClosedComplete(H0: map<string, seq<string>>, H: map<string, seq<string>>)
    requires H.Keys == H0.Keys && Sound(Graph(H0), H)
    requires forall a :: a in H ==> H0[a] <= H[a]
    requires forall a :: a in H ==> ClosedAt(H, a)
    ensures forall a :: a in H ==> Elems(H[a]) == Reach(Graph(H0), a) - {a}
  {
    var G := Graph(H0);
    forall a | a in H ensures Reach(G, a) <= Elems(H[a]) + {a} {
      ClosedAtFrom(H0, H, a);
      ReachLeast(G, a, Elems(H[a]) + {a});
    }
  }

  lemma PrefixElems<T>(a: seq<T>, b: seq<T>)
    requires a <= b
    ensures Elems(a) <= Elems(b)
  {
    forall x | x in Elems(a) ensures x in Elems(b) {
      var i :| 0 <= i < |a| && a[i] == x;
      assert b[i] == x;
    }
  }

  /** A closed list, with its own non-terminal, is closed in the graph. */
  lemma ClosedAtFrom(H0: map<string, seq<string>>, H: map<string, seq<string>>, a: string)
    requires H.Keys == H0.Keys && a in H
    requires forall b :: b in H ==> H0[b] <= H[b]
    requires forall b :: b in H ==> ClosedAt(H, b)
    ensures ClosedFrom(Graph(H0), a, Elems(H[a]) + {a})
  {
    var G, S := Graph(H0), Elems(H[a]) + {a};
    PrefixElems(H0[a], H[a]);
    forall v | v in S && v in G ensures G[v] <= S {
      PrefixElems(H0[v], H[v]);
      if v != a {
        assert ClosedAt(H, a);
      }
    }
  }

  // ---------------------------------------------------------------------
  // Third stage: copy the non-unit bodies along the closure
  // ---------------------------------------------------------------------

  /** The bodies of `nt` that the third stage copies: those that are not a
      single non-terminal. */
  function NonUnitBodies(g: Grammar, nt: string): set<seq<Symbol>> {
    set p | p in g.RulesOf(nt) && !UnitBody(p.rhs) :: p.rhs
  }

  /** Every head of `I` with every body of `B`. */
  function Copies(I: set<string>, B: set<seq<Symbol>>): (r: set<Production>)
    ensures forall q :: q in r <==> q.lhs in I && q.rhs in B
  {
    set a, b | a in I && b in B :: Production(a, b)
  }

  /** Each production `P` gained beyond `P0` occurs in `P` once. */
  predicate Fresh(P0: seq<Production>, P: seq<Production>) {
    && P0 <= P
    && forall i, j :: |P0| <= i < |P| && 0 <= j < |P| && i != j ==> P[i] != P[j]
  }

  lemma FreshAppend(P0: seq<Production>, P: seq<Production>, q: Production)
    requires Fresh(P0, P) && q !in P
    ensures Fresh(P0, P + [q])
  {
  }

  lemma FreshTrans(P0: seq<Production>, P1: seq<Production>, P2: seq<Production>)
    requires Fresh(P0, P1) && Fresh(P1, P2)
    ensures Fresh(P0, P2)
  {
    forall i, j | |P0| <= i < |P2| && 0 <= j < |P2| && i != j ensures P2[i] != P2[j] {
      if i < |P1| && j < |P1| {
        assert P2[i] == P1[i] && P2[j] == P1[j];
      }
    }
  }

  function CopiesUpTo(item: string, ps: seq<Production>, i: nat): set<Production>
    requires i <= |ps|
  {
    set j | 0 <= j < i && !UnitBody(ps[j].rhs) :: Production(item, ps[j].rhs)
  }

  lemma CopiesUpToStep(item: string, ps: seq<Production>, i: nat)
    requires i < |ps|
    ensures CopiesUpTo(item, ps, i + 1) == CopiesUpTo(item, ps, i) + (if UnitBody(ps[i].rhs) then {} else {Production(item, ps[i].rhs)})
  {
  }

  lemma CopiesUpToAll(g: Grammar, nt: string, item: string)
    ensures CopiesUpTo(item, g.RulesOf(nt), |g.RulesOf(nt)|) == Copies({item}, NonUnitBodies(g, nt))
  {
    var ps := g.RulesOf(nt);
    forall q | q in Copies({item}, NonUnitBodies(g, nt)) ensures q in CopiesUpTo(item, ps, |ps|) {
      var p :| p in ps && !UnitBody(p.rhs) && p.rhs == q.rhs;
      var j :| 0 <= j < |ps| && ps[j] == p;
    }
  }

  /** The innermost loop: append `item -> α` for each production `nt -> α`
      of `ps` whose body is not a single non-terminal, unless it is already
      in `P`. */
  method CopyBodies(g: Grammar, nt: string, item: string, P0: seq<Production>) returns (P: seq<Production>)
    ensures Fresh(P0, P)
    ensures Elems(P) == Elems(P0) + Copies({item}, NonUnitBodies(g, nt))
  {
    P := P0;
    var ps := g.RulesOf(nt);
    for i := 0 to |ps|
      invariant Fresh(P0, P)
      invariant Elems(P) == Elems(P0) + CopiesUpTo(item, ps, i)
    {
      CopiesUpToStep(item, ps, i);
      var p := ps[i];
      if !(|p.rhs| == 1 && p.rhs[0].N?) && Production(item, p.rhs) !in P {
        FreshAppend(P0, P, Production(item, p.rhs));
        assert Elems(P + [Production(item, p.rhs)]) == Elems(P) + {Production(item, p.rhs)};
        P := P + [Production(item, p.rhs)];
      }
    }
    CopiesUpToAll(g, nt, item);
  }

  /** The keys whose closed list names `nt`, `nt` itself excepted. */
  function Chosen(H: map<string, seq<string>>, nt: string, I: set<string>): set<string> {
    set a | a in I && a in H && a != nt && nt in Elems(H[a])
  }

  /** The middle loop, over the keys of `H` for one non-terminal `nt`. */
  method InheritFrom(g: Grammar, nt: string, ks: seq<string>, H: map<string, seq<string>>, P0: seq<Production>)
    returns (P: seq<Production>)
    requires Elems(ks) == H.Keys
    ensures Fresh(P0, P)
    ensures Elems(P) == Elems(P0) + Copies(Chosen(H, nt, H.Keys), NonUnitBodies(g, nt))
  {
    P := P0;
    var B := NonUnitBodies(g, nt);
    for k := 0 to |ks|
      invariant Fresh(P0, P)
      invariant Elems(P) == Elems(P0) + Copies(Chosen(H, nt, Elems(ks[..k])), B)
    {
      var item := ks[k];
      assert Elems(ks[..k + 1]) == Elems(ks[..k]) + {item} by {
        assert ks[..k + 1] == ks[..k] + [item];
      }
      if item != nt && nt in H[item] {
        var P' := CopyBodies(g, nt, item, P);
        FreshTrans(P0, P, P');
        P := P';
        assert Chosen(H, nt, Elems(ks[..k + 1])) == Chosen(H, nt, Elems(ks[..k])) + {item};
      } else {
        assert Chosen(H, nt, Elems(ks[..k + 1])) == Chosen(H, nt, Elems(ks[..k]));
      }
    }
    assert ks[..|ks|] == ks;
  }

  /** Copies along `H`, for the non-terminals of `N`. */
  function InheritedIn(g: Grammar, H: map<string, seq<string>>, N: set<string>): set<Production> {
    set nt, a, b | nt in N && a in H && a != nt && nt in Elems(H[a]) && b in NonUnitBodies(g, nt) :: Production(a, b)
  }

  lemma InheritedInStep(g: Grammar, H: map<string, seq<string>>, N: set<string>, nt: string)
    ensures InheritedIn(g, H, N + {nt}) == InheritedIn(g, H, N) + Copies(Chosen(H, nt, H.Keys), NonUnitBodies(g, nt))
  {
  }

  /** The outer loop of the third stage, over the non-terminals. */
  method InheritAll(g: Grammar, ks: seq<string>, H: map<string, seq<string>>, P0: seq<Production>)
    returns (P: seq<Production>)
    requires Elems(ks) == H.Keys
    ensures Fresh(P0, P)
    ensures Elems(P) == Elems(P0) + InheritedIn(g, H, Elems(g.nonTerminals))
  {
    P := P0;
    var nts := g.nonTerminals;
    for i := 0 to |nts|
      invariant Fresh(P0, P)
      invariant Elems(P) == Elems(P0) + InheritedIn(g, H, Elems(nts[..i]))
    {
      assert Elems(nts[..i + 1]) == Elems(nts[..i]) + {nts[i]} by {
        assert nts[..i + 1] == nts[..i] + [nts[i]];
      }
      InheritedInStep(g, H, Elems(nts[..i]), nts[i]);
      var P' := InheritFrom(g, nts[i], ks, H, P);
      FreshTrans(P0, P, P');
      P := P';
    }
    assert nts[..|nts|] == nts;
  }

  // ---------------------------------------------------------------------
  // The pass
  // ---------------------------------------------------------------------

  /** The name of the fresh start symbol added when the language holds the
      empty word. */
  function NewStart(g: Grammar): string {
    Prime(g.start)
  }

  /** The two productions of the fresh start symbol, in the order they are
      added: `S' -> ε` and `S' -> S`. */
  function StartProductions(g: Grammar): seq<Production> {
    [Production(NewStart(g), []), Production(NewStart(g), [N(g.start)])]
  }

  /** The inherited productions: `a -> α` whenever `a` reaches a different
      declared non-terminal `nt` through unit productions and `nt -> α` is a
      production whose body is not a single non-terminal. */
  ghost function Inherited(g: Grammar): set<Production> {
    var G := UnitGraph(g);
    set nt, a, b | nt in g.nonTerminals && a in G && a != nt && nt in Reach(G, a) && b in NonUnitBodies(g, nt) :: Production(a, b)
  }

  /** The productions of the result, as a set. */
  ghost function UnitaryProductions(g: Grammar, emptyWord: bool): set<Production> {
    Kept(g) + Inherited(g) + (if emptyWord then Elems(StartProductions(g)) else {})
  }

  lemma InheritedIs(g: Grammar, H0: map<string, seq<string>>, H: map<string, seq<string>>)
    requires H0.Keys == UnitGraph(g).Keys
    requires forall a :: a in H0 ==> Elems(H0[a]) == UnitGraph(g)[a]
    requires H.Keys == H0.Keys
    requires forall a :: a in H ==> Elems(H[a]) == Reach(Graph(H0), a) - {a}
    ensures InheritedIn(g, H, Elems(g.nonTerminals)) == Inherited(g)
  {
    assert Graph(H0) == UnitGraph(g);
  }

  /** `without_unitary_productions(grammar, empty_word)`.  The result keeps
      the non-terminal lists of the input (`nt.productions` is not updated),
      replaces the production list, and with `emptyWord` adds the fresh start
      symbol with `S' -> ε` and `S' -> S`. */
  method WithoutUnitaryProductions(g: Grammar, emptyWord: bool) returns (r: Grammar, ghost split: nat)
    ensures r.nonTerminals == g.nonTerminals + (if emptyWord then [NewStart(g)] else [])
    ensures r.terminals == g.terminals
    ensures r.start == if emptyWord then NewStart(g) else g.start
    ensures r.rules == if emptyWord then g.rules[NewStart(g) := StartProductions(g)] else g.rules
    ensures Elems(r.productions) == UnitaryProductions(g, emptyWord)
    ensures split + (if emptyWord then 2 else 0) <= |r.productions|
    ensures Elems(r.productions[..split]) == Kept(g)
    ensures Fresh(r.productions[..split], r.productions[..|r.productions| - if emptyWord then 2 else 0])
  {
    var ks, H0, P1 := UnitSplit(g);
    var H := CloseUnits(ks, H0);
    var P := InheritAll(g, ks, H, P1);
    InheritedIs(g, H0, H);
    split := |P1|;
    assert P[..split] == P1;
    if emptyWord {
      var s' := NewStart(g);
      r := Grammar(g.nonTerminals + [s'], g.terminals, P + StartProductions(g), g.rules[s' := StartProductions(g)], s');
      assert r.productions[..|r.productions| - 2] == P;
      assert r.productions[..split] == P1;
    } else {
      r := Grammar(g.nonTerminals, g.terminals, P, g.rules, g.start);
      assert r.productions[..|r.productions|] == P;
    }
  }

  // ---------------------------------------------------------------------
  // Properties of the pass
  // ---------------------------------------------------------------------

  /** `path` is a walk of one step or more from `a` in `G`. */
  ghost predicate Walk(G: map<string, set<string>>, a: string, path: seq<string>) {
    && |path| >= 1
    && a in G && path[0] in G[a]
    && forall i :: 0 <= i < |path| - 1 ==> path[i] in G && path[i + 1] in G[path[i]]
  }

  /** The end of a walk is reachable. */
  lemma {:induction false} WalkReach(G: map<string, set<string>>, a: string, path: seq<string>)
    requires Walk(G, a, path)
    ensures path[|path| - 1] in Reach(G, a)
  {
    ReachClosed(G, a);
    if |path| > 1 {
      var front := path[..|path| - 1];
      assert Walk(G, a, front);
      WalkReach(G, a, front);
      assert path[|path| - 1] in G[front[|front| - 1]];
    }
  }

  /** Everything reachable is the end of a walk. */
  lemma ReachWalk(G: map<string, set<string>>, a: string, x: string)
    requires x in Reach(G, a)
    ensures exists path :: Walk(G, a, path) && path[|path| - 1] == x
  {
    var S := set y | y in Targets(G) && exists path :: Walk(G, a, path) && path[|path| - 1] == y;
    if a in G {
      forall y | y in G[a] ensures y in S {
        assert Walk(G, a, [y]);
        assert y in Targets(G);
      }
    }
    forall v | v in S && v in G ensures G[v] <= S {
      var path :| Walk(G, a, path) && path[|path| - 1] == v;
      forall y | y in G[v] ensures y in S {
        assert Walk(G, a, path + [y]);
        assert y in Targets(G);
      }
    }
    ReachLeast(G, a, S);
  }

  /** No production of the result is a unit production, except a kept
      self-unit `A -> A` and the fresh `S' -> S`. */
  lemma UnitaryNoUnits(g: Grammar, emptyWord: bool, q: Production)
    requires q in UnitaryProductions(g, emptyWord) && UnitBody(q.rhs)
    ensures q.rhs == [N(q.lhs)] || (emptyWord && q == StartProductions(g)[1])
  {
    if q in Kept(g) {
      var a, p :| a in g.nonTerminals && p in g.RulesOf(a) && !IsUnit(p, a) && q == Production(a, p.rhs);
      assert q.rhs == [N(q.lhs)];
    }
  }

  /** Every production of the result is a production of the input that is
      not a unit production to another non-terminal, or the body of a
      non-unit production of a non-terminal that its head reaches by a walk
      of unit productions, or one of the fresh start productions. */
  lemma UnitarySound(g: Grammar, emptyWord: bool, q: Production)
    requires q in UnitaryProductions(g, emptyWord)
    ensures || (q.lhs in g.nonTerminals && exists p :: p in g.RulesOf(q.lhs) && !IsUnit(p, q.lhs) && p.rhs == q.rhs)
            || (exists nt, path :: nt in g.nonTerminals && nt != q.lhs && Walk(UnitGraph(g), q.lhs, path) && path[|path| - 1] == nt
                                   && q.rhs in NonUnitBodies(g, nt))
            || (emptyWord && q in StartProductions(g))
  {
    if q in Kept(g) {
      var a, p :| a in g.nonTerminals && p in g.RulesOf(a) && !IsUnit(p, a) && q == Production(a, p.rhs);
    } else if q in Inherited(g) {
      var G := UnitGraph(g);
      var nt, a, b :| nt in g.nonTerminals && a in G && a != nt && nt in Reach(G, a) && b in NonUnitBodies(g, nt) && q == Production(a, b);
      ReachWalk(G, a, nt);
    }
  }

  /** Every production of the input that is not a unit production to another
      non-terminal is kept, and `a` inherits every body, not a single
      non-terminal, of each different declared non-terminal it reaches by a
      walk of unit productions. */
  lemma UnitaryComplete(g: Grammar, emptyWord: bool, a: string, nt: string, path: seq<string>, p: Production)
    requires a in g.nonTerminals && nt in g.nonTerminals
    requires (nt == a && !IsUnit(p, a)) || (nt != a && Walk(UnitGraph(g), a, path) && path[|path| - 1] == nt && !UnitBody(p.rhs))
    requires p in g.RulesOf(nt)
    ensures Production(a, p.rhs) in UnitaryProductions(g, emptyWord)
  {
    if nt != a {
      WalkReach(UnitGraph(g), a, path);
      assert p.rhs in NonUnitBodies(g, nt);
    }
  }
}
