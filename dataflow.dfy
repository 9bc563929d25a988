/** FIRST and FOLLOW sets, computed as monotone fixpoints over the grammar. */
module Dataflow {
  import opened Grammars
  import opened Containers

  type Firsts = map<Symbol, FSet>

  predicate Covers(firsts: Firsts, alpha: seq<Symbol>) {
    forall s :: s in alpha ==> s in firsts
  }

  /** The loop of `compute_local_first` over a plain symbol sequence: the
      slices `alpha[i+1:]` and the previews are tuples, which are never the
      epsilon sentence, so an empty sequence yields an empty container.  As in
      the source, the marker is raised by the first nullable symbol scanned. */
  function ScanFirst(firsts: Firsts, alpha: seq<Symbol>): FSet
    requires Covers(firsts, alpha)
  {
    if |alpha| == 0 then Empty
    else
      var f := firsts[alpha[0]];
      if !f.eps then FSet(f.items, false)
      else FSet(f.items + ScanFirst(firsts, alpha[1..]).items, true)
  }

  /** `compute_local_first` on a production body: the epsilon sentence has
      only the marker. */
  function LocalFirst(firsts: Firsts, alpha: seq<Symbol>): FSet
    requires Covers(firsts, alpha)
  {
    if |alpha| == 0 then FSet({}, true) else ScanFirst(firsts, alpha)
  }

  /** Every symbol before position `i` has a nullable FIRST set. */
  ghost predicate NullableUpTo(firsts: Firsts, alpha: seq<Symbol>, i: int)
    requires Covers(firsts, alpha) && i <= |alpha|
  {
    forall j :: 0 <= j < i ==> firsts[alpha[j]].eps
  }

  /** The marker is raised exactly when the first symbol is nullable. */
  lemma ScanFirstMarker(firsts: Firsts, alpha: seq<Symbol>)
    requires Covers(firsts, alpha)
    ensures ScanFirst(firsts, alpha).eps <==> |alpha| > 0 && firsts[alpha[0]].eps
  {
  }

  /** The symbols are the union of FIRST over the prefix that ends at the first
      symbol whose FIRST is not nullable. */
  lemma {:induction false} ScanFirstItems(firsts: Firsts, alpha: seq<Symbol>, x: Symbol)
    requires Covers(firsts, alpha)
    ensures x in ScanFirst(firsts, alpha).items <==>
            exists i :: 0 <= i < |alpha| && x in firsts[alpha[i]].items && NullableUpTo(firsts, alpha, i)
  {
    if |alpha| > 0 {
      var f := firsts[alpha[0]];
      if x in ScanFirst(firsts, alpha).items {
        if x in f.items {
          assert NullableUpTo(firsts, alpha, 0);
        } else {
          assert f.eps && x in ScanFirst(firsts, alpha[1..]).items;
          ScanFirstItems(firsts, alpha[1..], x);
          var i :| 0 <= i < |alpha[1..]| && x in firsts[alpha[1..][i]].items && NullableUpTo(firsts, alpha[1..], i);
          assert NullableUpTo(firsts, alpha, i + 1) by {
            forall j | 0 <= j < i + 1 ensures firsts[alpha[j]].eps {
              if j > 0 { assert alpha[j] == alpha[1..][j - 1]; }
            }
          }
        }
      } else {
        forall i | 0 <= i < |alpha| && x in firsts[alpha[i]].items
          ensures !NullableUpTo(firsts, alpha, i)
        {
          if i > 0 && NullableUpTo(firsts, alpha, i) {
            assert f.eps;
            assert NullableUpTo(firsts, alpha[1..], i - 1) by {
              forall j | 0 <= j < i - 1 ensures firsts[alpha[1..][j]].eps {
                assert alpha[1..][j] == alpha[j + 1];
              }
            }
            assert alpha[1..][i - 1] == alpha[i];
            ScanFirstItems(firsts, alpha[1..], x);
          }
        }
      }
    }
  }

  /** FIRST of a sequence only mentions symbols of its members' FIRST sets. */
  lemma {:induction false} ScanFirstBounded(firsts: Firsts, alpha: seq<Symbol>, syms: set<Symbol>)
    requires Covers(firsts, alpha)
    requires forall s :: s in alpha ==> firsts[s].items <= syms
    ensures ScanFirst(firsts, alpha).items <= syms
  {
    if |alpha| > 0 { ScanFirstBounded(firsts, alpha[1..], syms); }
  }

  /** Larger FIRST sets give a larger FIRST of every sequence. */
  lemma {:induction false} ScanFirstMonotone(f: Firsts, f': Firsts, alpha: seq<Symbol>)
    requires Covers(f, alpha) && Below(f, f')
    ensures Sub(ScanFirst(f, alpha), ScanFirst(f', alpha))
  {
    if |alpha| > 0 {
      ScanFirstMonotone(f, f', alpha[1..]);
    }
  }

  lemma LocalFirstMonotone(f: Firsts, f': Firsts, alpha: seq<Symbol>)
    requires Covers(f, alpha) && Below(f, f')
    ensures Sub(LocalFirst(f, alpha), LocalFirst(f', alpha))
  {
    if |alpha| > 0 { ScanFirstMonotone(f, f', alpha); }
  }

  /** The FIRST sets and the per-body cache `compute_firsts` returns (the
      source keeps both in one dictionary). */
  datatype FirstTable = FirstTable(ofSymbol: Firsts, ofSentence: map<seq<Symbol>, FSet>)

  /** The symbols of a production are all keys of the FIRST table. */
  predicate CoversProduction(sym: Firsts, p: Production) {
    Covers(sym, p.rhs) && N(p.lhs) in sym
  }

  /** After visiting `p`, its head's FIRST and its body's cache entry both
      include FIRST of its body. */
  ghost predicate FirstClosedAt(sym: Firsts, sent: map<seq<Symbol>, FSet>, p: Production)
    requires CoversProduction(sym, p)
  {
    && Sub(LocalFirst(sym, p.rhs), sym[N(p.lhs)])
    && p.rhs in sent && Sub(LocalFirst(sym, p.rhs), sent[p.rhs])
  }

  /** A solution of the FIRST equations: every terminal in its own set and
      every production's body FIRST included in its head's FIRST. */
  ghost predicate IsFirstSolution(g: Grammar, F: Firsts) {
    && AllSymbols(g) <= F.Keys
    && (forall t :: t in g.terminals ==> T(t) in F[T(t)].items)
    && (forall p :: p in g.productions && CoversProduction(F, p) ==>
          Sub(LocalFirst(F, p.rhs), F[N(p.lhs)]))
  }

  lemma CoversDeclared(g: Grammar, F: Firsts, p: Production)
    requires WellFormed(g) && AllSymbols(g) <= F.Keys && p in g.productions
    ensures CoversProduction(F, p)
  {
    forall s | s in p.rhs ensures s in F { DeclaredIsSymbol(g, s); }
    assert N(p.lhs) in NonTerminalSymbols(g);
  }

  /** What holds of the FIRST table between any two visits of a production. */
  ghost predicate FirstInv(g: Grammar, sym: Firsts, sent: map<seq<Symbol>, FSet>) {
    && sym.Keys == AllSymbols(g) && Bounded(sym, AllSymbols(g), TerminalSymbols(g))
    && (forall t :: t in g.terminals ==> sym[T(t)] == FSet({T(t)}, false))
    && Bounded(sent, Bodies(g), TerminalSymbols(g))
    && (forall a :: a in sent ==> Covers(sym, a) && Sub(sent[a], LocalFirst(sym, a)))
    && (forall F :: IsFirstSolution(g, F) ==> Below(sym, F))
  }

  ghost predicate ClosedUpTo(g: Grammar, sym: Firsts, sent: map<seq<Symbol>, FSet>, n: int)
    requires 0 <= n <= |g.productions|
  {
    forall j :: 0 <= j < n ==>
      CoversProduction(sym, g.productions[j]) && FirstClosedAt(sym, sent, g.productions[j])
  }

  /** The initial table: FIRST(t) = {t}, every non-terminal empty, no cache. */
  lemma FirstInvInit(g: Grammar, sym: Firsts)
    requires WellFormed(g)
    requires sym == map s | s in AllSymbols(g) :: if s.T? then FSet({s}, false) else Empty
    ensures FirstInv(g, sym, map[])
  {
    forall F | IsFirstSolution(g, F) ensures Below(sym, F) {
      forall s | s in sym ensures Sub(sym[s], F[s]) {
        if s.T? { assert s.name in g.terminals; }
      }
    }
  }

  /** Visiting one production: both hard updates keep the table below every
      solution, and the cache below FIRST of its keys. */
  lemma {:induction false} VisitKeepsInv(g: Grammar, sym: Firsts, sent: map<seq<Symbol>, FSet>, p: Production,
                                         sym': Firsts, sent': map<seq<Symbol>, FSet>)
    requires WellFormed(g) && p in g.productions && FirstInv(g, sym, sent) && p.rhs in sent
    requires CoversProduction(sym, p)
    requires sent' == sent[p.rhs := HardUpdate(sent[p.rhs], LocalFirst(sym, p.rhs)).0]
    requires sym' == sym[N(p.lhs) := HardUpdate(sym[N(p.lhs)], LocalFirst(sym, p.rhs)).0]
    ensures FirstInv(g, sym', sent') && Below(sym, sym') && Facts(sent) <= Facts(sent')
    ensures CoversProduction(sym', p)
  {
    var X, alpha := N(p.lhs), p.rhs;
    var local := LocalFirst(sym, alpha);
    var terms := TerminalSymbols(g);
    FactsGrowAt(sent, alpha, sent'[alpha]);
    FactsGrowAt(sym, X, sym'[X]);
    FactsMonotone(sent, sent');
    ScanFirstBounded(sym, alpha, terms);
    assert X in NonTerminalSymbols(g);
    forall t | t in g.terminals ensures sym'[T(t)] == FSet({T(t)}, false) { }
    forall a | a in sent' ensures Covers(sym', a) && Sub(sent'[a], LocalFirst(sym', a)) {
      LocalFirstMonotone(sym, sym', a);
    }
    forall F | IsFirstSolution(g, F) ensures Below(sym', F) {
      CoversDeclared(g, F, p);
      LocalFirstMonotone(sym, F, alpha);
    }
  }

  /** One pass of the `while change` loop over every production. */
  method FirstPass(g: Grammar, sym0: Firsts, sent0: map<seq<Symbol>, FSet>)
    returns (sym: Firsts, sent: map<seq<Symbol>, FSet>, change: bool)
    requires WellFormed(g) && FirstInv(g, sym0, sent0)
    ensures FirstInv(g, sym, sent)
    ensures Below(sym0, sym) && Facts(sent0) <= Facts(sent)
    ensures change ==> Facts(sym0) < Facts(sym) || Facts(sent0) < Facts(sent)
    ensures !change ==> sym == sym0 && ClosedUpTo(g, sym, sent, |g.productions|)
  {
    sym, sent, change := sym0, sent0, false;
    BelowRefl(sym);
    var i := 0;
    while i < |g.productions|
      invariant Passing(g, sym0, sent0, sym, sent, change, i)
    {
      var p := g.productions[i];
      CoversDeclared(g, sym, p);
      var X, alpha := N(p.lhs), p.rhs;
      PassInsert(g, sym0, sent0, sym, sent, change, i, p);
      var sentA := sent;
      if alpha !in sent {
        sentA := sent[alpha := Empty];
      }
      var local := LocalFirst(sym, alpha);
      var (na, ca) := HardUpdate(sentA[alpha], local);
      var (nx, cx) := HardUpdate(sym[X], local);
      PassStep(g, sym0, sent0, sym, sentA, change, i, sym[X := nx], sentA[alpha := na], na, nx, ca, cx);
      sym, sent, change, i := sym[X := nx], sentA[alpha := na], change || ca || cx, i + 1;
    }
  }

  /** The invariant of a pass after its first `i` productions. */
  ghost predicate Passing(g: Grammar, sym0: Firsts, sent0: map<seq<Symbol>, FSet>,
                          sym: Firsts, sent: map<seq<Symbol>, FSet>, change: bool, i: nat)
  {
    && i <= |g.productions|
    && FirstInv(g, sym, sent)
    && Below(sym0, sym) && Facts(sent0) <= Facts(sent)
    && (change ==> Facts(sym0) < Facts(sym) || Facts(sent0) < Facts(sent))
    && (!change ==> sym == sym0 && ClosedUpTo(g, sym, sent, i))
  }

  /** Adding an empty cache entry for the body about to be visited keeps
      the invariant of the pass. */
  lemma PassInsert(g: Grammar, sym0: Firsts, sent0: map<seq<Symbol>, FSet>,
                   sym: Firsts, sent: map<seq<Symbol>, FSet>, change: bool, i: nat, p: Production)
    requires WellFormed(g) && Passing(g, sym0, sent0, sym, sent, change, i) && p in g.productions
    requires CoversProduction(sym, p)
    ensures var sentA := if p.rhs in sent then sent else sent[p.rhs := Empty];
            Passing(g, sym0, sent0, sym, sentA, change, i)
  {
    if p.rhs !in sent {
      FactsNewEmpty(sent, p.rhs);
      var sentA := sent[p.rhs := Empty];
      assert p.rhs in Bodies(g);
      if !change {
        forall j | 0 <= j < i ensures CoversProduction(sym, g.productions[j]) && FirstClosedAt(sym, sentA, g.productions[j]) {
          assert CoversProduction(sym, g.productions[j]) && FirstClosedAt(sym, sent, g.productions[j]);
        }
      }
    }
  }

  /** The visit of one production keeps the invariant of the pass. */
  lemma PassStep(g: Grammar, sym0: Firsts, sent0: map<seq<Symbol>, FSet>,
                 sym: Firsts, sentA: map<seq<Symbol>, FSet>, change: bool, i: nat,
                 sym': Firsts, sent': map<seq<Symbol>, FSet>, na: FSet, nx: FSet, ca: bool, cx: bool)
    requires WellFormed(g) && i < |g.productions| && Passing(g, sym0, sent0, sym, sentA, change, i)
    requires CoversProduction(sym, g.productions[i]) && g.productions[i].rhs in sentA
    requires var p := g.productions[i];
             && (na, ca) == HardUpdate(sentA[p.rhs], LocalFirst(sym, p.rhs)) && sent' == sentA[p.rhs := na]
             && (nx, cx) == HardUpdate(sym[N(p.lhs)], LocalFirst(sym, p.rhs)) && sym' == sym[N(p.lhs) := nx]
    ensures Passing(g, sym0, sent0, sym', sent', change || ca || cx, i + 1)
  {
    var p := g.productions[i];
    var X, alpha := N(p.lhs), p.rhs;
    VisitKeepsInv(g, sym, sentA, p, sym', sent');
    FactsGrowAt(sentA, alpha, na);
    FactsGrowAt(sym, X, nx);
    BelowTrans(sym0, sym, sym');
    FactsMonotone(sym0, sym);
    FactsMonotone(sym, sym');
    if !change && !ca && !cx {
      assert sym' == sym && sent' == sentA;
      assert FirstClosedAt(sym, sentA, p);
    }
  }

  /** `compute_firsts`: FIRST(t) = {t} for every terminal, and the loop stops
      only after a full pass over the productions in which no container
      changed, so the result is the least solution of the FIRST equations and
      the per-body cache holds exactly FIRST of each body. */
  method ComputeFirsts(g: Grammar) returns (ft: FirstTable)
    requires WellFormed(g)
    ensures ft.ofSymbol.Keys == AllSymbols(g)
    ensures forall t :: t in g.terminals ==> ft.ofSymbol[T(t)] == FSet({T(t)}, false)
    ensures forall s :: s in ft.ofSymbol ==> ft.ofSymbol[s].items <= TerminalSymbols(g)
    ensures ft.ofSentence.Keys == Bodies(g)
    ensures forall p :: p in g.productions ==>
              CoversProduction(ft.ofSymbol, p) && ft.ofSentence[p.rhs] == LocalFirst(ft.ofSymbol, p.rhs)
    ensures IsFirstSolution(g, ft.ofSymbol)
    ensures forall F :: IsFirstSolution(g, F) ==> Below(ft.ofSymbol, F)
  {
    var terms := TerminalSymbols(g);
    var sym: Firsts := map s | s in AllSymbols(g) :: if s.T? then FSet({s}, false) else Empty;
    var sent: map<seq<Symbol>, FSet> := map[];
    FirstInvInit(g, sym);
    var change := true;
    while change
      invariant FirstInv(g, sym, sent)
      invariant !change ==> ClosedUpTo(g, sym, sent, |g.productions|)
      decreases Room(sym, AllSymbols(g), terms), Room(sent, Bodies(g), terms), change
    {
      ghost var sym0, sent0 := sym, sent;
      sym, sent, change := FirstPass(g, sym, sent);
      FactsMonotone(sym0, sym);
      RoomShrinks(sym0, sym, AllSymbols(g), terms);
      RoomShrinks(sent0, sent, Bodies(g), terms);
    }
    FirstTableFinal(g, sym, sent);
    ft := FirstTable(sym, sent);
  }

  lemma FirstTableFinal(g: Grammar, sym: Firsts, sent: map<seq<Symbol>, FSet>)
    requires WellFormed(g) && FirstInv(g, sym, sent) && ClosedUpTo(g, sym, sent, |g.productions|)
    ensures sent.Keys == Bodies(g)
    ensures forall p :: p in g.productions ==>
              CoversProduction(sym, p) && sent[p.rhs] == LocalFirst(sym, p.rhs)
    ensures IsFirstSolution(g, sym)
  {
    forall p | p in g.productions
      ensures CoversProduction(sym, p) && FirstClosedAt(sym, sent, p)
    {
      var j :| 0 <= j < |g.productions| && g.productions[j] == p;
    }
    forall a | a in Bodies(g) ensures a in sent {
      var p :| p in g.productions && p.rhs == a;
    }
  }

  /** Every symbol some FIRST set mentions. */
  ghost function FirstSymbols(firsts: Firsts): set<Symbol> {
    set s, x | s in firsts && x in firsts[s].items :: x
  }

  function NonTerminalNames(g: Grammar): set<string> {
    set n | n in g.nonTerminals
  }

  type Follows = map<string, FSet>

  /** The FOLLOW equations at position `i` of `p`: FIRST of the rest of the
      body is included in FOLLOW of the non-terminal there, and so is FOLLOW of
      the head when the rest is empty or starts nullable. */
  ghost predicate FollowClosedAt(firsts: Firsts, fo: Follows, p: Production, i: int)
    requires Covers(firsts, p.rhs) && 0 <= i < |p.rhs|
  {
    p.rhs[i].N? ==>
      && p.rhs[i].name in fo && p.lhs in fo
      && ScanFirst(firsts, p.rhs[i + 1..]).items <= fo[p.rhs[i].name].items
      && (ScanFirst(firsts, p.rhs[i + 1..]).eps || i + 1 == |p.rhs| ==>
            fo[p.lhs].items <= fo[p.rhs[i].name].items)
  }

  ghost predicate FollowClosed(firsts: Firsts, fo: Follows, p: Production)
    requires Covers(firsts, p.rhs)
  {
    forall i :: 0 <= i < |p.rhs| ==> FollowClosedAt(firsts, fo, p, i)
  }

  /** A solution of the FOLLOW equations: EOF follows the start symbol and
      every production position is closed. */
  ghost predicate IsFollowSolution(g: Grammar, firsts: Firsts, fo: Follows) {
    && NonTerminalNames(g) <= fo.Keys
    && g.start in fo && EOF in fo[g.start].items
    && forall p :: p in g.productions && Covers(firsts, p.rhs) ==> FollowClosed(firsts, fo, p)
  }

  /** What holds of the FOLLOW table between any two visits of a position. */
  ghost predicate FollowInv(g: Grammar, firsts: Firsts, fo: Follows) {
    && fo.Keys == NonTerminalNames(g)
    && Bounded(fo, NonTerminalNames(g), FirstSymbols(firsts) + {EOF})
    && (forall n :: n in fo ==> !fo[n].eps)
    && g.start in fo && EOF in fo[g.start].items
    && (forall Fo :: IsFollowSolution(g, firsts, Fo) ==> Below(fo, Fo))
  }

  lemma CoversBody(g: Grammar, firsts: Firsts, p: Production)
    requires WellFormed(g) && AllSymbols(g) <= firsts.Keys && p in g.productions
    ensures Covers(firsts, p.rhs) && p.lhs in NonTerminalNames(g)
    ensures forall s :: s in p.rhs && s.N? ==> s.name in NonTerminalNames(g)
  {
    forall s | s in p.rhs ensures s in firsts { DeclaredIsSymbol(g, s); }
  }

  /** The rest of a body after a position only mentions FIRST symbols. */
  lemma ScanFirstInSymbols(firsts: Firsts, beta: seq<Symbol>)
    requires Covers(firsts, beta)
    ensures ScanFirst(firsts, beta).items <= FirstSymbols(firsts)
  {
    forall s | s in beta ensures firsts[s].items <= FirstSymbols(firsts) {
      forall x | x in firsts[s].items ensures x in FirstSymbols(firsts) { }
    }
    ScanFirstBounded(firsts, beta, FirstSymbols(firsts));
  }

  /** Visiting position `i` of `p`: both updates keep the table below every
      solution. */
  lemma {:induction false} FollowStepKeepsInv(g: Grammar, firsts: Firsts, fo: Follows, p: Production, i: nat, fo': Follows)
    requires WellFormed(g) && AllSymbols(g) <= firsts.Keys && p in g.productions
    requires FollowInv(g, firsts, fo) && i < |p.rhs| && p.rhs[i].N?
    requires Covers(firsts, p.rhs) && p.lhs in fo && p.rhs[i].name in fo
    requires fo' == fo[p.rhs[i].name := Update(fo[p.rhs[i].name], ScanFirst(firsts, p.rhs[i + 1..])).0]
    ensures FollowInv(g, firsts, fo') && Below(fo, fo')
  {
    var Y := p.rhs[i].name;
    FactsGrowAt(fo, Y, fo'[Y]);
    ScanFirstInSymbols(firsts, p.rhs[i + 1..]);
    forall Fo | IsFollowSolution(g, firsts, Fo) ensures Below(fo', Fo) {
      assert FollowClosedAt(firsts, Fo, p, i);
    }
  }

  lemma {:induction false} FollowTailKeepsInv(g: Grammar, firsts: Firsts, fo: Follows, p: Production, i: nat, fo': Follows)
    requires WellFormed(g) && AllSymbols(g) <= firsts.Keys && p in g.productions
    requires FollowInv(g, firsts, fo) && i < |p.rhs| && p.rhs[i].N?
    requires Covers(firsts, p.rhs) && p.lhs in fo && p.rhs[i].name in fo
    requires ScanFirst(firsts, p.rhs[i + 1..]).eps || i + 1 == |p.rhs|
    requires fo' == fo[p.rhs[i].name := Update(fo[p.rhs[i].name], fo[p.lhs]).0]
    ensures FollowInv(g, firsts, fo') && Below(fo, fo')
  {
    var Y := p.rhs[i].name;
    FactsGrowAt(fo, Y, fo'[Y]);
    forall Fo | IsFollowSolution(g, firsts, Fo) ensures Below(fo', Fo) {
      assert FollowClosedAt(firsts, Fo, p, i);
    }
  }

  /** The inner loop of `compute_follows` over the positions of one body. */
  method FollowVisit(g: Grammar, firsts: Firsts, fo0: Follows, p: Production)
    returns (fo: Follows, change: bool)
    requires WellFormed(g) && AllSymbols(g) <= firsts.Keys && p in g.productions
    requires FollowInv(g, firsts, fo0)
    ensures FollowInv(g, firsts, fo) && Below(fo0, fo)
    ensures change ==> Facts(fo0) < Facts(fo)
    ensures !change ==> fo == fo0 && Covers(firsts, p.rhs) && FollowClosed(firsts, fo, p)
  {
    CoversBody(g, firsts, p);
    fo, change := fo0, false;
    BelowRefl(fo);
    var X, alpha := p.lhs, p.rhs;
    var i := 0;
    while i < |alpha|
      invariant 0 <= i <= |alpha|
      invariant FollowInv(g, firsts, fo) && Below(fo0, fo)
      invariant change ==> Facts(fo0) < Facts(fo)
      invariant !change ==> fo == fo0 && forall j :: 0 <= j < i ==> FollowClosedAt(firsts, fo, p, j)
    {
      if alpha[i].N? {
        var Y := alpha[i].name;
        var beta := alpha[i + 1..];
        var firstBeta := ScanFirst(firsts, beta);
        var (ny, c1) := Update(fo[Y], firstBeta);
        var fo1 := fo[Y := ny];
        FollowStepKeepsInv(g, firsts, fo, p, i, fo1);
        FactsGrowAt(fo, Y, ny);
        var c2 := false;
        var fo2 := fo1;
        if firstBeta.eps || |beta| == 0 {
          var (nz, cz) := Update(fo1[Y], fo1[X]);
          fo2 := fo1[Y := nz];
          c2 := cz;
          FollowTailKeepsInv(g, firsts, fo1, p, i, fo2);
          FactsGrowAt(fo1, Y, nz);
        }
        BelowTrans(fo0, fo, fo1);
        BelowTrans(fo0, fo1, fo2);
        FactsMonotone(fo0, fo);
        FactsMonotone(fo, fo1);
        FactsMonotone(fo1, fo2);
        fo := fo2;
        change := change || c1 || c2;
      }
      i := i + 1;
    }
  }

  method FollowPass(g: Grammar, firsts: Firsts, fo0: Follows) returns (fo: Follows, change: bool)
    requires WellFormed(g) && AllSymbols(g) <= firsts.Keys
    requires FollowInv(g, firsts, fo0)
    ensures FollowInv(g, firsts, fo) && Below(fo0, fo)
    ensures change ==> Facts(fo0) < Facts(fo)
    ensures !change ==> forall p :: p in g.productions ==> Covers(firsts, p.rhs) && FollowClosed(firsts, fo, p)
  {
    fo, change := fo0, false;
    BelowRefl(fo);
    var k := 0;
    while k < |g.productions|
      invariant 0 <= k <= |g.productions|
      invariant FollowInv(g, firsts, fo) && Below(fo0, fo)
      invariant change ==> Facts(fo0) < Facts(fo)
      invariant !change ==> fo == fo0 && forall j :: 0 <= j < k ==>
                  Covers(firsts, g.productions[j].rhs) && FollowClosed(firsts, fo, g.productions[j])
    {
      var fo', c := FollowVisit(g, firsts, fo, g.productions[k]);
      BelowTrans(fo0, fo, fo');
      FactsMonotone(fo0, fo);
      FactsMonotone(fo, fo');
      fo, change := fo', change || c;
      k := k + 1;
    }
  }

  /** `compute_follows`: every FOLLOW set starts empty except FOLLOW of the
      start symbol, which holds EOF; the loop stops after a pass that changed
      nothing, so the result is the least solution of the FOLLOW equations.
      FOLLOW sets never hold the epsilon marker.  (The source memoises FIRST
      of each body suffix; that cache is a pure function of its key.) */
  method ComputeFollows(g: Grammar, firsts: Firsts) returns (follows: Follows)
    requires WellFormed(g) && AllSymbols(g) <= firsts.Keys
    ensures follows.Keys == NonTerminalNames(g)
    ensures forall n :: n in follows ==> !follows[n].eps
    ensures IsFollowSolution(g, firsts, follows)
    ensures forall Fo :: IsFollowSolution(g, firsts, Fo) ==> Below(follows, Fo)
  {
    follows := map n | n in NonTerminalNames(g) :: if n == g.start then FSet({EOF}, false) else Empty;
    forall Fo | IsFollowSolution(g, firsts, Fo) ensures Below(follows, Fo) { }
    var syms := FirstSymbols(firsts) + {EOF};
    var change := true;
    while change
      invariant FollowInv(g, firsts, follows)
      invariant !change ==> forall p :: p in g.productions ==> Covers(firsts, p.rhs) && FollowClosed(firsts, follows, p)
      decreases Room(follows, NonTerminalNames(g), syms), change
    {
      ghost var fo0 := follows;
      follows, change := FollowPass(g, firsts, follows);
      FactsMonotone(fo0, follows);
      RoomShrinks(fo0, follows, NonTerminalNames(g), syms);
    }
  }
}
