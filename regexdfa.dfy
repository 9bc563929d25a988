/** `regex_from_dfa`: a regular expression read off a DFA by eliminating
    states.  The DFA's `in_transitions` and `out_transitions` label maps are
    edited in place: eliminating a state reroutes every path through it, then
    forgets it. */
module RegexSynthesis {
  import opened Grammars
  import opened Automata
  import Text

  type Labels = map<nat, map<nat, string>>

  // ---------------------------------------------------------------------
  // Eliminating one state

  /** A new label joined to the label already on an edge, if any. */
  function JoinedText(row: map<nat, string>, k: nat, s: string): string {
    if k in row then "(" + row[k] + ") | (" + s + ")" else s
  }

  /** The row with the label of `k` set to `s`. */
  function Put(row: map<nat, string>, k: nat, s: string): (r: map<nat, string>)
    ensures r.Keys == row.Keys + {k} && r[k] == s
    ensures forall x :: x in row && x != k ==> r[x] == row[x]
  {
    row[k := s]
  }

  /** The loop of `q`, starred, or nothing when `q` has no loop. */
  function Star(inT: Labels, q: nat): string
    requires q in inT
  {
    if q in inT[q] then "(" + inT[q][q] + ")*" else ""
  }

  /** The label of the path `p -> q -> r` once `q` is gone. */
  function Bypass(inT: Labels, outT: Labels, q: nat, p: nat, r: nat): string
    requires q in inT && q in outT && p in inT[q] && r in outT[q]
  {
    inT[q][p] + Star(inT, q) + outT[q][r]
  }

  /** The states with an edge into `q`, and those `q` leads to, loops aside. */
  function Sources(inT: Labels, q: nat): set<nat>
    requires q in inT
  {
    inT[q].Keys - {q}
  }

  function Targets(outT: Labels, q: nat): set<nat>
    requires q in outT
  {
    outT[q].Keys - {q}
  }

  /** Every rerouted pair goes from a source of `q` to a target of `q`. */
  ghost predicate Routed(inT: Labels, outT: Labels, q: nat, P: set<(nat, nat)>) {
    q in inT && q in outT && forall e :: e in P ==> e.0 in Sources(inT, q) && e.1 in Targets(outT, q)
  }

  /** The targets rerouted from `p` and the sources rerouted into `r`. */
  ghost function RoutedFrom(P: set<(nat, nat)>, p: nat): set<nat> {
    set e | e in P && e.0 == p :: e.1
  }

  ghost function RoutedTo(P: set<(nat, nat)>, r: nat): set<nat> {
    set e | e in P && e.1 == r :: e.0
  }

  /** The out-row of `p` once the pairs `P` are rerouted and, when `cut`, the
      edge to `q` is deleted. */
  ghost function RowOut(inT: Labels, outT: Labels, q: nat, P: set<(nat, nat)>, p: nat, cut: bool): map<nat, string>
    requires Routed(inT, outT, q, P) && p in outT
  {
    map r | r in outT[p].Keys + RoutedFrom(P, p) && !(cut && r == q) ::
      if (p, r) in P then JoinedText(outT[p], r, Bypass(inT, outT, q, p, r)) else outT[p][r]
  }

  /** The in-row of `r` once the pairs `P` are rerouted and, when `cut`, the
      edge from `q` is deleted. */
  ghost function RowIn(inT: Labels, outT: Labels, q: nat, P: set<(nat, nat)>, r: nat, cut: bool): map<nat, string>
    requires Routed(inT, outT, q, P) && r in inT
  {
    map p | p in inT[r].Keys + RoutedTo(P, r) && !(cut && p == q) ::
      if (p, r) in P then JoinedText(inT[r], p, Bypass(inT, outT, q, p, r)) else inT[r][p]
  }

  /** Every source of `q` paired with every target of `q`. */
  ghost function AllPairs(inT: Labels, outT: Labels, q: nat): set<(nat, nat)>
    requires q in inT && q in outT
  {
    set p, r | p in Sources(inT, q) && r in Targets(outT, q) :: (p, r)
  }

  lemma AllPairsRouted(inT: Labels, outT: Labels, q: nat)
    requires q in inT && q in outT
    ensures Routed(inT, outT, q, AllPairs(inT, outT, q))
  {
  }

  /** `out_transitions` after `q` is eliminated. */
  ghost function OutAfter(inT: Labels, outT: Labels, q: nat): Labels
    requires q in inT && q in outT
  {
    AllPairsRouted(inT, outT, q);
    map p | p in outT.Keys - {q} :: RowOut(inT, outT, q, AllPairs(inT, outT, q), p, p in Sources(inT, q))
  }

  /** `in_transitions` after `q` is eliminated. */
  ghost function InAfter(inT: Labels, outT: Labels, q: nat): Labels
    requires q in inT && q in outT
  {
    AllPairsRouted(inT, outT, q);
    map r | r in inT.Keys - {q} :: RowIn(inT, outT, q, AllPairs(inT, outT, q), r, r in outT[q])
  }

  /** The out-rows while the pairs `P` are rerouted and the rows of `cut` have
      lost their edge to `q`. */
  ghost predicate OutsAt(inT: Labels, outT: Labels, q: nat, P: set<(nat, nat)>, cut: set<nat>, outs: Labels)
    requires Routed(inT, outT, q, P)
  {
    outs.Keys == outT.Keys && forall p :: p in outs ==> outs[p] == RowOut(inT, outT, q, P, p, p in cut)
  }

  /** The in-rows while the pairs `P` are rerouted and the rows of `cut` have
      lost their edge from `q`. */
  ghost predicate InsAt(inT: Labels, outT: Labels, q: nat, P: set<(nat, nat)>, cut: set<nat>, ins: Labels)
    requires Routed(inT, outT, q, P)
  {
    ins.Keys == inT.Keys && forall r :: r in ins ==> ins[r] == RowIn(inT, outT, q, P, r, r in cut)
  }

  lemma RowOutStart(inT: Labels, outT: Labels, q: nat, p: nat)
    requires q in inT && q in outT && p in outT
    ensures RowOut(inT, outT, q, {}, p, false) == outT[p]
  {
    assert Routed(inT, outT, q, {});
  }

  lemma RowInStart(inT: Labels, outT: Labels, q: nat, r: nat)
    requires q in inT && q in outT && r in inT
    ensures RowIn(inT, outT, q, {}, r, false) == inT[r]
  {
    assert Routed(inT, outT, q, {});
  }

  /** Rerouting one more pair changes the out-row of its source only, by
      joining the bypass label to its target. */
  lemma RowOutRouted(inT: Labels, outT: Labels, q: nat, P: set<(nat, nat)>, p: nat, r: nat, x: nat, cut: bool)
    requires Routed(inT, outT, q, P + {(p, r)}) && (p, r) !in P && x in outT && r != q
    ensures Routed(inT, outT, q, P)
    ensures RowOut(inT, outT, q, P + {(p, r)}, x, cut) ==
              if x == p then Put(RowOut(inT, outT, q, P, x, cut), r, JoinedText(outT[p], r, Bypass(inT, outT, q, p, r)))
              else RowOut(inT, outT, q, P, x, cut)
  {
    assert Routed(inT, outT, q, P);
    var P' := P + {(p, r)};
    assert RoutedFrom(P', x) == RoutedFrom(P, x) + (if x == p then {r} else {});
  }

  lemma RowInRouted(inT: Labels, outT: Labels, q: nat, P: set<(nat, nat)>, p: nat, r: nat, x: nat, cut: bool)
    requires Routed(inT, outT, q, P + {(p, r)}) && (p, r) !in P && x in inT && p != q
    ensures Routed(inT, outT, q, P)
    ensures RowIn(inT, outT, q, P + {(p, r)}, x, cut) ==
              if x == r then Put(RowIn(inT, outT, q, P, x, cut), p, JoinedText(inT[r], p, Bypass(inT, outT, q, p, r)))
              else RowIn(inT, outT, q, P, x, cut)
  {
    assert Routed(inT, outT, q, P);
    var P' := P + {(p, r)};
    assert RoutedTo(P', x) == RoutedTo(P, x) + (if x == r then {p} else {});
  }

  /** Rerouting `p -> q -> r` joins the bypass label to the row of `p`. */
  lemma OutRouteStep(inT: Labels, outT: Labels, q: nat, P: set<(nat, nat)>, cut: set<nat>, outs: Labels, p: nat, r: nat)
    requires Routed(inT, outT, q, P) && OutsAt(inT, outT, q, P, cut, outs)
    requires p in Sources(inT, q) && r in Targets(outT, q) && (p, r) !in P && p !in cut && p in outT
    ensures Routed(inT, outT, q, P + {(p, r)})
    ensures OutsAt(inT, outT, q, P + {(p, r)}, cut,
                   outs[p := Put(outs[p], r, JoinedText(outs[p], r, Bypass(inT, outT, q, p, r)))])
  {
    var P' := P + {(p, r)};
    assert Routed(inT, outT, q, P');
    var outs' := outs[p := Put(outs[p], r, JoinedText(outs[p], r, Bypass(inT, outT, q, p, r)))];
    forall x | x in outs' ensures outs'[x] == RowOut(inT, outT, q, P', x, x in cut) {
      RowOutRouted(inT, outT, q, P, p, r, x, x in cut);
      if x == p {
        assert r in outs[p] <==> r in outT[p];
        assert r in outs[p] ==> outs[p][r] == outT[p][r];
      }
    }
  }

  /** Rerouting `p -> q -> r` joins the bypass label to the in-row of `r`. */
  lemma InRouteStep(inT: Labels, outT: Labels, q: nat, P: set<(nat, nat)>, cut: set<nat>, ins: Labels, p: nat, r: nat)
    requires Routed(inT, outT, q, P) && InsAt(inT, outT, q, P, cut, ins)
    requires p in Sources(inT, q) && r in Targets(outT, q) && (p, r) !in P && r !in cut && r in inT
    ensures Routed(inT, outT, q, P + {(p, r)})
    ensures InsAt(inT, outT, q, P + {(p, r)}, cut,
                  ins[r := Put(ins[r], p, JoinedText(ins[r], p, Bypass(inT, outT, q, p, r)))])
  {
    var P' := P + {(p, r)};
    assert Routed(inT, outT, q, P');
    var ins' := ins[r := Put(ins[r], p, JoinedText(ins[r], p, Bypass(inT, outT, q, p, r)))];
    forall x | x in ins' ensures ins'[x] == RowIn(inT, outT, q, P', x, x in cut) {
      RowInRouted(inT, outT, q, P, p, r, x, x in cut);
      if x == r {
        assert p in ins[r] <==> p in inT[r];
        assert p in ins[r] ==> ins[r][p] == inT[r][p];
      }
    }
  }

  /** Deleting the edge from `p` to `q`. */
  lemma OutCutStep(inT: Labels, outT: Labels, q: nat, P: set<(nat, nat)>, cut: set<nat>, outs: Labels, p: nat)
    requires Routed(inT, outT, q, P) && OutsAt(inT, outT, q, P, cut, outs) && p in outs
    ensures OutsAt(inT, outT, q, P, cut + {p}, outs[p := outs[p] - {q}])
  {
  }

  /** Deleting the edge from `q` to `r`. */
  lemma InCutStep(inT: Labels, outT: Labels, q: nat, P: set<(nat, nat)>, cut: set<nat>, ins: Labels, r: nat)
    requires Routed(inT, outT, q, P) && InsAt(inT, outT, q, P, cut, ins) && r in ins
    ensures InsAt(inT, outT, q, P, cut + {r}, ins[r := ins[r] - {q}])
  {
  }

  /** The rows once every pair is rerouted and every source has lost its edge
      to `q`, with the row of `q` itself dropped, are `out_transitions` after
      the elimination. */
  lemma OutsDone(inT: Labels, outT: Labels, q: nat, outs: Labels)
    requires q in inT && q in outT
    requires Routed(inT, outT, q, AllPairs(inT, outT, q))
    requires OutsAt(inT, outT, q, AllPairs(inT, outT, q), Sources(inT, q), outs)
    ensures outs - {q} == OutAfter(inT, outT, q)
  {
  }

  lemma InsDone(inT: Labels, outT: Labels, q: nat, ins: Labels)
    requires q in inT && q in outT
    requires Routed(inT, outT, q, AllPairs(inT, outT, q))
    requires InsAt(inT, outT, q, AllPairs(inT, outT, q), outT[q].Keys, ins)
    ensures ins - {q} == InAfter(inT, outT, q)
  {
  }

  lemma AllPairsMember(inT: Labels, outT: Labels, q: nat, p: nat, r: nat)
    requires q in inT && q in outT
    ensures (p, r) in AllPairs(inT, outT, q) <==> p in Sources(inT, q) && r in Targets(outT, q)
  {
  }

  /** The row of `p` after the elimination. */
  lemma OutAfterAt(inT: Labels, outT: Labels, q: nat, p: nat)
    requires q in inT && q in outT && p in outT && p != q
    ensures Routed(inT, outT, q, AllPairs(inT, outT, q))
    ensures p in OutAfter(inT, outT, q)
    ensures OutAfter(inT, outT, q)[p] == RowOut(inT, outT, q, AllPairs(inT, outT, q), p, p in Sources(inT, q))
  {
    AllPairsRouted(inT, outT, q);
  }

  lemma InAfterAt(inT: Labels, outT: Labels, q: nat, r: nat)
    requires q in inT && q in outT && r in inT && r != q
    ensures Routed(inT, outT, q, AllPairs(inT, outT, q))
    ensures r in InAfter(inT, outT, q)
    ensures InAfter(inT, outT, q)[r] == RowIn(inT, outT, q, AllPairs(inT, outT, q), r, r in outT[q])
  {
    AllPairsRouted(inT, outT, q);
  }

  /** An entry of an out-row: rerouted pairs carry the joined label, the
      others their old one. */
  lemma RowOutEntry(inT: Labels, outT: Labels, q: nat, P: set<(nat, nat)>, p: nat, cut: bool, r: nat)
    requires Routed(inT, outT, q, P) && p in outT && !(cut && r == q)
    ensures r in RowOut(inT, outT, q, P, p, cut) <==> r in outT[p] || (p, r) in P
    ensures (p, r) in P ==>
              r in RowOut(inT, outT, q, P, p, cut) &&
              RowOut(inT, outT, q, P, p, cut)[r] == JoinedText(outT[p], r, Bypass(inT, outT, q, p, r))
    ensures (p, r) !in P && r in outT[p] ==> RowOut(inT, outT, q, P, p, cut)[r] == outT[p][r]
  {
    assert (p, r) in P ==> r in RoutedFrom(P, p);
    assert r in RoutedFrom(P, p) ==> (p, r) in P;
  }

  lemma RowInEntry(inT: Labels, outT: Labels, q: nat, P: set<(nat, nat)>, r: nat, cut: bool, p: nat)
    requires Routed(inT, outT, q, P) && r in inT && !(cut && p == q)
    ensures p in RowIn(inT, outT, q, P, r, cut) <==> p in inT[r] || (p, r) in P
    ensures (p, r) in P ==>
              p in RowIn(inT, outT, q, P, r, cut) &&
              RowIn(inT, outT, q, P, r, cut)[p] == JoinedText(inT[r], p, Bypass(inT, outT, q, p, r))
    ensures (p, r) !in P && p in inT[r] ==> RowIn(inT, outT, q, P, r, cut)[p] == inT[r][p]
  {
    assert (p, r) in P ==> p in RoutedTo(P, r);
    assert p in RoutedTo(P, r) ==> (p, r) in P;
  }

  // ---------------------------------------------------------------------
  // What one elimination does

  /** After the elimination `q` is forgotten: it has no rows and no row
      mentions it. */
  lemma EliminationForgets(inT: Labels, outT: Labels, q: nat)
    requires Mirror(inT, outT) && q in outT
    ensures q !in OutAfter(inT, outT, q) && q !in InAfter(inT, outT, q)
    ensures forall p :: p in OutAfter(inT, outT, q) ==> q !in OutAfter(inT, outT, q)[p]
    ensures forall r :: r in InAfter(inT, outT, q) ==> q !in InAfter(inT, outT, q)[r]
  {
    AllPairsRouted(inT, outT, q);
  }

  /** Every path `p -> q -> r` between two other states becomes an edge from
      `p` to `r`, its label joined to the one already there. */
  lemma EliminationReroutes(inT: Labels, outT: Labels, q: nat, p: nat, r: nat)
    requires Mirror(inT, outT) && q in outT
    requires p in Sources(inT, q) && r in Targets(outT, q)
    ensures p in OutAfter(inT, outT, q) && r in OutAfter(inT, outT, q)[p]
    ensures OutAfter(inT, outT, q)[p][r] == JoinedText(outT[p], r, Bypass(inT, outT, q, p, r))
    ensures r in InAfter(inT, outT, q) && p in InAfter(inT, outT, q)[r]
    ensures InAfter(inT, outT, q)[r][p] == JoinedText(inT[r], p, Bypass(inT, outT, q, p, r))
  {
    AllPairsMember(inT, outT, q, p, r);
    OutAfterAt(inT, outT, q, p);
    InAfterAt(inT, outT, q, r);
    RowOutEntry(inT, outT, q, AllPairs(inT, outT, q), p, p in Sources(inT, q), r);
    RowInEntry(inT, outT, q, AllPairs(inT, outT, q), r, r in outT[q], p);
  }

  /** Every other edge between two other states keeps its label. */
  lemma EliminationKeeps(inT: Labels, outT: Labels, q: nat, p: nat, r: nat)
    requires Mirror(inT, outT) && q in outT
    requires p in outT && p != q && r != q && !(p in Sources(inT, q) && r in Targets(outT, q))
    ensures p in OutAfter(inT, outT, q)
    ensures r in OutAfter(inT, outT, q)[p] <==> r in outT[p]
    ensures r in outT[p] ==> OutAfter(inT, outT, q)[p][r] == outT[p][r]
  {
    AllPairsMember(inT, outT, q, p, r);
    OutAfterAt(inT, outT, q, p);
    RowOutEntry(inT, outT, q, AllPairs(inT, outT, q), p, p in Sources(inT, q), r);
  }

  /** The two label maps still mirror each other after the elimination. */
  lemma EliminationMirror(inT: Labels, outT: Labels, q: nat)
    requires Mirror(inT, outT) && q in outT
    ensures Mirror(InAfter(inT, outT, q), OutAfter(inT, outT, q))
  {
    EliminationForgets(inT, outT, q);
    OutsAfterMirrored(inT, outT, q);
    InsAfterMirrored(inT, outT, q);
  }

  lemma OutsAfterMirrored(inT: Labels, outT: Labels, q: nat)
    requires Mirror(inT, outT) && q in outT
    ensures OutsMirrored(InAfter(inT, outT, q), OutAfter(inT, outT, q))
  {
    var ins, outs := InAfter(inT, outT, q), OutAfter(inT, outT, q);
    forall o | o in outs ensures forall x :: x in outs[o] ==> x in ins && o in ins[x] && ins[x][o] == outs[o][x] {
      forall x | x in outs[o] ensures x in ins && o in ins[x] && ins[x][o] == outs[o][x] {
        OutEdgeAfter(inT, outT, q, o, x);
      }
    }
    assert OutsMirrored(ins, outs);
  }

  lemma InsAfterMirrored(inT: Labels, outT: Labels, q: nat)
    requires Mirror(inT, outT) && q in outT
    ensures InsMirrored(InAfter(inT, outT, q), OutAfter(inT, outT, q))
  {
    var ins, outs := InAfter(inT, outT, q), OutAfter(inT, outT, q);
    forall x | x in ins ensures forall o :: o in ins[x] ==> o in outs && x in outs[o] {
      forall o | o in ins[x] ensures o in outs && x in outs[o] {
        InEdgeAfter(inT, outT, q, o, x);
      }
    }
    assert InsMirrored(ins, outs);
  }

  lemma OutEdgeAfter(inT: Labels, outT: Labels, q: nat, o: nat, x: nat)
    requires Mirror(inT, outT) && q in outT
    requires o in OutAfter(inT, outT, q) && x in OutAfter(inT, outT, q)[o]
    ensures x in InAfter(inT, outT, q) && o in InAfter(inT, outT, q)[x]
    ensures InAfter(inT, outT, q)[x][o] == OutAfter(inT, outT, q)[o][x]
  {
    EliminationForgets(inT, outT, q);
    AllPairsMember(inT, outT, q, o, x);
    if o in Sources(inT, q) && x in Targets(outT, q) {
      EliminationReroutes(inT, outT, q, o, x);
    } else {
      EliminationKeeps(inT, outT, q, o, x);
      assert x in inT && o in inT[x] && inT[x][o] == outT[o][x];
      InAfterAt(inT, outT, q, x);
      RowInEntry(inT, outT, q, AllPairs(inT, outT, q), x, x in outT[q], o);
    }
  }

  lemma InEdgeAfter(inT: Labels, outT: Labels, q: nat, o: nat, x: nat)
    requires Mirror(inT, outT) && q in outT
    requires x in InAfter(inT, outT, q) && o in InAfter(inT, outT, q)[x]
    ensures o in OutAfter(inT, outT, q) && x in OutAfter(inT, outT, q)[o]
  {
    EliminationForgets(inT, outT, q);
    AllPairsMember(inT, outT, q, o, x);
    if o in Sources(inT, q) && x in Targets(outT, q) {
      EliminationReroutes(inT, outT, q, o, x);
    } else {
      InAfterAt(inT, outT, q, x);
      RowInEntry(inT, outT, q, AllPairs(inT, outT, q), x, x in outT[q], o);
      assert o in inT[x];
      assert o in outT && x in outT[o];
      EliminationKeeps(inT, outT, q, o, x);
    }
  }

  /** Labels stay non-empty: a rerouted label ends with the label of an
      edge leaving `q`, a joined one starts with a parenthesis. */
  lemma EliminationNonblank(inT: Labels, outT: Labels, q: nat)
    requires Mirror(inT, outT) && Nonblank(outT) && q in outT
    ensures Nonblank(OutAfter(inT, outT, q))
  {
    var outs := OutAfter(inT, outT, q);
    forall p, r | p in outs && r in outs[p] ensures outs[p][r] != "" {
      OutAfterAt(inT, outT, q, p);
      AllPairsMember(inT, outT, q, p, r);
      RowOutEntry(inT, outT, q, AllPairs(inT, outT, q), p, p in Sources(inT, q), r);
      if p in Sources(inT, q) && r in Targets(outT, q) {
        var b := Bypass(inT, outT, q, p, r);
        assert b[|b| - 1] == outT[q][r][|outT[q][r]| - 1];
      }
    }
  }

  /** Under mirrored maps the in-labels are the out-labels. */
  lemma MirrorNonblank(inT: Labels, outT: Labels)
    requires Mirror(inT, outT) && Nonblank(outT)
    ensures Nonblank(inT)
  {
    forall x, o | x in inT && o in inT[x] ensures inT[x][o] != "" {
      assert o in outT && x in outT[o];
    }
  }

  /** The pairs `P` are those from a source in `S` to a target of `q`. */
  ghost predicate PairsFrom(inT: Labels, outT: Labels, q: nat, P: set<(nat, nat)>, S: set<nat>)
    requires q in outT
  {
    forall e :: e in P <==> e.0 in S && e.1 in Targets(outT, q)
  }

  lemma PairsAll(inT: Labels, outT: Labels, q: nat, P: set<(nat, nat)>)
    requires q in inT && q in outT && PairsFrom(inT, outT, q, P, Sources(inT, q))
    ensures P == AllPairs(inT, outT, q)
  {
    forall e | e in AllPairs(inT, outT, q) ensures e in P {
      AllPairsMember(inT, outT, q, e.0, e.1);
    }
  }

  // ---------------------------------------------------------------------
  // The elimination, in place

  /** What the pass over `q` looks up and deletes is there: every source of
      `q` has an out-row holding `q`, every state `q` leads to has an in-row
      holding `q`.  The mirrored label maps guarantee it. */
  ghost predicate Linked(inT: Labels, outT: Labels, q: nat) {
    && q in inT && q in outT
    && (forall t :: t in Sources(inT, q) ==> t in outT && q in outT[t])
    && (forall r :: r in outT[q] ==> r in inT && q in inT[r])
  }

  lemma MirrorLinked(inT: Labels, outT: Labels, q: nat)
    requires Mirror(inT, outT) && q in outT
    ensures Linked(inT, outT, q)
  {
  }

  /** Both maps while the pairs `P` are rerouted and the sources in `cut`
      have lost their edge to `q`. */
  ghost predicate Midway(inT: Labels, outT: Labels, q: nat, P: set<(nat, nat)>, cut: set<nat>, outs: Labels, ins: Labels) {
    Routed(inT, outT, q, P) && OutsAt(inT, outT, q, P, cut, outs) && InsAt(inT, outT, q, P, {}, ins)
  }

  lemma RouteStep(inT: Labels, outT: Labels, q: nat, P: set<(nat, nat)>, cut: set<nat>, outs: Labels, ins: Labels, t: nat, t2: nat)
    requires Linked(inT, outT, q) && Midway(inT, outT, q, P, cut, outs, ins)
    requires t in Sources(inT, q) && t2 in Targets(outT, q) && (t, t2) !in P && t !in cut
    ensures t in outs && t2 in ins
    ensures Midway(inT, outT, q, P + {(t, t2)}, cut,
                   outs[t := Put(outs[t], t2, JoinedText(outs[t], t2, Bypass(inT, outT, q, t, t2)))],
                   ins[t2 := Put(ins[t2], t, JoinedText(ins[t2], t, Bypass(inT, outT, q, t, t2)))])
  {
    OutRouteStep(inT, outT, q, P, cut, outs, t, t2);
    InRouteStep(inT, outT, q, P, {}, ins, t, t2);
  }

  lemma CutStep(inT: Labels, outT: Labels, q: nat, P: set<(nat, nat)>, cut: set<nat>, outs: Labels, ins: Labels, t: nat)
    requires Linked(inT, outT, q) && Midway(inT, outT, q, P, cut, outs, ins) && t in Sources(inT, q)
    ensures t in outs && Midway(inT, outT, q, P, cut + {t}, outs[t := outs[t] - {q}], ins)
  {
    OutCutStep(inT, outT, q, P, cut, outs, t);
  }

  /** The pairs `P` are those of `P0` and those from `t` to a state of `S`. */
  ghost predicate PairsUpTo(P: set<(nat, nat)>, P0: set<(nat, nat)>, t: nat, S: set<nat>) {
    forall e :: e in P <==> e in P0 || (e.0 == t && e.1 in S)
  }

  lemma PairsUpToStep(P: set<(nat, nat)>, P0: set<(nat, nat)>, t: nat, T: set<nat>, rest: set<nat>, t2: nat)
    requires PairsUpTo(P, P0, t, T - rest) && t2 in rest && rest <= T
    ensures PairsUpTo(P + {(t, t2)}, P0, t, T - (rest - {t2}))
  {
  }

  lemma PairsFromStep(inT: Labels, outT: Labels, q: nat, P0: set<(nat, nat)>, P: set<(nat, nat)>, done: set<nat>, t: nat)
    requires q in outT && PairsFrom(inT, outT, q, P0, done) && PairsUpTo(P, P0, t, Targets(outT, q))
    ensures PairsFrom(inT, outT, q, P, done + {t})
  {
  }

  lemma PairsFromFree(inT: Labels, outT: Labels, q: nat, P: set<(nat, nat)>, done: set<nat>, t: nat)
    requires q in outT && PairsFrom(inT, outT, q, P, done) && t !in done
    ensures forall e :: e in P ==> e.0 != t
  {
  }

  /** The inner loop for one source `t` of `q`: every target `t2` of `q`
      gets the label of `t -> q -> t2` joined to its edge from `t`, in both
      label maps.  The labels of `q`'s own rows are read from before the
      loop; no turn changes them. */
  method RouteFrom(inT: Labels, outT: Labels, q: nat, ghost P0: set<(nat, nat)>, ghost cut: set<nat>,
                   outs0: Labels, ins0: Labels, t: nat)
    returns (outs: Labels, ins: Labels, ghost P: set<(nat, nat)>)
    requires Linked(inT, outT, q) && Midway(inT, outT, q, P0, cut, outs0, ins0)
    requires t in Sources(inT, q) && t !in cut && forall e :: e in P0 ==> e.0 != t
    ensures Midway(inT, outT, q, P, cut, outs, ins)
    ensures PairsUpTo(P, P0, t, Targets(outT, q))
  {
    outs, ins, P := outs0, ins0, P0;
    var targets := Targets(outT, q);
    while targets != {}
      invariant targets <= Targets(outT, q)
      invariant PairsUpTo(P, P0, t, Targets(outT, q) - targets)
      invariant Midway(inT, outT, q, P, cut, outs, ins)
      decreases targets
    {
      var t2 := Pick(targets);
      RouteStep(inT, outT, q, P, cut, outs, ins, t, t2);
      PairsUpToStep(P, P0, t, Targets(outT, q), targets, t2);
      var symbol := Bypass(inT, outT, q, t, t2);
      outs := outs[t := Put(outs[t], t2, JoinedText(outs[t], t2, symbol))];
      ins := ins[t2 := Put(ins[t2], t, JoinedText(ins[t2], t, symbol))];
      P := P + {(t, t2)};
      targets := targets - {t2};
    }
  }

  /** The outer loop over the sources of `q`: all paths through `q`
      rerouted, every source cut off from `q`. */
  method RouteAll(inT: Labels, outT: Labels, q: nat) returns (outs: Labels, ins: Labels, ghost P: set<(nat, nat)>)
    requires Linked(inT, outT, q)
    ensures P == AllPairs(inT, outT, q) && Midway(inT, outT, q, P, Sources(inT, q), outs, ins)
  {
    outs, ins, P := outT, inT, {};
    assert Routed(inT, outT, q, P);
    forall p | p in outs ensures outs[p] == RowOut(inT, outT, q, P, p, p in {}) {
      RowOutStart(inT, outT, q, p);
    }
    forall r | r in ins ensures ins[r] == RowIn(inT, outT, q, P, r, r in {}) {
      RowInStart(inT, outT, q, r);
    }
    var done: set<nat> := {};
    while done != Sources(inT, q)
      invariant done <= Sources(inT, q)
      invariant PairsFrom(inT, outT, q, P, done)
      invariant Midway(inT, outT, q, P, done, outs, ins)
      decreases Sources(inT, q) - done
    {
      var t := Pick(Sources(inT, q) - done);
      PairsFromFree(inT, outT, q, P, done, t);
      ghost var P0 := P;
      outs, ins, P := RouteFrom(inT, outT, q, P, done, outs, ins, t);
      PairsFromStep(inT, outT, q, P0, P, done, t);
      CutStep(inT, outT, q, P, done, outs, ins, t);
      outs := outs[t := outs[t] - {q}];
      done := done + {t};
    }
    PairsAll(inT, outT, q, P);
  }

  /** The loop over the targets of `q`: each loses its edge from `q`. */
  method CutIns(inT: Labels, outT: Labels, q: nat, ghost P: set<(nat, nat)>, ins0: Labels) returns (ins: Labels)
    requires Linked(inT, outT, q) && Routed(inT, outT, q, P) && InsAt(inT, outT, q, P, {}, ins0)
    ensures InsAt(inT, outT, q, P, outT[q].Keys, ins)
  {
    ins := ins0;
    var items := outT[q].Keys;
    ghost var cut: set<nat> := {};
    while items != {}
      invariant items <= outT[q].Keys && cut == outT[q].Keys - items
      invariant InsAt(inT, outT, q, P, cut, ins)
      decreases items
    {
      var item := Pick(items);
      InCutStep(inT, outT, q, P, cut, ins, item);
      ins := ins[item := ins[item] - {q}];
      cut := cut + {item};
      items := items - {item};
    }
  }

  /** One pass of the outer loop for a popped state `q` other than the
      start: every path through `q` is rerouted, the sources lose their edge
      to `q`, its targets their edge from `q`, and its rows and its count go.
      The label maps must mirror each other, as the constructor leaves them
      and every elimination keeps them (`EliminationMirror`), is enough for
      every lookup and `del` of the pass to find its key. */
  method Eliminate(d: Dfa, q: nat)
    requires Linked(d.inT, d.outT, q) && d.states >= 1
    modifies d`inT, d`outT, d`states
    ensures d.outT == OutAfter(old(d.inT), old(d.outT), q)
    ensures d.inT == InAfter(old(d.inT), old(d.outT), q)
    ensures d.states == old(d.states) - 1
  {
    var inT, outT, n := d.inT, d.outT, d.states;
    var outs, ins, P := RouteAll(inT, outT, q);
    ins := CutIns(inT, outT, q, P, ins);
    OutsDone(inT, outT, q, outs);
    InsDone(inT, outT, q, ins);
    d.outT := outs - {q};
    d.inT := ins - {q};
    d.states := n - 1;
  }

  // ---------------------------------------------------------------------
  // The outer loop

  /** The label maps mirror each other and carry no empty label, every
      counted state has a row, the start has one and the finals are listed
      once each. */
  ghost predicate Shaped(d: Dfa)
    reads d
  {
    Mirror(d.inT, d.outT) && Nonblank(d.outT) && |d.outT.Keys| == d.states && d.start in d.outT && NoDup(d.finals)
  }

  lemma {:induction false} RangeCard(n: nat)
    ensures |Range(n)| == n
  {
    if n > 0 {
      RangeCard(n - 1);
      assert Range(n) == Range(n - 1) + {n - 1};
    }
  }

  /** A DFA as the constructor leaves it, with its start in range, is
      shaped. */
  lemma LabelledShaped(d: Dfa)
    requires d.Labelled() && d.start < d.states
    ensures Shaped(d)
  {
    RangeCard(d.states);
  }

  /** The start loops on itself and is not final: every time the outer loop
      pops the start it pushes it back. */
  predicate StartLoops(d: Dfa)
    reads d
  {
    d.start in d.outT && d.start in d.outT[d.start] && d.start !in d.finals
  }

  /** The label maps after eliminating the states of `order`, in order. */
  ghost function AfterAll(inT: Labels, outT: Labels, order: seq<nat>): (Labels, Labels)
    decreases |order|
  {
    if order == [] then (inT, outT)
    else
      var prev := AfterAll(inT, outT, order[..|order| - 1]);
      var q := order[|order| - 1];
      if q in prev.0 && q in prev.1 then (InAfter(prev.0, prev.1, q), OutAfter(prev.0, prev.1, q)) else prev
  }

  lemma AfterAllSnoc(inT: Labels, outT: Labels, order: seq<nat>, q: nat)
    requires q in AfterAll(inT, outT, order).0 && q in AfterAll(inT, outT, order).1
    ensures AfterAll(inT, outT, order + [q]) ==
              (InAfter(AfterAll(inT, outT, order).0, AfterAll(inT, outT, order).1, q),
               OutAfter(AfterAll(inT, outT, order).0, AfterAll(inT, outT, order).1, q))
  {
    assert (order + [q])[..|order|] == order;
  }

  /** Eliminating states one after the other keeps the label maps mirrored
      and forgets exactly the eliminated states. */
  lemma {:induction false} AfterAllMirror(inT: Labels, outT: Labels, order: seq<nat>)
    requires Mirror(inT, outT) && Nonblank(outT) && NoDup(order) && Elems(order) <= outT.Keys
    ensures Mirror(AfterAll(inT, outT, order).0, AfterAll(inT, outT, order).1)
    ensures Nonblank(AfterAll(inT, outT, order).1)
    ensures AfterAll(inT, outT, order).1.Keys == outT.Keys - Elems(order)
    decreases |order|
  {
    if order != [] {
      var init := order[..|order| - 1];
      var q := order[|order| - 1];
      assert order == init + [q];
      assert Elems(order) == Elems(init) + {q};
      AfterAllMirror(inT, outT, init);
      var prev := AfterAll(inT, outT, init);
      assert q in prev.1;
      EliminationMirror(prev.0, prev.1, q);
      EliminationNonblank(prev.0, prev.1, q);
      AfterAllSnoc(inT, outT, init, q);
    }
  }

  lemma NoDupConcat(a: seq<nat>, b: seq<nat>)
    requires NoDup(a) && NoDup(b) && Elems(a) !! Elems(b)
    ensures NoDup(a + b)
  {
    forall i, j | 0 <= i < j < |a + b| ensures (a + b)[i] != (a + b)[j] {
      if i < |a| && j >= |a| {
        assert (a + b)[i] in Elems(a) && (a + b)[j] in Elems(b);
      }
    }
  }

  /** A loop on a state other than `q` survives the elimination of `q`. */
  lemma SelfLoopKept(inT: Labels, outT: Labels, q: nat, p: nat)
    requires Mirror(inT, outT) && q in outT && p in outT && p != q && p in outT[p]
    ensures p in OutAfter(inT, outT, q) && p in OutAfter(inT, outT, q)[p]
  {
    if p in Sources(inT, q) && p in Targets(outT, q) {
      EliminationReroutes(inT, outT, q, p, p);
    } else {
      EliminationKeeps(inT, outT, q, p, p);
    }
  }

  /** What the outer loop keeps: the maps are those after eliminating
      `order` from maps that mirrored each other with one row per counted
      state; `order` holds distinct states that were neither final (`F`) nor
      the start; the stacked states `S` are live and, the start aside, not
      final. */
  ghost predicate Reduced(inT: Labels, outT: Labels, n: nat, start: nat, F: set<nat>,
                          inT0: Labels, outT0: Labels, n0: nat, S: set<nat>, order: seq<nat>) {
    && Mirror(inT0, outT0) && Nonblank(outT0) && |outT0.Keys| == n0 && start in outT0
    && (inT, outT) == AfterAll(inT0, outT0, order)
    && NoDup(order) && Elems(order) <= outT0.Keys - F - {start}
    && n == n0 - |order|
    && S <= outT0.Keys - Elems(order) && (S - {start}) !! F
  }

  ghost predicate Reducing(d: Dfa, inT0: Labels, outT0: Labels, n0: nat, stack: seq<nat>, order: seq<nat>)
    reads d
  {
    NoDup(d.finals) && NoDup(stack) &&
    Reduced(d.inT, d.outT, d.states, d.start, Elems(d.finals), inT0, outT0, n0, Elems(stack), order)
  }

  /** The invariant's consequences: the current maps mirror each other, the
      live states are the original ones but the eliminated. */
  lemma ReducedShape(inT: Labels, outT: Labels, n: nat, start: nat, F: set<nat>,
                     inT0: Labels, outT0: Labels, n0: nat, S: set<nat>, order: seq<nat>)
    requires Reduced(inT, outT, n, start, F, inT0, outT0, n0, S, order)
    ensures Mirror(inT, outT) && Nonblank(outT) && outT.Keys == outT0.Keys - Elems(order) && |outT.Keys| == n
    ensures start in outT && S <= outT.Keys
  {
    AfterAllMirror(inT0, outT0, order);
    NoDupCard(order);
    assert outT0.Keys == outT.Keys + Elems(order);
  }

  /** The states the pop of `q` pushes onto a stack holding `S`: when `q`
      has a source other than itself, its targets other than itself that are
      neither stacked, final nor the start. */
  ghost function Pushed(inT: Labels, outT: Labels, q: nat, start: nat, F: set<nat>, S: set<nat>): set<nat>
    requires q in inT && q in outT
  {
    if Sources(inT, q) != {} then Targets(outT, q) - F - {start} - S else {}
  }

  /** The pushes of the pop of `q`, in the order the source meets them,
      which the model leaves open. */
  method PushTargets(d: Dfa, stack0: seq<nat>, q: nat) returns (stack: seq<nat>)
    requires NoDup(stack0) && q in d.inT && q in d.outT
    ensures NoDup(stack) && Elems(stack) == Elems(stack0) + Pushed(d.inT, d.outT, q, d.start, Elems(d.finals), Elems(stack0))
  {
    stack := stack0;
    if Sources(d.inT, q) != {} {
      var pushed := ListOf(Targets(d.outT, q) - Elems(d.finals) - {d.start} - Elems(stack));
      NoDupConcat(stack, pushed);
      assert Elems(stack + pushed) == Elems(stack) + Elems(pushed);
      stack := stack + pushed;
    }
  }

  /** One pop of a state `elem` other than the start: its targets are pushed
      as above, and it is eliminated. */
  method Pop(d: Dfa, ghost inT0: Labels, ghost outT0: Labels, ghost n0: nat, stack0: seq<nat>, elem: nat, ghost order0: seq<nat>)
    returns (stack: seq<nat>, ghost order: seq<nat>)
    requires Reducing(d, inT0, outT0, n0, stack0 + [elem], order0) && elem != d.start
    modifies d`inT, d`outT, d`states
    ensures Reducing(d, inT0, outT0, n0, stack, order) && order == order0 + [elem]
    ensures d.start in Elems(stack) <==> d.start in Elems(stack0)
  {
    NoDupLast(stack0, elem);
    assert Elems(stack0 + [elem]) == Elems(stack0) + {elem};
    ReducedLinked(d.inT, d.outT, d.states, d.start, Elems(d.finals), inT0, outT0, n0, Elems(stack0), order0, elem);
    stack := PushTargets(d, stack0, elem);
    ghost var prevIn, prevOut, prevStates := d.inT, d.outT, d.states;
    order := PopKeeps(prevIn, prevOut, prevStates, d.start, Elems(d.finals), inT0, outT0, n0,
                      Elems(stack0), order0, elem, Elems(stack));
    Eliminate(d, elem);
  }

  lemma ReducedLinked(inT: Labels, outT: Labels, n: nat, start: nat, F: set<nat>, inT0: Labels, outT0: Labels, n0: nat,
                      S0: set<nat>, order0: seq<nat>, q: nat)
    requires Reduced(inT, outT, n, start, F, inT0, outT0, n0, S0 + {q}, order0)
    ensures Linked(inT, outT, q) && n >= 1
  {
    ReducedShape(inT, outT, n, start, F, inT0, outT0, n0, S0 + {q}, order0);
    MirrorLinked(inT, outT, q);
  }

  /** One pop of a state other than the start keeps the outer loop's
      invariant. */
  lemma PopKeeps(inT: Labels, outT: Labels, n: nat, start: nat, F: set<nat>, inT0: Labels, outT0: Labels, n0: nat,
                 S0: set<nat>, order0: seq<nat>, q: nat, S: set<nat>)
    returns (order: seq<nat>)
    requires Reduced(inT, outT, n, start, F, inT0, outT0, n0, S0 + {q}, order0) && q != start && q !in S0
    requires q in inT && q in outT && S == S0 + Pushed(inT, outT, q, start, F, S0)
    ensures order == order0 + [q] && n >= 1 && q in outT
    ensures Reduced(InAfter(inT, outT, q), OutAfter(inT, outT, q), n - 1, start, F, inT0, outT0, n0, S, order)
  {
    ReducedShape(inT, outT, n, start, F, inT0, outT0, n0, S0 + {q}, order0);
    MirrorLinked(inT, outT, q);
    assert S <= outT.Keys - {q};
    order := order0 + [q];
    AfterAllSnoc(inT0, outT0, order0, q);
    OrderGrows(outT.Keys, outT0.Keys, order0, q, start, F);
  }

  lemma NoDupLast(s: seq<nat>, x: nat)
    requires NoDup(s + [x])
    ensures NoDup(s) && x !in s
  {
    assert forall i :: 0 <= i < |s| ==> s[i] == (s + [x])[i];
    assert x == (s + [x])[|s|];
  }

  lemma OrderGrows(K: set<nat>, K0: set<nat>, order0: seq<nat>, q: nat, start: nat, F: set<nat>)
    requires NoDup(order0) && Elems(order0) <= K0 - F - {start} && K == K0 - Elems(order0)
    requires q in K && q !in F && q != start
    ensures NoDup(order0 + [q]) && Elems(order0 + [q]) <= K0 - F - {start}
    ensures K - {q} == K0 - Elems(order0 + [q]) && |K - {q}| == |K| - 1
  {
    assert Elems(order0 + [q]) == Elems(order0) + {q};
    NoDupAppend(order0, q);
    assert K == (K - {q}) + {q};
  }

  lemma OutAfterKeys(inT: Labels, outT: Labels, q: nat)
    requires q in inT && q in outT
    ensures OutAfter(inT, outT, q).Keys == outT.Keys - {q}
  {
  }

  /** A loop on a state that is never eliminated survives every
      elimination. */
  lemma {:induction false} AfterAllKeepsLoop(inT0: Labels, outT0: Labels, order: seq<nat>, p: nat)
    requires Mirror(inT0, outT0) && Nonblank(outT0) && NoDup(order) && Elems(order) <= outT0.Keys
    requires p in outT0 && p !in Elems(order) && p in outT0[p]
    ensures p in AfterAll(inT0, outT0, order).1 && p in AfterAll(inT0, outT0, order).1[p]
    decreases |order|
  {
    if order != [] {
      var init := order[..|order| - 1];
      var q := order[|order| - 1];
      assert order == init + [q];
      assert Elems(order) == Elems(init) + {q};
      AfterAllKeepsLoop(inT0, outT0, init, p);
      AfterAllMirror(inT0, outT0, init);
      var prev := AfterAll(inT0, outT0, init);
      AfterAllSnoc(inT0, outT0, init, q);
      SelfLoopKept(prev.0, prev.1, q, p);
    }
  }

  /** The pop of the start: its successors neither final nor stacked are
      pushed, in the order the source meets them, which the model leaves
      open. */
  method StartPop(d: Dfa, ghost inT0: Labels, ghost outT0: Labels, ghost n0: nat, stack0: seq<nat>, ghost order: seq<nat>)
    returns (stack: seq<nat>)
    requires Reducing(d, inT0, outT0, n0, stack0 + [d.start], order)
    ensures Reducing(d, inT0, outT0, n0, stack, order)
    ensures d.start in Elems(stack) <==> StartLoops(d)
  {
    NoDupLast(stack0, d.start);
    assert Elems(stack0 + [d.start]) == Elems(stack0) + {d.start};
    StartPushKeeps(d.inT, d.outT, d.states, d.start, Elems(d.finals), inT0, outT0, n0, Elems(stack0), order);
    var pushed := ListOf(d.outT[d.start].Keys - Elems(d.finals) - Elems(stack0));
    NoDupConcat(stack0, pushed);
    stack := stack0 + pushed;
    assert Elems(stack) == Elems(stack0) + Elems(pushed);
  }

  lemma StartPushKeeps(inT: Labels, outT: Labels, n: nat, start: nat, F: set<nat>, inT0: Labels, outT0: Labels, n0: nat,
                       S0: set<nat>, order: seq<nat>)
    requires Reduced(inT, outT, n, start, F, inT0, outT0, n0, S0 + {start}, order) && start !in S0
    ensures start in outT
    ensures Reduced(inT, outT, n, start, F, inT0, outT0, n0, S0 + (outT[start].Keys - F - S0), order)
  {
    ReducedShape(inT, outT, n, start, F, inT0, outT0, n0, S0 + {start}, order);
    RowLive(inT, outT, start);
    var S := S0 + (outT[start].Keys - F - S0);
    assert S <= outT0.Keys - Elems(order);
    assert (S - {start}) !! F;
  }

  /** Under mirrored maps, every state a row leads to has a row. */
  lemma RowLive(inT: Labels, outT: Labels, p: nat)
    requires Mirror(inT, outT) && p in outT
    ensures outT[p].Keys <= outT.Keys
  {
  }

  /** The outer loop of `regex_from_dfa`: the stack starts with the start;
      popping the start pushes its successors, popping another state pushes
      its targets and eliminates it.  Finals and the start are never
      eliminated.  When the start loops on itself and is not final, it is
      pushed back every time it is popped and the loop never ends; `fuel`
      bounds the turns, and `done` says the stack ran empty.  Without such a
      loop, more fuel than states is always enough. */
  method Reduce(d: Dfa, fuel: nat) returns (done: bool, ghost order: seq<nat>)
    requires Shaped(d)
    modifies d`inT, d`outT, d`states
    ensures Shaped(d)
    ensures (d.inT, d.outT) == AfterAll(old(d.inT), old(d.outT), order)
    ensures NoDup(order) && Elems(order) <= old(d.outT).Keys - Elems(d.finals) - {d.start}
    ensures d.states == old(d.states) - |order|
    ensures old(StartLoops(d)) ==> !done
    ensures !old(StartLoops(d)) && fuel > old(d.states) ==> done
  {
    ghost var inT0, outT0, n0 := d.inT, d.outT, d.states;
    ghost var loops := StartLoops(d);
    var stack := [d.start];
    var steps := 0;
    order := [];
    assert Elems(stack) == {d.start};
    assert Reducing(d, inT0, outT0, n0, stack, order);
    while stack != [] && steps < fuel
      invariant steps <= fuel
      invariant Turns(d, inT0, outT0, n0, stack, order, steps, loops)
      decreases fuel - steps
    {
      stack, order := ReduceStep(d, inT0, outT0, n0, stack, order, steps, loops);
      steps := steps + 1;
    }
    done := stack == [];
    ReducedShape(d.inT, d.outT, d.states, d.start, Elems(d.finals), inT0, outT0, n0, Elems(stack), order);
  }

  /** The invariant of the stack loop after `steps` turns: `loops` says
      whether the start loops on itself in the original maps, and from the
      second turn on the start is stacked iff it does; without such a loop
      every turn but the first eliminates a state. */
  ghost predicate Turns(d: Dfa, inT0: Labels, outT0: Labels, n0: nat, stack: seq<nat>, order: seq<nat>, steps: nat, loops: bool)
    reads d
  {
    && Reducing(d, inT0, outT0, n0, stack, order)
    && (loops <==> d.start in outT0[d.start] && d.start !in d.finals)
    && (steps == 0 ==> stack == [d.start] && order == [])
    && (steps > 0 ==> (d.start in Elems(stack) <==> loops))
    && (steps > 0 && !loops ==> steps == |order| + 1)
  }

  /** One turn of the stack loop: the top of the stack is popped, and the
      start pushes its successors while any other state is eliminated. */
  method ReduceStep(d: Dfa, ghost inT0: Labels, ghost outT0: Labels, ghost n0: nat, stack0: seq<nat>, ghost order0: seq<nat>,
                    ghost steps: nat, ghost loops: bool)
    returns (stack: seq<nat>, ghost order: seq<nat>)
    requires stack0 != [] && Turns(d, inT0, outT0, n0, stack0, order0, steps, loops)
    modifies d`inT, d`outT, d`states
    ensures Turns(d, inT0, outT0, n0, stack, order, steps + 1, loops)
  {
    var elem := stack0[|stack0| - 1];
    var rest := stack0[..|stack0| - 1];
    assert stack0 == rest + [elem];
    if elem == d.start {
      if steps > 0 {
        assert loops;
        AfterAllKeepsLoop(inT0, outT0, order0, d.start);
      }
      stack := StartPop(d, inT0, outT0, n0, rest, order0);
      order := order0;
    } else {
      assert steps > 0;
      assert d.start in Elems(stack0) <==> d.start in Elems(rest);
      stack, order := Pop(d, inT0, outT0, n0, rest, elem, order0);
    }
  }

  // ---------------------------------------------------------------------
  // Reading the expression off

  /** What `regex_from_dfa` comes to: an expression, an exception, or a loop
      that never ends; `OutOfFuel` is a loop that was cut short by the fuel
      bound although it would have ended. */
  datatype Synthesis = Found(regex: string) | Raised | Diverged | OutOfFuel

  /** The labels of the edges from the states of `order` into a state, each
      followed by the starred loop `cycle` of that state. */
  function Incoming(row: map<nat, string>, order: seq<nat>, cycle: string): seq<string>
    requires forall i :: 0 <= i < |order| ==> order[i] in row
  {
    seq(|order|, i requires 0 <= i < |order| => row[order[i]] + cycle)
  }

  /** The expression the loop over the in-edges of a single final builds: a
      label while nothing came before, otherwise an alternation of what came
      before and the label. */
  function Alternation(items: seq<string>): string
    decreases |items|
  {
    if items == [] then ""
    else
      var acc := Alternation(items[..|items| - 1]);
      var x := items[|items| - 1];
      if acc == "" then x else "(" + acc + ") | ( " + x + ")"
  }

  /** The alternation is empty exactly when every label is. */
  lemma {:induction false} AlternationEmpty(items: seq<string>)
    ensures Alternation(items) == "" <==> forall i :: 0 <= i < |items| ==> items[i] == ""
    decreases |items|
  {
    if items != [] {
      var init := items[..|items| - 1];
      AlternationEmpty(init);
      assert forall i :: 0 <= i < |init| ==> init[i] == items[i];
    }
  }

  /** Every label shows up in the alternation. */
  lemma {:induction false} AlternationMentions(items: seq<string>, i: nat)
    requires i < |items|
    ensures Text.Contains(Alternation(items), items[i])
    decreases |items|
  {
    var init := items[..|items| - 1];
    var acc := Alternation(init);
    var x := items[|items| - 1];
    var res := Alternation(items);
    if i == |items| - 1 {
      if acc == "" {
        assert Text.OccursAt(res, x, 0);
      } else {
        assert res == "(" + acc + ") | ( " + x + ")";
        assert res[|acc| + 7..|acc| + 7 + |x|] == x;
        assert Text.OccursAt(res, x, |acc| + 7);
      }
    } else {
      AlternationMentions(init, i);
      assert init[i] == items[i];
      var k: nat :| Text.OccursAt(acc, items[i], k);
      if acc == "" {
        assert items[i] == [];
        assert Text.OccursAt(res, items[i], 0);
      } else {
        assert res == "(" + acc + ") | ( " + x + ")";
        assert res[k + 1..k + 1 + |items[i]|] == acc[k..k + |items[i]|];
        assert Text.OccursAt(res, items[i], k + 1);
      }
    }
  }

  /** The expression the loop over the alternatives of several finals
      builds: empty alternatives are skipped, the others parenthesised and
      joined with `|`. */
  function AlternativesText(items: seq<string>): string
    decreases |items|
  {
    if items == [] then ""
    else
      var acc := AlternativesText(items[..|items| - 1]);
      var x := items[|items| - 1];
      if x == "" then acc else if acc == "" then "(" + x + ")" else acc + " | (" + x + ")"
  }

  /** The union is empty exactly when every alternative is. */
  lemma {:induction false} UnionEmpty(items: seq<string>)
    ensures AlternativesText(items) == "" <==> forall i :: 0 <= i < |items| ==> items[i] == ""
    decreases |items|
  {
    if items != [] {
      var init := items[..|items| - 1];
      UnionEmpty(init);
      assert forall i :: 0 <= i < |init| ==> init[i] == items[i];
    }
  }

  /** Every alternative shows up in the union, in parentheses. */
  lemma {:induction false} UnionMentions(items: seq<string>, i: nat)
    requires i < |items| && items[i] != ""
    ensures Text.Contains(AlternativesText(items), "(" + items[i] + ")")
    decreases |items|
  {
    var init := items[..|items| - 1];
    var acc := AlternativesText(init);
    var x := items[|items| - 1];
    var res := AlternativesText(items);
    var w := "(" + items[i] + ")";
    if i == |items| - 1 {
      if acc == "" {
        assert Text.OccursAt(res, w, 0);
      } else {
        assert res == acc + " | " + w;
        assert res[|acc| + 3..|acc| + 3 + |w|] == w;
        assert Text.OccursAt(res, w, |acc| + 3);
      }
    } else {
      UnionMentions(init, i);
      assert init[i] == items[i];
      var k: nat :| Text.OccursAt(acc, w, k);
      if x == "" {
      } else {
        assert res == acc + " | (" + x + ")";
        assert res[k..k + |w|] == acc[k..k + |w|];
        assert Text.OccursAt(res, w, k);
      }
    }
  }

  /** The loop over the in-edges of the final `f`, skipping its loop, in the
      order the dictionary yields them, which the model leaves open. */
  method ReadIncoming(row: map<nat, string>, f: nat, cycle: string) returns (regex: string, ghost order: seq<nat>)
    ensures NoDup(order) && Elems(order) == row.Keys - {f}
    ensures forall i :: 0 <= i < |order| ==> order[i] in row
    ensures regex == Alternation(Incoming(row, order, cycle))
  {
    regex, order := "", [];
    var rest := row.Keys;
    while rest != {}
      invariant rest <= row.Keys
      invariant NoDup(order) && Elems(order) == row.Keys - rest - {f}
      invariant forall i :: 0 <= i < |order| ==> order[i] in row
      invariant regex == Alternation(Incoming(row, order, cycle))
      decreases rest
    {
      var i := Pick(rest);
      if i != f {
        assert Incoming(row, order + [i], cycle)[..|order|] == Incoming(row, order, cycle);
        if regex == "" {
          regex := row[i] + cycle;
        } else {
          regex := "(" + regex + ") | ( " + row[i] + cycle + ")";
        }
        assert i !in Elems(order);
        NoDupAppend(order, i);
        assert Elems(order + [i]) == Elems(order) + {i};
        order := order + [i];
      }
      rest := rest - {i};
    }
  }

  /** What the expression read off a single final `f` means: it is empty
      exactly when nothing but a loop enters `f`, and it mentions the label of
      every other edge into `f`, followed by the starred loop. */
  ghost predicate ReadOff(inT: Labels, f: nat, regex: string) {
    && f in inT
    && (regex == "" <==> Sources(inT, f) == {})
    && forall p :: p in Sources(inT, f) ==> Text.Contains(regex, inT[f][p] + Star(inT, f))
  }

  lemma ReadOffAlternation(inT: Labels, f: nat, order: seq<nat>)
    requires Nonblank(inT) && f in inT
    requires NoDup(order) && Elems(order) == Sources(inT, f)
    ensures forall i :: 0 <= i < |order| ==> order[i] in inT[f]
    ensures ReadOff(inT, f, Alternation(Incoming(inT[f], order, Star(inT, f))))
  {
    assert forall i :: 0 <= i < |order| ==> order[i] in Elems(order);
    var items := Incoming(inT[f], order, Star(inT, f));
    AlternationEmpty(items);
    if Sources(inT, f) != {} {
      var p :| p in Sources(inT, f);
      assert p in Elems(order);
      var i :| 0 <= i < |order| && order[i] == p;
      assert items[i] != "";
    }
    forall p | p in Sources(inT, f) ensures Text.Contains(Alternation(items), inT[f][p] + Star(inT, f)) {
      assert p in Elems(order);
      var i :| 0 <= i < |order| && order[i] == p;
      AlternationMentions(items, i);
    }
  }

  /** The branch for at most one final: the last final is popped and the
      in-edges of it read off.  Popping an empty list and looking up a final
      without a row raise. */
  method ReadFinal(d: Dfa) returns (r: Synthesis, ghost order: seq<nat>)
    modifies d`finals
    ensures old(d.finals) == [] ==> r == Raised && d.finals == []
    ensures old(d.finals) != [] ==> d.finals == old(d.finals)[..|old(d.finals)| - 1]
    ensures old(d.finals) != [] && old(d.finals)[|old(d.finals)| - 1] !in d.inT ==> r == Raised
    ensures old(d.finals) != [] && old(d.finals)[|old(d.finals)| - 1] in d.inT ==>
              var f := old(d.finals)[|old(d.finals)| - 1];
              NoDup(order) && Elems(order) == Sources(d.inT, f) &&
              (forall i :: 0 <= i < |order| ==> order[i] in d.inT[f]) &&
              r == Found(Alternation(Incoming(d.inT[f], order, Star(d.inT, f))))
  {
    order := [];
    if d.finals == [] {
      return Raised, order;
    }
    var f := d.finals[|d.finals| - 1];
    d.finals := d.finals[..|d.finals| - 1];
    if f !in d.inT {
      return Raised, order;
    }
    var cycle := "";
    if f in d.inT[f] {
      cycle := "(" + d.inT[f][f] + ")*";
    }
    var regex;
    regex, order := ReadIncoming(d.inT[f], f, cycle);
    r := Found(regex);
  }

  /** The loop over the alternatives of several finals. */
  method JoinAlternatives(items: seq<string>) returns (regex: string)
    ensures regex == AlternativesText(items)
  {
    regex := "";
    for i := 0 to |items|
      invariant regex == AlternativesText(items[..i])
    {
      assert items[..i + 1][..i] == items[..i];
      var item := items[i];
      if item != "" {
        if regex == "" {
          regex := "(" + item + ")";
        } else {
          regex := regex + " | (" + item + ")";
        }
      }
    }
    assert items[..|items|] == items;
  }

  /** Every edge left joins two numbered states. */
  predicate Numbered(edges: set<(nat, nat)>, numbered: set<nat>) {
    forall e :: e in edges ==> e.0 in numbered && e.1 in numbered
  }

  /** `final_exp`: the copy keeps only the final `k`, then goes through
      `regex_from_dfa` again. */
  method FinalExp(c: Dfa, k: nat, fuel: nat) returns (r: Synthesis)
    requires Shaped(c)
    modifies c`finals, c`inT, c`outT, c`states, c`trans
    decreases 1, 3
    ensures c.start != k && old(c.start in c.outT[c.start]) ==> r == Diverged
  {
    c.finals := [k];
    ghost var order, parts;
    r, order, parts := RegexFromDfa(c, fuel);
  }

  /** The branch for several finals: the finals are renumbered once, then for
      each original final the DFA is copied (renumbering its label maps) and
      the copy's expression for that final computed; the alternatives are
      joined.  Renumbering fails, and the source raises, when an edge is left
      at a state that is neither the start nor a final. */
  method Alternatives(d: Dfa, fuel: nat) returns (r: Synthesis, parts: seq<string>)
    requires NoDup(d.finals) && |d.finals| > 1
    modifies d`finals, d`trans
    decreases |d.finals|, 1
    ensures !Numbered(d.Edges(), Elems(old(d.finals)) + {d.start}) ==> r == Raised
    ensures r.Found? ==> |parts| == |old(d.finals)| && r.regex == AlternativesText(parts)
  {
    var olds := d.finals;
    var newIndexs: map<nat, nat> := map[];
    parts := [];
    var i := 0;
    while i < |olds|
      invariant 0 <= i <= |olds| && |parts| == i
      invariant i == 0 ==> newIndexs == map[] && d.finals == olds
      invariant i > 0 ==> newIndexs.Keys == Elems(olds) + {d.start}
      invariant i > 0 ==> Numbered(d.Edges(), Elems(olds) + {d.start})
      decreases |olds| - i
    {
      if newIndexs == map[] {
        newIndexs := d.ConvertIndexs();
      }
      assert olds[i] in newIndexs;
      var item := Part(d, newIndexs, olds[i], fuel);
      match item {
        case Raised => return Raised, parts;
        case Diverged => return Diverged, parts;
        case OutOfFuel => return OutOfFuel, parts;
        case Found(x) => parts := parts + [x];
      }
      i := i + 1;
    }
    var regex := JoinAlternatives(parts);
    r := Found(regex);
  }

  /** One final of `Alternatives`: a copy of the automaton renumbered by
      `newIndexs`, with that final alone, read back to an expression.  A
      copy that cannot be built raises. */
  method Part(d: Dfa, newIndexs: map<nat, nat>, f: nat, fuel: nat) returns (item: Synthesis)
    requires f in newIndexs
    modifies d`trans
    decreases 2, 0
    ensures !Numbered(d.Edges(), newIndexs.Keys) ==> item == Raised
  {
    ghost var subsets;
    var copia;
    copia, subsets := d.Copy(newIndexs);
    if copia == null {
      return Raised;
    }
    LabelledShaped(copia);
    item := FinalExp(copia, newIndexs[f], fuel);
  }

  /** `regex_from_dfa`: the outer loop eliminates states; then the
      expression is read off the single final, or assembled from one copy
      per final.  The maps end as those after eliminating `order`.  A start
      that loops on itself without being final makes the loop endless; with
      enough fuel and no such loop, no final means an exception and one final
      with a row means an expression, which means what `ReadOff` says. */
  method RegexFromDfa(d: Dfa, fuel: nat) returns (r: Synthesis, ghost order: seq<nat>, ghost parts: seq<string>)
    requires Shaped(d)
    modifies d`inT, d`outT, d`states, d`finals, d`trans
    decreases |d.finals|, 2
    ensures (d.inT, d.outT) == AfterAll(old(d.inT), old(d.outT), order)
    ensures NoDup(order) && Elems(order) <= old(d.outT).Keys - Elems(old(d.finals)) - {d.start}
    ensures old(StartLoops(d)) ==> r == Diverged
    ensures !old(StartLoops(d)) && fuel > old(d.states) && old(d.finals) == [] ==> r == Raised
    ensures !old(StartLoops(d)) && fuel > old(d.states) && |old(d.finals)| == 1 && old(d.finals)[0] in old(d.outT) ==> r.Found?
    ensures |old(d.finals)| == 1 && r.Found? ==> ReadOff(d.inT, old(d.finals)[0], r.regex)
    ensures |old(d.finals)| > 1 && r.Found? ==> |parts| == |old(d.finals)| && r.regex == AlternativesText(parts)
    ensures |old(d.finals)| <= 1 && r.OutOfFuel? ==> !old(StartLoops(d)) && fuel <= old(d.states)
  {
    parts := [];
    ghost var inT0, outT0 := d.inT, d.outT;
    var loops := StartLoops(d);
    var done;
    done, order := Reduce(d, fuel);
    if !done {
      r := if loops then Diverged else OutOfFuel;
      return r, order, parts;
    }
    if |d.finals| > 1 {
      r, parts := Alternatives(d, fuel);
    } else {
      ghost var fs := d.finals;
      ghost var incoming;
      r, incoming := ReadFinal(d);
      if |fs| == 1 {
        assert fs[|fs| - 1] == fs[0];
        FinalAfter(inT0, outT0, order, fs[0], incoming, r);
      }
    }
  }

  /** The single final survives the eliminations when it had edges, and
      the expression read off it is what `ReadOff` says. */
  lemma FinalAfter(inT0: Labels, outT0: Labels, order: seq<nat>, f: nat, incoming: seq<nat>, r: Synthesis)
    requires Mirror(inT0, outT0) && Nonblank(outT0) && NoDup(order) && Elems(order) <= outT0.Keys && f !in Elems(order)
    requires var inT := AfterAll(inT0, outT0, order).0;
      f in inT ==> NoDup(incoming) && Elems(incoming) == Sources(inT, f) &&
                   (forall i :: 0 <= i < |incoming| ==> incoming[i] in inT[f]) &&
                   r == Found(Alternation(Incoming(inT[f], incoming, Star(inT, f))))
    ensures f in outT0 ==> f in AfterAll(inT0, outT0, order).0
    ensures f in AfterAll(inT0, outT0, order).0 ==> ReadOff(AfterAll(inT0, outT0, order).0, f, r.regex)
  {
    var (inT, outT) := AfterAll(inT0, outT0, order);
    AfterAllMirror(inT0, outT0, order);
    if f in inT {
      MirrorNonblank(inT, outT);
      ReadOffAlternation(inT, f, incoming);
    }
  }

  // ---------------------------------------------------------------------
  // A cycle through the final is lost

  /** The DFA `0 -a-> 1`, `1 -b-> 0` with start 0 and final 1, the regular
      automaton of `S -> a A | a`, `A -> b S`; its language is `a(ba)*`. */
  function CycleOut(): Labels {
    map[0 := map[1 := "a"], 1 := map[0 := "b"]]
  }

  function CycleIn(): Labels {
    map[0 := map[1 := "b"], 1 := map[0 := "a"]]
  }

  /** A list without repetitions and without elements is empty. */
  lemma ListOfNone<T>(s: seq<T>)
    requires NoDup(s) && Elems(s) == {}
    ensures s == []
  {
    NoDupCard(s);
  }

  /** A list without repetitions whose elements are `{x}` is `[x]`. */
  lemma ListOfOne<T>(s: seq<T>, x: T)
    requires NoDup(s) && Elems(s) == {x}
    ensures s == [x]
  {
    NoDupCard(s);
    assert s[0] in Elems(s);
  }

  /** On that DFA no state can be eliminated (`RegexFromDfa` eliminates
      neither the start nor a final), and the single final is read off as
      `a`, whatever order its sources are visited in: the words through the
      cycle `1 -b-> 0 -a-> 1` are lost. */
  lemma CycleLost(order: seq<nat>, incoming: seq<nat>)
    requires NoDup(order) && Elems(order) <= CycleOut().Keys - {1} - {0}
    requires NoDup(incoming) && Elems(incoming) == Sources(CycleIn(), 1)
    ensures AfterAll(CycleIn(), CycleOut(), order) == (CycleIn(), CycleOut())
    ensures forall i :: 0 <= i < |incoming| ==> incoming[i] in CycleIn()[1]
    ensures Alternation(Incoming(CycleIn()[1], incoming, Star(CycleIn(), 1))) == "a"
    ensures 1 in CycleOut()[0] && 0 in CycleOut()[1]
  {
    assert CycleOut().Keys == {0, 1};
    ListOfNone(order);
    assert Sources(CycleIn(), 1) == {0};
    ListOfOne(incoming, 0);
    assert Star(CycleIn(), 1) == "";
    var items := Incoming(CycleIn()[1], incoming, Star(CycleIn(), 1));
    assert items[0] == "a" + "" == "a";
    assert items[..0] == [];
  }
}
