/** The LALR(1) parser (cmp/shiftReduceParsers.py, `LALR1Parser`): the
    LR(1) automaton with the states that share their centers merged into
    one, and the LR(1) table built on the merged automaton. */
module Lalr {
  import opened Grammars
  import opened Containers
  import opened ShiftReduce
  import opened StateGraphs
  import opened Lr1Items
  import opened Dataflow
  import opened Lr1
  import Slr
  import Automata

  // ------------------------------------------------------------------ merge

  /** The first item of `items` with center `c`: where the inner search of
      `merge` stops. */
  function FirstMatch(items: seq<Item>, c: Item): (r: Option<Item>)
    ensures r.Some? ==> r.value in items && r.value.Center() == c
    ensures r.None? <==> forall x :: x in items ==> x.Center() != c
  {
    if items == [] then None
    else if items[0].Center() == c then Some(items[0])
    else FirstMatch(items[1..], c)
  }

  /** The inner `for item2 in items2: ... break ... else: return False`
      loop: the first item of `items2` with center `c`, if any. */
  method Find(items2: seq<Item>, c: Item) returns (r: Option<Item>)
    ensures r == FirstMatch(items2, c)
  {
    var j := 0;
    while j < |items2|
      invariant 0 <= j <= |items2|
      invariant FirstMatch(items2[j..], c) == FirstMatch(items2, c)
    {
      if items2[j].Center() == c {
        return Some(items2[j]);
      }
      assert items2[j..][1..] == items2[j + 1..];
      j := j + 1;
    }
    return None;
  }

  /** Whether `merge(items1, items2)` succeeds: as many items in both, and
      every center of `items1` found in `items2`. */
  predicate Mergeable(items1: seq<Item>, items2: seq<Item>) {
    |items1| == |items2| && forall i :: 0 <= i < |items1| ==> FirstMatch(items2, items1[i].Center()).Some?
  }

  /** `item.lookaheads = item.lookaheads.union(L)`. */
  function Widened(it: Item, L: set<Symbol>): Item {
    Item(it.production, it.pos, it.lookaheads + L)
  }

  /** The lookaheads of the match of each item of `items1`, in order: the
      list `merge` collects. */
  function Matched(items1: seq<Item>, items2: seq<Item>): (r: seq<set<Symbol>>)
    requires Mergeable(items1, items2)
    ensures |r| == |items1|
  {
    seq(|items1|, i requires 0 <= i < |items1| => FirstMatch(items2, items1[i].Center()).value.lookaheads)
  }

  /** Every symbol of every set of `ls`. */
  function Flattened(ls: seq<set<Symbol>>): set<Symbol> {
    set k, y | 0 <= k < |ls| && y in ls[k] :: y
  }

  /** The items as `merge` leaves them: each one widened by every lookahead
      collected, whatever item it was collected for. */
  function MergedAsWritten(items1: seq<Item>, items2: seq<Item>): seq<Item>
    requires Mergeable(items1, items2)
  {
    seq(|items1|, i requires 0 <= i < |items1| => Widened(items1[i], Flattened(Matched(items1, items2))))
  }

  /** The items as `merge` evidently means to leave them: each one widened
      by the lookaheads of its own match. */
  function MergedByCenter(items1: seq<Item>, items2: seq<Item>): seq<Item>
    requires Mergeable(items1, items2)
  {
    seq(|items1|, i requires 0 <= i < |items1| => Widened(items1[i], Matched(items1, items2)[i]))
  }

  /** The collecting loop of `merge`: the lookaheads of the match of every
      item, or failure when some item has none. */
  method Collect(items1: seq<Item>, items2: seq<Item>) returns (ok: bool, lookaheads: seq<set<Symbol>>)
    requires |items1| == |items2|
    ensures ok == Mergeable(items1, items2)
    ensures ok ==> lookaheads == Matched(items1, items2)
  {
    lookaheads := [];
    var i := 0;
    while i < |items1|
      invariant 0 <= i <= |items1| && |lookaheads| == i
      invariant forall k :: 0 <= k < i ==> FirstMatch(items2, items1[k].Center()).Some?
      invariant forall k :: 0 <= k < i ==> lookaheads[k] == FirstMatch(items2, items1[k].Center()).value.lookaheads
    {
      var found := Find(items2, items1[i].Center());
      if found.None? {
        return false, lookaheads;
      }
      lookaheads := lookaheads + [found.value.lookaheads];
      i := i + 1;
    }
    ok := true;
  }

  /** `for lookahead in lookaheads: item.lookaheads = item.lookaheads.union(lookahead)`. */
  method WidenBy(it: Item, lookaheads: seq<set<Symbol>>) returns (r: Item)
    ensures r == Widened(it, Flattened(lookaheads))
  {
    r := it;
    var k := 0;
    while k < |lookaheads|
      invariant 0 <= k <= |lookaheads|
      invariant r == Widened(it, Flattened(lookaheads[..k]))
    {
      assert Flattened(lookaheads[..k + 1]) == Flattened(lookaheads[..k]) + lookaheads[k] by {
        assert lookaheads[..k + 1] == lookaheads[..k] + [lookaheads[k]];
      }
      r := Widened(r, lookaheads[k]);
      k := k + 1;
    }
    assert lookaheads[..k] == lookaheads;
  }

  /** `merge(items1, items2)` as written: on success every item of
      `items1` is widened by all the lookaheads collected. */
  method MergeAsWritten(items1: seq<Item>, items2: seq<Item>) returns (ok: bool, merged: seq<Item>)
    ensures ok == Mergeable(items1, items2)
    ensures ok ==> merged == MergedAsWritten(items1, items2)
    ensures !ok ==> merged == items1
  {
    if |items1| != |items2| {
      return false, items1;
    }
    var lookaheads;
    ok, lookaheads := Collect(items1, items2);
    if !ok {
      return false, items1;
    }
    merged := items1;
    var i := 0;
    while i < |merged|
      invariant 0 <= i <= |merged| == |items1|
      invariant forall k :: 0 <= k < i ==> merged[k] == Widened(items1[k], Flattened(lookaheads))
      invariant forall k :: i <= k < |merged| ==> merged[k] == items1[k]
    {
      var it := WidenBy(merged[i], lookaheads);
      merged := merged[i := it];
      i := i + 1;
    }
  }

  /** `merge(items1, items2)` as evidently intended: on success every item
      of `items1` is widened by the lookaheads of its own match. */
  method Merge(items1: seq<Item>, items2: seq<Item>) returns (ok: bool, merged: seq<Item>)
    ensures ok == Mergeable(items1, items2)
    ensures ok ==> merged == MergedByCenter(items1, items2)
    ensures !ok ==> merged == items1
  {
    if |items1| != |items2| {
      return false, items1;
    }
    var lookaheads;
    ok, lookaheads := Collect(items1, items2);
    if !ok {
      return false, items1;
    }
    merged := items1;
    var i := 0;
    while i < |merged|
      invariant 0 <= i <= |merged| == |items1|
      invariant forall k :: 0 <= k < i ==> merged[k] == Widened(items1[k], lookaheads[k])
      invariant forall k :: i <= k < |merged| ==> merged[k] == items1[k]
    {
      merged := merged[i := Widened(merged[i], lookaheads[i])];
      i := i + 1;
    }
  }

  // ------------------------------------------------------ merging one state

  /** One item per center: what `compress` leaves. */
  ghost predicate OnePerCenter(S: set<Item>) {
    forall a, b :: a in S && b in S && a.Center() == b.Center() ==> a == b
  }

  predicate DistinctCenters(s: seq<Item>) {
    forall i, j :: 0 <= i < j < |s| ==> s[i].Center() != s[j].Center()
  }

  /** `[item.Center() for item in state.state]`. */
  function CentersOf(s: seq<Item>): (r: seq<Item>)
    ensures |r| == |s| && forall k :: 0 <= k < |s| ==> r[k] == s[k].Center()
  {
    seq(|s|, k requires 0 <= k < |s| => s[k].Center())
  }

  /** Iterating over a set: its members, each once, in some order. */
  method Enumerate<A>(S: set<A>) returns (s: seq<A>)
    ensures Elems(s) == S && NoDup(s)
  {
    s := [];
    var rest := S;
    while rest != {}
      invariant Elems(s) + rest == S && Elems(s) !! rest && NoDup(s)
      decreases |rest|
    {
      var x := Pick(rest);
      NoDupAppend(s, x);
      s := s + [x];
      rest := rest - {x};
    }
  }

  lemma {:induction false} CentersCard(S: set<Item>)
    requires OnePerCenter(S)
    ensures |Centers(S)| == |S|
  {
    if S != {} {
      var x :| x in S;
      CentersCard(S - {x});
      assert Centers(S) == Centers(S - {x}) + {x.Center()};
      assert x.Center() !in Centers(S - {x});
    }
  }

  /** On a list of distinct centers and a listing of a state with one item
      per center, `merge` succeeds exactly when both have the same
      centers. */
  lemma MergeableIff(items: seq<Item>, s: seq<Item>)
    requires DistinctCenters(items) && NoDup(s) && OnePerCenter(Elems(s))
    ensures Mergeable(items, s) <==> Centers(Elems(items)) == Centers(Elems(s))
  {
    assert NoDup(items);
    NoDupCard(items);
    NoDupCard(s);
    assert OnePerCenter(Elems(items)) by {
      forall a, b | a in Elems(items) && b in Elems(items) && a.Center() == b.Center() ensures a == b {
        var i :| 0 <= i < |items| && items[i] == a;
        var j :| 0 <= j < |items| && items[j] == b;
      }
    }
    CentersCard(Elems(items));
    CentersCard(Elems(s));
    if Mergeable(items, s) {
      forall c | c in Centers(Elems(items)) ensures c in Centers(Elems(s)) {
        var x :| x in Elems(items) && x.Center() == c;
        var i :| 0 <= i < |items| && items[i] == x;
        var y := FirstMatch(s, c).value;
      }
      SubsetCard(Centers(Elems(items)), Centers(Elems(s)));
    }
    if Centers(Elems(items)) == Centers(Elems(s)) {
      forall i | 0 <= i < |items| ensures FirstMatch(s, items[i].Center()).Some? {
        assert items[i].Center() in Centers(Elems(items));
        var y :| y in Elems(s) && y.Center() == items[i].Center();
      }
    }
  }

  /** Centers are their own centers. */
  lemma CentersCenters(S: set<Item>)
    ensures Centers(Centers(S)) == Centers(S)
  {
    forall c | c in Centers(Centers(S)) ensures c in Centers(S) {
      var x :| x in Centers(S) && x.Center() == c;
      var y :| y in S && y.Center() == x;
    }
    forall c | c in Centers(S) ensures c in Centers(Centers(S)) {
      var y :| y in S && y.Center() == c;
      assert c.Center() == c;
    }
  }

  /** Bare centers add nothing to the compression of items with those
      centers. */
  lemma CompressedCenters(M: set<Item>)
    ensures Compressed(Centers(M) + M) == Compressed(M)
  {
    assert forall x :: x in Centers(M) ==> x.lookaheads == {};
    forall c ensures CenterLookaheads(Centers(M) + M, c) == CenterLookaheads(M, c) {
      forall y | y in CenterLookaheads(Centers(M) + M, c) ensures y in CenterLookaheads(M, c) {
        var x, z :| x in Centers(M) + M && x.Center() == c && z in x.lookaheads && y == z;
        assert x in M;
      }
    }
    forall a | a in Compressed(Centers(M) + M) ensures a in Compressed(M) {
      var x :| x in Centers(M) + M && a == Item(x.production, x.pos, CenterLookaheads(Centers(M) + M, x.Center()));
      if x !in M {
        var m :| m in M && m.Center() == x;
        assert a == Item(m.production, m.pos, CenterLookaheads(M, m.Center()));
      }
    }
  }

  /** The lookaheads of a center over a union. */
  lemma CenterLookaheadsUnion(X: set<Item>, Y: set<Item>, c: Item)
    ensures CenterLookaheads(X + Y, c) == CenterLookaheads(X, c) + CenterLookaheads(Y, c)
  {
  }

  /** Merging the items kept so far, the compression of `X`, with a state
      of the same centers gives the compression of `X` and the state. */
  lemma MergeStep(items: seq<Item>, X: set<Item>, s: seq<Item>)
    requires DistinctCenters(items) && Elems(items) == Compressed(X)
    requires NoDup(s) && OnePerCenter(Elems(s)) && Centers(Elems(s)) == Centers(X)
    ensures Mergeable(items, s)
    ensures DistinctCenters(MergedByCenter(items, s))
    ensures Elems(MergedByCenter(items, s)) == Compressed(X + Elems(s))
  {
    CompressedProps(X);
    MergeableIff(items, s);
    var r := MergedByCenter(items, s);
    var S := Elems(s);
    forall k | 0 <= k < |items|
      ensures r[k].Center() == items[k].Center()
      ensures r[k] == Item(items[k].production, items[k].pos, CenterLookaheads(X + S, items[k].Center()))
    {
      var c := items[k].Center();
      var y := FirstMatch(s, c).value;
      assert y.lookaheads == CenterLookaheads(S, c) by {
        forall z | z in CenterLookaheads(S, c) ensures z in y.lookaheads {
          var x, w :| x in S && x.Center() == c && w in x.lookaheads && z == w;
          assert x == y;
        }
      }
      assert items[k] in Compressed(X);
      var x :| x in X && items[k] == Item(x.production, x.pos, CenterLookaheads(X, x.Center()));
      CenterLookaheadsUnion(X, S, c);
    }
    forall a | a in Compressed(X + S) ensures a in Elems(r) {
      var x :| x in X + S && a == Item(x.production, x.pos, CenterLookaheads(X + S, x.Center()));
      assert x.Center() in Centers(Elems(items));
      var z :| z in Elems(items) && z.Center() == x.Center();
      var k :| 0 <= k < |items| && items[k] == z;
      assert r[k] == a;
    }
    forall k | 0 <= k < |items| ensures r[k] in Compressed(X + S) {
      assert items[k] in Compressed(X);
      var x :| x in X && items[k] == Item(x.production, x.pos, CenterLookaheads(X, x.Center()));
      assert r[k] == Item(x.production, x.pos, CenterLookaheads(X + S, x.Center()));
    }
  }

  // --------------------------------------------------- grouping the states

  /** `states = list(self.automaton)`: the LR(1) states in the order of
      `order`, each once, each with one item per center. */
  ghost predicate Listed(states: seq<set<Item>>, order: seq<nat>) {
    NoDup(order) && forall k :: 0 <= k < |order| ==> order[k] < |states| && OnePerCenter(states[order[k]])
  }

  /** The centers of the states at positions `lo` to `hi - 1` of `order`
      that share the centers of the state at position `i`. */
  ghost function Class(states: seq<set<Item>>, order: seq<nat>, i: nat, lo: nat, hi: nat): set<nat>
    requires Listed(states, order) && i < |order|
  {
    set j | lo <= j < hi && j < |order| && Centers(states[order[j]]) == Centers(states[order[i]]) :: order[j]
  }

  /** The items of those states. */
  ghost function Joined(states: seq<set<Item>>, order: seq<nat>, i: nat, lo: nat, hi: nat): set<Item>
    requires Listed(states, order) && i < |order|
  {
    set j, x | lo <= j < hi && j < |order| && Centers(states[order[j]]) == Centers(states[order[i]]) && x in states[order[j]] :: x
  }

  /** The center sets met among the first `i` states. */
  ghost function CentersSeen(states: seq<set<Item>>, order: seq<nat>, i: nat): set<set<Item>>
    requires Listed(states, order)
  {
    set j | 0 <= j < i && j < |order| :: Centers(states[order[j]])
  }

  /** The states whose centers are among those. */
  ghost function Seen(states: seq<set<Item>>, order: seq<nat>, i: nat): set<nat>
    requires Listed(states, order)
  {
    set k | 0 <= k < |order| && Centers(states[order[k]]) in CentersSeen(states, order, i) :: order[k]
  }

  /** The items of the LR(1) states merged into state `m`. */
  ghost function Members(states: seq<set<Item>>, group: map<nat, nat>, m: nat): set<Item> {
    set q, x | q in group && group[q] == m && q < |states| && x in states[q] :: x
  }

  /** The inner loop `for state2 in states[i:]: if self.merge(items1,
      state2.state): visited[state2] = len(new_states)`: every later state
      with the centers of the state at `i` is merged in and sent to `m`. */
  method Gather(states: seq<set<Item>>, order: seq<nat>, i: nat, items0: seq<Item>, group0: map<nat, nat>, m: nat)
    returns (items: seq<Item>, group: map<nat, nat>)
    requires Listed(states, order) && i < |order|
    requires DistinctCenters(items0) && Elems(items0) == Centers(states[order[i]])
    ensures DistinctCenters(items)
    ensures Elems(items) == Compressed(Joined(states, order, i, i, |order|))
    ensures Relabelled(group, group0, Class(states, order, i, i, |order|), m)
  {
    ghost var c0 := Centers(states[order[i]]);
    items, group := items0, group0;
    GatherStart(states, order, i);
    ghost var cls: set<nat> := {};
    ghost var joined: set<Item> := {};
    for k := i to |order|
      invariant joined == Joined(states, order, i, i, k) && cls == Class(states, order, i, i, k)
      invariant Gathered(items, c0, joined)
      invariant Relabelled(group, group0, cls, m)
    {
      var q := order[k];
      var listing := Enumerate(states[q]);
      var ok, merged := Merge(items, listing);
      GatherStep(states, order, i, k, items, listing, ok, merged);
      JoinedStep(states, order, i, k);
      joined := Joined(states, order, i, i, k + 1);
      if ok {
        Relabel(group, group0, cls, m, q);
        group := group[q := m];
        cls := cls + {q};
      }
      items := merged;
    }
    GatherEnd(states, order, i);
  }

  /** The invariant of `Gather` on the items: one per center, compressed
      from the centers and the states joined so far. */
  ghost predicate Gathered(items: seq<Item>, c0: set<Item>, joined: set<Item>) {
    DistinctCenters(items) && Elems(items) == Compressed(c0 + joined) && Centers(joined) <= c0
  }

  /** The invariant of `Gather` on `visited`: the states of `cls` are sent
      to `m`, the others keep their old group. */
  ghost predicate Relabelled(group: map<nat, nat>, group0: map<nat, nat>, cls: set<nat>, m: nat) {
    group.Keys == group0.Keys + cls &&
    forall r :: r in group ==> group[r] == if r in cls then m else group0[r]
  }

  lemma Relabel(group: map<nat, nat>, group0: map<nat, nat>, cls: set<nat>, m: nat, q: nat)
    requires Relabelled(group, group0, cls, m)
    ensures Relabelled(group[q := m], group0, cls + {q}, m)
  {
  }

  /** Before the first turn of `Gather`, the bare centers are compressed. */
  lemma GatherStart(states: seq<set<Item>>, order: seq<nat>, i: nat)
    requires Listed(states, order) && i < |order|
    ensures Joined(states, order, i, i, i) == {} && Class(states, order, i, i, i) == {}
    ensures Compressed(Centers(states[order[i]]) + Joined(states, order, i, i, i)) == Centers(states[order[i]])
  {
    CompressedBare(states[order[i]]);
    assert Centers(states[order[i]]) + {} == Centers(states[order[i]]);
  }

  /** After the last turn, the centers add nothing to the joined items. */
  lemma GatherEnd(states: seq<set<Item>>, order: seq<nat>, i: nat)
    requires Listed(states, order) && i < |order|
    requires Centers(Joined(states, order, i, i, |order|)) <= Centers(states[order[i]])
    ensures Compressed(Centers(states[order[i]]) + Joined(states, order, i, i, |order|)) == Compressed(Joined(states, order, i, i, |order|))
  {
    var J := Joined(states, order, i, i, |order|);
    assert states[order[i]] <= J;
    assert Centers(J) == Centers(states[order[i]]);
    CompressedCenters(J);
  }

  /** One turn of `Gather`: the state at `k` merges exactly when it has the
      centers of the state at `i`, and then joins the class. */
  lemma GatherStep(states: seq<set<Item>>, order: seq<nat>, i: nat, k: nat, items: seq<Item>, listing: seq<Item>, ok: bool, merged: seq<Item>)
    requires Listed(states, order) && i <= k < |order|
    requires DistinctCenters(items)
    requires Elems(items) == Compressed(Centers(states[order[i]]) + Joined(states, order, i, i, k))
    requires Centers(Joined(states, order, i, i, k)) <= Centers(states[order[i]])
    requires Elems(listing) == states[order[k]] && NoDup(listing)
    requires ok == Mergeable(items, listing)
    requires ok ==> merged == MergedByCenter(items, listing)
    requires !ok ==> merged == items
    ensures ok <==> Centers(states[order[k]]) == Centers(states[order[i]])
    ensures DistinctCenters(merged)
    ensures Elems(merged) == Compressed(Centers(states[order[i]]) + Joined(states, order, i, i, k + 1))
    ensures Centers(Joined(states, order, i, i, k + 1)) <= Centers(states[order[i]])
  {
    var c0 := Centers(states[order[i]]);
    var J := Joined(states, order, i, i, k);
    MergeableCenters(items, c0 + J, listing, c0);
    JoinedStep(states, order, i, k);
    if ok {
      MergeStep(items, c0 + J, listing);
      assert c0 + J + states[order[k]] == c0 + Joined(states, order, i, i, k + 1);
    } else {
      assert Joined(states, order, i, i, k + 1) == J;
    }
  }

  /** A listing merges into items compressed from `X` exactly when it has
      the centers of `X`. */
  lemma MergeableCenters(items: seq<Item>, X: set<Item>, listing: seq<Item>, c0: set<Item>)
    requires DistinctCenters(items) && Elems(items) == Compressed(X) && Centers(X) == c0
    requires NoDup(listing) && OnePerCenter(Elems(listing))
    ensures Mergeable(items, listing) <==> Centers(Elems(listing)) == c0
  {
    CompressedProps(X);
    MergeableIff(items, listing);
  }

  /** Compressing bare centers changes nothing. */
  lemma CompressedBare(S: set<Item>)
    ensures Compressed(Centers(S)) == Centers(S)
  {
    var c0 := Centers(S);
    forall x | x in c0 ensures x.lookaheads == {} {
      var z :| z in S && x == z.Center();
    }
    forall c ensures CenterLookaheads(c0, c) == {} {
    }
    forall a | a in Compressed(c0) ensures a in c0 {
      var x :| x in c0 && a == Item(x.production, x.pos, CenterLookaheads(c0, x.Center()));
      var z :| z in S && x == z.Center();
    }
    forall x | x in c0 ensures x in Compressed(c0) {
      var z :| z in S && x == z.Center();
      assert Item(x.production, x.pos, CenterLookaheads(c0, x.Center())) == x;
    }
  }

  /** How `Joined` and `Class` grow by one position. */
  lemma JoinedStep(states: seq<set<Item>>, order: seq<nat>, i: nat, k: nat)
    requires Listed(states, order) && i <= k < |order|
    ensures Centers(states[order[k]]) == Centers(states[order[i]]) ==>
      Joined(states, order, i, i, k + 1) == Joined(states, order, i, i, k) + states[order[k]] &&
      Class(states, order, i, i, k + 1) == Class(states, order, i, i, k) + {order[k]}
    ensures Centers(states[order[k]]) != Centers(states[order[i]]) ==>
      Joined(states, order, i, i, k + 1) == Joined(states, order, i, i, k) &&
      Class(states, order, i, i, k + 1) == Class(states, order, i, i, k)
  {
  }

  /** The invariant of the outer loop of `LR1_automaton` after the first
      `i` states: the states seen so far are exactly those whose centers
      were met, `cs[m]` holds the centers of new state `m`, and new state
      `m` holds the merged items of the states sent to it. */
  ghost predicate Grouping(states: seq<set<Item>>, order: seq<nat>, i: nat, group: map<nat, nat>, merged: seq<set<Item>>, cs: seq<set<Item>>) {
    Listed(states, order) && i <= |order| &&
    group.Keys == Seen(states, order, i) &&
    |cs| == |merged| && NoDup(cs) && Elems(cs) == CentersSeen(states, order, i) &&
    (forall q :: q in group ==> group[q] < |merged| && q < |states| && Centers(states[q]) == cs[group[q]]) &&
    (forall m :: 0 <= m < |merged| ==> merged[m] == Compressed(Members(states, group, m)))
  }

  /** The states `LR1_automaton` merges: every LR(1) state is sent to a new
      state, two of them to the same one exactly when they share their
      centers, the new state holds the compressed items of the states sent
      to it, and the first state leads the first group. */
  method Group(states: seq<set<Item>>, order: seq<nat>) returns (merged: seq<set<Item>>, group: map<nat, nat>)
    requires Listed(states, order)
    ensures group.Keys == Elems(order)
    ensures forall q :: q in group ==> group[q] < |merged|
    ensures forall q, r :: q in group && r in group ==> (group[q] == group[r] <==> Centers(states[q]) == Centers(states[r]))
    ensures forall m :: 0 <= m < |merged| ==> merged[m] == Compressed(Members(states, group, m))
    ensures forall m :: 0 <= m < |merged| ==> m in group.Values
    ensures |order| > 0 ==> group[order[0]] == 0
  {
    merged, group := [], map[];
    ghost var cs: seq<set<Item>> := [];
    GroupStart(states, order);
    for i := 0 to |order|
      invariant Grouping(states, order, i, group, merged, cs)
      invariant i == 0 ==> merged == []
      invariant 0 < i ==> order[0] in group && group[order[0]] == 0
    {
      merged, group, cs := GroupTurn(states, order, i, merged, group, cs);
    }
    GroupEnd(states, order, group, merged, cs);
  }

  /** One turn of the outer loop of `LR1_automaton`'s merging: a state not
      visited yet leads a new group, a visited one is skipped. */
  method GroupTurn(states: seq<set<Item>>, order: seq<nat>, i: nat, merged0: seq<set<Item>>, group0: map<nat, nat>,
                   ghost cs0: seq<set<Item>>)
    returns (merged: seq<set<Item>>, group: map<nat, nat>, ghost cs: seq<set<Item>>)
    requires Grouping(states, order, i, group0, merged0, cs0) && i < |order|
    requires i == 0 ==> merged0 == []
    requires 0 < i ==> order[0] in group0 && group0[order[0]] == 0
    ensures Grouping(states, order, i + 1, group, merged, cs)
    ensures order[0] in group && group[order[0]] == 0
  {
    merged, group, cs := merged0, group0, cs0;
    var q := order[i];
    if q !in group {
      var listing := Enumerate(states[q]);
      var items1 := CentersOf(listing);
      LeaderCenters(states, order, i, listing, items1);
      var items, group2 := Gather(states, order, i, items1, group, |merged|);
      GroupAdd(states, order, i, group, merged, cs, items, group2);
      merged, group := merged + [Elems(items)], group2;
      cs := cs + [Centers(states[q])];
    } else {
      GroupSkip(states, order, i, group, merged, cs);
    }
  }

  /** The centers of a state, listed: what `merge` starts from. */
  lemma LeaderCenters(states: seq<set<Item>>, order: seq<nat>, i: nat, listing: seq<Item>, items1: seq<Item>)
    requires Listed(states, order) && i < |order|
    requires Elems(listing) == states[order[i]] && NoDup(listing)
    requires items1 == CentersOf(listing)
    ensures DistinctCenters(items1) && Elems(items1) == Centers(states[order[i]])
  {
    var S := states[order[i]];
    forall a, b | 0 <= a < b < |items1| ensures items1[a].Center() != items1[b].Center() {
      assert listing[a] in S && listing[b] in S;
      assert listing[a] != listing[b];
    }
    forall c | c in Centers(S) ensures c in Elems(items1) {
      var x :| x in S && c == x.Center();
      var k :| 0 <= k < |listing| && listing[k] == x;
      assert items1[k] == c;
    }
  }

  lemma GroupStart(states: seq<set<Item>>, order: seq<nat>)
    requires Listed(states, order)
    ensures Grouping(states, order, 0, map[], [], [])
  {
    assert Seen(states, order, 0) == {};
  }

  /** A state already seen changes nothing. */
  lemma GroupSkip(states: seq<set<Item>>, order: seq<nat>, i: nat, group: map<nat, nat>, merged: seq<set<Item>>, cs: seq<set<Item>>)
    requires Grouping(states, order, i, group, merged, cs) && i < |order| && order[i] in group
    ensures Grouping(states, order, i + 1, group, merged, cs)
  {
    var c := Centers(states[order[i]]);
    assert c in CentersSeen(states, order, i) by {
      var k :| 0 <= k < |order| && Centers(states[order[k]]) in CentersSeen(states, order, i) && order[k] == order[i];
      assert k == i;
    }
    assert CentersSeen(states, order, i + 1) == CentersSeen(states, order, i) + {c};
  }

  /** A state not seen yet leads a new group: its class is every state with
      its centers, none of them seen before. */
  lemma GroupAdd(states: seq<set<Item>>, order: seq<nat>, i: nat, group: map<nat, nat>, merged: seq<set<Item>>, cs: seq<set<Item>>,
                 items: seq<Item>, group2: map<nat, nat>)
    requires Grouping(states, order, i, group, merged, cs) && i < |order| && order[i] !in group
    requires Elems(items) == Compressed(Joined(states, order, i, i, |order|))
    requires Relabelled(group2, group, Class(states, order, i, i, |order|), |merged|)
    ensures Grouping(states, order, i + 1, group2, merged + [Elems(items)], cs + [Centers(states[order[i]])])
    ensures forall r :: r in group ==> r in group2 && group2[r] == group[r]
    ensures order[i] in group2 && group2[order[i]] == |merged|
  {
    var c := Centers(states[order[i]]);
    var cls := Class(states, order, i, i, |order|);
    UnseenCenter(states, order, i);
    ClassFresh(states, order, i);
    GroupAddCenters(states, order, i, cs);
    GroupAddMembers(states, order, i, group, group2, |merged|);
    GroupAddLabels(states, order, i, group, merged, cs, group2);
    assert order[i] in cls;
  }

  /** Every state sent to the new group has its centers. */
  lemma GroupAddLabels(states: seq<set<Item>>, order: seq<nat>, i: nat, group: map<nat, nat>, merged: seq<set<Item>>, cs: seq<set<Item>>,
                       group2: map<nat, nat>)
    requires Grouping(states, order, i, group, merged, cs) && i < |order|
    requires Relabelled(group2, group, Class(states, order, i, i, |order|), |merged|)
    ensures forall q :: q in group2 ==>
              group2[q] < |merged| + 1 && q < |states| && Centers(states[q]) == (cs + [Centers(states[order[i]])])[group2[q]]
  {
    var cs2 := cs + [Centers(states[order[i]])];
    forall q | q in group2 ensures group2[q] < |merged| + 1 && q < |states| && Centers(states[q]) == cs2[group2[q]] {
      if q !in Class(states, order, i, i, |order|) {
        assert cs2[group[q]] == cs[group[q]];
      }
    }
  }

  /** The new group's centers extend the list of centers met. */
  lemma GroupAddCenters(states: seq<set<Item>>, order: seq<nat>, i: nat, cs: seq<set<Item>>)
    requires Listed(states, order) && i < |order|
    requires NoDup(cs) && Elems(cs) == CentersSeen(states, order, i)
    requires Centers(states[order[i]]) !in CentersSeen(states, order, i)
    ensures NoDup(cs + [Centers(states[order[i]])])
    ensures Elems(cs + [Centers(states[order[i]])]) == CentersSeen(states, order, i + 1)
  {
    var c := Centers(states[order[i]]);
    assert CentersSeen(states, order, i + 1) == CentersSeen(states, order, i) + {c};
    NoDupAppend(cs, c);
    assert Elems(cs + [c]) == Elems(cs) + {c};
  }

  /** Sending a fresh class to a new group `m` keeps the older groups and
      makes `m` hold exactly the class's items. */
  lemma GroupAddMembers(states: seq<set<Item>>, order: seq<nat>, i: nat, group: map<nat, nat>, group2: map<nat, nat>, m: nat)
    requires Listed(states, order) && i < |order|
    requires forall q :: q in group ==> group[q] < m
    requires group.Keys !! Class(states, order, i, i, |order|)
    requires Relabelled(group2, group, Class(states, order, i, i, |order|), m)
    ensures forall m' :: 0 <= m' < m ==> Members(states, group2, m') == Members(states, group, m')
    ensures Members(states, group2, m) == Joined(states, order, i, i, |order|)
  {
    forall m' | 0 <= m' < m ensures Members(states, group2, m') == Members(states, group, m') {
    }
  }

  /** A state outside `Seen` has centers not seen yet. */
  lemma UnseenCenter(states: seq<set<Item>>, order: seq<nat>, i: nat)
    requires Listed(states, order) && i < |order| && order[i] !in Seen(states, order, i)
    ensures Centers(states[order[i]]) !in CentersSeen(states, order, i)
  {
  }

  /** Before the state at `i` is seen, no state of its class has been. */
  lemma ClassFresh(states: seq<set<Item>>, order: seq<nat>, i: nat)
    requires Listed(states, order) && i < |order|
    requires Centers(states[order[i]]) !in CentersSeen(states, order, i)
    ensures Class(states, order, i, i, |order|) !! Seen(states, order, i)
    ensures Seen(states, order, i + 1) == Seen(states, order, i) + Class(states, order, i, i, |order|)
    ensures forall j :: 0 <= j < |order| && Centers(states[order[j]]) == Centers(states[order[i]]) ==> i <= j
  {
  }

  /** After the last state: every state is seen, and groups match centers. */
  lemma GroupEnd(states: seq<set<Item>>, order: seq<nat>, group: map<nat, nat>, merged: seq<set<Item>>, cs: seq<set<Item>>)
    requires Grouping(states, order, |order|, group, merged, cs)
    ensures group.Keys == Elems(order)
    ensures forall q :: q in group ==> group[q] < |merged|
    ensures forall m :: 0 <= m < |merged| ==> merged[m] == Compressed(Members(states, group, m))
    ensures forall q, r :: q in group && r in group ==> (group[q] == group[r] <==> Centers(states[q]) == Centers(states[r]))
    ensures forall m :: 0 <= m < |merged| ==> m in group.Values
  {
    forall q, r | q in group && r in group && Centers(states[q]) == Centers(states[r]) ensures group[q] == group[r] {
      assert cs[group[q]] == cs[group[r]];
    }
    forall m | 0 <= m < |merged| ensures m in group.Values {
      GroupHit(states, order, group, merged, cs, m);
    }
  }

  /** Every merged state is the group of some LR(1) state. */
  lemma GroupHit(states: seq<set<Item>>, order: seq<nat>, group: map<nat, nat>, merged: seq<set<Item>>, cs: seq<set<Item>>, m: nat)
    requires Grouping(states, order, |order|, group, merged, cs) && m < |merged|
    ensures m in group.Values
  {
    assert cs[m] in Elems(cs);
    var j :| 0 <= j < |order| && Centers(states[order[j]]) == cs[m];
    var q := order[j];
    assert q in Seen(states, order, |order|);
    var g := group[q];
    assert cs[g] == cs[m];
    assert g == m;
    assert group[q] == m;
  }

  // ------------------------------------------------ the merged transitions

  /** Every transition of a graph, as (state, symbol name, destination). */
  ghost function Edges(ns: seq<Node>): set<(nat, string, nat)> {
    set m, name, r | 0 <= m < |ns| && name in ns[m].transitions && r in ns[m].transitions[name] :: (m, name, r)
  }

  /** Every list of destinations is non-empty and names each state once. */
  predicate Lists(ns: seq<Node>) {
    forall m, name :: 0 <= m < |ns| && name in ns[m].transitions ==>
      ns[m].transitions[name] != [] && NoDup(ns[m].transitions[name])
  }

  /** The transitions a state of the LR(1) automaton contributes to the
      merged one: each of its transitions, from its group to the group of
      the destination. */
  ghost function StateEdges(ns1: seq<Node>, group: map<nat, nat>, q: nat): set<(nat, string, nat)> {
    set name, t | q < |ns1| && q in group && name in ns1[q].transitions && t in ns1[q].transitions[name] && t in group
      :: (group[q], name, group[t])
  }

  /** The transitions of the merged automaton. */
  ghost function MergedEdges(ns1: seq<Node>, order: seq<nat>, group: map<nat, nat>): set<(nat, string, nat)> {
    set j, e | 0 <= j < |order| && e in StateEdges(ns1, group, order[j]) :: e
  }

  /** Every destination of a state of the LR(1) automaton has a group. */
  ghost predicate Targeted(ns1: seq<Node>, group: map<nat, nat>, q: nat) {
    forall name, t :: q < |ns1| && name in ns1[q].transitions && t in ns1[q].transitions[name] ==> t in group
  }

  /** `if symbol not in new_state.transitions or new_state2 not in
      new_state.transitions[symbol]: new_state.add_transition(symbol,
      new_state2)`: a transition is added once. */
  method AddEdge(b: Graph, q: nat, symbol: string, r: nat)
    requires q < |b.nodes| && r < |b.nodes| && Lists(b.nodes)
    modifies b
    ensures |b.nodes| == |old(b.nodes)| && Lists(b.nodes)
    ensures Edges(b.nodes) == old(Edges(b.nodes)) + {(q, symbol, r)}
    ensures forall m :: 0 <= m < |b.nodes| ==> b.nodes[m].final == old(b.nodes[m].final) && b.nodes[m].epsilon == old(b.nodes[m].epsilon)
  {
    if symbol !in b.nodes[q].transitions || r !in b.nodes[q].transitions[symbol] {
      ghost var ns0 := b.nodes;
      b.AddTransition(q, symbol, r);
      AddedEdge(ns0, q, symbol, r);
    } else {
      assert (q, symbol, r) in Edges(b.nodes);
    }
  }

  lemma AddedEdge(ns: seq<Node>, q: nat, symbol: string, r: nat)
    requires q < |ns| && Lists(ns)
    requires symbol !in ns[q].transitions || r !in ns[q].transitions[symbol]
    ensures Lists(ns[q := AddTo(ns[q], symbol, r)])
    ensures Edges(ns[q := AddTo(ns[q], symbol, r)]) == Edges(ns) + {(q, symbol, r)}
  {
    var ns' := ns[q := AddTo(ns[q], symbol, r)];
    forall m, name | 0 <= m < |ns'| && name in ns'[m].transitions
      ensures ns'[m].transitions[name] != [] && NoDup(ns'[m].transitions[name])
    {
      if m == q && name == symbol && symbol in ns[q].transitions {
        NoDupAppend(ns[q].transitions[symbol], r);
      }
    }
    forall e | e in Edges(ns') ensures e in Edges(ns) + {(q, symbol, r)} {
      var m, name, t := e.0, e.1, e.2;
      if m == q && name == symbol && t != r {
        assert t in ns[q].transitions[symbol];
      }
    }
    forall e | e in Edges(ns) ensures e in Edges(ns') {
      var m, name, t := e.0, e.1, e.2;
      assert t in ns'[m].transitions[name];
    }
    assert r in ns'[q].transitions[symbol];
  }

  /** The body of `for state in states` for one LR(1) state `q`: each of
      its transitions, in the order of its symbols and of their lists, is
      added between the groups. */
  method ConnectState(b: Graph, ns1: seq<Node>, group: map<nat, nat>, q: nat)
    requires q < |ns1| && q in group && Targeted(ns1, group, q)
    requires forall t :: t in group ==> group[t] < |b.nodes|
    requires Lists(b.nodes)
    modifies b
    ensures |b.nodes| == |old(b.nodes)| && Lists(b.nodes)
    ensures Edges(b.nodes) == old(Edges(b.nodes)) + StateEdges(ns1, group, q)
    ensures forall m :: 0 <= m < |b.nodes| ==> b.nodes[m].final == old(b.nodes[m].final) && b.nodes[m].epsilon == old(b.nodes[m].epsilon)
  {
    var names := Enumerate(ns1[q].transitions.Keys);
    var j := 0;
    while j < |names|
      invariant 0 <= j <= |names|
      invariant |b.nodes| == |old(b.nodes)| && Lists(b.nodes)
      invariant Edges(b.nodes) == old(Edges(b.nodes)) + SymbolEdges(ns1, group, q, Elems(names[..j]))
      invariant forall m :: 0 <= m < |b.nodes| ==> b.nodes[m].final == old(b.nodes[m].final) && b.nodes[m].epsilon == old(b.nodes[m].epsilon)
    {
      ConnectSymbol(b, group, group[q], names[j], ns1[q].transitions[names[j]]);
      SymbolEdgesStep(ns1, group, q, names, j);
      j := j + 1;
    }
    assert names[..j] == names;
    SymbolEdgesAll(ns1, group, q, names);
  }

  /** `for state2 in transitions: ...` for one symbol of one state: each
      destination's group becomes a destination of `m`. */
  method ConnectSymbol(b: Graph, group: map<nat, nat>, m: nat, name: string, dests: seq<nat>)
    requires m < |b.nodes| && forall t :: t in dests ==> t in group && group[t] < |b.nodes|
    requires Lists(b.nodes)
    modifies b
    ensures |b.nodes| == |old(b.nodes)| && Lists(b.nodes)
    ensures Edges(b.nodes) == old(Edges(b.nodes)) + (set t | t in dests && t in group :: (m, name, group[t]))
    ensures forall m :: 0 <= m < |b.nodes| ==> b.nodes[m].final == old(b.nodes[m].final) && b.nodes[m].epsilon == old(b.nodes[m].epsilon)
  {
    var l := 0;
    while l < |dests|
      invariant 0 <= l <= |dests|
      invariant |b.nodes| == |old(b.nodes)| && Lists(b.nodes)
      invariant Edges(b.nodes) == old(Edges(b.nodes)) + (set t | t in dests[..l] && t in group :: (m, name, group[t]))
      invariant forall m :: 0 <= m < |b.nodes| ==> b.nodes[m].final == old(b.nodes[m].final) && b.nodes[m].epsilon == old(b.nodes[m].epsilon)
    {
      assert dests[l] in dests;
      AddEdge(b, m, name, group[dests[l]]);
      assert dests[..l + 1] == dests[..l] + [dests[l]];
      l := l + 1;
    }
    assert dests[..l] == dests;
  }

  /** The transitions of `q` on the symbols of `names`. */
  ghost function SymbolEdges(ns1: seq<Node>, group: map<nat, nat>, q: nat, names: set<string>): set<(nat, string, nat)> {
    set name, t | q < |ns1| && q in group && name in names && name in ns1[q].transitions && t in ns1[q].transitions[name] && t in group
      :: (group[q], name, group[t])
  }

  lemma SymbolEdgesStep(ns1: seq<Node>, group: map<nat, nat>, q: nat, names: seq<string>, j: nat)
    requires q < |ns1| && q in group && Targeted(ns1, group, q)
    requires j < |names| && names[j] in ns1[q].transitions
    ensures SymbolEdges(ns1, group, q, Elems(names[..j + 1])) ==
            SymbolEdges(ns1, group, q, Elems(names[..j])) + (set t | t in ns1[q].transitions[names[j]] && t in group :: (group[q], names[j], group[t]))
  {
    assert names[..j + 1] == names[..j] + [names[j]];
    assert Elems(names[..j + 1]) == Elems(names[..j]) + {names[j]};
  }

  lemma SymbolEdgesAll(ns1: seq<Node>, group: map<nat, nat>, q: nat, names: seq<string>)
    requires q < |ns1| && Elems(names) == ns1[q].transitions.Keys
    ensures SymbolEdges(ns1, group, q, Elems(names)) == StateEdges(ns1, group, q)
  {
  }

  /** `for state in states: ...`: the transitions of every LR(1) state,
      carried over between the groups. */
  method Connect(b: Graph, ns1: seq<Node>, order: seq<nat>, group: map<nat, nat>)
    requires forall k :: 0 <= k < |order| ==> order[k] < |ns1| && order[k] in group && Targeted(ns1, group, order[k])
    requires forall t :: t in group ==> group[t] < |b.nodes|
    requires Lists(b.nodes)
    modifies b
    ensures |b.nodes| == |old(b.nodes)| && Lists(b.nodes)
    ensures Edges(b.nodes) == old(Edges(b.nodes)) + MergedEdges(ns1, order, group)
    ensures forall m :: 0 <= m < |b.nodes| ==> b.nodes[m].final == old(b.nodes[m].final) && b.nodes[m].epsilon == old(b.nodes[m].epsilon)
  {
    var k := 0;
    while k < |order|
      invariant 0 <= k <= |order|
      invariant |b.nodes| == |old(b.nodes)| && Lists(b.nodes)
      invariant Edges(b.nodes) == old(Edges(b.nodes)) + MergedEdges(ns1, order[..k], group)
      invariant forall m :: 0 <= m < |b.nodes| ==> b.nodes[m].final == old(b.nodes[m].final) && b.nodes[m].epsilon == old(b.nodes[m].epsilon)
    {
      ConnectState(b, ns1, group, order[k]);
      MergedEdgesStep(ns1, order, group, k);
      k := k + 1;
    }
    assert order[..k] == order;
  }

  lemma MergedEdgesStep(ns1: seq<Node>, order: seq<nat>, group: map<nat, nat>, k: nat)
    requires k < |order|
    ensures MergedEdges(ns1, order[..k + 1], group) == MergedEdges(ns1, order[..k], group) + StateEdges(ns1, group, order[k])
  {
    var o := order[..k + 1];
    assert o[k] == order[k];
    forall e | e in MergedEdges(ns1, o, group) ensures e in MergedEdges(ns1, order[..k], group) + StateEdges(ns1, group, order[k]) {
      var j :| 0 <= j < |o| && e in StateEdges(ns1, group, o[j]);
      if j < k {
        assert order[..k][j] == o[j];
      }
    }
    forall e | e in MergedEdges(ns1, order[..k], group) ensures e in MergedEdges(ns1, o, group) {
      var j :| 0 <= j < k && e in StateEdges(ns1, group, order[..k][j]);
      assert o[j] == order[..k][j];
    }
  }

  // ------------------------------------------------- the LALR(1) automaton

  /** What `LR1_automaton` of the LALR(1) parser leaves: the LR(1) states
      listed by a visit from the start, grouped by their centers with the
      start state in group 0, each group a new final state holding the
      compressed items of its members, and the new states joined by the
      transitions of their members, each once. */
  ghost predicate Merging(ns1: seq<Node>, states: seq<set<Item>>, order1: seq<nat>, group: map<nat, nat>,
                          merged: seq<set<Item>>, ns: seq<Node>) {
    && Listed(states, order1) && order1 != [] && order1[0] == 0
    && Elems(order1) <= Automata.Range(|ns1|) && SuccClosed(ns1, Elems(order1))
    && group.Keys == Elems(order1) && group[0] == 0
    && (forall q :: q in group ==> group[q] < |merged|)
    && (forall q, r :: q in group && r in group ==> (group[q] == group[r] <==> Centers(states[q]) == Centers(states[r])))
    && (forall m :: 0 <= m < |merged| ==> merged[m] == Compressed(Members(states, group, m)) && m in group.Values)
    && |ns| == |merged| && Lists(ns)
    && (forall m :: 0 <= m < |ns| ==> ns[m].final && ns[m].epsilon == {})
    && Edges(ns) == MergedEdges(ns1, order1, group)
  }

  /** `LR1_automaton` of `LALR1Parser`: the LR(1) automaton, its states
      listed by a visit from the start, grouped and merged, and the
      transitions carried over; the merged start is the new start. */
  method LalrAutomaton(g: Grammar)
    returns (b: Graph, ns1: seq<Node>, states: seq<set<Item>>, kernels: seq<set<Item>>, order1: seq<nat>,
             group: map<nat, nat>, merged: seq<set<Item>>, ft: FirstTable)
    requires AugmentedStart !in g.nonTerminals && WellFormed(g) && Consistent(g)
    ensures fresh(b)
    ensures IsFirstSolution(Augmented(g), ft.ofSymbol)
    ensures forall F :: IsFirstSolution(Augmented(g), F) ==> Below(ft.ofSymbol, F)
    ensures Base(Augmented(g), WithEof(ft.ofSymbol))
    ensures KernelAutomaton(Augmented(g), WithEof(ft.ofSymbol), Symbols(Augmented(g)), StartKernel(g), ns1, states, kernels)
    ensures Merging(ns1, states, order1, group, merged, b.nodes)
  {
    var a;
    a, states, kernels, ft := Lr1Automaton(g);
    ns1 := a.nodes;
    order1 := a.Visit(0);
    ListedStates(Augmented(g), WithEof(ft.ofSymbol), StartKernel(g), ns1, states, kernels, order1);
    b, group, merged := MergeStates(ns1, states, order1);
  }

  /** The part of `LR1_automaton` after the LR(1) automaton is listed:
      the states grouped and merged, one new final state per group, and
      the transitions carried over. */
  method MergeStates(ns1: seq<Node>, states: seq<set<Item>>, order1: seq<nat>)
    returns (b: Graph, group: map<nat, nat>, merged: seq<set<Item>>)
    requires Listed(states, order1) && order1 != [] && order1[0] == 0
    requires Elems(order1) <= Automata.Range(|ns1|) && SuccClosed(ns1, Elems(order1))
    ensures fresh(b)
    ensures Merging(ns1, states, order1, group, merged, b.nodes)
  {
    merged, group := Group(states, order1);
    b := new Graph(seq(|merged|, _ => Node(true, map[], {})));
    assert Edges(b.nodes) == {};
    TargetsGrouped(ns1, order1, group);
    Connect(b, ns1, order1, group);
    MergingHolds(ns1, states, order1, group, merged, b.nodes);
  }

  lemma MergingHolds(ns1: seq<Node>, states: seq<set<Item>>, order1: seq<nat>, group: map<nat, nat>,
                     merged: seq<set<Item>>, ns: seq<Node>)
    requires Listed(states, order1) && order1 != [] && order1[0] == 0
    requires Elems(order1) <= Automata.Range(|ns1|) && SuccClosed(ns1, Elems(order1))
    requires group.Keys == Elems(order1) && group[order1[0]] == 0
    requires forall q :: q in group ==> group[q] < |merged|
    requires forall q, r :: q in group && r in group ==> (group[q] == group[r] <==> Centers(states[q]) == Centers(states[r]))
    requires forall m :: 0 <= m < |merged| ==> merged[m] == Compressed(Members(states, group, m))
    requires forall m :: 0 <= m < |merged| ==> m in group.Values
    requires |ns| == |merged| && Lists(ns)
    requires forall m :: 0 <= m < |ns| ==> ns[m].final && ns[m].epsilon == {}
    requires Edges(ns) == {} + MergedEdges(ns1, order1, group)
    ensures Merging(ns1, states, order1, group, merged, ns)
  {
    assert {} + MergedEdges(ns1, order1, group) == MergedEdges(ns1, order1, group);
  }

  /** The LR(1) states a visit lists are listed once each, with one item
      per center. */
  lemma ListedStates(G: Grammar, firsts: Firsts, start: set<Item>, ns: seq<Node>, states: seq<set<Item>>,
                     kernels: seq<set<Item>>, order: seq<nat>)
    requires Base(G, firsts) && KernelAutomaton(G, firsts, Symbols(G), start, ns, states, kernels)
    requires NoDup(order) && Elems(order) <= Automata.Range(|ns|)
    ensures Listed(states, order)
  {
    StatesItems(G, firsts, Symbols(G), start, ns, states, kernels);
    forall k | 0 <= k < |order| ensures order[k] < |states| && OnePerCenter(states[order[k]]) {
      assert order[k] in Elems(order);
      var visited := Unpack(G, firsts, start, ns, states, kernels, order[k]);
      CompressedProps(Lr1Closure(G, firsts, kernels[order[k]]));
    }
  }

  /** Every destination of a listed state is listed, hence grouped. */
  lemma TargetsGrouped(ns1: seq<Node>, order: seq<nat>, group: map<nat, nat>)
    requires Elems(order) <= Automata.Range(|ns1|) && SuccClosed(ns1, Elems(order)) && group.Keys == Elems(order)
    ensures forall k :: 0 <= k < |order| ==> order[k] < |ns1| && order[k] in group && Targeted(ns1, group, order[k])
  {
    forall k, name, t | 0 <= k < |order| && name in ns1[order[k]].transitions && t in ns1[order[k]].transitions[name]
      ensures t in group
    {
      assert order[k] in Elems(order);
      assert t in Successors(ns1[order[k]]);
    }
  }

  // ---------------------------------------------------- the LALR(1) table

  /** What the LALR(1) table is built from: the LR(1) automaton of the
      augmented grammar, its merged form, and the numbering of the merged
      states by a visit from the merged start. */
  ghost predicate LalrSetting(g: Grammar, firsts: Firsts, ns1: seq<Node>, states: seq<set<Item>>, kernels: seq<set<Item>>,
                              order1: seq<nat>, group: map<nat, nat>, merged: seq<set<Item>>, ns: seq<Node>,
                              order: seq<nat>, idx: map<nat, nat>)
    requires AugmentedStart !in g.nonTerminals
  {
    var G := Augmented(g);
    && WellFormed(g) && Consistent(g) && Slr.Named(g)
    && Base(G, firsts)
    && KernelAutomaton(G, firsts, Symbols(G), StartKernel(g), ns1, states, kernels)
    && Merging(ns1, states, order1, group, merged, ns)
    && Slr.Numbered(ns, order, idx)
  }

  /** A non-reduce item of a listed LR(1) state has a transition on its
      next symbol. */
  lemma Lr1Moves(g: Grammar, firsts: Firsts, ns1: seq<Node>, states: seq<set<Item>>, kernels: seq<set<Item>>,
                 order1: seq<nat>, q: nat, x: Item)
    requires AugmentedStart !in g.nonTerminals && WellFormed(g) && Slr.Named(g)
    requires Base(Augmented(g), firsts) && KernelAutomaton(Augmented(g), firsts, Symbols(Augmented(g)), StartKernel(g), ns1, states, kernels)
    requires Elems(order1) <= Automata.Range(|ns1|) && SuccClosed(ns1, Elems(order1))
    requires q in Elems(order1) && x in states[q] && !x.IsReduceItem()
    ensures q < |ns1| && HasMove(ns1[q], x)
  {
    var G := Augmented(g);
    Slr.NamedAugmented(g);
    StatesItems(G, firsts, Symbols(G), StartKernel(g), ns1, states, kernels);
    var visited := Unpack(G, firsts, StartKernel(g), ns1, states, kernels, q);
    var idx := Zeros(Elems(order1));
    ItemFits(G, firsts, ns1, states, kernels, visited, order1, idx, q, x);
  }

  /** A map defined on `S`. */
  function Zeros(S: set<nat>): (r: map<nat, nat>)
    ensures r.Keys == S
  {
    map q | q in S :: 0
  }

  /** Every item of every merged state fits the table construction, and
      every one is an LR(1) item. */
  lemma LalrFits(g: Grammar, firsts: Firsts, ns1: seq<Node>, states: seq<set<Item>>, kernels: seq<set<Item>>,
                 order1: seq<nat>, group: map<nat, nat>, merged: seq<set<Item>>, ns: seq<Node>,
                 order: seq<nat>, idx: map<nat, nat>)
    requires AugmentedStart !in g.nonTerminals
    requires LalrSetting(g, firsts, ns1, states, kernels, order1, group, merged, ns, order, idx)
    ensures AllFit(order, ns, merged, idx, ByItem)
    ensures Lr1States(Augmented(g), firsts, merged)
  {
    AllMoves(g, firsts, ns1, states, kernels, order1);
    FitsMerged(ns1, states, order1, group, merged, ns, order, idx);
    StatesItems(Augmented(g), firsts, Symbols(Augmented(g)), StartKernel(g), ns1, states, kernels);
    MergedItems(Augmented(g), firsts, states, group, merged);
  }

  lemma AllMoves(g: Grammar, firsts: Firsts, ns1: seq<Node>, states: seq<set<Item>>, kernels: seq<set<Item>>, order1: seq<nat>)
    requires AugmentedStart !in g.nonTerminals && WellFormed(g) && Slr.Named(g)
    requires Base(Augmented(g), firsts) && KernelAutomaton(Augmented(g), firsts, Symbols(Augmented(g)), StartKernel(g), ns1, states, kernels)
    requires Elems(order1) <= Automata.Range(|ns1|) && SuccClosed(ns1, Elems(order1))
    ensures Moves(ns1, states, order1)
  {
    forall q, x | q in Elems(order1) && q < |states| && q < |ns1| && x in states[q] && !x.IsReduceItem()
      ensures HasMove(ns1[q], x)
    {
      Lr1Moves(g, firsts, ns1, states, kernels, order1, q, x);
    }
  }

  lemma FitsMerged(ns1: seq<Node>, states: seq<set<Item>>, order1: seq<nat>, group: map<nat, nat>,
                   merged: seq<set<Item>>, ns: seq<Node>, order: seq<nat>, idx: map<nat, nat>)
    requires Moves(ns1, states, order1)
    requires Merging(ns1, states, order1, group, merged, ns) && Slr.Numbered(ns, order, idx)
    ensures AllFit(order, ns, merged, idx, ByItem)
  {
    forall j | 0 <= j < |order|
      ensures order[j] < |ns| && order[j] < |merged|
      ensures forall it :: it in merged[order[j]] ==> Fits(it, ns[order[j]], idx, ByItem)
    {
      assert order[j] in Elems(order);
      forall it | it in merged[order[j]] ensures Fits(it, ns[order[j]], idx, ByItem) {
        MergedItemFits(ns1, states, order1, group, merged, ns, order, idx, order[j], it);
      }
    }
  }

  /** The merged states hold LR(1) items. */
  lemma MergedItems(G: Grammar, firsts: Firsts, states: seq<set<Item>>, group: map<nat, nat>, merged: seq<set<Item>>)
    requires forall k :: 0 <= k < |states| ==> Lr1Set(G, firsts, states[k])
    requires forall m :: 0 <= m < |merged| ==> merged[m] == Compressed(Members(states, group, m))
    ensures Lr1States(G, firsts, merged)
  {
    forall m | 0 <= m < |merged| ensures Lr1Set(G, firsts, merged[m]) {
      CompressedItems(G, firsts, Members(states, group, m));
    }
  }

  /** Every non-reduce item of a listed LR(1) state has a transition on
      its next symbol. */
  ghost predicate Moves(ns1: seq<Node>, states: seq<set<Item>>, order1: seq<nat>) {
    forall q, x :: q in Elems(order1) && q < |states| && q < |ns1| && x in states[q] && !x.IsReduceItem() ==> HasMove(ns1[q], x)
  }

  /** The state has a transition on the next symbol of the item. */
  predicate HasMove(n: Node, x: Item) {
    && x.pos < |x.production.rhs|
    && var name := x.production.rhs[x.pos].name;
       name != "" && name in n.transitions && |n.transitions[name]| > 0
  }

  /** A non-reduce item of a merged state: its center comes from a member,
      whose transition on the next symbol was carried over, and the first
      destination on it is numbered. */
  lemma MergedItemFits(ns1: seq<Node>, states: seq<set<Item>>, order1: seq<nat>, group: map<nat, nat>,
                       merged: seq<set<Item>>, ns: seq<Node>, order: seq<nat>, idx: map<nat, nat>, m: nat, it: Item)
    requires Moves(ns1, states, order1)
    requires group.Keys == Elems(order1) && SuccClosed(ns1, Elems(order1)) && Elems(order1) <= Automata.Range(|ns1|)
    requires Edges(ns) == MergedEdges(ns1, order1, group) && Lists(ns)
    requires SuccClosed(ns, Elems(order)) && idx.Keys == Elems(order)
    requires m in Elems(order) && m < |ns| && m < |merged| && merged[m] == Compressed(Members(states, group, m))
    requires it in merged[m]
    ensures Fits(it, ns[m], idx, ByItem)
  {
    if !it.IsReduceItem() {
      var M := Members(states, group, m);
      CompressedProps(M);
      assert it.Center() in Centers(M);
      var x :| x in M && x.Center() == it.Center();
      var q :| q in group && group[q] == m && q < |states| && x in states[q];
      assert x.production == it.production && x.pos == it.pos;
      assert q in Elems(order1) && !x.IsReduceItem();
      assert q < |ns1|;
      assert HasMove(ns1[q], x);
      var name := x.production.rhs[x.pos].name;
      var t := ns1[q].transitions[name][0];
      assert t in ns1[q].transitions[name];
      assert t in Successors(ns1[q]);
      assert t in group;
      assert (m, name, group[t]) in StateEdges(ns1, group, q);
      var k :| 0 <= k < |order1| && order1[k] == q;
      assert (m, name, group[t]) in Edges(ns);
      var f := ns[m].transitions[name][0];
      assert f in ns[m].transitions[name];
      assert f in Successors(ns[m]);
    }
  }

  /** The registrations of the LALR(1) table. */
  ghost function LalrEntries(g: Grammar, firsts: Firsts, ns1: seq<Node>, states: seq<set<Item>>, kernels: seq<set<Item>>,
                             order1: seq<nat>, group: map<nat, nat>, merged: seq<set<Item>>, ns: seq<Node>,
                             order: seq<nat>, idx: map<nat, nat>): set<Entry>
    requires AugmentedStart !in g.nonTerminals
    requires LalrSetting(g, firsts, ns1, states, kernels, order1, group, merged, ns, order, idx)
  {
    LalrFits(g, firsts, ns1, states, kernels, order1, group, merged, ns, order, idx);
    TableEntries(order, |order|, ns, merged, idx, ByItem, AugmentedStart)
  }

  /** `LALR1Parser(G)`: the table of `LR1Parser`, built on the merged
      automaton; the flag (`isLR1`, which the LALR(1) parser also sets)
      ends up true exactly when no two registrations clash. */
  method LalrParser(g: Grammar)
    returns (p: Parser, ns1: seq<Node>, states: seq<set<Item>>, kernels: seq<set<Item>>, order1: seq<nat>,
             group: map<nat, nat>, merged: seq<set<Item>>, ns: seq<Node>, order: seq<nat>, idx: map<nat, nat>,
             ft: FirstTable)
    requires AugmentedStart !in g.nonTerminals && WellFormed(g) && Consistent(g) && Slr.Named(g)
    ensures fresh(p)
    ensures IsFirstSolution(Augmented(g), ft.ofSymbol)
    ensures forall F :: IsFirstSolution(Augmented(g), F) ==> Below(ft.ofSymbol, F)
    ensures LalrSetting(g, WithEof(ft.ofSymbol), ns1, states, kernels, order1, group, merged, ns, order, idx)
    ensures Holds(p.action, p.goto, p.flag, LalrEntries(g, WithEof(ft.ofSymbol), ns1, states, kernels, order1, group, merged, ns, order, idx))
  {
    var b;
    b, ns1, states, kernels, order1, group, merged, ft := LalrAutomaton(g);
    ns := b.nodes;
    MergedClosed(ns1, order1, group, merged, ns);
    order := b.Visit(0);
    idx := Number(order);
    LalrFits(g, WithEof(ft.ofSymbol), ns1, states, kernels, order1, group, merged, ns, order, idx);
    p := new Parser();
    BuildTable(p, order, ns, merged, idx, ByItem, AugmentedStart);
  }

  /** The merged states name only merged states. */
  lemma MergedClosed(ns1: seq<Node>, order1: seq<nat>, group: map<nat, nat>, merged: seq<set<Item>>, ns: seq<Node>)
    requires |ns| == |merged| && (forall q :: q in group ==> group[q] < |merged|)
    requires forall m :: 0 <= m < |ns| ==> ns[m].epsilon == {}
    requires Edges(ns) == MergedEdges(ns1, order1, group)
    ensures Closed(ns)
  {
    forall m, r | 0 <= m < |ns| && r in Successors(ns[m]) ensures r < |ns| {
      var name :| name in ns[m].transitions && r in ns[m].transitions[name];
      assert (m, name, r) in Edges(ns);
      var j, e :| 0 <= j < |order1| && e in StateEdges(ns1, group, order1[j]) && e == (m, name, r);
    }
  }

  // ------------------------------------------------- what the table holds

  /** A merged state holds an item of `p` with the dot at `pos` and `a`
      among its lookaheads exactly when some state of its group holds one. */
  lemma MergedLookahead(states: seq<set<Item>>, group: map<nat, nat>, m: nat, p: Production, pos: nat, a: Symbol)
    ensures (exists L :: Item(p, pos, L) in Compressed(Members(states, group, m)) && a in L) <==>
            (exists q, L :: q in group && group[q] == m && q < |states| && Item(p, pos, L) in states[q] && a in L)
  {
    var M := Members(states, group, m);
    CompressedProps(M);
    if exists L :: Item(p, pos, L) in Compressed(M) && a in L {
      var L :| Item(p, pos, L) in Compressed(M) && a in L;
      var x :| x in M && x.Center() == Item(p, pos, L).Center() && a in x.lookaheads;
      var q :| q in group && group[q] == m && q < |states| && x in states[q];
      assert x == Item(p, pos, x.lookaheads);
    }
    if exists q, L :: q in group && group[q] == m && q < |states| && Item(p, pos, L) in states[q] && a in L {
      var q, L :| q in group && group[q] == m && q < |states| && Item(p, pos, L) in states[q] && a in L;
      var x := Item(p, pos, L);
      assert x in M;
      assert x.Center() in Centers(Compressed(M));
      var y :| y in Compressed(M) && y.Center() == x.Center();
      assert y == Item(p, pos, y.lookaheads);
    }
  }

  /** A merged state holds an item with the center of `x` exactly when some
      state of its group does. */
  lemma MergedCenter(states: seq<set<Item>>, group: map<nat, nat>, m: nat, c: Item)
    ensures (exists it :: it in Compressed(Members(states, group, m)) && it.Center() == c) <==>
            (exists q, x :: q in group && group[q] == m && q < |states| && x in states[q] && x.Center() == c)
  {
    var M := Members(states, group, m);
    CompressedProps(M);
    if exists it :: it in Compressed(M) && it.Center() == c {
      var it :| it in Compressed(M) && it.Center() == c;
      assert c in Centers(M);
    }
    if exists q, x :: q in group && group[q] == m && q < |states| && x in states[q] && x.Center() == c {
      var q, x :| q in group && group[q] == m && q < |states| && x in states[q] && x.Center() == c;
      assert x in M;
      assert c in Centers(Compressed(M));
    }
  }

  /** A state of the LALR(1) table REDUCEs by `p` on `a` exactly when some
      LR(1) state merged into it holds a reduce item of `p` with `a` among
      its lookaheads, and the head of `p` is not the augmented start. */
  lemma LalrReduce(g: Grammar, firsts: Firsts, ns1: seq<Node>, states: seq<set<Item>>, kernels: seq<set<Item>>,
                   order1: seq<nat>, group: map<nat, nat>, merged: seq<set<Item>>, ns: seq<Node>,
                   order: seq<nat>, idx: map<nat, nat>, i: nat, a: Symbol, p: Production)
    requires AugmentedStart !in g.nonTerminals
    requires LalrSetting(g, firsts, ns1, states, kernels, order1, group, merged, ns, order, idx)
    ensures ActionEntry((i, a), Reduce(p)) in LalrEntries(g, firsts, ns1, states, kernels, order1, group, merged, ns, order, idx) <==>
            && i < |order| && p.lhs != AugmentedStart
            && exists q, L :: q in group && group[q] == order[i] && q < |states| && Item(p, |p.rhs|, L) in states[q] && a in L
  {
    LalrFits(g, firsts, ns1, states, kernels, order1, group, merged, ns, order, idx);
    ReduceEntries(Augmented(g), firsts, order, ns, merged, idx, i, a, p);
    if i < |order| {
      MergedLookahead(states, group, order[i], p, |p.rhs|, a);
    }
  }

  /** A state of the LALR(1) table registers OK on `a` exactly when `a` is
      EOF and some LR(1) state merged into it holds the completed start
      item. */
  lemma LalrAccept(g: Grammar, firsts: Firsts, ns1: seq<Node>, states: seq<set<Item>>, kernels: seq<set<Item>>,
                   order1: seq<nat>, group: map<nat, nat>, merged: seq<set<Item>>, ns: seq<Node>,
                   order: seq<nat>, idx: map<nat, nat>, i: nat, a: Symbol)
    requires AugmentedStart !in g.nonTerminals
    requires LalrSetting(g, firsts, ns1, states, kernels, order1, group, merged, ns, order, idx)
    ensures ActionEntry((i, a), Accept) in LalrEntries(g, firsts, ns1, states, kernels, order1, group, merged, ns, order, idx) <==>
            && i < |order| && a == EOF
            && exists q, L :: q in group && group[q] == order[i] && q < |states| && Item(Production(AugmentedStart, [N(g.start)]), 1, L) in states[q]
  {
    var sp := Production(AugmentedStart, [N(g.start)]);
    LalrFits(g, firsts, ns1, states, kernels, order1, group, merged, ns, order, idx);
    forall p | p in Augmented(g).productions && p.lhs == AugmentedStart ensures p == sp {
      Slr.StartProduction(g, p);
    }
    AcceptEntries(Augmented(g), firsts, order, ns, merged, idx, i, a, sp);
    if i < |order| {
      MergedCenter(states, group, order[i], Item(sp, 1, {}));
      AcceptCenter(states, group, order[i], sp, merged);
    }
  }

  lemma AcceptCenter(states: seq<set<Item>>, group: map<nat, nat>, m: nat, sp: Production, merged: seq<set<Item>>)
    requires m < |merged| && merged[m] == Compressed(Members(states, group, m)) && |sp.rhs| == 1
    requires (exists it :: it in merged[m] && it.Center() == Item(sp, 1, {})) <==>
             (exists q, x :: q in group && group[q] == m && q < |states| && x in states[q] && x.Center() == Item(sp, 1, {}))
    ensures (exists L :: Item(sp, |sp.rhs|, L) in merged[m]) <==>
            (exists q, L :: q in group && group[q] == m && q < |states| && Item(sp, 1, L) in states[q])
  {
    if exists L :: Item(sp, |sp.rhs|, L) in merged[m] {
      var L :| Item(sp, |sp.rhs|, L) in merged[m];
      assert Item(sp, 1, L).Center() == Item(sp, 1, {});
      var q, x :| q in group && group[q] == m && q < |states| && x in states[q] && x.Center() == Item(sp, 1, {});
      assert x == Item(sp, 1, x.lookaheads);
    }
    if exists q, L :: q in group && group[q] == m && q < |states| && Item(sp, 1, L) in states[q] {
      var q, L :| q in group && group[q] == m && q < |states| && Item(sp, 1, L) in states[q];
      assert Item(sp, 1, L).Center() == Item(sp, 1, {});
      var it :| it in merged[m] && it.Center() == Item(sp, 1, {});
      assert it == Item(sp, |sp.rhs|, it.lookaheads);
    }
  }

  /** The merged automaton has a transition from `m` to `r` on `name`
      exactly when some LR(1) state of group `m` has one on `name` to a
      state of group `r`. */
  lemma MergedEdge(ns1: seq<Node>, states: seq<set<Item>>, order1: seq<nat>, group: map<nat, nat>,
                   merged: seq<set<Item>>, ns: seq<Node>, m: nat, name: string, r: nat)
    requires Merging(ns1, states, order1, group, merged, ns)
    ensures (m < |ns| && name in ns[m].transitions && r in ns[m].transitions[name]) <==>
            exists q, t :: q in group && group[q] == m && q < |ns1| && name in ns1[q].transitions &&
                           t in ns1[q].transitions[name] && t in group && group[t] == r
  {
    if m < |ns| && name in ns[m].transitions && r in ns[m].transitions[name] {
      assert (m, name, r) in Edges(ns);
      var j, e :| 0 <= j < |order1| && e in StateEdges(ns1, group, order1[j]) && e == (m, name, r);
    }
    if exists q, t :: q in group && group[q] == m && q < |ns1| && name in ns1[q].transitions &&
                      t in ns1[q].transitions[name] && t in group && group[t] == r {
      var q, t :| q in group && group[q] == m && q < |ns1| && name in ns1[q].transitions &&
                  t in ns1[q].transitions[name] && t in group && group[t] == r;
      var j :| 0 <= j < |order1| && order1[j] == q;
      assert (m, name, r) in StateEdges(ns1, group, order1[j]);
      assert (m, name, r) in Edges(ns);
    }
  }

  /** A state of the LALR(1) table SHIFTs (on a terminal) or GOes TO (on a
      non-terminal) state `j` exactly when some LR(1) state merged into it
      has `a` after the dot of an item and `j` is the first destination the
      merged state records on `a`. */
  lemma LalrEdge(g: Grammar, firsts: Firsts, ns1: seq<Node>, states: seq<set<Item>>, kernels: seq<set<Item>>,
                 order1: seq<nat>, group: map<nat, nat>, merged: seq<set<Item>>, ns: seq<Node>,
                 order: seq<nat>, idx: map<nat, nat>, i: nat, a: Symbol, j: nat)
    requires AugmentedStart !in g.nonTerminals
    requires LalrSetting(g, firsts, ns1, states, kernels, order1, group, merged, ns, order, idx)
    ensures EdgeEntry(i, a, j) in LalrEntries(g, firsts, ns1, states, kernels, order1, group, merged, ns, order, idx) <==>
            && i < |order| && j < |order|
            && (exists q, x :: q in group && group[q] == order[i] && q < |states| && x in states[q] &&
                               !x.IsReduceItem() && x.production.rhs[x.pos] == a)
            && a.name in ns[order[i]].transitions && |ns[order[i]].transitions[a.name]| > 0
            && ns[order[i]].transitions[a.name][0] == order[j]
  {
    LalrFits(g, firsts, ns1, states, kernels, order1, group, merged, ns, order, idx);
    EdgeEntries(order, ns, merged, idx, ByItem, AugmentedStart, i, a, j);
    if i < |order| {
      assert order[i] in Elems(order);
      NextSymbolMerged(states, group, order[i], merged, a);
    }
  }

  lemma NextSymbolMerged(states: seq<set<Item>>, group: map<nat, nat>, m: nat, merged: seq<set<Item>>, a: Symbol)
    requires m < |merged| && merged[m] == Compressed(Members(states, group, m))
    ensures (exists it :: it in merged[m] && !it.IsReduceItem() && it.production.rhs[it.pos] == a) <==>
            (exists q, x :: q in group && group[q] == m && q < |states| && x in states[q] &&
                            !x.IsReduceItem() && x.production.rhs[x.pos] == a)
  {
    var M := Members(states, group, m);
    if exists it :: it in merged[m] && !it.IsReduceItem() && it.production.rhs[it.pos] == a {
      var it :| it in merged[m] && !it.IsReduceItem() && it.production.rhs[it.pos] == a;
      var x :| x in M && it == Item(x.production, x.pos, CenterLookaheads(M, x.Center()));
      var q :| q in group && group[q] == m && q < |states| && x in states[q];
      assert !x.IsReduceItem() && x.production.rhs[x.pos] == a;
    }
    if exists q, x :: q in group && group[q] == m && q < |states| && x in states[q] &&
                      !x.IsReduceItem() && x.production.rhs[x.pos] == a {
      var q, x :| q in group && group[q] == m && q < |states| && x in states[q] &&
                  !x.IsReduceItem() && x.production.rhs[x.pos] == a;
      assert x in M;
      var it := Item(x.production, x.pos, CenterLookaheads(M, x.Center()));
      assert it in merged[m];
      assert !it.IsReduceItem() && it.production.rhs[it.pos] == a;
    }
  }

  // ------------------------------------------- the merge as written and fixed

  /** Every lookahead of every item of `s`. */
  function AllLookaheads(s: seq<Item>): set<Symbol> {
    set k, y | 0 <= k < |s| && y in s[k].lookaheads :: y
  }

  /** With distinct centers, the match of the center of an item is the
      item itself. */
  lemma {:induction false} FirstMatchSelf(s: seq<Item>, k: nat)
    requires DistinctCenters(s) && k < |s|
    ensures FirstMatch(s, s[k].Center()) == Some(s[k])
    decreases k
  {
    if k > 0 {
      assert s[0].Center() != s[k].Center();
      assert DistinctCenters(s[1..]) by {
        forall a, b | 0 <= a < b < |s[1..]| ensures s[1..][a].Center() != s[1..][b].Center() {
          assert s[1..][a] == s[a + 1] && s[1..][b] == s[b + 1];
        }
      }
      FirstMatchSelf(s[1..], k - 1);
      assert s[1..][k - 1] == s[k];
    }
  }

  /** A state merged into its own centers: each center finds its item, and
      the lookaheads collected are those of the items, in order. */
  lemma SelfMatched(s: seq<Item>)
    requires DistinctCenters(s)
    ensures Mergeable(CentersOf(s), s)
    ensures forall k :: 0 <= k < |s| ==> Matched(CentersOf(s), s)[k] == s[k].lookaheads
  {
    forall k | 0 <= k < |s| ensures FirstMatch(s, CentersOf(s)[k].Center()) == Some(s[k]) {
      assert CentersOf(s)[k].Center() == s[k].Center();
      FirstMatchSelf(s, k);
    }
  }

  /** `merge` as written, on a state and its own centers (the first turn of
      the grouping loop for every new group): every item comes out with
      every lookahead of the whole state. */
  lemma MergeSelfAsWritten(s: seq<Item>)
    requires DistinctCenters(s)
    ensures Mergeable(CentersOf(s), s)
    ensures forall k :: 0 <= k < |s| ==>
              MergedAsWritten(CentersOf(s), s)[k] == Item(s[k].production, s[k].pos, AllLookaheads(s))
  {
    SelfMatched(s);
    var ls := Matched(CentersOf(s), s);
    assert Flattened(ls) == AllLookaheads(s) by {
      forall y | y in AllLookaheads(s) ensures y in Flattened(ls) {
        var k :| 0 <= k < |s| && y in s[k].lookaheads;
        assert y in ls[k];
      }
    }
  }

  /** `merge` as evidently intended, on a state and its own centers: the
      state comes back unchanged. */
  lemma MergeSelf(s: seq<Item>)
    requires DistinctCenters(s)
    ensures Mergeable(CentersOf(s), s)
    ensures MergedByCenter(CentersOf(s), s) == s
  {
    SelfMatched(s);
    var w := MergedByCenter(CentersOf(s), s);
    forall k | 0 <= k < |s| ensures w[k] == s[k] {
      assert w[k] == Widened(CentersOf(s)[k], s[k].lookaheads);
    }
  }

  /** The LR(1) state reached on `a c` in the grammar `S -> a A d | a B e`,
      `A -> c`, `B -> c`: reduce by `A -> c` on `d`, by `B -> c` on `e`. */
  function ReduceReduceState(): seq<Item> {
    [Item(Production("A", [T("c")]), 1, {T("d")}), Item(Production("B", [T("c")]), 1, {T("e")})]
  }

  /** As written, merging that state into its own centers leaves both
      reduce items with `e` among their lookaheads: the table then holds
      two clashing REDUCE registrations for the state on `e`, though the
      grammar is LALR(1). */
  lemma MergeAsWrittenClash()
    ensures Mergeable(CentersOf(ReduceReduceState()), ReduceReduceState())
    ensures var w := MergedAsWritten(CentersOf(ReduceReduceState()), ReduceReduceState());
            |w| == 2 && w[0].IsReduceItem() && w[1].IsReduceItem() &&
            ActionEntry((0, T("e")), Reduce(w[0].production)) in Reduces(0, w[0].production, w[0].lookaheads) &&
            ActionEntry((0, T("e")), Reduce(w[1].production)) in Reduces(0, w[1].production, w[1].lookaheads) &&
            Clash(ActionEntry((0, T("e")), Reduce(w[0].production)), ActionEntry((0, T("e")), Reduce(w[1].production)))
  {
    var s := ReduceReduceState();
    assert s[0].Center() != s[1].Center();
    MergeSelfAsWritten(s);
    assert T("e") in AllLookaheads(s) by {
      assert T("e") in s[1].lookaheads;
    }
  }

  /** Merged per center, the same state keeps its lookaheads apart: no
      symbol is a lookahead of both reduce items. */
  lemma MergeByCenterNoClash()
    ensures Mergeable(CentersOf(ReduceReduceState()), ReduceReduceState())
    ensures var w := MergedByCenter(CentersOf(ReduceReduceState()), ReduceReduceState());
            |w| == 2 && w[0].lookaheads !! w[1].lookaheads
  {
    var s := ReduceReduceState();
    assert s[0].Center() != s[1].Center();
    MergeSelf(s);
  }
}
