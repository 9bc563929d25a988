/** Derivation trees rebuilt from a parser's output: a left parse read in
    preorder, or a right parse read right to left. */
module Derivations {
  import opened Grammars

  /** A node: a terminal leaf or a non-terminal with its children. */
  datatype Tree = Node(symbol: Symbol, children: seq<Tree>)

  /** `do_the_tree`: the production at `count` becomes a node labelled with its
      head; its body is read left to right (`leftmost`) or right to left, a
      terminal becoming a leaf and a non-terminal the subtree built from the
      next unused production.  Running past the end of the parse is the
      source's `IndexError`.  The result also gives the first unused index. */
  function BuildTree(ps: seq<Production>, count: nat, leftmost: bool): (r: Option<(Tree, nat)>)
    ensures r.Some? ==> count < r.value.1 <= |ps|
    ensures r.Some? ==> r.value.0.symbol == N(ps[count].lhs) && |r.value.0.children| == |ps[count].rhs|
    decreases if count < |ps| then |ps| - count else 0, 0
  {
    if count >= |ps| then None
    else
      var p := ps[count];
      var body := if leftmost then p.rhs else Reverse(p.rhs);
      match BuildChildren(ps, body, count + 1, leftmost)
      case None => None
      case Some((cs, current)) => Some((Node(N(p.lhs), if leftmost then cs else Reverse(cs)), current))
  }

  /** The loop over a body: the children in the order they were built. */
  function BuildChildren(ps: seq<Production>, body: seq<Symbol>, current: nat, leftmost: bool): (r: Option<(seq<Tree>, nat)>)
    requires current <= |ps|
    ensures r.Some? ==> current <= r.value.1 <= |ps| && |r.value.0| == |body|
    decreases |ps| - current, |body| + 1
  {
    if body == [] then Some(([], current))
    else if body[0].T? then
      match BuildChildren(ps, body[1..], current, leftmost)
      case None => None
      case Some((cs, c)) => Some(([Node(body[0], [])] + cs, c))
    else
      match BuildTree(ps, current, leftmost)
      case None => None
      case Some((t, c)) =>
        match BuildChildren(ps, body[1..], c, leftmost)
        case None => None
        case Some((cs, c')) => Some(([t] + cs, c'))
  }

  /** The heads of a tree's inner nodes, root first, children visited left to
      right (`leftmost`) or right to left. */
  function Heads(t: Tree, leftmost: bool): seq<string>
    decreases t, 1
  {
    (if t.symbol.N? then [t.symbol.name] else [])
    + (if leftmost then HeadsForward(t.children, leftmost) else HeadsBackward(t.children, leftmost))
  }

  function HeadsForward(cs: seq<Tree>, leftmost: bool): seq<string>
    decreases cs, 0
  {
    if cs == [] then [] else Heads(cs[0], leftmost) + HeadsForward(cs[1..], leftmost)
  }

  function HeadsBackward(cs: seq<Tree>, leftmost: bool): seq<string>
    decreases cs, 0
  {
    if cs == [] then [] else Heads(cs[|cs| - 1], leftmost) + HeadsBackward(cs[..|cs| - 1], leftmost)
  }

  /** The heads of a stretch of the parse, in order. */
  function Lhss(ps: seq<Production>): (r: seq<string>)
    ensures |r| == |ps| && forall i :: 0 <= i < |ps| ==> r[i] == ps[i].lhs
  {
    if ps == [] then [] else [ps[0].lhs] + Lhss(ps[1..])
  }

  lemma LhssSplit(ps: seq<Production>, i: nat, j: nat, k: nat)
    requires i <= j <= k <= |ps|
    ensures Lhss(ps[i..k]) == Lhss(ps[i..j]) + Lhss(ps[j..k])
  {
    var a, b, c := Lhss(ps[i..j]), Lhss(ps[j..k]), Lhss(ps[i..k]);
    assert forall x :: 0 <= x < k - i ==> c[x] == (a + b)[x];
  }

  lemma {:induction false} BackwardOfReverse(b: seq<Tree>, leftmost: bool)
    ensures HeadsBackward(Reverse(b), leftmost) == HeadsForward(b, leftmost)
  {
    if b != [] {
      var r := Reverse(b);
      assert r[|r| - 1] == b[0];
      assert r[..|r| - 1] == Reverse(b[1..]);
      BackwardOfReverse(b[1..], leftmost);
    }
  }

  /** The tree built from index `count` uses the productions up to the index
      it returns, and in the order the tree is visited: preorder for a left
      parse, reversed preorder for a right parse. */
  lemma {:induction false} BuildTreeHeads(ps: seq<Production>, count: nat, leftmost: bool)
    ensures BuildTree(ps, count, leftmost).Some? ==>
              var (t, c) := BuildTree(ps, count, leftmost).value;
              Heads(t, leftmost) == Lhss(ps[count..c])
    decreases if count < |ps| then |ps| - count else 0, 0
  {
    if count < |ps| {
      var p := ps[count];
      var body := if leftmost then p.rhs else Reverse(p.rhs);
      var r := BuildChildren(ps, body, count + 1, leftmost);
      if r.Some? {
        var (cs, c) := r.value;
        BuildChildrenHeads(ps, body, count + 1, leftmost);
        if !leftmost {
          BackwardOfReverse(cs, leftmost);
        }
        LhssSplit(ps, count, count + 1, c);
        assert ps[count..count + 1] == [p];
      }
    }
  }

  lemma {:induction false} BuildChildrenHeads(ps: seq<Production>, body: seq<Symbol>, current: nat, leftmost: bool)
    requires current <= |ps|
    ensures BuildChildren(ps, body, current, leftmost).Some? ==>
              var (cs, c) := BuildChildren(ps, body, current, leftmost).value;
              HeadsForward(cs, leftmost) == Lhss(ps[current..c])
    decreases |ps| - current, |body| + 1
  {
    var r := BuildChildren(ps, body, current, leftmost);
    if r.Some? && body != [] {
      var (cs, c') := r.value;
      if body[0].T? {
        BuildChildrenHeads(ps, body[1..], current, leftmost);
        assert cs[1..] == BuildChildren(ps, body[1..], current, leftmost).value.0;
        assert cs[0] == Node(body[0], []) && Heads(cs[0], leftmost) == [];
      } else {
        var (t, c) := BuildTree(ps, current, leftmost).value;
        BuildTreeHeads(ps, current, leftmost);
        BuildChildrenHeads(ps, body[1..], c, leftmost);
        assert cs[0] == t && cs[1..] == BuildChildren(ps, body[1..], c, leftmost).value.0;
        LhssSplit(ps, current, c, c');
      }
    } else if r.Some? {
      assert ps[current..current] == [];
    }
  }
}
