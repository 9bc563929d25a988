/** The regular-expression trees of the analyser: atoms, ε, the empty
    language, unions, concatenations and closures, with the equality, the
    printing, the copy and the simplifying evaluation the node classes
    define.  Trees are values here; the source mutates the child lists of
    its node objects in place. */
module RegexTrees {

  datatype Regex =
    | Atomic(text: string)
    | Epsilon
    | Union(childs: seq<Regex>)
    | Concat(childs: seq<Regex>)
    | Closure(child: Regex)
    | Empty

  // ---------------------------------------------------------------------
  // Equality, printing, copy
  // ---------------------------------------------------------------------

  /** `a == b` as the node classes define it: atoms compare by their text and
      node type, a union by length and membership (order is ignored), a
      concatenation position by position, a closure by its child. */
  predicate Eq(a: Regex, b: Regex)
    decreases a
  {
    match a
    case Atomic(x) => b.Atomic? && b.text == x
    case Epsilon => b.Epsilon?
    case Empty => b.Empty?
    case Union(cs) =>
      b.Union? && |cs| == |b.childs| &&
      forall d :: d in b.childs ==> exists c :: c in cs && Eq(c, d)
    case Concat(cs) =>
      b.Concat? && |cs| == |b.childs| &&
      forall i :: 0 <= i < |cs| ==> Eq(cs[i], b.childs[i])
    case Closure(c) => b.Closure? && Eq(c, b.child)
  }

  /** `c in xs`: some element of `xs` is equal to `c`. */
  predicate Member(xs: seq<Regex>, c: Regex) {
    exists x :: x in xs && Eq(x, c)
  }

  /** `__str__`. */
  function Str(r: Regex): string
    decreases r
  {
    match r
    case Atomic(x) => x
    case Epsilon => "ε"
    case Empty => "@"
    case Union(cs) => "(" + Joined(cs, " | ") + ")"
    case Concat(cs) => "(" + Joined(cs, " ") + ")"
    case Closure(c) => if c.Union? then Str(c) + "*" else "(" + Str(c) + ")*"
  }

  /** The printed children, separated by `sep`. */
  function Joined(cs: seq<Regex>, sep: string): string
    decreases cs
  {
    if cs == [] then ""
    else if |cs| == 1 then Str(cs[0])
    else Joined(cs[..|cs| - 1], sep) + sep + Str(cs[|cs| - 1])
  }

  /** Unions and concatenations print in parentheses, closures with a
      trailing star, the constants as `ε` and `@`. */
  lemma StrShape(r: Regex)
    ensures (r.Union? || r.Concat?) ==> |Str(r)| >= 2 && Str(r)[0] == '(' && Str(r)[|Str(r)| - 1] == ')'
    ensures r.Closure? ==> |Str(r)| >= 1 && Str(r)[|Str(r)| - 1] == '*'
    ensures r.Epsilon? ==> Str(r) == "ε"
    ensures r.Empty? ==> Str(r) == "@"
  {
  }

  /** The children the `UnionNode` constructor keeps: the first of each
      group of equal children, in order. */
  function Dedup(cs: seq<Regex>): seq<Regex> {
    if cs == [] then []
    else
      var d := Dedup(cs[..|cs| - 1]);
      if Member(d, cs[|cs| - 1]) then d else d + [cs[|cs| - 1]]
  }

  /** No child equals an earlier one. */
  predicate Distinct(cs: seq<Regex>) {
    forall i, j :: 0 <= i < j < |cs| ==> !Eq(cs[i], cs[j])
  }

  /** `copy`: a union is rebuilt through its constructor. */
  function Copy(r: Regex): Regex
    decreases r
  {
    match r
    case Atomic(x) => Atomic(x)
    case Epsilon => Epsilon
    case Empty => Empty
    case Union(cs) => Union(Dedup(CopyAll(cs)))
    case Concat(cs) => Concat(CopyAll(cs))
    case Closure(c) => Closure(Copy(c))
  }

  function CopyAll(cs: seq<Regex>): (r: seq<Regex>)
    ensures |r| == |cs|
    decreases cs
  {
    if cs == [] then [] else CopyAll(cs[..|cs| - 1]) + [Copy(cs[|cs| - 1])]
  }

  /** Every union in the tree has distinct children, as the constructor
      leaves them. */
  predicate Wf(r: Regex) {
    match r
    case Union(cs) => Distinct(cs) && forall c :: c in cs ==> Wf(c)
    case Concat(cs) => forall c :: c in cs ==> Wf(c)
    case Closure(c) => Wf(c)
    case _ => true
  }

  // ---------------------------------------------------------------------
  // Simplification, as specification functions
  // ---------------------------------------------------------------------

  /** The children that are not `EmptyNode`, in order. */
  function NonEmpty(cs: seq<Regex>): (r: seq<Regex>)
    ensures forall c :: c in r <==> c in cs && !c.Empty?
  {
    if cs == [] then []
    else NonEmpty(cs[..|cs| - 1]) + (if cs[|cs| - 1].Empty? then [] else [cs[|cs| - 1]])
  }

  /** The children that are not `EpsilonNode`, in order. */
  function NonEpsilon(cs: seq<Regex>): (r: seq<Regex>)
    ensures forall c :: c in r <==> c in cs && !c.Epsilon?
  {
    if cs == [] then []
    else NonEpsilon(cs[..|cs| - 1]) + (if cs[|cs| - 1].Epsilon? then [] else [cs[|cs| - 1]])
  }

  /** `UnionNode.simplify`. */
  function UnionSimplified(cs: seq<Regex>): Regex {
    if |cs| == 0 then Empty
    else if |cs| == 1 then cs[0]
    else
      var d := Dedup(NonEmpty(cs));
      if |d| == 1 then d[0] else Union(d)
  }

  /** `UnionNode.removeEpsilon`. */
  function EpsilonRemoved(cs: seq<Regex>): Regex {
    var f := NonEpsilon(cs);
    if |f| == 1 then f[0] else Union(f)
  }

  /** `ConcatNode.simplify`. */
  function ConcatSimplified(cs: seq<Regex>): Regex {
    if |cs| == 1 then cs[0]
    else if Empty in cs then Empty
    else Concat(NonEpsilon(cs))
  }

  /** `ClousureNode.simplify`. */
  function ClosureSimplified(c: Regex): Regex {
    var c' := if c.Union? then EpsilonRemoved(c.childs) else c;
    if c'.Epsilon? then c' else Closure(c')
  }

  /** The children of a concatenation with the children of every child
      concatenation put in its place (one level). */
  function Spliced(cs: seq<Regex>): seq<Regex> {
    if cs == [] then []
    else
      var last := cs[|cs| - 1];
      Spliced(cs[..|cs| - 1]) + (if last.Concat? then last.childs else [last])
  }

  /** `evaluate`: the children first, then the node's own simplification. */
  function Evaluated(r: Regex): Regex
    decreases r
  {
    match r
    case Union(cs) => UnionSimplified(EvaluatedAll(cs))
    case Concat(cs) => ConcatSimplified(Spliced(EvaluatedAll(cs)))
    case Closure(c) => ClosureSimplified(Evaluated(c))
    case _ => r
  }

  function EvaluatedAll(cs: seq<Regex>): (r: seq<Regex>)
    ensures |r| == |cs|
    decreases cs
  {
    if cs == [] then [] else EvaluatedAll(cs[..|cs| - 1]) + [Evaluated(cs[|cs| - 1])]
  }

  // ---------------------------------------------------------------------
  // The loops of the node methods
  // ---------------------------------------------------------------------

  lemma DedupSnoc(cs: seq<Regex>, c: Regex)
    ensures Dedup(cs + [c]) == if Member(Dedup(cs), c) then Dedup(cs) else Dedup(cs) + [c]
  {
    assert (cs + [c])[..|cs|] == cs;
  }

  lemma NonEmptySnoc(cs: seq<Regex>, c: Regex)
    ensures NonEmpty(cs + [c]) == NonEmpty(cs) + (if c.Empty? then [] else [c])
  {
    assert (cs + [c])[..|cs|] == cs;
  }

  lemma NonEpsilonSnoc(cs: seq<Regex>, c: Regex)
    ensures NonEpsilon(cs + [c]) == NonEpsilon(cs) + (if c.Epsilon? then [] else [c])
  {
    assert (cs + [c])[..|cs|] == cs;
  }

  lemma SplicedSnoc(cs: seq<Regex>, c: Regex)
    ensures Spliced(cs + [c]) == Spliced(cs) + (if c.Concat? then c.childs else [c])
  {
    assert (cs + [c])[..|cs|] == cs;
  }

  /** The `UnionNode` constructor: a child equal to one already kept is
      dropped. */
  method NewUnion(childs: seq<Regex>) returns (r: Regex)
    ensures r == Union(Dedup(childs))
  {
    var kept: seq<Regex> := [];
    for i := 0 to |childs|
      invariant kept == Dedup(childs[..i])
    {
      var child := childs[i];
      assert childs[..i + 1] == childs[..i] + [child];
      DedupSnoc(childs[..i], child);
      if !Member(kept, child) {
        kept := kept + [child];
      }
    }
    assert childs[..|childs|] == childs;
    r := Union(kept);
  }

  /** One turn of the loop of `UnionNode.simplify`. */
  method PruneStep(ghost seen: seq<Regex>, child: Regex, kept: seq<Regex>) returns (kept': seq<Regex>)
    requires kept == Dedup(NonEmpty(seen))
    ensures kept' == Dedup(NonEmpty(seen + [child]))
  {
    NonEmptySnoc(seen, child);
    kept' := kept;
    if child.Empty? {
      assert NonEmpty(seen + [child]) == NonEmpty(seen);
    } else {
      DedupSnoc(NonEmpty(seen), child);
      if !Member(kept, child) {
        kept' := kept + [child];
      }
    }
  }

  /** The loop of `UnionNode.simplify`. */
  method Prune(childs: seq<Regex>) returns (kept: seq<Regex>)
    ensures kept == Dedup(NonEmpty(childs))
  {
    kept := [];
    for i := 0 to |childs|
      invariant kept == Dedup(NonEmpty(childs[..i]))
    {
      assert childs[..i + 1] == childs[..i] + [childs[i]];
      kept := PruneStep(childs[..i], childs[i], kept);
    }
    assert childs[..|childs|] == childs;
  }

  /** `UnionNode.simplify`: drops `EmptyNode` children and repeated ones. */
  method SimplifyUnion(childs: seq<Regex>) returns (r: Regex)
    ensures r == UnionSimplified(childs)
  {
    if |childs| == 0 {
      return Empty;
    }
    if |childs| == 1 {
      return childs[0];
    }
    var kept := Prune(childs);
    if |kept| == 1 {
      return kept[0];
    }
    r := Union(kept);
  }

  /** `UnionNode.removeEpsilon`. */
  method RemoveEpsilon(childs: seq<Regex>) returns (r: Regex)
    ensures r == EpsilonRemoved(childs)
  {
    var kept: seq<Regex> := [];
    for i := 0 to |childs|
      invariant kept == NonEpsilon(childs[..i])
    {
      var child := childs[i];
      assert childs[..i + 1] == childs[..i] + [child];
      NonEpsilonSnoc(childs[..i], child);
      if !child.Epsilon? {
        kept := kept + [child];
      }
    }
    assert childs[..|childs|] == childs;
    if |kept| == 1 {
      return kept[0];
    }
    r := Union(kept);
  }

  /** `ConcatNode.simplify`: an `EmptyNode` child empties the whole
      concatenation; `EpsilonNode` children are dropped. */
  method SimplifyConcat(childs: seq<Regex>) returns (r: Regex)
    ensures r == ConcatSimplified(childs)
  {
    if |childs| == 1 {
      return childs[0];
    }
    var kept: seq<Regex> := [];
    for i := 0 to |childs|
      invariant kept == NonEpsilon(childs[..i]) && Empty !in childs[..i]
    {
      var child := childs[i];
      assert childs[..i + 1] == childs[..i] + [child];
      if child.Empty? {
        return Empty;
      }
      NonEpsilonSnoc(childs[..i], child);
      if !child.Epsilon? {
        kept := kept + [child];
      }
    }
    assert childs[..|childs|] == childs;
    r := Concat(kept);
  }

  /** `ClousureNode.simplify`. */
  method SimplifyClosure(child: Regex) returns (r: Regex)
    ensures r == ClosureSimplified(child)
  {
    var c := child;
    if c.Union? {
      c := RemoveEpsilon(c.childs);
    }
    if c.Epsilon? {
      return c;
    }
    r := Closure(c);
  }

  /** `evaluate`. */
  method Evaluate(r: Regex) returns (e: Regex)
    ensures e == Evaluated(r)
    decreases r
  {
    match r
    case Union(cs) =>
      var es := EvaluateChildren(cs);
      e := SimplifyUnion(es);
    case Concat(cs) =>
      var es := EvaluateChildren(cs);
      var flat: seq<Regex> := [];
      for i := 0 to |es|
        invariant flat == Spliced(es[..i])
      {
        assert es[..i + 1] == es[..i] + [es[i]];
        SplicedSnoc(es[..i], es[i]);
        if es[i].Concat? {
          flat := flat + es[i].childs;
        } else {
          flat := flat + [es[i]];
        }
      }
      assert es[..|es|] == es;
      e := SimplifyConcat(flat);
    case Closure(c) =>
      var ec := Evaluate(c);
      e := SimplifyClosure(ec);
    case _ =>
      e := r;
  }

  /** `for i in range(len(self.childs)): self.childs[i] = self.childs[i].evaluate()`. */
  method EvaluateChildren(cs: seq<Regex>) returns (es: seq<Regex>)
    ensures es == EvaluatedAll(cs)
    decreases cs
  {
    es := [];
    for i := 0 to |cs|
      invariant es == EvaluatedAll(cs[..i])
    {
      var e := Evaluate(cs[i]);
      assert cs[..i + 1] == cs[..i] + [cs[i]];
      assert cs[..i + 1][..i] == cs[..i];
      es := es + [e];
    }
    assert cs[..|cs|] == cs;
  }

  // ---------------------------------------------------------------------
  // Equality
  // ---------------------------------------------------------------------

  /** Every tree equals itself, so the identity test Python's `in` makes
      first never changes its answer. */
  lemma {:induction false} EqRefl(r: Regex)
    ensures Eq(r, r)
  {
    match r
    case Union(cs) =>
      forall d | d in cs ensures exists c :: c in cs && Eq(c, d) {
        EqRefl(d);
      }
    case Concat(cs) =>
      forall i | 0 <= i < |cs| ensures Eq(cs[i], cs[i]) {
        EqRefl(cs[i]);
      }
    case Closure(c) =>
      EqRefl(c);
    case _ =>
  }

  /** Union equality ignores the order of the children. */
  lemma UnionOrderIgnored(cs: seq<Regex>, ds: seq<Regex>)
    requires multiset(cs) == multiset(ds)
    ensures Eq(Union(cs), Union(ds))
  {
    assert |cs| == |multiset(cs)| == |multiset(ds)| == |ds|;
    forall d | d in ds ensures exists c :: c in cs && Eq(c, d) {
      assert d in multiset(ds);
      EqRefl(d);
    }
  }

  /** A tree without unions. */
  predicate UnionFree(r: Regex) {
    match r
    case Union(_) => false
    case Concat(cs) => forall c :: c in cs ==> UnionFree(c)
    case Closure(c) => UnionFree(c)
    case _ => true
  }

  /** Without unions, equality is structural identity. */
  lemma {:induction false} EqUnionFree(a: Regex, b: Regex)
    requires UnionFree(a)
    ensures Eq(a, b) <==> a == b
  {
    EqRefl(a);
    match a
    case Concat(cs) =>
      if Eq(a, b) {
        forall i | 0 <= i < |cs| ensures cs[i] == b.childs[i] {
          EqUnionFree(cs[i], b.childs[i]);
        }
        assert cs == b.childs;
      }
    case Closure(c) =>
      if Eq(a, b) {
        EqUnionFree(c, b.child);
      }
    case _ =>
  }

  /** Python's `in` on a union's children is not order-blind in the other
      direction: `(a | b) == (a | a)` holds but `(a | a) == (a | b)` does
      not. */
  lemma UnionEqNotSymmetric()
    ensures Eq(Union([Atomic("a"), Atomic("b")]), Union([Atomic("a"), Atomic("a")]))
    ensures !Eq(Union([Atomic("a"), Atomic("a")]), Union([Atomic("a"), Atomic("b")]))
  {
    var a, b := Atomic("a"), Atomic("b");
    assert "a" != "b" by {
      assert "a"[0] != "b"[0];
    }
    forall d | d in [a, a] ensures exists c :: c in [a, b] && Eq(c, d) {
      assert a in [a, b] && Eq(a, d);
    }
    assert b in [a, b];
    forall c | c in [a, a] ensures !Eq(c, b) {
      assert c == a;
    }
  }

  // ---------------------------------------------------------------------
  // The constructor's deduplication and `copy`
  // ---------------------------------------------------------------------

  lemma DistinctSnoc(cs: seq<Regex>, c: Regex)
    requires Distinct(cs) && !Member(cs, c)
    ensures Distinct(cs + [c])
  {
    forall i, j | 0 <= i < j < |cs| + 1 ensures !Eq((cs + [c])[i], (cs + [c])[j]) {
      if j == |cs| {
        assert (cs + [c])[i] in cs;
      }
    }
  }

  /** The constructor keeps children of the list, no two equal, and every
      dropped child equals a kept one. */
  lemma {:induction false} DedupFacts(cs: seq<Regex>)
    ensures forall c :: c in Dedup(cs) ==> c in cs
    ensures Distinct(Dedup(cs))
    ensures forall c :: c in cs ==> Member(Dedup(cs), c)
  {
    if cs != [] {
      var init, last := cs[..|cs| - 1], cs[|cs| - 1];
      DedupFacts(init);
      assert cs == init + [last];
      var d := Dedup(init);
      if !Member(d, last) {
        DistinctSnoc(d, last);
        EqRefl(last);
        assert Member(d + [last], last) by { assert last in d + [last]; }
      }
      forall c | c in cs ensures Member(Dedup(cs), c) {
        if c != last {
          assert c in init;
          var x :| x in d && Eq(x, c);
          assert x in Dedup(cs);
        }
      }
    }
  }

  /** A list without equal children is kept as it is. */
  lemma {:induction false} DedupDistinct(cs: seq<Regex>)
    requires Distinct(cs)
    ensures Dedup(cs) == cs
  {
    if cs != [] {
      var init, last := cs[..|cs| - 1], cs[|cs| - 1];
      assert Distinct(init);
      DedupDistinct(init);
    }
  }

  lemma {:induction false} CopyAllWf(cs: seq<Regex>)
    ensures forall x :: x in CopyAll(cs) ==> exists c :: c in cs && x == Copy(c)
  {
    if cs != [] {
      CopyAllWf(cs[..|cs| - 1]);
      forall x | x in CopyAll(cs) ensures exists c :: c in cs && x == Copy(c) {
        if x != Copy(cs[|cs| - 1]) {
          assert x in CopyAll(cs[..|cs| - 1]);
          var c :| c in cs[..|cs| - 1] && x == Copy(c);
          assert c in cs;
        }
      }
    }
  }

  /** A copy has distinct union children. */
  lemma {:induction false} CopyWf(r: Regex)
    ensures Wf(Copy(r))
    decreases r
  {
    match r
    case Union(cs) =>
      DedupFacts(CopyAll(cs));
      CopyAllWf(cs);
      forall x | x in Dedup(CopyAll(cs)) ensures Wf(x) {
        var c :| c in cs && x == Copy(c);
        CopyWf(c);
      }
    case Concat(cs) =>
      CopyAllWf(cs);
      forall x | x in CopyAll(cs) ensures Wf(x) {
        var c :| c in cs && x == Copy(c);
        CopyWf(c);
      }
    case Closure(c) =>
      CopyWf(c);
    case _ =>
  }

  /** `copy` returns the same tree when its unions have distinct
      children. */
  lemma {:induction false} CopyIdentity(r: Regex)
    requires Wf(r)
    ensures Copy(r) == r
    decreases r
  {
    match r
    case Union(cs) =>
      CopyAllIdentity(cs);
      DedupDistinct(cs);
    case Concat(cs) =>
      CopyAllIdentity(cs);
    case Closure(c) =>
      CopyIdentity(c);
    case _ =>
  }

  lemma {:induction false} CopyAllIdentity(cs: seq<Regex>)
    requires forall c :: c in cs ==> Wf(c)
    ensures CopyAll(cs) == cs
    decreases cs
  {
    if cs != [] {
      CopyAllIdentity(cs[..|cs| - 1]);
      CopyIdentity(cs[|cs| - 1]);
    }
  }

  /** ... and otherwise drops the repeated children of a union. */
  lemma CopyDropsRepeats()
    ensures Copy(Union([Atomic("a"), Atomic("a")])) == Union([Atomic("a")])
  {
    var a := Atomic("a");
    assert CopyAll([a, a]) == [a, a] by {
      assert [a, a][..1] == [a];
    }
    assert Dedup([a]) == [a];
    assert Member([a], a) by {
      assert a in [a] && Eq(a, a);
    }
    assert [a, a][..1] == [a];
  }

  // ---------------------------------------------------------------------
  // What `evaluate` leaves
  // ---------------------------------------------------------------------

  /** The shape `evaluate` returns: unions of two or more (or no) distinct
      children none of which is `EmptyNode`; concatenations whose children
      are neither concatenations, `EmptyNode` nor `EpsilonNode`; closures of
      anything but `EpsilonNode`. */
  predicate Normal(r: Regex) {
    match r
    case Union(cs) => |cs| != 1 && Distinct(cs) && forall c :: c in cs ==> Normal(c) && !c.Empty?
    case Concat(cs) => forall c :: c in cs ==> Normal(c) && !c.Concat? && !c.Empty? && !c.Epsilon?
    case Closure(c) => Normal(c) && !c.Epsilon?
    case _ => true
  }

  lemma UnionSimplifiedNormal(cs: seq<Regex>)
    requires forall c :: c in cs ==> Normal(c)
    ensures Normal(UnionSimplified(cs))
  {
    if |cs| >= 2 {
      var d := Dedup(NonEmpty(cs));
      DedupFacts(NonEmpty(cs));
      if |d| == 1 {
        assert d[0] in d;
      }
    }
  }

  lemma {:induction false} DistinctNonEpsilon(cs: seq<Regex>)
    requires Distinct(cs)
    ensures Distinct(NonEpsilon(cs))
  {
    if cs != [] {
      var init, last := cs[..|cs| - 1], cs[|cs| - 1];
      assert Distinct(init);
      DistinctNonEpsilon(init);
      if !last.Epsilon? {
        forall x | x in NonEpsilon(init) ensures !Eq(x, last) {
          var i :| 0 <= i < |init| && init[i] == x;
          assert cs[i] == x;
        }
        DistinctSnoc(NonEpsilon(init), last);
      }
    }
  }

  lemma EpsilonRemovedNormal(cs: seq<Regex>)
    requires Normal(Union(cs))
    ensures Normal(EpsilonRemoved(cs)) && !EpsilonRemoved(cs).Epsilon?
  {
    var f := NonEpsilon(cs);
    DistinctNonEpsilon(cs);
    if |f| == 1 {
      assert f[0] in f;
    }
  }

  lemma ClosureSimplifiedNormal(c: Regex)
    requires Normal(c)
    ensures Normal(ClosureSimplified(c))
  {
    if c.Union? {
      EpsilonRemovedNormal(c.childs);
    }
  }

  lemma {:induction false} SplicedNormal(cs: seq<Regex>)
    requires forall c :: c in cs ==> Normal(c)
    ensures forall x :: x in Spliced(cs) ==> Normal(x) && !x.Concat?
  {
    if cs != [] {
      var init, last := cs[..|cs| - 1], cs[|cs| - 1];
      assert forall c :: c in init ==> c in cs;
      SplicedNormal(init);
      assert last in cs;
    }
  }

  lemma ConcatSimplifiedNormal(cs: seq<Regex>)
    requires forall c :: c in cs ==> Normal(c) && !c.Concat?
    ensures Normal(ConcatSimplified(cs))
  {
    if |cs| == 1 {
      assert cs[0] in cs;
    }
  }

  /** `evaluate` returns a tree of the normal shape. */
  lemma {:induction false} EvaluatedNormal(r: Regex)
    ensures Normal(Evaluated(r))
    decreases r
  {
    match r
    case Union(cs) =>
      EvaluatedAllNormal(cs);
      UnionSimplifiedNormal(EvaluatedAll(cs));
    case Concat(cs) =>
      EvaluatedAllNormal(cs);
      SplicedNormal(EvaluatedAll(cs));
      ConcatSimplifiedNormal(Spliced(EvaluatedAll(cs)));
    case Closure(c) =>
      EvaluatedNormal(c);
      ClosureSimplifiedNormal(Evaluated(c));
    case _ =>
  }

  lemma {:induction false} EvaluatedAllNormal(cs: seq<Regex>)
    ensures forall x :: x in EvaluatedAll(cs) ==> Normal(x)
    decreases cs
  {
    if cs != [] {
      EvaluatedAllNormal(cs[..|cs| - 1]);
      EvaluatedNormal(cs[|cs| - 1]);
    }
  }

  /** Normal trees have distinct union children, so `copy` returns an
      evaluated tree unchanged. */
  lemma {:induction false} NormalWf(r: Regex)
    requires Normal(r)
    ensures Wf(r)
  {
    match r
    case Union(cs) =>
      forall c | c in cs ensures Wf(c) {
        NormalWf(c);
      }
    case Concat(cs) =>
      forall c | c in cs ensures Wf(c) {
        NormalWf(c);
      }
    case Closure(c) =>
      NormalWf(c);
    case _ =>
  }

  /** `evaluate` is not idempotent: a concatenation it reduces to one child
      is only unwrapped by a second `evaluate`. */
  lemma EvaluateNotIdempotent()
    ensures Evaluated(Concat([Atomic("a"), Epsilon])) == Concat([Atomic("a")])
    ensures Evaluated(Concat([Atomic("a")])) == Atomic("a")
  {
    var a := Atomic("a");
    assert EvaluatedAll([a, Epsilon]) == [a, Epsilon] by {
      assert [a, Epsilon][..1] == [a];
    }
    assert [a, Epsilon][..1] == [a] && [a][..0] == [];
    assert Spliced([a]) == [a];
    assert Spliced([a, Epsilon]) == [a, Epsilon];
    assert NonEpsilon([a]) == [a];
    assert NonEpsilon([a, Epsilon]) == [a];
  }
}
