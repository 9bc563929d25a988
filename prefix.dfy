/** Left factoring: the productions of a non-terminal that share their first
    symbol `X` are replaced by `A -> X A'`, and `A'` gets their remainders.
    The non-terminals are taken from a stack that also receives every new
    `A'`, so the remainders are factored in turn. */
module CommonPrefix {
  import opened Grammars

  /** A `NonTerminal` object: its name and its own production list.  Two
      objects may carry the same name. */
  datatype Nt = Nt(name: string, prods: seq<Production>)

  /** `q` has a non-empty body starting like the non-empty body of `p`. */
  predicate SameHead(p: Production, q: Production) {
    |p.rhs| > 0 && |q.rhs| > 0 && q.rhs[0] == p.rhs[0]
  }

  /** The productions of `qs` that start like `p`, in order. */
  function Matching(p: Production, qs: seq<Production>): seq<Production> {
    if qs == [] then []
    else Matching(p, qs[..|qs| - 1]) + (if SameHead(p, qs[|qs| - 1]) then [qs[|qs| - 1]] else [])
  }

  lemma {:induction false} MatchingMembers(p: Production, qs: seq<Production>)
    ensures forall q :: q in Matching(p, qs) <==> q in qs && SameHead(p, q)
  {
    if qs != [] {
      var init := qs[..|qs| - 1];
      MatchingMembers(p, init);
      assert qs == init + [qs[|qs| - 1]];
    }
  }

  /** The elements of `xs` before the first occurrence of `p`. */
  function UpTo(xs: seq<Production>, p: Production): (r: seq<Production>)
    ensures r <= xs && p !in r
    ensures r != xs ==> xs[|r|] == p
  {
    if xs == [] then [] else if xs[0] == p then [] else [xs[0]] + UpTo(xs[1..], p)
  }

  lemma {:induction false} UpToSkip(a: seq<Production>, p: Production, b: seq<Production>)
    requires p !in a
    ensures UpTo(a + [p] + b, p) == a
  {
    if a != [] {
      assert (a + [p] + b)[1..] == a[1..] + [p] + b;
      UpToSkip(a[1..], p, b);
    }
  }

  /** For a list without repetitions, scanning the reversed list down to
      `ps[k]` meets exactly the productions after `ps[k]`, last first. */
  lemma ScannedAfter(ps: seq<Production>, k: nat)
    requires NoDup(ps) && k < |ps|
    ensures UpTo(Reverse(ps), ps[k]) == Reverse(ps[k + 1..])
  {
    var a, x, b := ps[..k], ps[k], ps[k + 1..];
    assert ps == a + [x] + b;
    ReverseSplit(a, x, b);
    NotInReversedTail(ps, k);
    UpToSkip(Reverse(b), x, Reverse(a));
  }

  lemma ReverseSplit<T>(a: seq<T>, x: T, b: seq<T>)
    ensures Reverse(a + [x] + b) == Reverse(b) + [x] + Reverse(a)
  {
    ReverseAppend(a + [x], b);
    ReverseAppend(a, [x]);
  }

  lemma NotInReversedTail(ps: seq<Production>, k: nat)
    requires NoDup(ps) && k < |ps|
    ensures ps[k] !in Reverse(ps[k + 1..])
  {
    var rb := Reverse(ps[k + 1..]);
    forall i | 0 <= i < |rb| ensures rb[i] != ps[k] {
      assert rb[i] == ps[|ps| - 1 - i];
    }
  }

  /** Appending one scanned production. */
  lemma MatchingSnoc(p: Production, seen: seq<Production>, q: Production)
    ensures Matching(p, seen + [q]) == Matching(p, seen) + (if SameHead(p, q) then [q] else [])
  {
    assert (seen + [q])[..|seen|] == seen;
  }

  /** What the scan has gathered after meeting `seen`. */
  predicate ScanInv(p: Production, seen: seq<Production>, comunes: seq<Production>, olds: seq<Production>, changed: bool) {
    && comunes == [p] + Matching(p, seen)
    && (changed <==> |comunes| > 1)
    && Elems(olds) == Elems(comunes[1..]) + (if changed then {p} else {})
  }

  /** One production `p2 != p` of the scan. */
  method ScanStep(p: Production, ghost seen: seq<Production>, p2: Production, comunes: seq<Production>, olds: seq<Production>, changed: bool)
    returns (comunes': seq<Production>, olds': seq<Production>, changed': bool)
    requires |p.rhs| > 0 && ScanInv(p, seen, comunes, olds, changed)
    ensures ScanInv(p, seen + [p2], comunes', olds', changed')
  {
    MatchingSnoc(p, seen, p2);
    comunes', olds', changed' := comunes, olds, changed;
    if |p2.rhs| > 0 && p2.rhs[0] == p.rhs[0] {
      olds' := olds + [p2, p];
      comunes' := comunes + [p2];
      ScanElems(p, p2, comunes, olds, changed);
      changed' := true;
    }
  }

  /** Recording `p2` together with `p` keeps `olds` in step with `comunes`. */
  lemma ScanElems(p: Production, p2: Production, comunes: seq<Production>, olds: seq<Production>, changed: bool)
    requires |comunes| >= 1 && Elems(olds) == Elems(comunes[1..]) + (if changed then {p} else {})
    ensures Elems(olds + [p2, p]) == Elems((comunes + [p2])[1..]) + {p}
  {
    assert (comunes + [p2])[1..] == comunes[1..] + [p2];
    ElemsConcat(olds, [p2, p]);
    ElemsConcat(comunes[1..], [p2]);
    assert Elems([p2, p]) == {p2, p} && Elems([p2]) == {p2};
  }

  /** The scan over the reversed copy of `nt.productions`, stopped at `p`:
      `comunes` is `p` followed by the productions met that start like `p`,
      and every such production is recorded in `olds` together with `p`. */
  method ScanGroup(ps: seq<Production>, p: Production) returns (comunes: seq<Production>, olds: seq<Production>, changed: bool)
    requires |p.rhs| > 0
    ensures comunes == [p] + Matching(p, UpTo(Reverse(ps), p))
    ensures changed <==> |comunes| > 1
    ensures Elems(olds) == Elems(comunes[1..]) + (if changed then {p} else {})
  {
    var copy := Reverse(ps);
    comunes, olds, changed := [p], [], false;
    ghost var seen: seq<Production> := [];
    var i := 0;
    while i < |copy|
      invariant i <= |copy| && seen == copy[..i] && p !in seen
      invariant ScanInv(p, seen, comunes, olds, changed)
    {
      var p2 := copy[i];
      if p2 == p {
        break;
      }
      comunes, olds, changed := ScanStep(p, seen, p2, comunes, olds, changed);
      PrefixSnoc(copy, i);
      seen := seen + [p2];
      i := i + 1;
    }
    assert seen == UpTo(copy, p) by {
      if i < |copy| {
        UpToSkip(seen, p, copy[i + 1..]);
        assert copy == copy[..i] + [copy[i]] + copy[i + 1..];
      } else {
        assert seen == copy;
      }
    }
  }

  // ---------------------------------------------------------------------
  // One non-terminal
  // ---------------------------------------------------------------------

  /** `ps[k]` shares its first symbol with another production of `ps`. */
  predicate Shared(ps: seq<Production>, k: nat)
    requires k < |ps|
  {
    exists j :: 0 <= j < |ps| && j != k && SameHead(ps[k], ps[j])
  }

  /** Some production among the first `k` starts like `q`. */
  predicate Seen(ps: seq<Production>, k: nat, q: Production)
    requires k <= |ps|
  {
    exists i :: 0 <= i < k && SameHead(q, ps[i])
  }

  /** `A -> X A'`. */
  function Factor(A: string, X: Symbol): Production {
    Production(A, [X, N(Prime(A))])
  }

  /** `A' -> β` for `q = A -> X β`. */
  function Rest(A: string, q: Production): Production {
    Production(Prime(A), if q.rhs == [] then [] else q.rhs[1..])
  }

  /** The productions of `A'` made from a group. */
  function Tails(A: string, cs: seq<Production>): (r: seq<Production>)
    ensures |r| == |cs| && forall i :: 0 <= i < |cs| ==> r[i] == Rest(A, cs[i])
  {
    seq(|cs|, i requires 0 <= i < |cs| => Rest(A, cs[i]))
  }

  /** The productions of the first `k` that share their first symbol with
      no other production (ε-productions included): they are kept as they
      are. */
  function Alone(ps: seq<Production>, k: nat): set<Production>
    requires k <= |ps|
  {
    set j | 0 <= j < k && !Shared(ps, j) :: ps[j]
  }

  /** `A -> X A'` for each shared first symbol `X` met in the first `k`. */
  function Factors(A: string, ps: seq<Production>, k: nat): set<Production>
    requires k <= |ps|
  {
    set j | 0 <= j < k && |ps[j].rhs| > 0 && Shared(ps, j) :: Factor(A, ps[j].rhs[0])
  }

  /** `A' -> β` for every `A -> X β` whose shared first symbol `X` was met
      in the first `k`. */
  function Rests(A: string, ps: seq<Production>, k: nat): set<Production>
    requires k <= |ps|
  {
    set j | 0 <= j < |ps| && Shared(ps, j) && Seen(ps, k, ps[j]) :: Rest(A, ps[j])
  }

  /** What the loop over `nt.productions` has added to `new_prods` after
      `k` productions. */
  function Emitted(A: string, ps: seq<Production>, k: nat): set<Production>
    requires k <= |ps|
  {
    Alone(ps, k) + Factors(A, ps, k) + Rests(A, ps, k)
  }

  /** The group built for `ps[k]` when no production repeats: `ps[k]`, then
      the later productions that start like it, last first. */
  function Group(ps: seq<Production>, k: nat): seq<Production>
    requires k < |ps|
  {
    [ps[k]] + Matching(ps[k], Reverse(ps[k + 1..]))
  }

  /** `ps[k]` is the first production of its first symbol. */
  predicate Leader(ps: seq<Production>, k: nat)
    requires k < |ps|
  {
    |ps[k].rhs| > 0 && !Seen(ps, k, ps[k])
  }

  /** The `A'` objects created after `k` productions: one per shared first
      symbol, at its first production. */
  function Primes(A: string, ps: seq<Production>, k: nat): seq<Nt>
    requires k <= |ps|
  {
    if k == 0 then []
    else Primes(A, ps, k - 1) + (if Leader(ps, k - 1) && Shared(ps, k - 1) then [Nt(Prime(A), Tails(A, Group(ps, k - 1)))] else [])
  }

  /** The situation the factoring properties are stated for: the list has
      no repetition and none of its productions was recorded in `old_prods`
      by an earlier non-terminal. */
  predicate Distinct(ps: seq<Production>, oldProds0: seq<Production>) {
    NoDup(ps) && forall q :: q in ps ==> q !in oldProds0
  }

  /** What the loop keeps whatever the list: it only appends, what it
      appends to `new_prods` is a production of the list or is headed by
      `A` or `A'`, what it records in `old_prods` is a production of the
      list, and each `A'` object has at least two productions, all headed by
      `A'`. */
  predicate FactorFrame(A: string, ps: seq<Production>, newProds0: seq<Production>, oldProds0: seq<Production>,
                        newProds: seq<Production>, oldProds: seq<Production>, primes: seq<Nt>)
  {
    && newProds0 <= newProds && oldProds0 <= oldProds
    && (forall q :: q in newProds ==> q in newProds0 || q in ps || q.lhs == A || q.lhs == Prime(A))
    && (forall q :: q in oldProds ==> q in oldProds0 || q in ps)
    && (forall r :: r in primes ==> r.name == Prime(A) && HeadsAre(r.prods, Prime(A)) && |r.prods| >= 2)
    && (forall r, q :: r in primes && q in r.prods ==> q in newProds)
  }

  /** What the loop has done after `k` productions of a list without
      repetitions. */
  predicate FactorSpec(A: string, ps: seq<Production>, k: nat, newProds0: seq<Production>,
                       newProds: seq<Production>, oldProds: seq<Production>, primes: seq<Nt>)
    requires k <= |ps|
  {
    && Elems(newProds) == Elems(newProds0) + Emitted(A, ps, k)
    && (forall j :: 0 <= j < |ps| ==> (ps[j] in oldProds <==> Shared(ps, j) && Seen(ps, k, ps[j])))
    && primes == Primes(A, ps, k)
  }

  /** The loop invariant after `k` productions. */
  predicate FactorInv(A: string, ps: seq<Production>, k: nat, newProds0: seq<Production>, oldProds0: seq<Production>,
                      newProds: seq<Production>, oldProds: seq<Production>, primes: seq<Nt>)
    requires k <= |ps|
  {
    && FactorFrame(A, ps, newProds0, oldProds0, newProds, oldProds, primes)
    && (Distinct(ps, oldProds0) ==> FactorSpec(A, ps, k, newProds0, newProds, oldProds, primes))
  }

  /** A production that is ε, or whose first symbol was already met, adds
      nothing to what has been met. */
  lemma SeenSame(ps: seq<Production>, k: nat)
    requires k < |ps| && (|ps[k].rhs| == 0 || Seen(ps, k, ps[k]))
    ensures forall q :: Seen(ps, k + 1, q) <==> Seen(ps, k, q)
  {
    forall q | Seen(ps, k + 1, q) ensures Seen(ps, k, q) {
      var i :| 0 <= i < k + 1 && SameHead(q, ps[i]);
      if i == k {
        var i' :| 0 <= i' < k && SameHead(ps[k], ps[i']);
        assert SameHead(q, ps[i']);
      }
    }
  }

  lemma AloneStep(ps: seq<Production>, k: nat)
    requires k < |ps|
    ensures Alone(ps, k + 1) == Alone(ps, k) + (if Shared(ps, k) then {} else {ps[k]})
  {
    var added: set<Production> := if Shared(ps, k) then {} else {ps[k]};
    forall x | x in Alone(ps, k + 1) ensures x in Alone(ps, k) + added {
      var j :| 0 <= j < k + 1 && !Shared(ps, j) && x == ps[j];
    }
  }

  lemma FactorsStep(A: string, ps: seq<Production>, k: nat)
    requires k < |ps|
    ensures Factors(A, ps, k + 1) == Factors(A, ps, k) + (if |ps[k].rhs| > 0 && Shared(ps, k) then {Factor(A, ps[k].rhs[0])} else {})
  {
    var added: set<Production> := if |ps[k].rhs| > 0 && Shared(ps, k) then {Factor(A, ps[k].rhs[0])} else {};
    forall x | x in Factors(A, ps, k + 1) ensures x in Factors(A, ps, k) + added {
      var j :| 0 <= j < k + 1 && |ps[j].rhs| > 0 && Shared(ps, j) && x == Factor(A, ps[j].rhs[0]);
    }
  }

  /** When the productions met are the same, so are the remainders. */
  lemma RestsSame(A: string, ps: seq<Production>, k: nat)
    requires k < |ps|
    requires forall q :: Seen(ps, k + 1, q) <==> Seen(ps, k, q)
    ensures Rests(A, ps, k + 1) == Rests(A, ps, k)
  {
    forall x | x in Rests(A, ps, k + 1) ensures x in Rests(A, ps, k) {
      var j :| 0 <= j < |ps| && Shared(ps, j) && Seen(ps, k + 1, ps[j]) && x == Rest(A, ps[j]);
    }
    forall x | x in Rests(A, ps, k) ensures x in Rests(A, ps, k + 1) {
      var j :| 0 <= j < |ps| && Shared(ps, j) && Seen(ps, k, ps[j]) && x == Rest(A, ps[j]);
    }
  }

  lemma FactorMet(A: string, ps: seq<Production>, k: nat)
    requires k < |ps| && Shared(ps, k) && Seen(ps, k, ps[k])
    ensures Factor(A, ps[k].rhs[0]) in Factors(A, ps, k)
  {
    var i :| 0 <= i < k && SameHead(ps[k], ps[i]);
    assert Shared(ps, i) by {
      assert SameHead(ps[i], ps[k]);
    }
    assert Factor(A, ps[k].rhs[0]) == Factor(A, ps[i].rhs[0]);
  }

  /** A production already recorded in `old_prods` adds nothing. */
  lemma EmittedSkip(A: string, ps: seq<Production>, k: nat)
    requires k < |ps| && Shared(ps, k) && Seen(ps, k, ps[k])
    ensures Emitted(A, ps, k + 1) == Emitted(A, ps, k)
  {
    SeenSame(ps, k);
    RestsSame(A, ps, k);
    SkipParts(A, ps, k);
  }

  lemma SkipParts(A: string, ps: seq<Production>, k: nat)
    requires k < |ps| && Shared(ps, k) && Seen(ps, k, ps[k])
    ensures Alone(ps, k + 1) == Alone(ps, k)
    ensures Factors(A, ps, k + 1) == Factors(A, ps, k)
  {
    AloneStep(ps, k);
    FactorsStep(A, ps, k);
    FactorMet(A, ps, k);
  }

  /** An ε-production is added as it is. */
  lemma EmittedEps(A: string, ps: seq<Production>, k: nat)
    requires k < |ps| && ps[k].rhs == []
    ensures Emitted(A, ps, k + 1) == Emitted(A, ps, k) + {ps[k]}
  {
    SeenSame(ps, k);
    RestsSame(A, ps, k);
    AloneStep(ps, k);
    FactorsStep(A, ps, k);
  }

  /** The remainders of the class of a first production. */
  function ClassRests(A: string, ps: seq<Production>, k: nat): set<Production>
    requires k < |ps|
  {
    set j | 0 <= j < |ps| && SameHead(ps[k], ps[j]) :: Rest(A, ps[j])
  }

  lemma RestsLead(A: string, ps: seq<Production>, k: nat)
    requires k < |ps| && Leader(ps, k)
    ensures Rests(A, ps, k + 1) == Rests(A, ps, k) + (if Shared(ps, k) then ClassRests(A, ps, k) else {})
  {
    var p := ps[k];
    forall q ensures Seen(ps, k + 1, q) <==> Seen(ps, k, q) || SameHead(q, p) {
      if Seen(ps, k + 1, q) && !SameHead(q, p) {
        var i :| 0 <= i < k + 1 && SameHead(q, ps[i]);
      }
    }
    var added := if Shared(ps, k) then ClassRests(A, ps, k) else {};
    forall x | x in Rests(A, ps, k + 1) ensures x in Rests(A, ps, k) + added {
      var j :| 0 <= j < |ps| && Shared(ps, j) && Seen(ps, k + 1, ps[j]) && x == Rest(A, ps[j]);
      if !Seen(ps, k, ps[j]) {
        assert SameHead(ps[j], p) && SameHead(p, ps[j]);
      }
    }
    if Shared(ps, k) {
      forall x | x in ClassRests(A, ps, k) ensures x in Rests(A, ps, k + 1) {
        var j :| 0 <= j < |ps| && SameHead(p, ps[j]) && x == Rest(A, ps[j]);
        assert Shared(ps, j) by {
          if j != k {
            assert SameHead(ps[j], ps[k]);
          }
        }
        assert SameHead(ps[j], ps[k]);
      }
    }
  }

  /** The first production of its first symbol brings its whole class. */
  lemma EmittedLead(A: string, ps: seq<Production>, k: nat)
    requires k < |ps| && Leader(ps, k)
    ensures Shared(ps, k) ==> Emitted(A, ps, k + 1) == Emitted(A, ps, k) + {Factor(A, ps[k].rhs[0])} + ClassRests(A, ps, k)
    ensures !Shared(ps, k) ==> Emitted(A, ps, k + 1) == Emitted(A, ps, k) + {ps[k]}
  {
    RestsLead(A, ps, k);
    AloneStep(ps, k);
    FactorsStep(A, ps, k);
  }

  /** The members of the group of a first production. */
  lemma GroupMembers(ps: seq<Production>, k: nat)
    requires NoDup(ps) && k < |ps| && Leader(ps, k)
    ensures forall q :: q in Group(ps, k) <==> exists j :: 0 <= j < |ps| && q == ps[j] && SameHead(ps[k], ps[j])
  {
    var tail := ps[k + 1..];
    MatchingMembers(ps[k], Reverse(tail));
    ReverseMembers(tail);
    forall q ensures q in Group(ps, k) <==> exists j :: 0 <= j < |ps| && q == ps[j] && SameHead(ps[k], ps[j]) {
      GroupMember(ps, k, q);
    }
  }

  lemma ReverseMembers<T>(s: seq<T>)
    ensures forall q :: q in Reverse(s) <==> q in s
  {
    forall q ensures q in Reverse(s) <==> q in s {
      if q in Reverse(s) {
        var i :| 0 <= i < |s| && Reverse(s)[i] == q;
        assert q == s[|s| - 1 - i];
      }
      if q in s {
        var i :| 0 <= i < |s| && s[i] == q;
        assert Reverse(s)[|s| - 1 - i] == q;
      }
    }
  }

  lemma GroupMember(ps: seq<Production>, k: nat, q: Production)
    requires k < |ps| && Leader(ps, k)
    requires q in Group(ps, k) <==> q == ps[k] || (q in ps[k + 1..] && SameHead(ps[k], q))
    ensures q in Group(ps, k) <==> exists j :: 0 <= j < |ps| && q == ps[j] && SameHead(ps[k], ps[j])
  {
    if q in Group(ps, k) {
      if q == ps[k] {
        assert SameHead(ps[k], ps[k]);
      } else {
        var i :| 0 <= i < |ps| - k - 1 && ps[k + 1..][i] == q;
        assert q == ps[k + 1 + i];
      }
    }
    if exists j :: 0 <= j < |ps| && q == ps[j] && SameHead(ps[k], ps[j]) {
      var j :| 0 <= j < |ps| && q == ps[j] && SameHead(ps[k], ps[j]);
      if j < k {
        assert false;
      } else if j > k {
        assert q == ps[k + 1..][j - k - 1];
      }
    }
  }


  lemma TailsElems(A: string, cs: seq<Production>)
    ensures Elems(Tails(A, cs)) == set q | q in cs :: Rest(A, q)
  {
    forall x | x in Elems(Tails(A, cs)) ensures x in set q | q in cs :: Rest(A, q) {
      var i :| 0 <= i < |cs| && Tails(A, cs)[i] == x;
      assert cs[i] in cs;
    }
    forall x | x in (set q | q in cs :: Rest(A, q)) ensures x in Elems(Tails(A, cs)) {
      var q :| q in cs && x == Rest(A, q);
      var i :| 0 <= i < |cs| && cs[i] == q;
      assert Tails(A, cs)[i] == x;
    }
  }

  /** A non-empty production not yet recorded is the first of its first
      symbol, and for a list without repetitions the scan builds its group. */
  lemma LeadIsLeader(ps: seq<Production>, k: nat)
    requires NoDup(ps) && k < |ps| && |ps[k].rhs| > 0 && !(Shared(ps, k) && Seen(ps, k, ps[k]))
    ensures Leader(ps, k)
    ensures [ps[k]] + Matching(ps[k], UpTo(Reverse(ps), ps[k])) == Group(ps, k)
  {
    ScannedAfter(ps, k);
  }

  /** The group of a first production is larger than itself exactly when
      the production shares its first symbol. */
  lemma GroupShared(ps: seq<Production>, k: nat)
    requires NoDup(ps) && k < |ps| && Leader(ps, k)
    ensures |Group(ps, k)| > 1 <==> Shared(ps, k)
  {
    var p := ps[k];
    GroupMembers(ps, k);
    var g := Group(ps, k);
    if |g| > 1 {
      var q := g[1];
      assert q in g;
      MatchingMembers(p, Reverse(ps[k + 1..]));
      assert q in Matching(p, Reverse(ps[k + 1..]));
      var j :| 0 <= j < |ps| && q == ps[j] && SameHead(p, ps[j]);
      assert q in Reverse(ps[k + 1..]);
      assert q != p by { NotInReversedTail(ps, k); }
      assert j != k;
    }
    if Shared(ps, k) {
      var j :| 0 <= j < |ps| && j != k && SameHead(p, ps[j]);
      assert ps[j] in g;
      assert ps[j] != p;
    }
  }

  /** What the scan records in `old_prods` for a first production. */
  lemma LeadOlds(ps: seq<Production>, k: nat, olds: seq<Production>)
    requires NoDup(ps) && k < |ps| && Leader(ps, k)
    requires Elems(olds) == Elems(Group(ps, k)[1..]) + (if Shared(ps, k) then {ps[k]} else {})
    ensures forall j :: 0 <= j < |ps| ==> (ps[j] in olds <==> SameHead(ps[k], ps[j]) && Shared(ps, k))
  {
    var p := ps[k];
    var g := Group(ps, k);
    GroupMembers(ps, k);
    GroupShared(ps, k);
    forall j | 0 <= j < |ps| ensures ps[j] in olds <==> SameHead(p, ps[j]) && Shared(ps, k) {
      if ps[j] in olds && ps[j] != p {
        assert ps[j] in Elems(olds);
        assert ps[j] in Elems(g[1..]);
        assert ps[j] in g;
        assert j != k;
        assert SameHead(ps[j], ps[k]);
      }
      if SameHead(p, ps[j]) && Shared(ps, k) && j != k {
        assert ps[j] in g;
        assert ps[j] != p;
        var i :| 0 <= i < |g| && g[i] == ps[j];
        assert g[1..][i - 1] == ps[j];
      }
    }
  }

  /** The old-productions invariant after a first production. */
  lemma OldLead(ps: seq<Production>, k: nat, oldProds: seq<Production>, olds: seq<Production>)
    requires k < |ps| && Leader(ps, k)
    requires forall j :: 0 <= j < |ps| ==> (ps[j] in oldProds <==> Shared(ps, j) && Seen(ps, k, ps[j]))
    requires forall j :: 0 <= j < |ps| ==> (ps[j] in olds <==> SameHead(ps[k], ps[j]) && Shared(ps, k))
    ensures forall j :: 0 <= j < |ps| ==> (ps[j] in oldProds + olds <==> Shared(ps, j) && Seen(ps, k + 1, ps[j]))
  {
    var p := ps[k];
    forall j | 0 <= j < |ps| ensures ps[j] in oldProds + olds <==> Shared(ps, j) && Seen(ps, k + 1, ps[j]) {
      if Seen(ps, k + 1, ps[j]) && !Seen(ps, k, ps[j]) {
        var i :| 0 <= i < k + 1 && SameHead(ps[j], ps[i]);
        assert i == k;
        assert SameHead(p, ps[j]);
        if j != k {
          assert Shared(ps, j) ==> Shared(ps, k) by { assert SameHead(ps[k], ps[j]); }
          assert Shared(ps, k) ==> Shared(ps, j) by { assert SameHead(ps[j], ps[k]); }
        }
      }
      if ps[j] in olds {
        assert SameHead(ps[j], p);
        assert Seen(ps, k + 1, ps[j]);
        if j != k {
          assert SameHead(ps[j], ps[k]);
        }
      }
    }
  }

  lemma PrimesStep(A: string, ps: seq<Production>, k: nat)
    requires k < |ps|
    ensures Primes(A, ps, k + 1) == Primes(A, ps, k) + (if Leader(ps, k) && Shared(ps, k) then [Nt(Prime(A), Tails(A, Group(ps, k)))] else [])
  {
  }

  /** The elements of the group of a first production give the
      remainders of its class. */
  lemma GroupRests(A: string, ps: seq<Production>, k: nat)
    requires NoDup(ps) && k < |ps| && Leader(ps, k)
    ensures Elems(Tails(A, Group(ps, k))) == ClassRests(A, ps, k)
  {
    TailsElems(A, Group(ps, k));
    GroupMembers(ps, k);
  }

  /** The scan gathers productions of the list only. */
  lemma ScanInList(ps: seq<Production>, p: Production)
    ensures forall q :: q in Matching(p, UpTo(Reverse(ps), p)) ==> q in ps
  {
    MatchingMembers(p, UpTo(Reverse(ps), p));
    forall q | q in UpTo(Reverse(ps), p) ensures q in ps {
      var i :| 0 <= i < |UpTo(Reverse(ps), p)| && UpTo(Reverse(ps), p)[i] == q;
      assert Reverse(ps)[i] == q;
    }
  }

  lemma SpecSkip(A: string, ps: seq<Production>, k: nat, newProds0: seq<Production>,
                 newProds: seq<Production>, oldProds: seq<Production>, primes: seq<Nt>)
    requires k < |ps| && FactorSpec(A, ps, k, newProds0, newProds, oldProds, primes) && ps[k] in oldProds
    ensures FactorSpec(A, ps, k + 1, newProds0, newProds, oldProds, primes)
  {
    EmittedSkip(A, ps, k);
    SeenSame(ps, k);
    PrimesStep(A, ps, k);
  }

  lemma SpecEps(A: string, ps: seq<Production>, k: nat, newProds0: seq<Production>,
                newProds: seq<Production>, oldProds: seq<Production>, primes: seq<Nt>, newProds': seq<Production>)
    requires k < |ps| && FactorSpec(A, ps, k, newProds0, newProds, oldProds, primes) && ps[k].rhs == []
    requires Elems(newProds') == Elems(newProds) + {ps[k]}
    ensures FactorSpec(A, ps, k + 1, newProds0, newProds', oldProds, primes)
  {
    EmittedEps(A, ps, k);
    SeenSame(ps, k);
    PrimesStep(A, ps, k);
  }

  lemma SpecLead(A: string, ps: seq<Production>, k: nat, newProds0: seq<Production>,
                 newProds: seq<Production>, oldProds: seq<Production>, primes: seq<Nt>,
                 comunes: seq<Production>, olds: seq<Production>, addP: seq<Production>, addN: seq<Nt>)
    requires NoDup(ps) && k < |ps| && FactorSpec(A, ps, k, newProds0, newProds, oldProds, primes)
    requires ps[k] !in oldProds && |ps[k].rhs| > 0
    requires comunes == Group(ps, k)
    requires Elems(olds) == Elems(comunes[1..]) + (if |comunes| > 1 then {ps[k]} else {})
    requires |comunes| > 1 ==> addP == [Factor(A, ps[k].rhs[0])] + Tails(A, comunes) && addN == [Nt(Prime(A), Tails(A, comunes))]
    requires |comunes| <= 1 ==> addN == [] && (addP == [ps[k]] || (addP == [] && ps[k] in newProds))
    ensures FactorSpec(A, ps, k + 1, newProds0, newProds + addP, oldProds + olds, primes + addN)
  {
    LeadIsLeader(ps, k);
    GroupShared(ps, k);
    LeadOlds(ps, k, olds);
    OldLead(ps, k, oldProds, olds);
    PrimesStep(A, ps, k);
    NewLead(A, ps, k, newProds0, newProds, comunes, addP);
  }

  lemma NewLead(A: string, ps: seq<Production>, k: nat, newProds0: seq<Production>, newProds: seq<Production>,
                comunes: seq<Production>, addP: seq<Production>)
    requires NoDup(ps) && k < |ps| && Leader(ps, k)
    requires Elems(newProds) == Elems(newProds0) + Emitted(A, ps, k)
    requires comunes == Group(ps, k)
    requires |comunes| > 1 ==> addP == [Factor(A, ps[k].rhs[0])] + Tails(A, comunes)
    requires |comunes| <= 1 ==> addP == [ps[k]] || (addP == [] && ps[k] in newProds)
    ensures Elems(newProds + addP) == Elems(newProds0) + Emitted(A, ps, k + 1)
  {
    GroupShared(ps, k);
    EmittedLead(A, ps, k);
    ElemsConcat(newProds, addP);
    if Shared(ps, k) {
      GroupRests(A, ps, k);
      ElemsConcat([Factor(A, ps[k].rhs[0])], Tails(A, comunes));
    }
  }

  /** The frame is kept by a turn that records productions of the list
      and appends productions of the list or headed by `A` or `A'`. */
  lemma FrameStep(A: string, ps: seq<Production>, newProds0: seq<Production>, oldProds0: seq<Production>,
                  newProds: seq<Production>, oldProds: seq<Production>, primes: seq<Nt>,
                  addP: seq<Production>, olds: seq<Production>, addN: seq<Nt>)
    requires FactorFrame(A, ps, newProds0, oldProds0, newProds, oldProds, primes)
    requires forall q :: q in addP ==> q in ps || q.lhs == A || q.lhs == Prime(A)
    requires forall q :: q in olds ==> q in ps
    requires forall r :: r in addN ==> r.name == Prime(A) && HeadsAre(r.prods, Prime(A)) && |r.prods| >= 2
    requires forall r, q :: r in addN && q in r.prods ==> q in addP
    ensures FactorFrame(A, ps, newProds0, oldProds0, newProds + addP, oldProds + olds, primes + addN)
  {
  }

  lemma OldsInList(ps: seq<Production>, p: Production, comunes: seq<Production>, olds: seq<Production>, changed: bool)
    requires p in ps && comunes == [p] + Matching(p, UpTo(Reverse(ps), p))
    requires Elems(olds) == Elems(comunes[1..]) + (if changed then {p} else {})
    ensures forall q :: q in olds ==> q in ps
  {
    ScanInList(ps, p);
    forall q | q in olds ensures q in ps {
      assert q in Elems(olds);
      if q != p {
        assert q in Elems(comunes[1..]);
      }
    }
  }

  /** The part of a turn after the scan, for a production not yet
      recorded. */
  method FactorLead(A: string, ps: seq<Production>, k: nat, ghost newProds0: seq<Production>, ghost oldProds0: seq<Production>,
                    newProds: seq<Production>, oldProds: seq<Production>, primes: seq<Nt>,
                    comunes: seq<Production>, olds: seq<Production>, changed: bool)
    returns (newProds': seq<Production>, oldProds': seq<Production>, primes': seq<Nt>)
    requires k < |ps| && FactorInv(A, ps, k, newProds0, oldProds0, newProds, oldProds, primes)
    requires ps[k] !in oldProds && |ps[k].rhs| > 0
    requires comunes == [ps[k]] + Matching(ps[k], UpTo(Reverse(ps), ps[k]))
    requires changed <==> |comunes| > 1
    requires Elems(olds) == Elems(comunes[1..]) + (if changed then {ps[k]} else {})
    ensures FactorInv(A, ps, k + 1, newProds0, oldProds0, newProds', oldProds', primes')
  {
    var p := ps[k];
    var addP: seq<Production> := [];
    var addN: seq<Nt> := [];
    if changed {
      var prime := Nt(Prime(A), Tails(A, comunes));
      addN := [prime];
      addP := [Factor(A, p.rhs[0])] + prime.prods;
    } else if comunes[0] !in newProds {
      addP := [comunes[0]];
    }
    LeadKeeps(A, ps, k, newProds0, oldProds0, newProds, oldProds, primes, comunes, olds, changed, addP, addN);
    newProds', oldProds', primes' := newProds + addP, oldProds + olds, primes + addN;
  }

  /** What the part of a turn after the scan adds keeps the invariant. */
  lemma LeadKeeps(A: string, ps: seq<Production>, k: nat, newProds0: seq<Production>, oldProds0: seq<Production>,
                  newProds: seq<Production>, oldProds: seq<Production>, primes: seq<Nt>,
                  comunes: seq<Production>, olds: seq<Production>, changed: bool, addP: seq<Production>, addN: seq<Nt>)
    requires k < |ps| && FactorInv(A, ps, k, newProds0, oldProds0, newProds, oldProds, primes)
    requires ps[k] !in oldProds && |ps[k].rhs| > 0
    requires comunes == [ps[k]] + Matching(ps[k], UpTo(Reverse(ps), ps[k]))
    requires changed <==> |comunes| > 1
    requires Elems(olds) == Elems(comunes[1..]) + (if changed then {ps[k]} else {})
    requires changed ==> addN == [Nt(Prime(A), Tails(A, comunes))] && addP == [Factor(A, ps[k].rhs[0])] + Tails(A, comunes)
    requires !changed ==> addN == [] && addP == (if comunes[0] !in newProds then [comunes[0]] else [])
    ensures FactorInv(A, ps, k + 1, newProds0, oldProds0, newProds + addP, oldProds + olds, primes + addN)
  {
    LeadFrame(A, ps, k, newProds0, oldProds0, newProds, oldProds, primes, comunes, olds, changed, addP, addN);
    if Distinct(ps, oldProds0) {
      LeadIsLeader(ps, k);
      SpecLead(A, ps, k, newProds0, newProds, oldProds, primes, comunes, olds, addP, addN);
    }
  }

  /** The frame half of `LeadKeeps`. */
  lemma LeadFrame(A: string, ps: seq<Production>, k: nat, newProds0: seq<Production>, oldProds0: seq<Production>,
                  newProds: seq<Production>, oldProds: seq<Production>, primes: seq<Nt>,
                  comunes: seq<Production>, olds: seq<Production>, changed: bool, addP: seq<Production>, addN: seq<Nt>)
    requires k < |ps| && FactorFrame(A, ps, newProds0, oldProds0, newProds, oldProds, primes) && |ps[k].rhs| > 0
    requires comunes == [ps[k]] + Matching(ps[k], UpTo(Reverse(ps), ps[k]))
    requires changed <==> |comunes| > 1
    requires Elems(olds) == Elems(comunes[1..]) + (if changed then {ps[k]} else {})
    requires changed ==> addN == [Nt(Prime(A), Tails(A, comunes))] && addP == [Factor(A, ps[k].rhs[0])] + Tails(A, comunes)
    requires !changed ==> addN == [] && addP == (if comunes[0] !in newProds then [comunes[0]] else [])
    ensures FactorFrame(A, ps, newProds0, oldProds0, newProds + addP, oldProds + olds, primes + addN)
  {
    OldsInList(ps, ps[k], comunes, olds, changed);
    LeadAdded(A, ps[k], newProds, comunes, changed, addP, addN);
    FrameStep(A, ps, newProds0, oldProds0, newProds, oldProds, primes, addP, olds, addN);
  }

  /** The productions and non-terminals a turn adds are those `FrameStep`
      allows. */
  lemma LeadAdded(A: string, p: Production, newProds: seq<Production>, comunes: seq<Production>, changed: bool,
                  addP: seq<Production>, addN: seq<Nt>)
    requires |p.rhs| > 0 && comunes != [] && comunes[0] == p
    requires changed ==> addN == [Nt(Prime(A), Tails(A, comunes))] && addP == [Factor(A, p.rhs[0])] + Tails(A, comunes)
    requires !changed ==> addN == [] && addP == (if comunes[0] !in newProds then [comunes[0]] else [])
    requires changed ==> |comunes| > 1
    ensures forall q :: q in addP ==> q == p || q.lhs == A || q.lhs == Prime(A)
    ensures forall r :: r in addN ==> r.name == Prime(A) && HeadsAre(r.prods, Prime(A)) && |r.prods| >= 2
    ensures forall r, q :: r in addN && q in r.prods ==> q in addP
  {
    if changed {
      var ts := Tails(A, comunes);
      assert HeadsAre(ts, Prime(A)) by {
        forall q | q in ts ensures q.lhs == Prime(A) {
          var i :| 0 <= i < |ts| && ts[i] == q;
        }
      }
      forall q | q in addP ensures q.lhs == A || q.lhs == Prime(A) {
        if q != Factor(A, p.rhs[0]) {
          assert q in ts;
        }
      }
    }
  }

  /** One turn of the loop over `nt.productions`. */
  method FactorStep(A: string, ps: seq<Production>, k: nat, ghost newProds0: seq<Production>, ghost oldProds0: seq<Production>,
                    newProds: seq<Production>, oldProds: seq<Production>, primes: seq<Nt>)
    returns (newProds': seq<Production>, oldProds': seq<Production>, primes': seq<Nt>)
    requires k < |ps| && FactorInv(A, ps, k, newProds0, oldProds0, newProds, oldProds, primes)
    ensures FactorInv(A, ps, k + 1, newProds0, oldProds0, newProds', oldProds', primes')
  {
    var p := ps[k];
    if p in oldProds {
      if Distinct(ps, oldProds0) {
        SpecSkip(A, ps, k, newProds0, newProds, oldProds, primes);
      }
      return newProds, oldProds, primes;
    }
    if p.IsEpsilon() {
      newProds', oldProds', primes' := newProds, oldProds, primes;
      if p !in newProds {
        newProds' := newProds + [p];
      }
      assert Elems(newProds') == Elems(newProds) + {p};
      if Distinct(ps, oldProds0) {
        SpecEps(A, ps, k, newProds0, newProds, oldProds, primes, newProds');
      }
      return;
    }
    var comunes, olds, changed := ScanGroup(ps, p);
    newProds', oldProds', primes' := FactorLead(A, ps, k, newProds0, oldProds0, newProds, oldProds, primes, comunes, olds, changed);
  }

  lemma SpecStart(A: string, ps: seq<Production>, newProds0: seq<Production>, oldProds0: seq<Production>)
    requires Distinct(ps, oldProds0)
    ensures FactorSpec(A, ps, 0, newProds0, newProds0, oldProds0, [])
  {
    assert Alone(ps, 0) == {} && Factors(A, ps, 0) == {};
    assert Rests(A, ps, 0) == {};
  }

  lemma FactorStart(A: string, ps: seq<Production>, newProds0: seq<Production>, oldProds0: seq<Production>)
    ensures FactorInv(A, ps, 0, newProds0, oldProds0, newProds0, oldProds0, [])
  {
    if Distinct(ps, oldProds0) {
      SpecStart(A, ps, newProds0, oldProds0);
    }
  }

  /** The loop `for p in nt.productions` of one non-terminal: what it
      appends to `new_prods` and `old_prods`, and the `A'` objects it
      pushes. */
  method FactorNt(nt: Nt, newProds0: seq<Production>, oldProds0: seq<Production>)
    returns (newProds: seq<Production>, oldProds: seq<Production>, primes: seq<Nt>)
    ensures FactorFrame(nt.name, nt.prods, newProds0, oldProds0, newProds, oldProds, primes)
    ensures Distinct(nt.prods, oldProds0) ==> FactorSpec(nt.name, nt.prods, |nt.prods|, newProds0, newProds, oldProds, primes)
  {
    newProds, oldProds, primes := newProds0, oldProds0, [];
    FactorStart(nt.name, nt.prods, newProds0, oldProds0);
    var k := 0;
    while k < |nt.prods|
      invariant k <= |nt.prods| && FactorInv(nt.name, nt.prods, k, newProds0, oldProds0, newProds, oldProds, primes)
    {
      newProds, oldProds, primes := FactorStep(nt.name, nt.prods, k, newProds0, oldProds0, newProds, oldProds, primes);
      k := k + 1;
    }
    FactorEnd(nt.name, nt.prods, k, newProds0, oldProds0, newProds, oldProds, primes);
  }

  /** The invariant after the last production gives the frame and, for a
      list without repetitions, the factoring. */
  lemma FactorEnd(A: string, ps: seq<Production>, k: nat, newProds0: seq<Production>, oldProds0: seq<Production>,
                  newProds: seq<Production>, oldProds: seq<Production>, primes: seq<Nt>)
    requires k == |ps| && FactorInv(A, ps, k, newProds0, oldProds0, newProds, oldProds, primes)
    ensures FactorFrame(A, ps, newProds0, oldProds0, newProds, oldProds, primes)
    ensures Distinct(ps, oldProds0) ==> FactorSpec(A, ps, |ps|, newProds0, newProds, oldProds, primes)
  {
  }

  // ---------------------------------------------------------------------
  // What the factoring of one non-terminal achieves
  // ---------------------------------------------------------------------

  /** Every production of the list survives: as it is when its first
      symbol is its own, and otherwise as `A -> X A'` together with
      `A' -> β`. */
  lemma FactoredComplete(A: string, ps: seq<Production>, j: nat)
    requires j < |ps|
    ensures !Shared(ps, j) ==> ps[j] in Emitted(A, ps, |ps|)
    ensures Shared(ps, j) ==> Factor(A, ps[j].rhs[0]) in Emitted(A, ps, |ps|) && Rest(A, ps[j]) in Emitted(A, ps, |ps|)
  {
    if Shared(ps, j) {
      var i :| 0 <= i < |ps| && i != j && SameHead(ps[j], ps[i]);
      assert Seen(ps, |ps|, ps[j]) by {
        assert SameHead(ps[j], ps[j]);
      }
      assert Factor(A, ps[j].rhs[0]) in Factors(A, ps, |ps|);
      assert Rest(A, ps[j]) in Rests(A, ps, |ps|);
    } else {
      assert ps[j] in Alone(ps, |ps|);
    }
  }

  /** After the factoring, no two distinct productions of `A` added for
      it start with the same symbol: the productions of `A'` are headed by
      `A'`. */
  lemma NoCommonPrefix(A: string, ps: seq<Production>, q1: Production, q2: Production)
    requires HeadsAre(ps, A)
    requires q1 in Emitted(A, ps, |ps|) && q2 in Emitted(A, ps, |ps|)
    requires q1.lhs == A && q2.lhs == A && SameHead(q1, q2)
    ensures q1 == q2
  {
    EmittedForA(A, ps, q1);
    EmittedForA(A, ps, q2);
    forall i, j | 0 <= i < |ps| && 0 <= j < |ps| && i != j && SameHead(ps[i], ps[j])
      ensures Shared(ps, i)
    {
    }
  }

  /** A production emitted for `A` itself is kept unshared or is a factor
      `A -> X A'`. */
  lemma EmittedForA(A: string, ps: seq<Production>, q: Production)
    requires q in Emitted(A, ps, |ps|) && q.lhs == A
    ensures || (exists j :: 0 <= j < |ps| && !Shared(ps, j) && q == ps[j])
            || (exists j :: 0 <= j < |ps| && |ps[j].rhs| > 0 && Shared(ps, j) && q == Factor(A, ps[j].rhs[0]))
  {
    PrimeFresh(A);
  }

  // ---------------------------------------------------------------------
  // The whole pass: the stack of non-terminals
  // ---------------------------------------------------------------------

  /** A name made by `Prime`. */
  predicate EndsPrima(n: string) {
    |n| >= 6 && n[|n| - 6..] == "_prima"
  }

  lemma PrimeEnds(A: string)
    ensures EndsPrima(Prime(A))
  {
    assert Prime(A)[|A|..] == "_prima";
  }

  /** The `NonTerminal` objects of the copied grammar, in order. */
  function Originals(g: Grammar): (r: seq<Nt>)
    ensures |r| == |g.nonTerminals|
    ensures forall i :: 0 <= i < |r| ==> r[i] == Nt(g.nonTerminals[i], g.RulesOf(g.nonTerminals[i]))
  {
    seq(|g.nonTerminals|, i requires 0 <= i < |g.nonTerminals| => Nt(g.nonTerminals[i], g.RulesOf(g.nonTerminals[i])))
  }

  /** The grammars the pass is stated for: distinct non-terminals, none of
      them already named like a primed one, each with its own distinct
      productions. */
  predicate Plain(g: Grammar) {
    && NoDup(g.nonTerminals)
    && forall A :: A in g.nonTerminals ==> !EndsPrima(A) && HeadsAre(g.RulesOf(A), A) && NoDup(g.RulesOf(A))
  }

  /** The productions of `S` with head `A`. */
  function Headed(S: set<Production>, A: string): set<Production> {
    set q | q in S && q.lhs == A
  }

  /** The `i`-th original non-terminal has been factored: everything its
      loop emits is in `new_prods`, and nothing else there has its head. */
  predicate Finished(g: Grammar, i: nat, newProds: seq<Production>)
    requires i < |g.nonTerminals|
  {
    var A := g.nonTerminals[i];
    var ps := g.RulesOf(A);
    && Emitted(A, ps, |ps|) <= Elems(newProds)
    && Headed(Elems(newProds), A) == Headed(Emitted(A, ps, |ps|), A)
  }

  /** The stack holds the originals not yet popped, then primed
      non-terminals; every primed non-terminal created has at least two
      productions, all headed by it and all in `new_prods`. */
  predicate StackFrame(g: Grammar, m: nat, nts: seq<Nt>, newNts: seq<Nt>, newProds: seq<Production>) {
    && m <= |g.nonTerminals| && m <= |nts|
    && nts[..m] == Originals(g)[..m]
    && (forall j :: m <= j < |nts| ==> EndsPrima(nts[j].name) && HeadsAre(nts[j].prods, nts[j].name))
    && (forall r :: r in newNts ==> EndsPrima(r.name) && HeadsAre(r.prods, r.name) && |r.prods| >= 2)
    && (forall r, q :: r in newNts && q in r.prods ==> q in newProds)
  }

  /** For a plain grammar: the originals from `m` on are finished, and the
      heads in `new_prods` and `old_prods` are those or primed names. */
  predicate StackSpec(g: Grammar, m: nat, newProds: seq<Production>, oldProds: seq<Production>)
    requires m <= |g.nonTerminals|
  {
    && (forall q :: q in newProds ==> EndsPrima(q.lhs) || q.lhs in g.nonTerminals[m..])
    && (forall q :: q in oldProds ==> EndsPrima(q.lhs) || q.lhs in g.nonTerminals[m..])
    && (forall i :: m <= i < |g.nonTerminals| ==> Finished(g, i, newProds))
  }

  predicate StackInv(g: Grammar, m: nat, nts: seq<Nt>, newNts: seq<Nt>, newProds: seq<Production>, oldProds: seq<Production>) {
    && StackFrame(g, m, nts, newNts, newProds)
    && (Plain(g) ==> StackSpec(g, m, newProds, oldProds))
  }

  lemma EmittedHeads(A: string, ps: seq<Production>, k: nat, q: Production)
    requires k <= |ps| && HeadsAre(ps, A) && q in Emitted(A, ps, k)
    ensures q.lhs == A || q.lhs == Prime(A)
  {
  }

  /** Popping a primed non-terminal leaves every original's productions
      alone. */
  lemma PrimeTurn(g: Grammar, m: nat, nt: Nt, newProds0: seq<Production>, oldProds0: seq<Production>,
                  newProds: seq<Production>, oldProds: seq<Production>, primes: seq<Nt>)
    requires Plain(g) && m <= |g.nonTerminals| && StackSpec(g, m, newProds0, oldProds0)
    requires EndsPrima(nt.name) && HeadsAre(nt.prods, nt.name)
    requires FactorFrame(nt.name, nt.prods, newProds0, oldProds0, newProds, oldProds, primes)
    ensures StackSpec(g, m, newProds, oldProds)
  {
    PrimeEnds(nt.name);
    forall i | m <= i < |g.nonTerminals| ensures Finished(g, i, newProds) {
      var A := g.nonTerminals[i];
      assert Finished(g, i, newProds0);
      assert !EndsPrima(A);
      forall q | q in Headed(Elems(newProds), A) ensures q in Headed(Elems(newProds0), A) {
        assert q in newProds0 || q in nt.prods || q.lhs == nt.name || q.lhs == Prime(nt.name);
      }
      assert Elems(newProds0) <= Elems(newProds);
    }
  }

  /** Popping the original `A` finds none of its productions recorded. */
  lemma OriginalDistinct(g: Grammar, m: nat, oldProds: seq<Production>)
    requires Plain(g) && 0 < m <= |g.nonTerminals|
    requires forall q :: q in oldProds ==> EndsPrima(q.lhs) || q.lhs in g.nonTerminals[m..]
    ensures Distinct(g.RulesOf(g.nonTerminals[m - 1]), oldProds)
  {
  }

  /** Popping the original `A` finishes it. */
  lemma OriginalFinished(g: Grammar, m: nat, newProds0: seq<Production>, newProds: seq<Production>)
    requires Plain(g) && 0 < m <= |g.nonTerminals|
    requires forall q :: q in newProds0 ==> EndsPrima(q.lhs) || q.lhs in g.nonTerminals[m..]
    requires var A := g.nonTerminals[m - 1];
      Elems(newProds) == Elems(newProds0) + Emitted(A, g.RulesOf(A), |g.RulesOf(A)|)
    ensures Finished(g, m - 1, newProds)
  {
    var A := g.nonTerminals[m - 1];
    assert Headed(Elems(newProds0), A) == {};
  }

  /** Popping the original `A` leaves the finished originals alone. */
  lemma OthersFinished(g: Grammar, m: nat, i: nat, newProds0: seq<Production>, newProds: seq<Production>)
    requires Plain(g) && 0 < m <= i < |g.nonTerminals| && Finished(g, i, newProds0)
    requires var A := g.nonTerminals[m - 1];
      Elems(newProds) == Elems(newProds0) + Emitted(A, g.RulesOf(A), |g.RulesOf(A)|)
    ensures Finished(g, i, newProds)
  {
    var A := g.nonTerminals[m - 1];
    var B := g.nonTerminals[i];
    var ps := g.RulesOf(A);
    PrimeEnds(A);
    forall q | q in Headed(Emitted(A, ps, |ps|), B) ensures false {
      EmittedHeads(A, ps, |ps|, q);
    }
  }

  /** The heads recorded when popping the original `A`. */
  lemma OriginalHeads(g: Grammar, m: nat, newProds0: seq<Production>, oldProds0: seq<Production>,
                      newProds: seq<Production>, oldProds: seq<Production>, primes: seq<Nt>)
    requires Plain(g) && 0 < m <= |g.nonTerminals|
    requires forall q :: q in newProds0 ==> EndsPrima(q.lhs) || q.lhs in g.nonTerminals[m..]
    requires forall q :: q in oldProds0 ==> EndsPrima(q.lhs) || q.lhs in g.nonTerminals[m..]
    requires var A := g.nonTerminals[m - 1];
      && FactorFrame(A, g.RulesOf(A), newProds0, oldProds0, newProds, oldProds, primes)
    ensures forall q :: q in newProds ==> EndsPrima(q.lhs) || q.lhs in g.nonTerminals[m - 1..]
    ensures forall q :: q in oldProds ==> EndsPrima(q.lhs) || q.lhs in g.nonTerminals[m - 1..]
  {
    var A := g.nonTerminals[m - 1];
    PrimeEnds(A);
    assert HeadsAre(g.RulesOf(A), A);
    assert g.nonTerminals[m - 1..] == [A] + g.nonTerminals[m..];
  }

  lemma OriginalTurn(g: Grammar, m: nat, newProds0: seq<Production>, oldProds0: seq<Production>,
                     newProds: seq<Production>, oldProds: seq<Production>, primes: seq<Nt>)
    requires Plain(g) && 0 < m <= |g.nonTerminals| && StackSpec(g, m, newProds0, oldProds0)
    requires var A := g.nonTerminals[m - 1];
      && FactorFrame(A, g.RulesOf(A), newProds0, oldProds0, newProds, oldProds, primes)
      && Elems(newProds) == Elems(newProds0) + Emitted(A, g.RulesOf(A), |g.RulesOf(A)|)
    ensures StackSpec(g, m - 1, newProds, oldProds)
  {
    OriginalHeads(g, m, newProds0, oldProds0, newProds, oldProds, primes);
    OriginalFinished(g, m, newProds0, newProds);
    forall i | m <= i < |g.nonTerminals| ensures Finished(g, i, newProds) {
      OthersFinished(g, m, i, newProds0, newProds);
    }
  }

  /** No original non-terminal has two productions with one first
      symbol. */
  predicate Unshared(g: Grammar) {
    forall A, j :: A in g.nonTerminals && 0 <= j < |g.RulesOf(A)| ==> !Shared(g.RulesOf(A), j)
  }

  lemma {:induction false} PrimesNone(A: string, ps: seq<Production>, k: nat)
    requires k <= |ps| && forall j :: 0 <= j < |ps| ==> !Shared(ps, j)
    ensures Primes(A, ps, k) == []
  {
    if k > 0 {
      PrimesNone(A, ps, k - 1);
    }
  }

  lemma StackStart(g: Grammar)
    ensures StackInv(g, |g.nonTerminals|, Originals(g), [], [], [])
  {
  }

  /** One turn of `while len(nts)`: pop the last non-terminal, factor it,
      push its primed non-terminals. */
  method StackStep(ghost g: Grammar, ghost m: nat, nts: seq<Nt>, newNts: seq<Nt>, newProds: seq<Production>, oldProds: seq<Production>)
    returns (nts': seq<Nt>, newNts': seq<Nt>, newProds': seq<Production>, oldProds': seq<Production>, ghost m': nat)
    requires |nts| > 0 && StackInv(g, m, nts, newNts, newProds, oldProds)
    ensures StackInv(g, m', nts', newNts', newProds', oldProds')
    ensures newNts <= newNts' && newProds <= newProds'
    ensures Plain(g) && Unshared(g) && |nts| == m ==> |nts'| == m' == m - 1
  {
    var nt := nts[|nts| - 1];
    var rest := nts[..|nts| - 1];
    var primes;
    newProds', oldProds', primes := FactorNt(nt, newProds, oldProds);
    nts', newNts' := rest + primes, newNts + primes;
    PrimeEnds(nt.name);
    if |nts| > m {
      m' := m;
      assert EndsPrima(nt.name) && HeadsAre(nt.prods, nt.name);
      if Plain(g) {
        PrimeTurn(g, m, nt, newProds, oldProds, newProds', oldProds', primes);
      }
    } else {
      m' := m - 1;
      assert nt == Originals(g)[m - 1];
      if Plain(g) {
        OriginalDistinct(g, m, oldProds);
        OriginalTurn(g, m, newProds, oldProds, newProds', oldProds', primes);
        if Unshared(g) {
          PrimesNone(nt.name, nt.prods, |nt.prods|);
        }
      }
    }
    assert nts'[..m'] == nts[..m'];
    forall r, q | r in newNts' && q in r.prods ensures q in newProds' {
      if r in newNts {
        assert q in newProds;
      } else {
        assert r in primes;
      }
    }
  }

  /** The names `G.nonTerminals += new_nts` adds. */
  function Names(nts: seq<Nt>): (r: seq<string>)
    ensures |r| == |nts| && forall i :: 0 <= i < |nts| ==> r[i] == nts[i].name
  {
    seq(|nts|, i requires 0 <= i < |nts| => nts[i].name)
  }

  /** The `productions` lists of the added non-terminals, by name; of two
      added with one name, the later one is kept. */
  function Register(rules: map<string, seq<Production>>, nts: seq<Nt>): map<string, seq<Production>> {
    if nts == [] then rules
    else Register(rules, nts[..|nts| - 1])[nts[|nts| - 1].name := nts[|nts| - 1].prods]
  }

  lemma {:induction false} RegisterSpec(rules: map<string, seq<Production>>, nts: seq<Nt>, n: string)
    ensures n in Register(rules, nts) <==> n in rules || n in Names(nts)
    ensures n !in Names(nts) && n in rules ==> Register(rules, nts)[n] == rules[n]
    ensures n in Names(nts) ==> exists r :: r in nts && r.name == n && Register(rules, nts)[n] == r.prods
  {
    if nts != [] {
      var init, last := nts[..|nts| - 1], nts[|nts| - 1];
      RegisterSpec(rules, init, n);
      assert Names(nts) == Names(init) + [last.name];
      if n != last.name && n in Names(nts) {
        var r :| r in init && r.name == n && Register(rules, init)[n] == r.prods;
        assert r in nts;
      }
    }
  }

  /** An added non-terminal of the result: primed, with at least two
      productions, all its own and all in the production list. */
  predicate NewPrime(h: Grammar, n: string) {
    && EndsPrima(n) && n in h.rules
    && |h.rules[n]| >= 2 && HeadsAre(h.rules[n], n)
    && forall q :: q in h.rules[n] ==> q in h.productions
  }

  /** `without_common_prefix`: the stack of non-terminals, popped from the
      end, each factored in turn.  `fuel` bounds the number of turns; `None`
      means it ran out. */
  method WithoutCommonPrefix(g: Grammar, fuel: nat) returns (r: Option<Grammar>)
    ensures r.Some? ==>
      var h := r.value;
      && |h.nonTerminals| >= |g.nonTerminals| && h.nonTerminals[..|g.nonTerminals|] == g.nonTerminals
      && h.terminals == g.terminals && h.start == g.start
      && (forall j :: |g.nonTerminals| <= j < |h.nonTerminals| ==> NewPrime(h, h.nonTerminals[j]))
      && (forall A :: A in g.nonTerminals && !EndsPrima(A) ==> h.RulesOf(A) == g.RulesOf(A))
      && (Plain(g) ==> forall i :: 0 <= i < |g.nonTerminals| ==> Finished(g, i, h.productions))
    ensures Plain(g) && Unshared(g) && |g.nonTerminals| <= fuel ==> r.Some?
  {
    var nts := Originals(g);
    var newNts: seq<Nt> := [];
    var newProds: seq<Production> := [];
    var oldProds: seq<Production> := [];
    ghost var m: nat := |nts|;
    var steps := 0;
    StackStart(g);
    while |nts| > 0 && steps < fuel
      invariant StackInv(g, m, nts, newNts, newProds, oldProds)
      invariant Plain(g) && Unshared(g) ==> |nts| == m && steps + m == |g.nonTerminals|
      decreases fuel - steps
    {
      nts, newNts, newProds, oldProds, m := StackStep(g, m, nts, newNts, newProds, oldProds);
      steps := steps + 1;
    }
    if |nts| > 0 {
      return None;
    }
    var h := g.(nonTerminals := g.nonTerminals + Names(newNts), productions := newProds, rules := Register(g.rules, newNts));
    forall j | |g.nonTerminals| <= j < |h.nonTerminals| ensures NewPrime(h, h.nonTerminals[j]) {
      var n := h.nonTerminals[j];
      assert n == newNts[j - |g.nonTerminals|].name;
      RegisterSpec(g.rules, newNts, n);
    }
    forall A | A in g.nonTerminals && !EndsPrima(A) ensures h.RulesOf(A) == g.RulesOf(A) {
      RegisterSpec(g.rules, newNts, A);
    }
    assert h.nonTerminals[..|g.nonTerminals|] == g.nonTerminals;
    return Some(h);
  }

  // ---------------------------------------------------------------------
  // What the pass achieves for the original non-terminals
  // ---------------------------------------------------------------------

  /** In the result, two productions of an original non-terminal never
      start with the same symbol. */
  lemma ResultNoCommonPrefix(g: Grammar, h: Grammar, i: nat, q1: Production, q2: Production)
    requires Plain(g) && i < |g.nonTerminals| && Finished(g, i, h.productions)
    requires q1 in h.productions && q2 in h.productions
    requires q1.lhs == g.nonTerminals[i] && q2.lhs == g.nonTerminals[i] && SameHead(q1, q2)
    ensures q1 == q2
  {
    var A := g.nonTerminals[i];
    var ps := g.RulesOf(A);
    assert q1 in Headed(Elems(h.productions), A) && q2 in Headed(Elems(h.productions), A);
    NoCommonPrefix(A, ps, q1, q2);
  }

  /** Every production of an original non-terminal is in the result, or
      has been split into `A -> X A'` and `A' -> β`, both in the result. */
  lemma ResultComplete(g: Grammar, h: Grammar, i: nat, j: nat)
    requires i < |g.nonTerminals| && Finished(g, i, h.productions)
    requires j < |g.RulesOf(g.nonTerminals[i])|
    ensures var A := g.nonTerminals[i];
      var p := g.RulesOf(A)[j];
      if Shared(g.RulesOf(A), j) then Factor(A, p.rhs[0]) in h.productions && Rest(A, p) in h.productions
      else p in h.productions
  {
    var A := g.nonTerminals[i];
    FactoredComplete(A, g.RulesOf(A), j);
  }

  /** Conversely, a production of an original non-terminal in the result is
      one of its productions whose first symbol is its own, or `A -> X A'`
      for a first symbol `X` two of them share. */
  lemma ResultSound(g: Grammar, h: Grammar, i: nat, q: Production)
    requires Plain(g) && i < |g.nonTerminals| && Finished(g, i, h.productions)
    requires q in h.productions && q.lhs == g.nonTerminals[i]
    ensures var ps := g.RulesOf(g.nonTerminals[i]);
      || (exists j :: 0 <= j < |ps| && !Shared(ps, j) && q == ps[j])
      || (exists j :: 0 <= j < |ps| && |ps[j].rhs| > 0 && Shared(ps, j) && q == Factor(q.lhs, ps[j].rhs[0]))
  {
    var A := g.nonTerminals[i];
    var ps := g.RulesOf(A);
    assert q in Headed(Elems(h.productions), A);
    PrimeFresh(A);
    assert q !in Rests(A, ps, |ps|);
  }

  /** `A -> a b | a c | d e | d f`: two groups with a shared first symbol. */
  function TwoGroups(): seq<Production> {
    [Production("A", [T("a"), T("b")]), Production("A", [T("a"), T("c")]),
     Production("A", [T("d"), T("e")]), Production("A", [T("d"), T("f")])]
  }

  /** In `TwoGroups`, `A -> a b` and `A -> d e` lead a shared group and the
      others follow them. */
  lemma TwoLeaders(ps: seq<Production>)
    requires ps == TwoGroups()
    ensures Leader(ps, 0) && Shared(ps, 0) && !Leader(ps, 1)
    ensures Leader(ps, 2) && Shared(ps, 2) && !Leader(ps, 3)
  {
    assert SameHead(ps[0], ps[1]) && SameHead(ps[1], ps[0]);
    assert !SameHead(ps[2], ps[0]) && !SameHead(ps[2], ps[1]);
    assert SameHead(ps[2], ps[3]) && SameHead(ps[3], ps[2]);
  }

  /** Factoring one non-terminal with two shared first symbols makes two
      `A'` objects with different productions, and both are named
      `A_prima`: `G.nonTerminals += new_nts` then lists that name twice. */
  lemma TwoPrimes(ps: seq<Production>)
    requires ps == TwoGroups()
    ensures var primes := Primes("A", ps, |ps|);
      && |primes| == 2
      && primes[0].name == primes[1].name == Prime("A")
      && primes[0].prods != primes[1].prods
  {
    TwoLeaders(ps);
    var p0 := Nt(Prime("A"), Tails("A", Group(ps, 0)));
    var p2 := Nt(Prime("A"), Tails("A", Group(ps, 2)));
    PrimesStep("A", ps, 0);
    PrimesStep("A", ps, 1);
    PrimesStep("A", ps, 2);
    PrimesStep("A", ps, 3);
    assert p0.prods[0] == Rest("A", ps[0]) && p2.prods[0] == Rest("A", ps[2]);
  }
}
