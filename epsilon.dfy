/** Removal of ε-productions: the nullable non-terminals, the 0/1 vectors of
    `pot` and the rewritten bodies of `genera`, and the pass that puts them
    together. */
module Epsilon {
  import opened Grammars
  import opened Useless

  // ---------------------------------------------------------------------
  // Nullable non-terminals
  // ---------------------------------------------------------------------

  /** Every symbol of `body` is a non-terminal of `S`; the empty body is one. */
  predicate AllNullable(body: seq<Symbol>, S: set<string>) {
    forall s :: s in body ==> s.N? && s.name in S
  }

  /** `S` is closed under the productions: a body made of members of `S`
      puts its head in `S`. */
  ghost predicate NullClosed(ps: seq<Production>, S: set<string>) {
    forall p :: p in ps && AllNullable(p.rhs, S) ==> p.lhs in S
  }

  /** The nullable non-terminals: the least closed set. */
  ghost function NullSet(ps: seq<Production>): set<string> {
    set x | x in Heads(ps) && forall S :: NullClosed(ps, S) ==> x in S
  }

  lemma NullSetIs(ps: seq<Production>, X: set<string>)
    requires X <= Heads(ps) && NullClosed(ps, X)
    requires forall S :: NullClosed(ps, S) ==> X <= S
    ensures NullSet(ps) == X
  {
  }

  /** The productions with a non-empty body, in order. */
  function NonEpsilon(ps: seq<Production>): (r: seq<Production>)
    ensures forall p :: p in r <==> p in ps && !p.IsEpsilon()
  {
    if ps == [] then [] else NonEpsilon(ps[..|ps| - 1]) + (if ps[|ps| - 1].IsEpsilon() then [] else [ps[|ps| - 1]])
  }

  /** The first part of `without_epsilon_transitions`: `H` is seeded with the
      heads of the ε-productions, the other productions go to `prima`, and `H`
      grows while some body is made of members of `H` only.  `H` may name a
      non-terminal more than once (one entry per ε-production); as a set it is
      exactly the nullable non-terminals. */
  method Nullable(ps: seq<Production>) returns (H: seq<string>, prima: seq<Production>)
    ensures Elems(H) == NullSet(ps)
    ensures prima == NonEpsilon(ps)
  {
    H, prima := NullSeed(ps);
    var change := true;
    while change
      invariant NullSound(ps, H)
      invariant !change ==> NullClosed(ps, Elems(H))
      decreases Heads(ps) - Elems(H), change
    {
      H, change := NullRound(ps, H);
    }
    NullSetIs(ps, Elems(H));
  }

  /** Every member of `H` is a head that every closed set holds. */
  ghost predicate NullSound(ps: seq<Production>, H: seq<string>) {
    forall x :: x in H ==> x in Heads(ps) && forall S :: NullClosed(ps, S) ==> x in S
  }

  /** The first loop: the heads of the ε-productions seed `H`; the others
      make up `prima`. */
  method NullSeed(ps: seq<Production>) returns (H: seq<string>, prima: seq<Production>)
    ensures NullSound(ps, H)
    ensures prima == NonEpsilon(ps)
  {
    H, prima := [], [];
    for i := 0 to |ps|
      invariant NullSound(ps, H)
      invariant prima == NonEpsilon(ps[..i])
    {
      var p := ps[i];
      assert ps[..i + 1][..i] == ps[..i];
      if p.IsEpsilon() {
        EpsilonNull(ps, i);
        H := H + [p.lhs];
      } else {
        prima := prima + [p];
      }
    }
    assert ps[..|ps|] == ps;
  }

  /** The head of an ε-production is in every closed set. */
  lemma EpsilonNull(ps: seq<Production>, i: nat)
    requires i < |ps| && ps[i].IsEpsilon()
    ensures forall S :: NullClosed(ps, S) ==> ps[i].lhs in S
  {
    assert ps[i] in ps && forall S :: AllNullable(ps[i].rhs, S);
  }

  /** One pass of the `while change` loop: a head whose body is made of
      members of `H` joins it; without a change, `H` is closed. */
  method NullRound(ps: seq<Production>, H0: seq<string>) returns (H: seq<string>, change: bool)
    requires NullSound(ps, H0)
    ensures NullSound(ps, H)
    ensures Elems(H0) <= Elems(H) && (change ==> Elems(H0) < Elems(H))
    ensures !change ==> H == H0 && NullClosed(ps, Elems(H))
  {
    H, change := H0, false;
    for i := 0 to |ps|
      invariant NullSound(ps, H)
      invariant Elems(H0) <= Elems(H)
      invariant change ==> Elems(H0) < Elems(H)
      invariant !change ==> H == H0 && forall j :: 0 <= j < i && AllNullable(ps[j].rhs, Elems(H)) ==> ps[j].lhs in H
    {
      var p := ps[i];
      if (forall s :: s in p.rhs ==> s.N? && s.name in H) && p.lhs !in H {
        assert AllNullable(p.rhs, Elems(H));
        assert Elems(H + [p.lhs]) == Elems(H) + {p.lhs};
        H := H + [p.lhs];
        change := true;
      }
    }
  }

  // ---------------------------------------------------------------------
  // `pot`: the 0/1 vectors of a given length
  // ---------------------------------------------------------------------

  function Pow2(k: nat): (r: nat)
    ensures r >= 1
  {
    if k == 0 then 1 else 2 * Pow2(k - 1)
  }

  /** The `k`-digit binary numeral of `n`, most significant digit first, with
      a 1 written `true`. */
  function Bits(n: nat, k: nat): (r: seq<bool>)
    ensures |r| == k
  {
    if k == 0 then [] else Bits(n / 2, k - 1) + [n % 2 == 1]
  }

  /** The number a binary numeral denotes. */
  function Value(v: seq<bool>): (r: nat)
    ensures r < Pow2(|v|)
  {
    if v == [] then 0 else 2 * Value(v[..|v| - 1]) + (if v[|v| - 1] then 1 else 0)
  }

  /** `pot(k)`: for `k = 1` the two one-digit vectors, otherwise each vector of
      `pot(k - 1)` extended by a 0 and then by a 1.  The result lists the
      `k`-digit numerals of 0, 1, ..., 2^k - 1 in order.  For `k = 0` the
      source recurses without end; its callers never ask for it. */
  method Pot(k: nat) returns (resp: seq<seq<bool>>)
    requires k >= 1
    ensures |resp| == Pow2(k)
    ensures forall n :: 0 <= n < |resp| ==> resp[n] == Bits(n, k)
    decreases k
  {
    if k == 1 {
      resp := [[false], [true]];
      return;
    }
    var cp := Pot(k - 1);
    resp := [];
    for i := 0 to |cp|
      invariant |resp| == 2 * i
      invariant forall n :: 0 <= n < 2 * i ==> resp[n] == Bits(n, k)
    {
      assert Bits(2 * i, k) == cp[i] + [false] && Bits(2 * i + 1, k) == cp[i] + [true];
      resp := resp + [cp[i] + [false]] + [cp[i] + [true]];
    }
  }

  /** Every vector of length `k` is the numeral of its value. */
  lemma {:induction false} BitsOfValue(v: seq<bool>)
    ensures Bits(Value(v), |v|) == v
  {
    if v != [] {
      var u := v[..|v| - 1];
      BitsOfValue(u);
      var n := Value(v);
      assert n / 2 == Value(u) && (n % 2 == 1) == v[|v| - 1];
      assert v == u + [v[|v| - 1]];
    }
  }

  /** Distinct numbers below 2^k have distinct numerals. */
  lemma {:induction false} ValueOfBits(n: nat, k: nat)
    requires n < Pow2(k)
    ensures Value(Bits(n, k)) == n
  {
    if k > 0 {
      ValueOfBits(n / 2, k - 1);
      var b := Bits(n, k);
      assert b[..k - 1] == Bits(n / 2, k - 1);
    }
  }

  /** The result of `pot(k)`, as a sequence. */
  function AllBits(k: nat): (r: seq<seq<bool>>)
    ensures |r| == Pow2(k) && forall i :: 0 <= i < |r| ==> |r[i]| == k
  {
    seq(Pow2(k), n requires 0 <= n < Pow2(k) => Bits(n, k))
  }

  /** `pot(k)` holds every vector of length `k`, and each once. */
  lemma PotComplete(k: nat, v: seq<bool>)
    requires |v| == k
    ensures v in AllBits(k)
  {
    BitsOfValue(v);
    assert AllBits(k)[Value(v)] == v;
  }

  lemma PotDistinct(k: nat)
    ensures NoDup(AllBits(k))
  {
    forall i, j | 0 <= i < j < Pow2(k) ensures AllBits(k)[i] != AllBits(k)[j] {
      ValueOfBits(i, k);
      ValueOfBits(j, k);
    }
  }

  // ---------------------------------------------------------------------
  // `genera`: the bodies with marked positions removed
  // ---------------------------------------------------------------------

  /** Every recorded position lies in a body of length `n`. */
  predicate InRange(idx: seq<nat>, n: nat) {
    forall i :: 0 <= i < |idx| ==> idx[i] < n
  }

  /** Positions recorded in increasing order, as `enumerate` yields them for a
      production seen once. */
  predicate Increasing(idx: seq<nat>) {
    forall i, j :: 0 <= i < j < |idx| ==> idx[i] < idx[j]
  }

  /** The locals of `genera`'s inner loop: the body built so far, the first
      position not yet copied and the number of 1 digits read. */
  datatype Scan = Scan(body: seq<Symbol>, last: nat, count: nat)

  /** Reading one digit: a 1 copies the symbols from `last` up to the marked
      position and moves `last` past it; a 0 changes nothing. */
  function ScanStep(rhs: seq<Symbol>, s: Scan, at: nat, bit: bool): (r: Scan)
    requires at < |rhs| && s.last <= |rhs|
    ensures r.last <= |rhs|
  {
    if bit then Scan(s.body + (if s.last <= at then rhs[s.last..at] else []), at + 1, s.count + 1) else s
  }

  /** The locals after reading the first `i` digits of `c`. */
  function ScanTo(rhs: seq<Symbol>, idx: seq<nat>, c: seq<bool>, i: nat): (r: Scan)
    requires i <= |c| <= |idx| && InRange(idx, |rhs|)
    ensures r.last <= |rhs|
  {
    if i == 0 then Scan([], 0, 0) else ScanStep(rhs, ScanTo(rhs, idx, c, i - 1), idx[i - 1], c[i - 1])
  }

  /** The body `genera` builds for the vector `c`. */
  function Rewrite(rhs: seq<Symbol>, idx: seq<nat>, c: seq<bool>): seq<Symbol>
    requires |c| <= |idx| && InRange(idx, |rhs|)
  {
    var s := ScanTo(rhs, idx, c, |c|);
    s.body + rhs[s.last..]
  }

  /** `genera` skips a vector exactly when every digit is a 1 and the body has
      as many symbols as digits. */
  predicate Emits(rhs: seq<Symbol>, idx: seq<nat>, c: seq<bool>)
    requires |c| <= |idx| && InRange(idx, |rhs|)
  {
    !(ScanTo(rhs, idx, c, |c|).count == |c| && |c| == |rhs|)
  }

  predicate Sized(cp: seq<seq<bool>>, k: nat) {
    forall i :: 0 <= i < |cp| ==> |cp[i]| == k
  }

  /** The productions `genera` returns for the vectors `cp`, in order. */
  function GeneraOf(p: Production, idx: seq<nat>, cp: seq<seq<bool>>): (r: seq<Production>)
    requires InRange(idx, |p.rhs|) && Sized(cp, |idx|)
    ensures forall q :: q in r <==>
              exists i :: 0 <= i < |cp| && Emits(p.rhs, idx, cp[i]) && q == Production(p.lhs, Rewrite(p.rhs, idx, cp[i]))
  {
    if cp == [] then []
    else
      var c := cp[|cp| - 1];
      GeneraOf(p, idx, cp[..|cp| - 1]) + (if Emits(p.rhs, idx, c) then [Production(p.lhs, Rewrite(p.rhs, idx, c))] else [])
  }

  /** The `while last < ...` loops of `genera`: copy the symbols from `last`
      up to `to`. */
  method CopyUpTo(rhs: seq<Symbol>, body: seq<Symbol>, last: nat, to: nat) returns (body': seq<Symbol>, last': nat)
    requires to <= |rhs| && last <= |rhs|
    ensures last <= to ==> body' == body + rhs[last..to] && last' == to
    ensures to < last ==> body' == body && last' == last
  {
    body', last' := body, last;
    while last' < to
      invariant last <= last' <= |rhs| && (last' == last || last' <= to)
      invariant last <= to ==> last' <= to
      invariant body' == body + rhs[last..last']
    {
      body' := body' + [rhs[last']];
      last' := last' + 1;
    }
  }

  /** `genera(p, prods, cp)`: for each vector of `cp`, the body of `p` without
      the positions whose digit is 1, unless that would remove every symbol. */
  method Genera(p: Production, idx: seq<nat>, cp: seq<seq<bool>>) returns (out: seq<Production>)
    requires InRange(idx, |p.rhs|) && Sized(cp, |idx|)
    ensures out == GeneraOf(p, idx, cp)
  {
    out := [];
    for j := 0 to |cp|
      invariant out == GeneraOf(p, idx, cp[..j])
    {
      var c := cp[j];
      var last: nat, newp: seq<Symbol>, count: nat := 0, [], 0;
      for i := 0 to |c|
        invariant last <= |p.rhs|
        invariant Scan(newp, last, count) == ScanTo(p.rhs, idx, c, i)
      {
        if c[i] {
          count := count + 1;
          newp, last := CopyUpTo(p.rhs, newp, last, idx[i]);
          last := idx[i] + 1;
        }
      }
      newp, last := CopyUpTo(p.rhs, newp, last, |p.rhs|);
      assert newp == Rewrite(p.rhs, idx, c);
      assert (count == |c| && |c| == |p.rhs|) == !Emits(p.rhs, idx, c);
      assert cp[..j + 1][..j] == cp[..j] && cp[..j + 1][j] == c;
      if !(count == |c| && |c| == |p.rhs|) {
        out := out + [Production(p.lhs, newp)];
      }
    }
    assert cp[..|cp|] == cp;
  }

  // ---------------------------------------------------------------------
  // What `genera` computes: erasing a set of positions
  // ---------------------------------------------------------------------

  /** The symbols of `rhs[..n]` whose positions are not in `D`, in order. */
  function EraseTo(rhs: seq<Symbol>, D: set<nat>, n: nat): (r: seq<Symbol>)
    requires n <= |rhs|
    ensures |r| <= n
  {
    if n == 0 then [] else EraseTo(rhs, D, n - 1) + (if n - 1 in D then [] else [rhs[n - 1]])
  }

  function Erase(rhs: seq<Symbol>, D: set<nat>): seq<Symbol> {
    EraseTo(rhs, D, |rhs|)
  }

  /** The positions marked by the 1 digits among the first `i` digits. */
  function Chosen(idx: seq<nat>, c: seq<bool>, i: nat): set<nat>
    requires i <= |c| <= |idx|
  {
    set j | 0 <= j < i && c[j] :: idx[j]
  }

  lemma {:induction false} EraseRange(rhs: seq<Symbol>, D: set<nat>, a: nat, b: nat)
    requires a <= b <= |rhs|
    requires forall j :: a <= j < b ==> j !in D
    ensures EraseTo(rhs, D, b) == EraseTo(rhs, D, a) + rhs[a..b]
  {
    if a < b {
      EraseRange(rhs, D, a, b - 1);
      assert rhs[a..b] == rhs[a..b - 1] + [rhs[b - 1]];
    }
  }

  lemma {:induction false} EraseAgree(rhs: seq<Symbol>, D1: set<nat>, D2: set<nat>, n: nat)
    requires n <= |rhs|
    requires forall j :: 0 <= j < n ==> (j in D1 <==> j in D2)
    ensures EraseTo(rhs, D1, n) == EraseTo(rhs, D2, n)
  {
    if n > 0 {
      EraseAgree(rhs, D1, D2, n - 1);
    }
  }

  /** Erasing keeps a symbol iff its position is not erased, so the result is
      empty iff every position is erased. */
  lemma {:induction false} EraseEmpty(rhs: seq<Symbol>, D: set<nat>, n: nat)
    requires n <= |rhs|
    ensures EraseTo(rhs, D, n) == [] <==> forall j :: 0 <= j < n ==> j in D
  {
    if n > 0 {
      EraseEmpty(rhs, D, n - 1);
    }
  }

  /** After `i` digits, the body built is `rhs[..last]` without the marked
      positions, every marked position lies before `last`, and `last` lies at
      or before every position still to be read. */
  lemma {:induction false} ScanErases(rhs: seq<Symbol>, idx: seq<nat>, c: seq<bool>, i: nat)
    requires Increasing(idx) && InRange(idx, |rhs|) && |c| == |idx| && i <= |c|
    ensures ScanTo(rhs, idx, c, i).body == EraseTo(rhs, Chosen(idx, c, i), ScanTo(rhs, idx, c, i).last)
    ensures forall j :: j in Chosen(idx, c, i) ==> j < ScanTo(rhs, idx, c, i).last
    ensures forall m :: i <= m < |c| ==> ScanTo(rhs, idx, c, i).last <= idx[m]
  {
    if i > 0 {
      ScanErases(rhs, idx, c, i - 1);
      var s, at := ScanTo(rhs, idx, c, i - 1), idx[i - 1];
      var C0, C := Chosen(idx, c, i - 1), Chosen(idx, c, i);
      if c[i - 1] {
        assert C == C0 + {at};
        EraseAgree(rhs, C, C0, s.last);
        EraseRange(rhs, C, s.last, at);
      } else {
        assert C == C0;
      }
    }
  }

  /** The body `genera` builds is `rhs` without the marked positions. */
  lemma RewriteErases(rhs: seq<Symbol>, idx: seq<nat>, c: seq<bool>)
    requires Increasing(idx) && InRange(idx, |rhs|) && |c| == |idx|
    ensures Rewrite(rhs, idx, c) == Erase(rhs, Chosen(idx, c, |c|))
  {
    var s := ScanTo(rhs, idx, c, |c|);
    ScanErases(rhs, idx, c, |c|);
    EraseRange(rhs, Chosen(idx, c, |c|), s.last, |rhs|);
  }

  lemma {:induction false} ScanCount(rhs: seq<Symbol>, idx: seq<nat>, c: seq<bool>, i: nat)
    requires i <= |c| <= |idx| && InRange(idx, |rhs|)
    ensures ScanTo(rhs, idx, c, i).count <= i
    ensures ScanTo(rhs, idx, c, i).count == i <==> forall j :: 0 <= j < i ==> c[j]
  {
    if i > 0 {
      ScanCount(rhs, idx, c, i - 1);
    }
  }

  lemma {:induction false} IncreasingAbove(idx: seq<nat>, j: nat)
    requires Increasing(idx) && j < |idx|
    ensures idx[j] >= j
  {
    if j > 0 {
      IncreasingAbove(idx, j - 1);
    }
  }

  lemma {:induction false} IncreasingBelow(idx: seq<nat>, n: nat, j: nat)
    requires Increasing(idx) && InRange(idx, n) && j < |idx|
    ensures idx[j] + |idx| - j <= n
    decreases |idx| - j
  {
    if j + 1 < |idx| {
      IncreasingBelow(idx, n, j + 1);
    }
  }

  /** Fewer increasing positions than symbols leave some position out. */
  lemma {:induction false} Gap(idx: seq<nat>, n: nat, j: nat) returns (m: nat)
    requires Increasing(idx) && |idx| < n && j <= |idx|
    requires forall i :: 0 <= i < j ==> idx[i] == i
    ensures m < n && m !in idx
    decreases |idx| - j
  {
    if j == |idx| {
      m := j;
    } else if idx[j] != j {
      IncreasingAbove(idx, j);
      m := j;
      forall i | j < i < |idx| ensures idx[i] != m {
        assert idx[j] < idx[i];
      }
    } else {
      m := Gap(idx, n, j + 1);
    }
  }

  /** `genera` emits a body iff it is not empty: it never emits an empty body
      and drops no non-empty one. */
  lemma EmitsIff(rhs: seq<Symbol>, idx: seq<nat>, c: seq<bool>)
    requires Increasing(idx) && InRange(idx, |rhs|) && |c| == |idx|
    ensures Emits(rhs, idx, c) <==> Erase(rhs, Chosen(idx, c, |c|)) != []
  {
    var C := Chosen(idx, c, |c|);
    ScanCount(rhs, idx, c, |c|);
    EraseEmpty(rhs, C, |rhs|);
    if |idx| > 0 {
      IncreasingBelow(idx, |rhs|, 0);
    }
    if forall j :: 0 <= j < |c| ==> c[j] {
      if |c| == |rhs| {
        forall j | 0 <= j < |rhs| ensures j in C {
          IncreasingAbove(idx, j);
          IncreasingBelow(idx, |rhs|, j);
        }
      } else {
        var m := Gap(idx, |rhs|, 0);
        assert m !in C;
      }
    } else {
      var j :| 0 <= j < |c| && !c[j];
      assert idx[j] !in C;
    }
  }

  /** Every production `genera` emits from a vector of `pot` is the body with
      some nullable positions removed, and is not empty. */
  lemma GeneraSound(p: Production, idx: seq<nat>, cp: seq<seq<bool>>, q: Production)
    requires Increasing(idx) && InRange(idx, |p.rhs|) && Sized(cp, |idx|)
    requires q in GeneraOf(p, idx, cp)
    ensures exists D :: D <= Elems(idx) && q == Production(p.lhs, Erase(p.rhs, D)) && q.rhs != []
  {
    var i :| 0 <= i < |cp| && Emits(p.rhs, idx, cp[i]) && q == Production(p.lhs, Rewrite(p.rhs, idx, cp[i]));
    RewriteErases(p.rhs, idx, cp[i]);
    EmitsIff(p.rhs, idx, cp[i]);
    assert Chosen(idx, cp[i], |cp[i]|) <= Elems(idx);
  }

  /** Conversely, removing any set of recorded positions that leaves a
      non-empty body gives a production `genera` emits from `pot(|idx|)`. */
  lemma GeneraComplete(p: Production, idx: seq<nat>, D: set<nat>)
    requires Increasing(idx) && InRange(idx, |p.rhs|)
    requires D <= Elems(idx) && Erase(p.rhs, D) != []
    ensures Production(p.lhs, Erase(p.rhs, D)) in GeneraOf(p, idx, AllBits(|idx|))
  {
    var c := seq(|idx|, i requires 0 <= i < |idx| => idx[i] in D);
    assert Chosen(idx, c, |c|) == D by {
      forall x | x in D ensures x in Chosen(idx, c, |c|) {
        var i :| 0 <= i < |idx| && idx[i] == x;
        assert c[i];
      }
    }
    PotComplete(|idx|, c);
    var n :| 0 <= n < |AllBits(|idx|)| && AllBits(|idx|)[n] == c;
    RewriteErases(p.rhs, idx, c);
    EmitsIff(p.rhs, idx, c);
  }

  // ---------------------------------------------------------------------
  // The dictionary `prods` and the pass
  // ---------------------------------------------------------------------

  /** The positions of `rhs[..n]` holding a nullable non-terminal, in order. */
  function Positions(rhs: seq<Symbol>, H: set<string>, n: nat): seq<nat>
    requires n <= |rhs|
  {
    if n == 0 then [] else Positions(rhs, H, n - 1) + (if rhs[n - 1].N? && rhs[n - 1].name in H then [n - 1] else [])
  }

  lemma {:induction false} PositionsFacts(rhs: seq<Symbol>, H: set<string>, n: nat)
    requires n <= |rhs|
    ensures Increasing(Positions(rhs, H, n)) && InRange(Positions(rhs, H, n), n)
    ensures forall j :: j in Positions(rhs, H, n) <==> 0 <= j < n && rhs[j].N? && rhs[j].name in H
  {
    if n > 0 {
      PositionsFacts(rhs, H, n - 1);
    }
  }

  /** The nullable positions of a body, as a set. */
  function NullPos(rhs: seq<Symbol>, H: set<string>): set<nat> {
    set j | 0 <= j < |rhs| && rhs[j].N? && rhs[j].name in H
  }

  /** The dictionary `prods` (its keys in insertion order and its values) and
      the list `other_productions`. */
  datatype Index = Index(keys: seq<Production>, idx: map<Production, seq<nat>>, others: seq<Production>)

  /** `prods` and `other_productions` after the productions `prima`: a
      production with a nullable position becomes a key the first time it is
      seen; every later occurrence appends its positions again and also goes
      to `other_productions`, as does a production without one. */
  function IndexOf(prima: seq<Production>, H: set<string>): (r: Index)
    ensures IndexOk(r)
    ensures forall p :: p in prima <==> p in r.keys || p in r.others
  {
    if prima == [] then Index([], map[], [])
    else
      var x := IndexOf(prima[..|prima| - 1], H);
      var p := prima[|prima| - 1];
      assert forall q :: q in prima <==> q in prima[..|prima| - 1] || q == p;
      IndexStep(x, p, H)
  }

  /** `prods` keeps its keys once each, in insertion order, and every entry
      lists positions of its production's body. */
  predicate IndexOk(x: Index) {
    && NoDup(x.keys) && Elems(x.keys) == x.idx.Keys
    && forall p :: p in x.idx ==> x.idx[p] != [] && InRange(x.idx[p], |p.rhs|)
  }

  /** One production's entry in `prods`: `IndexOf` extended by `p`. */
  function IndexStep(x: Index, p: Production, H: set<string>): (r: Index)
    requires IndexOk(x)
    ensures IndexOk(r)
    ensures forall q :: q in r.keys || q in r.others <==> q in x.keys || q in x.others || q == p
  {
    var pos := Positions(p.rhs, H, |p.rhs|);
    PositionsFacts(p.rhs, H, |p.rhs|);
    if pos == [] then Index(x.keys, x.idx, x.others + [p])
    else if p in x.idx then
      assert InRange(x.idx[p] + pos, |p.rhs|);
      Index(x.keys, Entry(x.idx, p, pos), x.others + [p])
    else
      assert Elems(x.keys + [p]) == Elems(x.keys) + {p};
      Index(x.keys + [p], Entry(x.idx, p, pos), x.others)
  }

  lemma IndexOfStep(prima: seq<Production>, k: nat, H: set<string>)
    requires k < |prima|
    ensures IndexOf(prima[..k + 1], H) == IndexStep(IndexOf(prima[..k], H), prima[k], H)
  {
    assert prima[..k + 1][..k] == prima[..k];
  }

  /** The entry of `p` after recording the positions `pos`. */
  function Entry(idx0: map<Production, seq<nat>>, p: Production, pos: seq<nat>): map<Production, seq<nat>> {
    if pos == [] then idx0 else idx0[p := (if p in idx0 then idx0[p] else []) + pos]
  }

  lemma EntryStep(idx0: map<Production, seq<nat>>, p: Production, pos: seq<nat>, i: nat)
    ensures var idx := Entry(idx0, p, pos);
            Entry(idx0, p, pos + [i]) == if p in idx then idx[p := idx[p] + [i]] else idx[p := [i]]
  {
    var before := if p in idx0 then idx0[p] else [];
    if pos != [] {
      assert (before + pos) + [i] == before + (pos + [i]);
      assert idx0[p := before + pos][p := before + pos + [i]] == idx0[p := before + (pos + [i])];
    } else {
      assert pos + [i] == [i] && before + [i] == (if p in idx0 then idx0[p] + [i] else [i]);
    }
  }

  /** The inner loop over `enumerate(p.Right)`: each nullable position is
      appended to the entry of `p`, which is created (and `check` set) the
      first time. */
  method RecordPositions(p: Production, H: seq<string>, keys0: seq<Production>, idx0: map<Production, seq<nat>>)
    returns (keys: seq<Production>, idx: map<Production, seq<nat>>, check: bool)
    ensures var pos := Positions(p.rhs, Elems(H), |p.rhs|);
            && (check <==> p !in idx0 && pos != [])
            && keys == keys0 + (if check then [p] else [])
            && idx == Entry(idx0, p, pos)
  {
    keys, idx, check := keys0, idx0, false;
    for i := 0 to |p.rhs|
      invariant check <==> p !in idx0 && Positions(p.rhs, Elems(H), i) != []
      invariant keys == keys0 + (if check then [p] else [])
      invariant idx == Entry(idx0, p, Positions(p.rhs, Elems(H), i))
    {
      ghost var pos := Positions(p.rhs, Elems(H), i);
      var symbol := p.rhs[i];
      assert (symbol.N? && symbol.name in H) == (symbol.N? && symbol.name in Elems(H));
      if symbol.N? && symbol.name in H {
        assert Positions(p.rhs, Elems(H), i + 1) == pos + [i];
        EntryStep(idx0, p, pos, i);
        if p in idx {
          idx := idx[p := idx[p] + [i]];
        } else {
          idx := idx[p := [i]];
          keys := keys + [p];
          check := true;
        }
      } else {
        assert Positions(p.rhs, Elems(H), i + 1) == pos;
      }
    }
  }

  /** The loop of `without_epsilon_transitions` that fills `prods`. */
  method IndexNullable(prima: seq<Production>, H: seq<string>)
    returns (keys: seq<Production>, idx: map<Production, seq<nat>>, others: seq<Production>)
    ensures Index(keys, idx, others) == IndexOf(prima, Elems(H))
  {
    keys, idx, others := [], map[], [];
    for k := 0 to |prima|
      invariant Index(keys, idx, others) == IndexOf(prima[..k], Elems(H))
    {
      var p := prima[k];
      var check;
      IndexOfStep(prima, k, Elems(H));
      ghost var x := Index(keys, idx, others);
      keys, idx, check := RecordPositions(p, H, keys, idx);
      if !check {
        others := others + [p];
      }
      assert Index(keys, idx, others) == IndexStep(x, p, Elems(H));
    }
    assert prima[..|prima|] == prima;
  }

  /** The productions `genera` returns for the keys, one after the other. */
  function Generated(keys: seq<Production>, idx: map<Production, seq<nat>>): (r: seq<Production>)
    requires forall p :: p in keys ==> p in idx && InRange(idx[p], |p.rhs|)
    ensures forall q :: q in r <==> exists p :: p in keys && q in GeneraOf(p, idx[p], AllBits(|idx[p]|))
  {
    if keys == [] then []
    else
      var p := keys[|keys| - 1];
      assert forall q :: q in keys <==> q in keys[..|keys| - 1] || q == p;
      Generated(keys[..|keys| - 1], idx) + GeneraOf(p, idx[p], AllBits(|idx[p]|))
  }

  /** `nt_ready`: the heads of `ps` in order of first occurrence. */
  function FirstHeads(ps: seq<Production>): (r: seq<string>)
    ensures NoDup(r) && Elems(r) == Heads(ps)
  {
    if ps == [] then []
    else
      var h := FirstHeads(ps[..|ps| - 1]);
      var a := ps[|ps| - 1].lhs;
      assert Heads(ps) == Heads(ps[..|ps| - 1]) + {a} by {
        assert forall q :: q in ps <==> q in ps[..|ps| - 1] || q == ps[|ps| - 1];
      }
      if a in h then h else h + [a]
  }

  /** The production lists after the pass: each non-terminal of `ready` has
      the productions of `fin` it heads, in order; the others keep theirs. */
  function ReadyRules(rules: map<string, seq<Production>>, ready: seq<string>, fin: seq<Production>): map<string, seq<Production>> {
    map a | a in rules.Keys + Elems(ready) :: if a in ready then WithHead(fin, a) else rules[a]
  }

  /** What `without_epsilon_transitions(g)` returns, given the nullable set. */
  ghost function EpsilonResult(g: Grammar): (Grammar, bool) {
    var N := NullSet(g.productions);
    if N == {} then (g, false)
    else
      var x := IndexOf(NonEpsilon(g.productions), N);
      var fin := Generated(x.keys, x.idx) + x.others;
      var ready := FirstHeads(x.keys + x.others);
      (Grammar(ready, g.terminals, fin, ReadyRules(g.rules, ready, fin), g.start), g.start in N)
  }

  lemma WithHeadExtend(fin: seq<Production>, h: string, news: seq<Production>, a: string)
    requires forall q :: q in news ==> q.lhs == h
    ensures WithHead(fin + news, a) == WithHead(fin, a) + (if a == h then news else [])
  {
    WithHeadConcat(fin, news, a);
    WithHeadAll(news, h, a);
  }

  /** Appending productions headed by a non-terminal `h` of `ready` to `fin`:
      the list of `h` grows by them and no other list changes. */
  lemma ReadyRulesGrow(rules: map<string, seq<Production>>, ready: seq<string>, fin: seq<Production>,
                       h: string, news: seq<Production>)
    requires forall q :: q in news ==> q.lhs == h
    requires h in ready
    ensures ReadyRules(rules, ready, fin + news)
         == ReadyRules(rules, ready, fin)[h := ReadyRules(rules, ready, fin)[h] + news]
  {
    var A, M := ReadyRules(rules, ready, fin + news), ReadyRules(rules, ready, fin);
    var B := M[h := M[h] + news];
    assert A.Keys == B.Keys;
    forall a | a in A ensures A[a] == B[a] {
      WithHeadExtend(fin, h, news, a);
    }
  }

  /** Appending productions headed by a new non-terminal `h`: `h` joins
      `ready` with exactly those productions. */
  lemma ReadyRulesNew(rules: map<string, seq<Production>>, ready: seq<string>, fin: seq<Production>,
                      h: string, news: seq<Production>)
    requires forall q :: q in news ==> q.lhs == h
    requires forall q :: q in fin ==> q.lhs in ready
    requires h !in ready
    ensures ReadyRules(rules, ready + [h], fin + news) == ReadyRules(rules, ready, fin)[h := news]
  {
    var A, M := ReadyRules(rules, ready + [h], fin + news), ReadyRules(rules, ready, fin);
    var B := M[h := news];
    assert Elems(ready + [h]) == Elems(ready) + {h};
    assert A.Keys == B.Keys;
    forall a | a in A ensures A[a] == B[a] {
      WithHeadExtend(fin, h, news, a);
      if a == h {
        assert forall q :: q in fin ==> q.lhs != h;
        NoHead(fin, h);
      }
    }
  }

  /** `without_epsilon_transitions`: when no non-terminal is nullable the
      input grammar comes back with `False`.  Otherwise every key of `prods`
      is replaced by the productions `genera` makes from it, each other
      production is kept, the non-terminals become the heads of those
      productions in order of first appearance, each with its productions
      from the new list, and the flag says whether the start is nullable. */
  method WithoutEpsilonTransitions(g: Grammar) returns (r: Grammar, emptyWord: bool)
    ensures (r, emptyWord) == EpsilonResult(g)
  {
    var H, prima := Nullable(g.productions);
    if |H| == 0 {
      assert Elems(H) == {};
      return g, false;
    }
    assert Elems(H) != {} by { assert H[0] in Elems(H); }
    var keys, idx, others := IndexNullable(prima, H);
    var final, ready, rules := GenerateKeys(keys, idx, g.rules);
    final, ready, rules := AddOthers(keys, others, g.rules, final, ready, rules);
    r := Grammar(ready, g.terminals, final, rules, g.start);
    emptyWord := g.start in H;
  }

  /** The loop over the keys of `prods`: `genera` on each, its productions
      appended to `final_productions` and to the list of its head, which
      joins `nt_ready` the first time. */
  method GenerateKeys(keys: seq<Production>, idx: map<Production, seq<nat>>, R: map<string, seq<Production>>)
    returns (final: seq<Production>, ready: seq<string>, rules: map<string, seq<Production>>)
    requires forall p :: p in keys ==> p in idx && idx[p] != [] && InRange(idx[p], |p.rhs|)
    ensures final == Generated(keys, idx)
    ensures ready == FirstHeads(keys)
    ensures rules == ReadyRules(R, ready, final)
    ensures forall q :: q in final ==> q.lhs in ready
  {
    final, ready, rules := [], [], R;
    for k := 0 to |keys|
      invariant final == Generated(keys[..k], idx)
      invariant ready == FirstHeads(keys[..k])
      invariant rules == ReadyRules(R, ready, final)
      invariant forall q :: q in final ==> q.lhs in ready
    {
      var p := keys[k];
      var cp := Pot(|idx[p]|);
      assert cp == AllBits(|idx[p]|);
      var news := Genera(p, idx[p], cp);
      assert keys[..k + 1][..k] == keys[..k] && keys[..k + 1][k] == p;
      if p.lhs !in ready {
        ReadyRulesNew(R, ready, final, p.lhs, news);
        ready := ready + [p.lhs];
        rules := rules[p.lhs := news];
      } else {
        ReadyRulesGrow(R, ready, final, p.lhs, news);
        rules := rules[p.lhs := rules[p.lhs] + news];
      }
      final := final + news;
    }
    assert keys[..|keys|] == keys;
  }

  /** The loop over `other_productions`: each is appended to
      `final_productions` and to the list of its head; a head not yet in
      `nt_ready` joins it with an emptied list first. */
  lemma UpdateTwice<K, V>(m: map<K, V>, k: K, a: V, b: V)
    ensures m[k := a][k := b] == m[k := b]
  {
  }

  lemma OthersStep(keys: seq<Production>, others: seq<Production>, k: nat)
    requires k < |others|
    ensures others[..k + 1] == others[..k] + [others[k]]
    ensures FirstHeads(keys + others[..k + 1])
         == var h := FirstHeads(keys + others[..k]);
            if others[k].lhs in h then h else h + [others[k].lhs]
  {
    assert (keys + others[..k + 1])[..|keys| + k] == keys + others[..k];
  }

  method AddOthers(keys: seq<Production>, others: seq<Production>, R: map<string, seq<Production>>,
                   final0: seq<Production>, ready0: seq<string>, rules0: map<string, seq<Production>>)
    returns (final: seq<Production>, ready: seq<string>, rules: map<string, seq<Production>>)
    requires ready0 == FirstHeads(keys)
    requires rules0 == ReadyRules(R, ready0, final0)
    requires forall q :: q in final0 ==> q.lhs in ready0
    ensures final == final0 + others
    ensures ready == FirstHeads(keys + others)
    ensures rules == ReadyRules(R, ready, final)
  {
    final, ready, rules := final0, ready0, rules0;
    assert keys + others[..0] == keys && final0 + others[..0] == final0;
    for k := 0 to |others|
      invariant Adding(keys, others, R, final0, k, final, ready, rules)
    {
      final, ready, rules := AddNext(keys, others, R, final0, k, final, ready, rules);
    }
    assert others[..|others|] == others;
  }

  /** The invariant of the loop over `other_productions` after `k` of them. */
  ghost predicate Adding(keys: seq<Production>, others: seq<Production>, R: map<string, seq<Production>>,
                         final0: seq<Production>, k: nat, final: seq<Production>, ready: seq<string>,
                         rules: map<string, seq<Production>>) {
    && k <= |others|
    && final == final0 + others[..k]
    && ready == FirstHeads(keys + others[..k])
    && rules == ReadyRules(R, ready, final)
    && forall q :: q in final ==> q.lhs in ready
  }

  /** One turn of that loop. */
  method AddNext(keys: seq<Production>, others: seq<Production>, R: map<string, seq<Production>>,
                 final0: seq<Production>, k: nat, final1: seq<Production>, ready1: seq<string>,
                 rules1: map<string, seq<Production>>)
    returns (final: seq<Production>, ready: seq<string>, rules: map<string, seq<Production>>)
    requires k < |others| && Adding(keys, others, R, final0, k, final1, ready1, rules1)
    ensures Adding(keys, others, R, final0, k + 1, final, ready, rules)
  {
    OthersStep(keys, others, k);
    assert final0 + others[..k + 1] == final0 + others[..k] + [others[k]];
    final, ready, rules := AddOther(others[k], R, final1, ready1, rules1);
  }

  /** One production of `other_productions`. */
  method AddOther(p: Production, R: map<string, seq<Production>>,
                  final0: seq<Production>, ready0: seq<string>, rules0: map<string, seq<Production>>)
    returns (final: seq<Production>, ready: seq<string>, rules: map<string, seq<Production>>)
    requires rules0 == ReadyRules(R, ready0, final0)
    requires forall q :: q in final0 ==> q.lhs in ready0
    ensures final == final0 + [p]
    ensures ready == if p.lhs in ready0 then ready0 else ready0 + [p.lhs]
    ensures rules == ReadyRules(R, ready, final)
    ensures forall q :: q in final ==> q.lhs in ready
  {
    final, ready, rules := final0, ready0, rules0;
    if p.lhs !in ready {
      ReadyRulesNew(R, ready, final, p.lhs, [p]);
      rules := rules[p.lhs := []];
      ready := ready + [p.lhs];
      assert rules[p.lhs] + [p] == [p];
      UpdateTwice(rules0, p.lhs, [], [p]);
    } else {
      ReadyRulesGrow(R, ready, final, p.lhs, [p]);
    }
    rules := rules[p.lhs := rules[p.lhs] + [p]];
    final := final + [p];
  }

  // ---------------------------------------------------------------------
  // What the pass produces
  // ---------------------------------------------------------------------

  lemma NullSetClosed(ps: seq<Production>)
    ensures NullClosed(ps, NullSet(ps))
  {
    forall p | p in ps && AllNullable(p.rhs, NullSet(ps)) ensures p.lhs in NullSet(ps) {
      assert p.lhs in Heads(ps);
    }
  }

  lemma {:induction false} NonEpsilonNoDup(ps: seq<Production>)
    requires NoDup(ps)
    ensures NoDup(NonEpsilon(ps))
  {
    if ps != [] {
      var init := ps[..|ps| - 1];
      NonEpsilonNoDup(init);
      assert ps[|ps| - 1] !in init;
    }
  }

  lemma {:induction false} EraseNone(rhs: seq<Symbol>, n: nat)
    requires n <= |rhs|
    ensures EraseTo(rhs, {}, n) == rhs[..n]
  {
    if n > 0 {
      EraseNone(rhs, n - 1);
      assert rhs[..n] == rhs[..n - 1] + [rhs[n - 1]];
    }
  }

  /** For productions listed once, `prods` has one key per production with
      a nullable position, recorded once and in order, and
      `other_productions` holds exactly the productions without one. */
  lemma {:induction false} IndexClean(prima: seq<Production>, H: set<string>)
    requires NoDup(prima)
    ensures var x := IndexOf(prima, H);
            forall p :: p in x.keys ==> x.idx[p] == Positions(p.rhs, H, |p.rhs|)
    ensures var x := IndexOf(prima, H);
            forall p :: p in x.keys <==> p in prima && Positions(p.rhs, H, |p.rhs|) != []
    ensures var x := IndexOf(prima, H);
            forall p :: p in x.others <==> p in prima && Positions(p.rhs, H, |p.rhs|) == []
  {
    if prima != [] {
      var init, p := prima[..|prima| - 1], prima[|prima| - 1];
      IndexClean(init, H);
      assert p !in init;
      var x := IndexOf(init, H);
      assert p !in x.idx;
      assert forall q :: q in prima <==> q in init || q == p;
    }
  }

  /** `q` is a non-empty body of `g` with some nullable positions removed. */
  ghost predicate Derived(g: Grammar, q: Production) {
    exists p, D :: && p in g.productions && !p.IsEpsilon()
                   && D <= NullPos(p.rhs, NullSet(g.productions))
                   && q == Production(p.lhs, Erase(p.rhs, D)) && q.rhs != []
  }

  /** A non-empty body of the input is derived with nothing removed. */
  lemma DerivedSelf(g: Grammar, q: Production)
    requires q in g.productions && !q.IsEpsilon()
    ensures Derived(g, q)
  {
    EraseNone(q.rhs, |q.rhs|);
    assert q.rhs[..|q.rhs|] == q.rhs;
    assert q == Production(q.lhs, Erase(q.rhs, {}));
  }

  /** Every production of the result is a non-empty body of the input with
      some nullable positions removed: no ε-production is left. */
  lemma EpsilonSound(g: Grammar, q: Production)
    requires NoDup(g.productions)
    requires q in EpsilonResult(g).0.productions
    ensures Derived(g, q)
  {
    var N := NullSet(g.productions);
    if N == {} {
      NullSetClosed(g.productions);
      DerivedSelf(g, q);
    } else {
      var prima := NonEpsilon(g.productions);
      NonEpsilonNoDup(g.productions);
      IndexClean(prima, N);
      var x := IndexOf(prima, N);
      if q in x.others {
        DerivedSelf(g, q);
      } else {
        assert q in Generated(x.keys, x.idx);
        var p :| p in x.keys && q in GeneraOf(p, x.idx[p], AllBits(|x.idx[p]|));
        DerivedGenerated(g, p, x.idx[p], q);
      }
    }
  }

  lemma DerivedGenerated(g: Grammar, p: Production, pos: seq<nat>, q: Production)
    requires p in g.productions && !p.IsEpsilon()
    requires pos == Positions(p.rhs, NullSet(g.productions), |p.rhs|) && InRange(pos, |p.rhs|)
    requires q in GeneraOf(p, pos, AllBits(|pos|))
    ensures Derived(g, q)
  {
    PositionsFacts(p.rhs, NullSet(g.productions), |p.rhs|);
    GeneraSound(p, pos, AllBits(|pos|), q);
    var D :| D <= Elems(pos) && q == Production(p.lhs, Erase(p.rhs, D)) && q.rhs != [];
    assert D <= NullPos(p.rhs, NullSet(g.productions));
  }

  /** Conversely, every non-empty body of the input with any set of nullable
      positions removed, as long as something is left, is a production of
      the result. */
  lemma EpsilonComplete(g: Grammar, p: Production, D: set<nat>)
    requires NoDup(g.productions)
    requires p in g.productions && !p.IsEpsilon()
    requires D <= NullPos(p.rhs, NullSet(g.productions)) && Erase(p.rhs, D) != []
    ensures Production(p.lhs, Erase(p.rhs, D)) in EpsilonResult(g).0.productions
  {
    var N := NullSet(g.productions);
    PositionsFacts(p.rhs, N, |p.rhs|);
    var pos := Positions(p.rhs, N, |p.rhs|);
    if N == {} || pos == [] {
      assert D == {};
      EraseNone(p.rhs, |p.rhs|);
      assert p.rhs[..|p.rhs|] == p.rhs;
      if N != {} {
        NonEpsilonNoDup(g.productions);
        IndexClean(NonEpsilon(g.productions), N);
      }
    } else {
      var prima := NonEpsilon(g.productions);
      NonEpsilonNoDup(g.productions);
      IndexClean(prima, N);
      var x := IndexOf(prima, N);
      assert p in x.keys && x.idx[p] == pos;
      GeneraComplete(p, pos, D);
    }
  }

  /** The non-terminal list of the result names each head of a non-empty
      body of the input once, and the list of each agrees with the new
      production list. */
  lemma EpsilonLists(g: Grammar)
    requires NullSet(g.productions) != {}
    ensures var r := EpsilonResult(g).0;
            && NoDup(r.nonTerminals) && Elems(r.nonTerminals) == Heads(NonEpsilon(g.productions))
            && Consistent(r)
  {
    var x := IndexOf(NonEpsilon(g.productions), NullSet(g.productions));
    assert Heads(x.keys + x.others) == Heads(NonEpsilon(g.productions)) by {
      forall a ensures a in Heads(x.keys + x.others) <==> a in Heads(NonEpsilon(g.productions)) {
        if a in Heads(NonEpsilon(g.productions)) {
          var p :| p in NonEpsilon(g.productions) && p.lhs == a;
          assert p in x.keys + x.others;
        }
      }
    }
  }
}
