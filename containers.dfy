/** The monotone symbol container every fixpoint of the analyser is built on:
    a set of symbols plus a separate "contains epsilon" marker.  `Update` and
    `HardUpdate` report whether anything changed, which is the only signal the
    fixpoint loops stop on.  The facts machinery below measures how much room a
    family of containers still has to grow, which is what makes those loops
    terminate. */
module Containers {
  import opened Grammars

  datatype FSet = FSet(items: set<Symbol>, eps: bool)

  const Empty: FSet := FSet({}, false)

  /** `a` is included in `b`, the marker included. */
  predicate Sub(a: FSet, b: FSet) {
    a.items <= b.items && (a.eps ==> b.eps)
  }

  /** `update`: adds the symbols of `b` (not its marker) and reports whether
      the container changed. */
  function Update(a: FSet, b: FSet): (r: (FSet, bool))
    ensures r.0.items == a.items + b.items && r.0.eps == a.eps
    ensures r.1 <==> r.0 != a
  {
    (FSet(a.items + b.items, a.eps), !(b.items <= a.items))
  }

  /** `hard_update`: adds the symbols and the marker of `b` and reports whether
      the container changed. */
  function HardUpdate(a: FSet, b: FSet): (r: (FSet, bool))
    ensures Sub(a, r.0) && Sub(b, r.0)
    ensures forall c :: Sub(a, c) && Sub(b, c) ==> Sub(r.0, c)
    ensures r.1 <==> r.0 != a
  {
    (FSet(a.items + b.items, a.eps || b.eps), !(b.items <= a.items) || (b.eps && !a.eps))
  }

  /** One piece of information a family of containers can hold. */
  datatype Fact<K> = Has(key: K, sym: Symbol) | Nullable(key: K)

  ghost function Facts<K>(m: map<K, FSet>): set<Fact<K>> {
    (set k, x | k in m && x in m[k].items :: Has(k, x)) + (set k | k in m && m[k].eps :: Nullable(k))
  }

  /** Every fact a family keyed within `keys` over symbols within `syms` can hold. */
  ghost function Universe<K>(keys: set<K>, syms: set<Symbol>): set<Fact<K>> {
    (set k, x | k in keys && x in syms :: Has(k, x)) + (set k | k in keys :: Nullable(k))
  }

  /** What the family can still learn: decreases strictly while it grows. */
  ghost function Room<K>(m: map<K, FSet>, keys: set<K>, syms: set<Symbol>): set<Fact<K>> {
    Universe(keys, syms) - Facts(m)
  }

  ghost predicate Bounded<K>(m: map<K, FSet>, keys: set<K>, syms: set<Symbol>) {
    m.Keys <= keys && forall k :: k in m ==> m[k].items <= syms
  }

  /** Pointwise inclusion: every container of `m` is included in its
      counterpart in `m'`. */
  ghost predicate Below<K>(m: map<K, FSet>, m': map<K, FSet>) {
    m.Keys <= m'.Keys && forall k :: k in m ==> Sub(m[k], m'[k])
  }

  lemma BelowRefl<K>(m: map<K, FSet>)
    ensures Below(m, m)
  {
  }

  lemma BelowTrans<K>(a: map<K, FSet>, b: map<K, FSet>, c: map<K, FSet>)
    requires Below(a, b) && Below(b, c)
    ensures Below(a, c)
  {
  }

  lemma FactsMonotone<K>(m: map<K, FSet>, m': map<K, FSet>)
    requires Below(m, m')
    ensures Facts(m) <= Facts(m')
  {
  }

  lemma FactsBounded<K>(m: map<K, FSet>, keys: set<K>, syms: set<Symbol>)
    requires Bounded(m, keys, syms)
    ensures Facts(m) <= Universe(keys, syms)
  {
  }

  /** Growing one container by a real change adds a fact; not changing it
      leaves the family as it was. */
  lemma {:induction false} FactsGrowAt<K>(m: map<K, FSet>, k: K, v: FSet)
    requires k in m && Sub(m[k], v)
    ensures Below(m, m[k := v])
    ensures v != m[k] ==> Facts(m) < Facts(m[k := v])
    ensures v == m[k] ==> m[k := v] == m
  {
    var m' := m[k := v];
    FactsMonotone(m, m');
    if v != m[k] {
      if v.items != m[k].items {
        var x :| x in v.items && x !in m[k].items;
        assert Has(k, x) in Facts(m');
        assert Has(k, x) !in Facts(m);
      } else {
        assert v.eps && !m[k].eps;
        assert Nullable(k) in Facts(m');
        assert Nullable(k) !in Facts(m);
      }
    }
  }

  /** Adding a fresh empty container adds no fact. */
  lemma FactsNewEmpty<K>(m: map<K, FSet>, k: K)
    requires k !in m
    ensures Facts(m[k := Empty]) == Facts(m)
    ensures Below(m, m[k := Empty])
  {
    var m' := m[k := Empty];
    forall f | f in Facts(m') ensures f in Facts(m) {
      match f
      case Has(k', x) => assert k' != k;
      case Nullable(k') => assert k' != k;
    }
  }

  /** The decreasing measure of a fixpoint: growth strictly shrinks the room. */
  lemma RoomShrinks<K>(m: map<K, FSet>, m': map<K, FSet>, keys: set<K>, syms: set<Symbol>)
    requires Facts(m) <= Facts(m') && Bounded(m', keys, syms)
    ensures Room(m', keys, syms) <= Room(m, keys, syms)
    ensures Facts(m) != Facts(m') ==> Room(m', keys, syms) < Room(m, keys, syms)
  {
    FactsBounded(m', keys, syms);
    if Facts(m) != Facts(m') {
      var f :| f in Facts(m') && f !in Facts(m);
      assert f in Room(m, keys, syms);
    }
  }
}
