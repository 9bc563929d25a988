/** The LL(1) parsing table and the table-driven predictive parser. */
module LL1 {
  import opened Grammars
  import opened Containers
  import opened Dataflow

  /** The predictive table: one production list per (non-terminal, terminal). */
  type Table = map<(string, Symbol), seq<Production>>

  /** The inputs the table construction indexes: FIRST of every body and
      FOLLOW of every head. */
  predicate TableInputs(sf: map<seq<Symbol>, FSet>, fo: Follows, ps: seq<Production>) {
    forall p :: p in ps ==> p.rhs in sf && p.lhs in fo
  }

  /** The terminals under which production `p` is entered: FIRST of its body,
      plus FOLLOW of its head when the body is nullable. */
  function KeysOf(sf: map<seq<Symbol>, FSet>, fo: Follows, p: Production): set<Symbol>
    requires p.rhs in sf && p.lhs in fo
  {
    sf[p.rhs].items + (if sf[p.rhs].eps then fo[p.lhs].items else {})
  }

  /** A nullable body whose FIRST meets its head's FOLLOW is entered twice
      under the same key. */
  predicate SelfClash(sf: map<seq<Symbol>, FSet>, fo: Follows, p: Production)
    requires p.rhs in sf && p.lhs in fo
  {
    sf[p.rhs].eps && sf[p.rhs].items * fo[p.lhs].items != {}
  }

  /** Two productions of one head share no key. */
  predicate Apart(sf: map<seq<Symbol>, FSet>, fo: Follows, p: Production, q: Production)
    requires p.rhs in sf && p.lhs in fo && q.rhs in sf && q.lhs in fo
  {
    p.lhs == q.lhs ==> KeysOf(sf, fo, p) * KeysOf(sf, fo, q) == {}
  }

  /** The LL(1) condition on the production list: no production clashes with
      itself, and two productions of the same head share no key. */
  predicate IsLL1(sf: map<seq<Symbol>, FSet>, fo: Follows, ps: seq<Production>)
    requires TableInputs(sf, fo, ps)
  {
    && (forall i :: 0 <= i < |ps| ==> !SelfClash(sf, fo, ps[i]))
    && (forall i, j :: 0 <= i < j < |ps| ==> Apart(sf, fo, ps[i], ps[j]))
  }

  /** The first clash met: `incoming` is being entered under `(head, terminal)`
      where `existing` already is. */
  datatype Conflict = Conflict(head: string, terminal: Symbol, incoming: Production, existing: Production)

  /** `M'` is `M` with `p` entered under `(X, a)` for every `a` of `syms`, none
      of which was taken. */
  predicate EnteredAll(M: Table, M': Table, X: string, syms: set<Symbol>, p: Production) {
    && (forall k :: k in M ==> k in M' && M'[k] == M[k])
    && (forall k :: k in M' && k !in M ==> k.0 == X && k.1 in syms && M'[k] == [p])
    && (forall a :: a in syms ==> (X, a) !in M && (X, a) in M')
  }

  /** Enters `p` under `(X, a)` for every `a` of `syms`, in any order, and stops
      at the first key that is already taken. */
  method Enter(M: Table, X: string, syms: set<Symbol>, p: Production) returns (M': Table, clash: Option<Symbol>)
    ensures clash.None? ==> EnteredAll(M, M', X, syms, p)
    ensures clash.Some? ==> && clash.value in syms && (X, clash.value) in M && (X, clash.value) in M'
                            && M'[(X, clash.value)] == M[(X, clash.value)] + [p]
    ensures clash.Some? ==> forall k :: k in M && k != (X, clash.value) ==> k in M' && M'[k] == M[k]
    ensures clash.Some? ==> forall k :: k in M' && k !in M ==> k.0 == X && k.1 in syms && M'[k] == [p]
  {
    M' := M;
    var todo := syms;
    while todo != {}
      invariant todo <= syms
      invariant forall k :: k in M ==> k in M' && M'[k] == M[k]
      invariant forall k :: k in M' && k !in M ==> k.0 == X && k.1 in syms - todo && M'[k] == [p]
      invariant forall a :: a in syms - todo ==> (X, a) !in M && (X, a) in M'
      decreases todo
    {
      var a :| a in todo;
      if (X, a) in M' {
        M' := M'[(X, a) := M'[(X, a)] + [p]];
        return M', Some(a);
      }
      M' := M'[(X, a) := [p]];
      todo := todo - {a};
    }
    return M', None;
  }

  /** The table after the first `k` productions were entered without a clash. */
  ghost predicate TableInv(sf: map<seq<Symbol>, FSet>, fo: Follows, ps: seq<Production>, M: Table, k: int)
    requires TableInputs(sf, fo, ps) && 0 <= k <= |ps|
  {
    && (forall j, a :: 0 <= j < k && a in KeysOf(sf, fo, ps[j]) ==> (ps[j].lhs, a) in M)
    && (forall key :: key in M ==>
          |M[key]| == 1 && M[key][0] in ps[..k] && key.0 == M[key][0].lhs && key.1 in KeysOf(sf, fo, M[key][0]))
    && (forall i :: 0 <= i < k ==> !SelfClash(sf, fo, ps[i]))
    && (forall i, j :: 0 <= i < j < k ==> Apart(sf, fo, ps[i], ps[j]))
  }

  /** Entering production `k` without a clash extends the invariant. */
  lemma TableStep(sf: map<seq<Symbol>, FSet>, fo: Follows, ps: seq<Production>, M: Table, k: nat, M1: Table, M2: Table)
    requires TableInputs(sf, fo, ps) && k < |ps| && TableInv(sf, fo, ps, M, k)
    requires EnteredAll(M, M1, ps[k].lhs, sf[ps[k].rhs].items, ps[k])
    requires sf[ps[k].rhs].eps ==> EnteredAll(M1, M2, ps[k].lhs, fo[ps[k].lhs].items, ps[k])
    requires !sf[ps[k].rhs].eps ==> M2 == M1
    ensures TableInv(sf, fo, ps, M2, k + 1)
  {
    TableStepKeys(sf, fo, ps, M, k, M1, M2);
    TableStepEntries(sf, fo, ps, M, k, M1, M2);
    TableStepSelf(sf, fo, ps, M, k, M1, M2);
    TableStepApart(sf, fo, ps, M, k, M1, M2);
  }

  lemma TableStepKeys(sf: map<seq<Symbol>, FSet>, fo: Follows, ps: seq<Production>, M: Table, k: nat, M1: Table, M2: Table)
    requires TableInputs(sf, fo, ps) && k < |ps| && TableInv(sf, fo, ps, M, k)
    requires EnteredAll(M, M1, ps[k].lhs, sf[ps[k].rhs].items, ps[k])
    requires sf[ps[k].rhs].eps ==> EnteredAll(M1, M2, ps[k].lhs, fo[ps[k].lhs].items, ps[k])
    requires !sf[ps[k].rhs].eps ==> M2 == M1
    ensures forall j, a :: 0 <= j < k + 1 && a in KeysOf(sf, fo, ps[j]) ==> (ps[j].lhs, a) in M2
  {
  }

  lemma TableStepEntries(sf: map<seq<Symbol>, FSet>, fo: Follows, ps: seq<Production>, M: Table, k: nat, M1: Table, M2: Table)
    requires TableInputs(sf, fo, ps) && k < |ps| && TableInv(sf, fo, ps, M, k)
    requires EnteredAll(M, M1, ps[k].lhs, sf[ps[k].rhs].items, ps[k])
    requires sf[ps[k].rhs].eps ==> EnteredAll(M1, M2, ps[k].lhs, fo[ps[k].lhs].items, ps[k])
    requires !sf[ps[k].rhs].eps ==> M2 == M1
    ensures forall key :: key in M2 ==>
              |M2[key]| == 1 && M2[key][0] in ps[..k + 1] && key.0 == M2[key][0].lhs && key.1 in KeysOf(sf, fo, M2[key][0])
  {
    PrefixSnoc(ps, k);
  }

  lemma TableStepApart(sf: map<seq<Symbol>, FSet>, fo: Follows, ps: seq<Production>, M: Table, k: nat, M1: Table, M2: Table)
    requires TableInputs(sf, fo, ps) && k < |ps| && TableInv(sf, fo, ps, M, k)
    requires EnteredAll(M, M1, ps[k].lhs, sf[ps[k].rhs].items, ps[k])
    requires sf[ps[k].rhs].eps ==> EnteredAll(M1, M2, ps[k].lhs, fo[ps[k].lhs].items, ps[k])
    requires !sf[ps[k].rhs].eps ==> M2 == M1
    ensures forall i, j :: 0 <= i < j < k + 1 ==> Apart(sf, fo, ps[i], ps[j])
  {
    var p, X := ps[k], ps[k].lhs;
    forall i, j | 0 <= i < j < k + 1 ensures Apart(sf, fo, ps[i], ps[j]) {
      if j == k && ps[i].lhs == X {
        forall a | a in KeysOf(sf, fo, ps[i]) ensures a !in KeysOf(sf, fo, p) {
          assert (X, a) in M;
          NotEntered(M, M1, M2, X, sf[p.rhs].items, fo[X].items, sf[p.rhs].eps, p, a);
        }
      }
    }
  }

  /** A key taken before production `p` is entered is none of its keys. */
  lemma NotEntered(M: Table, M1: Table, M2: Table, X: string, first: set<Symbol>, follow: set<Symbol>, eps: bool,
                   p: Production, a: Symbol)
    requires (X, a) in M && EnteredAll(M, M1, X, first, p)
    requires eps ==> EnteredAll(M1, M2, X, follow, p)
    ensures a !in first && (eps ==> a !in follow)
  {
  }

  lemma TableStepSelf(sf: map<seq<Symbol>, FSet>, fo: Follows, ps: seq<Production>, M: Table, k: nat, M1: Table, M2: Table)
    requires TableInputs(sf, fo, ps) && k < |ps| && TableInv(sf, fo, ps, M, k)
    requires EnteredAll(M, M1, ps[k].lhs, sf[ps[k].rhs].items, ps[k])
    requires sf[ps[k].rhs].eps ==> EnteredAll(M1, M2, ps[k].lhs, fo[ps[k].lhs].items, ps[k])
    requires !sf[ps[k].rhs].eps ==> M2 == M1
    ensures forall i :: 0 <= i < k + 1 ==> !SelfClash(sf, fo, ps[i])
  {
    var p, X := ps[k], ps[k].lhs;
    if sf[p.rhs].eps {
      forall a | a in sf[p.rhs].items ensures a !in fo[p.lhs].items {
        assert (X, a) in M1;
      }
    }
  }

  /** The reported clash is a real one: both productions share the head and
      the terminal is a key of both; the entry holds them in entry order. */
  predicate ConflictOk(sf: map<seq<Symbol>, FSet>, fo: Follows, ps: seq<Production>, M: Table, c: Conflict)
    requires TableInputs(sf, fo, ps)
  {
    && c.incoming in ps && c.existing in ps
    && c.incoming.lhs == c.head == c.existing.lhs
    && c.terminal in KeysOf(sf, fo, c.incoming) * KeysOf(sf, fo, c.existing)
    && (c.head, c.terminal) in M && M[(c.head, c.terminal)] == [c.existing, c.incoming]
  }

  /** A key already taken when production `k` is entered witnesses that the
      productions are not LL(1). */
  lemma TableClash(sf: map<seq<Symbol>, FSet>, fo: Follows, ps: seq<Production>, M: Table, k: nat, M1: Table, a: Symbol, M2: Table)
    requires TableInputs(sf, fo, ps) && k < |ps| && TableInv(sf, fo, ps, M, k)
    requires a in KeysOf(sf, fo, ps[k]) && (ps[k].lhs, a) in M1
    requires (ps[k].lhs, a) in M ==> M1[(ps[k].lhs, a)] == M[(ps[k].lhs, a)]
    requires (ps[k].lhs, a) !in M ==>
               sf[ps[k].rhs].eps && a in sf[ps[k].rhs].items && a in fo[ps[k].lhs].items && M1[(ps[k].lhs, a)] == [ps[k]]
    requires (ps[k].lhs, a) in M2 && M2[(ps[k].lhs, a)] == M1[(ps[k].lhs, a)] + [ps[k]]
    ensures !IsLL1(sf, fo, ps)
    ensures |M1[(ps[k].lhs, a)]| > 0
    ensures ConflictOk(sf, fo, ps, M2, Conflict(ps[k].lhs, a, ps[k], M1[(ps[k].lhs, a)][0]))
  {
    if (ps[k].lhs, a) in M {
      InvAt(sf, fo, ps, M, k, (ps[k].lhs, a));
      ClashWithEarlier(sf, fo, ps, M, k, M1, a, M2);
    } else {
      assert a in sf[ps[k].rhs].items * fo[ps[k].lhs].items;
      assert SelfClash(sf, fo, ps[k]);
    }
  }

  lemma ClashWithEarlier(sf: map<seq<Symbol>, FSet>, fo: Follows, ps: seq<Production>, M: Table, k: nat, M1: Table, a: Symbol, M2: Table)
    requires TableInputs(sf, fo, ps) && k < |ps|
    requires a in KeysOf(sf, fo, ps[k]) && (ps[k].lhs, a) in M && (ps[k].lhs, a) in M1
    requires var e := M[(ps[k].lhs, a)]; |e| == 1 && e[0] in ps[..k] && e[0].lhs == ps[k].lhs && a in KeysOf(sf, fo, e[0])
    requires M1[(ps[k].lhs, a)] == M[(ps[k].lhs, a)]
    requires (ps[k].lhs, a) in M2 && M2[(ps[k].lhs, a)] == M1[(ps[k].lhs, a)] + [ps[k]]
    ensures !IsLL1(sf, fo, ps)
    ensures |M1[(ps[k].lhs, a)]| > 0
    ensures ConflictOk(sf, fo, ps, M2, Conflict(ps[k].lhs, a, ps[k], M1[(ps[k].lhs, a)][0]))
  {
    var X, p := ps[k].lhs, ps[k];
    var q := M[(X, a)][0];
    var j :| 0 <= j < k && ps[j] == q;
    NotLL1Pair(sf, fo, ps, j, k, a);
    assert M2[(X, a)] == [q, p];
  }

  /** What the invariant says about one key of the table. */
  lemma InvAt(sf: map<seq<Symbol>, FSet>, fo: Follows, ps: seq<Production>, M: Table, k: nat, key: (string, Symbol))
    requires TableInputs(sf, fo, ps) && k <= |ps| && TableInv(sf, fo, ps, M, k) && key in M
    ensures |M[key]| == 1 && M[key][0] in ps[..k] && key.0 == M[key][0].lhs && key.1 in KeysOf(sf, fo, M[key][0])
  {
  }

  /** Two productions of one head sharing a key break the LL(1) condition. */
  lemma NotLL1Pair(sf: map<seq<Symbol>, FSet>, fo: Follows, ps: seq<Production>, i: nat, j: nat, a: Symbol)
    requires TableInputs(sf, fo, ps) && i < j < |ps| && ps[i].lhs == ps[j].lhs
    requires a in KeysOf(sf, fo, ps[i]) * KeysOf(sf, fo, ps[j])
    ensures !IsLL1(sf, fo, ps)
  {
    assert !Apart(sf, fo, ps[i], ps[j]);
  }

  /** Without a clash the table holds each production exactly under its keys. */
  lemma TableDone(sf: map<seq<Symbol>, FSet>, fo: Follows, ps: seq<Production>, M: Table)
    requires TableInputs(sf, fo, ps) && TableInv(sf, fo, ps, M, |ps|)
    ensures IsLL1(sf, fo, ps)
    ensures forall p, a :: p in ps && a in KeysOf(sf, fo, p) ==> (p.lhs, a) in M && M[(p.lhs, a)] == [p]
    ensures forall k :: k in M ==>
              |M[k]| == 1 && M[k][0] in ps && k.0 == M[k][0].lhs && k.1 in KeysOf(sf, fo, M[k][0])
  {
    assert ps[..|ps|] == ps;
    forall p, a | p in ps && a in KeysOf(sf, fo, p) ensures (p.lhs, a) in M && M[(p.lhs, a)] == [p] {
      var j :| 0 <= j < |ps| && ps[j] == p;
      assert (p.lhs, a) in M;
      InvAt(sf, fo, ps, M, |ps|, (p.lhs, a));
      var q := M[(p.lhs, a)][0];
      var i :| 0 <= i < |ps| && ps[i] == q;
      SameKeySameProduction(sf, fo, ps, M, i, j, a);
    }
  }

  /** Under the final invariant, two productions of one head sharing a key
      are the same production. */
  lemma SameKeySameProduction(sf: map<seq<Symbol>, FSet>, fo: Follows, ps: seq<Production>, M: Table, i: nat, j: nat, a: Symbol)
    requires TableInputs(sf, fo, ps) && TableInv(sf, fo, ps, M, |ps|)
    requires i < |ps| && j < |ps| && ps[i].lhs == ps[j].lhs
    requires a in KeysOf(sf, fo, ps[i]) && a in KeysOf(sf, fo, ps[j])
    ensures i == j
  {
    if i < j {
      ApartAt(sf, fo, ps, M, i, j, a);
      assert false;
    } else if j < i {
      ApartAt(sf, fo, ps, M, j, i, a);
      assert false;
    }
  }

  lemma ApartAt(sf: map<seq<Symbol>, FSet>, fo: Follows, ps: seq<Production>, M: Table, i: nat, j: nat, a: Symbol)
    requires TableInputs(sf, fo, ps) && TableInv(sf, fo, ps, M, |ps|) && i < j < |ps|
    ensures ps[i].lhs == ps[j].lhs ==> a !in KeysOf(sf, fo, ps[i]) || a !in KeysOf(sf, fo, ps[j])
  {
    assert Apart(sf, fo, ps[i], ps[j]);
    if ps[i].lhs == ps[j].lhs && a in KeysOf(sf, fo, ps[i]) {
      assert a in KeysOf(sf, fo, ps[i]) * KeysOf(sf, fo, ps[j]) || a !in KeysOf(sf, fo, ps[j]);
    }
  }

  /** `build_parsing_table`: the table is LL(1) exactly when the productions
      satisfy the LL(1) condition; then every entry holds the single production
      whose keys contain its terminal.  Otherwise the first clash is reported,
      with the clashing production appended to the entry. */
  method BuildParsingTable(sf: map<seq<Symbol>, FSet>, fo: Follows, ps: seq<Production>)
    returns (M: Table, isLL1: bool, conflict: Option<Conflict>)
    requires TableInputs(sf, fo, ps)
    ensures isLL1 <==> IsLL1(sf, fo, ps)
    ensures isLL1 <==> conflict.None?
    ensures isLL1 ==> forall p, a :: p in ps && a in KeysOf(sf, fo, p) ==> (p.lhs, a) in M && M[(p.lhs, a)] == [p]
    ensures isLL1 ==> forall k :: k in M ==>
              |M[k]| == 1 && M[k][0] in ps && k.0 == M[k][0].lhs && k.1 in KeysOf(sf, fo, M[k][0])
    ensures conflict.Some? ==> ConflictOk(sf, fo, ps, M, conflict.value)
  {
    M := map[];
    var k := 0;
    while k < |ps|
      invariant 0 <= k <= |ps| && TableInv(sf, fo, ps, M, k)
    {
      var p := ps[k];
      var X := p.lhs;
      var firstAlpha := sf[p.rhs];
      var M1, c1 := Enter(M, X, firstAlpha.items, p);
      if c1.Some? {
        var a := c1.value;
        TableClash(sf, fo, ps, M, k, M, a, M1);
        return M1, false, Some(Conflict(X, a, p, M[(X, a)][0]));
      }
      var M2 := M1;
      if firstAlpha.eps {
        var c2;
        M2, c2 := Enter(M1, X, fo[X].items, p);
        if c2.Some? {
          var a := c2.value;
          TableClash(sf, fo, ps, M, k, M1, a, M2);
          return M2, false, Some(Conflict(X, a, p, M1[(X, a)][0]));
        }
      }
      TableStep(sf, fo, ps, M, k, M1, M2);
      M := M2;
      k := k + 1;
    }
    TableDone(sf, fo, ps, M);
    return M, true, None;
  }

  /** The position of the leftmost non-terminal of a sentential form, or its
      length when it has none. */
  function FirstNonTerminal(form: seq<Symbol>): (r: nat)
    ensures r <= |form|
    ensures forall j :: 0 <= j < r ==> form[j].T?
    ensures r < |form| ==> form[r].N?
  {
    if form == [] || form[0].N? then 0 else 1 + FirstNonTerminal(form[1..])
  }

  /** Replays a left parse: each production rewrites the leftmost
      non-terminal, which must be its head. */
  function Leftmost(form: seq<Symbol>, ps: seq<Production>): Option<seq<Symbol>>
    decreases |ps|
  {
    if ps == [] then Some(form)
    else
      var i := FirstNonTerminal(form);
      if i == |form| || form[i].name != ps[0].lhs then None
      else Leftmost(form[..i] + ps[0].rhs + form[i + 1..], ps[1..])
  }

  /** How a run of the predictive parser ends: a left parse, a terminal
      mismatch (`None`), a missing table entry (`KeyError`), reading past the
      end of the word (`IndexError`), or the step bound of the model. */
  datatype Outcome = Parsed(output: seq<Production>) | Rejected | NoEntry | EndOfInput | OutOfFuel

  /** The loop of the predictive parser from a given configuration; the top of
      the stack is its last element.  With `checkEnd` the parser also demands
      that the word is consumed up to EOF when the stack empties. */
  function Run(M: Table, stack: seq<Symbol>, w: seq<Symbol>, cursor: nat, out: seq<Production>,
               fuel: nat, checkEnd: bool): Outcome
    requires |stack| > 0
    decreases fuel
  {
    if fuel == 0 then OutOfFuel
    else
      var top, rest := stack[|stack| - 1], stack[..|stack| - 1];
      if cursor >= |w| then EndOfInput
      else
        var a := w[cursor];
        if top.T? && top != a then Rejected
        else if top.N? && ((top.name, a) !in M || |M[(top.name, a)]| == 0) then NoEntry
        else
          var stack' := if top.T? then rest else rest + Reverse(M[(top.name, a)][0].rhs);
          var cursor' := if top.T? then cursor + 1 else cursor;
          var out' := if top.T? then out else out + [M[(top.name, a)][0]];
          if |stack'| == 0 then
            if !checkEnd || (cursor' < |w| && w[cursor'] == EOF) then Parsed(out') else Rejected
          else Run(M, stack', w, cursor', out', fuel - 1, checkEnd)
  }

  /** One step of the parser: matching the terminal on top, or expanding
      the non-terminal on top by its table entry. */
  predicate Step(M: Table, stack: seq<Symbol>, w: seq<Symbol>, cursor: nat, out: seq<Production>,
                 stack': seq<Symbol>, cursor': nat, out': seq<Production>)
    requires |stack| > 0 && cursor < |w|
  {
    var top, rest, a := stack[|stack| - 1], stack[..|stack| - 1], w[cursor];
    || (top.T? && top == a && stack' == rest && cursor' == cursor + 1 && out' == out)
    || (top.N? && (top.name, a) in M && |M[(top.name, a)]| > 0
        && stack' == rest + Reverse(M[(top.name, a)][0].rhs) && cursor' == cursor && out' == out + [M[(top.name, a)][0]])
  }

  lemma RunUnfold(M: Table, stack: seq<Symbol>, w: seq<Symbol>, cursor: nat, out: seq<Production>, fuel: nat, checkEnd: bool,
                  stack': seq<Symbol>, cursor': nat, out': seq<Production>)
    requires |stack| > 0 && fuel > 0 && cursor < |w| && Step(M, stack, w, cursor, out, stack', cursor', out')
    ensures Run(M, stack, w, cursor, out, fuel, checkEnd) ==
            if |stack'| == 0 then
              (if !checkEnd || (cursor' < |w| && w[cursor'] == EOF) then Parsed(out') else Rejected)
            else Run(M, stack', w, cursor', out', fuel - 1, checkEnd)
  {
  }

  /** `metodo_predictivo_no_recursivo`: starts with only the start symbol on
      the stack and pops, matches or expands until the stack is empty.  The
      model bounds the number of steps by `fuel`; `checkEnd` selects the
      corrected parser that also checks for EOF. */
  method Parse(M: Table, start: string, w: seq<Symbol>, fuel: nat, checkEnd: bool) returns (r: Outcome)
    ensures r == Run(M, [N(start)], w, 0, [], fuel, checkEnd)
  {
    var stack := [N(start)];
    var cursor := 0;
    var output := [];
    var steps := fuel;
    while true
      invariant |stack| > 0
      invariant Run(M, stack, w, cursor, output, steps, checkEnd) == Run(M, [N(start)], w, 0, [], fuel, checkEnd)
      decreases steps
    {
      if steps == 0 { return OutOfFuel; }
      ghost var stack0, cursor0, output0 := stack, cursor, output;
      var top := stack[|stack| - 1];
      stack := stack[..|stack| - 1];
      if cursor >= |w| { return EndOfInput; }
      var a := w[cursor];
      if top.T? {
        if top == a {
          cursor := cursor + 1;
        } else {
          return Rejected;
        }
      } else {
        if (top.name, a) !in M || |M[(top.name, a)]| == 0 { return NoEntry; }
        var production := M[(top.name, a)][0];
        output := output + [production];
        var alpha := production.rhs;
        ghost var rest := stack;
        var i := 0;
        while i < |alpha|
          invariant 0 <= i <= |alpha|
          invariant stack == rest + Reverse(alpha)[..i]
        {
          stack := stack + [alpha[|alpha| - i - 1]];
          i := i + 1;
        }
        assert Reverse(alpha)[..|alpha|] == Reverse(alpha);
      }
      RunUnfold(M, stack0, w, cursor0, output0, steps, checkEnd, stack, cursor, output);
      if |stack| == 0 {
        if !checkEnd || (cursor < |w| && w[cursor] == EOF) { return Parsed(output); }
        return Rejected;
      }
      steps := steps - 1;
    }
  }

  /** Every non-empty entry of the table is headed by its row's non-terminal,
      as the entries `BuildParsingTable` makes are. */
  predicate TableHeads(M: Table) {
    forall key :: key in M && |M[key]| > 0 ==> M[key][0].lhs == key.0
  }

  lemma FirstNonTerminalAt(form: seq<Symbol>, c: nat)
    requires c < |form| && form[c].N? && forall j :: 0 <= j < c ==> form[j].T?
    ensures FirstNonTerminal(form) == c
  {
  }

  /** Replaying a left parse one production further. */
  lemma {:induction false} LeftmostSnoc(form: seq<Symbol>, out: seq<Production>, p: Production)
    ensures Leftmost(form, out + [p]) == match Leftmost(form, out) case None => None case Some(f) => Leftmost(f, [p])
    decreases |out|
  {
    if out != [] {
      assert (out + [p])[1..] == out[1..] + [p];
      var i := FirstNonTerminal(form);
      if !(i == |form| || form[i].name != out[0].lhs) {
        LeftmostSnoc(form[..i] + out[0].rhs + form[i + 1..], out[1..], p);
      }
    }
  }

  /** Matching a terminal moves it from the stack to the matched prefix. */
  lemma MatchStep(w: seq<Symbol>, cursor: nat, rest: seq<Symbol>, top: Symbol)
    requires cursor < |w| && top == w[cursor]
    ensures w[..cursor] + Reverse(rest + [top]) == w[..cursor + 1] + Reverse(rest)
  {
    ReverseAppend(rest, [top]);
    assert w[..cursor + 1] == w[..cursor] + [top];
  }

  /** Expanding the non-terminal on top of the stack is one leftmost
      rewriting step. */
  lemma ExpandStep(form0: seq<Symbol>, out: seq<Production>, w: seq<Symbol>, cursor: nat,
                   rest: seq<Symbol>, top: Symbol, p: Production)
    requires cursor <= |w| && forall j :: 0 <= j < cursor ==> w[j].T?
    requires top.N? && top.name == p.lhs
    requires Leftmost(form0, out) == Some(w[..cursor] + Reverse(rest + [top]))
    ensures Leftmost(form0, out + [p]) == Some(w[..cursor] + Reverse(rest + Reverse(p.rhs)))
  {
    ReverseAppend(rest, [top]);
    assert Reverse([top]) == [top];
    LeftmostSnoc(form0, out, p);
    LeftmostOne(w[..cursor], top, Reverse(rest), p);
    ReverseAppend(rest, Reverse(p.rhs));
    ReverseReverse(p.rhs);
  }

  /** One production rewrites the leftmost non-terminal, its head. */
  lemma LeftmostOne(done: seq<Symbol>, top: Symbol, after: seq<Symbol>, p: Production)
    requires forall j :: 0 <= j < |done| ==> done[j].T?
    requires top.N? && top.name == p.lhs
    ensures Leftmost(done + ([top] + after), [p]) == Some(done + (p.rhs + after))
  {
    var form := done + ([top] + after);
    assert form[..|done|] == done;
    assert form[|done| + 1..] == after;
    FirstNonTerminalAt(form, |done|);
    assert [p][1..] == [];
    assert done + p.rhs + after == done + (p.rhs + after);
  }

  /** What a run from a configuration reached by the parser guarantees: the
      left parse so far derives the matched prefix followed by the stack read
      from its top. */
  lemma {:induction false} RunSound(M: Table, form0: seq<Symbol>, stack: seq<Symbol>, w: seq<Symbol>, cursor: nat,
                                    out: seq<Production>, fuel: nat, checkEnd: bool, out': seq<Production>)
    requires |stack| > 0 && TableHeads(M) && cursor <= |w|
    requires forall j :: 0 <= j < cursor ==> w[j].T?
    requires Leftmost(form0, out) == Some(w[..cursor] + Reverse(stack))
    requires Run(M, stack, w, cursor, out, fuel, checkEnd) == Parsed(out')
    ensures exists n :: cursor <= n <= |w| && Leftmost(form0, out') == Some(w[..n]) &&
                        (checkEnd ==> n < |w| && w[n] == EOF)
    decreases fuel
  {
    var top, rest := stack[|stack| - 1], stack[..|stack| - 1];
    var a := w[cursor];
    var stack', cursor', out'' := rest, cursor + 1, out;
    if top.N? {
      var p := M[(top.name, a)][0];
      stack', cursor', out'' := rest + Reverse(p.rhs), cursor, out + [p];
    }
    RunUnfold(M, stack, w, cursor, out, fuel, checkEnd, stack', cursor', out'');
    Advance(M, form0, stack, w, cursor, out, stack', cursor', out'');
    if |stack'| > 0 {
      RunSound(M, form0, stack', w, cursor', out'', fuel - 1, checkEnd, out');
    } else {
      assert w[..cursor'] + Reverse(stack') == w[..cursor'];
    }
  }

  /** One step of the parser keeps the left parse deriving the matched prefix
      followed by the stack read from its top. */
  lemma Advance(M: Table, form0: seq<Symbol>, stack: seq<Symbol>, w: seq<Symbol>, cursor: nat, out: seq<Production>,
                stack': seq<Symbol>, cursor': nat, out': seq<Production>)
    requires |stack| > 0 && TableHeads(M) && cursor < |w|
    requires forall j :: 0 <= j < cursor ==> w[j].T?
    requires Leftmost(form0, out) == Some(w[..cursor] + Reverse(stack))
    requires Step(M, stack, w, cursor, out, stack', cursor', out')
    ensures cursor <= cursor' <= |w| && forall j :: 0 <= j < cursor' ==> w[j].T?
    ensures Leftmost(form0, out') == Some(w[..cursor'] + Reverse(stack'))
  {
    var top, rest := stack[|stack| - 1], stack[..|stack| - 1];
    assert stack == rest + [top];
    if top.T? {
      MatchStep(w, cursor, rest, top);
    } else {
      ExpandStep(form0, out, w, cursor, rest, top, M[(top.name, w[cursor])][0]);
    }
  }

  /** The corrected parser is sound: a left parse it returns derives, from the
      start symbol by leftmost rewriting, the word up to an EOF token. */
  lemma ParseSound(M: Table, start: string, w: seq<Symbol>, fuel: nat, out: seq<Production>)
    requires TableHeads(M)
    requires Run(M, [N(start)], w, 0, [], fuel, true) == Parsed(out)
    ensures exists n :: 0 <= n < |w| && w[n] == EOF && Leftmost([N(start)], out) == Some(w[..n])
  {
    assert w[..0] + Reverse([N(start)]) == [N(start)];
    RunSound(M, [N(start)], [N(start)], w, 0, [], fuel, true, out);
  }

  /** The parser as written only guarantees that its left parse derives some
      prefix of the word. */
  lemma ParsePrefixSound(M: Table, start: string, w: seq<Symbol>, fuel: nat, out: seq<Production>)
    requires TableHeads(M)
    requires Run(M, [N(start)], w, 0, [], fuel, false) == Parsed(out)
    ensures exists n :: 0 <= n <= |w| && Leftmost([N(start)], out) == Some(w[..n])
  {
    assert w[..0] + Reverse([N(start)]) == [N(start)];
    RunSound(M, [N(start)], [N(start)], w, 0, [], fuel, false, out);
  }

  /** The parser as written stops as soon as the stack is empty without
      looking at the rest of the word: for `S -> a` it accepts `a b $`, whose
      left parse derives only `a`.  The corrected parser rejects it. */
  lemma PrefixAccepted()
    ensures var p := Production("S", [T("a")]);
            var M: Table := map[("S", T("a")) := [p]];
            var w := [T("a"), T("b"), EOF];
            && TableHeads(M)
            && Run(M, [N("S")], w, 0, [], 2, false) == Parsed([p])
            && Leftmost([N("S")], [p]) == Some([T("a")])
            && Run(M, [N("S")], w, 0, [], 2, true) == Rejected
  {
    var p := Production("S", [T("a")]);
    var M: Table := map[("S", T("a")) := [p]];
    var w := [T("a"), T("b"), EOF];
    assert FirstNonTerminal([N("S")]) == 0;
    assert [N("S")][..0] + p.rhs + [N("S")][1..] == [T("a")];
    assert Leftmost([N("S")], [p]) == Leftmost([T("a")], []);
    assert Reverse([T("a")]) == [T("a")];
    assert Run(M, [N("S")], w, 0, [], 2, false) == Run(M, [T("a")], w, 0, [p], 1, false);
    assert Run(M, [N("S")], w, 0, [], 2, true) == Run(M, [T("a")], w, 0, [p], 1, true);
  }
}
