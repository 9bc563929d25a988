/** The grammar analyser: it reads a grammar from text, tokenizes the words to
    parse, runs the parser constructions and the grammar transformations, and
    checks whether the grammar is regular, building its automaton when it is. */
module Analyser {
  import opened Grammars
  import opened Text
  import opened Containers
  import opened Dataflow
  import Predictive = LL1
  import ShiftReduce
  import Slr
  import Lr1
  import Lalr
  import Automata
  import RegexSynthesis
  import Useless
  import Epsilon
  import Unitary
  import LeftRecursion
  import CommonPrefix

  // ---------------------------------------------------------------------
  // Reading a grammar from text

  /** One entry of the production list handed to `Grammar.from_json`. */
  datatype Rule = Rule(head: string, body: seq<string>)

  /** What `parseGrammar` hands to `Grammar.from_json`: the heads, the body
      words that are terminals, and the productions in text order. */
  datatype GrammarData = GrammarData(nonTerminals: set<string>, terminals: set<string>, productions: seq<Rule>)

  /** `parseGrammar`'s outcome: `BadGrammar` is `BadGrammarException`. */
  datatype Parsed = Ok(data: GrammarData) | BadGrammar

  const LineBreak: string := "\r\n"
  const Arrow: string := "->"
  const EpsilonWord: string := "epsilon"

  /** A line is read when it splits into exactly two parts on `->` and its
      head part is exactly one word.  The head-length test that follows it
      compares the length of the head's first character, so it never rejects a
      line: heads of any length are read. */
  predicate LineOk(line: string) {
    var parts := Split(line, Arrow);
    |parts| == 2 && |Words(parts[0])| == 1
  }

  /** Every line is read. */
  predicate LinesOk(lines: seq<string>) {
    lines == [] || (LinesOk(lines[..|lines| - 1]) && LineOk(lines[|lines| - 1]))
  }

  lemma {:induction false} LinesOkAt(lines: seq<string>, i: nat)
    requires LinesOk(lines) && i < |lines|
    ensures LineOk(lines[i])
  {
    if i < |lines| - 1 {
      LinesOkAt(lines[..|lines| - 1], i);
    }
  }

  function HeadOf(line: string): string
    requires LineOk(line)
  {
    Words(Split(line, Arrow)[0])[0]
  }

  function BodiesOf(line: string): seq<string>
    requires LineOk(line)
  {
    Split(Split(line, Arrow)[1], "|")
  }

  /** The productions one line contributes: one per `|`-separated body, whose
      words are its symbols. */
  function LineRules(line: string): seq<Rule>
    requires LineOk(line)
  {
    RulesOf(HeadOf(line), BodiesOf(line))
  }

  /** One production per body, with the body's words as its symbols. */
  function RulesOf(head: string, bodies: seq<string>): (r: seq<Rule>)
    ensures |r| == |bodies|
    ensures forall i :: 0 <= i < |bodies| ==> r[i] == Rule(head, Words(bodies[i]))
  {
    if bodies == [] then [] else RulesOf(head, bodies[..|bodies| - 1]) + [Rule(head, Words(bodies[|bodies| - 1]))]
  }

  /** The productions of a list of lines, in text order. */
  function AllRules(lines: seq<string>): seq<Rule>
    requires LinesOk(lines)
  {
    if lines == [] then [] else AllRules(lines[..|lines| - 1]) + LineRules(lines[|lines| - 1])
  }

  /** The words of every body, in order: the list `terminals` grows into. */
  function BodyWords(rules: seq<Rule>): seq<string> {
    if rules == [] then [] else BodyWords(rules[..|rules| - 1]) + rules[|rules| - 1].body
  }

  lemma {:induction false} BodyWordsIn(rules: seq<Rule>, t: string)
    ensures t in BodyWords(rules) <==> exists r :: r in rules && t in r.body
  {
    if rules != [] {
      var init := rules[..|rules| - 1];
      BodyWordsIn(init, t);
      assert rules == init + [rules[|rules| - 1]];
      if t in BodyWords(rules) {
        if t !in BodyWords(init) {
          assert t in rules[|rules| - 1].body;
        }
      }
      if exists r :: r in rules && t in r.body {
        var r :| r in rules && t in r.body;
        if r != rules[|rules| - 1] { assert r in init; }
      }
    }
  }

  /** Every production of a read grammar has a one-word head and words as
      body symbols. */
  predicate RuleWords(r: Rule) {
    && |r.head| > 0 && NoSpace(r.head)
    && forall i :: 0 <= i < |r.body| ==> |r.body[i]| > 0 && NoSpace(r.body[i])
  }

  /** What `parseGrammar` guarantees of the data it builds: the heads are the
      non-terminals, every word is non-empty and the terminals are the body
      words that are neither heads nor `epsilon`. */
  ghost predicate Coherent(d: GrammarData) {
    && d.nonTerminals == HeadSet(d.productions)
    && (forall r :: r in d.productions ==> RuleWords(r))
    && (forall t :: t in d.terminals <==>
          t != EpsilonWord && t !in d.nonTerminals && exists r :: r in d.productions && t in r.body)
  }

  lemma LineRulesWords(line: string)
    requires LineOk(line)
    ensures |LineRules(line)| >= 1
    ensures forall r :: r in LineRules(line) ==> r.head == HeadOf(line) && RuleWords(r)
  {
  }

  /** The heads of the lines. */
  function Heads(lines: seq<string>): set<string>
    requires LinesOk(lines)
  {
    if lines == [] then {} else Heads(lines[..|lines| - 1]) + {HeadOf(lines[|lines| - 1])}
  }

  function HeadSet(rules: seq<Rule>): set<string> {
    set r | r in rules :: r.head
  }

  /** The heads of the productions are the heads of the lines. */
  lemma {:induction false} AllRulesHeads(lines: seq<string>)
    requires LinesOk(lines)
    ensures HeadSet(AllRules(lines)) == Heads(lines)
  {
    if lines != [] {
      var init := lines[..|lines| - 1];
      var last := lines[|lines| - 1];
      AllRulesHeads(init);
      LineRulesWords(last);
      var a, b := AllRules(init), LineRules(last);
      assert HeadSet(b) == {HeadOf(last)} by {
        assert b[0] in b;
      }
      assert HeadSet(a + b) == HeadSet(a) + HeadSet(b) by {
        forall h | h in HeadSet(a + b) ensures h in HeadSet(a) + HeadSet(b) {
          var r :| r in a + b && r.head == h;
        }
      }
    }
  }

  /** Every production has a one-word head and words as symbols. */
  lemma {:induction false} AllRulesWords(lines: seq<string>)
    requires LinesOk(lines)
    ensures forall r :: r in AllRules(lines) ==> RuleWords(r)
  {
    if lines != [] {
      AllRulesWords(lines[..|lines| - 1]);
      LineRulesWords(lines[|lines| - 1]);
    }
  }

  /** A line of grammar text as it is meant to be written: a head and its
      bodies, each body a list of words. */
  datatype Line = Line(head: string, bodies: seq<seq<string>>)

  /** A word that can be written in a grammar: non-empty, without white space,
      `-` or `|`. */
  predicate Plain(w: string) {
    |w| > 0 && NoSpace(w) && '-' !in w && '|' !in w
  }

  predicate Writable(l: Line) {
    && Plain(l.head) && |l.bodies| >= 1
    && forall i, j :: 0 <= i < |l.bodies| && 0 <= j < |l.bodies[i]| ==> Plain(l.bodies[i][j])
  }

  /** The bodies of a line, each written as its words separated by spaces. */
  function BodyTexts(bodies: seq<seq<string>>): (r: seq<string>)
    ensures |r| == |bodies| && forall i :: 0 <= i < |bodies| ==> r[i] == Join(bodies[i], " ")
  {
    if bodies == [] then [] else BodyTexts(bodies[..|bodies| - 1]) + [Join(bodies[|bodies| - 1], " ")]
  }

  /** `head->body|body|...`. */
  function RenderLine(l: Line): string {
    Join([l.head, Join(BodyTexts(l.bodies), "|")], Arrow)
  }

  function RenderLines(ls: seq<Line>): (r: seq<string>)
    ensures |r| == |ls| && forall i :: 0 <= i < |ls| ==> r[i] == RenderLine(ls[i])
  {
    if ls == [] then [] else RenderLines(ls[..|ls| - 1]) + [RenderLine(ls[|ls| - 1])]
  }

  /** The text of a grammar: its lines joined by line breaks. */
  function Render(ls: seq<Line>): string {
    Join(RenderLines(ls), LineBreak)
  }

  /** The productions the lines stand for, in order. */
  function Written(ls: seq<Line>): seq<Rule> {
    if ls == [] then []
    else
      var l := ls[|ls| - 1];
      Written(ls[..|ls| - 1]) + seq(|l.bodies|, i requires 0 <= i < |l.bodies| => Rule(l.head, l.bodies[i]))
  }

  lemma NoSpaceNoChar(w: string, c: char)
    requires NoSpace(w) && IsSpace(c)
    ensures c !in w
  {
  }

  /** A written line is read back as its head and its bodies. */
  lemma ReadRenderedLine(l: Line)
    requires Writable(l)
    ensures LineOk(RenderLine(l)) && HeadOf(RenderLine(l)) == l.head
    ensures LineRules(RenderLine(l)) == seq(|l.bodies|, i requires 0 <= i < |l.bodies| => Rule(l.head, l.bodies[i]))
  {
    var texts := BodyTexts(l.bodies);
    forall i | 0 <= i < |texts| ensures '|' !in texts[i] && '-' !in texts[i] {
      JoinChars(l.bodies[i], " ", '|');
      JoinChars(l.bodies[i], " ", '-');
    }
    var joined := Join(texts, "|");
    JoinChars(texts, "|", '-');
    SplitOfJoin([l.head, joined], Arrow);
    assert Join([l.head], " ") == l.head;
    WordsJoin([l.head]);
    SplitOfJoin(texts, "|");
    forall i | 0 <= i < |texts| ensures Words(texts[i]) == l.bodies[i] {
      WordsJoin(l.bodies[i]);
    }
  }

  /** Rendered lines are all read, giving the written productions. */
  lemma {:induction false} ReadRenderedLines(ls: seq<Line>)
    requires forall i :: 0 <= i < |ls| ==> Writable(ls[i])
    ensures LinesOk(RenderLines(ls))
    ensures AllRules(RenderLines(ls)) == Written(ls)
  {
    if ls != [] {
      var init := ls[..|ls| - 1];
      var lines := RenderLines(ls);
      assert lines[..|lines| - 1] == RenderLines(init);
      ReadRenderedLines(init);
      ReadRenderedLine(ls[|ls| - 1]);
    }
  }

  /** The heads read from rendered lines are the written heads. */
  lemma {:induction false} RenderedHeads(ls: seq<Line>)
    requires LinesOk(RenderLines(ls))
    requires forall i :: 0 <= i < |ls| ==> Writable(ls[i])
    ensures Heads(RenderLines(ls)) == set l | l in ls :: l.head
  {
    if ls != [] {
      var init := ls[..|ls| - 1];
      var lines := RenderLines(ls);
      assert lines[..|lines| - 1] == RenderLines(init);
      RenderedHeads(init);
      ReadRenderedLine(ls[|ls| - 1]);
      HeadsSnoc(ls);
    }
  }

  lemma HeadsSnoc(ls: seq<Line>)
    requires ls != []
    ensures (set l | l in ls :: l.head) == (set l | l in ls[..|ls| - 1] :: l.head) + {ls[|ls| - 1].head}
  {
    assert ls == ls[..|ls| - 1] + [ls[|ls| - 1]];
  }

  /** A rendered line holds no carriage return. */
  lemma RenderedLineBreak(l: Line)
    requires Writable(l)
    ensures '\r' !in RenderLine(l)
  {
    var texts := BodyTexts(l.bodies);
    forall k | 0 <= k < |texts| ensures '\r' !in texts[k] {
      forall j | 0 <= j < |l.bodies[k]| ensures '\r' !in l.bodies[k][j] {
        NoSpaceNoChar(l.bodies[k][j], '\r');
      }
      JoinChars(l.bodies[k], " ", '\r');
    }
    JoinChars(texts, "|", '\r');
    NoSpaceNoChar(l.head, '\r');
    JoinChars([l.head, Join(texts, "|")], Arrow, '\r');
  }

  /** A text written from well-formed lines is read back: no line is
      rejected, the productions are those written, in order, and the heads
      are the written heads. */
  lemma ParseRendered(ls: seq<Line>)
    requires |ls| >= 1 && forall i :: 0 <= i < |ls| ==> Writable(ls[i])
    ensures LinesOk(Split(Render(ls), LineBreak))
    ensures AllRules(Split(Render(ls), LineBreak)) == Written(ls)
    ensures Heads(Split(Render(ls), LineBreak)) == set l | l in ls :: l.head
  {
    var lines := RenderLines(ls);
    forall i | 0 <= i < |lines| ensures LineBreak[0] !in lines[i] {
      RenderedLineBreak(ls[i]);
    }
    SplitOfJoin(lines, LineBreak);
    ReadRenderedLines(ls);
    RenderedHeads(ls);
  }

  /** `parseGrammar`: the text is cut into lines at `\r\n`; a line that is not
      `head -> bodies` with a one-word head makes the whole text a bad
      grammar.  Otherwise each body, cut at `|`, is one production of its
      words, the heads are the non-terminals and the other body words except
      `epsilon` are the terminals. */
  method ParseGrammar(text: string) returns (r: Parsed)
    ensures r.BadGrammar? <==> !LinesOk(Split(text, LineBreak))
    ensures r.Ok? ==> r.data.productions == AllRules(Split(text, LineBreak))
    ensures r.Ok? ==> r.data.nonTerminals == Heads(Split(text, LineBreak))
    ensures r.Ok? ==> Coherent(r.data)
  {
    var lines := Split(text, LineBreak);
    var nonTerminals: seq<string> := [];
    var productions: seq<Rule> := [];
    var terminals: seq<string> := [];
    for i := 0 to |lines|
      invariant LinesOk(lines[..i])
      invariant Elems(nonTerminals) == Heads(lines[..i])
      invariant productions == AllRules(lines[..i])
      invariant terminals == BodyWords(productions)
    {
      var ok, head, bodies := ReadLine(lines[i]);
      if !ok {
        if LinesOk(lines) { LinesOkAt(lines, i); }
        return BadGrammar;
      }
      assert lines[..i + 1][..i] == lines[..i] && lines[..i + 1][i] == lines[i];
      assert Heads(lines[..i + 1]) == Heads(lines[..i]) + {head};
      nonTerminals := nonTerminals + [head];
      productions, terminals := AddBodies(head, bodies, productions, terminals);
    }
    assert lines[..|lines|] == lines;
    var nts := Elems(nonTerminals);
    var ts := set t | t in terminals && t !in nts && t != EpsilonWord;
    ParsedCoherent(lines, nts, ts, productions, terminals);
    return Ok(GrammarData(nts, ts, productions));
  }

  /** One line cut into its head and its bodies; `ok` is false where the
      source raises. */
  method ReadLine(line: string) returns (ok: bool, head: string, bodies: seq<string>)
    ensures ok <==> LineOk(line)
    ensures ok ==> head == HeadOf(line) && RulesOf(head, bodies) == LineRules(line)
  {
    var parts := Split(line, Arrow);
    if |parts| != 2 {
      return false, "", [];
    }
    var heads := Words(parts[0]);
    if |heads| != 1 {
      return false, "", [];
    }
    head := heads[0];
    bodies := Split(parts[1], "|");
    ok := true;
  }

  /** The loop over the bodies of one line. */
  method AddBodies(head: string, bodies: seq<string>, productions0: seq<Rule>, terminals0: seq<string>)
    returns (productions: seq<Rule>, terminals: seq<string>)
    requires terminals0 == BodyWords(productions0)
    ensures productions == productions0 + RulesOf(head, bodies)
    ensures terminals == BodyWords(productions)
  {
    productions, terminals := productions0, terminals0;
    for k := 0 to |bodies|
      invariant productions == productions0 + RulesOf(head, bodies[..k])
      invariant terminals == BodyWords(productions)
    {
      var rule := Rule(head, Words(bodies[k]));
      assert bodies[..k + 1][..k] == bodies[..k];
      productions := productions + [rule];
      terminals := terminals + rule.body;
    }
    assert bodies[..|bodies|] == bodies;
  }

  /** The data read from well-formed lines is coherent. */
  lemma ParsedCoherent(lines: seq<string>, nts: set<string>, ts: set<string>, productions: seq<Rule>, terminals: seq<string>)
    requires LinesOk(lines) && productions == AllRules(lines) && terminals == BodyWords(productions)
    requires nts == Heads(lines)
    requires ts == set t | t in terminals && t !in nts && t != EpsilonWord
    ensures Coherent(GrammarData(nts, ts, productions))
  {
    AllRulesHeads(lines);
    AllRulesWords(lines);
    forall t ensures t in ts <==> t != EpsilonWord && t !in nts && exists r :: r in productions && t in r.body {
      BodyWordsIn(productions, t);
    }
  }

  /** The symbols of a body: a head name is a non-terminal, the word `epsilon`
      is dropped (a sentence never holds epsilon) and any other word is a
      terminal. */
  function BodySymbols(nts: set<string>, words: seq<string>): (r: seq<Symbol>)
    ensures forall s :: s in r ==> (s.N? && s.name in nts) || (s.T? && s.name != EpsilonWord && s.name !in nts && s.name in words)
    ensures |r| <= |words|
  {
    if words == [] then []
    else
      var rest := BodySymbols(nts, words[1..]);
      if words[0] in nts then [N(words[0])] + rest
      else if words[0] == EpsilonWord then rest
      else [T(words[0])] + rest
  }

  /** `Grammar.from_json`, which is not part of this model: the grammar holds
      the non-terminals and terminals in the order the sets were listed, one
      production per entry in text order, and each non-terminal's own list of
      them.  Which non-terminal becomes the start symbol is decided there; it
      is a parameter here. */
  function FromData(d: GrammarData, ntOrder: seq<string>, tOrder: seq<string>, start: string): (g: Grammar)
    requires Coherent(d)
    requires Elems(ntOrder) == d.nonTerminals && NoDup(ntOrder)
    requires Elems(tOrder) == d.terminals && NoDup(tOrder)
    requires start in d.nonTerminals
    ensures WellFormed(g) && Consistent(g) && Slr.Named(g) && NoDup(g.nonTerminals)
    ensures g.start == start && g.nonTerminals == ntOrder && g.terminals == tOrder
    ensures |g.productions| == |d.productions|
    ensures forall i :: 0 <= i < |g.productions| ==> g.productions[i].lhs == d.productions[i].head
  {
    var ps := seq(|d.productions|, i requires 0 <= i < |d.productions| =>
                 Production(d.productions[i].head, BodySymbols(d.nonTerminals, d.productions[i].body)));
    var g := Grammar(ntOrder, tOrder, ps, map A | A in d.nonTerminals :: WithHead(ps, A), start);
    assert WellFormed(g) by {
      forall p | p in ps ensures p.lhs in ntOrder && forall s :: s in p.rhs ==> Declared(g, s) {
        var i :| 0 <= i < |ps| && ps[i] == p;
        var r := d.productions[i];
        assert r in d.productions;
        assert r.head in d.nonTerminals;
        forall s | s in p.rhs ensures Declared(g, s) {
          if s.T? {
            assert s.name in d.terminals;
          }
        }
      }
    }
    assert Slr.Named(g) by {
      forall A | A in ntOrder ensures A != "" {
        assert A in d.nonTerminals;
        var r :| r in d.productions && r.head == A;
        assert RuleWords(r);
      }
      forall t | t in tOrder ensures t != "" {
        assert t in d.terminals;
        var r :| r in d.productions && t in r.body;
        assert RuleWords(r);
      }
    }
    g
  }

  // ---------------------------------------------------------------------
  // Tokenizing the words to parse

  /** A tokenized word: its symbols followed by EOF, or the text of a word
      holding a token the grammar does not know. */
  datatype Word = Recognised(symbols: seq<Symbol>) | Unrecognised(text: string)

  /** The grammar knows every token. */
  predicate Known(g: Grammar, tokens: seq<string>) {
    forall i :: 0 <= i < |tokens| ==> Lookup(g, tokens[i]).Some?
  }

  /** The symbols of the tokens, while every one of them is known. */
  function Scan(g: Grammar, tokens: seq<string>): (r: Option<seq<Symbol>>)
    ensures r.Some? <==> Known(g, tokens)
    ensures r.Some? ==> |r.value| == |tokens| && forall i :: 0 <= i < |tokens| ==> Lookup(g, tokens[i]) == Some(r.value[i])
  {
    if tokens == [] then Some([])
    else
      var init := Scan(g, tokens[..|tokens| - 1]);
      var last := Lookup(g, tokens[|tokens| - 1]);
      if init.Some? && last.Some? then Some(init.value + [last.value]) else None
  }

  /** One word of the input: its tokens are cut at single spaces (so two
      spaces make an empty token, which no grammar read from text knows). */
  function TokenizeWord(g: Grammar, word: string): (r: Word)
    ensures r.Recognised? <==> Known(g, Split(word, " "))
    ensures r.Unrecognised? ==> r.text == word
    ensures r.Recognised? ==>
              && |r.symbols| == |Split(word, " ")| + 1 && r.symbols[|r.symbols| - 1] == EOF
              && forall i :: 0 <= i < |Split(word, " ")| ==> Lookup(g, Split(word, " ")[i]) == Some(r.symbols[i])
  {
    var tokens := Split(word, " ");
    var syms := Scan(g, tokens);
    if syms.Some? then Recognised(syms.value + [EOF])
    else Unrecognised(word)
  }

  /** Writing the names of known symbols separated by single spaces gives a
      word that is recognised as those symbols followed by the end marker. */
  lemma TokenizeJoined(g: Grammar, ss: seq<Symbol>)
    requires |ss| >= 1
    requires forall i :: 0 <= i < |ss| ==> Lookup(g, ss[i].name) == Some(ss[i]) && ' ' !in ss[i].name
    ensures TokenizeWord(g, Join(Names(ss), " ")) == Recognised(ss + [EOF])
  {
    var names := Names(ss);
    SplitOfJoin(names, " ");
    var r := TokenizeWord(g, Join(names, " "));
    assert Known(g, names);
    assert r.symbols[..|ss|] == ss;
    assert r.symbols == r.symbols[..|ss|] + [EOF];
  }

  function Names(ss: seq<Symbol>): (r: seq<string>)
    ensures |r| == |ss| && forall i :: 0 <= i < |ss| ==> r[i] == ss[i].name
  {
    if ss == [] then [] else Names(ss[..|ss| - 1]) + [ss[|ss| - 1].name]
  }

  // ---------------------------------------------------------------------
  // Regular grammars

  /** A production that a regular grammar may not have: a body longer than
      two, an epsilon body of a non-start head, a body starting with a
      non-terminal or a two-symbol body ending with a terminal. */
  predicate Irregular(g: Grammar, p: Production) {
    || |p.rhs| > 2
    || (|p.rhs| == 0 && p.lhs != g.start)
    || (|p.rhs| > 0 && p.rhs[0].N?)
    || (|p.rhs| == 2 && p.rhs[1].T?)
  }

  /** A regular grammar: right-linear productions, where the start may derive
      epsilon only if it appears in no body. */
  ghost predicate Regular(g: Grammar) {
    && (forall p :: p in g.productions ==> !Irregular(g, p))
    && !((exists p :: p in g.productions && |p.rhs| == 0) && (exists p :: p in g.productions && N(g.start) in p.rhs))
  }

  /** How many entries of `ns` differ from `start`. */
  function Others(ns: seq<string>, start: string): nat {
    if ns == [] then 0 else (if ns[0] != start then 1 else 0) + Others(ns[1..], start)
  }

  /** `RegularAutomata`'s numbering of the states: the start is 0 and the
      other names are numbered from 1 in the order they are popped off the end
      of `ns`; a name popped twice keeps its later number. */
  function Numbers(ns: seq<string>, start: string): map<string, nat> {
    if ns == [] then map[start := 0]
    else
      var m := Numbers(ns[1..], start);
      if ns[0] != start then m[ns[0] := 1 + Others(ns[1..], start)] else m
  }

  lemma {:induction false} OthersBound(s: seq<string>, start: string)
    ensures Others(s, start) + (if start in s then 1 else 0) <= |s|
  {
    if s != [] {
      OthersBound(s[1..], start);
      if start in s && s[0] != start { assert start in s[1..]; }
    }
  }

  /** The numbering covers the start and the names of `ns`, gives the start 0,
      the other names numbers from 1 to the count of names other than the
      start, and never gives two names the same number. */
  lemma {:induction false} NumbersFacts(ns: seq<string>, start: string)
    ensures Numbers(ns, start).Keys == {start} + Elems(ns)
    ensures Numbers(ns, start)[start] == 0
    ensures forall x :: x in Numbers(ns, start) && x != start ==> 1 <= Numbers(ns, start)[x] <= Others(ns, start)
    ensures forall x, y :: x in Numbers(ns, start) && y in Numbers(ns, start) && x != y ==>
              Numbers(ns, start)[x] != Numbers(ns, start)[y]
  {
    if ns != [] {
      NumbersFacts(ns[1..], start);
      assert Elems(ns) == {ns[0]} + Elems(ns[1..]) by {
        assert forall x :: x in ns <==> x == ns[0] || x in ns[1..];
      }
    }
  }

  /** A production `RegularAutomata` can translate: a body of at most two
      symbols whose second symbol, if any, names a state. */
  predicate Fits(stateOf: map<string, nat>, p: Production) {
    p.lhs in stateOf && |p.rhs| <= 2 && (|p.rhs| == 2 ==> p.rhs[1].name in stateOf)
  }

  predicate AllFit(stateOf: map<string, nat>, ps: seq<Production>) {
    forall j :: 0 <= j < |ps| ==> Fits(stateOf, ps[j])
  }

  /** The grammars `RegularAutomata` translates without raising. */
  predicate Translatable(g: Grammar) {
    forall p :: p in g.productions ==> |p.rhs| <= 2 && (|p.rhs| == 2 ==> p.rhs[1].name in g.nonTerminals)
  }

  /** A production that becomes a transition: `A -> a` or `A -> a B`. */
  predicate Moves(p: Production) {
    1 <= |p.rhs| <= 2
  }

  /** Some production has a one-symbol body, so the extra final state is used. */
  predicate HasUnit(g: Grammar) {
    exists p :: p in g.productions && |p.rhs| == 1
  }

  /** The transition key of a moving production: its head's state and the
      name of its first symbol. */
  function Key(stateOf: map<string, nat>, p: Production): (nat, string)
    requires Fits(stateOf, p) && Moves(p)
  {
    (stateOf[p.lhs], p.rhs[0].name)
  }

  /** Where a moving production leads: the state of its second symbol, or the
      extra final state. */
  function Target(stateOf: map<string, nat>, extra: nat, p: Production): nat
    requires Fits(stateOf, p) && Moves(p)
  {
    if |p.rhs| == 2 then stateOf[p.rhs[1].name] else extra
  }

  /** The destinations listed under `k`, in production order. */
  function Dests(stateOf: map<string, nat>, extra: nat, ps: seq<Production>, k: (nat, string)): seq<nat>
    requires AllFit(stateOf, ps)
  {
    if ps == [] then []
    else
      var p := ps[|ps| - 1];
      Dests(stateOf, extra, ps[..|ps| - 1], k) + (if Moves(p) && Key(stateOf, p) == k then [Target(stateOf, extra, p)] else [])
  }

  /** The final states: the heads of epsilon productions and the extra state
      once a one-symbol body is seen. */
  function Finals(stateOf: map<string, nat>, extra: nat, ps: seq<Production>): set<nat>
    requires AllFit(stateOf, ps)
  {
    if ps == [] then {}
    else
      var p := ps[|ps| - 1];
      Finals(stateOf, extra, ps[..|ps| - 1])
        + (if |p.rhs| == 0 then {stateOf[p.lhs]} else if |p.rhs| == 1 then {extra} else {})
  }

  /** The transition lists hold, under each key, exactly its destinations. */
  ghost predicate Lists(stateOf: map<string, nat>, extra: nat, ps: seq<Production>, trans: map<(nat, string), seq<nat>>)
    requires AllFit(stateOf, ps)
  {
    && (forall k :: k in trans ==> trans[k] == Dests(stateOf, extra, ps, k) && trans[k] != [])
    && (forall k :: k !in trans ==> Dests(stateOf, extra, ps, k) == [])
  }

  /** The destinations under `k` are exactly the targets of the productions
      with key `k`. */
  lemma {:induction false} DestsIn(stateOf: map<string, nat>, extra: nat, ps: seq<Production>, k: (nat, string), d: nat)
    requires AllFit(stateOf, ps)
    ensures d in Dests(stateOf, extra, ps, k) <==>
              exists j :: 0 <= j < |ps| && Moves(ps[j]) && Key(stateOf, ps[j]) == k && Target(stateOf, extra, ps[j]) == d
  {
    if ps != [] {
      var init := ps[..|ps| - 1];
      DestsIn(stateOf, extra, init, k, d);
      if exists j :: 0 <= j < |ps| && Moves(ps[j]) && Key(stateOf, ps[j]) == k && Target(stateOf, extra, ps[j]) == d {
        var j :| 0 <= j < |ps| && Moves(ps[j]) && Key(stateOf, ps[j]) == k && Target(stateOf, extra, ps[j]) == d;
        if j < |init| { assert init[j] == ps[j]; }
      }
      if d in Dests(stateOf, extra, init, k) {
        var j :| 0 <= j < |init| && Moves(init[j]) && Key(stateOf, init[j]) == k && Target(stateOf, extra, init[j]) == d;
        assert init[j] == ps[j];
      }
    }
  }

  /** A state is final exactly when it heads an epsilon production, or it is
      the extra state and some body has one symbol. */
  lemma {:induction false} FinalsIn(stateOf: map<string, nat>, extra: nat, ps: seq<Production>, q: nat)
    requires AllFit(stateOf, ps)
    ensures q in Finals(stateOf, extra, ps) <==>
              (exists j :: 0 <= j < |ps| && |ps[j].rhs| == 0 && stateOf[ps[j].lhs] == q)
              || (q == extra && exists j :: 0 <= j < |ps| && |ps[j].rhs| == 1)
  {
    if ps != [] {
      var init := ps[..|ps| - 1];
      FinalsIn(stateOf, extra, init, q);
      assert forall j :: 0 <= j < |init| ==> init[j] == ps[j];
      if exists j :: 0 <= j < |ps| && |ps[j].rhs| == 0 && stateOf[ps[j].lhs] == q {
        var j :| 0 <= j < |ps| && |ps[j].rhs| == 0 && stateOf[ps[j].lhs] == q;
        if j < |init| { assert init[j] == ps[j]; }
      }
      if q == extra && exists j :: 0 <= j < |ps| && |ps[j].rhs| == 1 {
        var j :| 0 <= j < |ps| && |ps[j].rhs| == 1;
        if j < |init| { assert init[j] == ps[j]; }
      }
    }
  }

  /** For a list of distinct names holding the start, the numbers are the
      states below the length of the list, one per name. */
  lemma NumbersBelow(ns: seq<string>, start: string)
    requires NoDup(ns) && start in ns
    ensures Numbers(ns, start).Keys == Elems(ns) && |Numbers(ns, start)| == |ns|
    ensures forall x :: x in Numbers(ns, start) ==> Numbers(ns, start)[x] < |ns|
  {
    NumbersFacts(ns, start);
    OthersBound(ns, start);
    NoDupCard(ns);
    assert Numbers(ns, start).Keys == Elems(ns);
  }

  /** The extra state is final exactly when some body has one symbol. */
  lemma FinalsExtra(g: Grammar, stateOf: map<string, nat>, extra: nat)
    requires AllFit(stateOf, g.productions)
    requires forall x :: x in stateOf ==> stateOf[x] < extra
    ensures extra in Finals(stateOf, extra, g.productions) <==> HasUnit(g)
  {
    FinalsIn(stateOf, extra, g.productions, extra);
    if exists j :: 0 <= j < |g.productions| && |g.productions[j].rhs| == 1 {
      var j :| 0 <= j < |g.productions| && |g.productions[j].rhs| == 1;
      assert g.productions[j] in g.productions;
    }
    if HasUnit(g) {
      var p :| p in g.productions && |p.rhs| == 1;
      var j :| 0 <= j < |g.productions| && g.productions[j] == p;
    }
  }

  /** The transition map after the move of `p` is appended under its key. */
  function AddMove(stateOf: map<string, nat>, extra: nat, p: Production, trans: map<(nat, string), seq<nat>>): map<(nat, string), seq<nat>>
    requires Fits(stateOf, p)
  {
    if Moves(p) then
      var k := Key(stateOf, p);
      trans[k := (if k in trans then trans[k] else []) + [Target(stateOf, extra, p)]]
    else trans
  }

  /** Appending the move of the last production keeps the lists exact. */
  lemma ListsStep(stateOf: map<string, nat>, extra: nat, ps: seq<Production>, trans: map<(nat, string), seq<nat>>)
    requires ps != [] && AllFit(stateOf, ps)
    requires Lists(stateOf, extra, ps[..|ps| - 1], trans)
    ensures Lists(stateOf, extra, ps, AddMove(stateOf, extra, ps[|ps| - 1], trans))
  {
  }

  /** Every key's origin is a state below `count`, and so is every destination
      once the extra state is counted whenever a one-symbol body exists. */
  lemma TargetsBelow(stateOf: map<string, nat>, extra: nat, ps: seq<Production>, trans: map<(nat, string), seq<nat>>, count: nat)
    requires AllFit(stateOf, ps) && Lists(stateOf, extra, ps, trans)
    requires forall x :: x in stateOf ==> stateOf[x] < extra
    requires extra <= count && ((exists j :: 0 <= j < |ps| && |ps[j].rhs| == 1) ==> extra < count)
    ensures forall k :: k in trans ==> k.0 < count
    ensures forall k, d :: k in trans && d in trans[k] ==> d < count
  {
    forall k, d | k in trans && d in trans[k] ensures k.0 < count && d < count {
      DestsIn(stateOf, extra, ps, k, d);
    }
    forall k | k in trans ensures k.0 < count {
      DestsIn(stateOf, extra, ps, k, trans[k][0]);
    }
  }

  /** The body of `RegularAutomata`'s loop over the productions, for a last
      production that fits: an epsilon body makes its head final, any other
      body appends its move, and a one-symbol body also makes the extra state
      final if it is not yet. */
  method Place(stateOf: map<string, nat>, extra: nat, ps: seq<Production>, finals: seq<nat>, trans: map<(nat, string), seq<nat>>)
    returns (finals': seq<nat>, trans': map<(nat, string), seq<nat>>)
    requires ps != [] && AllFit(stateOf, ps[..|ps| - 1]) && Fits(stateOf, ps[|ps| - 1])
    requires Elems(finals) == Finals(stateOf, extra, ps[..|ps| - 1])
    requires Lists(stateOf, extra, ps[..|ps| - 1], trans)
    ensures AllFit(stateOf, ps)
    ensures Elems(finals') == Finals(stateOf, extra, ps)
    ensures Lists(stateOf, extra, ps, trans')
  {
    var p := ps[|ps| - 1];
    assert AllFit(stateOf, ps) by {
      forall j | 0 <= j < |ps| ensures Fits(stateOf, ps[j]) {
        if j < |ps| - 1 { assert ps[j] == ps[..|ps| - 1][j]; }
      }
    }
    finals', trans' := finals, trans;
    if |p.rhs| == 0 {
      finals' := finals + [stateOf[p.lhs]];
    } else {
      var key := (stateOf[p.lhs], p.rhs[0].name);
      var prev := if key in trans then trans[key] else [];
      var target := if |p.rhs| == 2 then stateOf[p.rhs[1].name] else extra;
      trans' := trans[key := prev + [target]];
      if |p.rhs| == 1 && extra !in finals {
        finals' := finals + [extra];
      }
    }
    assert trans' == AddMove(stateOf, extra, p, trans);
    ListsStep(stateOf, extra, ps, trans);
  }

  /** The NFA of a regular grammar under the numbering `stateOf`: start 0,
      one state per non-terminal plus the extra final state when a one-symbol
      body uses it, the finals of `Finals` and the moves of `Dests`. */
  ghost predicate RegularNfa(g: Grammar, stateOf: map<string, nat>, a: Automata.Nfa) {
    var extra := |g.nonTerminals|;
    && stateOf == Numbers(g.nonTerminals, g.start) && AllFit(stateOf, g.productions)
    && a.start == 0
    && a.states == extra + (if HasUnit(g) then 1 else 0)
    && a.finals == Finals(stateOf, extra, g.productions)
    && Lists(stateOf, extra, g.productions, a.trans)
  }

  /** A regular grammar is one `RegularAutomata` translates. */
  lemma RegularTranslatable(g: Grammar)
    requires WellFormed(g) && Regular(g)
    ensures Translatable(g)
  {
    forall p | p in g.productions && |p.rhs| == 2 ensures p.rhs[1].name in g.nonTerminals {
      assert !Irregular(g, p);
      assert p.rhs[1] in p.rhs && Declared(g, p.rhs[1]);
    }
  }

  // ---------------------------------------------------------------------
  // The analyser

  const Right: string := "right"
  const Left: string := "left"

  /** The analyser of one grammar.  Every result starts out absent (`None`
      or `null`) and is filled in by the operation that computes it. */
  class GrammarAnalyser {
    const G: Grammar
    var firsts: Option<FirstTable>
    var follows: Option<Follows>
    var ll1Table: Option<Predictive.Table>
    var isLL1: Option<bool>
    var ll1Conflict: Option<Predictive.Conflict>
    var slr1Parser: ShiftReduce.Parser?
    var isSLR1: Option<bool>
    var lr1Parser: ShiftReduce.Parser?
    var isLR1: Option<bool>
    var lalr1Parser: ShiftReduce.Parser?
    var isLALR1: Option<bool>
    var withoutLeftRecursion: Option<Grammar>
    var withoutCommonPrefix: Option<Grammar>
    var almostFNCh: Option<Grammar>
    var isRegular: Option<bool>
    var nfa: Option<Automata.Nfa>
    var dfa: Automata.Dfa?
    var regex: Option<RegexSynthesis.Synthesis>
    var words: Option<seq<Word>>
    var parserType: Option<string>
    var derivations: seq<Option<seq<Production>>>
    /** `RegularAutomata`'s numbering of the states and the subsets behind
        the states of the DFA. */
    ghost var stateOf: map<string, nat>
    ghost var subsets: seq<set<nat>>

    /** The grammar `Grammar.from_json` builds from the text. */
    predicate Valid() {
      WellFormed(G) && Consistent(G) && Slr.Named(G) && NoDup(G.nonTerminals)
    }

    /** `__init__` once `parseGrammar` has read the grammar: nothing is
        computed yet and the list of words is empty. */
    constructor (g: Grammar)
      requires WellFormed(g) && Consistent(g) && Slr.Named(g) && NoDup(g.nonTerminals)
      ensures Valid() && G == g
      ensures firsts.None? && follows.None? && ll1Table.None? && isLL1.None? && ll1Conflict.None?
      ensures slr1Parser == null && isSLR1.None? && lr1Parser == null && isLR1.None?
      ensures lalr1Parser == null && isLALR1.None?
      ensures withoutLeftRecursion.None? && withoutCommonPrefix.None? && almostFNCh.None?
      ensures isRegular.None? && nfa.None? && dfa == null && regex.None?
      ensures words == Some([]) && parserType.None? && derivations == []
    {
      G := g;
      firsts, follows, ll1Table, isLL1, ll1Conflict := None, None, None, None, None;
      slr1Parser, isSLR1, lr1Parser, isLR1, lalr1Parser, isLALR1 := null, None, null, None, null, None;
      withoutLeftRecursion, withoutCommonPrefix, almostFNCh := None, None, None;
      isRegular, nfa, dfa, regex := None, None, null, None;
      words, parserType, derivations := Some([]), None, [];
      stateOf, subsets := map[], [];
    }

    /** `computeFirst`: the least solution of the FIRST equations. */
    method ComputeFirst()
      requires Valid()
      modifies this`firsts
      ensures firsts.Some?
      ensures firsts.value.ofSymbol.Keys == AllSymbols(G) && firsts.value.ofSentence.Keys == Bodies(G)
      ensures forall p :: p in G.productions ==> firsts.value.ofSentence[p.rhs] == LocalFirst(firsts.value.ofSymbol, p.rhs)
      ensures IsFirstSolution(G, firsts.value.ofSymbol)
      ensures forall F :: IsFirstSolution(G, F) ==> Below(firsts.value.ofSymbol, F)
    {
      var ft := ComputeFirsts(G);
      firsts := Some(ft);
    }

    /** `computeFollow`: the least solution of the FOLLOW equations, once
        FIRST is known. */
    method ComputeFollow()
      requires Valid() && firsts.Some? && AllSymbols(G) <= firsts.value.ofSymbol.Keys
      modifies this`follows
      ensures follows.Some? && follows.value.Keys == NonTerminalNames(G)
      ensures IsFollowSolution(G, firsts.value.ofSymbol, follows.value)
      ensures forall Fo :: IsFollowSolution(G, firsts.value.ofSymbol, Fo) ==> Below(follows.value, Fo)
    {
      var fo := ComputeFollows(G, firsts.value.ofSymbol);
      follows := Some(fo);
    }

    /** `LL1`: the LL(1) table, whether the grammar is LL(1), and the first
        conflict otherwise.  The predictive parser it also builds is the
        table driven by `LL1.Parse`. */
    method LL1()
      requires firsts.Some? && follows.Some?
      requires Predictive.TableInputs(firsts.value.ofSentence, follows.value, G.productions)
      modifies this`ll1Table, this`isLL1, this`ll1Conflict
      ensures isLL1 == Some(Predictive.IsLL1(firsts.value.ofSentence, follows.value, G.productions))
      ensures isLL1 == Some(true) <==> ll1Conflict.None?
      ensures ll1Table.Some?
    {
      var M, b, c := Predictive.BuildParsingTable(firsts.value.ofSentence, follows.value, G.productions);
      ll1Table, isLL1, ll1Conflict := Some(M), Some(b), c;
    }

    /** `SLR1`: the SLR(1) parser and its flag. */
    method SLR1()
      requires Valid() && AugmentedStart !in G.nonTerminals
      modifies this`slr1Parser, this`isSLR1
      ensures slr1Parser != null && fresh(slr1Parser) && isSLR1 == Some(slr1Parser.flag)
    {
      var p, _, _, _, _, _, _, _, _ := Slr.Slr1Parser(G);
      slr1Parser, isSLR1 := p, Some(p.flag);
    }

    /** `LR1`: the LR(1) parser and its flag. */
    method LR1()
      requires Valid() && AugmentedStart !in G.nonTerminals
      modifies this`lr1Parser, this`isLR1
      ensures lr1Parser != null && fresh(lr1Parser) && isLR1 == Some(lr1Parser.flag)
    {
      var p, _, _, _, _, _, _ := Lr1.Lr1Parser(G);
      lr1Parser, isLR1 := p, Some(p.flag);
    }

    /** `LALR1`: builds the LALR(1) parser but leaves `isLALR1` as it was. */
    method LALR1()
      requires Valid() && AugmentedStart !in G.nonTerminals
      modifies this`lalr1Parser
      ensures lalr1Parser != null && fresh(lalr1Parser) && isLALR1 == old(isLALR1)
    {
      var p, _, _, _, _, _, _, _, _, _, _ := Lalr.LalrParser(G);
      lalr1Parser := p;
    }

    /** `tokenizer`: empty text leaves no list of words; otherwise each line
        of the text is one word, appended to the list already there. */
    method Tokenizer(text: string)
      requires text == "" || words.Some?
      modifies this`words
      ensures text == "" ==> words.None?
      ensures text != "" ==>
                var lines := Split(text, LineBreak);
                && words.Some? && |words.value| == |old(words).value| + |lines|
                && words.value[..|old(words).value|] == old(words).value
                && forall i :: 0 <= i < |lines| ==> words.value[|old(words).value| + i] == TokenizeWord(G, lines[i])
    {
      if text == "" {
        words := None;
        return;
      }
      var lines := Split(text, LineBreak);
      var ws := words.value;
      ghost var n := |ws|;
      for i := 0 to |lines|
        invariant |ws| == n + i && ws[..n] == old(words).value
        invariant forall j :: 0 <= j < i ==> ws[n + j] == TokenizeWord(G, lines[j])
      {
        var w := TokenizeOne(lines[i]);
        ws := ws + [w];
      }
      words := Some(ws);
    }

    /** The body of the loop over the words: the tokens are looked up until
        one is unknown. */
    method TokenizeOne(word: string) returns (w: Word)
      ensures w == TokenizeWord(G, word)
    {
      var tokens := Split(word, " ");
      var aux: seq<Symbol> := [];
      var k := 0;
      while k < |tokens|
        invariant k <= |tokens| && Scan(G, tokens[..k]) == Some(aux)
      {
        var s := Lookup(G, tokens[k]);
        if s.None? {
          assert !Known(G, tokens);
          return Unrecognised(word);
        }
        assert tokens[..k + 1][..k] == tokens[..k];
        aux := aux + [s.value];
        k := k + 1;
      }
      assert tokens[..k] == tokens;
      return Recognised(aux + [EOF]);
    }

    /** `IsRegular`: whether the grammar is regular; the answer is also kept. */
    method IsRegular() returns (r: bool)
      modifies this`isRegular
      ensures r <==> Regular(G)
      ensures isRegular == Some(r)
    {
      var startSymbol := false;
      var epsilon := false;
      var ps := G.productions;
      for i := 0 to |ps|
        invariant forall j :: 0 <= j < i ==> !Irregular(G, ps[j])
        invariant epsilon <==> exists j :: 0 <= j < i && |ps[j].rhs| == 0
        invariant startSymbol <==> exists j :: 0 <= j < i && N(G.start) in ps[j].rhs
      {
        var p := ps[i];
        assert p in G.productions;
        if |p.rhs| > 2 {
          isRegular := Some(false);
          return false;
        }
        if |p.rhs| == 0 {
          if p.lhs != G.start {
            assert Irregular(G, p);
            isRegular := Some(false);
            return false;
          }
          epsilon := true;
          continue;
        }
        if !p.rhs[0].T? {
          isRegular := Some(false);
          return false;
        }
        if |p.rhs| == 2 && p.rhs[1].T? {
          isRegular := Some(false);
          return false;
        }
        ghost var seen := startSymbol;
        for k := 0 to |p.rhs|
          invariant startSymbol <==> seen || N(G.start) in p.rhs[..k]
        {
          assert p.rhs[..k + 1] == p.rhs[..k] + [p.rhs[k]];
          if p.rhs[k] == N(G.start) {
            startSymbol := true;
          }
        }
        assert p.rhs[..|p.rhs|] == p.rhs;
      }
      r := !(epsilon && startSymbol);
      isRegular := Some(r);
    }

    /** `RegularAutomata`: the NFA of a right-linear grammar and its DFA.  The
        start is state 0 and the other non-terminals are numbered from 1; `A ->
        epsilon` makes `A` final, `A -> a B` is a move from `A` to `B` on `a`
        and `A -> a` a move to one extra final state, numbered after the
        non-terminals and counted only when it is used.  A production it
        cannot translate raises, and then nothing is assigned. */
    method RegularAutomata() returns (ok: bool)
      requires Valid()
      modifies this`nfa, this`dfa, this`stateOf, this`subsets
      ensures ok <==> Translatable(G)
      ensures !ok ==> nfa == old(nfa) && dfa == old(dfa)
      ensures ok ==> nfa.Some? && RegularNfa(G, stateOf, nfa.value)
      ensures ok ==> dfa != null && fresh(dfa) && Automata.DfaOf(nfa.value, subsets, dfa) && dfa.Labelled()
    {
      var a, states := BuildNfa();
      ok := a.Some?;
      if !ok {
        return;
      }
      var d, sets := Automata.NfaToDfa(a.value);
      nfa, dfa := a, d;
      stateOf, subsets := states, sets;
    }

    /** `regexFromDfa`: the expression of the DFA `RegularAutomata` built,
        which eliminating states consumes.  The outcome is recorded; it is
        an endless loop when the start loops on itself without being final,
        and with a single final it means what `ReadOff` says. */
    method RegexFromDfa(fuel: nat)
      requires dfa != null && dfa.Labelled() && dfa.start < dfa.states
      modifies this`regex, dfa`inT, dfa`outT, dfa`states, dfa`finals, dfa`trans
      ensures regex.Some?
      ensures old(RegexSynthesis.StartLoops(dfa)) ==> regex.value.Diverged?
      ensures |old(dfa.finals)| == 1 && regex.value.Found? ==> RegexSynthesis.ReadOff(dfa.inT, old(dfa.finals)[0], regex.value.regex)
      ensures |old(dfa.finals)| <= 1 && regex.value.OutOfFuel? ==> fuel <= old(dfa.states)
    {
      RegexSynthesis.LabelledShaped(dfa);
      var r, order, parts := RegexSynthesis.RegexFromDfa(dfa, fuel);
      regex := Some(r);
    }

    /** The NFA `RegularAutomata` builds, or nothing where it raises. */
    method BuildNfa() returns (a: Option<Automata.Nfa>, ghost states: map<string, nat>)
      requires Valid()
      ensures a.Some? <==> Translatable(G)
      ensures a.Some? ==> RegularNfa(G, states, a.value) && a.value.Targets() && 0 <= a.value.start < a.value.states
    {
      var numbers := Numbering();
      states := numbers;
      NumbersBelow(G.nonTerminals, G.start);
      var extra := |numbers|;
      var ok, finals, transitions := Translate(numbers, extra);
      if !ok {
        return None, states;
      }
      var count := |G.nonTerminals| + (if extra in finals then 1 else 0);
      FinalsExtra(G, numbers, extra);
      TargetsBelow(numbers, extra, G.productions, transitions, count);
      a := Automata.NewNfa(count, finals, transitions, 0);
    }

    /** The first loop of `RegularAutomata`: it pops the non-terminals off the
        end of a copy of the list and numbers all but the start. */
    method Numbering() returns (states: map<string, nat>)
      ensures states == Numbers(G.nonTerminals, G.start)
    {
      var ns := G.nonTerminals;
      states := map[G.start := 0];
      var idx := 1;
      var rest := ns;
      while |rest| > 0
        invariant |rest| <= |ns| && rest == ns[..|rest|]
        invariant states == Numbers(ns[|rest|..], G.start)
        invariant idx == 1 + Others(ns[|rest|..], G.start)
      {
        var m := |rest| - 1;
        var state := rest[m];
        assert ns[m..][1..] == ns[m + 1..] && ns[m..][0] == state;
        rest := rest[..m];
        if state != G.start {
          states := states[state := idx];
          idx := idx + 1;
        }
      }
      assert ns[0..] == ns;
    }

    /** The loop over the productions of `RegularAutomata`: the final states
        and the transition lists.  `ok` is false where the source raises. */
    method Translate(states: map<string, nat>, extra: nat)
      returns (ok: bool, finals: seq<nat>, transitions: map<(nat, string), seq<nat>>)
      requires states.Keys == Elems(G.nonTerminals)
      requires forall p :: p in G.productions ==> p.lhs in G.nonTerminals
      ensures ok <==> Translatable(G)
      ensures ok ==> AllFit(states, G.productions)
      ensures ok ==> Elems(finals) == Finals(states, extra, G.productions)
      ensures ok ==> Lists(states, extra, G.productions, transitions)
    {
      var ps := G.productions;
      finals, transitions := [], map[];
      for i := 0 to |ps|
        invariant AllFit(states, ps[..i])
        invariant Elems(finals) == Finals(states, extra, ps[..i])
        invariant Lists(states, extra, ps[..i], transitions)
      {
        var p := ps[i];
        assert p in G.productions;
        if |p.rhs| > 2 || (|p.rhs| == 2 && p.rhs[1].name !in states) {
          assert !Translatable(G);
          return false, [], map[];
        }
        assert ps[..i + 1][..i] == ps[..i] && ps[..i + 1][i] == p;
        finals, transitions := Place(states, extra, ps[..i + 1], finals, transitions);
      }
      assert ps[..|ps|] == ps;
      forall q | q in G.productions ensures |q.rhs| <= 2 && (|q.rhs| == 2 ==> q.rhs[1].name in G.nonTerminals) {
        var j :| 0 <= j < |ps| && ps[j] == q;
        assert Fits(states, ps[j]);
      }
      ok := true;
    }

    /** `getParserType`: "right" when a shift-reduce table was built without
        conflicts, otherwise "left" when the grammar is LL(1); otherwise the
        type stays as it was. */
    method GetParserType()
      modifies this`parserType
      ensures parserType ==
                if isSLR1 == Some(true) || isLR1 == Some(true) || isLALR1 == Some(true) then Some(Right)
                else if isLL1 == Some(true) then Some(Left)
                else old(parserType)
    {
      if isSLR1 == Some(true) || isLR1 == Some(true) || isLALR1 == Some(true) {
        parserType := Some(Right);
      } else if isLL1 == Some(true) {
        parserType := Some(Left);
      }
    }

    /** `getDerivations`: one entry per word, the parser's output for a
        recognised word and nothing for the others. */
    method GetDerivations(parse: seq<Symbol> -> Option<seq<Production>>)
      requires words.Some?
      modifies this`derivations
      ensures |derivations| == |old(derivations)| + |words.value|
      ensures derivations[..|old(derivations)|] == old(derivations)
      ensures forall i :: 0 <= i < |words.value| ==>
                derivations[|old(derivations)| + i] ==
                  if words.value[i].Recognised? then parse(words.value[i].symbols) else None
    {
      var ws := words.value;
      ghost var n := |derivations|;
      for i := 0 to |ws|
        invariant |derivations| == n + i && derivations[..n] == old(derivations)
        invariant forall j :: 0 <= j < i ==>
                    derivations[n + j] == if ws[j].Recognised? then parse(ws[j].symbols) else None
      {
        if ws[i].Recognised? {
          derivations := derivations + [parse(ws[i].symbols)];
        } else {
          derivations := derivations + [None];
        }
      }
    }
  
    /** `withoutLeftRecursion`: the grammar without left recursion, kept when
        the pass finishes; where it raises (`Failed`, never on a registered
        grammar) or runs out of fuel the field is left as it was. */
    method WithoutLeftRecursion(fuel: nat) returns (r: LeftRecursion.Outcome)
      modifies this`withoutLeftRecursion
      ensures withoutLeftRecursion == if r.Done? then Some(r.grammar) else old(withoutLeftRecursion)
      ensures r.Done? ==> G.nonTerminals <= r.grammar.nonTerminals
      ensures r.Done? ==> r.grammar.terminals == G.terminals && r.grammar.start == G.start
      ensures r.Done? && NoDup(r.grammar.nonTerminals) ==>
                forall X :: X in r.grammar.nonTerminals ==> LeftRecursion.Clean(r.grammar, X)
      ensures (forall X :: X in G.nonTerminals ==> LeftRecursion.Clean(G, X)) && |G.nonTerminals| <= fuel ==> r == LeftRecursion.Done(G)
      ensures LeftRecursion.Registered(G) ==> !r.Failed?
      ensures LeftRecursion.Registered(G) && r.Done? ==>
                LeftRecursion.Passes(LeftRecursion.ShapeOf(G), 0, fuel) == Some(LeftRecursion.ShapeOf(r.grammar))
      ensures LeftRecursion.Registered(G) && r.Unfinished? ==> LeftRecursion.Passes(LeftRecursion.ShapeOf(G), 0, fuel) == None
    {
      r := LeftRecursion.WithoutLeftRecursion(G, fuel);
      if r.Done? {
        withoutLeftRecursion := Some(r.grammar);
      }
    }

    /** `withoutCommonPrefix`: left factoring of the grammar without left
        recursion; the field is empty when the fuel runs out. */
    method WithoutCommonPrefix(fuel: nat)
      requires withoutLeftRecursion.Some?
      modifies this`withoutCommonPrefix
      ensures var g := withoutLeftRecursion.value;
              withoutCommonPrefix.Some? ==>
                var h := withoutCommonPrefix.value;
                && |h.nonTerminals| >= |g.nonTerminals| && h.nonTerminals[..|g.nonTerminals|] == g.nonTerminals
                && h.terminals == g.terminals && h.start == g.start
                && (forall A :: A in g.nonTerminals && !CommonPrefix.EndsPrima(A) ==> h.RulesOf(A) == g.RulesOf(A))
                && (CommonPrefix.Plain(g) ==> forall i :: 0 <= i < |g.nonTerminals| ==> CommonPrefix.Finished(g, i, h.productions))
      ensures var g := withoutLeftRecursion.value;
              CommonPrefix.Plain(g) && CommonPrefix.Unshared(g) && |g.nonTerminals| <= fuel ==> withoutCommonPrefix.Some?
    {
      withoutCommonPrefix := CommonPrefix.WithoutCommonPrefix(withoutLeftRecursion.value, fuel);
    }

    /** `almostFNCh`: useless symbols, then epsilon productions, then unit
        productions are removed from the factored grammar. */
    method AlmostFNCh() returns (ghost useful: Grammar, ghost epsilonFree: Grammar, ghost emptyWord: bool)
      requires withoutCommonPrefix.Some? && NoDup(withoutCommonPrefix.value.nonTerminals)
      modifies this`almostFNCh
      ensures Useless.IsUselessResult(withoutCommonPrefix.value, useful)
      ensures (epsilonFree, emptyWord) == Epsilon.EpsilonResult(useful)
      ensures almostFNCh.Some?
      ensures Elems(almostFNCh.value.productions) == Unitary.UnitaryProductions(epsilonFree, emptyWord)
      ensures almostFNCh.value.terminals == epsilonFree.terminals
      ensures almostFNCh.value.start == if emptyWord then Unitary.NewStart(epsilonFree) else epsilonFree.start
    {
      var grammar := Useless.WithoutUselessSymbols(withoutCommonPrefix.value);
      useful := grammar;
      var empty;
      grammar, empty := Epsilon.WithoutEpsilonTransitions(grammar);
      epsilonFree, emptyWord := grammar, empty;
      var almost, _ := Unitary.WithoutUnitaryProductions(grammar, empty);
      almostFNCh := Some(almost);
    }
  }
}
