/** The two ways the analyser cuts text, after Python's `str.split`: on a
    given separator (`s.split(sep)`) and on runs of white space
    (`s.split()`). */
module Text {

  /** `s.split(sep)` for a non-empty separator: the pieces between the
      occurrences of `sep`, found left to right without overlapping.  There is
      always at least one piece. */
  function Split(s: string, sep: string): (r: seq<string>)
    requires |sep| > 0
    ensures |r| >= 1
    decreases |s|
  {
    if |s| < |sep| then [s]
    else if s[..|sep|] == sep then [""] + Split(s[|sep|..], sep)
    else
      var rest := Split(s[1..], sep);
      [[s[0]] + rest[0]] + rest[1..]
  }

  /** `sep.join(parts)`. */
  function Join(parts: seq<string>, sep: string): string
    decreases |parts|
  {
    if |parts| == 0 then ""
    else if |parts| == 1 then parts[0]
    else parts[0] + sep + Join(parts[1..], sep)
  }

  /** `sep` occurs somewhere in `s`. */
  ghost predicate Contains(s: string, sep: string) {
    exists i: nat :: OccursAt(s, sep, i)
  }

  /** `sep` occurs in `s` at position `i`. */
  predicate OccursAt(s: string, sep: string, i: nat) {
    i + |sep| <= |s| && s[i..i + |sep|] == sep
  }

  /** Joining the pieces with the separator gives back the text. */
  lemma {:induction false} SplitJoin(s: string, sep: string)
    requires |sep| > 0
    ensures Join(Split(s, sep), sep) == s
    decreases |s|
  {
    if |s| < |sep| {
    } else if s[..|sep|] == sep {
      var rest := Split(s[|sep|..], sep);
      SplitJoin(s[|sep|..], sep);
      assert ([""] + rest)[1..] == rest;
      assert s == s[..|sep|] + s[|sep|..];
    } else {
      var rest := Split(s[1..], sep);
      SplitJoin(s[1..], sep);
      JoinCons(s[0], rest, sep);
      assert s == [s[0]] + s[1..];
    }
  }

  lemma JoinCons(c: char, parts: seq<string>, sep: string)
    requires |parts| >= 1
    ensures Join([[c] + parts[0]] + parts[1..], sep) == [c] + Join(parts, sep)
  {
    var ps := [[c] + parts[0]] + parts[1..];
    assert ps[1..] == parts[1..];
  }

  /** The first piece is a prefix of the text. */
  lemma {:induction false} SplitFirst(s: string, sep: string)
    requires |sep| > 0
    ensures |Split(s, sep)[0]| <= |s| && Split(s, sep)[0] == s[..|Split(s, sep)[0]|]
    decreases |s|
  {
    if |s| >= |sep| && s[..|sep|] != sep {
      SplitFirst(s[1..], sep);
    }
  }

  /** No piece contains the separator. */
  lemma {:induction false} SplitPieces(s: string, sep: string)
    requires |sep| > 0
    ensures forall i :: 0 <= i < |Split(s, sep)| ==> !Contains(Split(s, sep)[i], sep)
    decreases |s|
  {
    var r := Split(s, sep);
    if |s| < |sep| {
      forall k: nat ensures !OccursAt(s, sep, k) { }
    } else if s[..|sep|] == sep {
      var rest := Split(s[|sep|..], sep);
      SplitPieces(s[|sep|..], sep);
      forall i | 0 <= i < |r| ensures !Contains(r[i], sep) {
        if i > 0 { assert r[i] == rest[i - 1]; }
      }
    } else {
      var rest := Split(s[1..], sep);
      SplitPieces(s[1..], sep);
      SplitFirst(s[1..], sep);
      var first := [s[0]] + rest[0];
      assert !Contains(rest[0], sep);
      forall k: nat ensures !OccursAt(first, sep, k) {
        if k == 0 {
          if |sep| <= |first| {
            assert first[..|sep|] == s[..|sep|];
          }
        } else if k + |sep| <= |first| {
          assert first[k..k + |sep|] == rest[0][k - 1..k - 1 + |sep|];
          assert !OccursAt(rest[0], sep, k - 1);
        }
      }
      forall i | 0 <= i < |r| ensures !Contains(r[i], sep) {
        if i > 0 { assert r[i] == rest[i]; }
      }
    }
  }

  /** The characters Python's `str.split()` treats as white space. */
  predicate IsSpace(c: char) {
    || c == ' ' || c == '\t' || c == '\n' || c == '\r' || c == '\U{000B}' || c == '\U{000C}'
    || ('\U{001C}' <= c <= '\U{001F}') || c == '\U{0085}' || c == '\U{00A0}' || c == '\U{1680}'
    || ('\U{2000}' <= c <= '\U{200A}') || c == '\U{2028}' || c == '\U{2029}' || c == '\U{202F}'
    || c == '\U{205F}' || c == '\U{3000}'
  }

  predicate NoSpace(w: string) {
    forall i :: 0 <= i < |w| ==> !IsSpace(w[i])
  }

  /** The length of the run of non-space characters `s` starts with. */
  function Run(s: string): (n: nat)
    ensures n <= |s| && NoSpace(s[..n])
    ensures n < |s| ==> IsSpace(s[n])
  {
    if s == [] || IsSpace(s[0]) then 0
    else
      var m := Run(s[1..]);
      assert s[..m + 1] == [s[0]] + s[1..][..m];
      m + 1
  }

  /** `s.split()`: the maximal runs of non-space characters, in order; white
      space at either end or repeated between words yields no empty word. */
  function Words(s: string): (r: seq<string>)
    ensures forall i :: 0 <= i < |r| ==> |r[i]| > 0 && NoSpace(r[i])
    decreases |s|
  {
    if s == [] then []
    else if IsSpace(s[0]) then Words(s[1..])
    else
      var n := Run(s);
      [s[..n]] + Words(s[n..])
  }

  /** The run of a word followed by white space or by nothing is that word. */
  lemma {:induction false} RunOfWord(w: string, t: string)
    requires NoSpace(w)
    requires t == [] || IsSpace(t[0])
    ensures Run(w + t) == |w|
    decreases |w|
  {
    if w != [] {
      assert (w + t)[1..] == w[1..] + t;
      RunOfWord(w[1..], t);
    } else {
      assert w + t == t;
    }
  }

  /** `" ".join(ws).split() == ws` for non-empty words without white space. */
  lemma {:induction false} WordsJoin(ws: seq<string>)
    requires forall i :: 0 <= i < |ws| ==> |ws[i]| > 0 && NoSpace(ws[i])
    ensures Words(Join(ws, " ")) == ws
    decreases |ws|
  {
    if |ws| == 1 {
      RunOfWord(ws[0], []);
      assert ws[0] + [] == ws[0];
      assert ws[0][|ws[0]|..] == [];
    } else if |ws| > 1 {
      var tail := Join(ws[1..], " ");
      var s := ws[0] + " " + tail;
      assert s == ws[0] + (" " + tail);
      RunOfWord(ws[0], " " + tail);
      assert s[..|ws[0]|] == ws[0];
      assert s[|ws[0]|..] == " " + tail;
      assert (" " + tail)[1..] == tail;
      WordsJoin(ws[1..]);
      assert Words(s) == [ws[0]] + Words(tail);
    }
  }

  /** `sep.join(parts).split(sep) == parts` when no part contains the first
      character of the separator. */
  lemma {:induction false} SplitOfJoin(parts: seq<string>, sep: string)
    requires |parts| >= 1 && |sep| > 0
    requires forall i :: 0 <= i < |parts| ==> sep[0] !in parts[i]
    ensures Split(Join(parts, sep), sep) == parts
    decreases |parts|, |parts[0]|
  {
    var s := Join(parts, sep);
    if |parts| > 1 {
      assert s == parts[0] + sep + Join(parts[1..], sep);
    }
    if parts[0] == [] {
      if |parts| > 1 {
        assert s == sep + Join(parts[1..], sep);
        assert s[..|sep|] == sep;
        assert s[|sep|..] == Join(parts[1..], sep);
        SplitOfJoin(parts[1..], sep);
        assert [""] + parts[1..] == parts;
      }
    } else if |s| < |sep| {
      assert |parts| == 1;
    } else {
      var head := parts[0];
      var parts' := [head[1..]] + parts[1..];
      assert parts'[1..] == parts[1..];
      forall i | 0 <= i < |parts'| ensures sep[0] !in parts'[i] {
        if i == 0 { assert forall x :: x in head[1..] ==> x in head; }
      }
      assert s == [head[0]] + Join(parts', sep) by {
        assert head == [head[0]] + head[1..];
        if |parts| == 1 {
        } else {
          assert Join(parts', sep) == head[1..] + sep + Join(parts[1..], sep);
        }
      }
      assert s[..|sep|] != sep by { assert s[0] == head[0] && head[0] in head; }
      assert s[1..] == Join(parts', sep);
      SplitOfJoin(parts', sep);
      assert [head[0]] + parts'[0] == head;
      assert [[head[0]] + parts'[0]] + parts'[1..] == parts;
    }
  }

  /** Every character of `sep.join(parts)` comes from the separator or from a
      part. */
  lemma {:induction false} JoinChars(parts: seq<string>, sep: string, c: char)
    requires c !in sep && forall i :: 0 <= i < |parts| ==> c !in parts[i]
    ensures c !in Join(parts, sep)
    decreases |parts|
  {
    if |parts| > 1 {
      JoinChars(parts[1..], sep, c);
    }
  }
}
