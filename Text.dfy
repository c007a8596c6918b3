/** The text handling behind list creation: JavaScript's `String.prototype.trim`,
    `split('\n')`, and the word parsing of `createWordList`. */
module Text {
  import opened Sequences

  /** The characters `trim` strips: ECMAScript WhiteSpace (tab, vertical tab,
      form feed, the byte-order mark and every space separator) and
      LineTerminator (line feed, carriage return, U+2028, U+2029). */
  predicate IsWhitespace(c: char)
  {
    c == '\t' || c == '\n' || c == '\U{000B}' || c == '\U{000C}' || c == '\r' ||
    c == ' ' || c == '\U{00A0}' || c == '\U{1680}' || ('\U{2000}' <= c <= '\U{200A}') ||
    c == '\U{2028}' || c == '\U{2029}' || c == '\U{202F}' || c == '\U{205F}' ||
    c == '\U{3000}' || c == '\U{FEFF}'
  }

  predicate AllWhitespace(s: string)
  {
    forall k :: 0 <= k < |s| ==> IsWhitespace(s[k])
  }

  /** Neither the first nor the last character is whitespace. */
  predicate IsTrimmed(s: string)
  {
    s == [] || (!IsWhitespace(s[0]) && !IsWhitespace(s[|s| - 1]))
  }

  /** The number of whitespace characters `s` starts with. */
  function Leading(s: string): (n: nat)
    ensures n <= |s| && AllWhitespace(s[..n])
    ensures n < |s| ==> !IsWhitespace(s[n])
  {
    if s != [] && IsWhitespace(s[0]) then
      var m := Leading(s[1..]);
      LeadingStep(s, m);
      m + 1
    else 0
  }

  lemma LeadingStep(s: string, m: nat)
    requires s != [] && IsWhitespace(s[0])
    requires m <= |s| - 1 && AllWhitespace(s[1..][..m])
    ensures AllWhitespace(s[..m + 1])
  {
    var lead, lead' := s[..m + 1], s[1..][..m];
    forall k | 0 <= k < |lead| ensures IsWhitespace(lead[k]) {
      if k > 0 {
        assert lead[k] == lead'[k - 1];
      }
    }
  }

  /** The number of whitespace characters `s` ends with. */
  function Trailing(s: string): (n: nat)
    ensures n <= |s| && AllWhitespace(s[|s| - n..])
    ensures n < |s| ==> !IsWhitespace(s[|s| - n - 1])
  {
    if s != [] && IsWhitespace(s[|s| - 1]) then
      var m := Trailing(s[..|s| - 1]);
      TrailingStep(s, m);
      m + 1
    else 0
  }

  lemma TrailingStep(s: string, m: nat)
    requires s != [] && IsWhitespace(s[|s| - 1])
    requires m <= |s| - 1 && AllWhitespace(s[..|s| - 1][|s| - 1 - m..])
    ensures AllWhitespace(s[|s| - 1 - m..])
  {
    var trail, trail' := s[|s| - 1 - m..], s[..|s| - 1][|s| - 1 - m..];
    forall k | 0 <= k < |trail| ensures IsWhitespace(trail[k]) {
      if k < |trail'| {
        assert trail[k] == trail'[k];
      }
    }
  }

  /** `s.trim()`: `s` without its leading and trailing whitespace. The result
      is the piece of `s` that follows the leading whitespace, neither of its
      ends is whitespace, everything after it is whitespace, and it is empty
      exactly when `s` is all whitespace. */
  function Trim(s: string): (r: string)
    ensures IsTrimmed(r)
    ensures Leading(s) + |r| <= |s| && r == s[Leading(s)..Leading(s) + |r|]
    ensures AllWhitespace(s[..Leading(s)]) && AllWhitespace(s[Leading(s) + |r|..])
    ensures r == [] <==> AllWhitespace(s)
  {
    var rest := s[Leading(s)..];
    TrimFacts(s);
    rest[..|rest| - Trailing(rest)]
  }

  lemma TrimFacts(s: string)
    ensures var i := Leading(s); var rest := s[i..]; var r := rest[..|rest| - Trailing(rest)];
      IsTrimmed(r) && r == s[i..i + |r|] && AllWhitespace(s[i + |r|..]) &&
      (r == [] <==> AllWhitespace(s))
  {
    TrimmedEnds(s);
    TrimPiece(s);
    TrimEmpty(s);
  }

  lemma TrimmedEnds(s: string)
    ensures var rest := s[Leading(s)..]; IsTrimmed(rest[..|rest| - Trailing(rest)])
  {
    var i := Leading(s);
    var rest := s[i..];
    var j := Trailing(rest);
    var r := rest[..|rest| - j];
    if r != [] {
      assert r[0] == s[i];
      assert r[|r| - 1] == rest[|rest| - j - 1];
    }
  }

  lemma TrimPiece(s: string)
    ensures var i := Leading(s); var rest := s[i..]; var r := rest[..|rest| - Trailing(rest)];
      r == s[i..i + |r|] && AllWhitespace(s[i + |r|..])
  {
    TrimSlice(s);
    TrimAfter(s);
  }

  lemma TrimSlice(s: string)
    ensures var i := Leading(s); var rest := s[i..]; var r := rest[..|rest| - Trailing(rest)];
      r == s[i..i + |r|]
  {
    var i := Leading(s);
    InnerSlice(s, i, Trailing(s[i..]));
  }

  lemma TrimAfter(s: string)
    ensures var i := Leading(s); var rest := s[i..]; var r := rest[..|rest| - Trailing(rest)];
      AllWhitespace(s[i + |r|..])
  {
    var i := Leading(s);
    var j := Trailing(s[i..]);
    InnerSlice(s, i, j);
    assert AllWhitespace(s[i..][|s| - i - j..]);
  }

  /** Cutting `i` from the front and then `j` from the back is one slice, and
      what the back cut drops is the tail of `s`. */
  lemma InnerSlice<T>(s: seq<T>, i: nat, j: nat)
    requires i + j <= |s|
    ensures s[i..][..|s| - i - j] == s[i..|s| - j]
    ensures s[i..][|s| - i - j..] == s[|s| - j..]
  {
  }

  lemma TrimEmpty(s: string)
    ensures var rest := s[Leading(s)..]; rest[..|rest| - Trailing(rest)] == [] <==> AllWhitespace(s)
  {
    var i := Leading(s);
    var rest := s[i..];
    LeadingAll(s);
    if i < |s| {
      assert rest[0] == s[i];
      assert !AllWhitespace(rest);
      TrailingAll(rest);
    }
  }

  lemma LeadingAll(s: string)
    ensures Leading(s) == |s| <==> AllWhitespace(s)
  {
    if Leading(s) == |s| {
      assert s[..|s|] == s;
    }
  }

  lemma TrailingAll(s: string)
    ensures Trailing(s) == |s| <==> AllWhitespace(s)
  {
    if Trailing(s) == |s| {
      assert s[0..] == s;
    }
  }

  /** Trimming is idempotent. */
  lemma TrimOfTrimmed(s: string)
    requires IsTrimmed(s)
    ensures Trim(s) == s
  {
    if s != [] {
      assert Leading(s) == 0;
      assert Trailing(s) == 0;
      assert s[0..] == s;
    }
  }

  /** `s.split('\n')`: the pieces between line feeds, at least one. Pieces
      contain no line feed and, joined with line feeds, give back `s`. */
  function SplitLines(s: string): (lines: seq<string>)
    ensures |lines| >= 1
    ensures forall k :: 0 <= k < |lines| ==> '\n' !in lines[k]
    ensures JoinLines(lines) == s
  {
    if s == [] then [[]]
    else
      var rest := SplitLines(s[1..]);
      if s[0] == '\n' then
        assert s == [s[0]] + s[1..];
        [[]] + rest
      else
        JoinExtendFirst(s[0], rest);
        assert s == [s[0]] + s[1..];
        [[s[0]] + rest[0]] + rest[1..]
  }

  /** `lines.join('\n')`. */
  function JoinLines(lines: seq<string>): string
    requires |lines| >= 1
  {
    if |lines| == 1 then lines[0] else lines[0] + "\n" + JoinLines(lines[1..])
  }

  lemma {:induction false} JoinExtendFirst(c: char, lines: seq<string>)
    requires |lines| >= 1
    ensures JoinLines([[c] + lines[0]] + lines[1..]) == [c] + JoinLines(lines)
  {
    var ls := [[c] + lines[0]] + lines[1..];
    assert ls[1..] == lines[1..];
  }

  /** Splitting a line-free piece gives the piece itself. */
  lemma {:induction false} SplitLineFree(p: string)
    requires '\n' !in p
    ensures SplitLines(p) == [p]
  {
    if p != [] {
      assert p[1..] == p[1..] && '\n' !in p[1..];
      SplitLineFree(p[1..]);
      assert [p[0]] + p[1..] == p;
    }
  }

  /** A line-free piece followed by a line feed splits off as the first line. */
  lemma {:induction false} SplitAfterLine(p: string, t: string)
    requires '\n' !in p
    ensures SplitLines(p + "\n" + t) == [p] + SplitLines(t)
  {
    if p == [] {
      assert p + "\n" + t == "\n" + t;
      assert ("\n" + t)[1..] == t;
    } else {
      assert (p + "\n" + t)[1..] == p[1..] + "\n" + t;
      assert (p + "\n" + t)[0] == p[0];
      SplitAfterLine(p[1..], t);
      assert [p[0]] + p[1..] == p;
    }
  }

  /** Split is the inverse of join on line-free pieces: together with the
      contract of `SplitLines` this makes the two a bijection. */
  lemma {:induction false} SplitJoin(lines: seq<string>)
    requires |lines| >= 1
    requires forall k :: 0 <= k < |lines| ==> '\n' !in lines[k]
    ensures SplitLines(JoinLines(lines)) == lines
  {
    if |lines| == 1 {
      SplitLineFree(lines[0]);
    } else {
      SplitJoin(lines[1..]);
      SplitAfterLine(lines[0], JoinLines(lines[1..]));
    }
  }

  predicate NonEmpty(w: string) { w != [] }

  /** The words of a multi-line text: every line, trimmed, with the empty ones
      dropped, in their original order. */
  function ParseWords(text: string): (words: seq<string>)
    ensures forall k :: 0 <= k < |words| ==> words[k] != [] && IsTrimmed(words[k]) && '\n' !in words[k]
    ensures IsSubsequence(words, Map(SplitLines(text), Trim))
  {
    var lines := SplitLines(text);
    KeptWords(lines);
    Filter(Map(lines, Trim), NonEmpty)
  }

  /** The kept words of line-free lines are non-empty, trimmed and line-free. */
  lemma KeptWords(lines: seq<string>)
    requires forall k :: 0 <= k < |lines| ==> '\n' !in lines[k]
    ensures var words := Filter(Map(lines, Trim), NonEmpty);
      forall k :: 0 <= k < |words| ==> words[k] != [] && IsTrimmed(words[k]) && '\n' !in words[k]
  {
    var trimmed := Map(lines, Trim);
    var words := Filter(trimmed, NonEmpty);
    forall k | 0 <= k < |words|
      ensures words[k] != [] && IsTrimmed(words[k]) && '\n' !in words[k]
    {
      var j :| 0 <= j < |trimmed| && trimmed[j] == words[k];
      assert words[k] == Trim(lines[j]);
      TrimInside(lines[j]);
    }
  }

  /** Every character of `Trim(s)` is a character of `s`. */
  lemma TrimInside(s: string)
    ensures forall c :: c in Trim(s) ==> c in s
  {
    var r := Trim(s);
    forall c | c in r ensures c in s {
      var k :| 0 <= k < |r| && r[k] == c;
      assert s[Leading(s) + k] == c;
    }
  }

  /** The words of the lines of a text, as the list `ParseWords` keeps. */
  lemma ParseWordsOfLines(lines: seq<string>)
    requires |lines| >= 1
    requires forall k :: 0 <= k < |lines| ==> '\n' !in lines[k]
    ensures ParseWords(JoinLines(lines)) == Filter(Map(lines, Trim), NonEmpty)
  {
    SplitJoin(lines);
  }

  /** A text yields no words exactly when it is all whitespace, i.e. when its
      trimmed form is empty. */
  lemma ParseWordsEmptyIff(text: string)
    ensures ParseWords(text) == [] <==> Trim(text) == []
  {
    var lines := SplitLines(text);
    var trimmed := Map(lines, Trim);
    if AllWhitespace(text) {
      forall k | 0 <= k < |trimmed| ensures !NonEmpty(trimmed[k]) {
        JoinedLineWhitespace(lines, k);
      }
      FilterDropsAll(trimmed, NonEmpty);
    } else {
      var j :| 0 <= j < |text| && !IsWhitespace(text[j]);
      var k := LineOf(lines, j);
      assert trimmed[k] != [];
      assert trimmed[k] in ParseWords(text);
    }
  }

  /** Each line of a joined text is made of its characters. */
  lemma {:induction false} JoinedLineWhitespace(lines: seq<string>, k: nat)
    requires |lines| >= 1 && k < |lines|
    requires AllWhitespace(JoinLines(lines))
    ensures AllWhitespace(lines[k])
  {
    if |lines| > 1 {
      var rest := JoinLines(lines[1..]);
      assert JoinLines(lines) == lines[0] + "\n" + rest;
      if k == 0 {
        forall i | 0 <= i < |lines[0]| ensures IsWhitespace(lines[0][i]) {
          assert JoinLines(lines)[i] == lines[0][i];
        }
      } else {
        forall i | 0 <= i < |rest| ensures IsWhitespace(rest[i]) {
          assert JoinLines(lines)[|lines[0]| + 1 + i] == rest[i];
        }
        JoinedLineWhitespace(lines[1..], k - 1);
      }
    }
  }

  /** A non-whitespace character of a joined text lies in a line whose trimmed
      form is not empty. */
  lemma {:induction false} LineOf(lines: seq<string>, j: nat) returns (k: nat)
    requires |lines| >= 1
    requires j < |JoinLines(lines)| && !IsWhitespace(JoinLines(lines)[j])
    ensures k < |lines| && Trim(lines[k]) != []
  {
    if |lines| == 1 {
      k := 0;
    } else {
      var rest := JoinLines(lines[1..]);
      assert JoinLines(lines) == lines[0] + "\n" + rest;
      if j < |lines[0]| {
        assert lines[0][j] == JoinLines(lines)[j];
        k := 0;
      } else {
        assert j != |lines[0]|;
        assert rest[j - |lines[0]| - 1] == JoinLines(lines)[j];
        var k' := LineOf(lines[1..], j - |lines[0]| - 1);
        k := k' + 1;
      }
    }
  }
}
