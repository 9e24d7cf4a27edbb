/** Character classes and the string operations the ring parser relies on:
    Python's str.strip(), str.splitlines(), the regex classes \s and \S,
    substring search (`in`), str.lower(), str.upper() and str.endswith(). */
module Text {

  type String = seq<char>

  /** Python's str.isspace(), which is also what \s matches in a str pattern. */
  predicate IsSpace(c: char) {
    || c == ' ' || c == '\t' || c == '\n' || c == '\r'
    || c == '\U{B}' || c == '\U{C}'
    || ('\U{1C}' <= c <= '\U{1F}')
    || c == '\U{85}' || c == '\U{A0}' || c == '\U{1680}'
    || ('\U{2000}' <= c <= '\U{200A}')
    || c == '\U{2028}' || c == '\U{2029}' || c == '\U{202F}' || c == '\U{205F}'
    || c == '\U{3000}'
  }

  /** The characters at which str.splitlines() breaks a line. */
  predicate IsLineBreak(c: char) {
    || c == '\n' || c == '\r' || c == '\U{B}' || c == '\U{C}'
    || c == '\U{1C}' || c == '\U{1D}' || c == '\U{1E}'
    || c == '\U{85}' || c == '\U{2028}' || c == '\U{2029}'
  }

  lemma LineBreakIsSpace(c: char)
    requires IsLineBreak(c)
    ensures IsSpace(c)
  {
  }

  predicate AllSpace(s: String) {
    forall i :: 0 <= i < |s| ==> IsSpace(s[i])
  }

  /** A maximal run of \S characters: what `\S+` captures between separators. */
  predicate IsWord(s: String) {
    s != [] && forall i :: 0 <= i < |s| ==> !IsSpace(s[i])
  }

  /** A run of \s characters: what `\s+` consumes. */
  predicate IsGap(s: String) {
    s != [] && AllSpace(s)
  }

  /** Neither starts nor ends with whitespace: what str.strip() returns. */
  predicate IsStripped(s: String) {
    s == [] || (!IsSpace(s[0]) && !IsSpace(s[|s| - 1]))
  }

  // ---------------------------------------------------------------------------
  // str.strip()

  /** Length of the longest suffix of s made of whitespace. */
  function TrailingGapLength(s: String): (n: nat)
    ensures n <= |s|
    ensures forall i :: |s| - n <= i < |s| ==> IsSpace(s[i])
    ensures n < |s| ==> !IsSpace(s[|s| - n - 1])
    decreases |s|
  {
    if s == [] || !IsSpace(s[|s| - 1]) then 0 else 1 + TrailingGapLength(s[..|s| - 1])
  }

  /** Python's str.strip() with no argument: leading and trailing whitespace
      removed. */
  function Strip(s: String): (r: String)
    ensures IsStripped(r)
  {
    var t := s[GapLength(s)..];
    t[..|t| - TrailingGapLength(t)]
  }

  /** Stripping removes exactly whitespace from both ends: the result is the
      slice of the input from `start`, and everything cut off is whitespace. */
  lemma StripCutsOnlySpace(s: String) returns (start: nat)
    ensures start + |Strip(s)| <= |s| && s[start..start + |Strip(s)|] == Strip(s)
    ensures AllSpace(s[..start]) && AllSpace(s[start + |Strip(s)|..])
  {
    start := GapLength(s);
    var t := s[start..];
    var r := Strip(s);
    assert s[start..start + |r|] == r;
    var tail := s[start + |r|..];
    forall i | 0 <= i < |tail| ensures IsSpace(tail[i]) {
      assert tail[i] == t[|r| + i];
    }
  }

  /** A line is blank (`not line.strip()`) exactly when it is all whitespace. */
  lemma StripEmptyIffAllSpace(s: String)
    ensures Strip(s) == [] <==> AllSpace(s)
  {
    var a := GapLength(s);
    var t := s[a..];
    if !AllSpace(s) {
      var k :| 0 <= k < |s| && !IsSpace(s[k]);
      assert k >= a;
      assert t[k - a] == s[k];
      assert |t| - TrailingGapLength(t) > k - a;
    }
  }

  lemma StripOfStripped(s: String)
    requires IsStripped(s)
    ensures Strip(s) == s
  {
  }

  // ---------------------------------------------------------------------------
  // str.splitlines()

  /** Length of the longest prefix of s without a line break. */
  function LineLength(s: String): (n: nat)
    ensures n <= |s|
    ensures forall i :: 0 <= i < n ==> !IsLineBreak(s[i])
    ensures n < |s| ==> IsLineBreak(s[n])
    decreases |s|
  {
    if s == [] || IsLineBreak(s[0]) then 0 else 1 + LineLength(s[1..])
  }

  /** Python's str.splitlines() (keepends=False): "\r\n" is one break, a final
      break does not start an empty last line, and "" has no lines. */
  function SplitLines(s: String): (lines: seq<String>)
    ensures forall k, i :: 0 <= k < |lines| && 0 <= i < |lines[k]| ==> !IsLineBreak(lines[k][i])
    decreases |s|
  {
    if s == [] then []
    else
      var n := LineLength(s);
      if n == |s| then [s]
      else if s[n] == '\r' && n + 1 < |s| && s[n + 1] == '\n' then [s[..n]] + SplitLines(s[n + 2..])
      else [s[..n]] + SplitLines(s[n + 1..])
  }

  predicate NoLineBreak(s: String) {
    forall i :: 0 <= i < |s| ==> !IsLineBreak(s[i])
  }

  /** The lines of a text written as "line\n" for each line. */
  function Terminated(lines: seq<String>): String {
    if lines == [] then [] else lines[0] + "\n" + Terminated(lines[1..])
  }

  /** splitlines() recovers every line of a newline-terminated text, including
      empty ones. */
  lemma {:induction false} SplitLinesOfTerminated(lines: seq<String>)
    requires forall k :: 0 <= k < |lines| ==> NoLineBreak(lines[k])
    ensures SplitLines(Terminated(lines)) == lines
  {
    if lines != [] {
      var s := Terminated(lines);
      var l := lines[0];
      assert s == l + ("\n" + Terminated(lines[1..]));
      LineLengthOfPrefix(l, "\n" + Terminated(lines[1..]));
      assert s[..|l|] == l;
      assert s[|l| + 1..] == Terminated(lines[1..]);
      SplitLinesOfTerminated(lines[1..]);
    }
  }

  lemma {:induction false} LineLengthOfPrefix(l: String, rest: String)
    requires NoLineBreak(l)
    requires rest != [] && IsLineBreak(rest[0])
    ensures LineLength(l + rest) == |l|
    decreases |l|
  {
    if l != [] {
      assert (l + rest)[1..] == l[1..] + rest;
      LineLengthOfPrefix(l[1..], rest);
    } else {
      assert l + rest == rest;
    }
  }

  /** A text without a line break is one line. */
  lemma SplitLinesOfLine(l: String)
    requires l != [] && NoLineBreak(l)
    ensures SplitLines(l) == [l]
  {
  }

  /** splitlines() of the text a strip() leaves: lines joined by "\n" with no
      terminator after the last, non-empty, one give back exactly those lines. */
  lemma {:induction false} SplitLinesOfJoined(lines: seq<String>)
    requires |lines| > 0 && lines[|lines| - 1] != []
    requires forall k :: 0 <= k < |lines| ==> NoLineBreak(lines[k])
    ensures SplitLines(Terminated(lines[..|lines| - 1]) + lines[|lines| - 1]) == lines
    decreases |lines|
  {
    var last := lines[|lines| - 1];
    if |lines| == 1 {
      assert Terminated(lines[..0]) + last == last;
      SplitLinesOfLine(last);
    } else {
      var l := lines[0];
      var rest := lines[1..];
      assert rest[..|rest| - 1] == lines[1..|lines| - 1];
      assert lines[..|lines| - 1][1..] == lines[1..|lines| - 1];
      var tail := Terminated(rest[..|rest| - 1]) + rest[|rest| - 1];
      var s := Terminated(lines[..|lines| - 1]) + last;
      assert s == l + ("\n" + tail);
      LineLengthOfPrefix(l, "\n" + tail);
      assert s[..|l|] == l;
      assert s[|l| + 1..] == tail;
      SplitLinesOfJoined(rest);
      assert [l] + rest == lines;
    }
  }

  /** Any single line-break character ends a line, except a "\r" that a
      "\n" follows, which SplitLinesAtCrLf covers. */
  lemma SplitLinesAtBreak(l: String, c: char, rest: String)
    requires NoLineBreak(l) && IsLineBreak(c)
    requires !(c == '\r' && rest != [] && rest[0] == '\n')
    ensures SplitLines(l + [c] + rest) == [l] + SplitLines(rest)
  {
    var s := l + [c] + rest;
    assert s == l + ([c] + rest);
    LineLengthOfPrefix(l, [c] + rest);
    assert s[..|l|] == l;
    assert s[|l| + 1..] == rest;
  }

  /** "\r\n" ends a line as one break: no empty line appears between the two
      characters. */
  lemma SplitLinesAtCrLf(l: String, rest: String)
    requires NoLineBreak(l)
    ensures SplitLines(l + "\r\n" + rest) == [l] + SplitLines(rest)
  {
    var s := l + "\r\n" + rest;
    assert s == l + ("\r\n" + rest);
    LineLengthOfPrefix(l, "\r\n" + rest);
    assert s[..|l|] == l;
    assert s[|l| + 2..] == rest;
  }

  // ---------------------------------------------------------------------------
  // Tokens: the maximal \S runs of a string, and the \s runs between them

  /** Length of the longest prefix of s without whitespace. */
  function WordLength(s: String): (n: nat)
    ensures n <= |s|
    ensures forall i :: 0 <= i < n ==> !IsSpace(s[i])
    ensures n < |s| ==> IsSpace(s[n])
    decreases |s|
  {
    if s == [] || IsSpace(s[0]) then 0 else 1 + WordLength(s[1..])
  }

  /** Length of the longest prefix of s made of whitespace. */
  function GapLength(s: String): (n: nat)
    ensures n <= |s|
    ensures forall i :: 0 <= i < n ==> IsSpace(s[i])
    ensures n < |s| ==> !IsSpace(s[n])
    decreases |s|
  {
    if s == [] || !IsSpace(s[0]) then 0 else 1 + GapLength(s[1..])
  }

  /** The whitespace-separated tokens of s, in order. */
  function Tokens(s: String): (ts: seq<String>)
    ensures forall k :: 0 <= k < |ts| ==> IsWord(ts[k])
    decreases |s|
  {
    if s == [] then []
    else if IsSpace(s[0]) then Tokens(s[1..])
    else
      var n := WordLength(s);
      [s[..n]] + Tokens(s[n..])
  }

  /** The whitespace runs between the tokens of a stripped string. */
  function Gaps(s: String): (gs: seq<String>)
    ensures forall k :: 0 <= k < |gs| ==> IsGap(gs[k])
    decreases |s|
  {
    if s == [] then []
    else
      var n := WordLength(s);
      if n == |s| then []
      else
        var m := GapLength(s[n..]);
        if n + m == |s| then [s[n..]]
        else [s[n..n + m]] + Gaps(s[n + m..])
  }

  /** tokens[0] + gaps[0] + tokens[1] + ... + tokens[|gaps|]. */
  function Interleave(tokens: seq<String>, gaps: seq<String>): String
    requires |tokens| == |gaps| + 1
    decreases |gaps|
  {
    if gaps == [] then tokens[0] else tokens[0] + gaps[0] + Interleave(tokens[1..], gaps[1..])
  }

  lemma {:induction false} TokensSkipGap(g: String, rest: String)
    requires AllSpace(g)
    ensures Tokens(g + rest) == Tokens(rest)
    decreases |g|
  {
    if g != [] {
      assert (g + rest)[1..] == g[1..] + rest;
      assert IsSpace((g + rest)[0]);
      TokensSkipGap(g[1..], rest);
    } else {
      assert g + rest == rest;
    }
  }

  lemma {:induction false} WordLengthOfWord(w: String, rest: String)
    requires forall i :: 0 <= i < |w| ==> !IsSpace(w[i])
    requires rest == [] || IsSpace(rest[0])
    ensures WordLength(w + rest) == |w|
    decreases |w|
  {
    if w != [] {
      assert (w + rest)[1..] == w[1..] + rest;
      WordLengthOfWord(w[1..], rest);
    } else {
      assert w + rest == rest;
    }
  }

  lemma {:induction false} GapLengthOfGap(g: String, rest: String)
    requires AllSpace(g)
    requires rest == [] || !IsSpace(rest[0])
    ensures GapLength(g + rest) == |g|
    decreases |g|
  {
    if g != [] {
      assert (g + rest)[1..] == g[1..] + rest;
      GapLengthOfGap(g[1..], rest);
    } else {
      assert g + rest == rest;
    }
  }

  lemma {:induction false} InterleaveStartsWithWord(tokens: seq<String>, gaps: seq<String>)
    requires |tokens| == |gaps| + 1
    requires forall k :: 0 <= k < |tokens| ==> IsWord(tokens[k])
    ensures var s := Interleave(tokens, gaps);
      |s| >= |tokens[0]| && s[..|tokens[0]|] == tokens[0]
  {
  }

  lemma {:induction false} InterleaveEndsWithWord(tokens: seq<String>, gaps: seq<String>)
    requires |tokens| == |gaps| + 1
    requires forall k :: 0 <= k < |tokens| ==> IsWord(tokens[k])
    ensures var s := Interleave(tokens, gaps); s != [] && !IsSpace(s[|s| - 1])
    decreases |gaps|
  {
    if gaps != [] {
      InterleaveEndsWithWord(tokens[1..], gaps[1..]);
    }
  }

  /** Splitting a string built from words and whitespace runs gives back the words. */
  lemma {:induction false} TokensOfInterleave(tokens: seq<String>, gaps: seq<String>)
    requires |tokens| == |gaps| + 1
    requires forall k :: 0 <= k < |tokens| ==> IsWord(tokens[k])
    requires forall k :: 0 <= k < |gaps| ==> IsGap(gaps[k])
    ensures Tokens(Interleave(tokens, gaps)) == tokens
    decreases |gaps|
  {
    var w := tokens[0];
    if gaps == [] {
      WordLengthOfWord(w, []);
      assert w + [] == w;
      assert w[|w|..] == [];
    } else {
      var g := gaps[0];
      var tail := Interleave(tokens[1..], gaps[1..]);
      var s := w + g + tail;
      assert s == w + (g + tail);
      WordLengthOfWord(w, g + tail);
      assert s[..|w|] == w;
      assert s[|w|..] == g + tail;
      TokensSkipGap(g, tail);
      TokensOfInterleave(tokens[1..], gaps[1..]);
      assert tokens == [w] + tokens[1..];
    }
  }

  lemma TokensOfWordStart(s: String)
    requires s != [] && !IsSpace(s[0])
    ensures Tokens(s) == [s[..WordLength(s)]] + Tokens(s[WordLength(s)..])
  {
  }

  lemma GapsOfWordStart(s: String, n: nat, m: nat)
    requires s != [] && n == WordLength(s) && n < |s|
    requires m == GapLength(s[n..]) && n + m < |s|
    ensures Gaps(s) == [s[n..n + m]] + Gaps(s[n + m..])
  {
  }

  lemma SplitThree<T>(s: seq<T>, n: nat, m: nat)
    requires n + m <= |s|
    ensures s[n..] == s[n..n + m] + s[n + m..]
    ensures s == s[..n] + s[n..n + m] + s[n + m..]
  {
    assert s == s[..n] + s[n..];
  }

  lemma InterleaveCons(w: String, g: String, tokens: seq<String>, gaps: seq<String>)
    requires |tokens| == |gaps| + 1
    ensures Interleave([w] + tokens, [g] + gaps) == w + g + Interleave(tokens, gaps)
  {
    assert ([w] + tokens)[1..] == tokens;
    assert ([g] + gaps)[1..] == gaps;
  }

  /** In a stripped string with more than one token, the first gap ends
      before the end, and what follows it is again stripped. */
  lemma FirstGapEnds(s: String, n: nat, m: nat)
    requires s != [] && IsStripped(s)
    requires n == WordLength(s) && n < |s| && m == GapLength(s[n..])
    ensures n + m < |s|
    ensures IsStripped(s[n + m..]) && s[n + m..] != []
  {
    var tail := s[n..];
    assert !IsSpace(tail[|s| - n - 1]);
    var rest := s[n + m..];
    assert rest[|rest| - 1] == s[|s| - 1];
  }

  /** The tokens after the first word are those after the first gap. */
  lemma TokensAfterFirstGap(s: String, n: nat, m: nat)
    requires s != [] && !IsSpace(s[0])
    requires n == WordLength(s) && n < |s| && m == GapLength(s[n..]) && n + m < |s|
    ensures Tokens(s) == [s[..n]] + Tokens(s[n + m..])
  {
    TokensOfWordStart(s);
    SplitThree(s, n, m);
    TokensSkipGap(s[n..n + m], s[n + m..]);
  }

  /** ...and a stripped string is its tokens joined by its gaps. */
  lemma {:induction false} InterleaveOfTokens(s: String)
    requires s != [] && IsStripped(s)
    ensures |Tokens(s)| == |Gaps(s)| + 1
    ensures Interleave(Tokens(s), Gaps(s)) == s
    decreases |s|
  {
    var n := WordLength(s);
    if n == |s| {
      assert s[..n] == s;
      assert s[n..] == [];
    } else {
      var m := GapLength(s[n..]);
      FirstGapEnds(s, n, m);
      TokensAfterFirstGap(s, n, m);
      GapsOfWordStart(s, n, m);
      SplitThree(s, n, m);
      var rest := s[n + m..];
      InterleaveOfTokens(rest);
      InterleaveCons(s[..n], s[n..n + m], Tokens(rest), Gaps(rest));
    }
  }

  // ---------------------------------------------------------------------------
  // Substrings, lower case, suffixes

  predicate StartsWith(s: String, prefix: String) {
    |prefix| <= |s| && s[..|prefix|] == prefix
  }

  predicate OccursAt(s: String, sub: String, i: int) {
    0 <= i <= |s| - |sub| && s[i..i + |sub|] == sub
  }

  /** Python's `sub in s`. */
  function Contains(s: String, sub: String): (r: bool)
    ensures r <==> exists i :: OccursAt(s, sub, i)
    decreases |s|
  {
    if StartsWith(s, sub) then
      assert OccursAt(s, sub, 0);
      true
    else if s == [] then false
    else
      var r := Contains(s[1..], sub);
      if r then
        var i :| OccursAt(s[1..], sub, i);
        assert s[i + 1..i + 1 + |sub|] == s[1..][i..i + |sub|];
        assert OccursAt(s, sub, i + 1);
        true
      else
        forall i ensures !OccursAt(s, sub, i) {
          if 1 <= i <= |s| - |sub| {
            assert s[1..][i - 1..i - 1 + |sub|] == s[i..i + |sub|];
            assert !OccursAt(s[1..], sub, i - 1);
          }
        }
        false
  }

  function LowerChar(c: char): char {
    if 'A' <= c <= 'Z' then (c as int - 'A' as int + 'a' as int) as char else c
  }

  /** str.lower() on the ASCII letters. */
  function ToLower(s: String): (r: String)
    ensures |r| == |s|
    ensures forall i :: 0 <= i < |r| ==> !('A' <= r[i] <= 'Z')
    ensures forall i :: 0 <= i < |s| && !('A' <= s[i] <= 'Z') ==> r[i] == s[i]
    ensures CaseVariantOf(s, r)
  {
    seq(|s|, i requires 0 <= i < |s| => LowerChar(s[i]))
  }

  function UpperChar(c: char): char {
    if 'a' <= c <= 'z' then (c as int - 'a' as int + 'A' as int) as char else c
  }

  /** str.upper() on the ASCII letters. */
  function ToUpper(s: String): (r: String)
    ensures |r| == |s|
    ensures forall i :: 0 <= i < |r| ==> !('a' <= r[i] <= 'z')
    ensures forall i :: 0 <= i < |s| && !('a' <= s[i] <= 'z') ==> r[i] == s[i]
    ensures ToLower(r) == ToLower(s)
  {
    seq(|s|, i requires 0 <= i < |s| => UpperChar(s[i]))
  }

  /** s spells the lower-case word w in any mixture of upper and lower case. */
  predicate CaseVariantOf(s: String, w: String) {
    |s| == |w| && forall i :: 0 <= i < |s| ==> s[i] == w[i] || s[i] == UpperChar(w[i])
  }

  predicate IsLowerAscii(w: String) {
    forall i :: 0 <= i < |w| ==> 'a' <= w[i] <= 'z'
  }

  /** Lower-casing s gives the lower-case word w exactly when s is w written in
      any mixture of cases. */
  lemma LowerEqualsIffCaseVariant(s: String, w: String)
    requires IsLowerAscii(w)
    ensures ToLower(s) == w <==> CaseVariantOf(s, w)
  {
    if ToLower(s) == w {
      forall i | 0 <= i < |s| ensures s[i] == w[i] || s[i] == UpperChar(w[i]) {
        assert LowerChar(s[i]) == w[i];
      }
    }
    if CaseVariantOf(s, w) {
      forall i | 0 <= i < |s| ensures ToLower(s)[i] == w[i] {
      }
    }
  }

  /** Python's str.endswith(). */
  predicate EndsWith(s: String, suffix: String) {
    |suffix| <= |s| && s[|s| - |suffix|..] == suffix
  }
}
