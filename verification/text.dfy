/** The JavaScript string built-ins the dashboard relies on, over Dafny strings
    (`seq<char>`, one element per Unicode scalar value; JavaScript strings
    count UTF-16 code units, which agree for every character outside the
    astral planes): `trim`, `split` on a
    character and on the regex `/\s+/`, `Array.prototype.join`,
    `toLowerCase`, and the decimal rendering of an integer. */
module Text {

  /** The ECMAScript white-space and line-terminator code points: what `trim`
      strips and what the regex class `\s` matches. */
  predicate IsWhitespace(c: char) {
    var n := c as int;
    n == 0x09 || n == 0x0A || n == 0x0B || n == 0x0C || n == 0x0D || n == 0x20
    || n == 0xA0 || n == 0x1680 || (0x2000 <= n <= 0x200A) || n == 0x2028
    || n == 0x2029 || n == 0x202F || n == 0x205F || n == 0x3000 || n == 0xFEFF
  }

  /** The single space character, the separator of `name.split(' ')`. */
  predicate IsSpace(c: char) {
    c == ' '
  }

  predicate IsAsciiLetter(c: char) {
    ('a' <= c <= 'z') || ('A' <= c <= 'Z')
  }

  predicate IsAsciiDigit(c: char) {
    '0' <= c <= '9'
  }

  ghost predicate AllWhitespace(s: string) {
    forall i :: 0 <= i < |s| ==> IsWhitespace(s[i])
  }

  // ---------------------------------------------------------------------------
  // trim

  /** The first index at or after `i` that is not white space (`|s|` if none). */
  function SkipWhitespace(s: string, i: nat): (j: nat)
    requires i <= |s|
    ensures i <= j <= |s|
    ensures forall k :: i <= k < j ==> IsWhitespace(s[k])
    ensures j < |s| ==> !IsWhitespace(s[j])
    decreases |s| - i
  {
    if i == |s| || !IsWhitespace(s[i]) then i else SkipWhitespace(s, i + 1)
  }

  /** The first index at or after `i` that is white space (`|s|` if none). */
  function SkipContent(s: string, i: nat): (j: nat)
    requires i <= |s|
    ensures i <= j <= |s|
    ensures forall k :: i <= k < j ==> !IsWhitespace(s[k])
    ensures j < |s| ==> IsWhitespace(s[j])
    decreases |s| - i
  {
    if i == |s| || IsWhitespace(s[i]) then i else SkipContent(s, i + 1)
  }

  /** Scanning back from `j`, the end of the last non-white-space character. */
  function ContentEnd(s: string, j: nat): (k: nat)
    requires j <= |s|
    ensures k <= j
    ensures forall m :: k <= m < j ==> IsWhitespace(s[m])
    ensures k > 0 ==> !IsWhitespace(s[k - 1])
    decreases j
  {
    if j == 0 || !IsWhitespace(s[j - 1]) then j else ContentEnd(s, j - 1)
  }

  /** `s.trim()`. */
  function Trim(s: string): (r: string)
    ensures |r| <= |s|
    ensures r == [] || (!IsWhitespace(r[0]) && !IsWhitespace(r[|r| - 1]))
  {
    var a := SkipWhitespace(s, 0);
    if a == |s| then []
    else
      var b := ContentEnd(s, |s|);
      s[a..b]
  }

  /** Trimming removes white space only: `s` is the trimmed text with white
      space on either side. */
  lemma TrimBounds(s: string) returns (a: nat, b: nat)
    ensures a <= b <= |s| && Trim(s) == s[a..b]
    ensures AllWhitespace(s[..a]) && AllWhitespace(s[b..])
  {
    a := SkipWhitespace(s, 0);
    if a == |s| {
      b := a;
    } else {
      b := ContentEnd(s, |s|);
    }
  }

  /** A string with no white space at either end is its own trim. */
  lemma TrimmedIsFixed(t: string)
    requires t == [] || (!IsWhitespace(t[0]) && !IsWhitespace(t[|t| - 1]))
    ensures Trim(t) == t
  {
    if t != [] {
      assert SkipWhitespace(t, 0) == 0;
      assert ContentEnd(t, |t|) == |t|;
      assert t[0..|t|] == t;
    }
  }

  /** Trimming an already trimmed string changes nothing. */
  lemma TrimIdempotent(s: string)
    ensures Trim(Trim(s)) == Trim(s)
  {
    TrimmedIsFixed(Trim(s));
  }

  // ---------------------------------------------------------------------------
  // toLowerCase

  /** Lower-casing of one character; only ASCII `A`-`Z` are mapped. */
  function LowerChar(c: char): (d: char)
    ensures 'A' <= c <= 'Z' ==> 'a' <= d <= 'z'
    ensures !('A' <= c <= 'Z') ==> d == c
  {
    if 'A' <= c <= 'Z' then (c as int + 32) as char else c
  }

  /** `s.toLowerCase()`, restricted to ASCII upper-case letters. */
  function ToLower(s: string): (r: string)
    ensures |r| == |s|
    ensures forall i :: 0 <= i < |s| ==> r[i] == LowerChar(s[i])
  {
    seq(|s|, i requires 0 <= i < |s| => LowerChar(s[i]))
  }

  /** Lower-casing twice is lower-casing once. */
  lemma ToLowerIdempotent(s: string)
    ensures ToLower(ToLower(s)) == ToLower(s)
  {
  }

  // ---------------------------------------------------------------------------
  // split on one character, and join

  /** The index of the first occurrence of `c`. */
  function IndexOf(s: string, c: char): (i: nat)
    requires c in s
    ensures i < |s| && s[i] == c && c !in s[..i]
    decreases |s|
  {
    if s[0] == c then 0
    else
      assert c in s[1..] by {
        var k :| 0 <= k < |s| && s[k] == c;
        assert s[1..][k - 1] == c;
      }
      var j := IndexOf(s[1..], c);
      assert s[..j + 1] == [s[0]] + s[1..][..j];
      j + 1
  }

  /** `s.split(c)` for a one-character separator `c`: the pieces between
      successive occurrences of `c`; never empty. */
  function SplitOn(s: string, c: char): (r: seq<string>)
    ensures |r| >= 1
    ensures forall i :: 0 <= i < |r| ==> c !in r[i]
    ensures r[0] <= s && (|r[0]| == |s| || s[|r[0]|] == c)
    decreases |s|
  {
    if c !in s then [s]
    else
      var i := IndexOf(s, c);
      [s[..i]] + SplitOn(s[i + 1..], c)
  }

  /** `parts.join(sep)`. */
  function Join(parts: seq<string>, sep: string): string
    decreases |parts|
  {
    if |parts| == 0 then ""
    else if |parts| == 1 then parts[0]
    else parts[0] + sep + Join(parts[1..], sep)
  }

  /** A character that is in neither the pieces nor the separator is not in
      their join. */
  lemma {:induction false} JoinAvoids(parts: seq<string>, sep: string, c: char)
    requires c !in sep
    requires forall i :: 0 <= i < |parts| ==> c !in parts[i]
    ensures c !in Join(parts, sep)
    decreases |parts|
  {
    if |parts| > 1 {
      JoinAvoids(parts[1..], sep, c);
    }
  }

  /** Splitting on `c` and joining with `c` gives the original string back. */
  lemma {:induction false} JoinSplit(s: string, c: char)
    ensures Join(SplitOn(s, c), [c]) == s
    decreases |s|
  {
    if c in s {
      var i := IndexOf(s, c);
      var rest := SplitOn(s[i + 1..], c);
      JoinSplit(s[i + 1..], c);
      assert ([s[..i]] + rest)[1..] == rest;
      assert s == s[..i] + [c] + s[i + 1..];
    }
  }

  /** Joining pieces free of `c` with `c` and splitting on `c` gives the pieces
      back. */
  lemma {:induction false} SplitJoin(xs: seq<string>, c: char)
    requires |xs| >= 1
    requires forall i :: 0 <= i < |xs| ==> c !in xs[i]
    ensures SplitOn(Join(xs, [c]), c) == xs
    decreases |xs|
  {
    if |xs| > 1 {
      var x := xs[0];
      var rest := Join(xs[1..], [c]);
      var s := Join(xs, [c]);
      assert s == x + [c] + rest;
      IndexOfAfterFree(x, c, rest);
      assert s[..|x|] == x && s[|x| + 1..] == rest;
      assert SplitOn(s, c) == [x] + SplitOn(rest, c);
      SplitJoin(xs[1..], c);
      assert xs == [x] + xs[1..];
    }
  }

  /** The first `c` of `x + [c] + rest` is the one after `x` when `x` is free
      of `c`. */
  lemma IndexOfAfterFree(x: string, c: char, rest: string)
    requires c !in x
    ensures c in x + [c] + rest
    ensures IndexOf(x + [c] + rest, c) == |x|
  {
    var s := x + [c] + rest;
    assert s[|x|] == c;
    assert s[..|x|] == x;
  }

  // ---------------------------------------------------------------------------
  // split on /\s+/ and counting words

  /** `s.split(/\s+/)`: the pieces between maximal runs of white space. A
      leading or trailing run yields an empty piece, and `""` yields `[""]`. */
  function SplitOnWhitespace(s: string): (r: seq<string>)
    ensures |r| >= 1
    decreases |s|
  {
    var i := SkipContent(s, 0);
    if i == |s| then [s]
    else
      var j := SkipWhitespace(s, i);
      [s[..i]] + SplitOnWhitespace(s[j..])
  }

  /** The characters that begin a run of non-separators: each `s[i]` that is
      not a separator and follows a separator or (when `afterSep`) the start. */
  function Heads(s: string, isSep: char -> bool, afterSep: bool): (r: string)
    decreases |s|
  {
    if s == [] then []
    else (if afterSep && !isSep(s[0]) then [s[0]] else []) + Heads(s[1..], isSep, isSep(s[0]))
  }

  /** The number of white-space separated words of `s`. */
  function WordCount(s: string): nat {
    |Heads(s, IsWhitespace, true)|
  }

  lemma {:induction false} HeadsConcat(u: string, v: string, isSep: char -> bool, b: bool)
    ensures Heads(u + v, isSep, b)
         == Heads(u, isSep, b) + Heads(v, isSep, if u == [] then b else isSep(u[|u| - 1]))
    decreases |u|
  {
    if u == [] {
      assert u + v == v;
    } else {
      var head := if b && !isSep(u[0]) then [u[0]] else [];
      var tail := u[1..];
      var after := if u == [] then b else isSep(u[|u| - 1]);
      assert (u + v)[0] == u[0];
      assert (u + v)[1..] == tail + v;
      HeadsConcat(tail, v, isSep, isSep(u[0]));
      assert (if tail == [] then isSep(u[0]) else isSep(tail[|tail| - 1])) == after;
      calc {
        Heads(u + v, isSep, b);
        head + Heads(tail + v, isSep, isSep(u[0]));
        head + (Heads(tail, isSep, isSep(u[0])) + Heads(v, isSep, after));
        (head + Heads(tail, isSep, isSep(u[0]))) + Heads(v, isSep, after);
        Heads(u, isSep, b) + Heads(v, isSep, after);
      }
    }
  }

  lemma {:induction false} HeadsOfSeparators(s: string, isSep: char -> bool, b: bool)
    requires forall i :: 0 <= i < |s| ==> isSep(s[i])
    ensures Heads(s, isSep, b) == []
    decreases |s|
  {
    if s != [] {
      HeadsOfSeparators(s[1..], isSep, true);
    }
  }

  lemma {:induction false} HeadsOfWord(w: string, isSep: char -> bool, b: bool)
    requires forall i :: 0 <= i < |w| ==> !isSep(w[i])
    ensures Heads(w, isSep, b) == if b && w != [] then [w[0]] else []
    decreases |w|
  {
    if w != [] {
      HeadsOfWord(w[1..], isSep, false);
    }
  }

  /** For a string with no white space at either end, `split(/\s+/)` yields
      one piece per word. */
  lemma {:induction false} SplitOnWhitespaceCountsWords(t: string)
    requires t != [] && !IsWhitespace(t[0]) && !IsWhitespace(t[|t| - 1])
    ensures |SplitOnWhitespace(t)| == WordCount(t)
    decreases |t|
  {
    var i := SkipContent(t, 0);
    if i == |t| {
      HeadsOfWord(t, IsWhitespace, true);
    } else {
      var j := SkipWhitespace(t, i);
      assert j < |t|;
      assert 0 < i;
      var w, gap, rest := t[..i], t[i..j], t[j..];
      assert t == w + (gap + rest);
      HeadsConcat(w, gap + rest, IsWhitespace, true);
      HeadsConcat(gap, rest, IsWhitespace, false);
      HeadsOfWord(w, IsWhitespace, true);
      HeadsOfSeparators(gap, IsWhitespace, false);
      assert gap[|gap| - 1] == t[j - 1];
      assert rest[|rest| - 1] == t[|t| - 1];
      SplitOnWhitespaceCountsWords(rest);
    }
  }

  /** Trimming does not change the number of words. */
  lemma WordCountTrim(s: string)
    ensures WordCount(Trim(s)) == WordCount(s)
  {
    var a, b := TrimBounds(s);
    var pre, mid, post := s[..a], s[a..b], s[b..];
    assert s == pre + (mid + post);
    HeadsConcat(pre, mid + post, IsWhitespace, true);
    HeadsOfSeparators(pre, IsWhitespace, true);
    var flag := if pre == [] then true else IsWhitespace(pre[|pre| - 1]);
    assert flag;
    HeadsConcat(mid, post, IsWhitespace, true);
    HeadsOfSeparators(post, IsWhitespace, if mid == [] then true else IsWhitespace(mid[|mid| - 1]));
  }

  /** `s.trim().split(/\s+/).length` is the number of words of `s`, except that
      a blank string still yields one (empty) piece. */
  lemma TrimmedSplitLength(s: string)
    ensures |SplitOnWhitespace(Trim(s))| == if WordCount(s) == 0 then 1 else WordCount(s)
  {
    var t := Trim(s);
    WordCountTrim(s);
    if t == [] {
      assert SplitOnWhitespace(t) == [t];
    } else {
      SplitOnWhitespaceCountsWords(t);
      HeadsOfWord(t[..1], IsWhitespace, true);
      assert t == t[..1] + t[1..];
      HeadsConcat(t[..1], t[1..], IsWhitespace, true);
    }
  }

  // ---------------------------------------------------------------------------
  // number to string

  function DigitChar(d: nat): (c: char)
    requires d < 10
    ensures IsAsciiDigit(c)
  {
    ('0' as int + d) as char
  }

  /** The decimal digits of `n`, most significant first, without leading zeros. */
  function NatToString(n: nat): (r: string)
    ensures |r| >= 1
    ensures forall i :: 0 <= i < |r| ==> IsAsciiDigit(r[i])
    ensures |r| > 1 ==> r[0] != '0'
    decreases n
  {
    if n < 10 then [DigitChar(n)] else NatToString(n / 10) + [DigitChar(n % 10)]
  }

  /** `String(n)` for an integer `n`. */
  function IntToString(n: int): (r: string)
    ensures |r| >= 1
    ensures forall i :: 0 <= i < |r| ==> IsAsciiDigit(r[i]) || (i == 0 && r[i] == '-')
    ensures r[0] == '-' <==> n < 0
  {
    if n < 0 then "-" + NatToString(-n) else NatToString(n)
  }
}
