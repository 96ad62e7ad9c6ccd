/** The JavaScript string operations the application uses, on `seq<char>`:
    `\s`, `trim`, `toLowerCase`, `startsWith`, `includes`, `split`, `join`, `substring`
    and the decimal rendering of a non-negative integer in a template literal. */
module Strings {

  /** JavaScript's `\s`, which is also the set of characters `trim` removes: the
      WhiteSpace and LineTerminator code points of ECMAScript. */
  const SpaceChars: set<char> := {
    ' ', '\t', '\n', '\r', '\U{000B}', '\U{000C}', '\U{00A0}', '\U{1680}',
    '\U{2000}', '\U{2001}', '\U{2002}', '\U{2003}', '\U{2004}', '\U{2005}', '\U{2006}',
    '\U{2007}', '\U{2008}', '\U{2009}', '\U{200A}', '\U{2028}', '\U{2029}', '\U{202F}',
    '\U{205F}', '\U{3000}', '\U{FEFF}'}

  predicate IsSpace(c: char) { c in SpaceChars }

  predicate AllSpace(s: string) {
    forall i :: 0 <= i < |s| ==> IsSpace(s[i])
  }

  predicate NoSpace(s: string) {
    forall i :: 0 <= i < |s| ==> !IsSpace(s[i])
  }

  /** `toLowerCase` on one character, for ASCII and the Latin-1 and Hungarian upper-case
      letters (the model's alphabet). */
  function Lower(c: char): char {
    if 'A' <= c <= 'Z' || ('\U{00C0}' <= c <= '\U{00DE}' && c != '\U{00D7}') then (c as int + 32) as char
    else if c == '\U{0150}' || c == '\U{0170}' then (c as int + 1) as char
    else c
  }

  function ToLower(s: string): (r: string)
    ensures |r| == |s|
    ensures forall i :: 0 <= i < |s| ==> r[i] == Lower(s[i])
  {
    seq(|s|, i requires 0 <= i < |s| => Lower(s[i]))
  }

  predicate StartsWith(s: string, prefix: string) {
    |prefix| <= |s| && s[..|prefix|] == prefix
  }

  /** `s.includes(sub)`. */
  predicate Contains(s: string, sub: string)
    decreases |s|
  {
    StartsWith(s, sub) || (s != [] && Contains(s[1..], sub))
  }

  lemma {:induction false} ContainsAppend(a: string, b: string, sub: string)
    requires Contains(b, sub)
    ensures Contains(a + b, sub)
    decreases |a|
  {
    if a != [] {
      assert (a + b)[1..] == a[1..] + b;
      ContainsAppend(a[1..], b, sub);
    } else {
      assert a + b == b;
    }
  }

  /** Any string contains each of its infixes. */
  lemma ContainsInfix(a: string, b: string, c: string)
    ensures Contains(a + b + c, b)
  {
    assert StartsWith(b + c, b) by { assert (b + c)[..|b|] == b; }
    assert Contains(b + c, b);
    ContainsAppend(a, b + c, b);
    assert a + b + c == a + (b + c);
  }

  /** Concatenation is associative; stated once here so that callers need not prove it
      element by element. */
  lemma AppendAssoc<T>(a: seq<T>, b: seq<T>, c: seq<T>)
    ensures a + b + c == a + (b + c)
  {
  }

  /** Drops the leading white space. */
  function DropSpaces(s: string): (r: string)
    ensures |r| <= |s| && r == s[|s| - |r|..]
    ensures r == [] || !IsSpace(r[0])
    ensures AllSpace(s[..|s| - |r|])
    decreases |s|
  {
    if s != [] && IsSpace(s[0]) then
      var r := DropSpaces(s[1..]);
      assert s[..|s| - |r|] == [s[0]] + s[1..][..|s| - 1 - |r|];
      r
    else s
  }

  /** Drops the trailing white space. */
  function DropTrailingSpaces(s: string): (r: string)
    ensures |r| <= |s| && r == s[..|r|]
    ensures r == [] || !IsSpace(r[|r| - 1])
    ensures AllSpace(s[|r|..])
    decreases |s|
  {
    if s != [] && IsSpace(s[|s| - 1]) then
      var p := s[..|s| - 1];
      var r := DropTrailingSpaces(p);
      assert p[..|r|] == s[..|r|];
      assert s[|r|..] == p[|r|..] + [s[|s| - 1]];
      r
    else s
  }

  predicate IsTrimmed(s: string) {
    s == [] || (!IsSpace(s[0]) && !IsSpace(s[|s| - 1]))
  }

  /** `s.trim()`: the infix `s[i..j]` that remains after removing white space at both ends. */
  function Trim(s: string): (r: string)
    ensures IsTrimmed(r)
    ensures exists i, j :: 0 <= i <= j <= |s| && r == s[i..j] && AllSpace(s[..i]) && AllSpace(s[j..])
  {
    var t := DropSpaces(s);
    var r := DropTrailingSpaces(t);
    TrimShape(s, t, r);
    r
  }

  /** What the two passes of `Trim` leave: `t` is `s` without its leading white space and
      `r` is `t` without its trailing white space. */
  lemma TrimShape(s: string, t: string, r: string)
    requires |t| <= |s| && t == s[|s| - |t|..] && AllSpace(s[..|s| - |t|]) && (t == [] || !IsSpace(t[0]))
    requires |r| <= |t| && r == t[..|r|] && AllSpace(t[|r|..]) && (r == [] || !IsSpace(r[|r| - 1]))
    ensures IsTrimmed(r)
    ensures var i := |s| - |t|; r == s[i..i + |r|] && AllSpace(s[..i]) && AllSpace(s[i + |r|..])
  {
    var i := |s| - |t|;
    assert r != [] ==> r[0] == t[0];
    assert s[i + |r|..] == t[|r|..];
  }

  /** Trimming a string that is already trimmed leaves it unchanged. */
  lemma TrimOfTrimmed(s: string)
    requires IsTrimmed(s)
    ensures Trim(s) == s
  {
  }

  /** The first maximal run of non-white-space characters of `s`, which starts at `s[0]`. */
  function TakeWord(s: string): (w: string)
    ensures |w| <= |s| && w == s[..|w|]
    ensures NoSpace(w)
    ensures |w| == |s| || IsSpace(s[|w|])
    ensures s != [] && !IsSpace(s[0]) ==> |w| > 0
    decreases |s|
  {
    if s == [] || IsSpace(s[0]) then [] else [s[0]] + TakeWord(s[1..])
  }

  /** The maximal runs of non-white-space characters of `s`, in order: what
      `s.trim().split(/\s+/)` yields for a string that is not blank. */
  function Words(s: string): (ws: seq<string>)
    ensures forall k :: 0 <= k < |ws| ==> ws[k] != [] && NoSpace(ws[k])
    decreases |s|
  {
    var t := DropSpaces(s);
    if t == [] then []
    else
      var w := TakeWord(t);
      assert w != [] && NoSpace(w);
      var rest := Words(t[|w|..]);
      Prepend(w, rest)
  }

  /** `[w] + rest`, whose elements are `w` followed by those of `rest`. */
  function Prepend(w: string, rest: seq<string>): (ws: seq<string>)
    requires w != [] && NoSpace(w)
    requires forall k :: 0 <= k < |rest| ==> rest[k] != [] && NoSpace(rest[k])
    ensures ws == [w] + rest
    ensures forall k :: 0 <= k < |ws| ==> ws[k] != [] && NoSpace(ws[k])
  {
    [w] + rest
  }

  lemma {:induction false} DropSpacesAfterSpaces(ws: string, s: string)
    requires AllSpace(ws)
    ensures DropSpaces(ws + s) == DropSpaces(s)
    decreases |ws|
  {
    if ws != [] {
      assert (ws + s)[0] == ws[0];
      assert (ws + s)[1..] == ws[1..] + s;
      DropSpacesAfterSpaces(ws[1..], s);
    } else {
      assert ws + s == s;
    }
  }

  /** White space in front of a string does not change its words. */
  lemma WordsAfterSpaces(ws: string, s: string)
    requires AllSpace(ws)
    ensures Words(ws + s) == Words(s)
  {
    DropSpacesAfterSpaces(ws, s);
  }

  /** A string without white space is its own first word. */
  lemma TakeWordNoSpace(s: string)
    requires NoSpace(s)
    ensures TakeWord(s) == s
  {
  }

  /** The first word of `x` is not extended past white space that follows `x`. */
  lemma {:induction false} TakeWordBeforeSpace(x: string, y: string)
    requires y == [] || IsSpace(y[0])
    ensures TakeWord(x + y) == TakeWord(x)
    decreases |x|
  {
    if x == [] {
      assert x + y == y;
    } else if !IsSpace(x[0]) {
      assert (x + y)[1..] == x[1..] + y;
      TakeWordBeforeSpace(x[1..], y);
    }
  }

  /** A word followed by white space or by nothing is the first of the words. */
  lemma WordsCons(w: string, r: string)
    requires w != [] && NoSpace(w) && (r == [] || IsSpace(r[0]))
    ensures Words(w + r) == [w] + Words(r)
  {
    var s := w + r;
    assert s[0] == w[0];
    TakeWordBeforeSpace(w, r);
    TakeWordNoSpace(w);
    assert s[|w|..] == r;
  }

  /** `s.split(c)` for a one-character separator: the pieces between occurrences of `c`,
      so `[""]` for the empty string. */
  function SplitOn(s: string, c: char): (parts: seq<string>)
    ensures |parts| >= 1
    ensures forall k, i :: 0 <= k < |parts| && 0 <= i < |parts[k]| ==> parts[k][i] != c
    decreases |s|
  {
    if s == [] then [[]]
    else if s[0] == c then [[]] + SplitOn(s[1..], c)
    else
      var rest := SplitOn(s[1..], c);
      [[s[0]] + rest[0]] + rest[1..]
  }

  /** `parts.join(sep)`. */
  function Join(parts: seq<string>, sep: string): string
    decreases |parts|
  {
    if parts == [] then []
    else if |parts| == 1 then parts[0]
    else parts[0] + sep + Join(parts[1..], sep)
  }

  /** Joining the pieces of a split with the separator gives back the original string. */
  lemma {:induction false} JoinSplitOn(s: string, c: char)
    ensures Join(SplitOn(s, c), [c]) == s
    decreases |s|
  {
    if s != [] {
      JoinSplitOn(s[1..], c);
      var rest := SplitOn(s[1..], c);
      if s[0] == c {
        assert SplitOn(s, c) == [[]] + rest;
        assert ([[]] + rest)[1..] == rest;
      } else {
        var parts := [[s[0]] + rest[0]] + rest[1..];
        assert SplitOn(s, c) == parts;
        if |rest| == 1 {
          assert Join(rest, [c]) == rest[0];
        } else {
          assert parts[1..] == rest[1..];
          assert Join(rest, [c]) == rest[0] + [c] + Join(rest[1..], [c]);
        }
      }
    }
  }

  lemma {:induction false} SplitOnPiece(p: string, c: char, t: string)
    requires forall i :: 0 <= i < |p| ==> p[i] != c
    ensures SplitOn(p + [c] + t, c) == [p] + SplitOn(t, c)
    decreases |p|
  {
    if p == [] {
      assert p + [c] + t == [c] + t;
      assert ([c] + t)[1..] == t;
    } else {
      assert (p + [c] + t)[1..] == p[1..] + [c] + t;
      SplitOnPiece(p[1..], c, t);
      assert [p[0]] + p[1..] == p;
    }
  }

  /** Splitting at a separator splits the two sides on their own. */
  lemma {:induction false} SplitOnAppend(x: string, c: char, y: string)
    ensures SplitOn(x + [c] + y, c) == SplitOn(x, c) + SplitOn(y, c)
    decreases |x|
  {
    var s := x + [c] + y;
    if x == [] {
      assert s == [c] + y && s[1..] == y;
    } else {
      assert s[0] == x[0] && s[1..] == x[1..] + [c] + y;
      SplitOnAppend(x[1..], c, y);
      if x[0] != c {
        var rx := SplitOn(x[1..], c);
        var ry := SplitOn(y, c);
        assert (rx + ry)[0] == rx[0] && (rx + ry)[1..] == rx[1..] + ry;
      }
    }
  }

  lemma {:induction false} SplitOnNone(p: string, c: char)
    requires forall i :: 0 <= i < |p| ==> p[i] != c
    ensures SplitOn(p, c) == [p]
    decreases |p|
  {
    if p != [] {
      SplitOnNone(p[1..], c);
      assert [p[0]] + p[1..] == p;
    }
  }

  /** Splitting a join whose pieces do not contain the separator gives back the pieces. */
  lemma {:induction false} SplitOnJoin(parts: seq<string>, c: char)
    requires |parts| >= 1
    requires forall k, i :: 0 <= k < |parts| && 0 <= i < |parts[k]| ==> parts[k][i] != c
    ensures SplitOn(Join(parts, [c]), c) == parts
    decreases |parts|
  {
    if |parts| == 1 {
      SplitOnNone(parts[0], c);
    } else {
      SplitOnJoin(parts[1..], c);
      SplitOnPiece(parts[0], c, Join(parts[1..], [c]));
    }
  }

  function DigitChar(d: nat): (c: char)
    requires d < 10
    ensures '0' <= c <= '9' && c as int == '0' as int + d
  {
    ('0' as int + d) as char
  }

  /** The decimal digits of `n`, as a template literal renders an integral number. */
  function NatToString(n: nat): (r: string)
    ensures |r| >= 1
    ensures forall i :: 0 <= i < |r| ==> '0' <= r[i] <= '9'
    decreases n
  {
    if n < 10 then [DigitChar(n)] else NatToString(n / 10) + [DigitChar(n % 10)]
  }

  /** The decimal rendering of an integer, with a leading `-` when it is negative. */
  function IntToString(n: int): (r: string)
    ensures |r| >= 1
  {
    if n < 0 then "-" + NatToString(-n) else NatToString(n)
  }

  function Clamp(x: int, n: nat): (r: nat)
    ensures r <= n
  {
    if x < 0 then 0 else if x > n then n else x
  }

  /** `s.substring(a, b)`: both bounds are clamped to the string and swapped when the
      first exceeds the second. */
  function JsSubstring(s: string, a: int, b: int): (r: string)
    ensures |r| <= |s|
  {
    var lo, hi := Clamp(a, |s|), Clamp(b, |s|);
    if lo <= hi then s[lo..hi] else s[hi..lo]
  }
}
