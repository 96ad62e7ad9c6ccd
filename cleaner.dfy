/** The text helpers of apps/web/server/utils/cleaner.ts: word counting, sentence
    splitting, URL removal, truncation at a word boundary and Markdown normalisation. Each
    regular expression is written out as the scan it performs. */
module Cleaner {
  import opened Wrappers
  import opened Strings
  import opened Collections

  // ---------------------------------------------------------------------------
  // Shared list helpers

  /** `.filter(s => s.length > 0)`. */
  function NonEmpty(ps: seq<string>): (r: seq<string>)
    ensures forall k :: 0 <= k < |r| ==> r[k] != [] && r[k] in ps
    decreases |ps|
  {
    if ps == [] then []
    else
      var rest := NonEmpty(ps[1..]);
      assert forall k :: 0 <= k < |rest| ==> rest[k] in ps;
      if ps[0] == [] then rest else [ps[0]] + rest
  }

  /** `.map(s => s.trim())`. */
  function TrimAll(ps: seq<string>): (r: seq<string>)
    ensures |r| == |ps| && forall k :: 0 <= k < |ps| ==> r[k] == Trim(ps[k])
  {
    seq(|ps|, k requires 0 <= k < |ps| => Trim(ps[k]))
  }

  /** The characters of `s` that are not white space, in order. */
  function Visible(s: string): string
    decreases |s|
  {
    if s == [] then [] else (if IsSpace(s[0]) then [] else [s[0]]) + Visible(s[1..])
  }

  lemma {:induction false} VisibleAppend(a: string, b: string)
    ensures Visible(a + b) == Visible(a) + Visible(b)
    decreases |a|
  {
    if a == [] {
      assert a + b == b;
    } else {
      assert (a + b)[1..] == a[1..] + b;
      VisibleAppend(a[1..], b);
    }
  }

  lemma {:induction false} VisibleOfSpaces(s: string)
    requires AllSpace(s)
    ensures Visible(s) == []
    decreases |s|
  {
    if s != [] {
      VisibleOfSpaces(s[1..]);
    }
  }

  /** Trimming removes white space only. */
  lemma VisibleTrim(s: string)
    ensures Visible(Trim(s)) == Visible(s)
  {
    hide IsSpace, Trim;
    var i, j :| 0 <= i <= j <= |s| && Trim(s) == s[i..j] && AllSpace(s[..i]) && AllSpace(s[j..]);
    assert s == s[..i] + s[i..j] + s[j..];
    VisibleAppend(s[..i] + s[i..j], s[j..]);
    VisibleAppend(s[..i], s[i..j]);
    VisibleOfSpaces(s[..i]);
    VisibleOfSpaces(s[j..]);
  }

  /** Leading white space is invisible. */
  lemma VisibleDropSpaces(s: string)
    ensures Visible(DropSpaces(s)) == Visible(s)
  {
    var t := DropSpaces(s);
    assert s == s[..|s| - |t|] + t;
    VisibleAppend(s[..|s| - |t|], t);
    VisibleOfSpaces(s[..|s| - |t|]);
  }

  // ---------------------------------------------------------------------------
  // countWords

  /** `s.split(/\s+/)`: the pieces between maximal runs of white space, so a leading or a
      trailing run yields an empty piece. */
  function SplitSpaces(s: string): (ps: seq<string>)
    ensures |ps| >= 1
    decreases |s|
  {
    var w := TakeWord(s);
    var rest := s[|w|..];
    if rest == [] then [w]
    else
      assert IsSpace(rest[0]);
      [w] + SplitSpaces(DropSpaces(rest))
  }

  /** `text.trim().split(/\s+/).filter(w => w.length > 0).length`. */
  function CountWords(text: string): nat {
    |NonEmpty(SplitSpaces(Trim(text)))|
  }

  lemma DropSpacesIdle(s: string)
    requires s == [] || !IsSpace(s[0])
    ensures DropSpaces(s) == s
  {
  }

  /** A string that starts with white space has the words of its remainder. */
  lemma WordsOfSpaced(s: string)
    requires s != [] && IsSpace(s[0])
    ensures Words(s) == Words(DropSpaces(s))
  {
    DropSpacesIdle(DropSpaces(s));
  }

  /** The non-empty pieces of the split are exactly the words. */
  lemma {:induction false} SplitSpacesWords(s: string)
    ensures NonEmpty(SplitSpaces(s)) == Words(s)
    decreases |s|
  {
    var w := TakeWord(s);
    var rest := s[|w|..];
    if s == [] {
    } else if IsSpace(s[0]) {
      assert w == [] && rest == s;
      var ps := SplitSpaces(s);
      assert ps == [[]] + SplitSpaces(DropSpaces(s));
      assert ps[1..] == SplitSpaces(DropSpaces(s));
      SplitSpacesWords(DropSpaces(s));
      WordsOfSpaced(s);
    } else {
      DropSpacesIdle(s);
      assert w != [];
      if rest == [] {
        assert SplitSpaces(s) == [w];
        assert Words(s[|w|..]) == [];
      } else {
        var ps := SplitSpaces(s);
        assert ps == [w] + SplitSpaces(DropSpaces(rest));
        assert ps[1..] == SplitSpaces(DropSpaces(rest));
        SplitSpacesWords(DropSpaces(rest));
        WordsOfSpaced(rest);
      }
    }
  }

  lemma TakeWordBeforeSpaces(t: string, ws: string)
    requires AllSpace(ws)
    ensures TakeWord(t + ws) == TakeWord(t)
    decreases |t|
  {
    if t == [] {
      assert t + ws == ws;
    } else if !IsSpace(t[0]) {
      assert (t + ws)[1..] == t[1..] + ws;
      TakeWordBeforeSpaces(t[1..], ws);
    }
  }

  lemma {:induction false} DropSpacesBeforeSpaces(t: string, ws: string)
    requires AllSpace(ws)
    ensures DropSpaces(t + ws) == (if AllSpace(t) then [] else DropSpaces(t) + ws)
    decreases |t|
  {
    hide IsSpace, DropSpaces;
    if t == [] {
      assert t + ws == ws;
      DropAllSpaces(ws);
    } else if IsSpace(t[0]) {
      assert (t + ws)[0] == t[0] && (t + ws)[1..] == t[1..] + ws;
      DropSpacesStep(t + ws);
      DropSpacesStep(t);
      DropSpacesBeforeSpaces(t[1..], ws);
      assert AllSpace(t) <==> AllSpace(t[1..]);
    } else {
      assert (t + ws)[0] == t[0] && !AllSpace(t);
      DropSpacesIdle(t);
      DropSpacesIdle(t + ws);
    }
  }

  lemma DropSpacesStep(s: string)
    requires s != [] && IsSpace(s[0])
    ensures DropSpaces(s) == DropSpaces(s[1..])
  {
  }

  lemma {:induction false} DropAllSpaces(s: string)
    requires AllSpace(s)
    ensures DropSpaces(s) == []
    decreases |s|
  {
    if s != [] {
      DropAllSpaces(s[1..]);
    }
  }

  lemma DropAppend(a: string, b: string, k: nat)
    requires k <= |a|
    ensures (a + b)[k..] == a[k..] + b
  {
  }

  /** One step of `Words` on a string that is not blank. */
  lemma WordsUnfold(s: string)
    requires DropSpaces(s) != []
    ensures Words(s) == [TakeWord(DropSpaces(s))] + Words(DropSpaces(s)[|TakeWord(DropSpaces(s))|..])
  {
  }

  /** Trailing white space does not change the words. */
  lemma {:induction false} WordsBeforeSpaces(s: string, ws: string)
    requires AllSpace(ws)
    ensures Words(s + ws) == Words(s)
    decreases |s|
  {
    DropSpacesBeforeSpaces(s, ws);
    if AllSpace(s) {
      DropAllSpaces(s);
      assert DropSpaces(s + ws) == [];
    } else {
      var t := DropSpaces(s);
      var w := TakeWord(t);
      assert DropSpaces(s + ws) == t + ws;
      TakeWordBeforeSpaces(t, ws);
      DropAppend(t, ws, |w|);
      WordsUnfold(s);
      WordsUnfold(s + ws);
      WordsBeforeSpaces(t[|w|..], ws);
    }
  }

  /** Trimming does not change the words. */
  lemma WordsOfTrim(text: string)
    ensures Words(Trim(text)) == Words(text)
  {
    var i, j :| 0 <= i <= j <= |text| && Trim(text) == text[i..j] && AllSpace(text[..i]) && AllSpace(text[j..]);
    assert text == text[..i] + (text[i..j] + text[j..]);
    WordsAfterSpaces(text[..i], text[i..j] + text[j..]);
    WordsBeforeSpaces(text[i..j], text[j..]);
  }

  /** `countWords` is the number of maximal runs of characters that are not white space,
      so 0 for an empty or blank text. */
  lemma CountWordsIsWords(text: string)
    ensures CountWords(text) == |Words(text)|
    ensures AllSpace(text) ==> CountWords(text) == 0
  {
    var trimmed := Trim(text);
    assert CountWords(text) == |NonEmpty(SplitSpaces(trimmed))|;
    SplitSpacesWords(trimmed);
    WordsOfTrim(text);
    if AllSpace(text) {
      DropAllSpaces(text);
      assert Words(text) == [];
    }
  }

  // ---------------------------------------------------------------------------
  // splitIntoSentences

  predicate IsSentenceEnd(c: char) {
    c == '.' || c == '!' || c == '?'
  }

  /** `text.replace(/([.!?])\s+/g, '$1\n')`: a sentence mark followed by white space keeps
      the mark and the whole run becomes one line break. */
  function MarkBreaks(s: string): string
    decreases |s|
  {
    if s == [] then []
    else if IsSentenceEnd(s[0]) && |s| > 1 && IsSpace(s[1]) then [s[0], '\n'] + MarkBreaks(DropSpaces(s[1..]))
    else [s[0]] + MarkBreaks(s[1..])
  }

  /** `splitIntoSentences`. */
  function SplitIntoSentences(text: string): seq<string> {
    NonEmpty(TrimAll(SplitOn(MarkBreaks(text), '\n')))
  }

  predicate OneLine(s: string) {
    forall i :: 0 <= i < |s| ==> s[i] != '\n'
  }

  /** Trimming a line keeps it on one line. */
  lemma TrimOneLine(p: string)
    requires OneLine(p)
    ensures OneLine(Trim(p))
  {
    var a, b :| 0 <= a <= b <= |p| && Trim(p) == p[a..b] && AllSpace(p[..a]) && AllSpace(p[b..]);
    forall i | 0 <= i < |Trim(p)| ensures Trim(p)[i] != '\n' {
      assert Trim(p)[i] == p[a + i];
    }
  }

  lemma KeptLines(pieces: seq<string>)
    requires forall k :: 0 <= k < |pieces| ==> OneLine(pieces[k])
    ensures forall k :: 0 <= k < |NonEmpty(TrimAll(pieces))| ==>
      NonEmpty(TrimAll(pieces))[k] != [] && IsTrimmed(NonEmpty(TrimAll(pieces))[k]) && OneLine(NonEmpty(TrimAll(pieces))[k])
  {
    var trimmed := TrimAll(pieces);
    forall k | 0 <= k < |trimmed| ensures IsTrimmed(trimmed[k]) && OneLine(trimmed[k]) {
      TrimOneLine(pieces[k]);
    }
  }

  /** Every sentence is non-empty, trimmed and on one line. */
  lemma SentencesShape(text: string)
    ensures forall k :: 0 <= k < |SplitIntoSentences(text)| ==>
      SplitIntoSentences(text)[k] != [] && IsTrimmed(SplitIntoSentences(text)[k]) && OneLine(SplitIntoSentences(text)[k])
  {
    var pieces := SplitOn(MarkBreaks(text), '\n');
    KeptLines(pieces);
  }

  lemma {:induction false} VisibleMarkBreaks(s: string)
    ensures Visible(MarkBreaks(s)) == Visible(s)
    decreases |s|
  {
    if s != [] {
      if IsSentenceEnd(s[0]) && |s| > 1 && IsSpace(s[1]) {
        var t := DropSpaces(s[1..]);
        VisibleMarkBreaks(t);
        VisibleAppend([s[0], '\n'], MarkBreaks(t));
        VisibleDropSpaces(s[1..]);
        assert [s[0], '\n'][1..] == ['\n'];
      } else {
        VisibleMarkBreaks(s[1..]);
        VisibleAppend([s[0]], MarkBreaks(s[1..]));
      }
    }
  }

  lemma {:induction false} VisibleJoin(ps: seq<string>)
    ensures Visible(Join(ps, "\n")) == Visible(Flatten(ps))
    decreases |ps|
  {
    if |ps| == 1 {
      assert Flatten(ps) == ps[0] + Flatten([]);
      assert ps[0] + [] == ps[0];
    } else if |ps| > 1 {
      VisibleJoin(ps[1..]);
      VisibleAppend(ps[0] + "\n", Join(ps[1..], "\n"));
      VisibleAppend(ps[0], "\n");
      VisibleAppend(ps[0], Flatten(ps[1..]));
    }
  }

  lemma {:induction false} VisibleTrimAll(ps: seq<string>)
    ensures Visible(Flatten(TrimAll(ps))) == Visible(Flatten(ps))
    decreases |ps|
  {
    if ps != [] {
      assert TrimAll(ps)[1..] == TrimAll(ps[1..]);
      VisibleTrimAll(ps[1..]);
      VisibleAppend(Trim(ps[0]), Flatten(TrimAll(ps[1..])));
      VisibleAppend(ps[0], Flatten(ps[1..]));
      VisibleTrim(ps[0]);
    }
  }

  lemma {:induction false} VisibleNonEmpty(ps: seq<string>)
    ensures Visible(Flatten(NonEmpty(ps))) == Visible(Flatten(ps))
    decreases |ps|
  {
    if ps != [] {
      VisibleNonEmpty(ps[1..]);
      VisibleAppend(ps[0], Flatten(ps[1..]));
      if ps[0] != [] {
        var r := NonEmpty(ps);
        assert r == [ps[0]] + NonEmpty(ps[1..]);
        assert r[1..] == NonEmpty(ps[1..]);
        VisibleAppend(ps[0], Flatten(NonEmpty(ps[1..])));
      } else {
        assert ps[0] + Flatten(ps[1..]) == Flatten(ps[1..]);
      }
    }
  }

  /** Splitting into sentences loses white space only: the sentences together hold the
      text's other characters in their order. */
  lemma SentencesKeepText(text: string)
    ensures Visible(Flatten(SplitIntoSentences(text))) == Visible(text)
  {
    var marked := MarkBreaks(text);
    var pieces := SplitOn(marked, '\n');
    VisibleNonEmpty(TrimAll(pieces));
    VisibleTrimAll(pieces);
    VisibleJoin(pieces);
    JoinSplitOn(marked, '\n');
    VisibleMarkBreaks(text);
  }

  /** No sentence mark in `s` is directly followed by white space, so the replacement of
      `splitIntoSentences` finds nothing to cut in `s`. */
  predicate NoSentenceBreak(s: string) {
    forall i :: 0 <= i < |s| - 1 ==> !(IsSentenceEnd(s[i]) && IsSpace(s[i + 1]))
  }

  lemma NoBreakTail(s: string)
    requires s != [] && NoSentenceBreak(s)
    ensures NoSentenceBreak(s[1..])
  {
    var t := s[1..];
    forall i | 0 <= i < |t| - 1 ensures !(IsSentenceEnd(t[i]) && IsSpace(t[i + 1])) {
      assert t[i] == s[i + 1] && t[i + 1] == s[i + 2];
    }
  }

  lemma NoBreakSnoc(s: string, m: char)
    requires NoSentenceBreak(s) && !IsSpace(m)
    ensures NoSentenceBreak(s + [m])
  {
    var t := s + [m];
    forall i | 0 <= i < |t| - 1 ensures !(IsSentenceEnd(t[i]) && IsSpace(t[i + 1])) {
      if i < |s| - 1 {
        assert t[i] == s[i] && t[i + 1] == s[i + 1];
      }
    }
  }

  /** A text in which no mark is followed by white space is left as it is. */
  lemma {:induction false} MarkBreaksIdle(s: string)
    requires NoSentenceBreak(s)
    ensures MarkBreaks(s) == s
    decreases |s|
  {
    if s != [] {
      NoBreakTail(s);
      MarkBreaksIdle(s[1..]);
    }
  }

  /** The first mark followed by white space is the first cut: the mark stays, the whole
      white-space run after it becomes one line break, and the rest is handled alike. */
  lemma {:induction false} MarkBreaksCut(a: string, m: char, ws: string, b: string)
    requires NoSentenceBreak(a) && IsSentenceEnd(m)
    requires ws != [] && AllSpace(ws) && (b == [] || !IsSpace(b[0]))
    ensures MarkBreaks(a + [m] + ws + b) == a + [m, '\n'] + MarkBreaks(b)
    decreases |a|
  {
    hide *;
    if a == [] {
      MarkBreaksCutHere(m, ws, b);
      assert a + [m] + ws + b == [m] + ws + b;
      assert a + [m, '\n'] + MarkBreaks(b) == [m, '\n'] + MarkBreaks(b);
    } else {
      MarkBreaksCutStep(a, m, ws, b);
      MarkBreaksCut(a[1..], m, ws, b);
      ConsAppend(a, [m, '\n'] + MarkBreaks(b));
      AppendAssoc(a[1..], [m, '\n'], MarkBreaks(b));
      AppendAssoc(a, [m, '\n'], MarkBreaks(b));
    }
  }

  lemma MarkBreaksCutHere(m: char, ws: string, b: string)
    requires IsSentenceEnd(m)
    requires ws != [] && AllSpace(ws) && (b == [] || !IsSpace(b[0]))
    ensures MarkBreaks([m] + ws + b) == [m, '\n'] + MarkBreaks(b)
  {
    var s := [m] + ws + b;
    assert s[0] == m && s[1] == ws[0] && s[1..] == ws + b;
    DropSpacesAfterSpaces(ws, b);
    DropSpacesIdle(b);
    assert IsSentenceEnd(s[0]) && IsSpace(s[1]);
    hide *;
    MarkBreaksMark(s);
  }

  lemma MarkBreaksCutStep(a: string, m: char, ws: string, b: string)
    requires a != [] && NoSentenceBreak(a) && IsSentenceEnd(m)
    ensures NoSentenceBreak(a[1..])
    ensures MarkBreaks(a + [m] + ws + b) == [a[0]] + MarkBreaks(a[1..] + [m] + ws + b)
  {
    var s := a + [m] + ws + b;
    assert s[0] == a[0] && s[1..] == a[1..] + [m] + ws + b;
    assert s[1] == if |a| > 1 then a[1] else m;
    assert !IsSpace(m);
    NoBreakTail(a);
    assert !(IsSentenceEnd(s[0]) && IsSpace(s[1]));
    hide *;
    MarkBreaksPlain(s);
  }

  lemma ConsAppend(a: string, t: string)
    requires a != []
    ensures [a[0]] + (a[1..] + t) == a + t
  {
  }

  lemma MarkBreaksMark(s: string)
    requires |s| > 1 && IsSentenceEnd(s[0]) && IsSpace(s[1])
    ensures MarkBreaks(s) == [s[0], '\n'] + MarkBreaks(DropSpaces(s[1..]))
  {
  }

  lemma MarkBreaksPlain(s: string)
    requires s != [] && !(IsSentenceEnd(s[0]) && |s| > 1 && IsSpace(s[1]))
    ensures MarkBreaks(s) == [s[0]] + MarkBreaks(s[1..])
  {
  }

  lemma TrimAllAppend(x: seq<string>, y: seq<string>)
    ensures TrimAll(x + y) == TrimAll(x) + TrimAll(y)
  {
    hide Trim;
    var l := TrimAll(x + y);
    var r := TrimAll(x) + TrimAll(y);
    assert |l| == |r|;
    forall k | 0 <= k < |l| ensures l[k] == r[k] {
      if k < |x| {
        assert (x + y)[k] == x[k];
      } else {
        assert (x + y)[k] == y[k - |x|];
      }
    }
  }

  lemma {:induction false} NonEmptyAppend(x: seq<string>, y: seq<string>)
    ensures NonEmpty(x + y) == NonEmpty(x) + NonEmpty(y)
    decreases |x|
  {
    if x == [] {
      assert x + y == y;
    } else {
      assert (x + y)[0] == x[0] && (x + y)[1..] == x[1..] + y;
      NonEmptyAppend(x[1..], y);
    }
  }

  /** The sentences of a text are cut after the first mark that is followed by white space:
      they are the sentences up to and including the mark, then those of the text after the
      white-space run. */
  lemma SentencesCut(a: string, m: char, ws: string, b: string)
    requires NoSentenceBreak(a) && IsSentenceEnd(m)
    requires ws != [] && AllSpace(ws) && (b == [] || !IsSpace(b[0]))
    ensures SplitIntoSentences(a + [m] + ws + b) == SplitIntoSentences(a + [m]) + SplitIntoSentences(b)
  {
    hide *;
    MarkBreaksCut(a, m, ws, b);
    MarkNotSpace(m);
    NoBreakSnoc(a, m);
    MarkBreaksIdle(a + [m]);
    var x := a + [m];
    var y := MarkBreaks(b);
    assert a + [m, '\n'] + y == x + ['\n'] + y;
    SplitOnAppend(x, '\n', y);
    TrimAllAppend(SplitOn(x, '\n'), SplitOn(y, '\n'));
    NonEmptyAppend(TrimAll(SplitOn(x, '\n')), TrimAll(SplitOn(y, '\n')));
    SentencesOf(a + [m] + ws + b);
    SentencesOf(x);
    SentencesOf(b);
  }

  lemma SentencesOf(t: string)
    ensures SplitIntoSentences(t) == NonEmpty(TrimAll(SplitOn(MarkBreaks(t), '\n')))
  {
  }


  /** Where no mark is followed by white space, the text is cut at its line breaks only. */
  lemma SentencesWithoutBreak(a: string)
    requires NoSentenceBreak(a)
    ensures SplitIntoSentences(a) == NonEmpty(TrimAll(SplitOn(a, '\n')))
  {
    MarkBreaksIdle(a);
  }

  /** So a single line without such a mark is one sentence, or none when it is blank. */
  lemma SentenceOfLine(a: string)
    requires NoSentenceBreak(a) && OneLine(a)
    ensures SplitIntoSentences(a) == if Trim(a) == [] then [] else [Trim(a)]
  {
    MarkBreaksIdle(a);
    SplitOnNone(a, '\n');
    assert SplitIntoSentences(a) == NonEmpty(TrimAll([a]));
    hide *;
    TrimAllOne(a);
    NonEmptyOne(Trim(a));
  }

  lemma TrimAllOne(x: string)
    ensures TrimAll([x]) == [Trim(x)]
  {
  }

  lemma NonEmptyOne(x: string)
    ensures NonEmpty([x]) == if x == [] then [] else [x]
  {
    assert [x][1..] == [];
  }


  /** The first place where a mark is followed by white space, or the length when there
      is none. */
  lemma {:induction false} FirstSentenceBreak(s: string) returns (i: nat)
    ensures i <= |s|
    ensures i == |s| ==> NoSentenceBreak(s)
    ensures i < |s| ==> i + 1 < |s| && IsSentenceEnd(s[i]) && IsSpace(s[i + 1]) && NoSentenceBreak(s[..i])
    decreases |s|
  {
    if s == [] || (|s| > 1 && IsSentenceEnd(s[0]) && IsSpace(s[1])) {
      i := 0;
    } else {
      var j := FirstSentenceBreak(s[1..]);
      i := j + 1;
      var p := s[..i];
      forall k | 0 <= k < |p| - 1 ensures !(IsSentenceEnd(p[k]) && IsSpace(p[k + 1])) {
        if k > 0 {
          assert p[k] == s[1..][..j][k - 1] && p[k + 1] == s[1..][..j][k];
        }
      }
      if i == |s| {
        forall k | 0 <= k < |s| - 1 ensures !(IsSentenceEnd(s[k]) && IsSpace(s[k + 1])) {
          if k > 0 {
            assert s[k] == s[1..][k - 1] && s[k + 1] == s[1..][k];
          }
        }
      }
    }
  }

  /** A text ending in a visible character keeps that character last when trimmed. */
  lemma TrimKeepsLast(s: string)
    requires s != [] && !IsSpace(s[|s| - 1])
    ensures Trim(s) != [] && Trim(s)[|Trim(s)| - 1] == s[|s| - 1]
  {
    hide *;
    var i, j :| 0 <= i <= j <= |s| && Trim(s) == s[i..j] && AllSpace(s[..i]) && AllSpace(s[j..]);
    if j < |s| {
      assert s[j..][|s| - 1 - j] == s[|s| - 1];
      AllSpaceAt(s[j..], |s| - 1 - j);
    } else if i == j {
      assert s[..i][|s| - 1] == s[|s| - 1];
      AllSpaceAt(s[..i], |s| - 1);
    }
  }

  lemma AllSpaceAt(s: string, k: nat)
    requires AllSpace(s) && k < |s|
    ensures IsSpace(s[k])
  {
  }



  lemma OneLineSlice(s: string, lo: nat, hi: nat)
    requires OneLine(s) && lo <= hi <= |s|
    ensures OneLine(s[lo..hi])
  {
    var p := s[lo..hi];
    forall k | 0 <= k < |p| ensures p[k] != '\n' {
      assert p[k] == s[lo + k];
    }
  }

  lemma OneLineParts(text: string, i: nat)
    requires OneLine(text) && i < |text|
    ensures OneLine(text[..i + 1]) && OneLine(DropSpaces(text[i + 1..]))
  {
    hide *;
    var t := text[i + 1..];
    var b := DropSpaces(t);
    var d := i + 1 + |t| - |b|;
    assert b == text[d..|text|];
    assert text[0..i + 1] == text[..i + 1];
    OneLineSlice(text, 0, i + 1);
    OneLineSlice(text, d, |text|);
  }



  /** Every sentence but the last ends with `.`, `!` or `?`. */
  predicate MarkedBeforeLast(ss: seq<string>) {
    forall k :: 0 <= k < |ss| - 1 ==> ss[k] != [] && IsSentenceEnd(ss[k][|ss[k]| - 1])
  }

  /** On a single line, every sentence but the last ends with `.`, `!` or `?`: the line is
      cut after such marks and nowhere else. */
  lemma {:induction false} SentencesEndWithMark(text: string)
    requires OneLine(text)
    ensures MarkedBeforeLast(SplitIntoSentences(text))
    decreases |text|
  {
    hide *;
    var i := FirstSentenceBreak(text);
    if i == |text| {
      SentenceOfLine(text);
      MarkedBeforeLastShort(SplitIntoSentences(text));
    } else {
      var a, m, ws, b := CutAtBreak(text, i);
      SentencesCut(a, m, ws, b);
      SentenceOfLine(a + [m]);
      TrimKeepsLast(a + [m]);
      SentencesEndWithMark(b);
      SentencesConsMark(Trim(a + [m]), SplitIntoSentences(b));
    }
  }

  lemma MarkedBeforeLastShort(ss: seq<string>)
    requires |ss| <= 1
    ensures MarkedBeforeLast(ss)
  {
  }

  /** The pieces around the first mark that is followed by white space. */
  lemma CutAtBreak(text: string, i: nat) returns (a: string, m: char, ws: string, b: string)
    requires OneLine(text) && i + 1 < |text| && IsSentenceEnd(text[i]) && IsSpace(text[i + 1])
    requires NoSentenceBreak(text[..i])
    ensures text == a + [m] + ws + b && |b| < |text|
    ensures NoSentenceBreak(a) && IsSentenceEnd(m) && (a + [m])[|a + [m]| - 1] == m && !IsSpace(m)
    ensures ws != [] && AllSpace(ws) && (b == [] || !IsSpace(b[0]))
    ensures OneLine(a + [m]) && NoSentenceBreak(a + [m]) && OneLine(b)
  {
    hide *;
    a := text[..i];
    m := text[i];
    var t := text[i + 1..];
    b := DropSpaces(t);
    ws := t[..|t| - |b|];
    assert t[0] == text[i + 1];
    assert text == a + [m] + ws + b by {
      assert t == ws + b;
      assert text == a + [m] + t;
    }
    assert a + [m] == text[..i + 1];
    OneLineParts(text, i);
    MarkNotSpace(m);
    NoBreakSnoc(a, m);
  }

  lemma MarkNotSpace(c: char)
    requires IsSentenceEnd(c)
    ensures !IsSpace(c)
  {
  }

  lemma SentencesConsMark(x: string, rest: seq<string>)
    requires x != [] && IsSentenceEnd(x[|x| - 1])
    requires MarkedBeforeLast(rest)
    ensures MarkedBeforeLast([x] + rest)
  {
    var ss := [x] + rest;
    forall k | 0 <= k < |ss| - 1 ensures ss[k] != [] && IsSentenceEnd(ss[k][|ss[k]| - 1]) {
      if k > 0 {
        assert ss[k] == rest[k - 1];
      }
    }
  }


  // ---------------------------------------------------------------------------
  // removeUrls

  /** The length of an `http://` or `https://` at the start of `s`, or 0. */
  function SchemeLength(s: string): nat {
    if StartsWith(s, "http://") then 7 else if StartsWith(s, "https://") then 8 else 0
  }

  /** `/https?:\/\/[^\s]+/` matches at the start of `s`. */
  predicate UrlAt(s: string) {
    var n := SchemeLength(s);
    n > 0 && |s| > n && !IsSpace(s[n])
  }

  /** `text.replace(/https?:\/\/[^\s]+/g, '')`: each match runs to the next white space. */
  function RemoveUrls(s: string): (r: string)
    ensures |r| <= |s|
    decreases |s|
  {
    if s == [] then []
    else if UrlAt(s) then
      var n := SchemeLength(s);
      RemoveUrls(s[n + |TakeWord(s[n..])|..])
    else [s[0]] + RemoveUrls(s[1..])
  }

  /** A match starts with `h` and its first characters are not white space. */
  lemma UrlAtShape(s: string)
    requires UrlAt(s)
    ensures s[0] == 'h' && forall i :: 0 <= i <= SchemeLength(s) ==> !IsSpace(s[i])
  {
    if StartsWith(s, "http://") {
      assert forall i :: 0 <= i < 7 ==> s[i] == "http://"[i];
    } else {
      assert forall i :: 0 <= i < 8 ==> s[i] == "https://"[i];
    }
  }

  lemma UrlAtIsHttp(s: string)
    ensures UrlAt(s) ==> StartsWith(s, "http")
  {
    if StartsWith(s, "http://") {
      assert s[..4] == s[..7][..4];
    } else if StartsWith(s, "https://") {
      assert s[..4] == s[..8][..4];
    }
  }

  /** Whether a match starts at `a` depends only on its first characters. */
  lemma UrlAtSame(a: string, b: string)
    requires UrlAt(a)
    requires SchemeLength(a) < |b| && forall i :: 0 <= i <= SchemeLength(a) ==> b[i] == a[i]
    ensures UrlAt(b)
  {
    if StartsWith(a, "http://") {
      assert b[..7] == a[..7];
    } else {
      assert b[..8] == a[..8];
      assert b[4] == 's';
    }
  }

  /** The number of leading characters the scan emits before its first removal. */
  function KeptBeforeUrl(t: string): (k: nat)
    ensures k <= |t|
    decreases |t|
  {
    if t == [] || UrlAt(t) then 0 else 1 + KeptBeforeUrl(t[1..])
  }

  /** Up to its first removal the output is the input; after it, the output continues with
      white space or ends. */
  lemma {:induction false} RemoveUrlsAgrees(t: string)
    ensures KeptBeforeUrl(t) <= |RemoveUrls(t)|
    ensures forall i :: 0 <= i < KeptBeforeUrl(t) ==> RemoveUrls(t)[i] == t[i]
    ensures KeptBeforeUrl(t) == |RemoveUrls(t)| || IsSpace(RemoveUrls(t)[KeptBeforeUrl(t)])
    decreases |t|
  {
    if t == [] {
    } else if UrlAt(t) {
      var n := SchemeLength(t);
      var w := TakeWord(t[n..]);
      var rest := t[n + |w|..];
      assert rest == t[n..][|w|..];
      assert RemoveUrls(t) == RemoveUrls(rest);
      if rest != [] {
        assert IsSpace(rest[0]);
        if UrlAt(rest) {
          UrlAtShape(rest);
        }
        assert RemoveUrls(rest) == [rest[0]] + RemoveUrls(rest[1..]);
      }
    } else {
      RemoveUrlsAgrees(t[1..]);
      assert RemoveUrls(t) == [t[0]] + RemoveUrls(t[1..]);
    }
  }

  /** The emitted character cannot start a match in the output either. */
  lemma FirstCharsKept(s: string)
    requires s != [] && !UrlAt(s)
    ensures !UrlAt([s[0]] + RemoveUrls(s[1..]))
  {
    var r' := RemoveUrls(s[1..]);
    var r := [s[0]] + r';
    var k := KeptBeforeUrl(s[1..]);
    RemoveUrlsAgrees(s[1..]);
    assert forall j :: 0 <= j < |r'| ==> r[j + 1] == r'[j];
    if UrlAt(r) {
      var n := SchemeLength(r);
      UrlAtShape(r);
      if k >= n {
        forall i | 0 <= i <= n ensures s[i] == r[i] {
          if i > 0 {
            assert r[i] == r'[i - 1];
          }
        }
        UrlAtSame(r, s);
      }
    }
  }

  /** No URL is left: every `http://` or `https://` in the output is followed by white
      space or nothing. */
  lemma {:induction false} NoUrlRemains(s: string)
    ensures forall i :: 0 <= i < |RemoveUrls(s)| ==> !UrlAt(RemoveUrls(s)[i..])
    decreases |s|
  {
    var r := RemoveUrls(s);
    if s != [] {
      if UrlAt(s) {
        var n := SchemeLength(s);
        NoUrlRemains(s[n + |TakeWord(s[n..])|..]);
      } else {
        var r' := RemoveUrls(s[1..]);
        assert r == [s[0]] + r';
        NoUrlRemains(s[1..]);
        forall i | 0 <= i < |r| ensures !UrlAt(r[i..]) {
          if i > 0 {
            assert r[i..] == r'[i - 1..];
          } else {
            FirstCharsKept(s);
            assert r[0..] == r;
          }
        }
      }
    }
  }

  /** `KeptBeforeUrl` is the position of the first match, or the length when there is
      none. */
  lemma {:induction false} KeptBeforeUrlFirst(t: string)
    ensures KeptBeforeUrl(t) < |t| ==> UrlAt(t[KeptBeforeUrl(t)..])
    ensures forall i :: 0 <= i < KeptBeforeUrl(t) ==> !UrlAt(t[i..])
    decreases |t|
  {
    if t != [] && !UrlAt(t) {
      KeptBeforeUrlFirst(t[1..]);
      assert t[0..] == t;
      forall i | 1 <= i < KeptBeforeUrl(t) ensures !UrlAt(t[i..]) {
        assert t[i..] == t[1..][i - 1..];
      }
      assert KeptBeforeUrl(t) < |t| ==> t[KeptBeforeUrl(t)..] == t[1..][KeptBeforeUrl(t[1..])..];
    }
  }

  /** A match starting in `a` is a match of `a + t` of the same scheme. */
  lemma UrlAtPrefix(a: string, t: string)
    requires UrlAt(a)
    ensures UrlAt(a + t) && SchemeLength(a + t) == SchemeLength(a) < |a|
  {
    var s := a + t;
    assert |a| >= 8;
    assert s[..7] == a[..7] && s[..8] == a[..8];
  }

  /** No match starts at white space. */
  lemma NoUrlAtSpace(s: string)
    requires s != [] && IsSpace(s[0])
    ensures !UrlAt(s)
  {
    if UrlAt(s) {
      UrlAtShape(s);
    }
  }

  /** A match that starts in `a` and would reach the white space after it starts in `a`
      alone. */
  lemma UrlAtBeforeSpace(a: string, c: char, b: string)
    requires IsSpace(c) && !UrlAt(a)
    ensures !UrlAt(a + [c] + b)
  {
    var s := a + [c] + b;
    assert s[|a|] == c;
    if UrlAt(s) {
      UrlAtShape(s);
      UrlAtSame(s, a);
    }
  }

  lemma RemoveUrlsMatch(s: string)
    requires UrlAt(s)
    ensures var n := SchemeLength(s); RemoveUrls(s) == RemoveUrls(s[n + |TakeWord(s[n..])|..])
  {
  }

  lemma RemoveUrlsPlain(s: string)
    requires s != [] && !UrlAt(s)
    ensures RemoveUrls(s) == [s[0]] + RemoveUrls(s[1..])
  {
  }

  /** A match never runs over white space: the text on each side of a white-space character
      is cleaned on its own, and the character itself is kept. */
  lemma {:induction false} RemoveUrlsAtSpace(a: string, c: char, b: string)
    requires IsSpace(c)
    ensures RemoveUrls(a + [c] + b) == RemoveUrls(a) + [c] + RemoveUrls(b)
    decreases |a|
  {
    hide *;
    var s := a + [c] + b;
    if a == [] {
      assert s == [c] + b && s[0] == c && s[1..] == b;
      NoUrlAtSpace(s);
      RemoveUrlsPlain(s);
      RemoveUrlsEmpty();
      assert RemoveUrls(a) + [c] + RemoveUrls(b) == [c] + RemoveUrls(b);
    } else if UrlAt(a) {
      var n := SchemeLength(a);
      UrlAtPrefix(a, [c] + b);
      assert s == a + ([c] + b);
      var w := TakeWord(a[n..]);
      assert s[n..] == a[n..] + ([c] + b) && ([c] + b)[0] == c;
      TakeWordBeforeSpace(a[n..], [c] + b);
      var m := n + |w|;
      assert s[m..] == a[m..] + [c] + b;
      RemoveUrlsMatch(s);
      RemoveUrlsMatch(a);
      RemoveUrlsAtSpace(a[m..], c, b);
    } else {
      UrlAtBeforeSpace(a, c, b);
      RemoveUrlsPlain(s);
      RemoveUrlsPlain(a);
      assert s[0] == a[0] && s[1..] == a[1..] + [c] + b;
      RemoveUrlsAtSpace(a[1..], c, b);
    }
  }

  lemma RemoveUrlsEmpty()
    ensures RemoveUrls([]) == []
  {
  }

  /** Within a run without white space, everything from the first match on is removed and
      everything before it is kept. */
  lemma {:induction false} RemoveUrlsInWord(w: string)
    requires NoSpace(w)
    ensures RemoveUrls(w) == w[..KeptBeforeUrl(w)]
    decreases |w|
  {
    if w != [] {
      if UrlAt(w) {
        var n := SchemeLength(w);
        TakeWordNoSpace(w[n..]);
        assert w[n + |w[n..]|..] == [];
      } else {
        RemoveUrlsInWord(w[1..]);
        assert w[..KeptBeforeUrl(w)] == [w[0]] + w[1..][..KeptBeforeUrl(w[1..])];
      }
    }
  }

  /** A text without `http` comes back unchanged. */
  lemma {:induction false} RemoveUrlsIdle(s: string)
    requires !Contains(s, "http")
    ensures RemoveUrls(s) == s
    decreases |s|
  {
    if s != [] {
      assert !StartsWith(s, "http");
      UrlAtIsHttp(s);
      RemoveUrlsIdle(s[1..]);
    }
  }

  // ---------------------------------------------------------------------------
  // truncateText

  /** `s.lastIndexOf(c)`. */
  function LastIndexOf(s: string, c: char): (r: int)
    ensures -1 <= r < |s|
    ensures r >= 0 ==> s[r] == c && forall j :: r < j < |s| ==> s[j] != c
    ensures r == -1 ==> forall j :: 0 <= j < |s| ==> s[j] != c
    decreases |s|
  {
    if s == [] then -1
    else if s[|s| - 1] == c then |s| - 1
    else LastIndexOf(s[..|s| - 1], c)
  }

  /** `truncateText`: a text within the limit is unchanged; a longer one is cut to its first
      `maxLength` characters, and further back to the last space among them when that space
      is not the first character, and then marked with `...`. */
  function TruncateText(text: string, maxLength: int): (r: string)
    ensures |text| <= maxLength ==> r == text
    ensures 0 <= maxLength < |text| ==>
      (exists p :: 0 < p < maxLength && r == text[..p] + "..." && text[p] == ' ' &&
         forall j :: p < j < maxLength ==> text[j] != ' ') ||
      (r == text[..maxLength] + "..." && forall j :: 0 < j < maxLength ==> text[j] != ' ')
    ensures maxLength < 0 ==> r == "..."
  {
    if |text| <= maxLength then text
    else
      var truncated := JsSubstring(text, 0, maxLength);
      JsPrefix(text, maxLength);
      var lastSpace := LastIndexOf(truncated, ' ');
      if lastSpace > 0 then
        assert truncated[..lastSpace] == text[..lastSpace] && text[lastSpace] == ' ';
        truncated[..lastSpace] + "..."
      else truncated + "..."
  }

  /** `text.substring(0, m)` below the length: the first `m` characters, none when `m` is
      negative. */
  lemma JsPrefix(text: string, m: int)
    requires m < |text|
    ensures JsSubstring(text, 0, m) == if m < 0 then [] else text[..m]
  {
  }

  // ---------------------------------------------------------------------------
  // normalizeMarkdown

  function DropNewlines(s: string): (r: string)
    ensures |r| <= |s| && r == s[|s| - |r|..] && (r == [] || r[0] != '\n')
    ensures forall i :: 0 <= i < |s| - |r| ==> s[i] == '\n'
    decreases |s|
  {
    if s != [] && s[0] == '\n' then DropNewlines(s[1..]) else s
  }

  /** `replace(/\n{3,}/g, '\n\n')`. */
  function CollapseNewlines(s: string): (r: string)
    ensures |r| <= |s|
    decreases |s|
  {
    if s == [] then []
    else if StartsWith(s, "\n\n\n") then
      var rest := DropNewlines(s);
      assert |rest| + 3 <= |s| by {
        assert s[..3] == "\n\n\n";
        assert forall i :: 0 <= i < 3 ==> s[i] == '\n';
      }
      "\n\n" + CollapseNewlines(rest)
    else [s[0]] + CollapseNewlines(s[1..])
  }

  /** `split('\n').map(line => line.trim()).join('\n')`. */
  function TrimLines(s: string): string {
    Join(TrimAll(SplitOn(s, '\n')), "\n")
  }

  /** Every line of the result is a trimmed line of the input. */
  lemma TrimLinesShape(s: string)
    ensures SplitOn(TrimLines(s), '\n') == TrimAll(SplitOn(s, '\n'))
    ensures forall k :: 0 <= k < |SplitOn(TrimLines(s), '\n')| ==> IsTrimmed(SplitOn(TrimLines(s), '\n')[k])
  {
    var lines := TrimAll(SplitOn(s, '\n'));
    forall k | 0 <= k < |lines| ensures OneLine(lines[k]) {
      TrimOneLine(SplitOn(s, '\n')[k]);
    }
    SplitOnJoin(lines, '\n');
  }

  /** The line terminators at which `^` and `$` match under the `m` flag. */
  predicate IsLineBreak(c: char) {
    c == '\n' || c == '\r' || c == '\U{2028}' || c == '\U{2029}'
  }

  /** The last line terminator of `s`, or -1. */
  function LastLineBreak(s: string): (r: int)
    ensures -1 <= r < |s|
    ensures r >= 0 ==> IsLineBreak(s[r]) && forall j :: r < j < |s| ==> !IsLineBreak(s[j])
    ensures r == -1 ==> forall j :: 0 <= j < |s| ==> !IsLineBreak(s[j])
    decreases |s|
  {
    if s == [] then -1
    else if IsLineBreak(s[|s| - 1]) then |s| - 1
    else LastLineBreak(s[..|s| - 1])
  }

  /** `e` is a place where `/[-*]\s*$/m` can end after its marker: only white space
      before it, and the end of the text or a line terminator at it. */
  predicate ItemEndAt(rest: string, e: int) {
    0 <= e <= |rest| && AllSpace(rest[..e]) && (e == |rest| || IsLineBreak(rest[e]))
  }

  /** Where `/[-*]\s*$/m` ends after the marker: the greedy `\s*` gives back white space
      until `$` holds, so the match ends at the furthest such place, and there is no match
      when there is none. */
  function ListItemEnd(rest: string): (r: Option<nat>)
    ensures r.Some? ==> ItemEndAt(rest, r.value) && forall e :: r.value < e <= |rest| ==> !ItemEndAt(rest, e)
    ensures r.None? ==> forall e :: 0 <= e <= |rest| ==> !ItemEndAt(rest, e)
  {
    var m := |rest| - |DropSpaces(rest)|;
    ItemEndsWithin(rest, m);
    if m == |rest| then Some(m)
    else
      var p := LastLineBreak(rest[..m]);
      if p >= 0 then
        assert AllSpace(rest[..p]) by { assert forall i :: 0 <= i < p ==> rest[..p][i] == rest[..m][i]; }
        Some(p)
      else None
  }

  /** With `m` the length of the leading white space of `rest`, every end lies within it,
      and one before `m` is a line terminator of that run. */
  lemma ItemEndsWithin(rest: string, m: nat)
    requires m <= |rest| && AllSpace(rest[..m]) && (m == |rest| || !IsSpace(rest[m]))
    ensures forall e :: 0 <= e <= |rest| && ItemEndAt(rest, e) ==>
      e <= m && (e == m ==> m == |rest|) && (e < m ==> IsLineBreak(rest[..m][e]))
  {
    forall e | 0 <= e <= |rest| && ItemEndAt(rest, e)
      ensures e <= m && (e == m ==> m == |rest|)
    {
    }
  }

  /** `replace(/^[-*]\s*$/gm, '')`; `lineStart` says whether the scan is at the start of a
      line of the original text. */
  function RemoveEmptyItems(s: string, lineStart: bool): (r: string)
    ensures |r| <= |s|
    decreases |s|
  {
    if s == [] then []
    else if lineStart && (s[0] == '-' || s[0] == '*') && ListItemEnd(s[1..]).Some? then
      var consumed := 1 + ListItemEnd(s[1..]).value;
      RemoveEmptyItems(s[consumed..], IsLineBreak(s[consumed - 1]))
    else [s[0]] + RemoveEmptyItems(s[1..], IsLineBreak(s[0]))
  }

  /** A line that is a list marker and nothing else. */
  predicate IsMarkerLine(line: string) {
    line == "-" || line == "*"
  }

  predicate NoLineBreak(s: string) {
    forall i :: 0 <= i < |s| ==> !IsLineBreak(s[i])
  }

  /** The lines after the leading empty ones. */
  function SkipEmptyLines(lines: seq<string>): (r: seq<string>)
    ensures |r| <= |lines| && r == lines[|lines| - |r|..]
    ensures r == [] || r[0] != []
    decreases |lines|
  {
    if lines != [] && lines[0] == [] then SkipEmptyLines(lines[1..]) else lines
  }

  /** What removing the empty list items does to a text of trimmed lines, line by line: a
      marker line and the empty lines right after it become one empty line (the `\s*` of
      the pattern runs over the line breaks between them), and every other line stays. */
  function EmptyItemsRemoved(lines: seq<string>): (r: seq<string>)
    ensures |r| <= |lines| && (lines != [] ==> r != [])
    decreases |lines|
  {
    if lines == [] then []
    else if IsMarkerLine(lines[0]) then [""] + EmptyItemsRemoved(SkipEmptyLines(lines[1..]))
    else [lines[0]] + EmptyItemsRemoved(lines[1..])
  }

  /** No marker line is left. */
  lemma {:induction false} EmptyItemsRemovedNoMarker(lines: seq<string>)
    ensures forall k :: 0 <= k < |EmptyItemsRemoved(lines)| ==> !IsMarkerLine(EmptyItemsRemoved(lines)[k])
    decreases |lines|
  {
    hide *;
    if lines == [] {
      EmptyItemsRemovedEmpty();
    } else {
      var tail := EmptyItemsRemovedStep(lines);
      EmptyItemsRemovedNoMarker(tail);
      NoMarkerCons(EmptyItemsRemoved(lines)[0], EmptyItemsRemoved(tail));
    }
  }

  lemma EmptyItemsRemovedEmpty()
    ensures EmptyItemsRemoved([]) == []
  {
  }

  /** One step of the removal: an unmarked first line, then the removal of what follows. */
  lemma EmptyItemsRemovedStep(lines: seq<string>) returns (tail: seq<string>)
    requires lines != []
    ensures |tail| < |lines|
    ensures EmptyItemsRemoved(lines) == [EmptyItemsRemoved(lines)[0]] + EmptyItemsRemoved(tail)
    ensures !IsMarkerLine(EmptyItemsRemoved(lines)[0])
  {
    tail := if IsMarkerLine(lines[0]) then SkipEmptyLines(lines[1..]) else lines[1..];
  }

  lemma NoMarkerCons(head: string, rest: seq<string>)
    requires !IsMarkerLine(head) && forall k :: 0 <= k < |rest| ==> !IsMarkerLine(rest[k])
    ensures forall k :: 0 <= k < |[head] + rest| ==> !IsMarkerLine(([head] + rest)[k])
  {
    var r := [head] + rest;
    forall k | 0 <= k < |r| ensures !IsMarkerLine(r[k]) {
      if k > 0 {
        assert r[k] == rest[k - 1];
      }
    }
  }

  /** The lines that are not list markers. */
  function Unmarked(lines: seq<string>): (r: seq<string>)
    decreases |lines|
  {
    if lines == [] then []
    else if IsMarkerLine(lines[0]) then Unmarked(lines[1..])
    else [lines[0]] + Unmarked(lines[1..])
  }

  /** Empty lines add nothing to the non-empty lines that are not markers. */
  lemma {:induction false} UnmarkedSkip(lines: seq<string>)
    ensures NonEmpty(Unmarked(SkipEmptyLines(lines))) == NonEmpty(Unmarked(lines))
    decreases |lines|
  {
    if lines != [] && lines[0] == [] {
      UnmarkedSkip(lines[1..]);
      assert Unmarked(lines) == [[]] + Unmarked(lines[1..]);
    }
  }

  /** Removal keeps exactly the text of the lines that are not markers, in order: only
      empty lines are merged, and only markers are dropped. */
  lemma {:induction false} EmptyItemsRemovedKeepsText(lines: seq<string>)
    ensures NonEmpty(EmptyItemsRemoved(lines)) == NonEmpty(Unmarked(lines))
    decreases |lines|
  {
    if lines != [] {
      if IsMarkerLine(lines[0]) {
        var rest := SkipEmptyLines(lines[1..]);
        EmptyItemsRemovedKeepsText(rest);
        UnmarkedSkip(lines[1..]);
        assert NonEmpty([""] + EmptyItemsRemoved(rest)) == NonEmpty(EmptyItemsRemoved(rest));
      } else {
        EmptyItemsRemovedKeepsText(lines[1..]);
        assert ([lines[0]] + EmptyItemsRemoved(lines[1..]))[1..] == EmptyItemsRemoved(lines[1..]);
        assert ([lines[0]] + Unmarked(lines[1..]))[1..] == Unmarked(lines[1..]);
      }
    }
  }

  /** Text without marker lines is left as it is. */
  lemma {:induction false} EmptyItemsRemovedIdle(lines: seq<string>)
    requires forall k :: 0 <= k < |lines| ==> !IsMarkerLine(lines[k])
    ensures EmptyItemsRemoved(lines) == lines
    decreases |lines|
  {
    if lines != [] {
      EmptyItemsRemovedIdle(lines[1..]);
    }
  }

  /** What follows a first line when `lines` come after it in a join: a line break and
      the joined lines, or nothing. */
  function Tail(lines: seq<string>): string {
    if lines == [] then [] else "\n" + Join(lines, "\n")
  }

  function Newlines(k: nat): (r: string)
    ensures |r| == k && forall i :: 0 <= i < k ==> r[i] == '\n'
  {
    seq(k, i => '\n')
  }

  lemma JoinHead(lines: seq<string>)
    requires lines != []
    ensures Join(lines, "\n") == lines[0] + Tail(lines[1..])
  {
  }

  /** Leading empty lines are a run of line breaks. */
  lemma {:induction false} TailSkip(lines: seq<string>)
    ensures Tail(lines) == Newlines(|lines| - |SkipEmptyLines(lines)|) + Tail(SkipEmptyLines(lines))
    decreases |lines|
  {
    hide *;
    if lines != [] && lines[0] == [] {
      TailSkip(lines[1..]);
      TailSkipEmpty(lines);
    } else {
      TailSkipNone(lines);
    }
  }

  lemma TailSkipEmpty(lines: seq<string>)
    requires lines != [] && lines[0] == []
    requires Tail(lines[1..]) == Newlines(|lines[1..]| - |SkipEmptyLines(lines[1..])|) + Tail(SkipEmptyLines(lines[1..]))
    ensures Tail(lines) == Newlines(|lines| - |SkipEmptyLines(lines)|) + Tail(SkipEmptyLines(lines))
  {
    SkipOneEmpty(lines);
    TailOfEmptyFirst(lines);
    hide *;
    var rest := SkipEmptyLines(lines[1..]);
    var k := |lines[1..]| - |rest|;
    NewlinesSucc(k);
    AppendAssoc("\n", Newlines(k), Tail(rest));
  }

  lemma NewlinesSucc(k: nat)
    ensures Newlines(k + 1) == "\n" + Newlines(k)
  {
  }

  lemma SkipOneEmpty(lines: seq<string>)
    requires lines != [] && lines[0] == []
    ensures SkipEmptyLines(lines) == SkipEmptyLines(lines[1..])
  {
  }

  lemma TailOfEmptyFirst(lines: seq<string>)
    requires lines != [] && lines[0] == []
    ensures Tail(lines) == "\n" + Tail(lines[1..])
  {
    JoinHead(lines);
    assert lines[0] + Tail(lines[1..]) == Tail(lines[1..]);
  }

  lemma TailSkipNone(lines: seq<string>)
    requires lines == [] || lines[0] != []
    ensures Tail(lines) == Newlines(|lines| - |SkipEmptyLines(lines)|) + Tail(SkipEmptyLines(lines))
  {
    assert SkipEmptyLines(lines) == lines;
    hide *;
    assert Newlines(0) == [];
  }

  lemma JoinFirst(lines: seq<string>)
    requires lines != [] && lines[0] != []
    ensures Join(lines, "\n") != [] && Join(lines, "\n")[0] == lines[0][0]
  {
    JoinHead(lines);
  }

  /** One step of the scan over a marker whose item ends `v` characters after it. */
  lemma ItemsMarkerStep(s: string, v: nat)
    requires s != [] && (s[0] == '-' || s[0] == '*') && ListItemEnd(s[1..]) == Some(v)
    ensures RemoveEmptyItems(s, true) == RemoveEmptyItems(s[1 + v..], IsLineBreak(s[v]))
  {
  }

  /** One step of the scan over a character that does not start an empty item. */
  lemma ItemsPlainStep(s: string, b: bool)
    requires s != [] && !(b && (s[0] == '-' || s[0] == '*') && ListItemEnd(s[1..]).Some?)
    ensures RemoveEmptyItems(s, b) == [s[0]] + RemoveEmptyItems(s[1..], IsLineBreak(s[0]))
  {
  }

  lemma {:induction false} ItemsKeepPlain(x: string, t: string)
    requires NoLineBreak(x)
    ensures RemoveEmptyItems(x + t, false) == x + RemoveEmptyItems(t, false)
    decreases |x|
  {
    if x == [] {
      assert x + t == t;
    } else {
      assert (x + t)[1..] == x[1..] + t;
      ItemsKeepPlain(x[1..], t);
    }
  }

  lemma ItemsNewline(u: string, b: bool)
    ensures RemoveEmptyItems("\n" + u, b) == "\n" + RemoveEmptyItems(u, true)
  {
    assert ("\n" + u)[1..] == u;
  }

  /** A marker that starts a trimmed line with more on it starts no empty item. */
  lemma NoItemEnd(line: string, t: string)
    requires |line| >= 2 && IsTrimmed(line) && NoLineBreak(line)
    ensures ListItemEnd((line + t)[1..]).None?
  {
    var rest := (line + t)[1..];
    forall e | 0 <= e <= |rest|
      ensures !ItemEndAt(rest, e)
    {
      if e > |line| - 2 {
        assert rest[..e][|line| - 2] == line[|line| - 1];
      } else {
        assert rest[e] == line[e + 1];
      }
    }
  }

  lemma NoLineBreakTail(line: string)
    requires line != [] && NoLineBreak(line)
    ensures !IsLineBreak(line[0]) && NoLineBreak(line[1..])
  {
  }

  lemma MarkerWithText(line: string)
    requires line != [] && (line[0] == '-' || line[0] == '*') && !IsMarkerLine(line)
    ensures |line| >= 2
  {
  }

  /** A trimmed line that is not a marker is kept whole. */
  lemma ItemsKeepLine(line: string, t: string)
    requires line != [] && IsTrimmed(line) && NoLineBreak(line) && !IsMarkerLine(line)
    ensures RemoveEmptyItems(line + t, true) == line + RemoveEmptyItems(t, false)
  {
    hide *;
    var s := line + t;
    assert s[1..] == line[1..] + t;
    NoLineBreakTail(line);
    if line[0] == '-' || line[0] == '*' {
      MarkerWithText(line);
      NoItemEnd(line, t);
    }
    ItemsPlainStep(s, true);
    ItemsKeepPlain(line[1..], t);
    assert [line[0]] + line[1..] == line;
  }

  /** After `k` line breaks, an item ends at the end of the text, or before a last line break
      that a visible character follows. */
  lemma ItemEndAfterBreaks(after: string, k: nat)
    requires k <= |after| && after[..k] == Newlines(k)
    requires k == |after| || (k + 1 < |after| && after[k] == '\n' && !IsSpace(after[k + 1]))
    ensures ListItemEnd(after) == Some(k)
  {
    assert ItemEndAt(after, k);
    forall e | k < e <= |after|
      ensures !ItemEndAt(after, e)
    {
      if e > k + 1 {
        assert after[..e][k + 1] == after[k + 1];
      }
    }
  }

  /** A marker line followed by `k` line breaks and then a line that starts with a visible
      character (or by nothing): the match takes the marker and the line breaks but the last. */
  lemma ItemsDropMarker(mark: string, k: nat, rest: seq<string>)
    requires IsMarkerLine(mark) && (rest == [] || (rest[0] != [] && !IsSpace(rest[0][0])))
    ensures rest == [] ==> RemoveEmptyItems(mark + Newlines(k), true) == []
    ensures rest != [] ==> RemoveEmptyItems(mark + Newlines(k) + Tail(rest), true) == "\n" + RemoveEmptyItems(Join(rest, "\n"), true)
  {
    if rest == [] {
      DropMarkerAtEnd(mark, k);
    } else {
      DropMarkerBeforeLine(mark, k, rest);
    }
  }

  lemma MarkerChar(mark: string)
    requires IsMarkerLine(mark)
    ensures |mark| == 1 && (mark[0] == '-' || mark[0] == '*')
  {
  }

  lemma DropMarkerAtEnd(mark: string, k: nat)
    requires IsMarkerLine(mark)
    ensures RemoveEmptyItems(mark + Newlines(k), true) == []
  {
    MarkerChar(mark);
    hide *;
    var s := mark + Newlines(k);
    assert s[1..] == Newlines(k);
    ItemEndAfterBreaks(s[1..], k);
    ItemsMarkerStep(s, k);
    assert s[1 + k..] == [];
    ItemsOfEmpty(IsLineBreak(s[k]));
  }

  lemma ItemsOfEmpty(b: bool)
    ensures RemoveEmptyItems([], b) == []
  {
  }

  lemma DropMarkerBeforeLine(mark: string, k: nat, rest: seq<string>)
    requires IsMarkerLine(mark) && rest != [] && rest[0] != [] && !IsSpace(rest[0][0])
    ensures RemoveEmptyItems(mark + Newlines(k) + Tail(rest), true) == "\n" + RemoveEmptyItems(Join(rest, "\n"), true)
  {
    MarkerChar(mark);
    JoinFirst(rest);
    TailOfSome(rest);
    hide *;
    var j := Join(rest, "\n");
    var s := mark + Newlines(k) + Tail(rest);
    var after := s[1..];
    assert after == Newlines(k) + "\n" + j;
    assert after[..k] == Newlines(k);
    assert after[k] == '\n' && after[k + 1] == j[0];
    ItemEndAfterBreaks(after, k);
    ItemsMarkerStep(s, k);
    assert s[1 + k..] == "\n" + j;
    ItemsNewline(j, IsLineBreak(s[k]));
  }

  lemma TailOfSome(rest: seq<string>)
    requires rest != []
    ensures Tail(rest) == "\n" + Join(rest, "\n")
  {
  }

  predicate TrimmedLines(lines: seq<string>) {
    forall k :: 0 <= k < |lines| ==> IsTrimmed(lines[k]) && NoLineBreak(lines[k])
  }

  predicate ItemsByLines(lines: seq<string>) {
    RemoveEmptyItems(Join(lines, "\n"), true) == Join(EmptyItemsRemoved(lines), "\n")
  }

  /** A marker line, from what removal does to the lines after its empty ones. */
  lemma ItemsMarkerCase(lines: seq<string>)
    requires lines != [] && IsMarkerLine(lines[0]) && TrimmedLines(lines)
    requires SkipEmptyLines(lines[1..]) != [] ==> ItemsByLines(SkipEmptyLines(lines[1..]))
    ensures ItemsByLines(lines)
  {
    hide RemoveEmptyItems, Join, Newlines, SkipEmptyLines;
    var line := lines[0];
    var rest := SkipEmptyLines(lines[1..]);
    var k := |lines[1..]| - |rest|;
    assert EmptyItemsRemoved(lines) == [""] + EmptyItemsRemoved(rest);
    hide EmptyItemsRemoved;
    JoinHead(lines);
    TailSkip(lines[1..]);
    assert rest != [] ==> IsTrimmed(rest[0]) && rest[0] != [] by {
      if rest != [] {
        assert rest[0] == lines[1..][k];
      }
    }
    ItemsDropMarker(line, k, rest);
    JoinHead([""] + EmptyItemsRemoved(rest));
    assert ([""] + EmptyItemsRemoved(rest))[1..] == EmptyItemsRemoved(rest);
    if rest == [] {
      assert Join(lines, "\n") == line + Newlines(k);
    } else {
      assert Join(lines, "\n") == line + Newlines(k) + Tail(rest);
    }
  }

  /** A line that is not a marker, from what removal does to the lines after it. */
  lemma ItemsPlainCase(lines: seq<string>)
    requires lines != [] && !IsMarkerLine(lines[0]) && TrimmedLines(lines)
    requires lines[1..] != [] ==> ItemsByLines(lines[1..])
    ensures ItemsByLines(lines)
  {
    var line := lines[0];
    var rest := lines[1..];
    JoinHead(lines);
    assert EmptyItemsRemoved(lines) == [line] + EmptyItemsRemoved(rest);
    JoinHead([line] + EmptyItemsRemoved(rest));
    assert ([line] + EmptyItemsRemoved(rest))[1..] == EmptyItemsRemoved(rest);
    if line != [] {
      ItemsKeepLine(line, Tail(rest));
    } else {
      assert line + Tail(rest) == Tail(rest);
    }
    if rest != [] {
      ItemsNewline(Join(rest, "\n"), line == []);
      ItemsNewline(Join(rest, "\n"), false);
    }
  }

  /** On lines that are trimmed and hold no line terminator, removing the empty list items
      works line by line as `EmptyItemsRemoved` says. */
  lemma {:induction false} RemoveEmptyItemsByLines(lines: seq<string>)
    requires TrimmedLines(lines)
    ensures ItemsByLines(lines)
    decreases |lines|
  {
    if lines != [] {
      if IsMarkerLine(lines[0]) {
        var rest := SkipEmptyLines(lines[1..]);
        if rest != [] {
          RemoveEmptyItemsByLines(rest);
        }
        ItemsMarkerCase(lines);
      } else {
        if lines[1..] != [] {
          RemoveEmptyItemsByLines(lines[1..]);
        }
        ItemsPlainCase(lines);
      }
    }
  }

  /** No line terminator but `\n`, which is where `split('\n')` cuts. */
  predicate OnlyNewlines(s: string) {
    forall i :: 0 <= i < |s| ==> (IsLineBreak(s[i]) ==> s[i] == '\n')
  }

  lemma {:induction false} SplitOnOnlyNewlines(s: string)
    requires OnlyNewlines(s)
    ensures forall k :: 0 <= k < |SplitOn(s, '\n')| ==> OnlyNewlines(SplitOn(s, '\n')[k])
    decreases |s|
  {
    if s != [] {
      SplitOnOnlyNewlines(s[1..]);
    }
  }

  /** A trimmed piece of such a text holds no line terminator. */
  lemma TrimmedPiece(p: string)
    requires OnlyNewlines(p) && OneLine(p)
    ensures IsTrimmed(Trim(p)) && NoLineBreak(Trim(p))
  {
    var a, b :| 0 <= a <= b <= |p| && Trim(p) == p[a..b] && AllSpace(p[..a]) && AllSpace(p[b..]);
    forall i | 0 <= i < |Trim(p)|
      ensures !IsLineBreak(Trim(p)[i])
    {
      assert Trim(p)[i] == p[a + i];
    }
  }

  /** After the lines are trimmed, the empty list items go as `EmptyItemsRemoved` says,
      for text whose only line terminator is `\n`. */
  lemma RemoveEmptyItemsOfTrimmedLines(s: string)
    requires OnlyNewlines(s)
    ensures RemoveEmptyItems(TrimLines(s), true) == Join(EmptyItemsRemoved(TrimAll(SplitOn(s, '\n'))), "\n")
  {
    var pieces := SplitOn(s, '\n');
    var lines := TrimAll(pieces);
    SplitOnOnlyNewlines(s);
    forall k | 0 <= k < |lines|
      ensures IsTrimmed(lines[k]) && NoLineBreak(lines[k])
    {
      assert lines[k] == Trim(pieces[k]);
      assert OneLine(pieces[k]);
      TrimmedPiece(pieces[k]);
    }
    RemoveEmptyItemsByLines(lines);
  }

  function HashRun(s: string): (n: nat)
    ensures n <= |s| && forall i :: 0 <= i < n ==> s[i] == '#'
    ensures n == |s| || s[n] != '#'
    decreases |s|
  {
    if s != [] && s[0] == '#' then 1 + HashRun(s[1..]) else 0
  }

  /** `replace(/^(#{1,6})\s+/gm, '$1 ')`: one to six `#` at a line start and the white
      space run after them become the `#`s and one space. */
  function SpaceHeadings(s: string, lineStart: bool): (r: string)
    ensures |r| == 0 ==> |s| == 0
    ensures |s| > 0 ==> |r| > 0 && r[0] == s[0]
    decreases |s|
  {
    if s == [] then []
    else if lineStart && HeadingAt(s) then
      var h := HashRun(s);
      var rest := DropSpaces(s[h..]);
      s[..h] + " " + SpaceHeadings(rest, IsLineBreak(s[|s| - |rest| - 1]))
    else [s[0]] + SpaceHeadings(s[1..], IsLineBreak(s[0]))
  }

  /** Position `i` of `r` starts a line: the beginning when `first` says so, or just after
      a line terminator. */
  predicate LineStartOf(r: string, i: int, first: bool)
    requires 0 <= i <= |r|
  {
    if i == 0 then first else IsLineBreak(r[i - 1])
  }

  /** What `/^(#{1,6})\s+/` matches at the start of `t`. */
  predicate HeadingAt(t: string) {
    var h := HashRun(t);
    1 <= h <= 6 && h < |t| && IsSpace(t[h])
  }

  /** A heading at the start of `t` has one space after its `#`s, then the end of the text
      or a character that is not white space. */
  predicate SpacedHeading(t: string) {
    HeadingAt(t) ==> var h := HashRun(t); t[h] == ' ' && (h + 1 == |t| || !IsSpace(t[h + 1]))
  }

  /** Every heading at a line start of `r` is spaced. */
  predicate HeadingsSpaced(r: string, first: bool) {
    forall i :: 0 <= i <= |r| && LineStartOf(r, i, first) ==> SpacedHeading(r[i..])
  }

  lemma {:induction false} HeadingsKeepPlain(x: string, y: string)
    requires NoLineBreak(x)
    ensures SpaceHeadings(x + y, false) == x + SpaceHeadings(y, false)
    decreases |x|
  {
    if x == [] {
      assert x + y == y;
    } else {
      assert (x + y)[1..] == x[1..] + y;
      HeadingsKeepPlain(x[1..], y);
    }
  }

  lemma HashRunIs(r: string, h: nat)
    requires h <= |r| && (forall i :: 0 <= i < h ==> r[i] == '#') && (h == |r| || r[h] != '#')
    ensures HashRun(r) == h
  {
  }

  /** One step of `SpaceHeadings` where a heading starts. */
  lemma SpaceHeadingsMatch(s: string, b: bool)
    requires s != [] && b && HeadingAt(s)
    ensures var h := HashRun(s); var rest := DropSpaces(s[h..]);
      1 <= h <= 6 && h < |s| && |rest| < |s| - h &&
      SpaceHeadings(s, b) == s[..h] + " " + SpaceHeadings(rest, IsLineBreak(s[|s| - |rest| - 1]))
  {
    hide IsSpace, IsLineBreak, DropSpaces, HashRun;
  }

  /** One step of `SpaceHeadings` elsewhere. */
  lemma SpaceHeadingsPlain(s: string, b: bool)
    requires s != [] && !(b && HeadingAt(s))
    ensures SpaceHeadings(s, b) == [s[0]] + SpaceHeadings(s[1..], IsLineBreak(s[0]))
  {
  }

  /** A line at whose start the pattern does not match is copied unchanged, and the scan
      goes on after it. */
  lemma SpaceHeadingsKeepsLine(x: string, t: string)
    requires x != [] && NoLineBreak(x) && !HeadingAt(x + t)
    ensures SpaceHeadings(x + t, true) == x + SpaceHeadings(t, false)
  {
    NoLineBreakTail(x);
    SpaceHeadingsPlain(x + t, true);
    assert (x + t)[1..] == x[1..] + t;
    assert [x[0]] + x[1..] == x;
    hide *;
    HeadingsKeepPlain(x[1..], t);
    AppendAssoc([x[0]], x[1..], SpaceHeadings(t, false));
  }

  /** A replaced heading: its `#`s, one space, then the rest of the text processed. */
  lemma SpacedHeadingStep(hashes: string, rest: string, r': string, flag: bool, first: bool)
    requires 1 <= |hashes| <= 6 && forall i :: 0 <= i < |hashes| ==> hashes[i] == '#'
    requires (r' == []) == (rest == []) && (r' != [] ==> r'[0] == rest[0])
    requires rest == [] || !IsSpace(rest[0])
    requires HeadingsSpaced(r', flag)
    ensures HeadingsSpaced(hashes + " " + r', first)
  {
    var h := |hashes|;
    var r := hashes + " " + r';
    HashRunIs(r, h);
    assert r[h] == ' ';
    assert r' != [] ==> r[h + 1] == r'[0];
    forall i | 0 <= i <= |r| && LineStartOf(r, i, first)
      ensures SpacedHeading(r[i..])
    {
      if i == 0 {
        assert r[i..] == r;
      } else if i <= h + 1 {
        assert r[i - 1] == '#' || r[i - 1] == ' ';
      } else {
        assert r[i..] == r'[i - h - 1..];
        assert r[i - 1] == r'[i - h - 2];
        assert LineStartOf(r', i - h - 1, flag);
      }
    }
  }

  /** A character kept as it is, then the rest of the text processed. */
  lemma SpacedPlainStep(c: char, r': string, first: bool)
    requires first ==> !HeadingAt([c] + r')
    requires HeadingsSpaced(r', IsLineBreak(c))
    ensures HeadingsSpaced([c] + r', first)
  {
    var r := [c] + r';
    forall i | 0 <= i <= |r| && LineStartOf(r, i, first)
      ensures SpacedHeading(r[i..])
    {
      if i == 0 {
        assert r[i..] == r;
      } else {
        assert r[i..] == r'[i - 1..];
        assert i > 1 ==> r[i - 1] == r'[i - 2];
        assert LineStartOf(r', i - 1, IsLineBreak(c));
      }
    }
  }

  /** Where the step does not match, the text it produces starts with no heading either. */
  lemma NoHeadingKept(s: string)
    requires s != [] && !HeadingAt(s)
    ensures !HeadingAt([s[0]] + SpaceHeadings(s[1..], IsLineBreak(s[0])))
  {
    var h := HashRun(s);
    var r := [s[0]] + SpaceHeadings(s[1..], IsLineBreak(s[0]));
    if h > 0 {
      assert s[1..] == s[1..h] + s[h..];
      HeadingsKeepPlain(s[1..h], s[h..]);
      assert r == s[..h] + SpaceHeadings(s[h..], false);
      HashRunIs(r, h);
    } else {
      HashRunIs(r, 0);
    }
  }

  /** After the heading step every heading at a line start has exactly one space after
      its `#`s, followed by a visible character or the end of the text. */
  lemma {:induction false} SpaceHeadingsSpaced(s: string, lineStart: bool)
    ensures HeadingsSpaced(SpaceHeadings(s, lineStart), lineStart)
    decreases |s|
  {
    if s == [] {
      assert SpaceHeadings(s, lineStart) == [];
    } else {
      hide *;
      if lineStart && HeadingAt(s) {
        var h := HashRun(s);
        SpaceHeadingsMatch(s, lineStart);
        var rest := DropSpaces(s[h..]);
        var flag := IsLineBreak(s[|s| - |rest| - 1]);
        SpaceHeadingsSpaced(rest, flag);
        SpacedHeadingStep(s[..h], rest, SpaceHeadings(rest, flag), flag, lineStart);
      } else {
        var flag := IsLineBreak(s[0]);
        SpaceHeadingsPlain(s, lineStart);
        SpaceHeadingsSpaced(s[1..], flag);
        if lineStart {
          NoHeadingKept(s);
        }
        SpacedPlainStep(s[0], SpaceHeadings(s[1..], flag), lineStart);
      }
    }
  }

  /** At a heading that is spaced already, the white space run is the one space. */
  lemma IdleHeadingStep(s: string, b: bool)
    requires s != [] && b && HeadingAt(s) && HeadingsSpaced(s, b)
    ensures var h := HashRun(s); h < |s| && s[h] == ' ' && !IsLineBreak(s[h]) && DropSpaces(s[h..]) == s[h + 1..]
  {
    hide *;
    var h := HashRun(s);
    SpacedAtStart(s, b);
    SpacedHeadingIs(s);
    var t := s[h..];
    SpaceIsBlank();
    assert |t| == 1 || t[1] == s[h + 1];
    DropOneSpace(t);
    assert t[1..] == s[h + 1..];
  }

  lemma SpacedAtStart(s: string, b: bool)
    requires b && HeadingsSpaced(s, b)
    ensures SpacedHeading(s)
  {
    assert LineStartOf(s, 0, b) && s[0..] == s;
  }

  lemma SpacedHeadingIs(s: string)
    requires HeadingAt(s) && SpacedHeading(s)
    ensures var h := HashRun(s); h < |s| && s[h] == ' ' && (h + 1 == |s| || !IsSpace(s[h + 1]))
  {
  }

  /** A space is white space and no line terminator. */
  lemma SpaceIsBlank()
    ensures IsSpace(' ') && !IsLineBreak(' ')
  {
  }

  lemma DropOneSpace(t: string)
    requires t != [] && IsSpace(t[0]) && (|t| == 1 || !IsSpace(t[1]))
    ensures DropSpaces(t) == t[1..]
  {
  }

  /** The text after any position is spaced too, from a line start exactly when a line
      terminator precedes it. */
  lemma SpacedSuffix(s: string, b: bool, k: nat)
    requires HeadingsSpaced(s, b) && 0 < k <= |s|
    ensures HeadingsSpaced(s[k..], IsLineBreak(s[k - 1]))
  {
    forall i | 0 <= i <= |s[k..]| && LineStartOf(s[k..], i, IsLineBreak(s[k - 1]))
      ensures SpacedHeading(s[k..][i..])
    {
      assert LineStartOf(s, k + i, b) && s[k + i..] == s[k..][i..];
    }
  }

  lemma SplitAt(s: string, k: nat)
    requires k <= |s|
    ensures s[..k] + s[k..] == s
  {
  }

  /** A spaced heading is kept when the text after its space is. */
  lemma IdleMatchCase(s: string, b: bool)
    requires s != [] && b && HeadingAt(s)
    requires var h := HashRun(s); h < |s| && s[h] == ' ' && !IsLineBreak(s[h]) && DropSpaces(s[h..]) == s[h + 1..]
    requires SpaceHeadings(s[HashRun(s) + 1..], false) == s[HashRun(s) + 1..]
    ensures SpaceHeadings(s, b) == s
  {
    hide *;
    var h := HashRun(s);
    SpaceHeadingsMatch(s, b);
    var rest := s[h + 1..];
    assert |s| - |rest| - 1 == h;
    assert s[h..] == [s[h]] + rest;
    SplitAt(s, h);
  }

  /** A character outside a heading is kept when the text after it is. */
  lemma IdlePlainCase(s: string, b: bool)
    requires s != [] && !(b && HeadingAt(s))
    requires SpaceHeadings(s[1..], IsLineBreak(s[0])) == s[1..]
    ensures SpaceHeadings(s, b) == s
  {
    hide *;
    SpaceHeadingsPlain(s, b);
    SplitAt(s, 1);
    assert s[..1] == [s[0]];
  }

  /** Text whose headings are all spaced already is left as it is; with
      `SpaceHeadingsSpaced` this makes the step idempotent. */
  lemma {:induction false} SpaceHeadingsIdle(s: string, lineStart: bool)
    requires HeadingsSpaced(s, lineStart)
    ensures SpaceHeadings(s, lineStart) == s
    decreases |s|
  {
    if s == [] {
      assert SpaceHeadings(s, lineStart) == [];
    } else {
      hide *;
      if lineStart && HeadingAt(s) {
        var h := HashRun(s);
        IdleHeadingStep(s, lineStart);
        SpacedSuffix(s, lineStart, h + 1);
        SpaceHeadingsIdle(s[h + 1..], false);
        IdleMatchCase(s, lineStart);
      } else {
        SpacedSuffix(s, lineStart, 1);
        SpaceHeadingsIdle(s[1..], IsLineBreak(s[0]));
        IdlePlainCase(s, lineStart);
      }
    }
  }

  /** Replacing white space `w` by one space leaves the visible text alone. */
  lemma VisibleSpaced(a: string, w: string, r': string)
    requires Visible(r') == Visible(w)
    ensures Visible(a + " " + r') == Visible(a) + Visible(w)
  {
    VisibleAppend(a + " ", r');
    VisibleAppend(a, " ");
    assert Visible(" ") == [];
  }

  lemma VisibleCons(c: char, x: string, y: string)
    requires Visible(x) == Visible(y)
    ensures Visible([c] + x) == Visible([c] + y)
  {
    VisibleAppend([c], x);
    VisibleAppend([c], y);
  }

  /** The step removes white space only. */
  lemma {:induction false} SpaceHeadingsVisible(s: string, lineStart: bool)
    ensures Visible(SpaceHeadings(s, lineStart)) == Visible(s)
    decreases |s|
  {
    if s == [] {
      assert SpaceHeadings(s, lineStart) == [];
    } else {
      hide *;
      if lineStart && HeadingAt(s) {
        var h := HashRun(s);
        SpaceHeadingsMatch(s, lineStart);
        var rest := DropSpaces(s[h..]);
        var flag := IsLineBreak(s[|s| - |rest| - 1]);
        SpaceHeadingsVisible(rest, flag);
        VisibleDropSpaces(s[h..]);
        VisibleSpaced(s[..h], s[h..], SpaceHeadings(rest, flag));
        VisibleAppend(s[..h], s[h..]);
        SplitAt(s, h);
      } else {
        var flag := IsLineBreak(s[0]);
        SpaceHeadingsPlain(s, lineStart);
        SpaceHeadingsVisible(s[1..], flag);
        VisibleCons(s[0], SpaceHeadings(s[1..], flag), s[1..]);
        SplitAt(s, 1);
        assert s[..1] == [s[0]];
      }
    }
  }

  /** `normalizeMarkdown`: its output never starts or ends with white space. */
  function NormalizeMarkdown(markdown: string): (r: string)
    ensures IsTrimmed(r)
    ensures exists i, j :: 0 <= i <= j <= |SpaceHeadings(RemoveEmptyItems(TrimLines(CollapseNewlines(markdown)), true), true)| &&
                           r == SpaceHeadings(RemoveEmptyItems(TrimLines(CollapseNewlines(markdown)), true), true)[i..j]
  {
    var collapsed := CollapseNewlines(markdown);
    var lines := TrimLines(collapsed);
    var items := RemoveEmptyItems(lines, true);
    Trim(SpaceHeadings(items, true))
  }

  /** No three line breaks in a row. */
  predicate NoTripleBreak(r: string) {
    forall i :: 0 <= i && i + 2 < |r| ==> !(r[i] == '\n' && r[i + 1] == '\n' && r[i + 2] == '\n')
  }

  lemma CollapseHead(t: string)
    ensures t == [] <==> CollapseNewlines(t) == []
    ensures t != [] ==> CollapseNewlines(t)[0] == t[0]
  {
    if t != [] && StartsWith(t, "\n\n\n") {
      assert t[0] == "\n\n\n"[0];
    }
  }

  lemma NoTripleAfterPair(c: string)
    requires NoTripleBreak(c) && (c == [] || c[0] != '\n')
    ensures NoTripleBreak("\n\n" + c)
  {
    var r := "\n\n" + c;
    forall i | 0 <= i && i + 2 < |r| ensures !(r[i] == '\n' && r[i + 1] == '\n' && r[i + 2] == '\n') {
      if i >= 2 {
        assert r[i] == c[i - 2] && r[i + 1] == c[i - 1] && r[i + 2] == c[i];
      } else {
        assert r[2] == c[0];
      }
    }
  }

  lemma NoTripleAfterChar(x: char, c: string)
    requires NoTripleBreak(c) && !(x == '\n' && |c| >= 2 && c[0] == '\n' && c[1] == '\n')
    ensures NoTripleBreak([x] + c)
  {
    var r := [x] + c;
    forall i | 0 <= i && i + 2 < |r| ensures !(r[i] == '\n' && r[i + 1] == '\n' && r[i + 2] == '\n') {
      if i >= 1 {
        assert r[i] == c[i - 1] && r[i + 1] == c[i] && r[i + 2] == c[i + 1];
      }
    }
  }

  /** Output that starts with two line breaks comes from input that does. */
  lemma CollapsePairHead(s: string)
    ensures |CollapseNewlines(s)| >= 2 && CollapseNewlines(s)[0] == '\n' && CollapseNewlines(s)[1] == '\n' ==>
              |s| >= 2 && s[0] == '\n' && s[1] == '\n'
  {
    if s != [] {
      if StartsWith(s, "\n\n\n") {
        assert s[..3] == "\n\n\n";
        assert s[0] == '\n' && s[1] == '\n';
      } else {
        assert CollapseNewlines(s) == [s[0]] + CollapseNewlines(s[1..]);
        CollapseHead(s[1..]);
      }
    }
  }

  /** After collapsing, no run of three or more line breaks is left. */
  lemma {:induction false} CollapseNoTriple(s: string)
    ensures NoTripleBreak(CollapseNewlines(s))
    decreases |s|
  {
    if s == [] {
    } else if StartsWith(s, "\n\n\n") {
      var rest := DropNewlines(s);
      CollapseNoTriple(rest);
      CollapseHead(rest);
      NoTripleAfterPair(CollapseNewlines(rest));
    } else {
      CollapseNoTriple(s[1..]);
      CollapsePairHead(s[1..]);
      NoTripleAfterChar(s[0], CollapseNewlines(s[1..]));
    }
  }

  // ---------------------------------------------------------------------------
  // What normalizeMarkdown keeps

  /** What a line adds to the kept text: the line trimmed, nothing when it is a marker. */
  function KeptLine(line: string): string {
    if IsMarkerLine(Trim(line)) then [] else Trim(line)
  }

  lemma KeptLineCons(x: string, rest: seq<string>)
    ensures Flatten(Unmarked(TrimAll([x] + rest))) == KeptLine(x) + Flatten(Unmarked(TrimAll(rest)))
  {
    hide *;
    var y := Trim(x);
    var t := TrimAll(rest);
    TrimAllCons(x, rest);
    KeptLineIs(x);
    UnmarkedCons(y, t);
    if IsMarkerLine(y) {
      assert [] + Flatten(Unmarked(t)) == Flatten(Unmarked(t));
    } else {
      FlattenCons(y, Unmarked(t));
    }
  }

  lemma TrimAllCons(x: string, rest: seq<string>)
    ensures TrimAll([x] + rest) == [Trim(x)] + TrimAll(rest)
  {
    hide Trim;
    assert TrimAll([x] + rest) == [Trim(x)] + TrimAll(rest);
  }

  lemma KeptLineIs(x: string)
    ensures KeptLine(x) == if IsMarkerLine(Trim(x)) then [] else Trim(x)
  {
  }

  lemma UnmarkedCons(y: string, t: seq<string>)
    ensures Unmarked([y] + t) == if IsMarkerLine(y) then Unmarked(t) else [y] + Unmarked(t)
  {
    assert ([y] + t)[1..] == t;
  }

  lemma FlattenCons(p: string, ps: seq<string>)
    ensures Flatten([p] + ps) == p + Flatten(ps)
  {
    assert ([p] + ps)[1..] == ps;
  }

  lemma KeptLineEmpty()
    ensures KeptLine([]) == []
  {
    var e: string := [];
    var i, j :| 0 <= i <= j <= |e| && Trim(e) == e[i..j];
  }

  /** Empty input lines add nothing to the kept text. */
  lemma {:induction false} KeptNonEmpty(lines: seq<string>)
    ensures Flatten(Unmarked(TrimAll(NonEmpty(lines)))) == Flatten(Unmarked(TrimAll(lines)))
    decreases |lines|
  {
    if lines == [] {
      assert NonEmpty(lines) == [];
    } else {
      var rest := NonEmpty(lines[1..]);
      NonEmptyCons(lines);
      assert lines == [lines[0]] + lines[1..];
      hide *;
      KeptNonEmpty(lines[1..]);
      KeptLineCons(lines[0], lines[1..]);
      if lines[0] == [] {
        KeptLineEmpty();
        assert NonEmpty(lines) == rest;
        assert [] + Flatten(Unmarked(TrimAll(lines[1..]))) == Flatten(Unmarked(TrimAll(lines[1..])));
      } else {
        assert NonEmpty(lines) == [lines[0]] + rest;
        KeptLineCons(lines[0], rest);
      }
    }
  }

  lemma NonEmptyCons(lines: seq<string>)
    requires lines != []
    ensures NonEmpty(lines) == (if lines[0] == [] then [] else [lines[0]]) + NonEmpty(lines[1..])
  {
  }

  /** The pieces after `n` line breaks: `n` empty ones and those of the rest. */
  lemma {:induction false} LinesAfterBreaks(n: nat, t: string)
    requires n >= 1
    ensures SplitOn(Newlines(n) + t, '\n')[0] == []
    ensures NonEmpty(SplitOn(Newlines(n) + t, '\n')) == NonEmpty(SplitOn(t, '\n'))
    decreases n
  {
    var y := Newlines(n - 1) + t;
    assert Newlines(n) + t == "\n" + y;
    assert ("\n" + y)[1..] == y;
    assert SplitOn("\n" + y, '\n') == [[]] + SplitOn(y, '\n');
    NonEmptyCons([[]] + SplitOn(y, '\n'));
    assert ([[]] + SplitOn(y, '\n'))[1..] == SplitOn(y, '\n');
    if n > 1 {
      LinesAfterBreaks(n - 1, t);
    } else {
      assert y == t;
    }
  }

  /** Collapsing line breaks keeps the first line and drops only empty lines. */
  lemma {:induction false} CollapseLines(s: string)
    ensures SplitOn(CollapseNewlines(s), '\n')[0] == SplitOn(s, '\n')[0]
    ensures NonEmpty(SplitOn(CollapseNewlines(s), '\n')) == NonEmpty(SplitOn(s, '\n'))
    decreases |s|
  {
    if s == [] {
      assert CollapseNewlines(s) == [];
    } else if StartsWith(s, "\n\n\n") {
      var rest := DropNewlines(s);
      assert s[..3] == "\n\n\n";
      DropNewlinesShorter(s);
      CollapseLines(rest);
      CollapseBreaksCase(s, rest);
    } else {
      CollapseLines(s[1..]);
      CollapseCharCase(s);
    }
  }

  lemma DropNewlinesShorter(s: string)
    requires s != [] && s[0] == '\n'
    ensures |DropNewlines(s)| < |s|
  {
  }

  lemma CollapseBreaksCase(s: string, rest: string)
    requires s != [] && StartsWith(s, "\n\n\n") && rest == DropNewlines(s)
    requires SplitOn(CollapseNewlines(rest), '\n')[0] == SplitOn(rest, '\n')[0]
    requires NonEmpty(SplitOn(CollapseNewlines(rest), '\n')) == NonEmpty(SplitOn(rest, '\n'))
    ensures SplitOn(CollapseNewlines(s), '\n')[0] == SplitOn(s, '\n')[0]
    ensures NonEmpty(SplitOn(CollapseNewlines(s), '\n')) == NonEmpty(SplitOn(s, '\n'))
  {
    hide *;
    CollapseBreaksStep(s);
    LinesOfBreaks(s);
    LinesAfterBreaks(2, CollapseNewlines(rest));
  }

  lemma CollapseBreaksStep(s: string)
    requires s != [] && StartsWith(s, "\n\n\n")
    ensures s[0] == '\n' && CollapseNewlines(s) == Newlines(2) + CollapseNewlines(DropNewlines(s))
  {
    assert s[..3] == "\n\n\n";
    assert Newlines(2) == "\n\n";
  }

  /** The pieces of a text that starts with line breaks: an empty first piece, and the
      non-empty pieces of the text after the breaks. */
  lemma {:induction false} LinesOfBreaks(s: string)
    requires s != [] && s[0] == '\n'
    ensures SplitOn(s, '\n')[0] == []
    ensures NonEmpty(SplitOn(s, '\n')) == NonEmpty(SplitOn(DropNewlines(s), '\n'))
    decreases |s|
  {
    var t := s[1..];
    assert SplitOn(s, '\n') == [[]] + SplitOn(t, '\n');
    assert DropNewlines(s) == DropNewlines(t);
    NonEmptyCons([[]] + SplitOn(t, '\n'));
    assert ([[]] + SplitOn(t, '\n'))[1..] == SplitOn(t, '\n');
    hide *;
    assert NonEmpty(SplitOn(s, '\n')) == NonEmpty(SplitOn(t, '\n'));
    if t != [] && t[0] == '\n' {
      LinesOfBreaks(t);
    } else {
      DropNewlinesIdle(t);
    }
  }

  lemma DropNewlinesIdle(t: string)
    requires t == [] || t[0] != '\n'
    ensures DropNewlines(t) == t
  {
  }


  lemma CollapseCharCase(s: string)
    requires s != [] && !StartsWith(s, "\n\n\n")
    requires SplitOn(CollapseNewlines(s[1..]), '\n')[0] == SplitOn(s[1..], '\n')[0]
    requires NonEmpty(SplitOn(CollapseNewlines(s[1..]), '\n')) == NonEmpty(SplitOn(s[1..], '\n'))
    ensures SplitOn(CollapseNewlines(s), '\n')[0] == SplitOn(s, '\n')[0]
    ensures NonEmpty(SplitOn(CollapseNewlines(s), '\n')) == NonEmpty(SplitOn(s, '\n'))
  {
    var c := CollapseNewlines(s[1..]);
    assert CollapseNewlines(s) == [s[0]] + c;
    assert ([s[0]] + c)[1..] == c;
    var lc := SplitOn(c, '\n');
    var ls := SplitOn(s[1..], '\n');
    if s[0] == '\n' {
      assert SplitOn([s[0]] + c, '\n') == [[]] + lc;
      assert SplitOn(s, '\n') == [[]] + ls;
      NonEmptyCons([[]] + lc);
      NonEmptyCons([[]] + ls);
      assert ([[]] + lc)[1..] == lc;
      assert ([[]] + ls)[1..] == ls;
    } else {
      assert SplitOn([s[0]] + c, '\n') == [[s[0]] + lc[0]] + lc[1..];
      assert SplitOn(s, '\n') == [[s[0]] + ls[0]] + ls[1..];
      hide *;
      CollapseCharTail(s[0], lc, ls);
    }
  }

  lemma CollapseCharTail(x: char, lc: seq<string>, ls: seq<string>)
    requires lc != [] && ls != [] && lc[0] == ls[0] && NonEmpty(lc) == NonEmpty(ls)
    ensures NonEmpty([[x] + lc[0]] + lc[1..]) == NonEmpty([[x] + ls[0]] + ls[1..])
  {
    NonEmptyCons(lc);
    NonEmptyCons(ls);
    var pre := if lc[0] == [] then [] else [lc[0]];
    assert (pre + NonEmpty(lc[1..]))[|pre|..] == NonEmpty(lc[1..]);
    assert (pre + NonEmpty(ls[1..]))[|pre|..] == NonEmpty(ls[1..]);
    NonEmptyCons([[x] + lc[0]] + lc[1..]);
    NonEmptyCons([[x] + ls[0]] + ls[1..]);
    assert ([[x] + lc[0]] + lc[1..])[1..] == lc[1..];
    assert ([[x] + ls[0]] + ls[1..])[1..] == ls[1..];
  }

  lemma OnlyNewlinesAppend(a: string, b: string)
    requires OnlyNewlines(a) && OnlyNewlines(b)
    ensures OnlyNewlines(a + b)
  {
    forall i | 0 <= i < |a + b|
      ensures IsLineBreak((a + b)[i]) ==> (a + b)[i] == '\n'
    {
      if i >= |a| {
        assert (a + b)[i] == b[i - |a|];
      }
    }
  }

  lemma OnlyNewlinesSuffix(s: string, k: nat)
    requires OnlyNewlines(s) && k <= |s|
    ensures OnlyNewlines(s[k..])
  {
    forall i | 0 <= i < |s[k..]|
      ensures IsLineBreak(s[k..][i]) ==> s[k..][i] == '\n'
    {
      assert s[k..][i] == s[k + i];
    }
  }

  /** Collapsing brings in no other line terminator. */
  lemma {:induction false} CollapseOnlyNewlines(s: string)
    requires OnlyNewlines(s)
    ensures OnlyNewlines(CollapseNewlines(s))
    decreases |s|
  {
    if s != [] {
      if StartsWith(s, "\n\n\n") {
        var rest := DropNewlines(s);
        OnlyNewlinesSuffix(s, |s| - |rest|);
        CollapseOnlyNewlines(rest);
        assert OnlyNewlines("\n\n");
        OnlyNewlinesAppend("\n\n", CollapseNewlines(rest));
      } else {
        OnlyNewlinesSuffix(s, 1);
        CollapseOnlyNewlines(s[1..]);
        assert OnlyNewlines([s[0]]);
        OnlyNewlinesAppend([s[0]], CollapseNewlines(s[1..]));
      }
    }
  }

  /** Two lists with the same non-empty lines keep the same text. */
  lemma KeptOfLines(a: seq<string>, b: seq<string>)
    requires NonEmpty(a) == NonEmpty(b)
    ensures Flatten(Unmarked(TrimAll(a))) == Flatten(Unmarked(TrimAll(b)))
  {
    KeptNonEmpty(a);
    KeptNonEmpty(b);
  }

  /** What `normalizeMarkdown` keeps, for text whose only line terminator is `\n`: exactly the
      visible characters of the lines that are not a lone `-` or `*` once trimmed, in order.
      Collapsing, trimming and heading spacing change only white space, and the removal of
      empty list items drops only the markers. */
  lemma NormalizeMarkdownText(s: string)
    requires OnlyNewlines(s)
    ensures Visible(NormalizeMarkdown(s)) == Visible(Flatten(Unmarked(TrimAll(SplitOn(s, '\n')))))
  {
    var c := CollapseNewlines(s);
    var lines := TrimAll(SplitOn(c, '\n'));
    var items := RemoveEmptyItems(TrimLines(c), true);
    assert NormalizeMarkdown(s) == Trim(SpaceHeadings(items, true));
    hide *;
    VisibleTrim(SpaceHeadings(items, true));
    SpaceHeadingsVisible(items, true);
    CollapseOnlyNewlines(s);
    RemoveEmptyItemsOfTrimmedLines(c);
    VisibleJoin(EmptyItemsRemoved(lines));
    VisibleNonEmpty(EmptyItemsRemoved(lines));
    EmptyItemsRemovedKeepsText(lines);
    VisibleNonEmpty(Unmarked(lines));
    CollapseLines(s);
    KeptOfLines(SplitOn(c, '\n'), SplitOn(s, '\n'));
  }
}
