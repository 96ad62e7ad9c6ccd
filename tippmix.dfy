/** The odds-string parser of apps/web/server/utils/tippmix.ts. `parseFloat` is modelled
    on plain decimal literals: an optional sign, digits and an optional fraction. */
module Tippmix {
  import opened Wrappers
  import opened Strings
  import opened Outcomes
  import Cleaner

  predicate IsDigit(c: char) { '0' <= c <= '9' }

  predicate AllDigits(s: string) {
    forall i :: 0 <= i < |s| ==> IsDigit(s[i])
  }

  /** The longest prefix of decimal digits. */
  function TakeDigits(s: string): (d: string)
    ensures |d| <= |s| && d == s[..|d|] && AllDigits(d)
    ensures |d| == |s| || !IsDigit(s[|d|])
    decreases |s|
  {
    if s != [] && IsDigit(s[0]) then [s[0]] + TakeDigits(s[1..]) else []
  }

  /** The number a string of decimal digits denotes. */
  function DigitsValue(ds: string): nat
    requires AllDigits(ds)
    decreases |ds|
  {
    if ds == [] then 0 else DigitsValue(ds[..|ds| - 1]) * 10 + (ds[|ds| - 1] as int - '0' as int)
  }

  function Pow10(n: nat): (r: nat)
    ensures r >= 1
  {
    if n == 0 then 1 else 10 * Pow10(n - 1)
  }

  /** The digits before the point and the digits after it, when a point follows. */
  function Mantissa(body: string): (m: (string, string))
    ensures AllDigits(m.0) && AllDigits(m.1)
  {
    var whole := TakeDigits(body);
    var after := body[|whole|..];
    (whole, if after != [] && after[0] == '.' then TakeDigits(after[1..]) else [])
  }

  /** The value of the literal `whole.fraction`. */
  function LiteralValue(whole: string, fraction: string): real
    requires AllDigits(whole) && AllDigits(fraction)
  {
    DigitsValue(whole) as real + DigitsValue(fraction) as real / Pow10(|fraction|) as real
  }

  /** `parseFloat` on a token: the longest prefix that is a decimal literal, `NaN` (here
      `None`) when that prefix holds no digit. */
  function ParseFloat(s: string): Option<real> {
    var negative := s != [] && s[0] == '-';
    var body := if s != [] && (s[0] == '-' || s[0] == '+') then s[1..] else s;
    var m := Mantissa(body);
    if |m.0| + |m.1| == 0 then None
    else Some(if negative then -LiteralValue(m.0, m.1) else LiteralValue(m.0, m.1))
  }

  lemma TakeDigitsAll(s: string)
    requires AllDigits(s)
    ensures TakeDigits(s) == s
  {
    if s != [] {
      assert IsDigit(s[0]);
    }
  }

  lemma {:induction false} DigitsOfNat(n: nat)
    ensures AllDigits(NatToString(n))
    ensures DigitsValue(NatToString(n)) == n
    decreases n
  {
    var r := NatToString(n);
    if n >= 10 {
      DigitsOfNat(n / 10);
      assert r == NatToString(n / 10) + [DigitChar(n % 10)];
      assert r[..|r| - 1] == NatToString(n / 10);
    }
  }

  /** Reading back the decimal rendering of a natural number gives that number, whatever
      follows it that cannot continue the literal. */
  lemma ParseFloatNat(n: nat, rest: string)
    requires rest == [] || (!IsDigit(rest[0]) && rest[0] != '.')
    ensures ParseFloat(NatToString(n) + rest) == Some(n as real)
  {
    var digits := NatToString(n);
    var s := digits + rest;
    DigitsOfNat(n);
    assert s[0] == digits[0] && IsDigit(s[0]);
    TakeDigitsPrefix(digits, rest);
    assert s[|digits|..] == rest;
    assert Mantissa(s) == (digits, []);
    assert LiteralValue(digits, []) == n as real;
  }

  /** A literal with digits before and after the point denotes the whole part plus the
      fraction, whatever follows it that is not a digit. */
  lemma ParseFloatDecimal(whole: string, fraction: string)
    requires whole != [] && AllDigits(whole) && AllDigits(fraction)
    ensures ParseFloat(whole + "." + fraction) == Some(LiteralValue(whole, fraction))
  {
    var s := whole + "." + fraction;
    assert s[0] == whole[0] && IsDigit(s[0]);
    MantissaDecimal(whole, fraction);
  }

  lemma MantissaDecimal(whole: string, fraction: string)
    requires AllDigits(whole) && AllDigits(fraction)
    ensures Mantissa(whole + "." + fraction) == (whole, fraction)
  {
    var s := whole + "." + fraction;
    assert s == whole + ("." + fraction);
    TakeDigitsPrefix(whole, "." + fraction);
    assert s[|whole|..] == "." + fraction;
    assert ("." + fraction)[1..] == fraction;
    TakeDigitsAll(fraction);
  }

  lemma {:induction false} TakeDigitsPrefix(d: string, rest: string)
    requires AllDigits(d)
    requires rest == [] || !IsDigit(rest[0])
    ensures TakeDigits(d + rest) == d
    decreases |d|
  {
    if d == [] {
      assert d + rest == rest;
    } else {
      assert (d + rest)[1..] == d[1..] + rest;
      TakeDigitsPrefix(d[1..], rest);
      assert IsDigit(d[0]);
    }
  }

  /** `parseFloat(part) || 1.0`: `NaN` and zero become 1. */
  function OrOne(x: Option<real>): (r: real)
    ensures r != 0.0
    ensures x.Some? && x.value != 0.0 ==> r == x.value
    ensures x.None? || x.value == 0.0 ==> r == 1.0
  {
    if x.None? || x.value == 0.0 then 1.0 else x.value
  }

  /** `parseOdds`: `oddsString.trim().split(/\s+/)`, and the first three parts as home,
      draw and away when there are at least three. */
  function ParseOdds(oddsString: string): Triple {
    var parts := Cleaner.SplitSpaces(Trim(oddsString));
    if |parts| >= 3 then Triple(OrOne(ParseFloat(parts[0])), OrOne(ParseFloat(parts[1])), OrOne(ParseFloat(parts[2])))
    else Triple(1.0, 1.0, 1.0)
  }

  /** The odds read from the white-space separated tokens of the string. */
  function OddsOfTokens(tokens: seq<string>): (t: Triple)
    ensures t.home != 0.0 && t.draw != 0.0 && t.away != 0.0
    ensures |tokens| < 3 ==> t == Triple(1.0, 1.0, 1.0)
  {
    if |tokens| >= 3 then Triple(OrOne(ParseFloat(tokens[0])), OrOne(ParseFloat(tokens[1])), OrOne(ParseFloat(tokens[2])))
    else Triple(1.0, 1.0, 1.0)
  }

  lemma {:induction false} SplitTrimmedAllWords(s: string)
    requires s != [] && !IsSpace(s[0]) && !IsSpace(s[|s| - 1])
    ensures forall k :: 0 <= k < |Cleaner.SplitSpaces(s)| ==> Cleaner.SplitSpaces(s)[k] != []
    decreases |s|
  {
    var w := TakeWord(s);
    var rest := s[|w|..];
    if rest != [] {
      var t := DropSpaces(rest);
      assert rest[|rest| - 1] == s[|s| - 1];
      assert t != [] && t[|t| - 1] == s[|s| - 1];
      SplitTrimmedAllWords(t);
      var tail := Cleaner.SplitSpaces(t);
      assert Cleaner.SplitSpaces(s) == [w] + tail;
    }
  }

  lemma {:induction false} NonEmptyIdle(ps: seq<string>)
    requires forall k :: 0 <= k < |ps| ==> ps[k] != []
    ensures Cleaner.NonEmpty(ps) == ps
    decreases |ps|
  {
    if ps != [] {
      NonEmptyIdle(ps[1..]);
    }
  }

  lemma SplitOfTrimmed(t: string)
    requires t != [] && IsTrimmed(t)
    ensures Cleaner.SplitSpaces(t) == Words(t)
  {
    SplitTrimmedAllWords(t);
    NonEmptyIdle(Cleaner.SplitSpaces(t));
    Cleaner.SplitSpacesWords(t);
  }

  /** The parts of `trim().split(/\s+/)` are the words of the string, except that a blank
      string splits into one empty part. */
  lemma SplitOfTrim(s: string)
    ensures Trim(s) != [] ==> Cleaner.SplitSpaces(Trim(s)) == Words(s)
    ensures Trim(s) == [] ==> Cleaner.SplitSpaces(Trim(s)) == [[]] && Words(s) == []
  {
    var t := Trim(s);
    Cleaner.WordsOfTrim(s);
    if t != [] {
      SplitOfTrimmed(t);
    } else {
      assert Words(t) == [];
    }
  }

  /** The odds depend on the words of the string only: fewer than three give 1.0 for all
      three outcomes, otherwise the first three are home, draw and away, in that order. */
  lemma ParseOddsTokens(oddsString: string)
    ensures ParseOdds(oddsString) == OddsOfTokens(Words(oddsString))
  {
    SplitOfTrim(oddsString);
  }

  /** White space around the odds is ignored. */
  lemma ParseOddsSurroundingSpace(before: string, s: string, after: string)
    requires AllSpace(before) && AllSpace(after)
    ensures ParseOdds(before + s + after) == ParseOdds(s)
  {
    WordsSurrounded(before, s, after);
    ParseOddsTokens(before + s + after);
    ParseOddsTokens(s);
  }

  lemma WordsSurrounded(before: string, s: string, after: string)
    requires AllSpace(before) && AllSpace(after)
    ensures Words(before + s + after) == Words(s)
  {
    AppendAssoc(before, s, after);
    WordsAfterSpaces(before, s + after);
    Cleaner.WordsBeforeSpaces(s, after);
  }

  /** Any run of white space separates two tokens. */
  lemma {:induction false} WordsOfJoin(tokens: seq<string>, sep: string)
    requires forall k :: 0 <= k < |tokens| ==> tokens[k] != [] && NoSpace(tokens[k])
    requires sep != [] && AllSpace(sep)
    ensures Words(Join(tokens, sep)) == tokens
    decreases |tokens|
  {
    if tokens == [] {
      assert Join(tokens, sep) == [];
      assert DropSpaces([]) == [];
    } else if |tokens| == 1 {
      WordsOfOne(tokens[0]);
      assert Join(tokens, sep) == tokens[0];
    } else {
      var t := tokens[0];
      var rest := Join(tokens[1..], sep);
      assert Join(tokens, sep) == t + sep + rest;
      WordsOfJoin(tokens[1..], sep);
      WordsOfTokenThen(t, sep, rest);
      assert [t] + tokens[1..] == tokens;
    }
  }

  lemma WordsOfOne(t: string)
    requires t != [] && NoSpace(t)
    ensures Words(t) == [t]
  {
    WordOfToken(t, []);
    assert t + [] == t;
    assert Words([]) == [];
  }

  lemma WordsOfTokenThen(t: string, sep: string, rest: string)
    requires t != [] && NoSpace(t)
    requires sep != [] && AllSpace(sep)
    ensures Words(t + sep + rest) == [t] + Words(rest)
  {
    WordOfToken(t, sep + rest);
    AppendAssoc(t, sep, rest);
    WordsAfterSpaces(sep, rest);
  }

  /** The words of a token followed by white space and more text. */
  lemma WordOfToken(t: string, rest: string)
    requires t != [] && NoSpace(t)
    requires rest == [] || IsSpace(rest[0])
    ensures Words(t + rest) == [t] + Words(rest)
  {
    TakeWordPrefix(t, rest);
    var s := t + rest;
    assert s[0] == t[0];
    assert !IsSpace(s[0]);
    assert DropSpaces(s) == s;
    Cleaner.WordsUnfold(s);
    assert s[|t|..] == rest;
  }

  lemma {:induction false} TakeWordPrefix(t: string, rest: string)
    requires NoSpace(t)
    requires rest == [] || IsSpace(rest[0])
    ensures TakeWord(t + rest) == t
    decreases |t|
  {
    if t == [] {
      assert t + rest == rest;
    } else {
      assert (t + rest)[1..] == t[1..] + rest;
      TakeWordPrefix(t[1..], rest);
    }
  }

  /** Odds joined by any white-space run parse as those odds. */
  lemma ParseOddsJoin(tokens: seq<string>, sep: string)
    requires forall k :: 0 <= k < |tokens| ==> tokens[k] != [] && NoSpace(tokens[k])
    requires sep != [] && AllSpace(sep)
    ensures ParseOdds(Join(tokens, sep)) == OddsOfTokens(tokens)
  {
    ParseOddsTokens(Join(tokens, sep));
    if tokens != [] {
      WordsOfJoin(tokens, sep);
    }
  }
}
