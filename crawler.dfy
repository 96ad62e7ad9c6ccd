/** The two pieces of apps/web/server/utils/crawler.ts that decide something without a
    browser: the robots.txt decision of `checkRobotsTxt` (a simplified reading of the
    group rules of section 2.2 of RFC 9309) and the last two steps of
    `extractMainContent`, which turn tags into spaces and collapse white space. */
module Crawler {
  import opened Wrappers
  import opened Strings
  import Collections
  import Cleaner

  // ---------------------------------------------------------------------------
  // checkRobotsTxt

  const DefaultUserAgent: string := "TippAI-Bot"

  /** `line.trim().toLowerCase()`. */
  function Normalize(line: string): string {
    ToLower(Trim(line))
  }

  predicate IsAgentLine(line: string) {
    StartsWith(Normalize(line), "user-agent:")
  }

  predicate IsDisallowLine(line: string) {
    StartsWith(Normalize(line), "disallow:")
  }

  /** The agent a `User-agent:` line names, trimmed and lower-cased. */
  function AgentOf(line: string): string
    requires IsAgentLine(line)
  {
    Trim(Normalize(line)[11..])
  }

  /** The path a `Disallow:` line names, trimmed and lower-cased. */
  function PathOf(line: string): string
    requires IsDisallowLine(line)
  {
    Trim(Normalize(line)[9..])
  }

  /** What one line of a robots.txt says to the loop. */
  datatype Rule = AgentRule(agent: string) | DisallowRule(path: string) | OtherRule

  /** A normalised line starts with at most one of the two prefixes. */
  lemma PrefixesExclusive(s: string)
    ensures !(StartsWith(s, "user-agent:") && StartsWith(s, "disallow:"))
  {
    if StartsWith(s, "user-agent:") {
      assert s[0] == 'u';
    }
  }

  function Classify(line: string): Rule {
    if IsAgentLine(line) then AgentRule(AgentOf(line))
    else if IsDisallowLine(line) then DisallowRule(PathOf(line))
    else OtherRule
  }

  /** The lines of the file, each classified. */
  function Rules(lines: seq<string>): seq<Rule> {
    Collections.Map(Classify, lines)
  }

  lemma RulesAppend(prefix: seq<string>, rest: seq<string>)
    ensures Rules(prefix + rest) == Rules(prefix) + Rules(rest)
  {
    Collections.MapAppend(Classify, prefix, rest);
  }

  /** Whether the following rules apply, after reading `rule`: a `User-agent:` line
      decides it afresh, any other line keeps it. */
  function RelevantAfter(relevant: bool, rule: Rule, userAgent: string): bool {
    if rule.AgentRule? then rule.agent == "*" || rule.agent == ToLower(userAgent) else relevant
  }

  /** A rule path blocks a pathname when it is `/` or a non-empty prefix of it. */
  predicate PathBlocks(path: string, pathname: string) {
    path == "/" || (path != [] && StartsWith(pathname, path))
  }

  /** The rule is a relevant `Disallow:` rule that blocks the pathname. */
  predicate RuleBlocks(relevant: bool, rule: Rule, pathname: string) {
    relevant && rule.DisallowRule? && PathBlocks(rule.path, pathname)
  }

  /** The decision from `rules` on, with `relevant` the flag carried so far. */
  function Decide(rules: seq<Rule>, relevant: bool, pathname: string, userAgent: string): bool
    decreases |rules|
  {
    if rules == [] then true
    else
      var r := RelevantAfter(relevant, rules[0], userAgent);
      if RuleBlocks(r, rules[0], pathname) then false else Decide(rules[1..], r, pathname, userAgent)
  }

  /** The decision for the lines of a file. */
  function AllowedFrom(lines: seq<string>, relevant: bool, pathname: string, userAgent: string): bool {
    Decide(Rules(lines), relevant, pathname, userAgent)
  }

  /** The flag after reading all of `rules`. */
  function Relevance(rules: seq<Rule>, relevant: bool, userAgent: string): bool
    decreases |rules|
  {
    if rules == [] then relevant else Relevance(rules[1..], RelevantAfter(relevant, rules[0], userAgent), userAgent)
  }

  /** The line loop of `checkRobotsTxt`, which returns `false` at the first blocking rule. */
  method CheckRobotsLines(lines: seq<string>, pathname: string, userAgent: string) returns (allowed: bool)
    ensures allowed == AllowedFrom(lines, false, pathname, userAgent)
  {
    ghost var rules := Rules(lines);
    var relevantAgent := false;
    for i := 0 to |lines|
      invariant Decide(rules[i..], relevantAgent, pathname, userAgent) == Decide(rules, false, pathname, userAgent)
    {
      DecideStep(rules, i, relevantAgent, pathname, userAgent);
      var blocks;
      relevantAgent, blocks := ReadLine(lines[i], relevantAgent, pathname, userAgent);
      if blocks {
        return false;
      }
    }
    assert rules[|lines|..] == [];
    return true;
  }

  /** One pass of the line loop: the flag after the line, and whether the line blocks. */
  method ReadLine(line: string, relevant: bool, pathname: string, userAgent: string)
    returns (relevantAgent: bool, blocks: bool)
    ensures relevantAgent == RelevantAfter(relevant, Classify(line), userAgent)
    ensures blocks == RuleBlocks(relevantAgent, Classify(line), pathname)
  {
    hide Trim, ToLower, IsSpace;
    relevantAgent := relevant;
    var trimmed := ToLower(Trim(line));
    PrefixesExclusive(trimmed);
    if StartsWith(trimmed, "user-agent:") {
      var agent := Trim(trimmed[11..]);
      relevantAgent := agent == "*" || agent == ToLower(userAgent);
    }
    blocks := false;
    if relevantAgent && StartsWith(trimmed, "disallow:") {
      var path := Trim(trimmed[9..]);
      if path == "/" || (path != [] && StartsWith(pathname, path)) {
        blocks := true;
      }
    }
  }

  lemma DecideStep(rules: seq<Rule>, i: nat, relevant: bool, pathname: string, userAgent: string)
    requires i < |rules|
    ensures var r := RelevantAfter(relevant, rules[i], userAgent);
      Decide(rules[i..], relevant, pathname, userAgent) ==
      (!RuleBlocks(r, rules[i], pathname) && Decide(rules[i + 1..], r, pathname, userAgent))
  {
    assert rules[i..][0] == rules[i];
    assert rules[i..][1..] == rules[i + 1..];
  }

  lemma DecideCons(rule: Rule, rules: seq<Rule>, relevant: bool, pathname: string, userAgent: string)
    ensures var r := RelevantAfter(relevant, rule, userAgent);
      Decide([rule] + rules, relevant, pathname, userAgent) ==
      (!RuleBlocks(r, rule, pathname) && Decide(rules, r, pathname, userAgent))
  {
    assert ([rule] + rules)[1..] == rules;
  }

  /** `checkRobotsTxt`: the URL's pathname (`None` when `new URL` throws), the body of
      the robots.txt response (`None` when the response is not OK or the fetch throws) and
      the user agent (`None` for the default). */
  function RobotsAllows(pathname: Option<string>, robotsTxt: Option<string>, userAgent: Option<string>): bool {
    if pathname.None? || robotsTxt.None? then true
    else
      var agent := if userAgent.Some? then userAgent.value else DefaultUserAgent;
      AllowedFrom(SplitOn(robotsTxt.value, '\n'), false, pathname.value, agent)
  }

  method CheckRobotsTxt(pathname: Option<string>, robotsTxt: Option<string>, userAgent: Option<string>)
    returns (allowed: bool)
    ensures allowed == RobotsAllows(pathname, robotsTxt, userAgent)
  {
    if pathname.None? || robotsTxt.None? {
      return true;
    }
    var agent := if userAgent.Some? then userAgent.value else DefaultUserAgent;
    allowed := CheckRobotsLines(SplitOn(robotsTxt.value, '\n'), pathname.value, agent);
  }

  /** Rule `i` blocks, given the flag carried into the rules. */
  predicate RuleBlockedAt(rules: seq<Rule>, relevant: bool, pathname: string, userAgent: string, i: int)
    requires 0 <= i < |rules|
  {
    RuleBlocks(Relevance(rules[..i + 1], relevant, userAgent), rules[i], pathname)
  }

  /** Line `i` blocks, given the flag carried into the lines. */
  predicate BlockedAt(lines: seq<string>, relevant: bool, pathname: string, userAgent: string, i: int)
    requires 0 <= i < |lines|
  {
    RuleBlockedAt(Rules(lines), relevant, pathname, userAgent, i)
  }

  lemma RelevanceShift(rules: seq<Rule>, relevant: bool, userAgent: string, i: nat)
    requires 0 <= i < |rules|
    ensures Relevance(rules[..i + 1], relevant, userAgent) ==
            Relevance(rules[1..][..i], RelevantAfter(relevant, rules[0], userAgent), userAgent)
  {
    assert rules[..i + 1][1..] == rules[1..][..i];
  }

  lemma BlockedAtShift(rules: seq<Rule>, relevant: bool, pathname: string, userAgent: string, i: nat)
    requires 0 < i < |rules|
    ensures RuleBlockedAt(rules, relevant, pathname, userAgent, i) ==
            RuleBlockedAt(rules[1..], RelevantAfter(relevant, rules[0], userAgent), pathname, userAgent, i - 1)
  {
    RelevanceShift(rules, relevant, userAgent, i);
    assert rules[1..][i - 1] == rules[i];
  }

  lemma BlockedAtFirst(rules: seq<Rule>, relevant: bool, pathname: string, userAgent: string)
    requires 0 < |rules|
    ensures RuleBlockedAt(rules, relevant, pathname, userAgent, 0) ==
            RuleBlocks(RelevantAfter(relevant, rules[0], userAgent), rules[0], pathname)
  {
    var r := RelevantAfter(relevant, rules[0], userAgent);
    assert Relevance(rules[..1], relevant, userAgent) == r by {
      RelevanceShift(rules, relevant, userAgent, 0);
      assert rules[1..][..0] == [];
    }
  }

  /** A URL is blocked exactly when some line is a `Disallow:` rule that blocks its
      pathname while the group read so far applies to the agent. */
  lemma BlockedExactly(lines: seq<string>, relevant: bool, pathname: string, userAgent: string)
    ensures !AllowedFrom(lines, relevant, pathname, userAgent) <==>
      exists i :: 0 <= i < |lines| && BlockedAt(lines, relevant, pathname, userAgent, i)
  {
    var rules := Rules(lines);
    if !AllowedFrom(lines, relevant, pathname, userAgent) {
      var i := BlockingRule(rules, relevant, pathname, userAgent);
      assert BlockedAt(lines, relevant, pathname, userAgent, i);
    }
    if exists i :: 0 <= i < |lines| && BlockedAt(lines, relevant, pathname, userAgent, i) {
      var i :| 0 <= i < |lines| && BlockedAt(lines, relevant, pathname, userAgent, i);
      BlockedNotAllowed(rules, relevant, pathname, userAgent, i);
    }
  }

  /** Rules that refuse a URL hold one that blocks it. */
  lemma {:induction false} BlockingRule(rules: seq<Rule>, relevant: bool, pathname: string, userAgent: string)
    returns (i: nat)
    requires !Decide(rules, relevant, pathname, userAgent)
    ensures i < |rules| && RuleBlockedAt(rules, relevant, pathname, userAgent, i)
    decreases |rules|
  {
    var r := RelevantAfter(relevant, rules[0], userAgent);
    BlockedAtFirst(rules, relevant, pathname, userAgent);
    if RuleBlocks(r, rules[0], pathname) {
      i := 0;
    } else {
      var j := BlockingRule(rules[1..], r, pathname, userAgent);
      BlockedAtShift(rules, relevant, pathname, userAgent, j + 1);
      i := j + 1;
    }
  }

  /** A rule that blocks the URL makes the rules refuse it. */
  lemma {:induction false} BlockedNotAllowed(rules: seq<Rule>, relevant: bool, pathname: string, userAgent: string, i: nat)
    requires i < |rules| && RuleBlockedAt(rules, relevant, pathname, userAgent, i)
    ensures !Decide(rules, relevant, pathname, userAgent)
    decreases i
  {
    BlockedAtFirst(rules, relevant, pathname, userAgent);
    if i > 0 {
      var r := RelevantAfter(relevant, rules[0], userAgent);
      BlockedAtShift(rules, relevant, pathname, userAgent, i);
      BlockedNotAllowed(rules[1..], r, pathname, userAgent, i - 1);
    }
  }

  /** Rules before the first `User-agent:` line belong to no group and never block. */
  lemma RulesBeforeAgentIgnored(prefix: seq<string>, rest: seq<string>, pathname: string, userAgent: string)
    requires forall i :: 0 <= i < |prefix| ==> !IsAgentLine(prefix[i])
    ensures AllowedFrom(prefix + rest, false, pathname, userAgent) == AllowedFrom(rest, false, pathname, userAgent)
  {
    RulesAppend(prefix, rest);
    var pre := Rules(prefix);
    forall i | 0 <= i < |pre|
      ensures !pre[i].AgentRule?
    {
      assert pre[i] == Classify(prefix[i]);
    }
    NoAgentPrefix(pre, Rules(rest), pathname, userAgent);
  }

  lemma {:induction false} NoAgentPrefix(pre: seq<Rule>, rest: seq<Rule>, pathname: string, userAgent: string)
    requires forall i :: 0 <= i < |pre| ==> !pre[i].AgentRule?
    ensures Decide(pre + rest, false, pathname, userAgent) == Decide(rest, false, pathname, userAgent)
    decreases |pre|
  {
    if pre == [] {
      assert pre + rest == rest;
    } else {
      assert pre + rest == [pre[0]] + (pre[1..] + rest);
      DecideCons(pre[0], pre[1..] + rest, false, pathname, userAgent);
      NoAgentPrefix(pre[1..], rest, pathname, userAgent);
    }
  }

  /** A `User-agent:` line replaces whatever group was applying: what follows is decided
      by whether that line names `*` or the agent, and by nothing before it. */
  lemma AgentLineResets(line: string, rest: seq<string>, relevant: bool, pathname: string, userAgent: string)
    requires IsAgentLine(line)
    ensures AllowedFrom([line] + rest, relevant, pathname, userAgent) ==
            AllowedFrom(rest, AgentOf(line) == "*" || AgentOf(line) == ToLower(userAgent), pathname, userAgent)
  {
    RulesAppend([line], rest);
    DecideCons(Classify(line), Rules(rest), relevant, pathname, userAgent);
  }

  /** `Disallow: /` blocks every pathname, an empty `Disallow:` blocks none. */
  lemma DisallowExtremes(line: string, pathname: string)
    requires IsDisallowLine(line)
    ensures PathOf(line) == "/" ==> RuleBlocks(true, Classify(line), pathname)
    ensures PathOf(line) == [] ==> !RuleBlocks(true, Classify(line), pathname)
  {
    PrefixesExclusive(Normalize(line));
  }

  /** Lines that are neither `User-agent:` nor `Disallow:` rules, such as `Allow:` lines,
      change nothing. */
  lemma OtherLinesIgnored(line: string, rest: seq<string>, relevant: bool, pathname: string, userAgent: string)
    requires !IsAgentLine(line) && !IsDisallowLine(line)
    ensures AllowedFrom([line] + rest, relevant, pathname, userAgent) == AllowedFrom(rest, relevant, pathname, userAgent)
  {
    RulesAppend([line], rest);
    DecideCons(Classify(line), Rules(rest), relevant, pathname, userAgent);
  }

  /** The rule path is lower-cased but the pathname is not, so a rule naming an upper-case
      path does not block that path. */
  lemma MixedCasePathNotBlocked()
    ensures !PathBlocks(ToLower("/Private"), "/Private")
  {
    assert ToLower("/Private")[1] == 'p';
  }

  /** Without a robots.txt, or when anything fails, the URL is allowed. */
  lemma AllowedWithoutRobots(pathname: Option<string>, robotsTxt: Option<string>, userAgent: Option<string>)
    ensures pathname.None? || robotsTxt.None? ==> RobotsAllows(pathname, robotsTxt, userAgent)
  {
  }

  // ---------------------------------------------------------------------------
  // extractMainContent, after the script, style, nav and footer blocks are removed

  /** The index of the first `c` in `s`, or -1. */
  function IndexOf(s: string, c: char): (k: int)
    ensures -1 <= k < |s|
    ensures k >= 0 ==> s[k] == c && forall j :: 0 <= j < k ==> s[j] != c
    ensures k == -1 ==> forall j :: 0 <= j < |s| ==> s[j] != c
    decreases |s|
  {
    if s == [] then -1
    else if s[0] == c then 0
    else
      var k := IndexOf(s[1..], c);
      if k == -1 then -1 else k + 1
  }

  /** `s` starts with a tag `<[^>]+>`: a `<`, at least one character other than `>`, and
      the first `>` after them. The tag's length is one more than the index returned. */
  predicate StartsWithTag(s: string) {
    s != [] && s[0] == '<' && IndexOf(s[1..], '>') >= 1
  }

  /** `.replace(/<[^>]+>/g, ' ')`: each tag becomes one space. */
  function StripTags(s: string): string
    decreases |s|
  {
    if s == [] then []
    else if StartsWithTag(s) then " " + StripTags(s[IndexOf(s[1..], '>') + 2..])
    else [s[0]] + StripTags(s[1..])
  }

  /** No tag starts anywhere in `s`. */
  predicate Tagless(s: string) {
    forall i :: 0 <= i < |s| ==> !StartsWithTag(s[i..])
  }

  /** Stripping keeps every character other than a space only where it does not belong
      to a tag: a character absent from the input is absent from the output. */
  lemma {:induction false} StripTagsChars(s: string, c: char)
    requires c != ' ' && forall j :: 0 <= j < |s| ==> s[j] != c
    ensures forall j :: 0 <= j < |StripTags(s)| ==> StripTags(s)[j] != c
    decreases |s|
  {
    if s != [] {
      if StartsWithTag(s) {
        var k := IndexOf(s[1..], '>');
        StripTagsChars(s[k + 2..], c);
      } else {
        StripTagsChars(s[1..], c);
      }
    }
  }

  lemma StripTagsHead(s: string)
    requires s != [] && s[0] != '<'
    ensures StripTags(s) != [] && StripTags(s)[0] == s[0]
  {
  }

  lemma TaglessCons(c: char, s: string)
    requires Tagless(s)
    requires c == '<' ==> IndexOf(s, '>') < 1
    ensures Tagless([c] + s)
  {
    var t := [c] + s;
    assert t[1..] == s;
    forall i | 0 <= i < |t| ensures !StartsWithTag(t[i..]) {
      if i > 0 {
        assert t[i..] == s[i - 1..];
      }
    }
  }

  /** No tag is left after stripping. */
  lemma {:induction false} StripTagsTagless(s: string)
    ensures Tagless(StripTags(s))
    decreases |s|
  {
    if s != [] {
      if StartsWithTag(s) {
        var k := IndexOf(s[1..], '>');
        StripTagsTagless(s[k + 2..]);
        TaglessCons(' ', StripTags(s[k + 2..]));
      } else {
        var rest := StripTags(s[1..]);
        StripTagsTagless(s[1..]);
        if s[0] == '<' {
          var k := IndexOf(s[1..], '>');
          if k == -1 {
            StripTagsChars(s[1..], '>');
          } else {
            StripTagsHead(s[1..]);
          }
        }
        TaglessCons(s[0], rest);
      }
    }
  }

  /** A string without tags is left as it is. */
  lemma {:induction false} StripTaglessIdle(s: string)
    requires Tagless(s)
    ensures StripTags(s) == s
    decreases |s|
  {
    if s != [] {
      assert s[0..] == s;
      assert Tagless(s[1..]) by {
        forall i | 0 <= i < |s[1..]| ensures !StartsWithTag(s[1..][i..]) {
          assert s[1..][i..] == s[i + 1..];
        }
      }
      StripTaglessIdle(s[1..]);
    }
  }

  /** Stripping twice is stripping once. */
  lemma StripTagsIdempotent(s: string)
    ensures StripTags(StripTags(s)) == StripTags(s)
  {
    StripTagsTagless(s);
    StripTaglessIdle(StripTags(s));
  }

  /** The text before the first `<` passes through unchanged. */
  lemma {:induction false} StripTagsPlain(a: string, b: string)
    requires forall i :: 0 <= i < |a| ==> a[i] != '<'
    ensures StripTags(a + b) == a + StripTags(b)
    decreases |a|
  {
    if a == [] {
      assert a + b == b;
    } else {
      assert (a + b)[0] == a[0] && (a + b)[1..] == a[1..] + b;
      StripTagsPlain(a[1..], b);
    }
  }

  lemma IndexOfIs(s: string, c: char, k: nat)
    requires k < |s| && s[k] == c && forall j :: 0 <= j < k ==> s[j] != c
    ensures IndexOf(s, c) == k
  {
  }

  /** Each tag `<m>` becomes one space and the text around it is kept: the text before the
      first `<` as it is, the text after the tag stripped in turn. */
  lemma StripTagsTag(a: string, m: string, b: string)
    requires forall i :: 0 <= i < |a| ==> a[i] != '<'
    requires m != [] && forall i :: 0 <= i < |m| ==> m[i] != '>'
    ensures StripTags(a + "<" + m + ">" + b) == a + " " + StripTags(b)
  {
    hide *;
    var t := "<" + m + ">" + b;
    assert a + "<" + m + ">" + b == a + t;
    StripTagsPlain(a, t);
    var u := t[1..];
    assert u == m + ">" + b && t[0] == '<';
    assert forall j :: 0 <= j < |m| ==> u[j] == m[j];
    assert u[|m|] == '>';
    IndexOfIs(u, '>', |m|);
    StripTagsAtTag(t, |m|);
    assert t[|m| + 2..] == b;
  }

  /** One step of the scan at a tag whose closing `>` is at `k + 1`. */
  lemma StripTagsAtTag(s: string, k: nat)
    requires s != [] && s[0] == '<' && k >= 1 && IndexOf(s[1..], '>') == k
    ensures StripTags(s) == " " + StripTags(s[k + 2..])
  {
  }

  /** `<>` is not a tag: both characters are kept. */
  lemma StripTagsEmptyBrackets(b: string)
    ensures StripTags("<>" + b) == "<>" + StripTags(b)
  {
    var t := "<>" + b;
    assert t[1..] == ">" + b && t[1..][1..] == b;
    StripTagsPlain(">", b);
  }

  /** A `<` with no `>` anywhere after it opens no tag: it and the rest are kept. */
  lemma StripTagsUnclosed(b: string)
    requires forall i :: 0 <= i < |b| ==> b[i] != '>'
    ensures StripTags("<" + b) == "<" + b
  {
    var s := "<" + b;
    assert forall k :: 0 <= k < |s| ==> s[k] != '>' by {
      forall k | 0 <= k < |s| ensures s[k] != '>' {
        if k > 0 {
          assert s[k] == b[k - 1];
        }
      }
    }
    forall i | 0 <= i < |s| ensures !StartsWithTag(s[i..]) {
      var t := s[i..][1..];
      assert forall j :: 0 <= j < |t| ==> t[j] == s[i + 1 + j];
    }
    StripTaglessIdle(s);
  }

  /** `.replace(/\s+/g, ' ')`: each run of white space becomes one space. */
  function CollapseSpaces(s: string): (r: string)
    ensures r == [] <==> s == []
    ensures s != [] ==> (IsSpace(r[0]) <==> IsSpace(s[0]))
    decreases |s|
  {
    if s == [] then []
    else if IsSpace(s[0]) then " " + CollapseSpaces(DropSpaces(s))
    else [s[0]] + CollapseSpaces(s[1..])
  }

  /** No two white-space characters in a row, and every white-space character is a space. */
  predicate SingleSpaced(s: string) {
    (forall k :: 0 <= k < |s| && IsSpace(s[k]) ==> s[k] == ' ') &&
    forall k :: 0 <= k < |s| - 1 ==> !(IsSpace(s[k]) && IsSpace(s[k + 1]))
  }

  lemma {:induction false} CollapseSingleSpaced(s: string)
    ensures SingleSpaced(CollapseSpaces(s))
    decreases |s|
  {
    if s != [] {
      if IsSpace(s[0]) {
        var t := DropSpaces(s);
        CollapseSingleSpaced(t);
        var r := CollapseSpaces(s);
        assert r == " " + CollapseSpaces(t);
        assert forall k :: 0 < k < |r| ==> r[k] == CollapseSpaces(t)[k - 1];
      } else {
        CollapseSingleSpaced(s[1..]);
        var r := CollapseSpaces(s);
        assert forall k :: 0 < k < |r| ==> r[k] == CollapseSpaces(s[1..])[k - 1];
      }
    }
  }

  /** Collapsing a word followed by white space or by nothing keeps the word. */
  lemma {:induction false} CollapseWord(w: string, r: string)
    requires NoSpace(w)
    ensures CollapseSpaces(w + r) == w + CollapseSpaces(r)
    decreases |w|
  {
    hide *;
    if w == [] {
      assert w + r == r;
    } else {
      NoSpaceHead(w);
      assert (w + r)[0] == w[0] && (w + r)[1..] == w[1..] + r;
      CollapsePlain(w + r);
      CollapseWord(w[1..], r);
      assert [w[0]] + (w[1..] + CollapseSpaces(r)) == w + CollapseSpaces(r);
    }
  }

  lemma NoSpaceHead(w: string)
    requires w != [] && NoSpace(w)
    ensures !IsSpace(w[0]) && NoSpace(w[1..])
  {
    assert forall i :: 0 <= i < |w| - 1 ==> w[1..][i] == w[i + 1];
  }

  lemma CollapsePlain(s: string)
    requires s != [] && !IsSpace(s[0])
    ensures CollapseSpaces(s) == [s[0]] + CollapseSpaces(s[1..])
  {
  }

  /** Collapsing white space keeps the words: only the runs between them change. */
  lemma {:induction false} CollapseWords(s: string)
    ensures Words(CollapseSpaces(s)) == Words(s)
    decreases |s|
  {
    hide *;
    if s == [] {
      CollapseEmpty();
    } else if IsSpace(s[0]) {
      var t := DropSpaces(s);
      var ws := s[..|s| - |t|];
      assert s == ws + t;
      CollapseSpace(s);
      OneSpace();
      WordsAfterSpaces(ws, t);
      WordsAfterSpaces(" ", CollapseSpaces(t));
      CollapseWords(t);
    } else {
      var w := TakeWord(s);
      var r := s[|w|..];
      assert s == w + r;
      CollapseWord(w, r);
      WordsCons(w, r);
      WordsCons(w, CollapseSpaces(r));
      CollapseWords(r);
    }
  }

  lemma CollapseEmpty()
    ensures CollapseSpaces([]) == []
  {
  }

  lemma CollapseSpace(s: string)
    requires s != [] && IsSpace(s[0])
    ensures CollapseSpaces(s) == " " + CollapseSpaces(DropSpaces(s))
  {
  }

  lemma OneSpace()
    ensures AllSpace(" ")
  {
  }


  /** A trimmed single-spaced text is its words joined by single spaces. */
  lemma {:induction false} SingleSpacedJoin(r: string)
    requires IsTrimmed(r) && SingleSpaced(r)
    ensures r == Join(Words(r), " ")
    decreases |r|
  {
    hide *;
    if r == [] {
      WordsOfEmpty();
      JoinNone();
    } else {
      SpacedFirstWord(r);
      var w := TakeWord(r);
      var rest := r[|w|..];
      WordsCons(w, rest);
      if rest == [] {
        WordsOfEmpty();
        JoinOne(w);
        assert r == w + rest == w;
        assert Words(r) == [w] + Words(rest) == [w];
      } else {
        var r' := r[|w| + 1..];
        WordsAfterSpaces(" ", r');
        SingleSpacedJoin(r');
        WordsOfVisible(r');
        JoinCons(w, Words(r'));
        AppendAssoc(w, " ", r');
      }
    }
  }

  /** Where the first word of a trimmed single-spaced text ends: at the end, or at one
      space followed by a trimmed single-spaced remainder. */
  lemma SpacedFirstWord(r: string)
    requires r != [] && IsTrimmed(r) && SingleSpaced(r)
    ensures var w := TakeWord(r);
      w != [] && NoSpace(w) && r == w + r[|w|..] && (r[|w|..] == [] || IsSpace(r[|w|..][0]))
    ensures var k := |TakeWord(r)|; k < |r| ==>
      k + 1 < |r| && r[k..] == " " + r[k + 1..] && IsTrimmed(r[k + 1..]) && SingleSpaced(r[k + 1..])
  {
    var w := TakeWord(r);
    var k := |w|;
    assert r == w + r[k..];
    if k < |r| {
      assert r[k] == ' ' && k < |r| - 1;
      assert !IsSpace(r[k + 1]);
      var r' := r[k + 1..];
      assert r'[0] == r[k + 1] && r'[|r'| - 1] == r[|r| - 1];
      SliceSingleSpaced(r, k + 1, |r|);
      assert r[k + 1..|r|] == r';
    }
  }

  lemma WordsOfEmpty()
    ensures Words([]) == []
  {
  }

  /** A text that starts with a visible character has a word. */
  lemma WordsOfVisible(s: string)
    requires s != [] && !IsSpace(s[0])
    ensures Words(s) != []
  {
  }

  lemma JoinNone()
    ensures Join([], " ") == []
  {
  }

  lemma JoinOne(w: string)
    ensures Join([w], " ") == w
  {
  }

  lemma JoinCons(w: string, ws: seq<string>)
    requires ws != []
    ensures Join([w] + ws, " ") == w + " " + Join(ws, " ")
  {
    assert ([w] + ws)[1..] == ws;
  }

  /** The last two steps of `extractMainContent` on the text left after the script,
      style, nav and footer blocks are removed. */
  function ExtractMainContent(content: string): (r: string)
    ensures IsTrimmed(r) && SingleSpaced(r)
  {
    var collapsed := CollapseSpaces(StripTags(content));
    CollapseSingleSpaced(StripTags(content));
    TrimSingleSpaced(collapsed);
    Trim(collapsed)
  }

  /** `extractMainContent` returns exactly the words of the stripped text, joined by single
      spaces. */
  lemma ExtractedWords(content: string)
    ensures ExtractMainContent(content) == Join(Words(StripTags(content)), " ")
  {
    var collapsed := CollapseSpaces(StripTags(content));
    var r := ExtractMainContent(content);
    assert r == Trim(collapsed);
    SingleSpacedJoin(r);
    Cleaner.WordsOfTrim(collapsed);
    CollapseWords(StripTags(content));
  }

  /** Trimming keeps a string single-spaced. */
  lemma TrimSingleSpaced(s: string)
    requires SingleSpaced(s)
    ensures SingleSpaced(Trim(s))
  {
    var i, j :| 0 <= i <= j <= |s| && Trim(s) == s[i..j] && AllSpace(s[..i]) && AllSpace(s[j..]);
    SliceSingleSpaced(s, i, j);
  }

  lemma SliceSingleSpaced(s: string, i: nat, j: nat)
    requires i <= j <= |s| && SingleSpaced(s)
    ensures SingleSpaced(s[i..j])
  {
    var t := s[i..j];
    assert forall k :: 0 <= k < |t| ==> t[k] == s[i + k];
  }

  /** The output holds no tag. */
  lemma ExtractedTagless(content: string)
    ensures Tagless(ExtractMainContent(content))
  {
    var stripped := StripTags(content);
    StripTagsTagless(content);
    CollapseTagless(stripped);
    var collapsed := CollapseSpaces(stripped);
    TrimTagless(collapsed);
  }

  /** Collapsing white space creates no tag: a space is never `<` or `>`. */
  lemma {:induction false} CollapseTagless(s: string)
    requires Tagless(s)
    ensures Tagless(CollapseSpaces(s))
    decreases |s|
  {
    if s != [] {
      var r := CollapseSpaces(s);
      if IsSpace(s[0]) {
        var t := DropSpaces(s);
        TaglessSuffix(s, |s| - |t|);
        CollapseTagless(t);
        TaglessCons(' ', CollapseSpaces(t));
      } else {
        TaglessSuffix(s, 1);
        CollapseTagless(s[1..]);
        if s[0] == '<' {
          assert !StartsWithTag(s[0..]);
          assert s[0..] == s;
          CollapseKeepsGt(s[1..]);
        }
        TaglessCons(s[0], CollapseSpaces(s[1..]));
      }
    }
  }

  lemma TaglessSuffix(s: string, n: nat)
    requires Tagless(s) && n <= |s|
    ensures Tagless(s[n..])
  {
    forall i | 0 <= i < |s[n..]| ensures !StartsWithTag(s[n..][i..]) {
      assert s[n..][i..] == s[n + i..];
    }
  }

  /** Collapsing keeps the position of the first `>` at 0, or keeps it absent. */
  lemma {:induction false} CollapseKeepsGt(s: string)
    requires IndexOf(s, '>') < 1
    ensures IndexOf(CollapseSpaces(s), '>') < 1
    decreases |s|
  {
    if s != [] && s[0] != '>' {
      if IsSpace(s[0]) {
        var t := DropSpaces(s);
        assert forall j :: 0 <= j < |t| ==> t[j] == s[|s| - |t| + j];
        CollapseKeepsGt(t);
        CollapseNoGt(t);
      } else {
        CollapseNoGt(s[1..]);
      }
    }
  }

  lemma {:induction false} CollapseNoGt(s: string)
    requires forall j :: 0 <= j < |s| ==> s[j] != '>'
    ensures forall j :: 0 <= j < |CollapseSpaces(s)| ==> CollapseSpaces(s)[j] != '>'
    decreases |s|
  {
    if s != [] {
      if IsSpace(s[0]) {
        var t := DropSpaces(s);
        assert forall j :: 0 <= j < |t| ==> t[j] == s[|s| - |t| + j];
        CollapseNoGt(t);
      } else {
        CollapseNoGt(s[1..]);
      }
    }
  }

  /** Trimming creates no tag: a tag in the trimmed infix would be a tag of the whole
      string. */
  lemma TrimTagless(s: string)
    requires Tagless(s)
    ensures Tagless(Trim(s))
  {
    var i, j :| 0 <= i <= j <= |s| && Trim(s) == s[i..j] && AllSpace(s[..i]) && AllSpace(s[j..]);
    var t := s[i..j];
    forall k | 0 <= k < |t| ensures !StartsWithTag(t[k..]) {
      assert !StartsWithTag(s[i + k..]);
      PrefixTag(t[k..], s[j..]);
      assert s[i + k..] == t[k..] + s[j..];
    }
  }

  /** A tag at the start of `a` is a tag at the start of `a + b`. */
  lemma PrefixTag(a: string, b: string)
    ensures StartsWithTag(a) ==> StartsWithTag(a + b)
  {
    if StartsWithTag(a) {
      var k := IndexOf(a[1..], '>');
      assert (a + b)[1..] == a[1..] + b;
      IndexOfAppend(a[1..], b, '>');
    }
  }

  lemma {:induction false} IndexOfAppend(a: string, b: string, c: char)
    requires IndexOf(a, c) >= 0
    ensures IndexOf(a + b, c) == IndexOf(a, c)
    decreases |a|
  {
    if a[0] != c {
      assert (a + b)[1..] == a[1..] + b;
      IndexOfAppend(a[1..], b, c);
    }
  }
}
