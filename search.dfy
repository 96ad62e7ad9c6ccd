/** Source discovery, apps/web/server/utils/search.ts: the search keywords and queries of
    an event, the deduplication of results by URL, their relevance ranking and the limits
    `discoverSources` applies. The web search itself and URL parsing are parameters. */
module Search {
  import opened Wrappers
  import opened Collections
  import opened Strings
  import Predictor

  // ---------------------------------------------------------------------------
  // generateSearchKeywords

  const InjuryTerms: seq<string> := ["sérülés", "sérült", "injury", "injured", "verletzung", "blessure"]
  const SuspensionTerms: seq<string> := ["eltiltás", "eltiltott", "suspension", "suspended", "ban", "banned"]
  const FormTerms: seq<string> := ["forma", "form", "formkurve", "eredmény", "result", "performance"]

  /** `${team} ${term}` for each term, in order. */
  function Prefixed(team: string, terms: seq<string>): (r: seq<string>)
    ensures |r| == |terms| && forall i :: 0 <= i < |terms| ==> r[i] == team + " " + terms[i]
  {
    seq(|terms|, i requires 0 <= i < |terms| => team + " " + terms[i])
  }

  /** The eighteen context keywords of one team. */
  function TeamKeywords(team: string): seq<string> {
    Prefixed(team, InjuryTerms) + Prefixed(team, SuspensionTerms) + Prefixed(team, FormTerms)
  }

  /** The keywords of an event. */
  function Keywords(e: Predictor.Event): seq<string> {
    [e.home, e.away, e.home + " vs " + e.away, e.home + " " + e.away, e.league] + TeamKeywords(e.home) + TeamKeywords(e.away)
  }

  /** `terms.forEach(term => keywords.push(`${team} ${term}`))`. */
  method PushTerms(keywords: seq<string>, team: string, terms: seq<string>) returns (r: seq<string>)
    ensures r == keywords + Prefixed(team, terms)
  {
    r := keywords;
    for k := 0 to |terms|
      invariant r == keywords + Prefixed(team, terms[..k])
    {
      assert Prefixed(team, terms[..k + 1]) == Prefixed(team, terms[..k]) + [team + " " + terms[k]];
      r := r + [team + " " + terms[k]];
    }
    assert terms[..|terms|] == terms;
  }

  /** The context keywords of each team in turn. */
  function TeamsKeywords(teams: seq<string>): (r: seq<string>)
    ensures |r| == 18 * |teams|
    decreases |teams|
  {
    if teams == [] then [] else TeamsKeywords(teams[..|teams| - 1]) + TeamKeywords(teams[|teams| - 1])
  }

  /** The five keywords about the match as a whole. */
  function MatchKeywords(e: Predictor.Event): seq<string> {
    [e.home, e.away, e.home + " vs " + e.away, e.home + " " + e.away, e.league]
  }

  method GenerateSearchKeywords(e: Predictor.Event) returns (keywords: seq<string>)
    ensures keywords == Keywords(e)
  {
    hide Prefixed, TeamKeywords, TeamsKeywords;
    keywords := [];
    keywords := keywords + [e.home];
    keywords := keywords + [e.away];
    keywords := keywords + [e.home + " vs " + e.away];
    keywords := keywords + [e.home + " " + e.away];
    keywords := keywords + [e.league];
    assert keywords == MatchKeywords(e);
    var teams := [e.home, e.away];
    assert teams[..0] == [];
    TeamsKeywordsSnoc(teams, 0);
    for t := 0 to |teams|
      invariant keywords == MatchKeywords(e) + TeamsKeywords(teams[..t])
    {
      ghost var before := keywords;
      keywords := PushTerms(keywords, teams[t], InjuryTerms);
      keywords := PushTerms(keywords, teams[t], SuspensionTerms);
      keywords := PushTerms(keywords, teams[t], FormTerms);
      PushedTeam(before, teams[t]);
      TeamsKeywordsSnoc(teams, t);
      AppendAssoc(MatchKeywords(e), TeamsKeywords(teams[..t]), TeamKeywords(teams[t]));
    }
    assert teams[..2] == teams;
    TeamsKeywordsSnoc(teams, 1);
    assert teams[..1] == [e.home];
    AppendAssoc(MatchKeywords(e), TeamKeywords(e.home), TeamKeywords(e.away));
  }

  lemma PushedTeam(k: seq<string>, team: string)
    ensures k + Prefixed(team, InjuryTerms) + Prefixed(team, SuspensionTerms) + Prefixed(team, FormTerms) ==
            k + TeamKeywords(team)
  {
    hide Prefixed;
    var a, b, c := Prefixed(team, InjuryTerms), Prefixed(team, SuspensionTerms), Prefixed(team, FormTerms);
    AppendAssoc(k, a, b);
    AppendAssoc(k, a + b, c);
  }

  lemma TeamsKeywordsSnoc(teams: seq<string>, t: nat)
    requires t < |teams|
    ensures TeamsKeywords(teams[..t + 1]) == TeamsKeywords(teams[..t]) + TeamKeywords(teams[t])
    ensures t == 0 ==> TeamsKeywords(teams[..t]) == []
  {
    hide TeamKeywords;
    assert teams[..t + 1][..t] == teams[..t];
  }


  /** The context terms one after the other: injury, suspension, form. */
  const ContextTerms: seq<string> := InjuryTerms + SuspensionTerms + FormTerms

  /** Forty-one keywords: the two teams, the two match forms, the league, then each team
      with each of the eighteen context terms, home first. */
  lemma KeywordsLayout(e: Predictor.Event)
    ensures var k := Keywords(e);
      |k| == 41 &&
      k[..5] == [e.home, e.away, e.home + " vs " + e.away, e.home + " " + e.away, e.league] &&
      (forall j :: 0 <= j < 18 ==> k[5 + j] == e.home + " " + ContextTerms[j]) &&
      (forall j :: 0 <= j < 18 ==> k[23 + j] == e.away + " " + ContextTerms[j])
  {
    TeamKeywordsLayout(e.home);
    TeamKeywordsLayout(e.away);
  }

  lemma TeamKeywordsLayout(team: string)
    ensures |TeamKeywords(team)| == 18
    ensures forall j :: 0 <= j < 18 ==> TeamKeywords(team)[j] == team + " " + ContextTerms[j]
  {
    var k := TeamKeywords(team);
    forall j | 0 <= j < 18 ensures k[j] == team + " " + ContextTerms[j] {
      if j < 6 {
        assert k[j] == Prefixed(team, InjuryTerms)[j];
        assert ContextTerms[j] == InjuryTerms[j];
      } else if j < 12 {
        assert k[j] == Prefixed(team, SuspensionTerms)[j - 6];
        assert ContextTerms[j] == SuspensionTerms[j - 6];
      } else {
        assert k[j] == Prefixed(team, FormTerms)[j - 12];
        assert ContextTerms[j] == FormTerms[j - 12];
      }
    }
  }

  // ---------------------------------------------------------------------------
  // generateSearchQueries

  /** The sixteen search queries of an event. */
  function Queries(e: Predictor.Event): seq<string> {
    [e.home + " vs " + e.away + " preview", e.home + " vs " + e.away + " előzetes",
     e.home + " injury news", e.away + " injury news",
     e.home + " sérülések", e.away + " sérülések",
     e.home + " recent form", e.away + " recent form",
     e.home + " legutóbbi meccsek", e.away + " legutóbbi meccsek",
     e.home + " suspensions", e.away + " suspensions",
     e.home + " eltiltások", e.away + " eltiltások",
     e.league + " " + e.home, e.league + " " + e.away]
  }

  method GenerateSearchQueries(e: Predictor.Event) returns (queries: seq<string>)
    ensures queries == Queries(e)
  {
    queries := [];
    queries := queries + [e.home + " vs " + e.away + " preview"];
    queries := queries + [e.home + " vs " + e.away + " előzetes"];
    queries := queries + [e.home + " injury news"];
    queries := queries + [e.away + " injury news"];
    queries := queries + [e.home + " sérülések"];
    queries := queries + [e.away + " sérülések"];
    queries := queries + [e.home + " recent form"];
    queries := queries + [e.away + " recent form"];
    queries := queries + [e.home + " legutóbbi meccsek"];
    queries := queries + [e.away + " legutóbbi meccsek"];
    queries := queries + [e.home + " suspensions"];
    queries := queries + [e.away + " suspensions"];
    queries := queries + [e.home + " eltiltások"];
    queries := queries + [e.away + " eltiltások"];
    queries := queries + [e.league + " " + e.home];
    queries := queries + [e.league + " " + e.away];
  }

  /** Sixteen queries; with the default limit of five, `discoverSources` searches for the
      two previews and the first three injury queries. */
  lemma QueriesLayout(e: Predictor.Event)
    ensures |Queries(e)| == 16
    ensures Take(Queries(e), 5) == [e.home + " vs " + e.away + " preview", e.home + " vs " + e.away + " előzetes",
                                    e.home + " injury news", e.away + " injury news", e.home + " sérülések"]
  {
  }

  // ---------------------------------------------------------------------------
  // filterSearchResults

  datatype SearchResult = SearchResult(url: string, title: string, snippet: Option<string>, source: Option<string>)

  /** The result's URL as `protocol//host/pathname`, by the URL parser `normalize`, which
      gives `None` where `new URL` throws. */
  function UrlKey(normalize: string -> Option<string>): SearchResult -> Option<string> {
    (r: SearchResult) => normalize(r.url)
  }

  /** The results kept: the first of each normalised URL; `None` counts as seen from the
      start, so results whose URL does not parse are dropped. */
  function Filtered(results: seq<SearchResult>, normalize: string -> Option<string>): seq<SearchResult> {
    Dedup(results, UrlKey(normalize), {None})
  }

  method FilterSearchResults(results: seq<SearchResult>, normalize: string -> Option<string>)
    returns (filtered: seq<SearchResult>)
    ensures filtered == Filtered(results, normalize)
  {
    var key := UrlKey(normalize);
    var seen: set<string> := {};
    filtered := [];
    for i := 0 to |results|
      invariant filtered == Dedup(results[..i], key, {None})
      invariant forall u :: u in seen <==> Some(u) in Keys(filtered, key)
      invariant None !in Keys(filtered, key)
    {
      var result := results[i];
      DedupSnoc(results[..i], result, key, {None});
      assert results[..i + 1] == results[..i] + [result];
      var normalizedUrl := normalize(result.url);
      if normalizedUrl.Some? {
        if normalizedUrl.value !in seen {
          KeysSnoc(filtered, result, key);
          seen := seen + {normalizedUrl.value};
          filtered := filtered + [result];
        }
      }
    }
    assert results[..|results|] == results;
  }

  /** The kept results are among the input, in input order; their URLs all parse and are
      pairwise different; and every result whose URL parses shares it with a kept one. */
  lemma FilteredProperties(results: seq<SearchResult>, normalize: string -> Option<string>)
    ensures var f := Filtered(results, normalize);
      Subsequence(f, results) &&
      (forall i :: 0 <= i < |f| ==> normalize(f[i].url).Some?) &&
      (forall i, j :: 0 <= i < j < |f| ==> normalize(f[i].url) != normalize(f[j].url)) &&
      (forall r :: r in results && normalize(r.url).Some? ==> exists y :: y in f && normalize(y.url) == normalize(r.url))
  {
    var key := UrlKey(normalize);
    DedupSubsequence(results, key, {None});
    DedupDistinct(results, key, {None});
    DedupComplete(results, key, {None});
  }

  // ---------------------------------------------------------------------------
  // rankSearchResults

  datatype ScoredResult = ScoredResult(result: SearchResult, score: nat)

  const SportsDomains: seq<string> :=
    ["espn.com", "bbc.com/sport", "goal.com", "transfermarkt", "nbcsports", "skysports",
     "futballpilota", "origo.hu/sport", "index.hu/sport", "nlc.hu", "444.hu/sport"]

  /** `${result.title} ${result.snippet || ''}`.toLowerCase(). */
  function SearchText(r: SearchResult): string {
    ToLower(r.title + " " + (if r.snippet.Some? then r.snippet.value else ""))
  }

  /** How many of the keywords the text contains, lower-cased. */
  function KeywordHits(text: string, keywords: seq<string>): (n: nat)
    ensures n <= |keywords|
    decreases |keywords|
  {
    if keywords == [] then 0
    else KeywordHits(text, keywords[..|keywords| - 1]) + (if Contains(text, ToLower(keywords[|keywords| - 1])) then 1 else 0)
  }

  /** How many of the domains the URL contains. */
  function DomainHits(url: string, domains: seq<string>): (n: nat)
    ensures n <= |domains|
    decreases |domains|
  {
    if domains == [] then 0
    else DomainHits(url, domains[..|domains| - 1]) + (if Contains(url, domains[|domains| - 1]) then 1 else 0)
  }

  /** One point per keyword found, five per sports domain in the URL. */
  function Score(r: SearchResult, keywords: seq<string>): nat {
    KeywordHits(SearchText(r), keywords) + 5 * DomainHits(r.url, SportsDomains)
  }

  /** The two scoring loops of the `map` callback. */
  method ScoreResult(r: SearchResult, keywords: seq<string>) returns (score: nat)
    ensures score == Score(r, keywords)
  {
    score := 0;
    var text := ToLower(r.title + " " + (if r.snippet.Some? then r.snippet.value else ""));
    for k := 0 to |keywords|
      invariant score == KeywordHits(text, keywords[..k])
    {
      assert keywords[..k + 1][..k] == keywords[..k];
      if Contains(text, ToLower(keywords[k])) {
        score := score + 1;
      }
    }
    assert keywords[..|keywords|] == keywords;
    ghost var hits := score;
    for d := 0 to |SportsDomains|
      invariant score == hits + 5 * DomainHits(r.url, SportsDomains[..d])
    {
      assert SportsDomains[..d + 1][..d] == SportsDomains[..d];
      if Contains(r.url, SportsDomains[d]) {
        score := score + 5;
      }
    }
    assert SportsDomains[..|SportsDomains|] == SportsDomains;
  }

  lemma {:induction false} KeywordHitsAll(text: string, keywords: seq<string>)
    requires forall k :: 0 <= k < |keywords| ==> Contains(text, ToLower(keywords[k]))
    ensures KeywordHits(text, keywords) == |keywords|
    decreases |keywords|
  {
    if keywords != [] {
      KeywordHitsAll(text, keywords[..|keywords| - 1]);
    }
  }

  lemma {:induction false} KeywordHitsNone(text: string, keywords: seq<string>)
    requires forall k :: 0 <= k < |keywords| ==> !Contains(text, ToLower(keywords[k]))
    ensures KeywordHits(text, keywords) == 0
    decreases |keywords|
  {
    if keywords != [] {
      KeywordHitsNone(text, keywords[..|keywords| - 1]);
    }
  }

  /** The score is at most one per keyword plus 55, is at least 5 for a URL on a sports
      domain, and counts every keyword when the text holds them all. */
  lemma ScoreBounds(r: SearchResult, keywords: seq<string>, d: nat)
    requires d < |SportsDomains| && Contains(r.url, SportsDomains[d])
    ensures 5 <= Score(r, keywords) <= |keywords| + 55
  {
    DomainHitsAtLeastOne(r.url, SportsDomains, d);
  }

  lemma {:induction false} DomainHitsAtLeastOne(url: string, domains: seq<string>, d: nat)
    requires d < |domains| && Contains(url, domains[d])
    ensures DomainHits(url, domains) >= 1
    decreases |domains|
  {
    if d < |domains| - 1 {
      DomainHitsAtLeastOne(url, domains[..|domains| - 1], d);
    }
  }

  /** A result with no keyword in its text and no sports domain in its URL scores 0. */
  lemma ScoreZero(r: SearchResult, keywords: seq<string>)
    requires forall k :: 0 <= k < |keywords| ==> !Contains(SearchText(r), ToLower(keywords[k]))
    requires forall d :: 0 <= d < |SportsDomains| ==> !Contains(r.url, SportsDomains[d])
    ensures Score(r, keywords) == 0
  {
    KeywordHitsNone(SearchText(r), keywords);
    DomainHitsNone(r.url, SportsDomains);
  }

  lemma {:induction false} DomainHitsNone(url: string, domains: seq<string>)
    requires forall d :: 0 <= d < |domains| ==> !Contains(url, domains[d])
    ensures DomainHits(url, domains) == 0
    decreases |domains|
  {
    if domains != [] {
      DomainHitsNone(url, domains[..|domains| - 1]);
    }
  }

  /** Every keyword found scores: a text holding them all scores one per keyword. */
  lemma ScoreAllKeywords(r: SearchResult, keywords: seq<string>)
    requires forall k :: 0 <= k < |keywords| ==> Contains(SearchText(r), ToLower(keywords[k]))
    ensures Score(r, keywords) >= |keywords|
  {
    KeywordHitsAll(SearchText(r), keywords);
  }

  function ScoreKey(s: ScoredResult): real {
    s.score as real
  }

  /** `results.map(...)`: each result with its score. */
  function ScoredAll(results: seq<SearchResult>, keywords: seq<string>): (r: seq<ScoredResult>)
    ensures |r| == |results| && forall i :: 0 <= i < |results| ==> r[i] == ScoredResult(results[i], Score(results[i], keywords))
  {
    seq(|results|, i requires 0 <= i < |results| => ScoredResult(results[i], Score(results[i], keywords)))
  }

  /** `scored.sort((a, b) => b.score - a.score)`, a stable sort. */
  function Ranked(results: seq<SearchResult>, keywords: seq<string>): seq<ScoredResult> {
    SortDesc(ScoredAll(results, keywords), ScoreKey)
  }

  method RankSearchResults(results: seq<SearchResult>, keywords: seq<string>) returns (ranked: seq<ScoredResult>)
    ensures ranked == Ranked(results, keywords)
  {
    var scored: seq<ScoredResult> := [];
    for i := 0 to |results|
      invariant scored == ScoredAll(results[..i], keywords)
    {
      var score := ScoreResult(results[i], keywords);
      scored := scored + [ScoredResult(results[i], score)];
    }
    assert results[..|results|] == results;
    ranked := SortDesc(scored, ScoreKey);
  }

  /** The ranking is a permutation of the scored results with non-increasing scores, and
      results with the same score keep their input order. */
  lemma RankedProperties(results: seq<SearchResult>, keywords: seq<string>, v: real)
    ensures var scored := ScoredAll(results, keywords);
      var ranked := Ranked(results, keywords);
      multiset(ranked) == multiset(scored) && SortedDesc(ranked, ScoreKey) &&
      KeyFilter(ranked, ScoreKey, v) == KeyFilter(scored, ScoreKey, v)
  {
    var scored := ScoredAll(results, keywords);
    SortDescPerm(scored, ScoreKey);
    SortDescSorted(scored, ScoreKey);
    SortDescStable(scored, ScoreKey, v);
  }

  // ---------------------------------------------------------------------------
  // discoverSources

  /** The results of each query, one query after the other (`allResults.push(...results)`). */
  function Gathered(queries: seq<string>, perQuery: int, search: (string, int) -> seq<SearchResult>): seq<SearchResult>
    decreases |queries|
  {
    if queries == [] then [] else Gathered(queries[..|queries| - 1], perQuery, search) + search(queries[|queries| - 1], perQuery)
  }

  /** What `discoverSources` returns, with `search` in place of `searchDuckDuckGo` (which
      never throws: it returns an empty list on failure) and `normalize` the URL parser. */
  function Discovered(e: Predictor.Event, maxQueries: Option<int>, resultsPerQuery: Option<int>, maxTotalResults: Option<int>,
                      search: (string, int) -> seq<SearchResult>, normalize: string -> Option<string>): seq<ScoredResult>
  {
    var queries := Take(Queries(e), OrDefault(maxQueries, 5));
    var all := Gathered(queries, OrDefault(resultsPerQuery, 5), search);
    Take(Ranked(Filtered(all, normalize), Keywords(e)), OrDefault(maxTotalResults, 20))
  }

  method DiscoverSources(e: Predictor.Event, maxQueries: Option<int>, resultsPerQuery: Option<int>, maxTotalResults: Option<int>,
                         search: (string, int) -> seq<SearchResult>, normalize: string -> Option<string>)
    returns (sources: seq<ScoredResult>)
    ensures sources == Discovered(e, maxQueries, resultsPerQuery, maxTotalResults, search, normalize)
  {
    var limitQueries := OrDefault(maxQueries, 5);
    var perQuery := OrDefault(resultsPerQuery, 5);
    var limitTotal := OrDefault(maxTotalResults, 20);
    var allQueries := GenerateSearchQueries(e);
    var queries := Take(allQueries, limitQueries);
    var keywords := GenerateSearchKeywords(e);
    var allResults: seq<SearchResult> := [];
    for q := 0 to |queries|
      invariant allResults == Gathered(queries[..q], perQuery, search)
    {
      assert queries[..q + 1][..q] == queries[..q];
      allResults := allResults + search(queries[q], perQuery);
    }
    assert queries[..|queries|] == queries;
    var filtered := FilterSearchResults(allResults, normalize);
    var ranked := RankSearchResults(filtered, keywords);
    sources := Take(ranked, limitTotal);
  }

  /** At most `maxTotalResults` sources (20 by default), in non-increasing score order,
      each a result of one of the first `maxQueries` queries (5 by default). */
  lemma DiscoveredProperties(e: Predictor.Event, maxQueries: Option<int>, resultsPerQuery: Option<int>, maxTotalResults: Option<int>,
                             search: (string, int) -> seq<SearchResult>, normalize: string -> Option<string>)
    ensures var r := Discovered(e, maxQueries, resultsPerQuery, maxTotalResults, search, normalize);
      var all := Gathered(Take(Queries(e), OrDefault(maxQueries, 5)), OrDefault(resultsPerQuery, 5), search);
      (OrDefault(maxTotalResults, 20) >= 0 ==> |r| <= OrDefault(maxTotalResults, 20)) &&
      SortedDesc(r, ScoreKey) &&
      (forall i :: 0 <= i < |r| ==> r[i].result in all)
  {
    var all := Gathered(Take(Queries(e), OrDefault(maxQueries, 5)), OrDefault(resultsPerQuery, 5), search);
    var filtered := Filtered(all, normalize);
    var scored := ScoredAll(filtered, Keywords(e));
    var ranked := Ranked(filtered, Keywords(e));
    SortDescPerm(scored, ScoreKey);
    SortDescSorted(scored, ScoreKey);
    var r := Discovered(e, maxQueries, resultsPerQuery, maxTotalResults, search, normalize);
    assert SortedDesc(r, ScoreKey) by {
      forall i, j | 0 <= i < j < |r| ensures ScoreKey(r[i]) >= ScoreKey(r[j]) {
        assert r[i] == ranked[i] && r[j] == ranked[j];
      }
    }
    DedupMembers(all, UrlKey(normalize), {None});
    forall i | 0 <= i < |r| ensures r[i].result in all {
      assert r[i] in ranked;
      assert r[i] in multiset(scored);
      var k :| 0 <= k < |scored| && scored[k] == r[i];
      assert filtered[k] in filtered;
    }
  }

  lemma DedupMembers<T, K>(xs: seq<T>, key: T -> K, seen: set<K>)
    ensures forall x :: x in Dedup(xs, key, seen) ==> x in xs
  {
    forall x | x in Dedup(xs, key, seen) ensures x in xs {
      var k :| 0 <= k < |Dedup(xs, key, seen)| && Dedup(xs, key, seen)[k] == x;
      DedupFirst(xs, key, seen, k);
    }
  }
}
