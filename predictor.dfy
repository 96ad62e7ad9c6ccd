/** The match-outcome predictor (apps/web/server/utils/predictor.ts): fair probabilities
    from bookmaker odds, a fact-driven heuristic adjustment, the arg-max and confidence
    rules, the weighted ensemble and the strategy routing. The language model's answer is
    a parameter. */
module Predictor {
  import opened Wrappers
  import opened Collections
  import opened Strings
  import opened Outcomes

  /** The fields of a `TippmixEvent` the predictor reads; `odds` holds the decimal odds. */
  datatype Event = Event(id: string, league: string, home: string, away: string, odds: Triple)

  /** A stored fact as the predictor reads it; `entity` may be missing. */
  datatype FactRow = FactRow(factType: string, entity: Option<string>, description: string)

  /** The `method` field of a prediction (named `methodUsed` here). */
  datatype Method = Baseline | FactsBased | Llm | Ensemble

  datatype PredictionResult = PredictionResult(
    outcome: Outcome,
    probabilities: Triple,
    confidence: real,
    rationale: string,
    keyFactors: seq<string>,
    methodUsed: Method)

  /** The language model's JSON answer after `JSON.parse`, before schema validation. */
  datatype LlmPrediction = LlmPrediction(
    outcome: Outcome,
    confidence: real,
    probs: Triple,
    rationale: string,
    keyFactors: seq<string>)

  /** `LLMPredictionSchema`: confidence and each probability lie in [0, 1]; the outcome is
      one of 1, X, 2 by its type. Nothing requires the probabilities to sum to 1. */
  predicate SchemaValid(v: LlmPrediction) {
    0.0 <= v.confidence <= 1.0 && InUnit(v.probs)
  }

  function Min(a: real, b: real): real { if a < b then a else b }
  function Max(a: real, b: real): real { if a > b then a else b }

  // ---------------------------------------------------------------------------
  // Odds to probabilities

  predicate PositiveOdds(odds: Triple) {
    odds.home > 0.0 && odds.draw > 0.0 && odds.away > 0.0
  }

  /** Implied probabilities `1 / odds`, divided by their sum to remove the overround. */
  function OddsToProbs(odds: Triple): (p: Triple)
    requires PositiveOdds(odds)
    ensures Sum(p) == 1.0
    ensures 0.0 < p.home < 1.0 && 0.0 < p.draw < 1.0 && 0.0 < p.away < 1.0
  {
    var ih, id, ia := 1.0 / odds.home, 1.0 / odds.draw, 1.0 / odds.away;
    var total := ih + id + ia;
    DivSum(ih, id, ia, total);
    Triple(ih / total, id / total, ia / total)
  }

  /** Each probability is inversely proportional to its odds: `p·odds` is the same for
      the three outcomes. */
  lemma OddsProportional(odds: Triple)
    requires PositiveOdds(odds)
    ensures var p := OddsToProbs(odds);
      p.home * odds.home == p.draw * odds.draw == p.away * odds.away
  {
    var ih, id, ia := 1.0 / odds.home, 1.0 / odds.draw, 1.0 / odds.away;
    var total := ih + id + ia;
    var p := OddsToProbs(odds);
    assert p == Triple(ih / total, id / total, ia / total);
    ScaledInverse(odds.home, total, p.home);
    ScaledInverse(odds.draw, total, p.draw);
    ScaledInverse(odds.away, total, p.away);
  }

  lemma ScaledInverse(o: real, t: real, q: real)
    requires o > 0.0 && t > 0.0 && q == (1.0 / o) / t
    ensures q * o == 1.0 / t
  {
    DivScale(1.0 / o, t, o);
  }


  lemma DivScale(x: real, t: real, k: real)
    requires t > 0.0
    ensures (x / t) * k == (x * k) / t
  {
  }

  lemma DivSum(a: real, b: real, c: real, t: real)
    requires t > 0.0 && t == a + b + c
    ensures a / t + b / t + c / t == 1.0
  {
    assert a / t + b / t + c / t == (a + b + c) / t;
  }

  // ---------------------------------------------------------------------------
  // Form score

  /** The points of one result in the `switch`: 'W' is 3, 'D' is 1, anything else 0. The
      comparison is case-sensitive. */
  function ResultPoints(c: char): nat {
    if c == 'W' then 3 else if c == 'D' then 1 else 0
  }

  /** `results.map(...).reduce((sum, p) => sum + p, 0)`. */
  function Points(results: seq<char>): (n: nat)
    ensures n <= 3 * |results|
  {
    if results == [] then 0 else ResultPoints(results[0]) + Points(results[1..])
  }

  /** `calculateFormScore`: 0 for no results, otherwise the points over three per result. */
  function FormScore(results: seq<char>): (s: real)
    ensures results == [] ==> s == 0.0
    ensures 0.0 <= s <= 1.0
    ensures results != [] ==> s * (3 * |results|) as real == Points(results) as real
  {
    if |results| == 0 then 0.0 else Points(results) as real / (3 * |results|) as real
  }

  /** Every result a win gives 1; no win or draw gives 0. */
  lemma {:induction false} PointsExtremes(results: seq<char>)
    ensures (forall i :: 0 <= i < |results| ==> results[i] == 'W') ==> Points(results) == 3 * |results|
    ensures (forall i :: 0 <= i < |results| ==> results[i] != 'W' && results[i] != 'D') ==> Points(results) == 0
  {
    if results != [] {
      PointsExtremes(results[1..]);
    }
  }

  /** The adjustment a form score yields, `(score - 0.5) * 0.1`, stays within five points. */
  lemma FormAdjustmentBounds(results: seq<char>)
    ensures -0.05 <= (FormScore(results) - 0.5) * 0.1 <= 0.05
  {
  }

  // ---------------------------------------------------------------------------
  // The form pattern /([WLD])-([WLD])-([WLD])-([WLD])-([WLD])/i

  predicate IsFormLetter(c: char) {
    c == 'W' || c == 'L' || c == 'D' || c == 'w' || c == 'l' || c == 'd'
  }

  /** Five form letters separated by '-' start at `i`. */
  predicate RunAt(s: string, i: nat) {
    i + 9 <= |s| && IsFormLetter(s[i]) && s[i + 1] == '-' && IsFormLetter(s[i + 2]) &&
    s[i + 3] == '-' && IsFormLetter(s[i + 4]) && s[i + 5] == '-' && IsFormLetter(s[i + 6]) &&
    s[i + 7] == '-' && IsFormLetter(s[i + 8])
  }

  /** The five captured letters of a match at `i` (`formMatch.slice(1, 6)`). */
  function RunLetters(s: string, i: nat): seq<char>
    requires i + 9 <= |s|
  {
    [s[i], s[i + 2], s[i + 4], s[i + 6], s[i + 8]]
  }

  /** The leftmost match at or after `from`. */
  function FindRunFrom(s: string, from: nat): (r: Option<nat>)
    ensures r.Some? ==> from <= r.value && RunAt(s, r.value) &&
                        (forall j :: from <= j < r.value ==> !RunAt(s, j))
    ensures r.None? ==> forall j :: from <= j ==> !RunAt(s, j)
    decreases |s| - from
  {
    if from + 9 > |s| then None
    else if RunAt(s, from) then Some(from)
    else FindRunFrom(s, from + 1)
  }

  /** The search from `from` finds the first match at or after it. */
  lemma {:induction false} FindRunFromFirst(s: string, from: nat, p: nat)
    requires from <= p && RunAt(s, p)
    requires forall j :: from <= j < p ==> !RunAt(s, j)
    ensures FindRunFrom(s, from) == Some(p)
    decreases p - from
  {
    if from < p {
      FindRunFromFirst(s, from + 1, p);
    }
  }

  /** `description.match(...)`, as the five captured letters. */
  function FormRun(description: string): (r: Option<seq<char>>)
    ensures r.Some? <==> exists i: nat :: RunAt(description, i)
    ensures r.Some? ==> |r.value| == 5
  {
    match FindRunFrom(description, 0)
    case None => None
    case Some(i) => Some(RunLetters(description, i))
  }

  // ---------------------------------------------------------------------------
  // Fact adjustment

  /** `f.entity?.toLowerCase().includes(team.toLowerCase())`. */
  predicate Mentions(f: FactRow, team: string) {
    f.entity.Some? && Contains(ToLower(f.entity.value), ToLower(team))
  }

  /** `facts.filter(f => mentions team)`. */
  function SideFacts(facts: seq<FactRow>, team: string): (r: seq<FactRow>)
    ensures |r| <= |facts|
    ensures forall k :: 0 <= k < |r| ==> r[k] in facts && Mentions(r[k], team)
  {
    if facts == [] then []
    else (if Mentions(facts[0], team) then [facts[0]] else []) + SideFacts(facts[1..], team)
  }

  /** `facts.filter(f => f.fact_type === t).length`. */
  function CountType(facts: seq<FactRow>, t: string): (n: nat)
    ensures n <= |facts|
  {
    if facts == [] then 0
    else (if facts[0].factType == t then 1 else 0) + CountType(facts[1..], t)
  }

  /** `facts.find(f => f.fact_type === t)`. */
  function FirstOfType(facts: seq<FactRow>, t: string): (r: Option<FactRow>)
    ensures r.Some? ==> r.value in facts && r.value.factType == t
    ensures r.None? ==> forall f :: f in facts ==> f.factType != t
  {
    if facts == [] then None
    else if facts[0].factType == t then Some(facts[0])
    else FirstOfType(facts[1..], t)
  }

  /** What the first form fact of a side contributes. */
  function FormAdjustment(form: Option<FactRow>): (a: real)
    ensures -0.05 <= a <= 0.05
    ensures form.None? ==> a == 0.0
  {
    if form.Some? && form.value.description != [] && FormRun(form.value.description).Some? then
      FormAdjustmentBounds(FormRun(form.value.description).value);
      (FormScore(FormRun(form.value.description).value) - 0.5) * 0.1
    else 0.0
  }

  /** The adjustment of one side before the home advantage: three points off per injury
      and per suspension, the form of the first form fact, and five points off if there
      is a coach change. */
  function SideAdjustment(facts: seq<FactRow>, team: string): real {
    var mine := SideFacts(facts, team);
    - (CountType(mine, "injury") as real) * 0.03
    - (CountType(mine, "suspension") as real) * 0.03
    + FormAdjustment(FirstOfType(mine, "form"))
    - (if FirstOfType(mine, "coach_change").Some? then 0.05 else 0.0)
  }

  /** Home and away clamped to [0.05, 0.90], the draw the rest but at least 0.05, and the
      three divided by their sum. */
  function Renormalise(home: real, away: real): (p: Triple)
    ensures Sum(p) == 1.0
    ensures p.home > 0.0 && p.draw > 0.0 && p.away > 0.0
  {
    var h := Max(0.05, Min(0.90, home));
    var a := Max(0.05, Min(0.90, away));
    var d := Max(0.05, 1.0 - h - a);
    var total := h + d + a;
    DivSum(h, d, a, total);
    Triple(h / total, d / total, a / total)
  }

  /** `adjustProbsForFacts`, accumulating the two adjustments step by step. */
  method AdjustProbsForFacts(baseProbs: Triple, facts: seq<FactRow>, homeTeam: string, awayTeam: string)
    returns (r: Triple)
    ensures r == Renormalise(baseProbs.home + SideAdjustment(facts, homeTeam) + 0.10,
                             baseProbs.away + SideAdjustment(facts, awayTeam))
    ensures Sum(r) == 1.0 && r.home > 0.0 && r.draw > 0.0 && r.away > 0.0
  {
    hide SideFacts, CountType, FirstOfType, FormRun, FormScore, Min;
    var homeAdjust := 0.0;
    var awayAdjust := 0.0;
    var homeFacts := SideFacts(facts, homeTeam);
    var awayFacts := SideFacts(facts, awayTeam);
    homeAdjust := homeAdjust - (CountType(homeFacts, "injury") as real) * 0.03;
    awayAdjust := awayAdjust - (CountType(awayFacts, "injury") as real) * 0.03;
    homeAdjust := homeAdjust - (CountType(homeFacts, "suspension") as real) * 0.03;
    awayAdjust := awayAdjust - (CountType(awayFacts, "suspension") as real) * 0.03;
    var homeForm := FirstOfType(homeFacts, "form");
    var awayForm := FirstOfType(awayFacts, "form");
    if homeForm.Some? && homeForm.value.description != [] {
      var formMatch := FormRun(homeForm.value.description);
      if formMatch.Some? {
        homeAdjust := homeAdjust + (FormScore(formMatch.value) - 0.5) * 0.1;
      }
    }
    if awayForm.Some? && awayForm.value.description != [] {
      var formMatch := FormRun(awayForm.value.description);
      if formMatch.Some? {
        awayAdjust := awayAdjust + (FormScore(formMatch.value) - 0.5) * 0.1;
      }
    }
    if FirstOfType(homeFacts, "coach_change").Some? {
      homeAdjust := homeAdjust - 0.05;
    }
    if FirstOfType(awayFacts, "coach_change").Some? {
      awayAdjust := awayAdjust - 0.05;
    }
    homeAdjust := homeAdjust + 0.10;
    assert homeAdjust == SideAdjustment(facts, homeTeam) + 0.10;
    assert awayAdjust == SideAdjustment(facts, awayTeam);
    var adjustedHome := Max(0.05, Min(0.90, baseProbs.home + homeAdjust));
    var adjustedAway := Max(0.05, Min(0.90, baseProbs.away + awayAdjust));
    var adjustedDraw := Max(0.05, 1.0 - adjustedHome - adjustedAway);
    var total := adjustedHome + adjustedDraw + adjustedAway;
    r := Triple(adjustedHome / total, adjustedDraw / total, adjustedAway / total);
  }

  lemma {:induction false} SideFactsAppend(facts: seq<FactRow>, f: FactRow, team: string)
    ensures SideFacts(facts + [f], team) == SideFacts(facts, team) + (if Mentions(f, team) then [f] else [])
    decreases |facts|
  {
    hide Mentions;
    if facts == [] {
      assert facts + [f] == [f];
      assert [f][1..] == [];
    } else {
      var h := if Mentions(facts[0], team) then [facts[0]] else [];
      var tail := if Mentions(f, team) then [f] else [];
      assert (facts + [f])[0] == facts[0] && (facts + [f])[1..] == facts[1..] + [f];
      SideFactsAppend(facts[1..], f, team);
      calc {
        SideFacts(facts + [f], team);
        h + SideFacts(facts[1..] + [f], team);
        h + (SideFacts(facts[1..], team) + tail);
        { assert h + (SideFacts(facts[1..], team) + tail) == (h + SideFacts(facts[1..], team)) + tail; }
        SideFacts(facts, team) + tail;
      }
    }
  }

  lemma {:induction false} CountTypeAppend(facts: seq<FactRow>, more: seq<FactRow>, t: string)
    ensures CountType(facts + more, t) == CountType(facts, t) + CountType(more, t)
    decreases |facts|
  {
    if facts == [] {
      assert facts + more == more;
    } else {
      assert (facts + more)[1..] == facts[1..] + more;
      CountTypeAppend(facts[1..], more, t);
    }
  }

  lemma {:induction false} FirstOfTypeAppend(facts: seq<FactRow>, more: seq<FactRow>, t: string)
    ensures FirstOfType(facts + more, t) ==
              if FirstOfType(facts, t).Some? then FirstOfType(facts, t) else FirstOfType(more, t)
    decreases |facts|
  {
    if facts == [] {
      assert facts + more == more;
    } else {
      assert (facts + more)[1..] == facts[1..] + more;
      FirstOfTypeAppend(facts[1..], more, t);
    }
  }

  /** A fact that extends the side's list changes that side's adjustment only through
      its own type. */
  lemma SideAdjustmentAppend(facts: seq<FactRow>, f: FactRow, team: string)
    requires Mentions(f, team)
    ensures var before, mine := SideAdjustment(facts, team), SideFacts(facts, team);
      SideAdjustment(facts + [f], team) ==
        if f.factType == "injury" || f.factType == "suspension" then before - 0.03
        else if f.factType == "form" && FirstOfType(mine, "form").None? then before + FormAdjustment(Some(f))
        else if f.factType == "coach_change" && FirstOfType(mine, "coach_change").None? then before - 0.05
        else before
  {
    SideFactsAppend(facts, f, team);
    var mine := SideFacts(facts, team);
    assert SideFacts(facts + [f], team) == mine + [f];
    assert [f][1..] == [];
    var mine' := mine + [f];
    CountTypeAppend(mine, [f], "injury");
    CountTypeAppend(mine, [f], "suspension");
    FirstOfTypeAppend(mine, [f], "form");
    FirstOfTypeAppend(mine, [f], "coach_change");
    var i, i' := CountType(mine, "injury"), CountType(mine', "injury");
    var u, u' := CountType(mine, "suspension"), CountType(mine', "suspension");
    var fa, fa' := FormAdjustment(FirstOfType(mine, "form")), FormAdjustment(FirstOfType(mine', "form"));
    var c, c' := FirstOfType(mine, "coach_change").Some?, FirstOfType(mine', "coach_change").Some?;
    assert SideAdjustment(facts, team) == - (i as real) * 0.03 - (u as real) * 0.03 + fa - (if c then 0.05 else 0.0);
    assert SideAdjustment(facts + [f], team) == - (i' as real) * 0.03 - (u' as real) * 0.03 + fa' - (if c' then 0.05 else 0.0);
    if f.factType == "injury" {
      assert i' == i + 1 && u' == u && fa' == fa && c' == c;
    } else if f.factType == "suspension" {
      assert i' == i && u' == u + 1 && fa' == fa && c' == c;
    } else if f.factType == "form" {
      assert i' == i && u' == u && c' == c;
    } else if f.factType == "coach_change" {
      assert i' == i && u' == u && fa' == fa;
    } else {
      assert i' == i && u' == u && fa' == fa && c' == c;
    }
  }

  /** Each injury or suspension of a side's player costs that side three points. */
  lemma InjuryCostsThreePoints(facts: seq<FactRow>, f: FactRow, team: string)
    requires Mentions(f, team) && (f.factType == "injury" || f.factType == "suspension")
    ensures SideAdjustment(facts + [f], team) == SideAdjustment(facts, team) - 0.03
  {
    SideAdjustmentAppend(facts, f, team);
  }

  /** Only the first form fact and the first coach change of a side count. */
  lemma OnlyFirstFormAndCoachChangeCount(facts: seq<FactRow>, f: FactRow, team: string)
    requires Mentions(f, team) && (f.factType == "form" || f.factType == "coach_change")
    requires FirstOfType(SideFacts(facts, team), f.factType).Some?
    ensures SideAdjustment(facts + [f], team) == SideAdjustment(facts, team)
  {
    SideAdjustmentAppend(facts, f, team);
  }

  /** A fact whose entity does not name the team leaves that side alone. */
  lemma UnrelatedFactIgnored(facts: seq<FactRow>, f: FactRow, team: string)
    requires !Mentions(f, team)
    ensures SideAdjustment(facts + [f], team) == SideAdjustment(facts, team)
  {
    SideFactsAppend(facts, f, team);
    assert SideFacts(facts + [f], team) == SideFacts(facts, team);
  }

  /** Without facts only the home advantage moves the probabilities. */
  lemma NoFactsNoAdjustment(team: string)
    ensures SideAdjustment([], team) == 0.0
  {
  }

  /** When the clamped home and away leave at least 0.05 for the draw, the division by the
      total changes nothing: the result is (h, 1 - h - a, a). */
  lemma RenormaliseIsNoOp(home: real, away: real)
    requires Max(0.05, Min(0.90, home)) + Max(0.05, Min(0.90, away)) <= 0.95
    ensures var h, a := Max(0.05, Min(0.90, home)), Max(0.05, Min(0.90, away));
      Renormalise(home, away) == Triple(h, 1.0 - h - a, a)
  {
  }

  /** The clamped values are the ones divided by the total, so home and away stay in
      [0.05, 0.90] up to that division, and the draw keeps its floor. */
  lemma RenormaliseBounds(home: real, away: real)
    ensures var p, h, a := Renormalise(home, away), Max(0.05, Min(0.90, home)), Max(0.05, Min(0.90, away));
      var total := h + Max(0.05, 1.0 - h - a) + a;
      1.0 <= total && p.home * total == h && p.away * total == a && p.draw * total >= 0.05 &&
      0.05 <= h <= 0.90 && 0.05 <= a <= 0.90
  {
    var h, a := Max(0.05, Min(0.90, home)), Max(0.05, Min(0.90, away));
    var d := Max(0.05, 1.0 - h - a);
    var total := h + d + a;
    ClampBounds(home);
    ClampBounds(away);
    MaxAtLeast(0.05, 1.0 - h - a);
    hide Max, Min;
    var p := Renormalise(home, away);
    assert p.home == h / total && p.draw == d / total && p.away == a / total;
    DivTimes(h, total, p.home);
    DivTimes(d, total, p.draw);
    DivTimes(a, total, p.away);
  }

  lemma ClampBounds(x: real)
    ensures 0.05 <= Max(0.05, Min(0.90, x)) <= 0.90
  {
  }

  lemma MaxAtLeast(x: real, y: real)
    ensures Max(x, y) >= x && Max(x, y) >= y
  {
  }

  lemma DivTimes(x: real, t: real, q: real)
    requires t > 0.0 && q == x / t
    ensures q * t == x
  {
  }

  // ---------------------------------------------------------------------------
  // Arg-max and confidence

  /** The outcome blocks of the three predictors: '1' unless the draw is strictly more
      probable, and '2' only if the away win is strictly above the running maximum. The
      result is the head of the stable ranking. */
  method ArgMax(p: Triple) returns (outcome: Outcome, maxProb: real)
    ensures outcome == Home <==> p.home >= p.draw && p.home >= p.away
    ensures outcome == Draw <==> p.draw > p.home && p.draw >= p.away
    ensures outcome == Away <==> p.away > p.home && p.away > p.draw
    ensures maxProb == Get(p, outcome)
    ensures forall o :: Get(p, o) <= maxProb
    ensures outcome == Ranked(p)[0]
  {
    RankedIsByCases(p);
    outcome := Home;
    maxProb := p.home;
    if p.draw > maxProb {
      outcome := Draw;
      maxProb := p.draw;
    }
    if p.away > maxProb {
      outcome := Away;
      maxProb := p.away;
    }
  }

  /** The head of the ranking is the most probable outcome. */
  lemma TopRankedIsMostProbable(p: Triple)
    ensures forall o :: Get(p, o) <= Get(p, Ranked(p)[0])
  {
    RankedIsByCases(p);
  }

  /** A base confidence plus the margin, capped at 1. */
  function MarginConfidence(base: real, p: Triple): (c: real)
    requires 0.0 <= base <= 1.0
    ensures base <= c <= 1.0
    ensures c == 1.0 || c == base + Margin(p)
  {
    Min(base + Margin(p), 1.0)
  }

  // ---------------------------------------------------------------------------
  // Baseline

  const BaselineFactors: seq<string> := ["Bookmaker odds", "Market consensus", "No additional context"]

  function OutcomeWords(o: Outcome): string {
    match o
    case Home => "home win"
    case Draw => "draw"
    case Away => "away win"
  }

  /** The baseline rationale; `toFixed1` renders `x.toFixed(1)`. */
  function BaselineRationale(o: Outcome, maxProb: real, toFixed1: real -> string): string {
    "Market odds suggest " + OutcomeWords(o) + " with " + toFixed1(maxProb * 100.0) +
    "% implied probability. This is a baseline prediction based purely on bookmaker odds."
  }

  /** `predictBaseline`: the fair probabilities of the odds and their most probable outcome. */
  function BaselinePrediction(event: Event, toFixed1: real -> string): (r: PredictionResult)
    requires PositiveOdds(event.odds)
    ensures r.probabilities == OddsToProbs(event.odds) && Sum(r.probabilities) == 1.0
    ensures forall o :: Get(r.probabilities, o) <= Get(r.probabilities, r.outcome)
    ensures 0.5 <= r.confidence <= 1.0
    ensures r.keyFactors == BaselineFactors && r.methodUsed == Baseline
  {
    var p := OddsToProbs(event.odds);
    var o := Ranked(p)[0];
    TopRankedIsMostProbable(p);
    PredictionResult(o, p, MarginConfidence(0.5, p), BaselineRationale(o, Get(p, o), toFixed1),
                     BaselineFactors, Baseline)
  }

  method PredictBaseline(event: Event, toFixed1: real -> string) returns (r: PredictionResult)
    requires PositiveOdds(event.odds)
    ensures r == BaselinePrediction(event, toFixed1)
  {
    var probs := OddsToProbs(event.odds);
    var outcome, maxProb := ArgMax(probs);
    var margin := Margin(probs);
    var confidence := Min(0.5 + margin, 1.0);
    r := PredictionResult(outcome, probs, confidence, BaselineRationale(outcome, maxProb, toFixed1),
                          BaselineFactors, Baseline);
  }

  // ---------------------------------------------------------------------------
  // Facts

  const HomeAdvantageFactor: string := "Home advantage factor applied"

  /** The key factors of `predictWithFacts`: the injury and suspension counts over ALL
      facts (not only those naming a team), then the home advantage. */
  function FactsKeyFactors(facts: seq<FactRow>): (r: seq<string>)
    ensures 1 <= |r| <= 3 && r[|r| - 1] == HomeAdvantageFactor
    ensures |r| == 1 + (if CountType(facts, "injury") > 0 then 1 else 0) + (if CountType(facts, "suspension") > 0 then 1 else 0)
  {
    var injuries, suspensions := CountType(facts, "injury"), CountType(facts, "suspension");
    (if injuries > 0 then [NatToString(injuries) + " injury/injuries affecting lineup"] else []) +
    (if suspensions > 0 then [NatToString(suspensions) + " player(s) suspended"] else []) +
    [HomeAdvantageFactor]
  }

  function FactsRationale(event: Event, facts: seq<FactRow>, o: Outcome, firstFactor: string): string {
    "Based on " + NatToString(|facts|) + " extracted facts, the adjusted probabilities favor " +
    (if o == Home then event.home else if o == Away then event.away else "a draw") + ". " +
    firstFactor + ". Odds baseline adjusted by recent form and team news."
  }

  /** The adjusted probabilities of the event for the given facts. */
  function FactsProbs(event: Event, facts: seq<FactRow>): (p: Triple)
    requires PositiveOdds(event.odds)
    ensures Sum(p) == 1.0 && p.home > 0.0 && p.draw > 0.0 && p.away > 0.0
  {
    Renormalise(OddsToProbs(event.odds).home + SideAdjustment(facts, event.home) + 0.10,
                OddsToProbs(event.odds).away + SideAdjustment(facts, event.away))
  }

  /** `predictWithFacts`. */
  function FactsPrediction(event: Event, facts: seq<FactRow>): (r: PredictionResult)
    requires PositiveOdds(event.odds)
    ensures r.probabilities == FactsProbs(event, facts) && Sum(r.probabilities) == 1.0
    ensures forall o :: Get(r.probabilities, o) <= Get(r.probabilities, r.outcome)
    ensures 0.6 <= r.confidence <= 1.0
    ensures r.keyFactors == FactsKeyFactors(facts) && r.methodUsed == FactsBased
  {
    var p := FactsProbs(event, facts);
    var o := Ranked(p)[0];
    TopRankedIsMostProbable(p);
    var factors := FactsKeyFactors(facts);
    PredictionResult(o, p, MarginConfidence(0.6, p), FactsRationale(event, facts, o, factors[0]),
                     factors, FactsBased)
  }

  /** The `keyFactors.push(...)` steps of `predictWithFacts`. */
  method CollectKeyFactors(facts: seq<FactRow>) returns (keyFactors: seq<string>)
    ensures keyFactors == FactsKeyFactors(facts)
  {
    keyFactors := [];
    var injuries := CountType(facts, "injury");
    var suspensions := CountType(facts, "suspension");
    if injuries > 0 {
      keyFactors := keyFactors + [NatToString(injuries) + " injury/injuries affecting lineup"];
    }
    if suspensions > 0 {
      keyFactors := keyFactors + [NatToString(suspensions) + " player(s) suspended"];
    }
    keyFactors := keyFactors + [HomeAdvantageFactor];
  }

  method PredictWithFacts(event: Event, facts: seq<FactRow>) returns (r: PredictionResult)
    requires PositiveOdds(event.odds)
    ensures r == FactsPrediction(event, facts)
  {
    hide OddsToProbs, Ranked, SideAdjustment, Renormalise, FactsRationale, Margin;
    var baseProbs := OddsToProbs(event.odds);
    var adjustedProbs := AdjustProbsForFacts(baseProbs, facts, event.home, event.away);
    var outcome, maxProb := ArgMax(adjustedProbs);
    var margin := Margin(adjustedProbs);
    var confidence := Min(0.6 + margin, 1.0);
    var keyFactors := CollectKeyFactors(facts);
    assert adjustedProbs == FactsProbs(event, facts);
    assert confidence == MarginConfidence(0.6, FactsProbs(event, facts));
    r := PredictionResult(outcome, adjustedProbs, confidence,
                          FactsRationale(event, facts, outcome, keyFactors[0]), keyFactors, FactsBased);
  }

  // ---------------------------------------------------------------------------
  // Language model

  /** `predictWithLLM`: the validated answer of the model, or, when the call, the JSON or the
      schema fails (`llm` is `None` or out of range), the facts-based prediction. */
  function LlmResult(event: Event, facts: seq<FactRow>, llm: Option<LlmPrediction>): (r: PredictionResult)
    requires PositiveOdds(event.odds)
    ensures r.methodUsed == Llm <==> llm.Some? && SchemaValid(llm.value)
    ensures r.methodUsed != Llm ==> r == FactsPrediction(event, facts)
    ensures r.methodUsed == Llm ==> InUnit(r.probabilities) && 0.0 <= r.confidence <= 1.0
  {
    if llm.Some? && SchemaValid(llm.value) then
      var v := llm.value;
      PredictionResult(v.outcome, v.probs, v.confidence, v.rationale, v.keyFactors, Llm)
    else FactsPrediction(event, facts)
  }

  method PredictWithLlm(event: Event, facts: seq<FactRow>, llm: Option<LlmPrediction>) returns (r: PredictionResult)
    requires PositiveOdds(event.odds)
    ensures r == LlmResult(event, facts, llm)
  {
    if llm.Some? && SchemaValid(llm.value) {
      var validated := llm.value;
      r := PredictionResult(validated.outcome, validated.probs, validated.confidence,
                            validated.rationale, validated.keyFactors, Llm);
    } else {
      r := PredictWithFacts(event, facts);
    }
  }

  /** A schema-valid answer whose probabilities do not sum to 1 is taken as it is. */
  lemma LlmSumNotChecked(event: Event, facts: seq<FactRow>)
    requires PositiveOdds(event.odds)
    ensures var v := LlmPrediction(Draw, 0.5, Triple(1.0, 1.0, 1.0), "", []);
      LlmResult(event, facts, Some(v)).methodUsed == Llm &&
      Sum(LlmResult(event, facts, Some(v)).probabilities) == 3.0
  {
  }

  // ---------------------------------------------------------------------------
  // Ensemble

  /** The weighted blend 0.3 baseline + 0.3 facts + 0.4 model. */
  function Blend(b: Triple, f: Triple, l: Triple): (r: Triple)
    ensures Sum(r) == 0.3 * Sum(b) + 0.3 * Sum(f) + 0.4 * Sum(l)
  {
    Triple(b.home * 0.3 + f.home * 0.3 + l.home * 0.4,
           b.draw * 0.3 + f.draw * 0.3 + l.draw * 0.4,
           b.away * 0.3 + f.away * 0.3 + l.away * 0.4)
  }

  /** With two distributions, the blend is a distribution exactly when the third input is. */
  lemma BlendSumsToOne(b: Triple, f: Triple, l: Triple)
    requires Sum(b) == 1.0 && Sum(f) == 1.0
    ensures Sum(Blend(b, f, l)) == 1.0 <==> Sum(l) == 1.0
  {
  }

  const EnsemblePreamble: string :=
    "Ensemble prediction combining odds analysis (30%), facts-based adjustment (30%), and AI analysis (40%). "

  function EnsembleRationale(llmRationale: string): string {
    EnsemblePreamble + JsSubstring(llmRationale, 0, 150) + "..."
  }

  /** `Array.from(new Set(all)).slice(0, 5)`. */
  function UniqueFactors(all: seq<string>): (r: seq<string>)
    ensures |r| <= 5
    ensures forall i, j :: 0 <= i < j < |r| ==> r[i] != r[j]
    ensures forall k :: 0 <= k < |r| ==> r[k] in all
  {
    var u := Dedup(all, (x: string) => x, {});
    DedupDistinct(all, (x: string) => x, {});
    forall k | 0 <= k < |u| ensures u[k] in all {
      DedupFirst(all, (x: string) => x, {}, k);
    }
    Take(u, 5)
  }

  /** The baseline's three factors always lead the ensemble's key factors. */
  lemma UniqueFactorsStartWithBaseline(rest: seq<string>)
    ensures |UniqueFactors(BaselineFactors + rest)| >= 3
    ensures UniqueFactors(BaselineFactors + rest)[..3] == BaselineFactors
  {
    var id := (x: string) => x;
    var all := BaselineFactors + rest;
    var a, b, c := BaselineFactors[0], BaselineFactors[1], BaselineFactors[2];
    assert all[1..] == [b, c] + rest && all[1..][1..] == [c] + rest && all[1..][1..][1..] == rest;
    assert a != b && a != c && b != c by {
      assert |a| == 14 && |b| == 16 && |c| == 21;
    }
    assert all[0] == a && ([b, c] + rest)[0] == b && ([c] + rest)[0] == c;
    assert Dedup(all, id, {}) == [a] + Dedup([b, c] + rest, id, {} + {a});
    assert {} + {a} == {a} && {a} + {b} == {a, b} && {a, b} + {c} == {a, b, c};
    assert Dedup([b, c] + rest, id, {a}) == [b] + Dedup([c] + rest, id, {a} + {b});
    assert Dedup([c] + rest, id, {a, b}) == [c] + Dedup(rest, id, {a, b} + {c});
  }

  /** `predictEnsemble` on the three predictions it awaits: the blend of their
      probabilities, the most probable outcome of the blend, the weighted confidence and
      the first five distinct key factors. */
  function EnsembleOf(b: PredictionResult, f: PredictionResult, l: PredictionResult): (r: PredictionResult)
    ensures forall o :: Get(r.probabilities, o) == 0.3 * Get(b.probabilities, o) + 0.3 * Get(f.probabilities, o) + 0.4 * Get(l.probabilities, o)
    ensures r.confidence == 0.3 * b.confidence + 0.3 * f.confidence + 0.4 * l.confidence
    ensures |r.keyFactors| <= 5
    ensures forall i, j :: 0 <= i < j < |r.keyFactors| ==> r.keyFactors[i] != r.keyFactors[j]
    ensures forall k :: 0 <= k < |r.keyFactors| ==> r.keyFactors[k] in b.keyFactors + f.keyFactors + l.keyFactors
    ensures r.methodUsed == Ensemble
  {
    var p := Blend(b.probabilities, f.probabilities, l.probabilities);
    PredictionResult(Ranked(p)[0], p, b.confidence * 0.3 + f.confidence * 0.3 + l.confidence * 0.4,
                     EnsembleRationale(l.rationale), UniqueFactors(b.keyFactors + f.keyFactors + l.keyFactors),
                     Ensemble)
  }

  /** With baseline and facts probabilities summing to 1 and the baseline's factors, the
      ensemble sums to 1 exactly when the model's answer does, names its most probable
      outcome, and leads its key factors with the baseline's three. */
  lemma EnsembleProperties(b: PredictionResult, f: PredictionResult, l: PredictionResult)
    requires Sum(b.probabilities) == 1.0 && Sum(f.probabilities) == 1.0 && b.keyFactors == BaselineFactors
    ensures var r := EnsembleOf(b, f, l);
      (Sum(r.probabilities) == 1.0 <==> Sum(l.probabilities) == 1.0) &&
      (forall o :: Get(r.probabilities, o) <= Get(r.probabilities, r.outcome)) &&
      |r.keyFactors| >= 3 && r.keyFactors[..3] == BaselineFactors
  {
    hide UniqueFactors, EnsembleRationale;
    var p := Blend(b.probabilities, f.probabilities, l.probabilities);
    BlendSumsToOne(b.probabilities, f.probabilities, l.probabilities);
    TopRankedIsMostProbable(p);
    AppendAssoc(b.keyFactors, f.keyFactors, l.keyFactors);
    UniqueFactorsStartWithBaseline(f.keyFactors + l.keyFactors);
  }

  /** `predictEnsemble`: the ensemble of the baseline, facts and model predictions of the
      event. */
  function EnsemblePrediction(event: Event, facts: seq<FactRow>, llm: Option<LlmPrediction>, toFixed1: real -> string)
    : PredictionResult
    requires PositiveOdds(event.odds)
  {
    EnsembleOf(BaselinePrediction(event, toFixed1), FactsPrediction(event, facts), LlmResult(event, facts, llm))
  }

  method PredictEnsemble(event: Event, facts: seq<FactRow>, llm: Option<LlmPrediction>, toFixed1: real -> string)
    returns (r: PredictionResult)
    requires PositiveOdds(event.odds)
    ensures r == EnsemblePrediction(event, facts, llm, toFixed1)
  {
    hide BaselinePrediction, FactsPrediction, LlmResult, UniqueFactors, Ranked, EnsembleRationale, OddsToProbs, FactsProbs;
    var baseline := PredictBaseline(event, toFixed1);
    var factsBased := PredictWithFacts(event, facts);
    var llmBased := PredictWithLlm(event, facts, llm);
    var ensembleProbs := Triple(
      baseline.probabilities.home * 0.3 + factsBased.probabilities.home * 0.3 + llmBased.probabilities.home * 0.4,
      baseline.probabilities.draw * 0.3 + factsBased.probabilities.draw * 0.3 + llmBased.probabilities.draw * 0.4,
      baseline.probabilities.away * 0.3 + factsBased.probabilities.away * 0.3 + llmBased.probabilities.away * 0.4);
    var outcome, maxProb := ArgMax(ensembleProbs);
    var avgConfidence := baseline.confidence * 0.3 + factsBased.confidence * 0.3 + llmBased.confidence * 0.4;
    var allFactors := baseline.keyFactors + factsBased.keyFactors + llmBased.keyFactors;
    r := PredictionResult(outcome, ensembleProbs, avgConfidence, EnsembleRationale(llmBased.rationale),
                          UniqueFactors(allFactors), Ensemble);
  }

  // ---------------------------------------------------------------------------
  // Routing

  /** `generatePrediction`: the strategy name arrives as any string from the API body
      (`None` when the option is missing). `options.strategy || 'ensemble'` turns a missing
      or empty name into the ensemble, and the `default` branch of the `switch` gives an
      unknown name the baseline. */
  method GeneratePrediction(event: Event, facts: seq<FactRow>, strategy: Option<string>, llm: Option<LlmPrediction>,
                            toFixed1: real -> string)
    returns (r: PredictionResult)
    requires PositiveOdds(event.odds)
    ensures strategy == Some("baseline") ==> r == BaselinePrediction(event, toFixed1)
    ensures strategy == Some("facts") ==> r == FactsPrediction(event, facts)
    ensures strategy == Some("llm") ==> r == LlmResult(event, facts, llm)
    ensures strategy.None? || strategy == Some("") || strategy == Some("ensemble") ==>
      r == EnsemblePrediction(event, facts, llm, toFixed1)
    ensures strategy.Some? && strategy.value !in {"", "baseline", "facts", "llm", "ensemble"} ==>
      r == BaselinePrediction(event, toFixed1)
  {
    hide *;
    var chosen := if strategy.None? || strategy.value == "" then "ensemble" else strategy.value;
    if chosen == "baseline" {
      r := PredictBaseline(event, toFixed1);
    } else if chosen == "facts" {
      r := PredictWithFacts(event, facts);
    } else if chosen == "llm" {
      r := PredictWithLlm(event, facts, llm);
    } else if chosen == "ensemble" {
      r := PredictEnsemble(event, facts, llm, toFixed1);
    } else {
      r := PredictBaseline(event, toFixed1);
    }
  }
}
