/** The betting-slip generator (apps/web/server/utils/variants.ts): uncertainty scores,
    expected value, the four ticket strategies and coverage counting. */
module Variants {
  import opened Collections
  import opened Strings
  import opened Outcomes
  import opened Wrappers

  /** A match with its prediction and its decimal odds. */
  datatype Prediction = Prediction(outcome: Outcome, probabilities: Triple, confidence: real)
  datatype EventSelection = EventSelection(eventId: string, home: string, away: string,
                                           prediction: Prediction, odds: Triple)

  datatype Pick = Pick(eventId: string, home: string, away: string, outcome: Outcome, odds: real, confidence: real)

  datatype Ticket = Ticket(id: string, picks: seq<Pick>, totalOdds: real, stake: real,
                           expectedReturn: real, expectedValue: real)

  datatype Strategy = Single | Cover2 | CoverUncertain | BudgetOptimized

  datatype Coverage = Coverage(totalCombinations: nat, coveredCombinations: nat, coveragePercent: real)

  datatype VariantsResult = VariantsResult(tickets: seq<Ticket>, totalCost: real, coverage: Coverage, strategy: Strategy)

  function Max(a: real, b: real): real { if a > b then a else b }

  // ---------------------------------------------------------------------------
  // Uncertainty

  /** Shannon entropy of the three probabilities, each floored at 0.001, divided by the
      literal 1.585; `log2` is `Math.log2`. */
  function EntropyUncertainty(p: Triple, log2: real -> real): real {
    var p1, px, p2 := Max(p.home, 0.001), Max(p.draw, 0.001), Max(p.away, 0.001);
    -(p1 * log2(p1) + px * log2(px) + p2 * log2(p2)) / 1.585
  }

  /** The entropy score does not depend on which outcome carries which probability. */
  lemma EntropySymmetric(p: Triple, log2: real -> real)
    ensures EntropyUncertainty(p, log2) == EntropyUncertainty(Triple(p.draw, p.home, p.away), log2)
    ensures EntropyUncertainty(p, log2) == EntropyUncertainty(Triple(p.away, p.draw, p.home), log2)
  {
  }

  /** When `log2` is non-positive on (0, 1], as the logarithm is, the entropy score of
      probabilities in [0, 1] is non-negative. */
  lemma EntropyNonNegative(p: Triple, log2: real -> real)
    requires InUnit(p)
    requires forall x :: 0.0 < x <= 1.0 ==> log2(x) <= 0.0
    ensures EntropyUncertainty(p, log2) >= 0.0
  {
    var p1, px, p2 := Max(p.home, 0.001), Max(p.draw, 0.001), Max(p.away, 0.001);
    assert p1 * log2(p1) <= 0.0 && px * log2(px) <= 0.0 && p2 * log2(p2) <= 0.0 by {
      assert log2(p1) <= 0.0 && log2(px) <= 0.0 && log2(p2) <= 0.0;
      NonPositiveProduct(p1, log2(p1));
      NonPositiveProduct(px, log2(px));
      NonPositiveProduct(p2, log2(p2));
    }
  }

  lemma NonPositiveProduct(x: real, y: real)
    requires x >= 0.0 && y <= 0.0
    ensures x * y <= 0.0
  {
  }

  /** `1 - (sorted[0] - sorted[1])`. */
  function MarginUncertainty(p: Triple): (u: real)
    ensures u <= 1.0
    ensures InUnit(p) ==> 0.0 <= u
  {
    MarginInUnit(p);
    1.0 - Margin(p)
  }

  /** The mean of the two scores. */
  function CombinedUncertainty(p: Triple, log2: real -> real): (u: real)
    ensures 2.0 * u == EntropyUncertainty(p, log2) + MarginUncertainty(p)
  {
    (EntropyUncertainty(p, log2) + MarginUncertainty(p)) / 2.0
  }

  // ---------------------------------------------------------------------------
  // Picks, odds and expected value

  /** `getOutcomeOdds`. */
  function OutcomeOdds(e: EventSelection, o: Outcome): real {
    Get(e.odds, o)
  }

  /** The pick of outcome `o` on event `e`. */
  function PickFor(e: EventSelection, o: Outcome): Pick {
    Pick(e.eventId, e.home, e.away, o, OutcomeOdds(e, o), e.prediction.confidence)
  }

  /** `events.map(...)` at each event's predicted outcome. */
  function PredictedPicks(events: seq<EventSelection>): (r: seq<Pick>)
    ensures |r| == |events|
    ensures forall i :: 0 <= i < |events| ==> r[i] == PickFor(events[i], events[i].prediction.outcome)
  {
    seq(|events|, i requires 0 <= i < |events| => PickFor(events[i], events[i].prediction.outcome))
  }

  /** `picks.reduce((acc, pick) => acc * pick.odds, 1)`. */
  function TotalOdds(picks: seq<Pick>): real
    decreases |picks|
  {
    if picks == [] then 1.0 else TotalOdds(picks[..|picks| - 1]) * picks[|picks| - 1].odds
  }

  /** `events.find(e => e.eventId === id)`. */
  function FindEvent(events: seq<EventSelection>, id: string): (r: Option<EventSelection>)
    ensures r.Some? ==> r.value in events && r.value.eventId == id
    ensures r.None? ==> forall e :: e in events ==> e.eventId != id
  {
    if events == [] then None
    else if events[0].eventId == id then Some(events[0])
    else FindEvent(events[1..], id)
  }

  /** The factor one pick contributes: the probability of its outcome for the first event
      with its id, and 1 when no event has it (`continue`). */
  function PickFactor(pick: Pick, events: seq<EventSelection>): real {
    match FindEvent(events, pick.eventId)
    case None => 1.0
    case Some(e) => Get(e.prediction.probabilities, pick.outcome)
  }

  /** The probability that all picks are right. */
  function CombinedProbability(picks: seq<Pick>, events: seq<EventSelection>): real
    decreases |picks|
  {
    if picks == [] then 1.0
    else CombinedProbability(picks[..|picks| - 1], events) * PickFactor(picks[|picks| - 1], events)
  }

  /** `(combinedProbability * payout) - stake` with `payout = stake * totalOdds`. */
  function ExpectedValue(t: Ticket, events: seq<EventSelection>): real {
    CombinedProbability(t.picks, events) * (t.stake * t.totalOdds) - t.stake
  }

  /** With probabilities in [0, 1] the combined probability is in [0, 1] too. */
  lemma {:induction false} CombinedProbabilityInUnit(picks: seq<Pick>, events: seq<EventSelection>)
    requires forall e :: e in events ==> InUnit(e.prediction.probabilities)
    ensures 0.0 <= CombinedProbability(picks, events) <= 1.0
    decreases |picks|
  {
    if picks != [] {
      var init, last := picks[..|picks| - 1], picks[|picks| - 1];
      CombinedProbabilityInUnit(init, events);
      var c, f := CombinedProbability(init, events), PickFactor(last, events);
      assert 0.0 <= f <= 1.0;
      UnitProduct(c, f);
    }
  }

  lemma UnitProduct(x: real, y: real)
    requires 0.0 <= x <= 1.0 && 0.0 <= y <= 1.0
    ensures 0.0 <= x * y <= 1.0
  {
    NonNegativeProduct(x, y);
    NonNegativeProduct(x, 1.0 - y);
  }

  lemma NonNegativeProduct(x: real, y: real)
    requires 0.0 <= x && 0.0 <= y
    ensures x * y >= 0.0
  {
  }

  /** A pick of an event that is not in the list leaves the combined probability alone. */
  lemma UnknownPickIsNeutral(picks: seq<Pick>, pick: Pick, events: seq<EventSelection>)
    requires forall e :: e in events ==> e.eventId != pick.eventId
    ensures CombinedProbability(picks + [pick], events) == CombinedProbability(picks, events)
  {
    assert (picks + [pick])[..|picks|] == picks;
  }

  /** The expected value of a ticket with a positive stake and probabilities in [0, 1]
      lies between losing the stake and winning the whole payout minus the stake. */
  lemma ExpectedValueBounds(t: Ticket, events: seq<EventSelection>)
    requires forall e :: e in events ==> InUnit(e.prediction.probabilities)
    requires t.stake >= 0.0 && t.totalOdds >= 0.0
    ensures -t.stake <= ExpectedValue(t, events) <= t.stake * t.totalOdds - t.stake
  {
    CombinedProbabilityInUnit(t.picks, events);
    var c := CombinedProbability(t.picks, events);
    var pay := t.stake * t.totalOdds;
    NonNegativeProduct(t.stake, t.totalOdds);
    UnitScale(c, pay);
    assert ExpectedValue(t, events) == c * pay - t.stake;
  }

  lemma UnitScale(c: real, x: real)
    requires 0.0 <= c <= 1.0 && x >= 0.0
    ensures 0.0 <= c * x <= x
  {
    NonNegativeProduct(c, x);
    NonNegativeProduct(1.0 - c, x);
  }

  /** `calculateExpectedValue`: the loop multiplies the factors of the picks in order. */
  method CalculateExpectedValue(variant: Ticket, events: seq<EventSelection>) returns (ev: real)
    ensures ev == ExpectedValue(variant, events)
  {
    var combinedProbability := 1.0;
    var i := 0;
    while i < |variant.picks|
      invariant 0 <= i <= |variant.picks|
      invariant combinedProbability == CombinedProbability(variant.picks[..i], events)
    {
      var pick := variant.picks[i];
      var event := FindEvent(events, pick.eventId);
      assert variant.picks[..i + 1][..i] == variant.picks[..i];
      if event.Some? {
        var pickProbability := Get(event.value.prediction.probabilities, pick.outcome);
        combinedProbability := combinedProbability * pickProbability;
      }
      i := i + 1;
    }
    assert variant.picks[..i] == variant.picks;
    var payout := variant.stake * variant.totalOdds;
    ev := (combinedProbability * payout) - variant.stake;
  }

  /** A ticket whose derived fields agree with its picks and stake. */
  predicate Consistent(t: Ticket, events: seq<EventSelection>) {
    t.totalOdds == TotalOdds(t.picks) &&
    t.expectedReturn == t.stake * t.totalOdds &&
    t.expectedValue == ExpectedValue(t, events)
  }

  /** The ticket with these picks and this stake, its other fields derived. */
  function BuildTicket(id: string, picks: seq<Pick>, stake: real, events: seq<EventSelection>): (t: Ticket)
    ensures t.id == id && t.picks == picks && t.stake == stake
    ensures Consistent(t, events)
  {
    var totalOdds := TotalOdds(picks);
    var t := Ticket(id, picks, totalOdds, stake, stake * totalOdds, 0.0);
    var ev := ExpectedValue(t, events);
    assert ExpectedValue(t.(expectedValue := ev), events) == ev;
    t.(expectedValue := ev)
  }

  /** A ticket object built as the generators do: odds product, return, then its EV. */
  method MakeTicket(id: string, picks: seq<Pick>, stake: real, events: seq<EventSelection>) returns (t: Ticket)
    ensures t == BuildTicket(id, picks, stake, events)
  {
    var totalOdds := TotalOdds(picks);
    t := Ticket(id, picks, totalOdds, stake, stake * totalOdds, 0.0);
    var ev := CalculateExpectedValue(t, events);
    ghost var before := t;
    t := t.(expectedValue := ev);
    assert ExpectedValue(t, events) == ExpectedValue(before, events);
  }

  // ---------------------------------------------------------------------------
  // Strategy 1: single

  function SingleTickets(events: seq<EventSelection>, budget: real): (r: seq<Ticket>)
    ensures |r| == 1 && r[0].id == "single-1" && r[0].stake == budget
    ensures r[0].picks == PredictedPicks(events) && Consistent(r[0], events)
  {
    [BuildTicket("single-1", PredictedPicks(events), budget, events)]
  }

  /** `generateSingleTicket`: one ticket staking the whole budget on every predicted outcome. */
  method GenerateSingleTicket(events: seq<EventSelection>, budget: real) returns (tickets: seq<Ticket>)
    ensures tickets == SingleTickets(events, budget)
  {
    var picks := PredictedPicks(events);
    var ticket := MakeTicket("single-1", picks, budget, events);
    tickets := [ticket];
  }

  // ---------------------------------------------------------------------------
  // Strategy 2: cover the two most probable outcomes of the most certain match

  function ByConfidence(e: EventSelection): real {
    e.prediction.confidence
  }

  /** The events, most confident first (stable). */
  function ByConfidenceDesc(events: seq<EventSelection>): (r: seq<EventSelection>)
    ensures |r| == |events| && multiset(r) == multiset(events)
    ensures SortedDesc(r, ByConfidence)
  {
    SortDescPerm(events, ByConfidence);
    SortDescSorted(events, ByConfidence);
    SortDesc(events, ByConfidence)
  }

  /** The picks of the `i`-th cover-2 ticket: the covered event at its `i`-th most probable
      outcome, then the other events at their predictions, in sorted order. */
  function Cover2Picks(events: seq<EventSelection>, i: nat): (r: seq<Pick>)
    requires |events| > 0 && i < 2
    ensures |r| == |events|
  {
    var sorted := ByConfidenceDesc(events);
    var cover := sorted[0];
    [PickFor(cover, TopTwo(cover.prediction.probabilities)[i])] + PredictedPicks(sorted[1..])
  }

  function Cover2Ticket(events: seq<EventSelection>, budget: real, i: nat): Ticket
    requires |events| > 0 && i < 2
  {
    BuildTicket("cover2-" + NatToString(i + 1), Cover2Picks(events, i), budget / 2.0, events)
  }

  /** `generateCover2Tickets`; `maxVariants` is not used, so there are always two tickets.
      An empty list has no event to cover (the code would fail on `undefined`). */
  method GenerateCover2Tickets(events: seq<EventSelection>, budget: real, maxVariants: real) returns (variants: seq<Ticket>)
    requires |events| > 0
    ensures |variants| == 2
    ensures forall i :: 0 <= i < 2 ==> variants[i] == Cover2Ticket(events, budget, i)
  {
    var sortedEvents := ByConfidenceDesc(events);
    var eventToCover := sortedEvents[0];
    var otherEvents := sortedEvents[1..];
    var top2Outcomes := TopTwo(eventToCover.prediction.probabilities);
    variants := [];
    var stakePerTicket := budget / 2.0;
    for i := 0 to 2
      invariant |variants| == i
      invariant forall k :: 0 <= k < i ==> variants[k] == Cover2Ticket(events, budget, k)
    {
      var outcome := top2Outcomes[i];
      var picks := [PickFor(eventToCover, outcome)] + PredictedPicks(otherEvents);
      var ticket := MakeTicket("cover2-" + NatToString(i + 1), picks, stakePerTicket, events);
      variants := variants + [ticket];
    }
  }

  /** The two cover-2 tickets stake half the budget each, differ exactly in the first pick,
      which is the covered event at two different outcomes, the more probable first; the
      covered event is the FIRST event of highest confidence. */
  lemma Cover2Shape(events: seq<EventSelection>, budget: real)
    requires |events| > 0
    ensures var t0, t1 := Cover2Ticket(events, budget, 0), Cover2Ticket(events, budget, 1);
      t0.stake == budget / 2.0 && t1.stake == budget / 2.0 &&
      t0.id == "cover2-1" && t1.id == "cover2-2" &&
      t0.picks[1..] == t1.picks[1..] &&
      t0.picks[0].eventId == t1.picks[0].eventId && t0.picks[0].outcome != t1.picks[0].outcome
    ensures var cover := ByConfidenceDesc(events)[0];
      exists j :: 0 <= j < |events| && cover == events[j] &&
        (forall k :: 0 <= k < |events| ==> ByConfidence(events[k]) <= ByConfidence(events[j])) &&
        (forall k :: 0 <= k < j ==> ByConfidence(events[k]) < ByConfidence(events[j]))
    ensures var cover, p := ByConfidenceDesc(events)[0], ByConfidenceDesc(events)[0].prediction.probabilities;
      Cover2Ticket(events, budget, 0).picks[0] == PickFor(cover, TopTwo(p)[0]) &&
      Cover2Ticket(events, budget, 1).picks[0] == PickFor(cover, TopTwo(p)[1]) &&
      Get(p, TopTwo(p)[0]) >= Get(p, TopTwo(p)[1])
  {
    hide TotalOdds, ExpectedValue, PredictedPicks, TopTwo, SortDesc;
    var sorted := ByConfidenceDesc(events);
    var p := sorted[0].prediction.probabilities;
    assert Cover2Ticket(events, budget, 0).picks == [PickFor(sorted[0], TopTwo(p)[0])] + PredictedPicks(sorted[1..]);
    assert Cover2Ticket(events, budget, 1).picks == [PickFor(sorted[0], TopTwo(p)[1])] + PredictedPicks(sorted[1..]);
    assert NatToString(1) == "1" && NatToString(2) == "2";
    SortDescHead(events, ByConfidence);
  }

  // ---------------------------------------------------------------------------
  // Strategy 3: the Cartesian product over the two most probable outcomes of the most
  // uncertain matches

  /** The outcome lists of the Cartesian product, the first list varying slowest (the
      `combinations` generator). */
  function Combinations<T>(lists: seq<seq<T>>): seq<seq<T>>
    decreases |lists|
  {
    if lists == [] then [[]] else ExtendAll(lists[0], Combinations(lists[1..]))
  }

  /** For each item in order, the item followed by each of the combinations. */
  function ExtendAll<T>(items: seq<T>, combos: seq<seq<T>>): seq<seq<T>>
    decreases |items|
  {
    if items == [] then [] else Prefixed(items[0], combos) + ExtendAll(items[1..], combos)
  }

  function Prefixed<T>(x: T, combos: seq<seq<T>>): (r: seq<seq<T>>)
    ensures |r| == |combos|
    ensures forall j :: 0 <= j < |combos| ==> r[j] == [x] + combos[j]
  {
    seq(|combos|, j requires 0 <= j < |combos| => [x] + combos[j])
  }

  function Pow(b: nat, n: nat): (r: nat)
    ensures r >= 1 || b == 0
  {
    if n == 0 then 1 else b * Pow(b, n - 1)
  }

  lemma ExtendPair<T>(a: T, b: T, combos: seq<seq<T>>)
    ensures ExtendAll([a, b], combos) == Prefixed(a, combos) + Prefixed(b, combos)
  {
    assert [a, b][1..] == [b] && [b][1..] == [];
    assert ExtendAll([b], combos) == Prefixed(b, combos) + ExtendAll([], combos);
  }

  lemma PrefixedOne<T>(x: T, c: seq<T>)
    ensures Prefixed(x, [c]) == [[x] + c]
  {
    var r := Prefixed(x, [c]);
    assert |r| == 1 && r[0] == [x] + c;
  }

  lemma PrefixedTwo<T>(x: T, c: seq<T>, e: seq<T>)
    ensures Prefixed(x, [c, e]) == [[x] + c, [x] + e]
  {
    var r := Prefixed(x, [c, e]);
    assert |r| == 2 && r[0] == [x] + c && r[1] == [x] + e;
  }

  /** One list of two gives its two items; two lists of two give the four pairs with the
      first list varying slowest. */
  lemma CombinationsOfPairs<T>(a: T, b: T, c: T, d: T)
    ensures Combinations([[a, b]]) == [[a], [b]]
    ensures Combinations([[a, b], [c, d]]) == [[a, c], [a, d], [b, c], [b, d]]
  {
    assert [[a, b]][1..] == [];
    ExtendPair(a, b, [[]]);
    PrefixedOne(a, []);
    PrefixedOne(b, []);
    assert [a] + [] == [a] && [b] + [] == [b];
    assert [[a, b], [c, d]][1..] == [[c, d]];
    assert Combinations([[c, d]]) == [[c], [d]] by {
      assert [[c, d]][1..] == [];
      ExtendPair(c, d, [[]]);
      PrefixedOne(c, []);
      PrefixedOne(d, []);
      assert [c] + [] == [c] && [d] + [] == [d];
    }
    ExtendPair(a, b, [[c], [d]]);
    PrefixedTwo(a, [c], [d]);
    PrefixedTwo(b, [c], [d]);
    assert [a] + [c] == [a, c] && [a] + [d] == [a, d] && [b] + [c] == [b, c] && [b] + [d] == [b, d];
  }

  /** Each list of two doubles the number of combinations. */
  lemma {:induction false} CombinationsCount<T>(lists: seq<seq<T>>)
    requires forall k :: 0 <= k < |lists| ==> |lists[k]| == 2
    ensures |Combinations(lists)| == Pow(2, |lists|)
    ensures forall j :: 0 <= j < |Combinations(lists)| ==> |Combinations(lists)[j]| == |lists|
    decreases |lists|
  {
    if lists != [] {
      var rest := Combinations(lists[1..]);
      CombinationsCount(lists[1..]);
      var l := lists[0];
      assert l[1..] == [l[1]] && [l[1]][1..] == [];
      assert ExtendAll(l, rest) == Prefixed(l[0], rest) + ExtendAll(l[1..], rest);
      assert ExtendAll(l[1..], rest) == Prefixed(l[1], rest) + ExtendAll([], rest);
    }
  }

  /** The uncertainty key of the sort. */
  function ByUncertainty(log2: real -> real): EventSelection -> real {
    (e: EventSelection) => CombinedUncertainty(e.prediction.probabilities, log2)
  }

  /** The events, most uncertain first (stable). */
  function ByUncertaintyDesc(events: seq<EventSelection>, log2: real -> real): (r: seq<EventSelection>)
    ensures |r| == |events| && multiset(r) == multiset(events)
    ensures SortedDesc(r, ByUncertainty(log2))
  {
    SortDescPerm(events, ByUncertainty(log2));
    SortDescSorted(events, ByUncertainty(log2));
    SortDesc(events, ByUncertainty(log2))
  }

  function MinInt(a: int, b: int): int { if a < b then a else b }

  function MinReal(a: real, b: real): real { if a < b then a else b }

  predicate IsWhole(x: real) {
    x == x.Floor as real
  }

  /** How many of the indices 0, 1, 2, ... get past the test `index >= maxVariants`: the
      naturals below `maxVariants`, whether it is a whole number or not. */
  function Slots(maxVariants: real): (n: nat)
    ensures n as real >= maxVariants
    ensures n == 0 || (n - 1) as real < maxVariants
  {
    if maxVariants <= 0.0 then 0
    else if IsWhole(maxVariants) then maxVariants.Floor
    else maxVariants.Floor + 1
  }

  /** An index passes the test exactly when it is below the count of slots. */
  lemma SlotsBelow(maxVariants: real, i: nat)
    ensures i < Slots(maxVariants) <==> (i as real) < maxVariants
  {
  }

  /** A whole, non-negative `maxVariants` leaves exactly that many slots. */
  lemma SlotsWhole(maxVariants: real)
    requires maxVariants >= 0.0 && IsWhole(maxVariants)
    ensures Slots(maxVariants) as real == maxVariants
  {
  }

  /** Taking one slot leaves one slot fewer. */
  lemma SlotsStep(slots: real)
    requires slots > 0.0
    ensures Slots(slots) >= 1 && Slots(slots - 1.0) == Slots(slots) - 1
  {
    SlotsBelow(slots, Slots(slots) - 1);
    SlotsBelow(slots - 1.0, Slots(slots) - 1);
    if Slots(slots - 1.0) >= 1 {
      SlotsBelow(slots - 1.0, Slots(slots - 1.0) - 1);
    }
    SlotsBelow(slots, Slots(slots - 1.0) + 1);
  }

  /** The number of uncertain events, `Math.min(2, events.length)`. */
  function UncertainCount(events: seq<EventSelection>): (k: nat)
    ensures k <= 2 && k <= |events|
  {
    MinInt(2, |events|)
  }

  /** The two most probable outcomes of each uncertain event. */
  function UncertainOutcomes(uncertain: seq<EventSelection>): (r: seq<seq<Outcome>>)
    ensures |r| == |uncertain|
    ensures forall j :: 0 <= j < |r| ==> r[j] == TopTwo(uncertain[j].prediction.probabilities)
  {
    seq(|uncertain|, j requires 0 <= j < |uncertain| => TopTwo(uncertain[j].prediction.probabilities))
  }

  /** The uncertain events at the combination's outcomes, then the others at their
      predictions. */
  function UncertainPicks(uncertain: seq<EventSelection>, certain: seq<EventSelection>, combo: seq<Outcome>): (r: seq<Pick>)
    requires |combo| == |uncertain|
    ensures |r| == |uncertain| + |certain|
  {
    seq(|uncertain|, j requires 0 <= j < |uncertain| => PickFor(uncertain[j], combo[j])) + PredictedPicks(certain)
  }

  /** `Math.min(maxVariants, 2 ** k)`. */
  function UncertainDivisor(maxVariants: real, k: nat): real {
    MinReal(maxVariants, Pow(2, k) as real)
  }

  /** `budget / Math.min(maxVariants, 2 ** k)`. A non-positive `maxVariants` emits no ticket,
      so the quotient (infinite or negative in JavaScript) is then never used. */
  function UncertainStake(budget: real, maxVariants: real, k: nat): real {
    var divisor := UncertainDivisor(maxVariants, k);
    if divisor > 0.0 then budget / divisor else 0.0
  }

  /** The number of cover-uncertain tickets: the product's size, cut at the slots
      `maxVariants` leaves. */
  function UncertainTicketCount(maxVariants: real, k: nat): nat {
    MinInt(Slots(maxVariants), Pow(2, k))
  }

  /** The first `n` tickets of the product, named `uncertain-1`, `uncertain-2`, ... */
  function ProductTickets(uncertain: seq<EventSelection>, certain: seq<EventSelection>, combos: seq<seq<Outcome>>,
                          stake: real, n: nat, events: seq<EventSelection>): (r: seq<Ticket>)
    requires n <= |combos| && forall j :: 0 <= j < |combos| ==> |combos[j]| == |uncertain|
    ensures |r| == n
    ensures forall i :: 0 <= i < n ==>
              r[i] == BuildTicket("uncertain-" + NatToString(i + 1), UncertainPicks(uncertain, certain, combos[i]), stake, events)
  {
    seq(n, i requires 0 <= i < n =>
      BuildTicket("uncertain-" + NatToString(i + 1), UncertainPicks(uncertain, certain, combos[i]), stake, events))
  }

  /** `generateCoverUncertainTickets`: with no events, the single ticket. */
  function CoverUncertainTickets(events: seq<EventSelection>, budget: real, maxVariants: real, log2: real -> real): (r: seq<Ticket>)
    ensures |events| == 0 ==> r == SingleTickets(events, budget)
    ensures |events| > 0 ==> |r| == UncertainTicketCount(maxVariants, UncertainCount(events))
    ensures |events| > 0 ==> forall i :: 0 <= i < |r| ==> r[i].stake == UncertainStake(budget, maxVariants, UncertainCount(events))
  {
    if |events| == 0 then SingleTickets(events, budget)
    else
      var sorted := ByUncertaintyDesc(events, log2);
      var k := UncertainCount(events);
      var lists := UncertainOutcomes(sorted[..k]);
      CombinationsCount(lists);
      ProductTickets(sorted[..k], sorted[k..], Combinations(lists), UncertainStake(budget, maxVariants, k),
                     UncertainTicketCount(maxVariants, k), events)
  }

  /** The ticket loop: stop at `maxVariants` or when the product is exhausted. */
  method EmitProductTickets(uncertain: seq<EventSelection>, certain: seq<EventSelection>, combos: seq<seq<Outcome>>,
                            stake: real, maxVariants: real, events: seq<EventSelection>)
    returns (variants: seq<Ticket>)
    requires forall j :: 0 <= j < |combos| ==> |combos[j]| == |uncertain|
    ensures variants == ProductTickets(uncertain, certain, combos, stake, MinInt(Slots(maxVariants), |combos|), events)
  {
    variants := [];
    var variantIndex := 0;
    while variantIndex < |combos|
      invariant 0 <= variantIndex <= |combos|
      invariant variantIndex <= Slots(maxVariants)
      invariant variants == ProductTickets(uncertain, certain, combos, stake, variantIndex, events)
    {
      SlotsBelow(maxVariants, variantIndex);
      if variantIndex as real >= maxVariants {
        break;
      }
      var combo := combos[variantIndex];
      var picks := UncertainPicks(uncertain, certain, combo);
      var ticket := MakeTicket("uncertain-" + NatToString(variantIndex + 1), picks, stake, events);
      variants := variants + [ticket];
      variantIndex := variantIndex + 1;
    }
  }

  /** The loop pushing the two most probable outcomes of each uncertain event. */
  method CollectTopTwo(uncertain: seq<EventSelection>) returns (lists: seq<seq<Outcome>>)
    ensures lists == UncertainOutcomes(uncertain)
  {
    lists := [];
    for j := 0 to |uncertain|
      invariant |lists| == j
      invariant forall m :: 0 <= m < j ==> lists[m] == TopTwo(uncertain[m].prediction.probabilities)
    {
      lists := lists + [TopTwo(uncertain[j].prediction.probabilities)];
    }
  }

  method GenerateCoverUncertainTickets(events: seq<EventSelection>, budget: real, maxVariants: real, log2: real -> real)
    returns (variants: seq<Ticket>)
    ensures variants == CoverUncertainTickets(events, budget, maxVariants, log2)
  {
    var sortedEvents := ByUncertaintyDesc(events, log2);
    var k := UncertainCount(events);
    var uncertainEvents := sortedEvents[..k];
    var certainEvents := sortedEvents[k..];
    if |uncertainEvents| == 0 {
      variants := GenerateSingleTicket(events, budget);
      return;
    }
    var uncertainOutcomes := CollectTopTwo(uncertainEvents);
    var combos := Combinations(uncertainOutcomes);
    CombinationsCount(uncertainOutcomes);
    var stakePerTicket := UncertainStake(budget, maxVariants, k);
    variants := EmitProductTickets(uncertainEvents, certainEvents, combos, stakePerTicket, maxVariants, events);
  }

  /** The cover-uncertain tickets all stake the same share, so their stakes add up to the
      number of tickets times the share; with a whole number of variants of at least one,
      that is exactly the budget. */
  lemma CoverUncertainStakes(events: seq<EventSelection>, budget: real, maxVariants: real, log2: real -> real)
    requires |events| > 0
    ensures var r := CoverUncertainTickets(events, budget, maxVariants, log2);
      SumStakes(r) == |r| as real * UncertainStake(budget, maxVariants, UncertainCount(events))
    ensures maxVariants >= 1.0 && IsWhole(maxVariants) ==>
      SumStakes(CoverUncertainTickets(events, budget, maxVariants, log2)) == budget
  {
    hide CoverUncertainTickets, SumStakes, UncertainCount, Pow;
    var k := UncertainCount(events);
    var r := CoverUncertainTickets(events, budget, maxVariants, log2);
    SumEqualStakes(r, UncertainStake(budget, maxVariants, k));
    if maxVariants >= 1.0 && IsWhole(maxVariants) {
      SlotsWhole(maxVariants);
      var d := UncertainDivisor(maxVariants, k);
      assert |r| == MinInt(Slots(maxVariants), Pow(2, k));
      assert |r| as real == d && d >= 1.0;
      assert UncertainStake(budget, maxVariants, k) == budget / d;
      DivTimesBack(budget, d);
    }
  }

  lemma DivTimesBack(budget: real, d: real)
    requires d > 0.0
    ensures d * (budget / d) == budget
  {
  }

  /** A fractional `maxVariants` over-stakes: with 2.5 and at least two events, the loop
      emits the tickets of indices 0, 1 and 2, each staking `budget / 2.5`, so together they
      stake 1.2 times the budget. */
  lemma FractionalMaxOverstakes(events: seq<EventSelection>, budget: real, log2: real -> real)
    requires |events| >= 2
    ensures var r := CoverUncertainTickets(events, budget, 2.5, log2);
      |r| == 3 && SumStakes(r) == 1.2 * budget
  {
    hide CoverUncertainTickets, SumStakes;
    var r := CoverUncertainTickets(events, budget, 2.5, log2);
    assert UncertainCount(events) == 2 && Pow(2, 2) == 4;
    assert Slots(2.5) == 3 by {
      SlotsBelow(2.5, 2);
      SlotsBelow(2.5, 3);
    }
    CoverUncertainStakes(events, budget, 2.5, log2);
    assert UncertainStake(budget, 2.5, 2) == budget / 2.5;
  }

  // ---------------------------------------------------------------------------
  // Strategy 4: budget-optimized

  /** `tickets.reduce((sum, t) => sum + t.stake, 0)`. */
  function SumStakes(tickets: seq<Ticket>): real
    decreases |tickets|
  {
    if tickets == [] then 0.0 else SumStakes(tickets[..|tickets| - 1]) + tickets[|tickets| - 1].stake
  }

  lemma {:induction false} SumEqualStakes(tickets: seq<Ticket>, stake: real)
    requires forall i :: 0 <= i < |tickets| ==> tickets[i].stake == stake
    ensures SumStakes(tickets) == |tickets| as real * stake
    decreases |tickets|
  {
    if tickets != [] {
      SumEqualStakes(tickets[..|tickets| - 1], stake);
    }
  }

  lemma {:induction false} SumStakesAppend(a: seq<Ticket>, b: seq<Ticket>)
    ensures SumStakes(a + b) == SumStakes(a) + SumStakes(b)
    decreases |b|
  {
    if b == [] {
      assert a + b == a;
    } else {
      assert (a + b)[..|a + b| - 1] == a + b[..|b| - 1];
      SumStakesAppend(a, b[..|b| - 1]);
    }
  }

  /** `n` copies of `s` after one another. */
  function Repeat<T>(s: seq<T>, n: nat): seq<T> {
    if n == 0 then [] else Repeat(s, n - 1) + s
  }

  /** The candidate list: `min(3, N)` copies of the cover-uncertain tickets (the loop
      variable is not passed on), the single ticket, and the two cover-2 tickets when there
      are at least two events. */
  function Candidates(events: seq<EventSelection>, budget: real, maxVariants: real, log2: real -> real): seq<Ticket> {
    Repeat(CoverUncertainTickets(events, budget, maxVariants, log2), MinInt(3, |events|)) + OtherCandidates(events, budget)
  }

  function OtherCandidates(events: seq<EventSelection>, budget: real): seq<Ticket> {
    SingleTickets(events, budget) +
    (if |events| >= 2 then [Cover2Ticket(events, budget, 0), Cover2Ticket(events, budget, 1)] else [])
  }

  function ByExpectedValue(t: Ticket): real {
    t.expectedValue
  }

  /** The greedy pass over the sorted candidates with `room` budget left and `slots` places
      left: stop when no place is left, take a candidate that fits, skip one that does not. */
  function Select(cands: seq<Ticket>, room: real, slots: real): seq<Ticket>
    decreases |cands|
  {
    if cands == [] || slots <= 0.0 then []
    else if cands[0].stake <= room then [cands[0]] + Select(cands[1..], room - cands[0].stake, slots - 1.0)
    else Select(cands[1..], room, slots)
  }

  /** The selection has no more tickets than `slots` leaves places (a fractional `slots`
      leaves one more than its whole part), stays within the room and is drawn from the
      candidates. */
  lemma {:induction false} SelectBounds(cands: seq<Ticket>, room: real, slots: real)
    requires room >= 0.0
    ensures |Select(cands, room, slots)| <= Slots(slots)
    ensures SumStakes(Select(cands, room, slots)) <= room
    ensures forall t :: t in Select(cands, room, slots) ==> t in cands
    decreases |cands|
  {
    if cands != [] && slots > 0.0 {
      if cands[0].stake <= room {
        var rest := Select(cands[1..], room - cands[0].stake, slots - 1.0);
        SelectBounds(cands[1..], room - cands[0].stake, slots - 1.0);
        SlotsStep(slots);
        SumStakesAppend([cands[0]], rest);
        assert [cands[0]][..0] == [];
      } else {
        SelectBounds(cands[1..], room, slots);
      }
    }
  }

  /** The selection keeps the order of the candidates, so from candidates sorted by
      expected value it is sorted by expected value too. */
  lemma {:induction false} SelectKeepsOrder(cands: seq<Ticket>, room: real, slots: real)
    requires SortedDesc(cands, ByExpectedValue)
    ensures SortedDesc(Select(cands, room, slots), ByExpectedValue)
    ensures forall t :: t in Select(cands, room, slots) ==> t in cands
    decreases |cands|
  {
    if cands != [] && slots > 0.0 {
      var room' := if cands[0].stake <= room then room - cands[0].stake else room;
      var slots' := if cands[0].stake <= room then slots - 1.0 else slots;
      assert SortedDesc(cands[1..], ByExpectedValue);
      SelectKeepsOrder(cands[1..], room', slots');
      var rest := Select(cands[1..], room', slots');
      forall t | t in rest ensures ByExpectedValue(t) <= ByExpectedValue(cands[0]) {
        var j :| 0 <= j < |cands[1..]| && cands[1..][j] == t;
        assert cands[j + 1] == t;
      }
      if cands[0].stake <= room {
        var r := [cands[0]] + rest;
        forall i, j | 0 <= i < j < |r| ensures ByExpectedValue(r[i]) >= ByExpectedValue(r[j]) {
          assert r[j] == rest[j - 1];
          if i > 0 {
            assert r[i] == rest[i - 1];
          } else {
            assert rest[j - 1] in rest;
          }
        }
      }
    }
  }

  /** With a place left and some candidate that fits the room, the selection is not empty:
      the pass skips the candidates before it that do not fit. */
  lemma {:induction false} SelectNonEmpty(cands: seq<Ticket>, room: real, slots: real, t: Ticket)
    requires slots > 0.0 && t in cands && t.stake <= room
    ensures Select(cands, room, slots) != []
    decreases |cands|
  {
    if cands[0].stake > room {
      assert t in cands[1..];
      SelectNonEmpty(cands[1..], room, slots, t);
    }
  }

  /** A candidate that does not fit is skipped and the pass goes on: with room 10 and
      stakes 8, 5 and 2, the tickets of 8 and 2 are taken. */
  lemma SelectSkipsWithoutStopping(a: Ticket, b: Ticket, c: Ticket)
    requires a.stake == 8.0 && b.stake == 5.0 && c.stake == 2.0
    ensures Select([a, b, c], 10.0, 10.0) == [a, c]
  {
    assert [a, b, c][1..] == [b, c] && [b, c][1..] == [c] && [c][1..] == [];
    assert Select([c], 2.0, 9.0) == [c] + Select([], 0.0, 8.0) == [c];
    assert Select([b, c], 2.0, 9.0) == Select([c], 2.0, 9.0);
    assert Select([a, b, c], 10.0, 10.0) == [a] + Select([b, c], 2.0, 9.0);
  }

  /** The stake update of one selected ticket: stake, return and value change together. */
  function Restake(t: Ticket, extra: real, events: seq<EventSelection>): (r: Ticket)
    ensures r.id == t.id && r.picks == t.picks && r.totalOdds == t.totalOdds
    ensures r.stake == t.stake + extra && r.expectedReturn == r.stake * r.totalOdds
    ensures r.expectedValue == ExpectedValue(r, events)
  {
    var s := t.(stake := t.stake + extra, expectedReturn := (t.stake + extra) * t.totalOdds);
    s.(expectedValue := ExpectedValue(s, events))
  }

  function Redistribute(selected: seq<Ticket>, extra: real, events: seq<EventSelection>): (r: seq<Ticket>)
    ensures |r| == |selected|
    ensures forall i :: 0 <= i < |r| ==> r[i] == Restake(selected[i], extra, events)
  {
    seq(|selected|, i requires 0 <= i < |selected| => Restake(selected[i], extra, events))
  }

  lemma {:induction false} RedistributeSum(selected: seq<Ticket>, extra: real, events: seq<EventSelection>)
    ensures SumStakes(Redistribute(selected, extra, events)) == SumStakes(selected) + |selected| as real * extra
    decreases |selected|
  {
    hide Restake, ExpectedValue, TotalOdds;
    if selected != [] {
      var init := selected[..|selected| - 1];
      var r := Redistribute(selected, extra, events);
      RedistributeSum(init, extra, events);
      assert r[..|selected| - 1] == Redistribute(init, extra, events);
      assert r[|r| - 1].stake == selected[|selected| - 1].stake + extra;
      assert SumStakes(r) == SumStakes(r[..|r| - 1]) + r[|r| - 1].stake;
      assert SumStakes(selected) == SumStakes(init) + selected[|selected| - 1].stake;
      assert |selected| as real * extra == |init| as real * extra + extra;
    }
  }

  /** `generateBudgetOptimizedTickets`. */
  function BudgetOptimizedTickets(events: seq<EventSelection>, budget: real, maxVariants: real, log2: real -> real): seq<Ticket> {
    SpreadLeftover(Select(SortDesc(Candidates(events, budget, maxVariants, log2), ByExpectedValue), budget, maxVariants),
                   budget, events)
  }

  /** A budget left over after the greedy pass is spread evenly over the selected tickets. */
  function SpreadLeftover(selected: seq<Ticket>, budget: real, events: seq<EventSelection>): seq<Ticket> {
    var totalCost := SumStakes(selected);
    if |selected| > 0 && totalCost < budget then
      Redistribute(selected, (budget - totalCost) / |selected| as real, events)
    else selected
  }

  /** The loop over `numUncertain` of `generateBudgetOptimizedTickets`: each round calls
      the cover-uncertain generator with the same arguments. */
  method CollectCoverUncertain(events: seq<EventSelection>, budget: real, maxVariants: real, log2: real -> real)
    returns (allVariants: seq<Ticket>)
    ensures allVariants == Repeat(CoverUncertainTickets(events, budget, maxVariants, log2), MinInt(3, |events|))
  {
    ghost var u := CoverUncertainTickets(events, budget, maxVariants, log2);
    hide CoverUncertainTickets;
    var bound := MinInt(3, |events|);
    allVariants := [];
    var numUncertain := 1;
    while numUncertain <= bound
      invariant 1 <= numUncertain <= bound + 1
      invariant allVariants == Repeat(u, numUncertain - 1)
    {
      var variants := GenerateCoverUncertainTickets(events, budget, maxVariants, log2);
      assert Repeat(u, numUncertain) == Repeat(u, numUncertain - 1) + u;
      allVariants := allVariants + variants;
      numUncertain := numUncertain + 1;
    }
  }

  /** The candidate list of `generateBudgetOptimizedTickets`. */
  method CollectCandidates(events: seq<EventSelection>, budget: real, maxVariants: real, log2: real -> real)
    returns (allVariants: seq<Ticket>)
    ensures allVariants == Candidates(events, budget, maxVariants, log2)
  {
    allVariants := CollectCoverUncertain(events, budget, maxVariants, log2);
    var others := CollectOtherCandidates(events, budget);
    allVariants := allVariants + others;
  }

  /** The single ticket, then the cover-2 tickets when there are at least two events. */
  method CollectOtherCandidates(events: seq<EventSelection>, budget: real) returns (others: seq<Ticket>)
    ensures others == OtherCandidates(events, budget)
  {
    hide SingleTickets, Cover2Ticket;
    others := GenerateSingleTicket(events, budget);
    if |events| >= 2 {
      var cover := GenerateCover2Tickets(events, budget, 2.0);
      assert cover == [Cover2Ticket(events, budget, 0), Cover2Ticket(events, budget, 1)];
      others := others + cover;
    }
  }

  /** The greedy loop of `generateBudgetOptimizedTickets`. */
  method SelectWithinBudget(sorted: seq<Ticket>, budget: real, maxVariants: real)
    returns (selected: seq<Ticket>, totalCost: real)
    ensures selected == Select(sorted, budget, maxVariants)
    ensures totalCost == SumStakes(selected)
  {
    selected := [];
    totalCost := 0.0;
    var i := 0;
    while i < |sorted|
      invariant 0 <= i <= |sorted|
      invariant totalCost == SumStakes(selected)
      invariant selected + Select(sorted[i..], budget - totalCost, maxVariants - |selected| as real) == Select(sorted, budget, maxVariants)
    {
      var variant := sorted[i];
      assert sorted[i..][1..] == sorted[i + 1..];
      if |selected| as real >= maxVariants {
        assert Select(sorted[i..], budget - totalCost, maxVariants - |selected| as real) == [];
        assert selected + [] == selected;
        break;
      }
      if totalCost + variant.stake <= budget {
        assert (selected + [variant])[..|selected|] == selected;
        selected := selected + [variant];
        totalCost := totalCost + variant.stake;
      }
      i := i + 1;
    }
    if i == |sorted| {
      assert selected + [] == selected;
    }
  }

  /** The redistribution loop: every selected ticket gets the same extra stake. */
  method RedistributeStakes(selected: seq<Ticket>, extra: real, events: seq<EventSelection>)
    returns (result: seq<Ticket>)
    ensures result == Redistribute(selected, extra, events)
  {
    result := selected;
    for i := 0 to |selected|
      invariant |result| == |selected|
      invariant forall j :: 0 <= j < i ==> result[j] == Restake(selected[j], extra, events)
      invariant forall j :: i <= j < |selected| ==> result[j] == selected[j]
    {
      var variant := result[i];
      variant := variant.(stake := variant.stake + extra);
      variant := variant.(expectedReturn := variant.stake * variant.totalOdds);
      var ev := CalculateExpectedValue(variant, events);
      variant := variant.(expectedValue := ev);
      result := result[i := variant];
    }
  }

  method GenerateBudgetOptimizedTickets(events: seq<EventSelection>, budget: real, maxVariants: real, log2: real -> real)
    returns (tickets: seq<Ticket>)
    ensures tickets == BudgetOptimizedTickets(events, budget, maxVariants, log2)
  {
    var allVariants := CollectCandidates(events, budget, maxVariants, log2);
    tickets := ChooseTickets(allVariants, budget, maxVariants, events);
  }

  /** Sorting by expected value, the greedy pass and the spreading of the leftover. */
  method ChooseTickets(allVariants: seq<Ticket>, budget: real, maxVariants: real, events: seq<EventSelection>)
    returns (tickets: seq<Ticket>)
    ensures tickets == SpreadLeftover(Select(SortDesc(allVariants, ByExpectedValue), budget, maxVariants), budget, events)
  {
    hide SortDesc, Select, Redistribute, SumStakes, Restake, ExpectedValue;
    var sortedVariants := SortDesc(allVariants, ByExpectedValue);
    var selectedVariants, totalCost := SelectWithinBudget(sortedVariants, budget, maxVariants);
    tickets := selectedVariants;
    if |tickets| > 0 && totalCost < budget {
      var extraPerTicket := (budget - totalCost) / |tickets| as real;
      tickets := RedistributeStakes(tickets, extraPerTicket, events);
    }
  }

  lemma RepeatMember<T>(s: seq<T>, n: nat, x: T)
    requires x in Repeat(s, n)
    ensures x in s
  {
    if n > 0 {
      assert x in Repeat(s, n - 1) || x in s;
      if x in Repeat(s, n - 1) {
        RepeatMember(s, n - 1, x);
      }
    }
  }

  /** With a positive budget every candidate stakes a positive amount, no larger than the
      budget when at least one variant is allowed (below one, a cover-uncertain ticket
      stakes `budget / maxVariants`, more than the budget). */
  lemma CandidateStakes(events: seq<EventSelection>, budget: real, maxVariants: real, log2: real -> real, t: Ticket)
    requires budget > 0.0
    requires t in Candidates(events, budget, maxVariants, log2)
    ensures 0.0 < t.stake
    ensures maxVariants >= 1.0 ==> t.stake <= budget
  {
    var u := CoverUncertainTickets(events, budget, maxVariants, log2);
    if t in Repeat(u, MinInt(3, |events|)) {
      RepeatMember(u, MinInt(3, |events|), t);
      CoverUncertainStakeBound(events, budget, maxVariants, log2, t);
    } else {
      OtherStakeBound(events, budget, t);
    }
  }

  lemma CoverUncertainStakeBound(events: seq<EventSelection>, budget: real, maxVariants: real, log2: real -> real, t: Ticket)
    requires budget > 0.0
    requires t in CoverUncertainTickets(events, budget, maxVariants, log2)
    ensures 0.0 < t.stake
    ensures maxVariants >= 1.0 ==> t.stake <= budget
  {
    var u := CoverUncertainTickets(events, budget, maxVariants, log2);
    var i :| 0 <= i < |u| && u[i] == t;
    if |events| > 0 {
      var k := UncertainCount(events);
      var d := UncertainDivisor(maxVariants, k);
      assert Slots(maxVariants) >= 1;
      assert d > 0.0;
      assert t.stake == UncertainStake(budget, maxVariants, k) == budget / d;
      ShareBound(budget, d);
    }
  }

  lemma ShareBound(budget: real, d: real)
    requires budget > 0.0 && d > 0.0
    ensures 0.0 < budget / d
    ensures d >= 1.0 ==> budget / d <= budget
  {
    assert budget / d * d == budget;
  }

  lemma OtherStakeBound(events: seq<EventSelection>, budget: real, t: Ticket)
    requires budget > 0.0
    requires t in OtherCandidates(events, budget)
    ensures 0.0 < t.stake <= budget
  {
    if t !in SingleTickets(events, budget) {
      assert |events| >= 2;
      assert t == Cover2Ticket(events, budget, 0) || t == Cover2Ticket(events, budget, 1);
    }
  }

  /** `generateBudgetOptimizedTickets` with a positive budget: no more tickets than
      `maxVariants` leaves slots (one more than its whole part when it is fractional), at
      least one when it is positive, chosen among the candidates in the order of their
      expected values, and -- after the leftover is spread evenly -- staking exactly the
      budget. */
  lemma BudgetOptimizedProperties(events: seq<EventSelection>, budget: real, maxVariants: real, log2: real -> real)
    requires budget > 0.0
    ensures var r := BudgetOptimizedTickets(events, budget, maxVariants, log2);
      var sel := Select(SortDesc(Candidates(events, budget, maxVariants, log2), ByExpectedValue), budget, maxVariants);
      |r| == |sel| && |r| <= Slots(maxVariants) &&
      (maxVariants > 0.0 ==> r != []) &&
      (r != [] ==> SumStakes(r) == budget) &&
      SortedDesc(sel, ByExpectedValue) &&
      (forall t :: t in sel ==> t in Candidates(events, budget, maxVariants, log2)) &&
      (forall i :: 0 <= i < |r| ==> r[i].id == sel[i].id && r[i].picks == sel[i].picks && Consistent(r[i], events))
  {
    var cands := Candidates(events, budget, maxVariants, log2);
    var single := SingleTickets(events, budget)[0];
    assert single in OtherCandidates(events, budget);
    assert single in cands && single.stake <= budget;
    forall t | t in cands ensures Consistent(t, events) {
      CandidateConsistent(events, budget, maxVariants, log2, t);
    }
    ChosenTickets(cands, budget, maxVariants, events, single);
  }

  /** The choice among any consistent candidates, one of which (`fit`) fits the budget. */
  lemma ChosenTickets(cands: seq<Ticket>, budget: real, maxVariants: real, events: seq<EventSelection>, fit: Ticket)
    requires budget > 0.0 && fit in cands && fit.stake <= budget
    requires forall t :: t in cands ==> Consistent(t, events)
    ensures var sel := Select(SortDesc(cands, ByExpectedValue), budget, maxVariants);
      var r := SpreadLeftover(sel, budget, events);
      |r| == |sel| && |r| <= Slots(maxVariants) &&
      (maxVariants > 0.0 ==> r != []) &&
      (r != [] ==> SumStakes(r) == budget) &&
      SortedDesc(sel, ByExpectedValue) &&
      (forall t :: t in sel ==> t in cands) &&
      (forall i :: 0 <= i < |r| ==> r[i].id == sel[i].id && r[i].picks == sel[i].picks && Consistent(r[i], events))
  {
    var sorted := SortDesc(cands, ByExpectedValue);
    var sel := Select(sorted, budget, maxVariants);
    SortDescPerm(cands, ByExpectedValue);
    SortDescSorted(cands, ByExpectedValue);
    SelectBounds(sorted, budget, maxVariants);
    SelectKeepsOrder(sorted, budget, maxVariants);
    forall t | t in sel ensures t in cands {
      assert t in multiset(sorted);
    }
    if maxVariants > 0.0 {
      assert fit in multiset(sorted);
      SelectNonEmpty(sorted, budget, maxVariants, fit);
    }
    SpreadLeftoverProperties(sel, budget, events);
  }

  /** Spreading the leftover keeps the tickets' identity and consistency and makes a
      selection that stays within the budget stake exactly the budget. */
  lemma SpreadLeftoverProperties(sel: seq<Ticket>, budget: real, events: seq<EventSelection>)
    requires SumStakes(sel) <= budget
    requires forall t :: t in sel ==> Consistent(t, events)
    ensures var r := SpreadLeftover(sel, budget, events);
      |r| == |sel| &&
      (r != [] ==> SumStakes(r) == budget) &&
      (forall i :: 0 <= i < |r| ==> r[i].id == sel[i].id && r[i].picks == sel[i].picks && Consistent(r[i], events))
  {
    hide Redistribute, Restake, Consistent, ExpectedValue, TotalOdds, SumStakes;
    var total := SumStakes(sel);
    if |sel| > 0 && total < budget {
      var extra := (budget - total) / |sel| as real;
      RedistributeSum(sel, extra, events);
      RedistributeConsistent(sel, extra, events);
      assert |sel| as real * extra == budget - total;
    } else {
      forall i | 0 <= i < |sel| ensures Consistent(sel[i], events) {
        assert sel[i] in sel;
      }
    }
  }

  lemma RedistributeConsistent(sel: seq<Ticket>, extra: real, events: seq<EventSelection>)
    requires forall t :: t in sel ==> Consistent(t, events)
    ensures forall i :: 0 <= i < |sel| ==> Consistent(Redistribute(sel, extra, events)[i], events)
  {
    var r := Redistribute(sel, extra, events);
    forall i | 0 <= i < |sel| ensures Consistent(r[i], events) {
      assert sel[i] in sel;
      assert r[i] == Restake(sel[i], extra, events);
    }
  }

  lemma CandidateConsistent(events: seq<EventSelection>, budget: real, maxVariants: real, log2: real -> real, t: Ticket)
    requires t in Candidates(events, budget, maxVariants, log2)
    ensures Consistent(t, events)
  {
    hide Consistent, TotalOdds, ExpectedValue, UncertainPicks, PredictedPicks, ByUncertaintyDesc, UncertainOutcomes,
      Combinations, NatToString, TopTwo, SortDesc, Cover2Picks;
    var u := CoverUncertainTickets(events, budget, maxVariants, log2);
    if t in Repeat(u, MinInt(3, |events|)) {
      RepeatMember(u, MinInt(3, |events|), t);
      var i :| 0 <= i < |u| && u[i] == t;
    } else {
      assert t in OtherCandidates(events, budget);
    }
  }

  // ---------------------------------------------------------------------------
  // generateVariants

  /** The text `${eventId}:${outcome}` of one pick. */
  function PickKey(p: Pick): (k: string)
    ensures |k| == |p.eventId| + 2 && k[..|p.eventId|] == p.eventId && k[|p.eventId| + 1] == Code(p.outcome)[0]
  {
    p.eventId + ":" + Code(p.outcome)
  }

  /** A ticket's outcome signature: the keys of its picks joined with `|`. */
  function Signature(t: Ticket): string {
    Join(seq(|t.picks|, j requires 0 <= j < |t.picks| => PickKey(t.picks[j])), "|")
  }

  /** `new Set(tickets.map(signature))`. */
  function Signatures(tickets: seq<Ticket>): set<string>
    decreases |tickets|
  {
    if tickets == [] then {} else Signatures(tickets[..|tickets| - 1]) + {Signature(tickets[|tickets| - 1])}
  }

  function TicketsFor(strategy: Strategy, events: seq<EventSelection>, budget: real, maxVariants: real, log2: real -> real): seq<Ticket>
    requires |events| > 0
  {
    match strategy
    case Single => SingleTickets(events, budget)
    case Cover2 => [Cover2Ticket(events, budget, 0), Cover2Ticket(events, budget, 1)]
    case CoverUncertain => CoverUncertainTickets(events, budget, maxVariants, log2)
    case BudgetOptimized => BudgetOptimizedTickets(events, budget, maxVariants, log2)
  }

  /** `generateVariants`: the strategy's tickets, their total cost and how many of the
      `3^N` outcome combinations they cover. */
  function Variants(events: seq<EventSelection>, budget: real, strategy: Strategy, maxVariants: real, log2: real -> real): (r: VariantsResult)
    ensures r.strategy == strategy
    ensures |events| == 0 ==> r.tickets == [] && r.totalCost == 0.0 && r.coverage == Coverage(0, 0, 0.0)
  {
    if |events| == 0 then VariantsResult([], 0.0, Coverage(0, 0, 0.0), strategy)
    else
      var tickets := TicketsFor(strategy, events, budget, maxVariants, log2);
      VariantsResult(tickets, SumStakes(tickets), CoverageOf(tickets, |events|), strategy)
  }

  /** The coverage of `tickets` over `n` events: the covered combinations are the distinct
      ticket signatures, between one and the number of tickets when there is a ticket, and
      the percentage is their share of the `3^n` combinations. */
  function CoverageOf(tickets: seq<Ticket>, n: nat): (c: Coverage)
    ensures c.totalCombinations == Pow(3, n) >= 1
    ensures c.coveredCombinations == |Signatures(tickets)| <= |tickets|
    ensures tickets != [] ==> c.coveredCombinations >= 1
    ensures c.coveragePercent * (c.totalCombinations as real) == (c.coveredCombinations as real) * 100.0
  {
    var totalCombinations := Pow(3, n);
    var covered := |Signatures(tickets)|;
    SignaturesBound(tickets);
    Percent(covered as real, totalCombinations as real);
    Coverage(totalCombinations, covered, covered as real / totalCombinations as real * 100.0)
  }

  lemma Percent(x: real, y: real)
    requires y > 0.0
    ensures x / y * 100.0 * y == x * 100.0
  {
    assert x / y * y == x;
  }

  /** The strategy switch of `generateVariants`. */
  method GenerateTickets(strategy: Strategy, events: seq<EventSelection>, budget: real, maxVariants: real, log2: real -> real)
    returns (tickets: seq<Ticket>)
    requires |events| > 0
    ensures tickets == TicketsFor(strategy, events, budget, maxVariants, log2)
  {
    hide SingleTickets, Cover2Ticket, CoverUncertainTickets, BudgetOptimizedTickets;
    match strategy {
      case Single =>
        tickets := GenerateSingleTicket(events, budget);
      case Cover2 =>
        tickets := GenerateCover2Tickets(events, budget, maxVariants);
        assert tickets == [Cover2Ticket(events, budget, 0), Cover2Ticket(events, budget, 1)];
      case CoverUncertain =>
        tickets := GenerateCoverUncertainTickets(events, budget, maxVariants, log2);
      case BudgetOptimized =>
        tickets := GenerateBudgetOptimizedTickets(events, budget, maxVariants, log2);
    }
  }

  method GenerateVariants(events: seq<EventSelection>, budget: real, strategy: Strategy, maxVariants: real, log2: real -> real)
    returns (r: VariantsResult)
    ensures r == Variants(events, budget, strategy, maxVariants, log2)
  {
    if |events| == 0 {
      return VariantsResult([], 0.0, Coverage(0, 0, 0.0), strategy);
    }
    var tickets := GenerateTickets(strategy, events, budget, maxVariants, log2);
    var totalCost := SumStakes(tickets);
    var totalCombinations := Pow(3, |events|);
    var coveredCombinations := |Signatures(tickets)|;
    var coveragePercent := coveredCombinations as real / totalCombinations as real * 100.0;
    r := VariantsResult(tickets, totalCost, Coverage(totalCombinations, coveredCombinations, coveragePercent), strategy);
  }

  lemma {:induction false} SignaturesBound(tickets: seq<Ticket>)
    ensures |Signatures(tickets)| <= |tickets|
    ensures tickets != [] ==> |Signatures(tickets)| >= 1
    decreases |tickets|
  {
    if tickets != [] {
      SignaturesBound(tickets[..|tickets| - 1]);
    }
  }

  /** The two cover-2 tickets differ in the covered event's outcome, so they cover two
      combinations. */
  lemma Cover2Coverage(events: seq<EventSelection>, budget: real, maxVariants: real, log2: real -> real)
    requires |events| > 0
    ensures Variants(events, budget, Cover2, maxVariants, log2).coverage.coveredCombinations == 2
  {
    hide TotalOdds, ExpectedValue, PredictedPicks, SortDesc, Signature, TopTwo, NatToString, SumStakes;
    var t0, t1 := Cover2Ticket(events, budget, 0), Cover2Ticket(events, budget, 1);
    assert [t0, t1][..1] == [t0] && [t0][..0] == [];
    assert Signatures([t0]) == {Signature(t0)};
    assert Signatures([t0, t1]) == {Signature(t0), Signature(t1)};
    var cover := ByConfidenceDesc(events)[0];
    var top := TopTwo(cover.prediction.probabilities);
    assert t0.picks[0] == PickFor(cover, top[0]) && t1.picks[0] == PickFor(cover, top[1]);
    SignaturesDiffer(t0, t1);
  }

  lemma SignaturesDiffer(t0: Ticket, t1: Ticket)
    requires t0.picks != [] && t1.picks != [] && |t0.picks| == |t1.picks|
    requires t0.picks[0].eventId == t1.picks[0].eventId && t0.picks[0].outcome != t1.picks[0].outcome
    ensures Signature(t0) != Signature(t1)
  {
    var k0, k1 := PickKey(t0.picks[0]), PickKey(t1.picks[0]);
    var n := |t0.picks[0].eventId|;
    var o0, o1 := t0.picks[0].outcome, t1.picks[0].outcome;
    assert Code(o0) != Code(o1) by {
      if Code(o0) == Code(o1) {
        CodeInjective(o0, o1);
      }
    }
    assert Code(o0) == [Code(o0)[0]] && Code(o1) == [Code(o1)[0]];
    assert k0[n + 1] != k1[n + 1];
    assert Signature(t0)[n + 1] == k0[n + 1] by { JoinHead(t0); }
    assert Signature(t1)[n + 1] == k1[n + 1] by { JoinHead(t1); }
  }

  /** The signature begins with the key of the first pick. */
  lemma JoinHead(t: Ticket)
    requires t.picks != []
    ensures |PickKey(t.picks[0])| <= |Signature(t)| && Signature(t)[..|PickKey(t.picks[0])|] == PickKey(t.picks[0])
  {
    var keys := seq(|t.picks|, j requires 0 <= j < |t.picks| => PickKey(t.picks[j]));
    if |keys| > 1 {
      assert Signature(t) == keys[0] + "|" + Join(keys[1..], "|");
    }
  }

  /** Each strategy stakes exactly the budget: the single ticket and the two cover-2 halves
      always, budget-optimized whenever `maxVariants` is positive, cover-uncertain when it
      is a whole number of at least one (a fractional one over-stakes, see
      `FractionalMaxOverstakes`). */
  lemma WholeBudgetStaked(events: seq<EventSelection>, budget: real, strategy: Strategy, maxVariants: real, log2: real -> real)
    requires |events| > 0 && budget > 0.0
    requires strategy == CoverUncertain ==> maxVariants >= 1.0 && IsWhole(maxVariants)
    requires strategy == BudgetOptimized ==> maxVariants > 0.0
    ensures Variants(events, budget, strategy, maxVariants, log2).totalCost == budget
  {
    match strategy {
      case Single =>
        assert SumStakes(SingleTickets(events, budget)) == SumStakes([]) + budget;
      case Cover2 =>
        var t0, t1 := Cover2Ticket(events, budget, 0), Cover2Ticket(events, budget, 1);
        assert [t0, t1][..1] == [t0] && [t0][..0] == [];
        assert t0.stake == budget / 2.0 && t1.stake == budget / 2.0;
        assert SumStakes([t0]) == SumStakes([]) + t0.stake;
        assert SumStakes([t0, t1]) == SumStakes([t0]) + t1.stake;
      case CoverUncertain =>
        CoverUncertainStakes(events, budget, maxVariants, log2);
      case BudgetOptimized =>
        BudgetOptimizedProperties(events, budget, maxVariants, log2);
    }
  }
}
