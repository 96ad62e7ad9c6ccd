# TippAI betting engine: a verified model

This project models the core of the TippAI football-pool assistant. That core is the server utilities that turn bookmaker odds and extracted match facts into outcome predictions, and predictions into betting tickets. It also covers the text handling that feeds them.

- **Predictor.** The predictor (`predictor.ts`) has four strategies:
  - baseline: the bookmaker's odds with the overround removed;
  - facts: odds adjusted for injuries, suspensions, form and coach changes;
  - llm: the language model's answer;
  - ensemble: a 0.3 / 0.3 / 0.4 blend of the other three.
- **Ticket generator.** The ticket generator (`variants.ts`) turns a list of predicted matches and a budget into tickets. It has four strategies:
  - single;
  - cover-2: both top outcomes of the most confident match;
  - cover-uncertain: the Cartesian product over the two most uncertain matches;
  - budget-optimized: a greedy selection by expected value, then an even spread of the leftover budget.

  It also reports the coverage of the 3^N outcome space.
- **Supporting code.** The supporting code covers:
  - fact extraction, merging, confidence scoring and storage rows (`facts.ts`);
  - text chunking with overlap, cosine similarity and nearest-chunk search (`embeddings.ts`);
  - sentence, word, URL, truncation and Markdown helpers (`cleaner.ts`);
  - search keyword and query generation, result deduplication and ranking (`search.ts`);
  - the robots.txt decision and the tag/white-space cleanup of page text (`crawler.ts`);
  - the odds-string parser (`tippmix.ts`);
  - retrieval-augmented answer assembly (`rag.ts`);
  - the token estimate (`llm.ts`).

The model is written in Dafny, with one module per source file:

| file | module |
|---|---|
| `predictor.dfy` | `Predictor` |
| `variants.dfy` | `Variants` |
| `facts.dfy` | `Facts` |
| `embeddings.dfy` | `Embeddings` |
| `cleaner.dfy` | `Cleaner` |
| `search.dfy` | `Search` |
| `crawler.dfy` | `Crawler` |
| `tippmix.dfy` | `Tippmix` |
| `rag.dfy` | `Rag` |
| `llm.dfy` | `Llm` |

Shared modules hold what several source files rely on:
- `Outcomes`: the outcomes 1 / X / 2, triples indexed by them, and the stable ranking of a triple;
- `Collections`: JavaScript `slice`, first-occurrence deduplication, and a stable descending `sort`;
- `Strings`: JavaScript white space, `trim`, `split`, `includes`, `toLowerCase` on ASCII, Latin-1 and Ő/Ű, and integer rendering;
- `Wrappers`: `Option` and `Result`.

Numbers are `real`, except counts and sizes, which are integers (see "Left out"). Functions that only compute are Dafny functions. Code that updates variables step by step is a method, with loop invariants, and each method's postcondition ties its result to a specification function; the properties the code promises are lemmas about those functions. Things outside the model become parameters of the operation:
- the language model's answer, an `Option` of the parsed record;
- the web search (a function from query to results);
- the URL parser (a partial function);
- `Math.log2` and `Math.sqrt`;
- `toFixed(1)`.

## Model

| member | source | states |
|---|---|---|
| Llm.EstimateTokens | apps/web/server/utils/llm.ts:245-248 | the estimate n is the ceiling of length/4: 4n - 4 < length <= 4n |
| Llm.EstimateTokensAppend | apps/web/server/utils/llm.ts:245-248 | the estimate of a concatenation is the sum of the two estimates or one less |
| Wrappers.OrDefault | apps/web/server/utils/embeddings.ts:30-31 | `x \|\| d`: a present non-zero value is kept; a missing value or 0 gives the default |
| Outcomes.Code | apps/web/server/utils/predictor.ts:26 | each outcome has a one-character code |
| Outcomes.CodeInjective | apps/web/server/utils/predictor.ts:26 | different outcomes have different codes |
| Outcomes.RankedIsByCases | apps/web/server/utils/predictor.ts:225 | the stable descending sort of (1, X, 2) by probability equals the case analysis "most probable first, ties in order 1, X, 2" |
| Outcomes.RankedOrder | apps/web/server/utils/predictor.ts:225 | the ranking is a permutation of the three outcomes, non-increasing in probability, and equal probabilities keep the order 1, X, 2 |
| Outcomes.SortDescThree | apps/web/server/utils/predictor.ts:225 | a stable sort of three elements equals three ordered insertions |
| Outcomes.TopTwo | apps/web/server/utils/variants.ts:182-188 | two different outcomes: the first at least as probable as any outcome, the second at least as probable as the remaining one |
| Outcomes.Margin | apps/web/server/utils/predictor.ts:225-226 | the margin is non-negative and equals the probability of the best outcome minus that of the second best |
| Outcomes.MarginByCases | apps/web/server/utils/predictor.ts:225-226 | `sortedProbs[0] - sortedProbs[1]` on the sorted numbers equals the margin between the top two ranked outcomes |
| Outcomes.MarginInUnit | apps/web/server/utils/variants.ts:77-81 | for probabilities in [0, 1] the margin is in [0, 1] |
| Predictor.OddsToProbs | apps/web/server/utils/predictor.ts:41-60 | for positive odds the probabilities sum to 1 and each lies strictly between 0 and 1 |
| Predictor.OddsProportional | apps/web/server/utils/predictor.ts:44-59 | p·odds is the same for all three outcomes, so each probability is inversely proportional to its odds: p_i/p_j = odds_j/odds_i |
| Predictor.Points | apps/web/server/utils/predictor.ts:68-77 | the points of a form list are at most 3 per result |
| Predictor.FormScore | apps/web/server/utils/predictor.ts:65-78 | 0 for an empty list; otherwise points / (3·length), which lies in [0, 1] |
| Predictor.PointsExtremes | apps/web/server/utils/predictor.ts:68-75 | all wins give 3 points per result; no win or draw gives 0 |
| Predictor.FormAdjustmentBounds | apps/web/server/utils/predictor.ts:124 | the form adjustment (score - 0.5)·0.1 lies in [-0.05, 0.05] |
| Predictor.FindRunFrom | apps/web/server/utils/predictor.ts:120 | the leftmost position at or after `from` where five form letters separated by '-' occur, or none when there is no such position |
| Predictor.FindRunFromFirst | apps/web/server/utils/predictor.ts:120 | the search returns exactly the first match position |
| Predictor.FormRun | apps/web/server/utils/predictor.ts:120-122 | the regex matches exactly when a five-letter run occurs, and then yields five captured letters |
| Predictor.SideFacts | apps/web/server/utils/predictor.ts:93-98 | the facts kept for a side are input facts whose lower-cased entity contains the lower-cased team name |
| Predictor.CountType | apps/web/server/utils/predictor.ts:101-112 | the count of facts of a type is at most the number of facts |
| Predictor.FirstOfType | apps/web/server/utils/predictor.ts:115-139 | the found fact is an input fact of the type; none is found only when no fact has the type |
| Predictor.FormAdjustment | apps/web/server/utils/predictor.ts:118-126 | a form fact moves a side by at most 0.05 either way; no form fact moves it by 0 |
| Predictor.Renormalise | apps/web/server/utils/predictor.ts:152-163 | the renormalised triple sums to 1 and every component is positive |
| Predictor.AdjustProbsForFacts | apps/web/server/utils/predictor.ts:83-164 | the accumulated adjustments equal the side adjustment of each team, home gets +0.10 more, and the result is the clamped, renormalised triple, which sums to 1 with every component positive |
| Predictor.SideAdjustmentAppend | apps/web/server/utils/predictor.ts:100-146 | one more fact naming the team costs 0.03 as an injury or suspension; as the first form fact it adds its form adjustment; as the first coach change it costs 0.05; otherwise it changes nothing |
| Predictor.InjuryCostsThreePoints | apps/web/server/utils/predictor.ts:101-112 | each injury or suspension naming the team lowers its adjustment by exactly 0.03 |
| Predictor.OnlyFirstFormAndCoachChangeCount | apps/web/server/utils/predictor.ts:115-146 | a second form or coach-change fact for a side changes nothing |
| Predictor.UnrelatedFactIgnored | apps/web/server/utils/predictor.ts:93-98 | a fact whose entity does not contain the team name leaves that side's adjustment unchanged |
| Predictor.NoFactsNoAdjustment | apps/web/server/utils/predictor.ts:89-90 | with no facts a side's adjustment is 0, so home moves by exactly +0.10 and away by 0 |
| Predictor.RenormaliseIsNoOp | apps/web/server/utils/predictor.ts:152-163 | when the clamped home and away add up to at most 0.95, the result is exactly (h, 1 - h - a, a) |
| Predictor.RenormaliseBounds | apps/web/server/utils/predictor.ts:152-157 | home and away are clamped to [0.05, 0.90], the draw is at least 0.05, the total is at least 1, and each output times the total is its clamped value |
| Predictor.ArgMax | apps/web/server/utils/predictor.ts:212-222 | '1' exactly when home is at least draw and away; 'X' exactly when draw beats home strictly and is at least away; '2' exactly when away beats both strictly; the chosen probability is the maximum, and the outcome is the head of the stable ranking |
| Predictor.TopRankedIsMostProbable | apps/web/server/utils/predictor.ts:225 | the head of the ranking has the largest probability |
| Predictor.MarginConfidence | apps/web/server/utils/predictor.ts:227-265 | min(base + margin, 1) lies in [base, 1] |
| Predictor.BaselinePrediction | apps/web/server/utils/predictor.ts:208-237 | the probabilities are the fair odds probabilities (sum 1), the outcome is most probable, the confidence lies in [0.5, 1], the key factors are the three fixed ones, and the method is baseline |
| Predictor.PredictBaseline | apps/web/server/utils/predictor.ts:208-237 | the step-by-step arg-max gives exactly `BaselinePrediction` |
| Predictor.FactsKeyFactors | apps/web/server/utils/predictor.ts:268-278 | 1 to 3 entries: one for any injury and one for any suspension among all facts, always ending with 'Home advantage factor applied' |
| Predictor.FactsProbs | apps/web/server/utils/predictor.ts:246-247 | the adjusted probabilities sum to 1 and are positive |
| Predictor.FactsPrediction | apps/web/server/utils/predictor.ts:242-290 | adjusted probabilities summing to 1, the most probable outcome, confidence in [0.6, 1], the facts key factors, and the method facts |
| Predictor.CollectKeyFactors | apps/web/server/utils/predictor.ts:268-278 | the pushes build exactly `FactsKeyFactors`, the facts key factors |
| Predictor.PredictWithFacts | apps/web/server/utils/predictor.ts:242-290 | the step-by-step computation gives exactly `FactsPrediction` |
| Predictor.LlmResult | apps/web/server/utils/predictor.ts:295-354 | the method is llm exactly when the model answered and the answer passes the range check; otherwise the result is the facts prediction; an llm result has probabilities and confidence in [0, 1] |
| Predictor.PredictWithLlm | apps/web/server/utils/predictor.ts:295-354 | the method returns exactly `LlmResult`, including the fallback to facts |
| Predictor.LlmSumNotChecked | apps/web/server/utils/predictor.ts:11-21 | an answer whose probabilities sum to 3 is accepted as it is |
| Predictor.Blend | apps/web/server/utils/predictor.ts:379-392 | the blend's sum is 0.3, 0.3 and 0.4 times the sums of the three inputs |
| Predictor.BlendSumsToOne | apps/web/server/utils/predictor.ts:372-392 | with baseline and facts summing to 1, the blend sums to 1 if and only if the llm triple does |
| Predictor.UniqueFactors | apps/web/server/utils/predictor.ts:415-420 | at most 5 factors, pairwise different, each from the input |
| Predictor.UniqueFactorsStartWithBaseline | apps/web/server/utils/predictor.ts:415-420 | the baseline's three factors always come first in the ensemble's key factors |
| Predictor.EnsembleOf | apps/web/server/utils/predictor.ts:377-429 | each outcome's probability is 0.3·baseline + 0.3·facts + 0.4·model, and so is the confidence; at most five key factors, pairwise distinct and drawn from the three predictions' factors; the method is ensemble |
| Predictor.EnsembleProperties | apps/web/server/utils/predictor.ts:372-420 | when baseline and facts probabilities sum to 1 and the baseline leads with its three factors (as the baseline and facts predictions guarantee), the ensemble sums to 1 if and only if the llm result does, its outcome is the most probable, and its key factors start with the baseline's three |
| Predictor.PredictEnsemble | apps/web/server/utils/predictor.ts:359-430 | the step-by-step computation gives exactly `EnsemblePrediction`, the ensemble of the baseline, facts and llm predictions: probabilities and confidence are the 0.3/0.3/0.4 weighted sums, the outcome is the arg-max of the blend (ties in the order 1, X, 2), and the key factors are the first-occurrence deduplication of the three lists cut to 5 |
| Predictor.GeneratePrediction | apps/web/server/utils/predictor.ts:435-457 | the strategy name routes to its prediction: 'baseline', 'facts' and 'llm' to their own; 'ensemble', an empty name or a missing option to the ensemble (`options.strategy \|\| 'ensemble'`); any other string, which the API passes through from the request body, to the baseline (the `default` branch) |
| Variants.EntropySymmetric | apps/web/server/utils/variants.ts:57-71 | the entropy score does not change when the outcomes' probabilities are permuted |
| Variants.EntropyNonNegative | apps/web/server/utils/variants.ts:57-71 | for probabilities in [0, 1], and any `log2` that is non-positive on (0, 1], the entropy score is non-negative |
| Variants.MarginUncertainty | apps/web/server/utils/variants.ts:77-81 | 1 - margin is at most 1, and at least 0 for probabilities in [0, 1] |
| Variants.CombinedUncertainty | apps/web/server/utils/variants.ts:86-92 | the combined score is the mean of the entropy and margin scores |
| Variants.PredictedPicks | apps/web/server/utils/variants.ts:138-145 | one pick per event, in input order, at the event's predicted outcome with that outcome's odds |
| Variants.FindEvent | apps/web/server/utils/variants.ts:113 | a found event is an input event with the id; none is found only when no event has it |
| Variants.CombinedProbabilityInUnit | apps/web/server/utils/variants.ts:109-124 | for probabilities in [0, 1] the probability that every pick is right lies in [0, 1] |
| Variants.UnknownPickIsNeutral | apps/web/server/utils/variants.ts:113-114 | a pick whose event id is in no event contributes factor 1 |
| Variants.ExpectedValueBounds | apps/web/server/utils/variants.ts:126-128 | with a non-negative stake and odds, the EV lies between -stake and stake·totalOdds - stake |
| Variants.CalculateExpectedValue | apps/web/server/utils/variants.ts:108-129 | the loop's result is `ExpectedValue`: (product of the picks' probabilities, factor 1 for unknown events) × stake × totalOdds − stake |
| Variants.BuildTicket | apps/web/server/utils/variants.ts:148-159 | the ticket keeps its id, picks and stake; totalOdds is the product of the picks' odds, expectedReturn = stake × totalOdds, and expectedValue is the EV |
| Variants.MakeTicket | apps/web/server/utils/variants.ts:148-159 | building the object and then assigning its EV gives exactly `BuildTicket` |
| Variants.SingleTickets | apps/web/server/utils/variants.ts:134-162 | exactly one ticket `single-1`, staking the budget, with one pick per event in input order at its predicted outcome, its other fields derived |
| Variants.GenerateSingleTicket | apps/web/server/utils/variants.ts:134-162 | the method returns exactly `SingleTickets`, the single ticket list |
| Variants.ByConfidenceDesc | apps/web/server/utils/variants.ts:173-175 | the sorted events are a permutation of the input, in non-increasing confidence |
| Variants.Cover2Picks | apps/web/server/utils/variants.ts:197-214 | one pick per event |
| Variants.GenerateCover2Tickets | apps/web/server/utils/variants.ts:167-232 | exactly two tickets whatever `maxVariants` is, the i-th the cover-2 ticket of the i-th most probable outcome of the covered event |
| Variants.Cover2Shape | apps/web/server/utils/variants.ts:167-232 | both tickets stake budget/2 and are named `cover2-1`, `cover2-2`; they differ only in the covered event's outcome; the covered event is the first event of highest confidence; its two picks are its top two outcomes, in order, ties kept as 1, X, 2 |
| Variants.CombinationsOfPairs | apps/web/server/utils/variants.ts:279-291 | one list of two outcomes gives its two items; two lists give the four pairs with the first list varying slowest |
| Variants.CombinationsCount | apps/web/server/utils/variants.ts:279-291 | k lists of two give 2^k combinations, each of length k |
| Variants.ByUncertaintyDesc | apps/web/server/utils/variants.ts:243-251 | the sorted events are a permutation of the input, in non-increasing combined uncertainty |
| Variants.UncertainCount | apps/web/server/utils/variants.ts:254 | at most 2 uncertain events, and no more than there are events |
| Variants.Slots | apps/web/server/utils/variants.ts:297 | the number of loop indices that get past `variantIndex >= maxVariants`: the least natural number not below maxVariants, so a fractional maxVariants leaves one more slot than its whole part |
| Variants.SlotsBelow | apps/web/server/utils/variants.ts:297 | an index is below the slot count exactly when it is below maxVariants |
| Variants.SlotsWhole | apps/web/server/utils/variants.ts:297 | a whole, non-negative maxVariants leaves exactly maxVariants slots |
| Variants.SlotsStep | apps/web/server/utils/variants.ts:370 | with a positive number of places left, taking one leaves one slot fewer |
| Variants.UncertainOutcomes | apps/web/server/utils/variants.ts:266-276 | for each uncertain event, its two most probable outcomes |
| Variants.UncertainPicks | apps/web/server/utils/variants.ts:299-316 | one pick per uncertain event, then one per other event |
| Variants.ProductTickets | apps/web/server/utils/variants.ts:296-332 | the first n tickets of the product, the i-th named `uncertain-(i+1)`, built from the i-th combination at the common stake |
| Variants.CoverUncertainTickets | apps/web/server/utils/variants.ts:237-335 | with no events, the single ticket; otherwise min(slots of maxVariants, 2^k) tickets (none when maxVariants ≤ 0), each staking budget / min(maxVariants, 2^k), with k = min(2, N); maxVariants is any real, as the source accepts any number |
| Variants.EmitProductTickets | apps/web/server/utils/variants.ts:293-332 | the loop, which stops at the first index not below maxVariants, emits the first min(slots of maxVariants, number of combinations) product tickets, for any real maxVariants |
| Variants.CollectTopTwo | apps/web/server/utils/variants.ts:266-276 | the loop collects `UncertainOutcomes`, each uncertain event's top two outcomes |
| Variants.GenerateCoverUncertainTickets | apps/web/server/utils/variants.ts:237-335 | the method returns exactly `CoverUncertainTickets` |
| Variants.CoverUncertainStakes | apps/web/server/utils/variants.ts:294 | with at least one event, the cover-uncertain stakes add up to the number of tickets times budget / min(maxVariants, 2^k); for a whole maxVariants ≥ 1 that is exactly the budget |
| Variants.FractionalMaxOverstakes | apps/web/server/utils/variants.ts:294-297 | with maxVariants = 2.5 and at least two events, three tickets are emitted at budget / 2.5 each, staking 1.2 times the budget |
| Variants.SumStakesAppend | apps/web/server/utils/variants.ts:429 | the total cost of two ticket lists is the sum of their costs |
| Variants.SelectBounds | apps/web/server/utils/variants.ts:366-375 | the greedy pass takes no more tickets than maxVariants leaves slots (one more than its whole part when fractional), all from the candidates, whose stakes add up to at most the budget |
| Variants.SelectKeepsOrder | apps/web/server/utils/variants.ts:362-375 | from candidates sorted by non-increasing EV, the selection is sorted by non-increasing EV |
| Variants.SelectNonEmpty | apps/web/server/utils/variants.ts:369-374 | with a place left and some candidate that fits, the pass takes at least one ticket, skipping the ones before it that do not fit |
| Variants.SelectSkipsWithoutStopping | apps/web/server/utils/variants.ts:369-374 | a candidate that does not fit is skipped and the pass goes on: with budget 10 and stakes 8, 5, 2, the first and third are taken |
| Variants.Restake | apps/web/server/utils/variants.ts:381-383 | only the stake (plus the extra), the return and the EV change; id, picks and totalOdds stay |
| Variants.Redistribute | apps/web/server/utils/variants.ts:380-384 | every selected ticket is restaked by the same extra amount, in order |
| Variants.RedistributeSum | apps/web/server/utils/variants.ts:378-385 | redistribution raises the total stake by the extra amount times the number of tickets |
| Variants.CollectCoverUncertain | apps/web/server/utils/variants.ts:349-352 | the loop collects min(3, N) copies of the same `CoverUncertainTickets` output, because the loop variable is unused |
| Variants.CollectCandidates | apps/web/server/utils/variants.ts:346-360 | the candidates are `Candidates`: those copies, then the single ticket, then the two cover-2 tickets when there are at least two events |
| Variants.CollectOtherCandidates | apps/web/server/utils/variants.ts:354-360 | `OtherCandidates`: the single ticket, then the cover-2 tickets when there are at least two events |
| Variants.SelectWithinBudget | apps/web/server/utils/variants.ts:366-375 | the loop's selection is `Select`, the greedy pass, and its running cost is the sum of the selected stakes |
| Variants.RedistributeStakes | apps/web/server/utils/variants.ts:379-384 | the in-place loop computes `Redistribute`: every selected ticket is restaked by the same extra amount |
| Variants.ChooseTickets | apps/web/server/utils/variants.ts:362-387 | the result is `SpreadLeftover(Select(SortDesc(…, ByExpectedValue)))`: the stable EV sort, then the greedy pass, then the spread of the leftover |
| Variants.GenerateBudgetOptimizedTickets | apps/web/server/utils/variants.ts:340-388 | the method returns exactly `BudgetOptimizedTickets` |
| Variants.CandidateStakes | apps/web/server/utils/variants.ts:346-360 | with a positive budget every candidate stakes a positive amount, no larger than the budget when maxVariants ≥ 1 |
| Variants.CandidateConsistent | apps/web/server/utils/variants.ts:346-360 | every candidate's totalOdds, return and EV agree with its picks and stake |
| Variants.BudgetOptimizedProperties | apps/web/server/utils/variants.ts:340-388 | no more tickets than maxVariants leaves slots, at least one when maxVariants > 0; the selection is drawn from the candidates in non-increasing EV order; after the spread the stakes add up to exactly the budget; ids and picks are those selected, and every ticket stays consistent |
| Variants.ChosenTickets | apps/web/server/utils/variants.ts:362-387 | the same properties for any consistent candidate list with one candidate that fits the budget |
| Variants.SpreadLeftoverProperties | apps/web/server/utils/variants.ts:377-385 | a selection within the budget ends up staking exactly the budget; ids and picks are kept, and every ticket stays consistent |
| Variants.RedistributeConsistent | apps/web/server/utils/variants.ts:381-383 | after restaking, each ticket's return and EV agree with its new stake |
| Variants.PickKey | apps/web/server/utils/variants.ts:434 | the key is the event id, a separator, then the outcome's code |
| Variants.Variants | apps/web/server/utils/variants.ts:393-449 | the strategy is echoed back; with no events there are no tickets, total cost 0 and coverage (0, 0, 0) |
| Variants.CoverageOf | apps/web/server/utils/variants.ts:429-437 | totalCombinations = 3^N; covered = the number of distinct joined `eventId:outcome` signatures, at most the ticket count and at least 1 when there is a ticket; the percentage is covered / total × 100 |
| Variants.GenerateTickets | apps/web/server/utils/variants.ts:412-427 | the switch returns `TicketsFor`, the chosen strategy's tickets |
| Variants.GenerateVariants | apps/web/server/utils/variants.ts:393-449 | the method returns exactly `Variants`, the generateVariants result, for any real maxVariants |
| Variants.SignaturesBound | apps/web/server/utils/variants.ts:433-436 | the number of distinct signatures is at most the number of tickets, and at least 1 when there is one |
| Variants.Cover2Coverage | apps/web/server/utils/variants.ts:418-436 | the cover-2 strategy always covers exactly 2 combinations |
| Variants.SignaturesDiffer | apps/web/server/utils/variants.ts:433-435 | tickets that differ in the first pick's outcome have different signatures |
| Variants.WholeBudgetStaked | apps/web/server/utils/variants.ts:393-449 | with events and a positive budget, the total cost is the budget: always for single and cover-2, for budget-optimized when maxVariants > 0, and for cover-uncertain when maxVariants is a whole number ≥ 1 |
| Facts.Truncated | apps/web/server/utils/facts.ts:121-124 | content no longer than the limit is kept; longer content becomes its first maxLength characters plus '...' |
| Facts.ExtractFacts | apps/web/server/utils/facts.ts:112-168 | the model is asked about the truncated text (limit `maxLength \|\| 8000`); its validated answer is returned, and no facts at all when the call, the parse or the validation fails |
| Facts.DefaultTruncation | apps/web/server/utils/facts.ts:121-124 | with the default limit, at most 8000 characters are sent unchanged and longer text as its first 8000 characters plus '...' |
| Facts.ChunkWindow | apps/web/server/utils/facts.ts:181-182 | the chunks processed are a prefix of the input, min(5, N) of them by default |
| Facts.FindTeam | apps/web/server/utils/facts.ts:213-215 | -1 exactly when no kept form has the lower-cased team; otherwise the first index that has it |
| Facts.AddByKey | apps/web/server/utils/facts.ts:197-209 | the guarded push loop extends the merged list to `Dedup(prev + incoming)`, the first-occurrence deduplication of all entries seen |
| Facts.AddForms | apps/web/server/utils/facts.ts:211-224 | the find/append/replace loop extends the merged forms to `MergedForm(prev + incoming)`, the fold of all entries seen |
| Facts.AddTactical | apps/web/server/utils/facts.ts:226-233 | the guarded push loop extends the merged tactical changes to `MergedTactical(prev + incoming)`, the fold of all entries seen |
| Facts.MergeFacts | apps/web/server/utils/facts.ts:189-236 | the loop over the answers gives `Merged`, the merge of all of them |
| Facts.ExtractFactsFromChunks | apps/web/server/utils/facts.ts:173-237 | the result is the merge of the extraction answers for the first maxChunks chunks, in order |
| Facts.MergedPlayers | apps/web/server/utils/facts.ts:197-209 | merged injuries and suspensions keep one entry per lower-cased player name: no two share it, every player seen is represented, and each kept entry is the first one seen for its name |
| Facts.DedupByKey | apps/web/server/utils/facts.ts:197-209 | first-occurrence deduplication keeps exactly the first entry per key |
| Facts.FormStepKeeps | apps/web/server/utils/facts.ts:212-224 | one merge step keeps the form invariant: distinct lower-cased teams, entries drawn from the input, every team seen represented, and a five-result entry seen never lost for a shorter one |
| Facts.MergedFormProperties | apps/web/server/utils/facts.ts:211-224 | the merged forms have one entry per lower-cased team, each from the input, a team that ever had a five-result entry keeps one with at least five results, and for every team the merged entry is exactly KeptForm's |
| Facts.FirstEntry | apps/web/server/utils/facts.ts:213-215 | the first entry of a team (with exactly five results, when asked), or none exactly when there is no such entry |
| Facts.FindTeamIs | apps/web/server/utils/facts.ts:213-215 | findIndex returns the first index of the team, or -1 when there is none |
| Facts.FormStepLookup | apps/web/server/utils/facts.ts:212-224 | one merge step gives a new team its entry, lets a kept entry with fewer than five results give way to one with exactly five, and leaves every other team's entry alone |
| Facts.MergedFormKeeps | apps/web/server/utils/facts.ts:211-224 | for every lower-cased team, the merged entry is the team's first entry, unless that has fewer than five results and a later entry has exactly five, in which case it is the first such entry; no entry when no answer names the team |
| Facts.ContainsOwnHead | apps/web/server/utils/facts.ts:229 | a lower-cased description contains its own first 20 characters |
| Facts.MergedTacticalProperties | apps/web/server/utils/facts.ts:226-233 | kept tactical changes come from the input; no kept description contains the head of a later kept one; and every input change has its head in some kept description |
| Facts.FactConfidence | apps/web/server/utils/facts.ts:242-259 | the score is at most 1, and at least 0.5 for a non-negative source count |
| Facts.SingleSourceConfidence | apps/web/server/utils/facts.ts:242-259 | with one source the score is 0.6, 0.7 or 0.8: 0.6 exactly when there is neither a long description nor a date or match count, and 0.8 exactly when there are both |
| Facts.ConfidenceBySources | apps/web/server/utils/facts.ts:256 | more sources never lower the score, and three or more count as three |
| Facts.ConfidenceByKind | apps/web/server/utils/facts.ts:242-259 | a form entry always scores 0.6; a tactical change scores 0.7 when its description is longer than 20 characters, else 0.6 |
| Facts.InjuryRows | apps/web/server/utils/facts.ts:279-288 | one injury row per injury, in order |
| Facts.SuspensionRows | apps/web/server/utils/facts.ts:291-300 | one suspension row per suspension, in order |
| Facts.FormRows | apps/web/server/utils/facts.ts:303-312 | one form row per form entry, in order |
| Facts.TacticalRows | apps/web/server/utils/facts.ts:315-324 | one coach_change row per tactical change, in order |
| Facts.ConvertFactsToDbFormat | apps/web/server/utils/facts.ts:264-327 | the four push loops build exactly `DbFacts`, the rows of injuries, suspensions, form and tactical changes, in that order |
| Facts.DbFactsShape | apps/web/server/utils/facts.ts:276-326 | the row count is the sum of the four list lengths; every row carries the event and source id; rows come in the order injuries, suspensions, form, tactical; tactical rows are 'coach_change' on entity 'Team'; form descriptions contain last_5 joined with '-'; every confidence is 0.6, 0.7 or 0.8 |
| Facts.FiveResults | apps/web/server/utils/facts.ts:309 | five results join as `a-b-c-d-e` |
| Facts.StoredFormReadBack | apps/web/server/utils/facts.ts:309 | for a team name without '-', the predictor's form pattern (predictor.ts:120) finds a stored five-result form row and reads back its five letters |
| Embeddings.SumTokensAppend | apps/web/server/utils/embeddings.ts:44-71 | the tokens of two runs of sentences add up |
| Embeddings.OverlapShortest | apps/web/server/utils/embeddings.ts:57-63 | the carried-over sentences are the shortest suffix of the chunk whose tokens reach overlapTokens, or the whole chunk when none does |
| Embeddings.TakeOverlap | apps/web/server/utils/embeddings.ts:57-63 | the unshift loop takes exactly `Overlap`, that suffix, and its counter is the suffix's token total |
| Embeddings.ChunkSentences | apps/web/server/utils/embeddings.ts:39-83 | the sentence loop, with its flush and overlap, and the final push give exactly `SentenceChunks`, the sentence-mode chunks |
| Embeddings.StepShaped | apps/web/server/utils/embeddings.ts:43-72 | one iteration keeps the loop invariant: every pushed chunk is its sentences joined by spaces with their token total, and `currentTokens` counts `currentChunk` |
| Embeddings.ChunksShape | apps/web/server/utils/embeddings.ts:39-83 | every chunk is non-empty and is its sentences joined by spaces; its tokens field is the sum of their estimates; the last chunk is pushed, so there are chunks exactly when there are sentences |
| Embeddings.ChunksStart | apps/web/server/utils/embeddings.ts:41-65 | the first chunk starts at 0; each next one starts where the one before ends, less the joined length of the sentences it carries over |
| Embeddings.ChunksFlush | apps/web/server/utils/embeddings.ts:46 | a chunk is closed only when the next sentence would take it past maxTokens; a chunk over maxTokens holds only one sentence besides those carried over |
| Embeddings.ChunksOverlap | apps/web/server/utils/embeddings.ts:56-67 | each chunk after the first starts with the overlap of the chunk before |
| Embeddings.ChunksCover | apps/web/server/utils/embeddings.ts:43-83 | every sentence appears in the chunks in order: the sentences each chunk adds beyond those it carries over are, in turn, exactly the input sentences |
| Embeddings.CharChunks | apps/web/server/utils/embeddings.ts:85-97 | the character-mode windows; their contract is stated by Embeddings.CharChunksWindows and Embeddings.CharChunksCovering |
| Embeddings.CharChunksLayout | apps/web/server/utils/embeddings.ts:89-97 | the k-th chunk is the window at i + k·step, which starts before the end of the text |
| Embeddings.CharChunksEnd | apps/web/server/utils/embeddings.ts:89 | the loop stops only once the next start reaches the end of the text |
| Embeddings.ChunkCharacters | apps/web/server/utils/embeddings.ts:85-97 | the striding loop gives exactly `CharChunks`, the character-mode windows |
| Embeddings.CharChunksWindows | apps/web/server/utils/embeddings.ts:85-97 | the chunks start at 0, d, 2d, … below the end of the text; each is the text from its start for size characters, clipped to the text; endIndex = startIndex + length |
| Embeddings.CharChunksCover | apps/web/server/utils/embeddings.ts:89-97 | when the step is at most the window size, every index from i onwards lies in some chunk |
| Embeddings.CharChunksCovering | apps/web/server/utils/embeddings.ts:89-97 | when the step is at most the window size, every index of the text lies in some chunk |
| Embeddings.CharacterMode | apps/web/server/utils/embeddings.ts:85-97 | in character mode the windows are 4·maxTokens long and start 4·maxTokens − 4·overlapTokens apart; an empty text has no chunk |
| Embeddings.ChunkText | apps/web/server/utils/embeddings.ts:22-101 | returns `ChunkTextResult`: with `maxTokens \|\| 512` and `overlapTokens \|\| 128`, the sentence mode (unless preserveSentences is false) chunks the sentences of the text, and the character mode strides over its characters |
| Embeddings.SentencesNonEmpty | apps/web/server/utils/cleaner.ts:157-166 | the sentences chunkText reads are all non-empty |
| Embeddings.DotSymmetric | apps/web/server/utils/embeddings.ts:211-215 | the dot product is symmetric |
| Embeddings.DotSelf | apps/web/server/utils/embeddings.ts:213-214 | a squared norm is non-negative |
| Embeddings.Cosine | apps/web/server/utils/embeddings.ts:202-222 | fails with 'Vectors must have the same length' exactly on a length mismatch; 0 when either norm is 0 |
| Embeddings.CosineSymmetric | apps/web/server/utils/embeddings.ts:202-222 | the similarity does not depend on the order of the two vectors |
| Embeddings.CosineSelf | apps/web/server/utils/embeddings.ts:217-221 | a non-zero vector has similarity 1 with itself when `sqrt` is a square root |
| Embeddings.CosineSimilarity | apps/web/server/utils/embeddings.ts:202-222 | the accumulation loop computes exactly `Cosine`, that similarity, or the failure |
| Embeddings.Scored | apps/web/server/utils/embeddings.ts:232-235 | fails exactly when some chunk's embedding has a different length from the query; otherwise each chunk with its similarity, in order |
| Embeddings.FindSimilarChunks | apps/web/server/utils/embeddings.ts:227-240 | `findSimilarChunks`; its contract is stated by Embeddings.FindSimilarTopK |
| Embeddings.FindSimilarTopK | apps/web/server/utils/embeddings.ts:227-240 | fails exactly on a length mismatch; otherwise min(topK, N) chunks in non-increasing similarity, drawn from the input, and no chunk left out is more similar than one kept |
| Cleaner.NonEmpty | apps/web/server/utils/cleaner.ts:111 | the pieces kept are the non-empty input pieces |
| Cleaner.TrimAll | apps/web/server/utils/cleaner.ts:143-162 | each piece trimmed, in order |
| Cleaner.VisibleTrim | apps/web/server/utils/cleaner.ts:162 | trimming removes white space only |
| Cleaner.SplitSpaces | apps/web/server/utils/cleaner.ts:111 | `split(/\s+/)` yields at least one piece |
| Cleaner.SplitSpacesWords | apps/web/server/utils/cleaner.ts:111 | the non-empty pieces of the split are exactly the maximal runs of non-white-space characters |
| Cleaner.WordsOfTrim | apps/web/server/utils/cleaner.ts:111 | trimming does not change those runs |
| Cleaner.CountWords | apps/web/server/utils/cleaner.ts:109-113 | `countWords`; its contract is stated by Cleaner.CountWordsIsWords |
| Cleaner.CountWordsIsWords | apps/web/server/utils/cleaner.ts:109-113 | countWords is the number of maximal non-white-space runs, and 0 for an empty or blank text |
| Cleaner.SplitIntoSentences | apps/web/server/utils/cleaner.ts:157-166 | `splitIntoSentences`; where it cuts is stated by Cleaner.SentencesCut, Cleaner.SentencesWithoutBreak, Cleaner.SentenceOfLine and Cleaner.SentencesEndWithMark, what the pieces look like by Cleaner.SentencesShape and Cleaner.SentencesKeepText |
| Cleaner.SentencesShape | apps/web/server/utils/cleaner.ts:157-166 | every sentence is non-empty, trimmed and free of line breaks |
| Cleaner.SentencesKeepText | apps/web/server/utils/cleaner.ts:157-166 | splitting loses only white space: the sentences together hold the other characters of the text in order |
| Cleaner.MarkBreaksIdle | apps/web/server/utils/cleaner.ts:160 | a text in which no '.', '!' or '?' is followed by white space is not changed by the replacement |
| Cleaner.MarkBreaksCut | apps/web/server/utils/cleaner.ts:160 | at the first '.', '!' or '?' followed by white space, the mark stays and the whole white-space run becomes one line break; the text before it is unchanged and the text after it is replaced in turn |
| Cleaner.SentencesCut | apps/web/server/utils/cleaner.ts:159-163 | the sentences of a text are those up to and including the first mark followed by white space, then those of the text after that run: every such place is a cut |
| Cleaner.SentencesWithoutBreak | apps/web/server/utils/cleaner.ts:159-163 | where no mark is followed by white space, the text is cut at its line breaks and nowhere else, each piece trimmed and empty pieces dropped |
| Cleaner.SentenceOfLine | apps/web/server/utils/cleaner.ts:159-163 | a single line with no mark followed by white space is one sentence, its trimmed text, or none when it is blank |
| Cleaner.SentencesEndWithMark | apps/web/server/utils/cleaner.ts:159-163 | on a single line every sentence but the last ends with '.', '!' or '?', so there are no other cuts |
| Cleaner.FirstSentenceBreak | apps/web/server/utils/cleaner.ts:160 | the first place where a mark is followed by white space, or the length when there is none, with no such place before it |
| Cleaner.RemoveUrls | apps/web/server/utils/cleaner.ts:171-173 | the output is never longer than the input; what is kept and what is removed is stated exactly by Cleaner.RemoveUrlsAtSpace and Cleaner.RemoveUrlsInWord |
| Cleaner.RemoveUrlsAgrees | apps/web/server/utils/cleaner.ts:172 | up to the first URL the output is the input; after a removed URL the output continues with white space or ends |
| Cleaner.NoUrlRemains | apps/web/server/utils/cleaner.ts:172 | no 'http://' or 'https://' followed by a non-white-space character is left in the output |
| Cleaner.RemoveUrlsIdle | apps/web/server/utils/cleaner.ts:172 | a text without 'http' is unchanged |
| Cleaner.RemoveUrlsAtSpace | apps/web/server/utils/cleaner.ts:172 | a match never runs over white space: each white-space character is kept and the text on either side of it is cleaned on its own |
| Cleaner.RemoveUrlsInWord | apps/web/server/utils/cleaner.ts:172 | within a run without white space, the characters before the first match are kept and everything from the match on is removed; with RemoveUrlsAtSpace this fixes the output of every text |
| Cleaner.KeptBeforeUrlFirst | apps/web/server/utils/cleaner.ts:172 | the kept prefix ends exactly at the first place where 'http://' or 'https://' is followed by a non-white-space character |
| Cleaner.LastIndexOf | apps/web/server/utils/cleaner.ts:184 | the index of the last occurrence, or -1 when there is none |
| Cleaner.TruncateText | apps/web/server/utils/cleaner.ts:178-191 | text no longer than maxLength is unchanged; otherwise it is cut at the last space within the first maxLength characters when that space is not at index 0, else at maxLength, and '...' is appended |
| Cleaner.CollapseNewlines | apps/web/server/utils/cleaner.ts:140 | collapsing never lengthens the text |
| Cleaner.CollapseNoTriple | apps/web/server/utils/cleaner.ts:140 | after collapsing, no three line breaks in a row are left |
| Cleaner.TrimLines | apps/web/server/utils/cleaner.ts:143 | the line trimming of `normalizeMarkdown`; its contract is stated by Cleaner.TrimLinesShape |
| Cleaner.TrimLinesShape | apps/web/server/utils/cleaner.ts:143 | the lines of the result are the input lines, each trimmed |
| Cleaner.ListItemEnd | apps/web/server/utils/cleaner.ts:146 | where `[-*]\s*$` ends after the marker, as an if-and-only-if: `Some(e)` exactly when some place after the marker is preceded by white space only and is the end of the text or a line terminator, and `e` is the furthest such place (the greedy `\s*` gives back white space only until `$` holds); `None` exactly when there is no such place |
| Cleaner.RemoveEmptyItems | apps/web/server/utils/cleaner.ts:146 | removing empty list items never lengthens the text; what it removes is stated by the rows below |
| Cleaner.EmptyItemsRemoved | apps/web/server/utils/cleaner.ts:146 | the line-level reference: a marker line (`-` or `*` alone) and the empty lines right after it become one empty line, because `\s*` runs over the line breaks between them; every other line stays. The result is no longer than the input, and non-empty for a non-empty input |
| Cleaner.EmptyItemsRemovedKeepsText | apps/web/server/utils/cleaner.ts:146 | the non-empty lines after removal are exactly the non-empty input lines other than markers, in order: only empty lines are merged and only markers are dropped |
| Cleaner.EmptyItemsRemovedNoMarker | apps/web/server/utils/cleaner.ts:146 | no marker line is left after removal |
| Cleaner.EmptyItemsRemovedIdle | apps/web/server/utils/cleaner.ts:146 | lines with no marker line among them are left unchanged |
| Cleaner.RemoveEmptyItemsByLines | apps/web/server/utils/cleaner.ts:146 | on trimmed lines without line terminators, the replacement on the joined text equals joining `EmptyItemsRemoved` of the lines |
| Cleaner.RemoveEmptyItemsOfTrimmedLines | apps/web/server/utils/cleaner.ts:143-146 | for text whose only line terminator is `\n`, the replacement applied after the lines are trimmed equals `EmptyItemsRemoved` of the trimmed lines, joined |
| Cleaner.HashRun | apps/web/server/utils/cleaner.ts:149 | the length of the leading run of '#' |
| Cleaner.SpaceHeadings | apps/web/server/utils/cleaner.ts:149 | the output is empty only for an empty input and starts with the input's first character |
| Cleaner.SpaceHeadingsSpaced | apps/web/server/utils/cleaner.ts:149 | in the output, every line start holding a run of 1 to 6 `#` followed by white space has exactly one space after the run, then a non-white-space character or the end |
| Cleaner.SpaceHeadingsIdle | apps/web/server/utils/cleaner.ts:149 | a text where every such heading is already so spaced comes back unchanged, so a second replacement changes nothing; a text with no such heading is unchanged |
| Cleaner.SpaceHeadingsKeepsLine | apps/web/server/utils/cleaner.ts:149 | a line at whose start the pattern does not match is copied unchanged, and the scan goes on after it |
| Cleaner.SpaceHeadingsVisible | apps/web/server/utils/cleaner.ts:149 | only white space changes: the output has the input's visible characters, in order |
| Cleaner.NormalizeMarkdown | apps/web/server/utils/cleaner.ts:138-152 | the output has no leading or trailing white space, and is an infix of the text after the four replacements |
| Cleaner.CollapseLines | apps/web/server/utils/cleaner.ts:140 | collapsing runs of line breaks keeps the first line and drops only empty lines: the non-empty lines are those of the input |
| Cleaner.NormalizeMarkdownText | apps/web/server/utils/cleaner.ts:138-152 | for text whose only line terminator is `\n`, the visible characters of the output are exactly those of the input lines that are not a lone `-` or `*` once trimmed, in order: the four replacements and the final trim change only white space and drop only the markers |
| Search.Prefixed | apps/web/server/utils/search.ts:45-47 | `${team} ${term}` for each term, in order |
| Search.PushTerms | apps/web/server/utils/search.ts:45-47 | the forEach push extends the keywords with exactly `Prefixed(team, terms)` |
| Search.TeamsKeywords | apps/web/server/utils/search.ts:44-48 | 18 keywords per team |
| Search.GenerateSearchKeywords | apps/web/server/utils/search.ts:18-51 | the pushes build exactly `Search.Keywords`, the event's keyword list |
| Search.KeywordsLayout | apps/web/server/utils/search.ts:18-51 | exactly 41 keywords: home, away, 'home vs away', 'home away', league, then each of the 18 injury, suspension and form terms after the home team, then after the away team |
| Search.TeamKeywordsLayout | apps/web/server/utils/search.ts:31-47 | one team's 18 keywords are the team followed by each context term in order |
| Search.GenerateSearchQueries | apps/web/server/utils/search.ts:56-86 | the pushes build exactly `Search.Queries`, the sixteen queries in their fixed order |
| Search.QueriesLayout | apps/web/server/utils/search.ts:56-86 | 16 queries; the default first five are the two previews, both injury-news queries and the home 'sérülések' query |
| Search.FilterSearchResults | apps/web/server/utils/search.ts:142-162 | the loop with its `seen` set computes `Filtered`: it keeps exactly the first result per normalised URL and drops results whose URL does not parse |
| Search.FilteredProperties | apps/web/server/utils/search.ts:142-162 | the output is a subsequence of the input; every kept URL parses; no two kept results share a normalised URL; every parsable input URL is represented |
| Search.KeywordHits | apps/web/server/utils/search.ts:176-180 | at most one point per keyword |
| Search.DomainHits | apps/web/server/utils/search.ts:189-193 | at most one hit per sports domain |
| Search.ScoreResult | apps/web/server/utils/search.ts:171-196 | the two counting loops give `Score`: one point per keyword contained, case-insensitively, in 'title snippet', plus 5 per sports domain contained in the URL |
| Search.KeywordHitsAll | apps/web/server/utils/search.ts:176-180 | a text containing every keyword scores one per keyword |
| Search.KeywordHitsNone | apps/web/server/utils/search.ts:176-180 | a text containing no keyword scores 0 for keywords |
| Search.ScoreBounds | apps/web/server/utils/search.ts:171-196 | a result on a sports domain scores at least 5, and no result scores more than one per keyword plus 55 |
| Search.DomainHitsAtLeastOne | apps/web/server/utils/search.ts:189-193 | a URL containing a sports domain has at least one domain hit |
| Search.DomainHitsNone | apps/web/server/utils/search.ts:189-193 | a URL containing no sports domain has no domain hit |
| Search.ScoreZero | apps/web/server/utils/search.ts:171-196 | a result with no keyword in its text and no sports domain in its URL scores 0 |
| Search.ScoreAllKeywords | apps/web/server/utils/search.ts:176-180 | a result whose text holds every keyword scores at least one per keyword |
| Search.ScoredAll | apps/web/server/utils/search.ts:171-196 | each result with its score, in order |
| Search.RankSearchResults | apps/web/server/utils/search.ts:167-199 | the method returns `Search.Ranked`, the scored results in the stable descending order |
| Search.RankedProperties | apps/web/server/utils/search.ts:198 | the ranking is a permutation of the scored results with non-increasing scores, and results with equal scores keep their input order |
| Search.DiscoverSources | apps/web/server/utils/search.ts:204-240 | the method returns `Discovered`, what `discoverSources` returns for the given search and URL parser |
| Search.DiscoveredProperties | apps/web/server/utils/search.ts:204-240 | at most maxTotalResults sources (20 by default), in non-increasing score order, each a result of one of the first maxQueries queries (5 by default) |
| Search.DedupMembers | apps/web/server/utils/search.ts:147-159 | every kept result is an input result |
| Crawler.CheckRobotsLines | apps/web/server/utils/crawler.ts:72-91 | the line loop, with its relevance flag and early return, decides exactly as `AllowedFrom`, the specification function of the rules |
| Crawler.ReadLine | apps/web/server/utils/crawler.ts:76-89 | one line read by the loop: the flag it leaves is the one its rule gives (a User-agent line decides it afresh, any other line keeps it), and it blocks exactly when it is a relevant Disallow rule whose path blocks the pathname |
| Crawler.DecideStep | apps/web/server/utils/crawler.ts:75-89 | reading one rule: the flag is updated first, then the rule blocks or the decision rests on the remaining rules |
| Crawler.BlockingRule | apps/web/server/utils/crawler.ts:72-91 | a refused URL has a rule that blocks it while its group applies |
| Crawler.BlockedNotAllowed | apps/web/server/utils/crawler.ts:72-91 | a rule that blocks while its group applies makes the URL refused |
| Crawler.CheckRobotsTxt | apps/web/server/utils/crawler.ts:57-97 | returns `RobotsAllows`: no pathname (the URL does not parse) or no robots.txt (a failed or non-OK fetch) allows the URL; otherwise the decision of the line loop, with 'TippAI-Bot' as the default agent |
| Crawler.RobotsAllows | apps/web/server/utils/crawler.ts:57-97 | the decision of `checkRobotsTxt`; its contract is stated by Crawler.BlockedExactly, Crawler.AllowedWithoutRobots and the lemmas after them |
| Crawler.BlockedExactly | apps/web/server/utils/crawler.ts:72-91 | the URL is blocked if and only if some line is a Disallow rule that blocks its pathname while the group read so far applies to the agent |
| Crawler.RulesBeforeAgentIgnored | apps/web/server/utils/crawler.ts:74-83 | Disallow lines before the first User-agent line never block |
| Crawler.AgentLineResets | apps/web/server/utils/crawler.ts:78-81 | a User-agent line sets relevance to (agent is '*' or the lower-cased user agent), whatever applied before |
| Crawler.DisallowExtremes | apps/web/server/utils/crawler.ts:83-88 | a relevant 'Disallow: /' blocks every pathname; an empty Disallow blocks none |
| Crawler.OtherLinesIgnored | apps/web/server/utils/crawler.ts:75-89 | lines that are neither User-agent nor Disallow, Allow lines included, change nothing |
| Crawler.MixedCasePathNotBlocked | apps/web/server/utils/crawler.ts:76-85 | the rule path is lower-cased but the pathname is not, so 'Disallow: /Private' does not block '/Private' |
| Crawler.AllowedWithoutRobots | apps/web/server/utils/crawler.ts:66-96 | without a robots.txt, or on an error, the URL is allowed |
| Crawler.IndexOf | apps/web/server/utils/crawler.ts:278 | the index of the first occurrence, or -1 when there is none |
| Crawler.StripTags | apps/web/server/utils/crawler.ts:278 | `replace(/<[^>]+>/g, ' ')`; its output is fixed exactly by Crawler.StripTagsPlain, Crawler.StripTagsTag, Crawler.StripTagsEmptyBrackets and Crawler.StripTagsUnclosed, and its properties are stated by Crawler.StripTagsChars, Crawler.StripTagsTagless and Crawler.StripTagsIdempotent |
| Crawler.StripTagsPlain | apps/web/server/utils/crawler.ts:278 | the text before the first '<' is kept as it is |
| Crawler.StripTagsTag | apps/web/server/utils/crawler.ts:278 | a tag '<' m '>' with m non-empty and free of '>' becomes one space, the text before it is kept and the text after it is stripped in turn |
| Crawler.StripTagsEmptyBrackets | apps/web/server/utils/crawler.ts:278 | '<>' is not a tag and both characters are kept |
| Crawler.StripTagsUnclosed | apps/web/server/utils/crawler.ts:278 | a '<' with no '>' after it opens no tag: it and the rest of the text are kept |
| Crawler.StripTagsChars | apps/web/server/utils/crawler.ts:278 | every character of the output other than a space comes from the input |
| Crawler.StripTagsHead | apps/web/server/utils/crawler.ts:278 | a text that does not start with '<' keeps its first character |
| Crawler.StripTagsTagless | apps/web/server/utils/crawler.ts:278 | no tag `<[^>]+>` is left after stripping |
| Crawler.StripTaglessIdle | apps/web/server/utils/crawler.ts:278 | a text without tags is left as it is |
| Crawler.StripTagsIdempotent | apps/web/server/utils/crawler.ts:278 | stripping twice is stripping once |
| Crawler.CollapseSpaces | apps/web/server/utils/crawler.ts:281 | collapsing keeps a text empty exactly when it was, and keeps whether it starts with white space; that it keeps the words is Crawler.CollapseWords |
| Crawler.CollapseWord | apps/web/server/utils/crawler.ts:281 | a run without white space is copied unchanged |
| Crawler.CollapseWords | apps/web/server/utils/crawler.ts:281 | collapsing keeps the words, the maximal runs without white space, in order |
| Crawler.CollapseSingleSpaced | apps/web/server/utils/crawler.ts:281 | after collapsing, every white-space character is a space and no two are adjacent |
| Crawler.ExtractMainContent | apps/web/server/utils/crawler.ts:277-283 | the output is trimmed, every white-space character in it is a space, and no two are adjacent; its content is Crawler.ExtractedWords |
| Crawler.ExtractedWords | apps/web/server/utils/crawler.ts:277-283 | the output is exactly the words of the tag-stripped text joined by single spaces |
| Crawler.SingleSpacedJoin | apps/web/server/utils/crawler.ts:281 | a trimmed single-spaced text is its words joined by single spaces |
| Crawler.TrimSingleSpaced | apps/web/server/utils/crawler.ts:281 | trimming keeps a text single-spaced |
| Crawler.ExtractedTagless | apps/web/server/utils/crawler.ts:277-283 | the output holds no tag |
| Crawler.CollapseTagless | apps/web/server/utils/crawler.ts:281 | collapsing white space creates no tag |
| Crawler.TrimTagless | apps/web/server/utils/crawler.ts:281 | trimming creates no tag |
| Tippmix.TakeDigits | apps/web/server/utils/tippmix.ts:41-43 | the longest prefix of decimal digits: it is a prefix, all digits, and the next character (if any) is not a digit |
| Tippmix.Mantissa | apps/web/server/utils/tippmix.ts:41-43 | the parts before and after the point of a literal are digit strings |
| Tippmix.ParseFloat | apps/web/server/utils/tippmix.ts:41-43 | `parseFloat` on a decimal literal; its contract is stated by Tippmix.ParseFloatNat and Tippmix.ParseFloatDecimal |
| Tippmix.ParseFloatNat | apps/web/server/utils/tippmix.ts:41-43 | `parseFloat` reads back the decimal rendering of a natural number, whatever non-digit, non-point text follows |
| Tippmix.ParseFloatDecimal | apps/web/server/utils/tippmix.ts:41-43 | `parseFloat` of `whole.fraction` is the value of that literal |
| Tippmix.DigitsOfNat | apps/web/server/utils/tippmix.ts:41-43 | the decimal rendering of n is all digits and denotes n |
| Tippmix.OrOne | apps/web/server/utils/tippmix.ts:41-43 | `parseFloat(part) \|\| 1.0` is never zero: NaN and zero become 1, any other value is kept |
| Tippmix.OddsOfTokens | apps/web/server/utils/tippmix.ts:39-47 | the odds are never zero, and fewer than three parts give 1.0 for home, draw and away |
| Tippmix.SplitOfTrim | apps/web/server/utils/tippmix.ts:37 | the parts of `trim().split(/\s+/)` are the white-space separated words, except that a blank string gives one empty part |
| Tippmix.ParseOdds | apps/web/server/utils/tippmix.ts:34-48 | `parseOdds`; its contract is stated by Tippmix.ParseOddsTokens, Tippmix.ParseOddsSurroundingSpace and Tippmix.ParseOddsJoin |
| Tippmix.ParseOddsTokens | apps/web/server/utils/tippmix.ts:34-48 | the odds depend only on the words of the string: the first three are home, draw and away; fewer give 1.0 each |
| Tippmix.ParseOddsSurroundingSpace | apps/web/server/utils/tippmix.ts:37 | white space before and after the odds string changes nothing |
| Tippmix.WordsOfJoin | apps/web/server/utils/tippmix.ts:37 | tokens joined by any non-empty run of white space split back into those tokens |
| Tippmix.ParseOddsJoin | apps/web/server/utils/tippmix.ts:34-48 | odds written with any white-space separator, as in '2.50 3.20 2.80', parse as the odds of those tokens |
| Rag.EffectiveThreshold | apps/web/server/utils/rag.ts:40 | `similarityThreshold \|\| 0.7`: a missing or zero threshold means 0.7, any other is kept |
| Rag.ChunkOfRow | apps/web/server/utils/rag.ts:63-69 | similarity and distance add up to 1; id, content, source id and URL are copied |
| Rag.Matching | apps/web/server/utils/rag.ts:252-253 | a row is kept if and only if its distance is below the match threshold |
| Rag.ChunksOfRows | apps/web/server/utils/rag.ts:63-69 | one chunk per row, in the same order |
| Rag.Retrieved | apps/web/server/utils/rag.ts:39-73 | the chunks `retrieveRelevantChunks` returns for the event's rows; its contract is stated by Rag.RetrievedProperties |
| Rag.RetrievedProperties | apps/web/server/utils/rag.ts:39-73 | at most `limit \|\| 5` chunks, in order of decreasing similarity, each more similar than the threshold (0.7 by default), each read from one of the event's rows; no rows means no chunks |
| Rag.SourcesOf | apps/web/server/utils/rag.ts:99-104 | one entry per chunk, with its id, source id, URL and similarity as relevance |
| Rag.UsedFrom | apps/web/server/utils/rag.ts:93-96 | the number of chunks used lies between the starting index and the number of chunks |
| Rag.UsedFromStops | apps/web/server/utils/rag.ts:93-96 | searching on from a point where every earlier chunk fitted ends where the loop stops |
| Rag.StopsAtUsedCount | apps/web/server/utils/rag.ts:93-96 | the loop stops at exactly one point: every chunk before it fits under the limit and the chunk at it, if any, does not |
| Rag.BuildContext | apps/web/server/utils/rag.ts:87-105 | the loop stops at that point, the context is the used chunks under numbered `[Source n]` headers and the used sources are their entries |
| Rag.ContextLength | apps/web/server/utils/rag.ts:98 | each used chunk adds its content and a header of at least 13 characters |
| Rag.ContextBounds | apps/web/server/utils/rag.ts:94-98 | the used contents add up to at most the limit, and the context exceeds the limit by at most the last header |
| Rag.ContextMayExceedLimit | apps/web/server/utils/rag.ts:94-98 | headers are not counted against the limit: one chunk exactly at the limit is used and the context is longer than the limit |
| Rag.ContextPrefix | apps/web/server/utils/rag.ts:93-105 | the context of the first i chunks is a prefix of the whole, followed by the header numbered i + 1 and the next chunk |
| Rag.Confidence | apps/web/server/utils/rag.ts:139-140 | a number exactly when some source was used (NaN otherwise), at most 1, and either 1 or 1.2 times the average relevance |
| Rag.SumRelevanceBounds | apps/web/server/utils/rag.ts:139 | relevances at least lo sum to at least lo times their number |
| Rag.ConfidenceLowerBound | apps/web/server/utils/rag.ts:139-140 | relevances at least lo give a confidence at least min(1.2 lo, 1) |
| Rag.ConfidenceUniform | apps/web/server/utils/rag.ts:139-140 | sources all of relevance v give confidence min(1.2 v, 1) |
| Rag.SumRelevanceUniform | apps/web/server/utils/rag.ts:139 | n relevances all equal to v sum to n v |
| Rag.Answer | apps/web/server/utils/rag.ts:79-156 | the response of `generateRAGAnswer`; Rag.AskProperties states it for every non-empty chunk list, on which `Ask` returns it |
| Rag.GenerateRagAnswer | apps/web/server/utils/rag.ts:79-156 | the answer is `Rag.Answer`: the model's reply with the used sources and their confidence; when the model call fails, the fixed apology with no sources and confidence 0; the context is the one built by the loop with `maxContextLength \|\| 4000` |
| Rag.Ask | apps/web/server/utils/rag.ts:161-186 | the response of `askQuestion`; its contract is stated by Rag.AskProperties and Rag.FirstChunkFits |
| Rag.AskQuestion | apps/web/server/utils/rag.ts:161-186 | returns `Rag.Ask`: no chunks give the fixed no-information answer with confidence 0; otherwise the answer of `generateRAGAnswer` with `contextLength` as the limit |
| Rag.AskProperties | apps/web/server/utils/rag.ts:139-155 | no chunks: the no-information answer; a failed model call: the apology; otherwise the reply, sources that are the first chunks in order, a confidence that is NaN exactly when no source was used and is at most 1 |
| Rag.FirstChunkFits | apps/web/server/utils/rag.ts:93-96 | when the first chunk fits the limit on its own, at least one source is used and the confidence is a number |
| Collections.Take | apps/web/server/utils/embeddings.ts:239 | `slice(0, n)`: a prefix of length min(n, length), or for negative n the prefix that leaves out the last -n elements |
| Collections.SortDescPerm | apps/web/server/utils/search.ts:198 | the descending sort returns a permutation of its input |
| Collections.SortDescSorted | apps/web/server/utils/search.ts:198 | the descending sort returns its input in non-increasing key order |
| Collections.SortDescStable | apps/web/server/utils/search.ts:198 | the sort is stable: elements with equal keys keep their input order |
| Collections.SortDescHead | apps/web/server/utils/embeddings.ts:238 | the first element after sorting is the first element of the input with the largest key |
| Collections.TakeTop | apps/web/server/utils/embeddings.ts:238-239 | the first n of the sorted list are sorted, come from the input, and no element left out has a larger key than one taken |
| Collections.DedupSnoc | apps/web/server/utils/search.ts:144-156 | one more element is kept exactly when its key is neither already seen nor the key of an element kept before |
| Collections.DedupDistinct | apps/web/server/utils/search.ts:144-156 | no two kept elements share a key, and no kept key was in the initial set |
| Collections.DedupComplete | apps/web/server/utils/search.ts:144-156 | every input key is either in the initial set or the key of a kept element |
| Collections.DedupFirst | apps/web/server/utils/search.ts:144-156 | each kept element is the first occurrence of its key in the input |
| Collections.DedupSubsequence | apps/web/server/utils/search.ts:144-156 | deduplication only leaves elements out and keeps the input order |

## Left out

- The language model and embedding clients of `llm.ts` (`chatCompletion` with its retries and back-off, `generateEmbeddings` batching, provider configuration): network I/O. Their answers are parameters: an `Option` of the already-validated record for a prediction, a per-chunk answer function for fact extraction, the reply text (or `None` when the call throws) for a RAG answer.
- The HTTP request and HTML scraping of `searchDuckDuckGo` (`apps/web/server/utils/search.ts:92-137`): network I/O; `discoverSources` takes the search as a function from query to results.
- `fetchPage` and `fetchPages` in `crawler.ts` (Playwright, worker-pool concurrency), and the fetch of robots.txt itself: I/O and concurrency. A failed or non-OK fetch is a `None` robots text.
- `retrieveRelevantChunks`' embedding call and database round trip, and `analyzeEvent` in `rag.ts`: I/O. The `search_chunks` query is modelled over the event's rows as a value; the database error and exception paths are the `None` rows, which give no chunks.
- The ensemble's `.catch(() => factsBased)` (`apps/web/server/utils/predictor.ts:368`): the handler names a binding that is not yet initialised when the promise is created, and `predictWithLLM` already catches its own errors (`apps/web/server/utils/predictor.ts:349-353`), so the LLM prediction is total here.
- `toFixed(1)` and `toFixed(2)` rounding: floating-point formatting. `toFixed(1)` is a parameter of the baseline rationale; the response rounding of the API handlers is not part of this model.
- `Math.log2` and `Math.sqrt` are parameters, with only the facts the proofs use (`log2(x) <= 0` on (0, 1] for the entropy bound; a positive square root of a positive number for cosine similarity). The model makes no claim that a uniform triple has entropy score 1, because the divisor in the source is the literal 1.585, not log2 3.
- Embeddings.CosineSimilarity: requires the square-root parameter to be positive on positive numbers (`PositiveRoot`), which `Math.sqrt` is.
- Floating point: every number is a `real`, so rounding errors, `Infinity` and `NaN` arithmetic are not modelled; the one `NaN` the source computes from ordinary input (the average of no sources in `rag.ts`) is an `Option`.
- WHATWG URL parsing in `filterSearchResults` and `checkRobotsTxt` is an abstract partial function (`normalize`, or an optional pathname).
- The script, style, nav and footer regexes of `extractMainContent` (`apps/web/server/utils/crawler.ts:270-275`): regular-expression matching over HTML is not modelled; the model starts from the text they leave.
- `parseFloat` is modelled on plain decimal literals (sign, digits, optional fraction); exponents, `Infinity` and leading white space inside a token are not.
- Zod schema parsing of the language model's answer is a range predicate (`SchemaValid`) on an already-parsed record; `JSON.parse` failures are the `None` answer.
- `cleanHtmlToMarkdown`, `detectLanguage`, `extractTextFromHtml` and `extractMetadata` in `cleaner.ts`: wrappers over Readability, Turndown, franc and JSDOM with no logic of their own.
- `toto.ts` and the mock events of `tippmix.ts`: mock data built from the wall clock.
- The prompt texts (`createPredictionPrompt`, the RAG prompt) and the rationale templates: they are opaque strings or structured values holding what the template interpolates.
- `generateChunkEmbeddings`, `processDocument` and `processDocuments` in `embeddings.ts`: they only call the embedding client.
- Persistence, HTTP handlers and the user interface (`supabase.ts`, `server/api`, composables, scripts): outside the core; their validation rules appear only as preconditions where noted below.
- `toLowerCase` is modelled on ASCII, Latin-1 and Ő/Ű; every other letter, Latin Extended included (Č, Ł, Ā, …), is left unchanged, whereas JavaScript lowers it.
- Predictor.OddsToProbs: requires all three odds positive, as the API handlers ensure by skipping or rejecting events without odds; the source would divide by zero and produce `Infinity` or `NaN`, which reals cannot express. The same precondition is on Predictor.PredictBaseline, Predictor.PredictWithFacts, Predictor.PredictWithLlm, Predictor.PredictEnsemble and Predictor.GeneratePrediction.
- Variants.GenerateCover2Tickets: requires at least one event; on an empty list the source reads a field of `undefined` and throws. `generateVariants` returns early on an empty list, so that path is only reachable by calling the generator directly.
- Variants.GenerateTickets: requires at least one event, because `generateVariants` handles the empty list before it dispatches; Variants.GenerateVariants covers the empty list.
- Embeddings.ChunkText: in character mode requires `maxTokens || 512` to exceed `overlapTokens || 128` (or the text to be empty); otherwise the source loop never advances and does not terminate.
- Embeddings.ChunkCharacters: requires a positive stride for the same reason.
- Rag.Confidence: returns `None` where the source computes `NaN` (no source used); the `NaN` itself is not a real.
- A form string written in lower case (`w-d-l-w-w`) is accepted by the case-insensitive pattern in `adjustProbsForFacts` but scores 0 per result in the case-sensitive `switch` of `calculateFormScore`; the model keeps this behaviour as written (`Predictor.PointsExtremes`).
- Whole-number counts: `Suspension.matches` and the options `maxTokens` and `overlapTokens` (chunking), `maxLength` (fact extraction and `truncateText`), `maxChunks`, `topK`, `limit`, `maxContextLength`, `maxQueries` and `maxTotalResults` are integers in the model, while the source types them as `number`. A fractional value is not modelled: a suspension of 1.5 matches, which the source renders as "(1.5 matches)", or a fractional slice bound. `maxVariants` is the exception: it is a `real`, because `generateVariants` receives it from the request unchecked and a fractional value changes how many tickets are emitted and what they stake (Variants.FractionalMaxOverstakes).
- Variants.WholeBudgetStaked: the cover-uncertain case is stated for a whole maxVariants ≥ 1 only, because for a fractional one the source stakes more than the budget (1.2 times it at 2.5, Variants.FractionalMaxOverstakes) and for one in (0, 1) its single ticket stakes budget / maxVariants; Variants.CoverUncertainStakes gives the total for every maxVariants.
- The order of rows with equal distance from `search_chunks` (`ORDER BY distance`, `apps/web/server/utils/rag.ts:254`) is unspecified in SQL; the model keeps the rows' own order for ties (a stable sort).
- Strings.JsSubstring, Llm.EstimateTokens, Cleaner.TruncateText, Facts.Truncated, Facts.DefaultTruncation, Embeddings.CharChunks, Embeddings.ChunkCharacters, Embeddings.ChunkSentences (its token counts) and Rag.BuildContext (its `context.length` limit): a `string` is a sequence of code points, so lengths and indices count code points, while JavaScript counts UTF-16 code units. For text with characters above U+FFFF the source gets larger token estimates (`"😀😀😀".length` is 6, so 2 tokens rather than 1), other truncation points (`truncateText` can cut a surrogate pair in two), other chunk windows and other context cut-offs.
- Cleaner.RemoveEmptyItems: its own contract only bounds the length. What it does is stated by Cleaner.RemoveEmptyItemsOfTrimmedLines for text whose only line terminator is `\n`, after its lines are trimmed, which is how `normalizeMarkdown` calls it on such text. A `\r`, U+2028 or U+2029 inside a line also ends a line for the `m` flag but not for `split('\n')`; that case is covered only by the function itself.
- Cleaner.NormalizeMarkdownText: stated for text whose only line terminator is `\n`, for the same reason.
