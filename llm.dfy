/** The token estimate of the language-model client (apps/web/server/utils/llm.ts). */
module Llm {

  /** `Math.ceil(text.length / 4)`: about four characters per token. */
  function EstimateTokens(text: string): (n: nat)
    ensures 4 * n - 4 < |text| <= 4 * n
  {
    (|text| + 3) / 4
  }

  /** The estimate of a concatenation is never more than the sum of the estimates, and at
      most one less. */
  lemma EstimateTokensAppend(a: string, b: string)
    ensures EstimateTokens(a) + EstimateTokens(b) - 1 <= EstimateTokens(a + b) <= EstimateTokens(a) + EstimateTokens(b)
  {
  }
}
