/**
 * What an agent call returns (`AgentResult` of generators/agents/base.py):
 * the agents' `run` methods return `success=True` with an output and the
 * token counts of the model call, and `execute` turns an exception into
 * `success=False` with the exception's message and no output. The timing
 * field is left out.
 */
module Agents {

  datatype AgentResult<T> =
    | Success(output: T, tokensUsed: map<string, int>)
    | Failure(error: string)

  /** The running `{'input': .., 'output': ..}` token totals. */
  datatype Tokens = Tokens(input: int, output: int)

  const NO_TOKENS := Tokens(0, 0)

  /** `d.get(key, 0)`. */
  function GetCount(d: map<string, int>, key: string): int {
    if key in d then d[key] else 0
  }

  /** `_add_tokens`: adds the input and output counts, a missing key counting 0. */
  function AddTokens(total: Tokens, used: map<string, int>): Tokens {
    Tokens(total.input + GetCount(used, "input"), total.output + GetCount(used, "output"))
  }
}
