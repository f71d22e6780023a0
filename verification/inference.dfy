/**
 * Abstract stand-ins for the parts of the analyzer that the inference-tip
 * core only passes around: node and context identities and inference results.
 */
module Inference {
  import opened Wrappers

  /** Identity of an AST node (Python object identity, used as a dictionary key). */
  type NodeId = nat

  /** Identity of an `InferenceContext`; a missing context is `None`. */
  type ContextId = nat

  /** One value or type an inference produces; its content is not inspected here. */
  datatype InferenceResult = InferenceResult(id: nat)

  /** What an inference function returns, taken as a finite sequence of results. */
  type Answer = seq<InferenceResult>

  /** An exception raised while inferring (for instance `UseInferenceDefault`). */
  datatype InferenceError = InferenceError(code: nat)

  /** Either the results of an inference or the exception it raised. */
  type Outcome = Result<Answer, InferenceError>
}
