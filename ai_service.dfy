/**
 * The AI service as the extraction strategies see it: every request goes
 * through the request queue at temperature 1 to the completion service, and
 * any failure of the service reaches the caller as `AIServiceError`.
 */
module AiService {
  import opened Values
  import opened AiTypes
  import Sdk

  /**
   * What the completion service answers to one request: a parsed object; no
   * parsed output at all (`output_parsed` is null, as on a refusal); or an
   * error of its own.
   */
  datatype Reply = Parsed(data: Answer) | NullOutput | ProviderError(message: string)

  /** The queue always asks for temperature 1. */
  const QueueTemperature: real := 1.0

  /** The request that `getCompletion(prompt, schema)` sends to the completion service. */
  function RequestArgs(prompt: seq<Prompt>, schema: JsonSchema): (args: CompletionArguments)
    ensures Sdk.UsesFixedConfiguration(args)
    ensures args.temperature == 1.0 && args.input == prompt && args.text.format.schema == schema
  {
    Sdk.BuildCompletionArgs(prompt, QueueTemperature, schema)
  }

  /**
   * The queue's error translation: every provider error becomes the single
   * `AIServiceError`; anything the service returns, a null output included,
   * is passed back as it is.
   */
  function Normalize(reply: Reply): (r: Result<Option<Answer>>)
    ensures r.Err? <==> reply.ProviderError?
    ensures r.Err? ==> r.error == AIServiceError
    ensures reply.Parsed? ==> r == Ok(Some(reply.data))
    ensures reply.NullOutput? ==> r == Ok(None)
  {
    match reply
    case Parsed(data) => Ok(Some(data))
    case NullOutput => Ok(None)
    case ProviderError(_) => Err(AIServiceError)
  }

  /**
   * The completion service seen through the queue. Its answers are an oracle:
   * the reply to the n-th request is `replies(n, args)`, so two equal requests
   * may be answered differently. `requests` records what was sent.
   */
  class AIService {
    const replies: (nat, CompletionArguments) -> Reply
    var requests: seq<CompletionArguments>

    constructor (replies: (nat, CompletionArguments) -> Reply)
      ensures this.replies == replies && requests == []
    {
      this.replies := replies;
      requests := [];
    }

    /** One completion request: sent exactly once, its reply passed back unchanged or as `AIServiceError`. */
    method GetCompletion(prompt: seq<Prompt>, schema: JsonSchema) returns (r: Result<Option<Answer>>)
      modifies this
      ensures requests == old(requests) + [RequestArgs(prompt, schema)]
      ensures r == Normalize(replies(|old(requests)|, RequestArgs(prompt, schema)))
    {
      var args := Sdk.BuildCompletionArgs(prompt, QueueTemperature, schema);
      var reply := replies(|requests|, args);
      requests := requests + [args];
      match reply {
        case Parsed(data) =>
          r := Ok(Some(data));
        case NullOutput =>
          r := Ok(None);
        case ProviderError(_) =>
          r := Err(AIServiceError);
      }
    }
  }
}
