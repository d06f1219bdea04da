/** Request shaping of the OpenAI SDK service. */
module Sdk {
  import opened Values
  import opened AiTypes

  /** The one model the service uses. */
  const Model: string := "gpt-5-mini"

  /**
   * The part of a request that is fixed configuration of the service and never
   * comes from the caller: the model, low reasoning effort and a strict
   * `json_schema` output format named "name".
   */
  predicate UsesFixedConfiguration(args: CompletionArguments)
  {
    && args.model == Model
    && args.reasoning == Some(Reasoning(Low))
    && args.text.format.formatType == "json_schema"
    && args.text.format.name == "name"
    && args.text.format.strict
  }

  /** The arguments of one structured completion request. */
  function BuildCompletionArgs(prompt: seq<Prompt>, temperature: real, schema: JsonSchema): (args: CompletionArguments)
    ensures UsesFixedConfiguration(args)
    ensures args.temperature == temperature && args.input == prompt
    ensures args.text.format.schema == schema
  {
    CompletionArguments(
      Model,
      temperature,
      prompt,
      TextOptions(Format("json_schema", "name", schema, true)),
      Some(Reasoning(Low)))
  }

  /** The caller's inputs are carried unchanged: two requests are equal only if their inputs are. */
  lemma CompletionArgsDetermineInputs(p1: seq<Prompt>, t1: real, s1: JsonSchema, p2: seq<Prompt>, t2: real, s2: JsonSchema)
    ensures BuildCompletionArgs(p1, t1, s1) == BuildCompletionArgs(p2, t2, s2) <==> p1 == p2 && t1 == t2 && s1 == s2
  {
  }
}
