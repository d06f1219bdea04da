/** The request types of the AI service: prompts, structured-output schemas, completion arguments. */
module AiTypes {
  import opened Values

  datatype Role = System | User | Assistant

  /** One role-tagged turn of a prompt. */
  datatype Prompt = Prompt(role: Role, content: string)

  /** One declared property of a structured-output schema. */
  datatype PropertySchema = PropertySchema(propertyType: string, description: string)

  /**
   * A JSON-Schema object description. `required` is kept as the set of names the
   * source's array lists (map keys carry no order here).
   */
  datatype JsonSchema = JsonSchema(
    schemaType: string,
    properties: map<string, PropertySchema>,
    required: set<string>,
    additionalProperties: bool)

  datatype Effort = Low | High

  datatype Reasoning = Reasoning(effort: Effort)

  datatype Format = Format(formatType: string, name: string, schema: JsonSchema, strict: bool)

  datatype TextOptions = TextOptions(format: Format)

  datatype CompletionArguments = CompletionArguments(
    model: string,
    temperature: real,
    input: seq<Prompt>,
    text: TextOptions,
    reasoning: Option<Reasoning>)
}
