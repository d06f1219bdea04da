/** The AI strategy: asks the completion service for the keys still unresolved. */
module AiStrategies {
  import opened Values
  import opened AiTypes
  import opened ExtractionStrategy
  import opened AiService
  import Sdk

  /** The system turn of every extraction prompt. */
  const SystemInstruction: string := "Extract the data from the text and return a JSON object with the data."

  /**
   * A closed object contract: an object whose properties are all string-typed,
   * all required, and which admits no other property.
   */
  predicate IsClosedObjectSchema(j: JsonSchema)
  {
    && j.schemaType == "object"
    && !j.additionalProperties
    && j.required == j.properties.Keys
    && forall k :: k in j.properties ==> j.properties[k].propertyType == "string"
  }

  /** The field descriptions an object schema declares. */
  function Described(j: JsonSchema): Schema
  {
    map k | k in j.properties :: j.properties[k].description
  }

  /** The schema in the service's structured-output format: a closed object declaring exactly the schema's fields. */
  function ConvertSchemaToOpenAIFormat(schema: Schema): (j: JsonSchema)
    ensures IsClosedObjectSchema(j)
    ensures j.properties.Keys == schema.Keys && j.required == schema.Keys
    ensures Described(j) == schema
  {
    JsonSchema(
      "object",
      map k | k in schema :: PropertySchema("string", schema[k]),
      schema.Keys,
      false)
  }

  /** Conversion is a bijection onto closed object schemas: every one of them is the conversion of what it describes. */
  lemma {:induction false} ConvertOnto(j: JsonSchema)
    requires IsClosedObjectSchema(j)
    ensures ConvertSchemaToOpenAIFormat(Described(j)) == j
  {
    var c := ConvertSchemaToOpenAIFormat(Described(j));
    assert c.properties.Keys == j.properties.Keys;
    forall k | k in j.properties
      ensures c.properties[k] == j.properties[k]
    {
    }
    assert c.properties == j.properties;
  }

  /** The two-turn prompt: the fixed instruction as the system turn, then the document text verbatim as the user turn. */
  function BuildPrompt(userMessage: string): (p: seq<Prompt>)
    ensures |p| == 2
    ensures p[0].role == System && p[0].content == SystemInstruction
    ensures p[1].role == User && p[1].content == userMessage
  {
    [Prompt(System, SystemInstruction), Prompt(User, userMessage)]
  }

  /** The request the AI strategy sends for a document and the schema it is handed. */
  function ExtractionRequest(fileText: string, schema: Schema): (args: CompletionArguments)
    ensures Sdk.UsesFixedConfiguration(args) && args.temperature == 1.0
    ensures |args.input| == 2 && args.input[1] == Prompt(User, fileText)
    ensures IsClosedObjectSchema(args.text.format.schema) && Described(args.text.format.schema) == schema
  {
    RequestArgs(BuildPrompt(fileText), ConvertSchemaToOpenAIFormat(schema))
  }

  class AIStrategy {
    const aiService: AIService

    constructor (aiService: AIService)
      ensures this.aiService == aiService
    {
      this.aiService := aiService;
    }

    /**
     * One completion request for the whole schema. The reply becomes the
     * extracted data as it is; the keys it lacks stay in the remainder. A
     * service failure propagates. A null reply makes the subtraction's first
     * `key in null` throw, so it fails unless the schema has no key at all.
     */
    method Extract(fileText: string, schema: Schema) returns (r: Result<Extraction>)
      modifies aiService
      ensures aiService.requests == old(aiService.requests) + [ExtractionRequest(fileText, schema)]
      ensures var reply := aiService.replies(|old(aiService.requests)|, ExtractionRequest(fileText, schema));
              && (reply.ProviderError? ==> r == Err(AIServiceError))
              && (reply.NullOutput? ==> r == if |schema| == 0 then Ok(Extraction(map[], map[])) else Err(UncaughtTypeError))
              && (reply.Parsed? ==> r == Ok(Extraction(reply.data, Remaining(schema, reply.data.Keys))))
    {
      var openAIFormatSchema := ConvertSchemaToOpenAIFormat(schema);
      var prompt := BuildPrompt(fileText);
      var completion := aiService.GetCompletion(prompt, openAIFormatSchema);
      if completion.Err? {
        return Err(completion.error);
      }
      if completion.value.None? {
        if |schema| != 0 {
          return Err(UncaughtTypeError);
        }
        return Ok(Extraction(map[], map[]));
      }
      var extractedData := completion.value.value;
      var remainingKeysSchema := SubtractSchemaKeys(schema, extractedData);
      r := Ok(Extraction(extractedData, remainingKeysSchema));
    }
  }
}
