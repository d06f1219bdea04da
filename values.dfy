/** Values shared by the whole extraction pipeline. */
module Values {

  /** A JSON value, as the completion service returns it and as `JSON.stringify` consumes it. */
  datatype Json =
    | JNull
    | JBool(b: bool)
    | JNumber(n: real)
    | JString(s: string)
    | JArray(items: seq<Json>)
    | JObject(fields: map<string, Json>)

  /** An extraction schema: field key to the description of what to extract for it. */
  type Schema = map<string, string>

  /** Extracted data: field key to the value found for it. */
  type Answer = map<string, Json>

  /**
   * The errors an extraction can end with: `AIServiceError`, the error the
   * request queue reports for any failure of the completion service, and
   * `UncaughtTypeError`, the runtime `TypeError` that a null parsed reply
   * causes later in the AI strategy (not a `CustomError`).
   */
  datatype ServiceError = AIServiceError | UncaughtTypeError

  datatype Result<T> = Ok(value: T) | Err(error: ServiceError)

  datatype Option<T> = None | Some(value: T)
}
