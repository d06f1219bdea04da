/**
 * What every extraction strategy shares: the shape of its result and the
 * subtraction of resolved keys from a schema.
 */
module ExtractionStrategy {
  import opened Values

  /** The result of one strategy's `extract`: what it resolved and what is left for the next one. */
  datatype Extraction = Extraction(extractedData: Answer, remainingKeysSchema: Schema)

  /**
   * The names every plain JavaScript object inherits from `Object.prototype`.
   * The `in` operator finds them in any such object, including `{}`.
   */
  const PrototypeNames: set<string> := {
    "constructor", "toString", "toLocaleString", "valueOf", "hasOwnProperty",
    "isPrototypeOf", "propertyIsEnumerable", "__proto__",
    "__defineGetter__", "__defineSetter__", "__lookupGetter__", "__lookupSetter__"}

  /**
   * The inherited name backed by the prototype setter, which ignores a string:
   * assigning a string to it on a plain object adds no entry.
   */
  const ProtoName: string := "__proto__"

  /** `key in obj` for a plain object `obj` whose own keys are `own`. */
  predicate FoundByIn(key: string, own: set<string>)
  {
    key in own || key in PrototypeNames
  }

  /**
   * The entries of `original` that `subtractSchemaKeys` keeps: those whose key
   * `in` does not find in an object with the keys `resolved`.
   */
  function Remaining(original: Schema, resolved: set<string>): (r: Schema)
    ensures r.Keys == original.Keys - resolved - PrototypeNames
    ensures forall k :: k in r ==> r[k] == original[k]
  {
    map k | k in original && !FoundByIn(k, resolved) :: original[k]
  }

  /**
   * Schema subtraction: a fresh map of every entry of `originalSchema` whose key
   * the `in` test does not find in `extractedSchema`.
   */
  method SubtractSchemaKeys<V>(originalSchema: Schema, extractedSchema: map<string, V>) returns (remaining: Schema)
    ensures remaining == Remaining(originalSchema, extractedSchema.Keys)
  {
    remaining := map[];
    var todo := originalSchema.Keys;
    while todo != {}
      invariant todo <= originalSchema.Keys
      invariant remaining == Remaining(originalSchema, extractedSchema.Keys + todo)
      decreases todo
    {
      var key :| key in todo;
      if !FoundByIn(key, extractedSchema.Keys) {
        remaining := remaining[key := originalSchema[key]];
      }
      todo := todo - {key};
    }
  }

  /**
   * The remainder is disjoint from the resolved keys and from the inherited
   * names; with the schema keys among those two it makes up the whole schema.
   */
  lemma RemainingPartitions(original: Schema, resolved: set<string>)
    ensures Remaining(original, resolved).Keys !! resolved
    ensures Remaining(original, resolved).Keys !! PrototypeNames
    ensures Remaining(original, resolved).Keys + (original.Keys * (resolved + PrototypeNames)) == original.Keys
  {
  }

  /** Keys that only `resolved` has, and inherited names, never appear in the result. */
  lemma RemainingNoForeignKeys(original: Schema, resolved: set<string>, k: string)
    requires k in resolved || k !in original || k in PrototypeNames
    ensures k !in Remaining(original, resolved)
  {
  }

  /**
   * Resolving every key leaves nothing; resolving none of the keys of a schema
   * without inherited names leaves that schema as it was.
   */
  lemma RemainingExtremes(original: Schema, resolved: set<string>)
    ensures original.Keys <= resolved ==> Remaining(original, resolved) == map[]
    ensures original.Keys !! (resolved + PrototypeNames) ==> Remaining(original, resolved) == original
  {
  }

  /** Subtracting in two steps is subtracting the union; in particular subtracting twice is subtracting once. */
  lemma RemainingCompose(original: Schema, a: set<string>, b: set<string>)
    ensures Remaining(Remaining(original, a), b) == Remaining(original, a + b)
    ensures Remaining(Remaining(original, a), a) == Remaining(original, a)
  {
  }

  /** Subtracting what one answer resolved and then what the next resolved is subtracting their merge. */
  lemma RemainingAfterMerge<V>(original: Schema, answer: map<string, V>, data: map<string, V>)
    ensures Remaining(Remaining(original, answer.Keys), data.Keys) == Remaining(original, (answer + data).Keys)
  {
    RemainingCompose(original, answer.Keys, data.Keys);
    assert (answer + data).Keys == answer.Keys + data.Keys;
  }

  /**
   * Merging data resolved from `schema` into an answer disjoint from it keeps the
   * answer's entries and stays disjoint from what is left of the schema.
   */
  lemma MergeWithinSchema<V>(schema: Schema, answer: map<string, V>, data: map<string, V>)
    requires answer.Keys !! schema.Keys && data.Keys <= schema.Keys
    ensures (answer + data).Keys !! Remaining(schema, data.Keys).Keys
    ensures (answer + data).Keys <= answer.Keys + schema.Keys
    ensures forall k :: k in answer ==> k in answer + data && (answer + data)[k] == answer[k]
  {
  }

  /**
   * A schema field named like an inherited name is dropped by the subtraction
   * even when nothing resolved it.
   */
  lemma PrototypeNameDropped(description: string)
    ensures Remaining(map["constructor" := description], {}) == map[]
    ensures Remaining(map["toString" := description, "total" := description], {}) == map["total" := description]
  {
    assert "total" !in PrototypeNames;
  }

  /** The subtraction the strategies evidently intend: the entries whose key is not an own key of the extracted data. */
  function OwnRemaining(original: Schema, resolved: set<string>): (r: Schema)
    ensures r.Keys == original.Keys - resolved
    ensures forall k :: k in r ==> r[k] == original[k]
  {
    map k | k in original && k !in resolved :: original[k]
  }

  /** Subtraction with an own-key test (`Object.hasOwn(extractedSchema, key)`). */
  method SubtractOwnKeys<V>(originalSchema: Schema, extractedSchema: map<string, V>) returns (remaining: Schema)
    ensures remaining == OwnRemaining(originalSchema, extractedSchema.Keys)
  {
    remaining := map[];
    var todo := originalSchema.Keys;
    while todo != {}
      invariant todo <= originalSchema.Keys
      invariant remaining == OwnRemaining(originalSchema, extractedSchema.Keys + todo)
      decreases todo
    {
      var key :| key in todo;
      if key !in extractedSchema {
        remaining := remaining[key := originalSchema[key]];
      }
      todo := todo - {key};
    }
  }

  /**
   * With the own-key test every schema key is either resolved or left, whatever
   * its name; and on schemas without inherited names both subtractions agree.
   */
  lemma OwnRemainingPartitions(original: Schema, resolved: set<string>)
    ensures OwnRemaining(original, resolved).Keys !! resolved
    ensures OwnRemaining(original, resolved).Keys + (original.Keys * resolved) == original.Keys
    ensures original.Keys !! PrototypeNames ==> OwnRemaining(original, resolved) == Remaining(original, resolved)
  {
  }
}
