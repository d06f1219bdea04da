/** The cache strategy: resolves the schema keys whose value the cache already holds for this document. */
module CacheStrategies {
  import opened Values
  import opened ExtractionStrategy
  import opened ExtractionCache

  /**
   * Reference definition of the cache strategy's hits: each schema key a lookup
   * finds, with the stored text; but not `__proto__`, whose assignment records nothing.
   */
  function CacheHits(rows: seq<CacheRow>, session: string, fileHash: string, schema: Schema): (hits: Answer)
    ensures forall k :: k in hits <==> k in schema && k != ProtoName && HasMatch(rows, session, fileHash, k)
  {
    map k | k in schema && k != ProtoName && FirstMatch(rows, session, fileHash, k).Some?
      :: JString(FirstMatch(rows, session, fileHash, k).value.extractedData)
  }

  /** A hit carries the stored text of a row of this session, fingerprint and key. */
  lemma CacheHitValue(rows: seq<CacheRow>, session: string, fileHash: string, schema: Schema, k: string)
    requires k in CacheHits(rows, session, fileHash, schema)
    ensures exists row :: row in rows && Matches(row, session, fileHash, k)
                          && CacheHits(rows, session, fileHash, schema)[k] == JString(row.extractedData)
  {
    var row := FirstMatch(rows, session, fileHash, k).value;
    assert row in rows && Matches(row, session, fileHash, k);
  }

  /** Looking one more key up extends the hits by that key exactly when the lookup finds a row. */
  lemma CacheHitsStep(rows: seq<CacheRow>, session: string, fileHash: string, schema: Schema, todo: set<string>, k: string)
    requires k in todo && todo <= schema.Keys
    ensures var before := CacheHits(rows, session, fileHash, schema - todo);
            var found := FirstMatch(rows, session, fileHash, k);
            CacheHits(rows, session, fileHash, schema - (todo - {k}))
            == if found.Some? && k != ProtoName then before[k := JString(found.value.extractedData)] else before
  {
  }

  /**
   * The hits and what the subtraction leaves of the schema are disjoint; with the
   * schema's inherited names they make up the whole schema, and without such
   * names they alone do.
   */
  lemma CacheHitsPartition(rows: seq<CacheRow>, session: string, fileHash: string, schema: Schema)
    ensures var hits := CacheHits(rows, session, fileHash, schema);
            hits.Keys !! Remaining(schema, hits.Keys).Keys
            && hits.Keys + Remaining(schema, hits.Keys).Keys + (schema.Keys * PrototypeNames) == schema.Keys
            && (schema.Keys !! PrototypeNames ==> hits.Keys + Remaining(schema, hits.Keys).Keys == schema.Keys)
  {
  }

  /**
   * When every schema key has an entry, the hits cover the schema but for a
   * `__proto__` key, and nothing is left over.
   */
  lemma CacheHitsCoverSchema(rows: seq<CacheRow>, session: string, fileHash: string, schema: Schema)
    requires forall k :: k in schema ==> HasMatch(rows, session, fileHash, k)
    ensures CacheHits(rows, session, fileHash, schema).Keys == schema.Keys - {ProtoName}
    ensures Remaining(schema, CacheHits(rows, session, fileHash, schema).Keys) == map[]
  {
  }

  class CacheStrategy {
    const repository: ExtractionCacheRepository

    constructor (repository: ExtractionCacheRepository)
      ensures this.repository == repository
    {
      this.repository := repository;
    }

    /**
     * Looks every schema key up in the cache, reading only: the hits become the
     * extracted data, the other keys keep their descriptions in the remainder.
     */
    method Extract(fileText: string, schema: Schema) returns (result: Extraction)
      ensures result.extractedData
              == CacheHits(repository.rows, repository.sessionId, repository.HashFileContent(fileText), schema)
      ensures forall k :: k in result.extractedData <==> k in schema && k != ProtoName && repository.Cached(fileText, k)
      ensures result.remainingKeysSchema == Remaining(schema, result.extractedData.Keys)
      ensures result.extractedData.Keys !! result.remainingKeysSchema.Keys
      ensures result.extractedData.Keys + result.remainingKeysSchema.Keys + (schema.Keys * PrototypeNames) == schema.Keys
      ensures schema.Keys !! PrototypeNames ==> result.extractedData.Keys + result.remainingKeysSchema.Keys == schema.Keys
    {
      ghost var fileHash := repository.HashFileContent(fileText);
      var extractedData: Answer := map[];
      var todo := schema.Keys;
      while todo != {}
        invariant todo <= schema.Keys
        invariant extractedData == CacheHits(repository.rows, repository.sessionId, fileHash, schema - todo)
        decreases todo
      {
        var schemaKey :| schemaKey in todo;
        CacheHitsStep(repository.rows, repository.sessionId, fileHash, schema, todo, schemaKey);
        var cacheEntry := repository.FindByFileTextAndExtractionKey(fileText, schemaKey);
        if cacheEntry.Some? {
          // Assigning a string to `__proto__` on a plain object adds no entry.
          if schemaKey != ProtoName {
            extractedData := extractedData[schemaKey := JString(cacheEntry.value.extractedData)];
          }
        }
        todo := todo - {schemaKey};
      }
      assert schema - todo == schema;
      var remainingKeysSchema := SubtractSchemaKeys(schema, extractedData);
      CacheHitsPartition(repository.rows, repository.sessionId, fileHash, schema);
      result := Extraction(extractedData, remainingKeysSchema);
    }
  }
}
