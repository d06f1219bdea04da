# Extraction pipeline — Dafny model

This project models the backend extraction pipeline of a document-extraction service. A caller sends the text of a
document and a *schema*: a map from field key to a description of what to extract. `ExtractionController.extract`
passes the schema through a chain of *extraction strategies*:

- The **cache strategy** looks each key up in the `extraction_cache` table. The lookup is scoped to a session and to a
  fingerprint of the document text.
- The **AI strategy** asks a structured-output completion service for the keys still unresolved.
- Each strategy returns the data it resolved and the schema that remains. That remainder is handed to the next strategy.

The controller merges the extracted data. It then writes a cache entry for every answered key that has none yet.

Modules, one per source file:

| module | file | models |
|---|---|---|
| `Values` | values.dfy | JSON values, schemas, answers and the two errors an extraction can end in |
| `AiTypes` | ai_types.dfy | `Prompt`, `CompletionArguments` and the JSON-Schema format |
| `Sdk` | sdk.dfy | `buildCompletionArgs` |
| `AiService` | ai_service.dfy | the AI service seen through its request queue |
| `ExtractionStrategy` | extraction_strategy.dfy | `subtractSchemaKeys` |
| `ExtractionCache` | extraction_cache.dfy | the repository: a class over a `seq` of rows |
| `CacheStrategies` | cache_strategy.dfy | `CacheStrategy.extract` |
| `AiStrategies` | ai_strategy.dfy | `convertSchemaToOpenAIFormat`, `buildPrompt`, `AIStrategy.extract` |
| `Controller` | extraction_controller.dfy | `ExtractionController.extract` and the default strategy list |

Stateful parts are classes: the repository, the two strategies, the AI service and the controller. Their methods
change fields and carry loop invariants. The controller is proved against a pure reference function `Chain`, built
from one strategy `Step` at a time. It is also proved against a ghost predicate `WrittenBack` that describes the
cache write-back. The properties of the pipeline are lemmas about `Chain` and `WrittenBack`.

Foreign primitives are parameters of the model:

- sha256 is the repository's `hash` function.
- `JSON.stringify` is its `stringify` function.
- uuid v4 is a counter `nextId`; the model proves every new id differs from every stored one.
- The session id is a constructor argument.
- The completion service is an oracle `replies(n, args)`: the reply to the n-th request.

Six behaviours of the code are easy to miss. The model follows the code in each:

- `subtractSchemaKeys` tests a key with `in`. On a plain object `in` also finds the twelve names every object inherits
  from `Object.prototype` (`constructor`, `toString`, `__proto__`, …). A schema field with such a name is therefore
  dropped from the remainder although nothing resolved it (see "## Findings").
- The cache strategy stores a hit with `extractedData[schemaKey] = …`. For the key `__proto__` the inherited
  `__proto__` setter ignores a string, so no entry is recorded.
- The completion call can return a null `output_parsed`. The service passes it back without error. The subtraction
  then throws a `TypeError` on its first schema key, which the controller does not catch (`UncaughtTypeError`).
- The AI strategy does not drop keys the schema did not declare. The reply is passed on unchanged
  (`UnfilteredReply`). The "answer stays within the schema" results therefore assume a service that honours the
  closed object schema (`Honest`).
- A value resolved by the AI is stored serialised. A later cache hit returns that stored text (a `JString`), not the
  original JSON value (`SecondExtractValues`).
- `create` neither checks for nor handles an existing entry.

## Model

| member | source | states |
|---|---|---|
| Sdk.BuildCompletionArgs | backend/src/services/ai/sdk.ts:30-51 | model "gpt-5-mini", low reasoning effort, strict `json_schema` format named "name"; temperature, prompt and schema passed through unchanged |
| Sdk.CompletionArgsDetermineInputs | backend/src/services/ai/sdk.ts:35-48 | two requests are equal exactly when their prompt, temperature and schema are |
| AiService.RequestArgs | backend/src/services/ai/queueManager.ts:31-33 | the queue asks at temperature 1 with the caller's prompt and schema under the fixed configuration |
| AiService.Normalize | backend/src/services/ai/queueManager.ts:32-37 | a provider error becomes `AIServiceError`, and only a provider error; a parsed reply is passed back unchanged; a null output is passed back as no data |
| AiService.AIService.GetCompletion | backend/src/services/ai/queueManager.ts:27-39 | exactly one request is appended to the log; the result is the normalised reply to it |
| AiService.AIService.constructor | backend/src/services/ai/index.ts:21-26 | a new service has sent nothing and answers from the given provider |
| ExtractionStrategy.Remaining | backend/src/extraction_strategies/extractionStrategy.ts:9-19 | keys are the original keys minus the resolved ones and minus the inherited names `in` also finds; every kept key keeps its description |
| ExtractionStrategy.SubtractSchemaKeys | backend/src/extraction_strategies/extractionStrategy.ts:9-19 | the loop builds a fresh map equal to `Remaining(original, extracted keys)` |
| ExtractionStrategy.RemainingPartitions | backend/src/extraction_strategies/extractionStrategy.ts:12-16 | the remainder is disjoint from the resolved keys and the inherited names; with the schema keys among those two it makes up the schema |
| ExtractionStrategy.RemainingNoForeignKeys | backend/src/extraction_strategies/extractionStrategy.ts:12-13 | a key only the extracted map has, a resolved key or an inherited name never appears in the remainder |
| ExtractionStrategy.RemainingExtremes | backend/src/extraction_strategies/extractionStrategy.ts:9-19 | covering every key leaves nothing; sharing no key with the resolved keys or the inherited names leaves the schema unchanged |
| ExtractionStrategy.RemainingCompose | backend/src/extraction_strategies/extractionStrategy.ts:9-19 | subtracting twice is subtracting the union; subtracting the same keys twice is subtracting once |
| ExtractionStrategy.RemainingAfterMerge | backend/src/controllers/extractionController.ts:57-59 | subtracting one strategy's keys after another's equals subtracting the keys of the merged answer |
| ExtractionStrategy.MergeWithinSchema | backend/src/controllers/extractionController.ts:58-59 | merging data drawn from the schema keeps earlier answers and stays disjoint from the remainder |
| ExtractionStrategy.PrototypeNameDropped | backend/src/extraction_strategies/extractionStrategy.ts:12-16 | a field named `constructor`, or `toString` beside `total`, is dropped by the subtraction though nothing resolved it |
| ExtractionStrategy.OwnRemaining | backend/src/extraction_strategies/extractionStrategy.ts:9-19 | the intended subtraction: exactly the keys not resolved, each with its description |
| ExtractionStrategy.SubtractOwnKeys | backend/src/extraction_strategies/extractionStrategy.ts:12-16 | the loop with an own-key test builds exactly `OwnRemaining` |
| ExtractionStrategy.OwnRemainingPartitions | backend/src/extraction_strategies/extractionStrategy.ts:12-16 | with the own-key test resolved and remaining keys split the schema exactly, whatever the names; on schemas without inherited names both subtractions agree |
| ExtractionCache.Sanitize | backend/src/repositories/extractionCache.ts:47-49 | every NUL removed, every other character kept with its count; the output has no NUL; NUL-free input is unchanged |
| ExtractionCache.SanitizeConcat | backend/src/repositories/extractionCache.ts:47-49 | sanitising distributes over concatenation, so kept characters keep their order |
| ExtractionCache.SanitizeFixedPoint | backend/src/repositories/extractionCache.ts:47-49 | a string is unchanged exactly when it has no NUL; sanitising is idempotent |
| ExtractionCache.SerializeExtractedData | backend/src/repositories/extractionCache.ts:54-59 | a string is stored as its sanitised text, any other value as its sanitised `stringify`; the stored text has no NUL; a NUL-free string is stored as it is |
| ExtractionCache.FirstMatch | backend/src/repositories/extractionCache.ts:77-93 | none exactly when no row matches session, fingerprint and key; otherwise a matching row of the table |
| ExtractionCache.FirstMatchExtend | backend/src/repositories/extractionCache.ts:78-86 | rows appended later never change a lookup that already hits |
| ExtractionCache.FreshId | backend/src/repositories/extractionCache.ts:66 | the new id exceeds every stored id |
| ExtractionCache.ExtractionCacheRepository.constructor | backend/src/repositories/extractionCache.ts:34-38 | the session id is fixed at construction |
| ExtractionCache.ExtractionCacheRepository.HashFileContent | backend/src/repositories/extractionCache.ts:40-42 | the sha256 fingerprint, the abstract `hash` applied to the text alone, with no contract of its own; that `create` and the lookup fingerprint the same text alike is stated by `Create` (its row's fingerprint and the key then cached) and `FindByFileTextAndExtractionKey` |
| ExtractionCache.ExtractionCacheRepository.Create | backend/src/repositories/extractionCache.ts:61-75 | appends exactly one row with a fresh id, this session, the text's fingerprint, the key and the serialised data; earlier rows unchanged; the key is then cached |
| ExtractionCache.ExtractionCacheRepository.FindByFileTextAndExtractionKey | backend/src/repositories/extractionCache.ts:77-93 | returns none exactly when nothing matches; otherwise the earliest row matching session, fingerprint and key |
| ExtractionCache.CreateThenFound | backend/src/repositories/extractionCache.ts:61-93 | after `create(t, k, v)` a lookup of `(t, k)` hits |
| CacheStrategies.CacheHits | backend/src/extraction_strategies/cacheStrategy.ts:17-25 | a key is a hit exactly when it is a schema key other than `__proto__` and the lookup finds a row |
| CacheStrategies.CacheHitValue | backend/src/extraction_strategies/cacheStrategy.ts:23 | a hit's value is the stored text of a matching row, unchanged |
| CacheStrategies.CacheHitsStep | backend/src/extraction_strategies/cacheStrategy.ts:20-25 | one more lookup adds its key exactly when it finds a row and the key is not `__proto__` |
| CacheStrategies.CacheHitsCoverSchema | backend/src/extraction_strategies/cacheStrategy.ts:17-26 | when every key has an entry, the hits cover the schema but for `__proto__`, and the remainder is empty |
| CacheStrategies.CacheHitsPartition | backend/src/extraction_strategies/cacheStrategy.ts:20-26 | hits and remainder are disjoint; with the schema's inherited names they make up the schema, alone when there are none |
| CacheStrategies.CacheStrategy.constructor | backend/src/extraction_strategies/cacheStrategy.ts:8-11 | the strategy reads the repository it is given |
| CacheStrategies.CacheStrategy.Extract | backend/src/extraction_strategies/cacheStrategy.ts:13-31 | extracted data are the cache hits; a key other than `__proto__` is extracted exactly when it is cached; hits, remainder and the schema's inherited names make up the schema, hits and remainder alone when there are none; reads only |
| AiStrategies.ConvertSchemaToOpenAIFormat | backend/src/extraction_strategies/aiStrategy.ts:14-29 | a closed "object" schema without additional properties whose properties and required set are exactly the schema keys, each a string with its description |
| AiStrategies.ConvertOnto | backend/src/extraction_strategies/aiStrategy.ts:14-29 | every closed object schema is the conversion of the schema it describes |
| AiStrategies.BuildPrompt | backend/src/extraction_strategies/aiStrategy.ts:31-42 | two turns: the fixed instruction as system, then the text verbatim as user |
| AiStrategies.ExtractionRequest | backend/src/extraction_strategies/aiStrategy.ts:48-50 | the request is at temperature 1 with the fixed configuration; its user turn is the document text; its schema is closed and describes the given schema |
| AiStrategies.AIStrategy.constructor | backend/src/extraction_strategies/aiStrategy.ts:9-12 | the strategy asks the service it is given |
| AiStrategies.AIStrategy.Extract | backend/src/extraction_strategies/aiStrategy.ts:44-56 | exactly one request; a service error propagates; a null reply fails with a `TypeError` unless the schema is empty; otherwise the reply unchanged, with its missing keys left in the remainder |
| Controller.DefaultStrategies | backend/src/extraction_strategies/index.ts:7-10 | the chain is the cache strategy on the repository, then the AI strategy on the service |
| Controller.Step | backend/src/controllers/extractionController.ts:57 | the cache strategy sends nothing, never fails and answers only schema keys other than `__proto__`; the AI strategy appends exactly its request; only the AI strategy fails, with a `TypeError` only on a non-empty schema |
| Controller.Chain | backend/src/controllers/extractionController.ts:49-60 | a resolved run keeps every key answered before it and leaves only keys of its schema; a failure needs an AI strategy and a non-empty schema; the request log never shrinks |
| Controller.WrittenBack | backend/src/controllers/extractionController.ts:62-67 | the write-back predicate: the table only grew, every written key has an entry, each added row is a new entry with a fresh id and no key is added twice |
| Controller.StepRequests | backend/src/controllers/extractionController.ts:57 | one strategy appends at most one request, and the cache strategy none |
| Controller.ChainRequestsPerAiStrategy | backend/src/controllers/extractionController.ts:51-60 | a run only appends to the request log, at most one request per AI strategy |
| Controller.ChainStepped | backend/src/controllers/extractionController.ts:57-59 | after a successful step the rest of the chain runs on the remainder, over the merged answer |
| Controller.ChainFailed | backend/src/controllers/extractionController.ts:57 | a failing strategy fails the run with its error and the requests sent so far |
| Controller.ChainRemainingInvariant | backend/src/controllers/extractionController.ts:57-59 | the schema in hand is always the original minus the keys answered so far |
| Controller.ExtractLeavesExactlyUnresolved | backend/src/controllers/extractionController.ts:49-60 | once a strategy has run, the final remainder is what the subtraction leaves of the schema after the answer's keys, with original descriptions; it is disjoint from the answer; every schema key is answered, left or an inherited name |
| Controller.HonestStepWithinSchema | backend/src/controllers/extractionController.ts:57 | with an honest service a strategy only answers keys of the schema it was handed |
| Controller.HonestChainKeepsAnswers | backend/src/controllers/extractionController.ts:51-60 | with an honest service a run never overrides an earlier answer and answers only schema keys |
| Controller.HonestExtractAnswersWithinSchema | backend/src/controllers/extractionController.ts:49-60 | with an honest service, every answered key is a schema key; answer, remainder and the schema's inherited names make up the schema, answer and remainder alone when there are none |
| Controller.DefaultChainCacheFirst | backend/src/controllers/extractionController.ts:51-59 | the default chain asks the cache first and hands only the unresolved keys on to the AI, over the cache hits |
| Controller.PrototypeFieldNeverExtracted | backend/src/extraction_strategies/extractionStrategy.ts:13 | the default chain on the schema `{constructor}` with no cache entry answers `{}`, leaves nothing unresolved and sends no request |
| Controller.AiOnlyChain | backend/src/controllers/extractionController.ts:51-60 | the AI step fails the run with its error, else merges its reply over the answer (the later value wins) |
| Controller.UnfilteredReply | backend/src/extraction_strategies/aiStrategy.ts:50-54 | any key of the reply, declared or not, reaches the answer with the service's value |
| Controller.EmptySchemaDoesNothing | backend/src/controllers/extractionController.ts:53-55 | an empty schema runs no strategy, answers `{}` and writes no row |
| Controller.CacheFirstFullHit | backend/src/controllers/extractionController.ts:51-59 | when the cache holds every key, the run sends no request and answers the cache hits |
| Controller.SecondExtractServedByCache | backend/src/controllers/extractionController.ts:47-71 | after an extract that resolved every key, a second one on the same text and schema is served by the cache alone |
| Controller.SecondExtractValues | backend/src/controllers/extractionController.ts:47-71 | with an honest service and a NUL-free table, that second answer is, key by key (but for `__proto__`), the stored text of the first answer's value |
| Controller.SecondExtractValueAt | backend/src/controllers/extractionController.ts:62-67 | the same, for one key, with an honest service and a NUL-free table |
| Controller.HonestCacheFirstKeepsHit | backend/src/controllers/extractionController.ts:58 | with an honest service a key other than `__proto__` cached when the run began keeps its cached text |
| Controller.PrefixHasMatch | backend/src/controllers/extractionController.ts:62-67 | a lookup that hits in a prefix of the table hits in the whole table |
| Controller.WrittenBackLookup | backend/src/controllers/extractionController.ts:62-67 | a key that had no entry is found afterwards in the row written for it |
| Controller.LookupAfterWriteBack | backend/src/controllers/extractionController.ts:62-67 | a key that had an entry is still found in the same row |
| Controller.WrittenBackCreate | backend/src/controllers/extractionController.ts:64-66 | creating an entry for an uncached key extends the write-back to that key |
| Controller.WrittenBackHit | backend/src/controllers/extractionController.ts:63-64 | a key that already has an entry joins the write-back without a new row |
| Controller.ExtractionController.constructor | backend/src/controllers/extractionController.ts:40-45 | the controller holds the service, the strategies and the repository it is given |
| Controller.ExtractionController.Extract | backend/src/controllers/extractionController.ts:47-71 | the result and request log are those of `Chain`; a failure returns the strategy's error and writes nothing; on success the returned answer is unchanged and the table is its write-back |
| Controller.ExtractionController.RunStrategies | backend/src/controllers/extractionController.ts:49-60 | the strategy loop computes exactly `Chain`: in order, stopping on an empty schema, merging each result, returning the first error |
| Controller.ExtractionController.ExtractWith | backend/src/controllers/extractionController.ts:57 | the dispatched `strategy.extract` call takes exactly one `Step` |
| Controller.ExtractionController.PersistNewEntries | backend/src/controllers/extractionController.ts:62-67 | every answered key ends up with an entry; only uncached answered keys get a row, one each, holding their serialised value |
| Controller.ExtractionController.PersistKey | backend/src/controllers/extractionController.ts:63-66 | one loop turn: looks the key up, creates its entry only on a miss |

## Left out

- The request queue's concurrency and rate limiting (queueManager.ts, p-queue) are left out. Requests are sequential here: the service is an oracle and a request log.
- The real completion call, `getCompletionNextToken` on the OpenAI SDK, is foreign code. Its answers are the oracle `replies`, and its failures are `ProviderError`.
- sha256, uuid v4 and `JSON.stringify` are parameters (`hash`, a fresh-id counter, `stringify`). Hash collisions are not reasoned about.
- The database behind `insert` and `select` is an in-memory sequence of rows. `select ... limit 1` is modelled as returning the earliest matching row; the source leaves that choice to the database. Insert conflicts are not modelled because the code has no handling for them.
- Key order of JavaScript objects is not modelled. Schemas are maps, and the `required` array is the set of its names.
- A value of any JSON kind is a `Json` datatype. A thrown exception is one of two `ServiceError` values, whatever its message: `AIServiceError` for the service's own error, `UncaughtTypeError` for the `TypeError` a null reply causes. A null reply is the `NullOutput` reply and, once passed back, no data (`None`).
- The HTTP status a failure is answered with is set by the route, which is not part of this model.
- Schema descriptions are modelled as strings. The route accepts any JSON value as a description and the AI strategy copies it into `description` unchanged.
- AiStrategies.AIStrategy.Extract: on a null reply for an empty schema it returns empty extracted data where the source returns `null`; no caller sees the difference, since the controller never runs a strategy on an empty schema.
- `benchmark` and `benchmarkFile` (file system, PDF parsing, `Promise.all`, timestamps) are left out as I/O.
- Logging and timing in `extract` are left out.
- HTTP and WebSocket transport, server start-up, the singleton collections and the frontend are left out as plumbing and UI.
- Controller.ExtractionController.Extract: its two loops are the helper methods `RunStrategies` and `PersistNewEntries`, and `strategy.extract` is the dispatch method `ExtractWith`. The source has one method body.
- Controller.HonestExtractAnswersWithinSchema: holds only for a service that answers only declared keys. The code does not enforce this (`UnfilteredReply`).
- Controller.SecondExtractValues, Controller.SecondExtractValueAt, Controller.HonestCacheFirstKeepsHit, Controller.LookupAfterWriteBack: say nothing about a `__proto__` key, which the cache strategy never returns.
- Controller.SecondExtractValues, Controller.SecondExtractValueAt: hold only with an honest service. A reply may answer a key the cache already held; the later value wins in the first answer, the write-back skips the key because it has an entry, and the second extract returns the older cached text.
- Controller.ExtractLeavesExactlyUnresolved: states the exact remainder only once a strategy has run or for a schema without inherited names; a chain with no strategy returns the schema as it is.
- The chain uses the subtraction as written (`Remaining`). The own-key subtraction (`OwnRemaining`) is the corrected definition beside it; it is not wired into the strategies, so the chain's results describe the code as it runs.

## Findings

| source | as written | input that shows it | evidently intended | confidence | as-written member | corrected member |
|---|---|---|---|---|---|---|
| backend/src/extraction_strategies/extractionStrategy.ts:13 | `key in extractedSchema` also finds names inherited from `Object.prototype` | schema `{"constructor": "d"}` with an empty cache: the cache strategy leaves `{}`, so the AI is never asked and the answer is `{}` | an own-key test (`Object.hasOwn`), under which every schema key is resolved or left | not executed | ExtractionStrategy.PrototypeNameDropped | ExtractionStrategy.OwnRemainingPartitions |
