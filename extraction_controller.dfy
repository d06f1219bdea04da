/**
 * The extraction controller: runs the strategy chain over one document and
 * writes every newly resolved field back into the cache.
 */
module Controller {
  import opened Values
  import opened AiTypes
  import opened ExtractionStrategy
  import opened ExtractionCache
  import opened CacheStrategies
  import opened AiService
  import opened AiStrategies

  /** A strategy of the chain: the cache strategy or the AI strategy. */
  datatype Strategy = Cache(cache: CacheStrategy) | Ai(ai: AIStrategy)

  datatype Kind = CacheKind | AiKind

  function KindOf(s: Strategy): Kind
  {
    if s.Cache? then CacheKind else AiKind
  }

  function Kinds(strategies: seq<Strategy>): (kinds: seq<Kind>)
    ensures |kinds| == |strategies|
    ensures forall i :: 0 <= i < |strategies| ==> kinds[i] == KindOf(strategies[i])
  {
    seq(|strategies|, i requires 0 <= i < |strategies| => KindOf(strategies[i]))
  }

  /** The chain the service is built with: the cache first, then the AI. */
  method DefaultStrategies(repository: ExtractionCacheRepository, aiService: AIService) returns (strategies: seq<Strategy>)
    ensures |strategies| == 2 && strategies[0].Cache? && strategies[1].Ai?
    ensures Kinds(strategies) == [CacheKind, AiKind]
    ensures strategies[0].cache.repository == repository && strategies[1].ai.aiService == aiService
  {
    var cacheStrategy := new CacheStrategy(repository);
    var aiStrategy := new AIStrategy(aiService);
    strategies := [Cache(cacheStrategy), Ai(aiStrategy)];
  }

  /** What the chain sees of the world during one extraction: the cache table, the session, the document and the service's answers. */
  datatype Env = Env(
    rows: seq<CacheRow>,
    session: string,
    fileHash: string,
    fileText: string,
    replies: (nat, CompletionArguments) -> Reply)

  /** What one strategy's `extract` yields: its data and the request log after it; or the error it threw. */
  datatype StepOutcome =
    | Stepped(extracted: Answer, sent: seq<CompletionArguments>)
    | StepFailed(error: ServiceError, sent: seq<CompletionArguments>)

  /**
   * One strategy run on `schema`: the cache strategy yields its hits and sends
   * nothing; the AI strategy sends one request and yields the reply as it is,
   * fails with the service's error, or, on a null reply, fails with the
   * subtraction's `TypeError` unless the schema is empty.
   */
  function Step(kind: Kind, env: Env, sent: seq<CompletionArguments>, schema: Schema): (step: StepOutcome)
    ensures step.sent == sent + (if kind == AiKind then [ExtractionRequest(env.fileText, schema)] else [])
    ensures kind == CacheKind ==> step.Stepped? && step.extracted.Keys <= schema.Keys - {ProtoName}
    ensures step.StepFailed? ==> kind == AiKind
    ensures step.StepFailed? && step.error == UncaughtTypeError ==> |schema| != 0
  {
    match kind
    case CacheKind => Stepped(CacheHits(env.rows, env.session, env.fileHash, schema), sent)
    case AiKind =>
      var args := ExtractionRequest(env.fileText, schema);
      match env.replies(|sent|, args)
      case ProviderError(_) => StepFailed(AIServiceError, sent + [args])
      case NullOutput => if |schema| != 0 then StepFailed(UncaughtTypeError, sent + [args]) else Stepped(map[], sent + [args])
      case Parsed(data) => Stepped(data, sent + [args])
  }

  /**
   * The end of a chain run: the merged answer, the schema left unresolved and
   * every request the service has received; or the error a strategy threw.
   */
  datatype ChainOutcome =
    | Resolved(answer: Answer, remaining: Schema, sent: seq<CompletionArguments>)
    | Failed(error: ServiceError, sent: seq<CompletionArguments>)

  /**
   * Reference definition of the strategy chain. Strategies run in list order,
   * each on the schema its predecessor left; the run stops as soon as that
   * schema is empty; each strategy's data is merged over the answer so far.
   * `sent` is the service's request log, whose length numbers the next request.
   */
  function Chain(kinds: seq<Kind>, env: Env, sent: seq<CompletionArguments>, schema: Schema, answer: Answer): (r: ChainOutcome)
    ensures r.Resolved? ==> answer.Keys <= r.answer.Keys && r.remaining.Keys <= schema.Keys
    ensures r.Failed? ==> AiKind in kinds && |schema| != 0
    ensures |sent| <= |r.sent|
    decreases |kinds|
  {
    if kinds == [] || |schema| == 0 then Resolved(answer, schema, sent)
    else
      match Step(kinds[0], env, sent, schema)
      case StepFailed(error, failedSent) => Failed(error, failedSent)
      case Stepped(data, stepSent) => Chain(kinds[1..], env, stepSent, Remaining(schema, data.Keys), answer + data)
  }

  /** A row the write-back added: for a key of the answer that had no entry, under this session and fingerprint, with a fresh id. */
  ghost predicate NewEntry(before: seq<CacheRow>, row: CacheRow, session: string, fileHash: string,
                           stringify: Json -> string, answer: Answer, keys: set<string>)
  {
    && row.extractionKey in keys && row.extractionKey in answer
    && !HasMatch(before, session, fileHash, row.extractionKey)
    && row.sessionId == session && row.fileHash == fileHash
    && row.extractedData == SerializeExtractedData(stringify, answer[row.extractionKey])
    && forall earlier :: earlier in before ==> earlier.id != row.id
  }

  /**
   * The write-back of `keys` of `answer`: the table only grew; every key now has
   * an entry; each added row is a new entry, and no key was added twice.
   */
  ghost predicate WrittenBack(before: seq<CacheRow>, after: seq<CacheRow>, session: string, fileHash: string,
                              stringify: Json -> string, answer: Answer, keys: set<string>)
  {
    && |before| <= |after| && after[..|before|] == before
    && (forall k :: k in keys ==> HasMatch(after, session, fileHash, k))
    && (forall i :: |before| <= i < |after| ==> NewEntry(before, after[i], session, fileHash, stringify, answer, keys))
    && (forall i, j :: |before| <= i < j < |after| ==> after[i].extractionKey != after[j].extractionKey)
  }

  /** Merging data into an empty answer yields that data. */
  lemma MergeIntoEmpty(data: Answer)
    ensures map[] + data == data
  {
    assert (map[] + data).Keys == data.Keys;
  }

  /** A lookup that hits in a prefix of the table hits in the whole table. */
  lemma PrefixHasMatch(before: seq<CacheRow>, after: seq<CacheRow>, session: string, fileHash: string, key: string)
    requires |before| <= |after| && after[..|before|] == before
    requires HasMatch(before, session, fileHash, key)
    ensures HasMatch(after, session, fileHash, key)
  {
    var row :| row in before && Matches(row, session, fileHash, key);
    assert row in after[..|before|];
  }

  /** The number of AI strategies in a chain. */
  function AiCount(kinds: seq<Kind>): nat
  {
    if kinds == [] then 0 else (if kinds[0] == AiKind then 1 else 0) + AiCount(kinds[1..])
  }

  /** One strategy appends at most one request to the log, and the cache strategy none. */
  lemma StepRequests(kind: Kind, env: Env, sent: seq<CompletionArguments>, schema: Schema)
    ensures var step := Step(kind, env, sent, schema);
            && |sent| <= |step.sent| <= |sent| + (if kind == AiKind then 1 else 0)
            && step.sent[..|sent|] == sent
  {
    if kind == AiKind {
      var args := ExtractionRequest(env.fileText, schema);
      assert (sent + [args])[..|sent|] == sent;
    }
  }

  /** A run only appends to the service's request log, at most one request per AI strategy. */
  lemma {:induction false} ChainRequestsPerAiStrategy(kinds: seq<Kind>, env: Env, sent: seq<CompletionArguments>, schema: Schema, answer: Answer)
    ensures var outcome := Chain(kinds, env, sent, schema, answer);
            && |sent| <= |outcome.sent| <= |sent| + AiCount(kinds)
            && outcome.sent[..|sent|] == sent
  {
    if kinds != [] && |schema| != 0 {
      var step := Step(kinds[0], env, sent, schema);
      StepRequests(kinds[0], env, sent, schema);
      if step.Stepped? {
        ChainRequestsPerAiStrategy(kinds[1..], env, step.sent, Remaining(schema, step.extracted.Keys), answer + step.extracted);
        assert step.sent[..|sent|] == sent;
      }
    }
  }

  /** One step of a chain that does not fail: the rest of the chain runs on the unresolved keys. */
  lemma ChainStepped(kinds: seq<Kind>, env: Env, sent: seq<CompletionArguments>, schema: Schema, answer: Answer)
    requires kinds != [] && |schema| != 0 && Step(kinds[0], env, sent, schema).Stepped?
    ensures var step := Step(kinds[0], env, sent, schema);
            Chain(kinds, env, sent, schema, answer)
            == Chain(kinds[1..], env, step.sent, Remaining(schema, step.extracted.Keys), answer + step.extracted)
  {
  }

  /** One step of a chain that fails: the chain fails with the requests sent so far. */
  lemma ChainFailed(kinds: seq<Kind>, env: Env, sent: seq<CompletionArguments>, schema: Schema, answer: Answer)
    requires kinds != [] && |schema| != 0 && Step(kinds[0], env, sent, schema).StepFailed?
    ensures var step := Step(kinds[0], env, sent, schema);
            Chain(kinds, env, sent, schema, answer) == Failed(step.error, step.sent)
  {
  }

  /** Throughout a run the schema in hand is the original minus the keys answered so far. */
  lemma {:induction false} ChainRemainingInvariant(kinds: seq<Kind>, env: Env, sent: seq<CompletionArguments>,
                                                   original: Schema, schema: Schema, answer: Answer)
    requires schema == Remaining(original, answer.Keys)
    ensures var outcome := Chain(kinds, env, sent, schema, answer);
            outcome.Resolved? ==> outcome.remaining == Remaining(original, outcome.answer.Keys)
  {
    if kinds != [] && |schema| != 0 {
      var step := Step(kinds[0], env, sent, schema);
      if step.Stepped? {
        var data := step.extracted;
        ChainStepped(kinds, env, sent, schema, answer);
        RemainingAfterMerge(original, answer, data);
        ChainRemainingInvariant(kinds[1..], env, step.sent, original, Remaining(schema, data.Keys), answer + data);
      }
    }
  }

  /**
   * Once a strategy has run, what `extract` leaves unresolved is exactly what
   * the subtraction leaves of the schema after the answer's keys, with the
   * original descriptions: every schema key is answered, left, or an
   * inherited name.
   */
  lemma {:induction false} ExtractLeavesExactlyUnresolved(kinds: seq<Kind>, env: Env, sent: seq<CompletionArguments>, schema: Schema)
    ensures var outcome := Chain(kinds, env, sent, schema, map[]);
            outcome.Resolved? ==>
              && ((kinds != [] || schema.Keys !! PrototypeNames) ==> outcome.remaining == Remaining(schema, outcome.answer.Keys))
              && outcome.answer.Keys !! outcome.remaining.Keys
              && schema.Keys <= outcome.answer.Keys + outcome.remaining.Keys + PrototypeNames
  {
    if kinds == [] || |schema| == 0 {
      RemainingExtremes(schema, {});
    } else {
      var step := Step(kinds[0], env, sent, schema);
      if step.Stepped? {
        var data := step.extracted;
        ChainStepped(kinds, env, sent, schema, map[]);
        assert (map[] + data).Keys == data.Keys;
        ChainRemainingInvariant(kinds[1..], env, step.sent, schema, Remaining(schema, data.Keys), map[] + data);
        var outcome := Chain(kinds, env, sent, schema, map[]);
        if outcome.Resolved? {
          RemainingPartitions(schema, outcome.answer.Keys);
        }
      }
    }
  }

  /** The service honours the closed object contract: a reply holds only keys the request declared. */
  ghost predicate Honest(replies: (nat, CompletionArguments) -> Reply)
  {
    forall n: nat, args: CompletionArguments ::
      replies(n, args).Parsed? ==> replies(n, args).data.Keys <= args.text.format.schema.properties.Keys
  }

  /** With an honest service, every strategy only answers keys of the schema it was handed. */
  lemma HonestStepWithinSchema(kind: Kind, env: Env, sent: seq<CompletionArguments>, schema: Schema)
    requires Honest(env.replies)
    ensures var step := Step(kind, env, sent, schema);
            step.Stepped? ==> step.extracted.Keys <= schema.Keys
  {
    if kind == AiKind {
      var args := ExtractionRequest(env.fileText, schema);
      assert args.text.format.schema.properties.Keys == schema.Keys;
    }
  }

  /**
   * With an honest service, a run never touches a key it already answered and
   * only answers keys of the schema it was handed.
   */
  lemma {:induction false} HonestChainKeepsAnswers(kinds: seq<Kind>, env: Env, sent: seq<CompletionArguments>,
                                                   schema: Schema, answer: Answer)
    requires Honest(env.replies)
    requires answer.Keys !! schema.Keys
    ensures var outcome := Chain(kinds, env, sent, schema, answer);
            outcome.Resolved? ==>
              && outcome.answer.Keys <= answer.Keys + schema.Keys
              && forall k :: k in answer ==> k in outcome.answer && outcome.answer[k] == answer[k]
  {
    if kinds != [] && |schema| != 0 {
      var step := Step(kinds[0], env, sent, schema);
      HonestStepWithinSchema(kinds[0], env, sent, schema);
      if step.Stepped? {
        var data := step.extracted;
        ChainStepped(kinds, env, sent, schema, answer);
        MergeWithinSchema(schema, answer, data);
        HonestChainKeepsAnswers(kinds[1..], env, step.sent, Remaining(schema, data.Keys), answer + data);
      }
    }
  }

  /**
   * With an honest service every answered key is a schema key, and answer,
   * remainder and the schema's inherited names make up the schema; without
   * inherited names, answer and remainder alone do.
   */
  lemma HonestExtractAnswersWithinSchema(kinds: seq<Kind>, env: Env, sent: seq<CompletionArguments>, schema: Schema)
    requires Honest(env.replies)
    ensures var outcome := Chain(kinds, env, sent, schema, map[]);
            outcome.Resolved? ==>
              && outcome.answer.Keys <= schema.Keys
              && outcome.answer.Keys + outcome.remaining.Keys + (schema.Keys * PrototypeNames) == schema.Keys
              && (schema.Keys !! PrototypeNames ==> outcome.answer.Keys + outcome.remaining.Keys == schema.Keys)
  {
    HonestChainKeepsAnswers(kinds, env, sent, schema, map[]);
    ExtractLeavesExactlyUnresolved(kinds, env, sent, schema);
    var outcome := Chain(kinds, env, sent, schema, map[]);
    if outcome.Resolved? {
      UnionWithin(schema.Keys, outcome.answer.Keys, outcome.remaining.Keys);
    }
  }

  /** Two parts of a set that, with its inherited names, cover it, make it up with those names. */
  lemma UnionWithin(whole: set<string>, a: set<string>, b: set<string>)
    requires a <= whole && b <= whole && whole <= a + b + PrototypeNames
    ensures a + b + (whole * PrototypeNames) == whole
    ensures whole !! PrototypeNames ==> a + b == whole
  {
  }

  /**
   * The default chain asks the cache first: what follows is the AI strategy
   * alone, asked only for the keys the cache left, over the cache hits.
   */
  lemma DefaultChainCacheFirst(env: Env, sent: seq<CompletionArguments>, schema: Schema)
    ensures var hits := CacheHits(env.rows, env.session, env.fileHash, schema);
            Chain([CacheKind, AiKind], env, sent, schema, map[])
            == Chain([AiKind], env, sent, Remaining(schema, hits.Keys), hits)
  {
    var hits := CacheHits(env.rows, env.session, env.fileHash, schema);
    assert [CacheKind, AiKind][1..] == [AiKind];
    MergeIntoEmpty(hits);
    if |schema| == 0 {
      assert hits == map[];
    }
  }

  /**
   * A schema whose only field is named `constructor`, with no cache entry for
   * it: the default chain answers nothing, leaves nothing unresolved and never
   * asks the AI service, because the `in` test finds the inherited name.
   */
  lemma PrototypeFieldNeverExtracted(env: Env, sent: seq<CompletionArguments>, description: string)
    requires !HasMatch(env.rows, env.session, env.fileHash, "constructor")
    ensures Chain([CacheKind, AiKind], env, sent, map["constructor" := description], map[])
            == Resolved(map[], map[], sent)
  {
    var schema := map["constructor" := description];
    var hits := CacheHits(env.rows, env.session, env.fileHash, schema);
    assert hits == map[];
    PrototypeNameDropped(description);
    DefaultChainCacheFirst(env, sent, schema);
  }

  /**
   * A chain holding only the AI strategy: one request for the whole schema; a provider
   * error fails the chain, otherwise the reply, unfiltered, is merged over the answer.
   */
  lemma AiOnlyChain(env: Env, sent: seq<CompletionArguments>, schema: Schema, answer: Answer)
    requires |schema| != 0
    ensures var step := Step(AiKind, env, sent, schema);
            Chain([AiKind], env, sent, schema, answer) ==
              if step.StepFailed? then Failed(step.error, step.sent)
              else Resolved(answer + step.extracted, Remaining(schema, step.extracted.Keys), step.sent)
  {
    assert [AiKind][1..] == [];
  }

  /**
   * The reply is not filtered: any key the service returns, declared by the
   * schema or not, reaches the answer with the service's value.
   */
  lemma UnfilteredReply(env: Env, sent: seq<CompletionArguments>, schema: Schema, answer: Answer, k: string)
    requires |schema| != 0
    requires env.replies(|sent|, ExtractionRequest(env.fileText, schema)).Parsed?
    requires k in env.replies(|sent|, ExtractionRequest(env.fileText, schema)).data
    ensures Chain([AiKind], env, sent, schema, answer).Resolved?
    ensures k in Chain([AiKind], env, sent, schema, answer).answer
    ensures Chain([AiKind], env, sent, schema, answer).answer[k]
            == env.replies(|sent|, ExtractionRequest(env.fileText, schema)).data[k]
  {
    AiOnlyChain(env, sent, schema, answer);
  }

  /** An empty schema: no strategy runs, the answer is empty and the write-back adds nothing. */
  lemma EmptySchemaDoesNothing(kinds: seq<Kind>, env: Env, sent: seq<CompletionArguments>,
                               after: seq<CacheRow>, stringify: Json -> string)
    requires WrittenBack(env.rows, after, env.session, env.fileHash, stringify, map[], {})
    ensures Chain(kinds, env, sent, map[], map[]) == Resolved(map[], map[], sent)
    ensures after == env.rows
  {
    assert |after| > |env.rows| ==> after[|env.rows|].extractionKey in {};
    assert after == after[..|env.rows|];
  }

  /** When the cache strategy comes first and holds every schema key, the AI service is not asked. */
  lemma CacheFirstFullHit(kinds: seq<Kind>, env: Env, sent: seq<CompletionArguments>, schema: Schema)
    requires |kinds| > 0 && kinds[0] == CacheKind
    requires forall k :: k in schema ==> HasMatch(env.rows, env.session, env.fileHash, k)
    ensures Chain(kinds, env, sent, schema, map[]) == Resolved(CacheHits(env.rows, env.session, env.fileHash, schema), map[], sent)
  {
    var hits := CacheHits(env.rows, env.session, env.fileHash, schema);
    CacheHitsCoverSchema(env.rows, env.session, env.fileHash, schema);
    MergeIntoEmpty(hits);
    if |schema| != 0 {
      ChainStepped(kinds, env, sent, schema, map[]);
    } else {
      assert hits == map[];
    }
  }

  /**
   * Cache-hit idempotence: once an `extract` resolved every schema key and wrote
   * back, a second `extract` with the same text and schema on the resulting
   * table is answered by the cache alone, with no request to the AI service.
   */
  lemma SecondExtractServedByCache(kinds: seq<Kind>, env: Env, sent: seq<CompletionArguments>, schema: Schema,
                                   stringify: Json -> string, rows: seq<CacheRow>, sentAgain: seq<CompletionArguments>)
    requires |kinds| > 0 && kinds[0] == CacheKind
    requires Chain(kinds, env, sent, schema, map[]).Resolved?
    requires schema.Keys <= Chain(kinds, env, sent, schema, map[]).answer.Keys
    requires WrittenBack(env.rows, rows, env.session, env.fileHash, stringify,
                         Chain(kinds, env, sent, schema, map[]).answer, Chain(kinds, env, sent, schema, map[]).answer.Keys)
    ensures Chain(kinds, env.(rows := rows), sentAgain, schema, map[])
            == Resolved(CacheHits(rows, env.session, env.fileHash, schema), map[], sentAgain)
    ensures CacheHits(rows, env.session, env.fileHash, schema).Keys == schema.Keys - {ProtoName}
  {
    CacheFirstFullHit(kinds, env.(rows := rows), sentAgain, schema);
  }

  /**
   * With an honest service, a key the cache held when the chain began keeps
   * the cached text in the answer: no later strategy overrides it.
   */
  lemma HonestCacheFirstKeepsHit(kinds: seq<Kind>, env: Env, sent: seq<CompletionArguments>, schema: Schema, k: string)
    requires |kinds| > 0 && kinds[0] == CacheKind
    requires Honest(env.replies)
    requires k in schema && k != ProtoName && HasMatch(env.rows, env.session, env.fileHash, k)
    requires Chain(kinds, env, sent, schema, map[]).Resolved?
    ensures k in Chain(kinds, env, sent, schema, map[]).answer
    ensures Chain(kinds, env, sent, schema, map[]).answer[k]
            == JString(FirstMatch(env.rows, env.session, env.fileHash, k).value.extractedData)
  {
    var hits := CacheHits(env.rows, env.session, env.fileHash, schema);
    assert Step(kinds[0], env, sent, schema) == Stepped(hits, sent);
    ChainStepped(kinds, env, sent, schema, map[]);
    MergeWithinSchema(schema, map[], hits);
    HonestChainKeepsAnswers(kinds[1..], env, sent, Remaining(schema, hits.Keys), map[] + hits);
  }

  /** A key with no entry before the write-back is found, afterwards, in the row the write-back added for it. */
  lemma WrittenBackLookup(before: seq<CacheRow>, after: seq<CacheRow>, session: string, fileHash: string,
                          stringify: Json -> string, answer: Answer, k: string)
    requires WrittenBack(before, after, session, fileHash, stringify, answer, answer.Keys)
    requires k in answer && !HasMatch(before, session, fileHash, k)
    ensures FirstMatch(after, session, fileHash, k).Some?
    ensures FirstMatch(after, session, fileHash, k).value.extractedData == SerializeExtractedData(stringify, answer[k])
  {
    var row := FirstMatch(after, session, fileHash, k).value;
    var i :| 0 <= i < |after| && after[i] == row;
    assert i >= |before|;
    assert NewEntry(before, after[i], session, fileHash, stringify, answer, answer.Keys);
  }

  /**
   * The values of that second `extract`: with an honest service and a NUL-free
   * table, each key comes back as the stored text of the first answer's value,
   * which for a NUL-free string is the value itself.
   */
  lemma SecondExtractValues(kinds: seq<Kind>, env: Env, sent: seq<CompletionArguments>, schema: Schema,
                            stringify: Json -> string, rows: seq<CacheRow>)
    requires |kinds| > 0 && kinds[0] == CacheKind
    requires Honest(env.replies)
    requires forall row :: row in env.rows ==> NUL !in row.extractedData
    requires Chain(kinds, env, sent, schema, map[]).Resolved?
    requires schema.Keys <= Chain(kinds, env, sent, schema, map[]).answer.Keys
    requires WrittenBack(env.rows, rows, env.session, env.fileHash, stringify,
                         Chain(kinds, env, sent, schema, map[]).answer, Chain(kinds, env, sent, schema, map[]).answer.Keys)
    ensures forall k :: k in schema && k != ProtoName ==>
              CacheHits(rows, env.session, env.fileHash, schema)[k]
              == JString(SerializeExtractedData(stringify, Chain(kinds, env, sent, schema, map[]).answer[k]))
  {
    forall k | k in schema && k != ProtoName
      ensures CacheHits(rows, env.session, env.fileHash, schema)[k]
              == JString(SerializeExtractedData(stringify, Chain(kinds, env, sent, schema, map[]).answer[k]))
    {
      SecondExtractValueAt(kinds, env, sent, schema, stringify, rows, k);
    }
  }

  lemma SecondExtractValueAt(kinds: seq<Kind>, env: Env, sent: seq<CompletionArguments>, schema: Schema,
                             stringify: Json -> string, rows: seq<CacheRow>, k: string)
    requires |kinds| > 0 && kinds[0] == CacheKind
    requires Honest(env.replies)
    requires forall row :: row in env.rows ==> NUL !in row.extractedData
    requires Chain(kinds, env, sent, schema, map[]).Resolved?
    requires schema.Keys <= Chain(kinds, env, sent, schema, map[]).answer.Keys
    requires WrittenBack(env.rows, rows, env.session, env.fileHash, stringify,
                         Chain(kinds, env, sent, schema, map[]).answer, Chain(kinds, env, sent, schema, map[]).answer.Keys)
    requires k in schema && k != ProtoName
    ensures k in CacheHits(rows, env.session, env.fileHash, schema)
    ensures CacheHits(rows, env.session, env.fileHash, schema)[k]
            == JString(SerializeExtractedData(stringify, Chain(kinds, env, sent, schema, map[]).answer[k]))
  {
    var first := Chain(kinds, env, sent, schema, map[]);
    assert HasMatch(rows, env.session, env.fileHash, k);
    if HasMatch(env.rows, env.session, env.fileHash, k) {
      HonestCacheFirstKeepsHit(kinds, env, sent, schema, k);
      var stored := FirstMatch(env.rows, env.session, env.fileHash, k).value;
      assert stored in env.rows;
      LookupAfterWriteBack(env.rows, rows, env.session, env.fileHash, schema, k);
      assert SerializeExtractedData(stringify, JString(stored.extractedData)) == stored.extractedData;
    } else {
      WrittenBackLookup(env.rows, rows, env.session, env.fileHash, stringify, first.answer, k);
    }
  }

  /** A key the table already held is looked up, after the table grew, in the same row as before. */
  lemma LookupAfterWriteBack(before: seq<CacheRow>, after: seq<CacheRow>, session: string, fileHash: string, schema: Schema, k: string)
    requires |before| <= |after| && after[..|before|] == before
    requires k in schema && k != ProtoName && HasMatch(before, session, fileHash, k)
    ensures k in CacheHits(after, session, fileHash, schema)
    ensures CacheHits(after, session, fileHash, schema)[k] == JString(FirstMatch(before, session, fileHash, k).value.extractedData)
  {
    assert after == before + after[|before|..];
    FirstMatchExtend(before, after[|before|..], session, fileHash, k);
  }

  /** Appending the row `create` made for a key with no entry extends the write-back to that key. */
  lemma WrittenBackCreate(before: seq<CacheRow>, previous: seq<CacheRow>, row: CacheRow, session: string, fileHash: string,
                          stringify: Json -> string, answer: Answer, keys: set<string>, key: string)
    requires WrittenBack(before, previous, session, fileHash, stringify, answer, keys)
    requires key in answer && key !in keys && !HasMatch(previous, session, fileHash, key)
    requires row.sessionId == session && row.fileHash == fileHash && row.extractionKey == key
    requires row.extractedData == SerializeExtractedData(stringify, answer[key])
    requires forall earlier :: earlier in previous ==> earlier.id != row.id
    ensures WrittenBack(before, previous + [row], session, fileHash, stringify, answer, keys + {key})
  {
    var after := previous + [row];
    assert after[..|before|] == previous[..|before|];
    if HasMatch(before, session, fileHash, key) {
      PrefixHasMatch(before, previous, session, fileHash, key);
    }
    forall k | k in keys + {key}
      ensures HasMatch(after, session, fileHash, k)
    {
      if k == key {
        assert row in after;
      } else {
        PrefixHasMatch(previous, after, session, fileHash, k);
      }
    }
    forall i | |before| <= i < |after|
      ensures NewEntry(before, after[i], session, fileHash, stringify, answer, keys + {key})
    {
      if i < |previous| {
        assert after[i] == previous[i];
      } else {
        forall earlier | earlier in before
          ensures earlier.id != row.id
        {
          assert earlier in previous[..|before|];
        }
      }
    }
  }

  /** A key that already has an entry joins the write-back without a new row. */
  lemma WrittenBackHit(before: seq<CacheRow>, after: seq<CacheRow>, session: string, fileHash: string,
                       stringify: Json -> string, answer: Answer, keys: set<string>, key: string)
    requires WrittenBack(before, after, session, fileHash, stringify, answer, keys)
    requires HasMatch(after, session, fileHash, key)
    ensures WrittenBack(before, after, session, fileHash, stringify, answer, keys + {key})
  {
    forall i | |before| <= i < |after|
      ensures NewEntry(before, after[i], session, fileHash, stringify, answer, keys + {key})
    {
      assert NewEntry(before, after[i], session, fileHash, stringify, answer, keys);
    }
  }

  class ExtractionController {
    const aiService: AIService
    const strategies: seq<Strategy>
    const repository: ExtractionCacheRepository

    /** Every strategy of the chain uses the controller's cache repository and AI service. */
    ghost predicate Valid()
      reads this, repository
    {
      && repository.Valid()
      && forall i :: 0 <= i < |strategies| ==>
           && (strategies[i].Cache? ==> strategies[i].cache.repository == repository)
           && (strategies[i].Ai? ==> strategies[i].ai.aiService == aiService)
    }

    constructor (aiService: AIService, strategies: seq<Strategy>, repository: ExtractionCacheRepository)
      requires repository.Valid()
      requires forall i :: 0 <= i < |strategies| ==>
                 && (strategies[i].Cache? ==> strategies[i].cache.repository == repository)
                 && (strategies[i].Ai? ==> strategies[i].ai.aiService == aiService)
      ensures Valid()
      ensures this.aiService == aiService && this.strategies == strategies && this.repository == repository
    {
      this.aiService := aiService;
      this.strategies := strategies;
      this.repository := repository;
    }

    /** The world as the chain sees it when extracting from `fileText` now. */
    ghost function ChainEnv(fileText: string): Env
      reads this, repository, aiService
    {
      Env(repository.rows, repository.sessionId, repository.HashFileContent(fileText), fileText, aiService.replies)
    }

    /**
     * Extracts `schema` from `fileText`: runs the chain, then creates a cache
     * entry for every key of the answer that has none. A service failure
     * propagates and nothing is written.
     */
    method Extract(fileText: string, schema: Schema) returns (r: Result<Answer>)
      requires Valid()
      modifies repository, aiService
      ensures Valid()
      ensures var outcome := Chain(Kinds(strategies), old(ChainEnv(fileText)), old(aiService.requests), schema, map[]);
              && aiService.requests == outcome.sent
              && (outcome.Failed? ==> r == Err(outcome.error) && repository.rows == old(repository.rows))
              && (outcome.Resolved? ==>
                    && r == Ok(outcome.answer)
                    && WrittenBack(old(repository.rows), repository.rows, repository.sessionId,
                                   repository.HashFileContent(fileText), repository.stringify,
                                   outcome.answer, outcome.answer.Keys))
    {
      r := RunStrategies(fileText, schema);
      if r.Ok? {
        PersistNewEntries(fileText, r.value);
      }
    }

    /** The strategy loop of `extract`: only the AI service changes. */
    method RunStrategies(fileText: string, schema: Schema) returns (r: Result<Answer>)
      requires Valid()
      modifies aiService
      ensures var outcome := Chain(Kinds(strategies), old(ChainEnv(fileText)), old(aiService.requests), schema, map[]);
              && aiService.requests == outcome.sent
              && (outcome.Failed? ==> r == Err(outcome.error))
              && (outcome.Resolved? ==> r == Ok(outcome.answer))
    {
      ghost var env := ChainEnv(fileText);
      ghost var kinds := Kinds(strategies);
      var answerObject: Answer := map[];
      var remainingSchema := schema;
      var i := 0;
      while i < |strategies|
        invariant 0 <= i <= |strategies|
        invariant Chain(kinds[i..], env, aiService.requests, remainingSchema, answerObject)
                  == Chain(kinds, env, old(aiService.requests), schema, map[])
      {
        if |remainingSchema| == 0 {
          break;
        }
        assert kinds[i..][1..] == kinds[i + 1..];
        ghost var sentBefore := aiService.requests;
        ghost var schemaBefore := remainingSchema;
        ghost var answerBefore := answerObject;
        var outcome := ExtractWith(strategies[i], fileText, remainingSchema);
        if outcome.Err? {
          ChainFailed(kinds[i..], env, sentBefore, schemaBefore, answerBefore);
          return Err(outcome.error);
        }
        ChainStepped(kinds[i..], env, sentBefore, schemaBefore, answerBefore);
        answerObject := answerObject + outcome.value.extractedData;
        remainingSchema := outcome.value.remainingKeysSchema;
        i := i + 1;
      }
      r := Ok(answerObject);
    }

    /**
     * The call `strategy.extract(fileText, schema)`, dispatched on the kind of
     * strategy: it takes exactly the step `Step` describes.
     */
    method ExtractWith(strategy: Strategy, fileText: string, schema: Schema) returns (r: Result<Extraction>)
      requires strategy.Cache? ==> strategy.cache.repository == repository
      requires strategy.Ai? ==> strategy.ai.aiService == aiService
      modifies aiService
      ensures var step := Step(KindOf(strategy), old(ChainEnv(fileText)), old(aiService.requests), schema);
              && aiService.requests == step.sent
              && (step.StepFailed? ==> r == Err(step.error))
              && (step.Stepped? ==> r == Ok(Extraction(step.extracted, Remaining(schema, step.extracted.Keys))))
    {
      match strategy {
        case Cache(cacheStrategy) =>
          var extraction := cacheStrategy.Extract(fileText, schema);
          r := Ok(extraction);
        case Ai(aiStrategy) =>
          r := aiStrategy.Extract(fileText, schema);
      }
    }

    /** The write-back loop of `extract`: a cache entry for every key of `answer` that has none yet. */
    method PersistNewEntries(fileText: string, answer: Answer)
      requires repository.Valid()
      modifies repository
      ensures repository.Valid()
      ensures WrittenBack(old(repository.rows), repository.rows, repository.sessionId,
                          repository.HashFileContent(fileText), repository.stringify, answer, answer.Keys)
    {
      ghost var before := repository.rows;
      ghost var fileHash := repository.HashFileContent(fileText);
      var pending := answer.Keys;
      while pending != {}
        invariant pending <= answer.Keys
        invariant repository.Valid()
        invariant WrittenBack(before, repository.rows, repository.sessionId, fileHash, repository.stringify,
                              answer, answer.Keys - pending)
        decreases pending
      {
        var key :| key in pending;
        PersistKey(fileText, answer, key, before, answer.Keys - pending);
        assert answer.Keys - (pending - {key}) == answer.Keys - pending + {key};
        pending := pending - {key};
      }
    }

    /** One turn of the write-back loop: looks `key` up and creates its entry when there is none. */
    method PersistKey(fileText: string, answer: Answer, key: string, ghost before: seq<CacheRow>, ghost keys: set<string>)
      requires repository.Valid()
      requires key in answer && key !in keys
      requires WrittenBack(before, repository.rows, repository.sessionId, repository.HashFileContent(fileText),
                           repository.stringify, answer, keys)
      modifies repository
      ensures repository.Valid()
      ensures WrittenBack(before, repository.rows, repository.sessionId, repository.HashFileContent(fileText),
                          repository.stringify, answer, keys + {key})
    {
      var cacheEntry := repository.FindByFileTextAndExtractionKey(fileText, key);
      if cacheEntry.None? {
        ghost var previous := repository.rows;
        var row := repository.Create(fileText, key, answer[key]);
        WrittenBackCreate(before, previous, row, repository.sessionId, repository.HashFileContent(fileText),
                          repository.stringify, answer, keys, key);
      } else {
        WrittenBackHit(before, repository.rows, repository.sessionId, repository.HashFileContent(fileText),
                       repository.stringify, answer, keys, key);
      }
    }
  }
}
