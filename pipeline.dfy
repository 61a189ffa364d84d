/** The question-answering pipeline: retrieve, gate, generate, attach the
    endorsed chunks as sources, and optionally log the exchange. The
    timers, the uuid generator and the clock are inputs: `Timings`, a
    fresh request id and a timestamp. */
module Pipeline {
  import opened Util
  import opened PyStr
  import opened Chunking
  import opened Retrieval
  import opened Confidence
  import opened Generation

  /** One entry of the response's `sources`. */
  datatype SourceItem = SourceItem(chunkId: string, docId: string, moduleName: string, score: real, sourcePath: Option<string>)

  /** The response's `meta`. */
  datatype ResponseMeta = ResponseMeta(
    topScore: real,
    retrievedK: nat,
    latencyTotal: real,
    latencyRetrieval: real,
    latencyGeneration: real,
    requestId: Option<string>)

  datatype QueryResponse = QueryResponse(kind: Decision, answer: string, confidence: real, sources: seq<SourceItem>, meta: ResponseMeta)

  /** The three latencies the timers measure, in milliseconds. */
  datatype Timings = Timings(total: real, retrieval: real, generation: real)

  /** The record handed to the query logger. */
  datatype LogRecord = LogRecord(query: string, kind: Decision, confidence: real, meta: ResponseMeta, sources: seq<SourceItem>)

  /** One line of the query log: the request id, the time, the record. */
  datatype LogEntry = LogEntry(requestId: string, timestamp: string, record: LogRecord)

  /** What `run` raises: a retrieval error, or the gate's `IndexError`
      when hits exist but `max_chunks` leaves none of them. */
  datatype PipelineError = RetrievalFailed(cause: RetrieverError) | GateIndexError

  /** `request_id or str(uuid.uuid4())`. */
  function RequestIdOf(requestId: Option<string>, freshId: string): (rid: string)
    ensures requestId.Some? && requestId.value != "" ==> rid == requestId.value
    ensures requestId.None? || requestId.value == "" ==> rid == freshId
  {
    if requestId.Some? && requestId.value != "" then requestId.value else freshId
  }

  /** The append-only query log. */
  class QueryLogger {
    var entries: seq<LogEntry>

    constructor ()
      ensures entries == []
    {
      entries := [];
    }

    /** `QueryLogger.log`: append one line and return its request id. */
    method Log(record: LogRecord, requestId: Option<string>, freshId: string, timestamp: string) returns (rid: string)
      modifies this
      ensures rid == RequestIdOf(requestId, freshId)
      ensures entries == old(entries) + [LogEntry(rid, timestamp, record)]
    {
      rid := if requestId.Some? && requestId.value != "" then requestId.value else freshId;
      entries := entries + [LogEntry(rid, timestamp, record)];
    }
  }

  function SourceItemOf(c: RetrievedChunk): SourceItem {
    SourceItem(c.chunkId, c.docId, c.moduleName, c.score, c.meta.sourcePath)
  }

  /** The sources of a response, one per endorsed chunk, in order. */
  function SourceItems(chunks: seq<RetrievedChunk>): (ss: seq<SourceItem>)
    ensures |ss| == |chunks|
    ensures forall j :: 0 <= j < |chunks| ==> ss[j] == SourceItemOf(chunks[j])
  {
    seq(|chunks|, j requires 0 <= j < |chunks| => SourceItemOf(chunks[j]))
  }

  /** The response `run` builds from the retrieved hits, before the
      request id is filled in. */
  function Assemble(gate: Gate, gen: Generator, hits: seq<RetrievedChunk>, query: string,
                    llm: string -> string, t: Timings): (resp: QueryResponse)
    requires hits != [] ==> CapLen(gate.maxChunks, |hits|) > 0
    ensures var conf := Decide(gate, hits);
      var out := Generate(gen, query, conf, llm);
      && resp.kind == out.kind && resp.answer == out.answer && resp.confidence == out.confidence
      && resp.sources == SourceItems(conf.usedChunks)
      && resp.meta == ResponseMeta(conf.topScore, |hits|, t.total, t.retrieval, t.generation, None)
  {
    var conf := Decide(gate, hits);
    var out := Generate(gen, query, conf, llm);
    QueryResponse(out.kind, out.answer, out.confidence, SourceItems(conf.usedChunks),
                  ResponseMeta(conf.topScore, |hits|, t.total, t.retrieval, t.generation, None))
  }

  /** The response after logging: the request id is set only when logging
      is enabled. */
  function Respond(gate: Gate, gen: Generator, hits: seq<RetrievedChunk>, query: string, llm: string -> string,
                   t: Timings, loggingEnabled: bool, requestId: Option<string>, freshId: string): (resp: QueryResponse)
    requires hits != [] ==> CapLen(gate.maxChunks, |hits|) > 0
    ensures resp.meta.requestId.Some? <==> loggingEnabled
    ensures loggingEnabled ==> resp.meta.requestId == Some(RequestIdOf(requestId, freshId))
    ensures resp == Assemble(gate, gen, hits, query, llm, t).(meta := resp.meta)
  {
    var base := Assemble(gate, gen, hits, query, llm, t);
    if loggingEnabled then base.(meta := base.meta.(requestId := Some(RequestIdOf(requestId, freshId))))
    else base
  }

  /** The log line `run` writes: the record holds the response as it was
      before the request id was filled in. */
  function LogEntryOf(base: QueryResponse, query: string, requestId: Option<string>, freshId: string, timestamp: string): LogEntry {
    LogEntry(RequestIdOf(requestId, freshId), timestamp,
             LogRecord(query, base.kind, base.confidence, base.meta, base.sources))
  }

  /** `run` as a whole, given the retrieval outcome. */
  function RunSpec(gate: Gate, gen: Generator, retrieved: Result<seq<RetrievedChunk>, RetrieverError>, query: string,
                   llm: string -> string, t: Timings, loggingEnabled: bool, requestId: Option<string>, freshId: string)
    : Result<QueryResponse, PipelineError>
  {
    match retrieved
    case Err(e) => Err(RetrievalFailed(e))
    case Ok(hits) =>
      if hits != [] && CapLen(gate.maxChunks, |hits|) == 0 then Err(GateIndexError)
      else Ok(Respond(gate, gen, hits, query, llm, t, loggingEnabled, requestId, freshId))
  }

  class RAGPipeline {
    const retriever: Retriever
    const gate: Gate
    const generator: Generator
    const loggingEnabled: bool
    const logger: QueryLogger

    /** `RAGPipeline.__init__` with its components built; logging is on
        unless the configuration switches it off. */
    constructor (retriever: Retriever, gate: Gate, generator: Generator, loggingCfg: Option<bool>, logger: QueryLogger)
      ensures this.retriever == retriever && this.gate == gate && this.generator == generator
      ensures this.loggingEnabled == loggingCfg.GetOr(true) && this.logger == logger
    {
      this.retriever := retriever;
      this.gate := gate;
      this.generator := generator;
      this.loggingEnabled := loggingCfg.GetOr(true);
      this.logger := logger;
    }

    /** `RAGPipeline.run`. One log line is written exactly when logging is
        enabled and the run succeeds. */
    method Run(query: string, requestId: Option<string>, llm: string -> string, t: Timings, freshId: string, timestamp: string)
      returns (r: Result<QueryResponse, PipelineError>)
      modifies logger
      ensures var retrieved := RetrieveSpec(retriever.index, retriever.metaStore.meta, retriever.embed, retriever.topK, query, None);
        r == RunSpec(gate, generator, retrieved, query, llm, t, loggingEnabled, requestId, freshId)
        && (if r.Ok? && loggingEnabled
            then logger.entries == old(logger.entries)
                   + [LogEntryOf(Assemble(gate, generator, retrieved.value, query, llm, t), query, requestId, freshId, timestamp)]
            else logger.entries == old(logger.entries))
    {
      var retrieved := retriever.Retrieve(query, None);
      if retrieved.Err? {
        return Err(RetrievalFailed(retrieved.error));
      }
      var hits := retrieved.value;
      if hits != [] && CapLen(gate.maxChunks, |hits|) == 0 {
        return Err(GateIndexError);
      }
      var conf := Decide(gate, hits);
      var out := Generate(generator, query, conf, llm);
      var sources := CollectSources(conf.usedChunks);
      var meta := ResponseMeta(conf.topScore, |hits|, t.total, t.retrieval, t.generation, None);
      var resp := QueryResponse(out.kind, out.answer, out.confidence, sources, meta);
      assert resp == Assemble(gate, generator, hits, query, llm, t);
      if loggingEnabled {
        var record := LogRecord(query, resp.kind, resp.confidence, resp.meta, resp.sources);
        var rid := logger.Log(record, requestId, freshId, timestamp);
        resp := resp.(meta := resp.meta.(requestId := Some(rid)));
      }
      return Ok(resp);
    }
  }

  /** The loop of `run` that turns the endorsed chunks into source items. */
  method CollectSources(chunks: seq<RetrievedChunk>) returns (sources: seq<SourceItem>)
    ensures sources == SourceItems(chunks)
  {
    sources := [];
    var i := 0;
    while i < |chunks|
      invariant 0 <= i <= |chunks|
      invariant sources == SourceItems(chunks[..i])
    {
      var c := chunks[i];
      sources := sources + [SourceItem(c.chunkId, c.docId, c.moduleName, c.score, c.meta.sourcePath)];
      i := i + 1;
    }
    assert chunks[..|chunks|] == chunks;
  }

  /** Combined with the gate: a refusal carries no sources, a non-refusal
      lists exactly the capped hits, best first, and an answer has at
      least one source. */
  lemma SourcesAreEndorsed(gate: Gate, gen: Generator, hits: seq<RetrievedChunk>, query: string, llm: string -> string, t: Timings)
    requires hits != [] ==> CapLen(gate.maxChunks, |hits|) > 0
    ensures var resp := Assemble(gate, gen, hits, query, llm, t);
      && (resp.kind == Refuse <==> resp.sources == [])
      && (resp.kind != Refuse ==> (|resp.sources| == |Capped(gate, hits)|
            && (forall j :: 0 <= j < |resp.sources| ==> resp.sources[j] == SourceItemOf(Capped(gate, hits)[j]))))
      && (forall a, b :: 0 <= a < b < |resp.sources| ==> resp.sources[a].score >= resp.sources[b].score)
  {
    var conf := Decide(gate, hits);
    var resp := Assemble(gate, gen, hits, query, llm, t);
    CappedIsBestPrefix(gate, hits);
    if conf.decision != Refuse {
      forall a, b | 0 <= a < b < |resp.sources| ensures resp.sources[a].score >= resp.sources[b].score {
        assert resp.sources[a].score == Capped(gate, hits)[a].score;
        assert resp.sources[b].score == Capped(gate, hits)[b].score;
      }
    }
  }

  /** The response's meta reports the number of retrieved hits and the
      gate's top score, which is the best retrieved score. */
  lemma MetaReportsRetrieval(gate: Gate, gen: Generator, hits: seq<RetrievedChunk>, query: string, llm: string -> string, t: Timings)
    requires hits != [] ==> CapLen(gate.maxChunks, |hits|) > 0
    ensures var resp := Assemble(gate, gen, hits, query, llm, t);
      && resp.meta.retrievedK == |hits|
      && resp.meta.topScore == resp.confidence
      && (hits == [] ==> resp.meta.topScore == 0.0)
      && (forall j :: 0 <= j < |hits| ==> hits[j].score <= resp.meta.topScore)
      && (hits != [] ==> exists j :: 0 <= j < |hits| && hits[j].score == resp.meta.topScore)
  {
    if hits != [] {
      TopIsMaximum(gate, hits);
    }
  }

  /** A run with no hits is a refusal with the fixed message, no sources
      and zero scores; the language model plays no part. */
  lemma NoHitsRefuse(gate: Gate, gen: Generator, query: string, llm: string -> string, t: Timings)
    ensures var resp := Assemble(gate, gen, [], query, llm, t);
      && resp.kind == Refuse && resp.answer == RefuseMessage && resp.confidence == 0.0
      && resp.sources == [] && resp.meta.topScore == 0.0 && resp.meta.retrievedK == 0
  {
  }
}
