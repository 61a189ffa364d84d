/** Answer generation: a fixed message for refusals and clarifications,
    one language-model call over the prompt for answers. The model call
    is an input `llm` from the prompt to the reply's message content. */
module Generation {
  import opened Util
  import opened PyStr
  import opened Retrieval
  import opened Confidence
  import Prompt

  const RefuseMessage: string :=
    "I do not have enough information in the Python standard library documentation to answer that."
  const ClarifyMessage: string :=
    "Could you clarify your question or specify which Python module you are referring to?"
  const ModelName: string := "gpt-4o-mini"

  /** A configured generator: the model it calls. */
  datatype Generator = Generator(model: string)

  datatype GeneratorError = ApiKeyMissing

  /** One entry of an answer's `sources`. */
  datatype GenSource = GenSource(chunkId: string, moduleName: string, score: real)

  /** What `generate` returns; `sources` is None where the dict has no
      `sources` key. */
  datatype GenOutput = GenOutput(kind: Decision, answer: string, confidence: real, sources: Option<seq<GenSource>>)

  /** `Generator.__init__`: the API key from the environment must be
      present and non-empty. */
  function NewGenerator(apiKey: Option<string>): (r: Result<Generator, GeneratorError>)
    ensures r.Ok? <==> apiKey.Some? && apiKey.value != ""
    ensures r.Ok? ==> r.value.model == ModelName
    ensures r.Err? ==> r.error == ApiKeyMissing
  {
    if apiKey.None? || apiKey.value == "" then Err(ApiKeyMissing) else Ok(Generator(ModelName))
  }

  function Texts(chunks: seq<RetrievedChunk>): (ts: seq<string>)
    ensures |ts| == |chunks| && forall j :: 0 <= j < |chunks| ==> ts[j] == chunks[j].text
  {
    seq(|chunks|, j requires 0 <= j < |chunks| => chunks[j].text)
  }

  function SourcesOf(chunks: seq<RetrievedChunk>): (ss: seq<GenSource>)
    ensures |ss| == |chunks|
    ensures forall j :: 0 <= j < |chunks| ==>
      ss[j] == GenSource(chunks[j].chunkId, chunks[j].moduleName, chunks[j].score)
  {
    seq(|chunks|, j requires 0 <= j < |chunks| => GenSource(chunks[j].chunkId, chunks[j].moduleName, chunks[j].score))
  }

  /** The prompt an answer is generated from. */
  function AnswerPrompt(query: string, conf: ConfidenceResult): string {
    Prompt.PromptOf(query, Texts(conf.usedChunks))
  }

  /** `_call_llm`: the stripped reply content. */
  function CallLlm(llm: string -> string, prompt: string): (a: string)
    ensures a == [] || (!IsSpace(a[0]) && !IsSpace(a[|a| - 1]))
  {
    Strip(llm(prompt))
  }

  /** `Generator.generate`. */
  function Generate(gen: Generator, query: string, conf: ConfidenceResult, llm: string -> string): (out: GenOutput)
    ensures out.kind == conf.decision && out.confidence == conf.confidence
    ensures conf.decision == Refuse ==> out.answer == RefuseMessage && out.sources.None?
    ensures conf.decision == Clarify ==> out.answer == ClarifyMessage && out.sources.None?
    ensures conf.decision == Answer ==>
      out.answer == CallLlm(llm, AnswerPrompt(query, conf)) && out.sources == Some(SourcesOf(conf.usedChunks))
  {
    match conf.decision
    case Refuse => GenOutput(Refuse, RefuseMessage, conf.confidence, None)
    case Clarify => GenOutput(Clarify, ClarifyMessage, conf.confidence, None)
    case Answer =>
      var prompt := Prompt.PromptOf(query, Texts(conf.usedChunks));
      GenOutput(Answer, CallLlm(llm, prompt), conf.confidence, Some(SourcesOf(conf.usedChunks)))
  }

  /** Refusals and clarifications do not depend on the model at all; the
      only way the model's reply reaches the output is as an answer. */
  lemma FixedMessagesIgnoreModel(gen: Generator, query: string, conf: ConfidenceResult,
                                 llm1: string -> string, llm2: string -> string)
    requires conf.decision != Answer
    ensures Generate(gen, query, conf, llm1) == Generate(gen, query, conf, llm2)
  {
  }

  /** The answer depends on the model only through its reply to the
      prompt built from the query and the endorsed chunks: a model that
      gives that same reply to every prompt yields the same output. The
      prompt contains the query and every endorsed chunk's text. */
  lemma AnswerUsesPromptOnly(gen: Generator, query: string, conf: ConfidenceResult, llm: string -> string)
    requires conf.decision == Answer
    ensures Generate(gen, query, conf, llm) == Generate(gen, query, conf, _ => llm(AnswerPrompt(query, conf)))
    ensures Contains(AnswerPrompt(query, conf), query)
    ensures forall k :: 0 <= k < |conf.usedChunks| ==> Contains(AnswerPrompt(query, conf), conf.usedChunks[k].text)
  {
    Prompt.PromptContainsQuery(query, Texts(conf.usedChunks));
    forall k | 0 <= k < |conf.usedChunks| ensures Contains(AnswerPrompt(query, conf), conf.usedChunks[k].text) {
      Prompt.PromptContainsChunk(query, Texts(conf.usedChunks), k);
    }
  }

  /** Combined with the gate: an answer lists every endorsed chunk as a
      source, and there is at least one. */
  lemma AnswerHasSources(g: Gate, hits: seq<RetrievedChunk>, gen: Generator, query: string, llm: string -> string)
    requires hits != [] ==> CapLen(g.maxChunks, |hits|) > 0
    requires Decide(g, hits).decision == Answer
    ensures var out := Generate(gen, query, Decide(g, hits), llm);
      out.sources.Some? && |out.sources.value| == |Capped(g, hits)| > 0
  {
  }
}
