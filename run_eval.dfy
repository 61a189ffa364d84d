/** The evaluation runner: each question is put to the pipeline, the
    retrieval and the gate are run again to recover the endorsed chunks,
    and one result row is recorded with a stopword-filtered groundedness
    score; the rows are then aggregated into a report. The pipeline's
    response and the re-run gate decision are inputs, as functions of the
    query; so is the tokenizer. */
module RunEval {
  import opened Util
  import opened PyStr
  import opened Retrieval
  import opened Confidence
  import Generation
  import opened Pipeline
  import opened EvalMetrics

  const Stopwords: set<string> := {
    "the", "and", "for", "with", "you", "can", "use", "this", "that", "from",
    "are", "was", "were", "will", "into", "then", "than", "also", "how", "what",
    "your", "their", "they", "them", "its", "it's", "not", "have", "has", "had",
    "to", "of", "in", "on", "at", "as", "by", "an", "a", "it", "is", "be", "or",
    "if", "do", "does", "did", "we", "i"}

  /** The answer length kept in a row's `answer_preview`. */
  const PreviewLength := 200

  /** One line of questions.jsonl. */
  datatype Question = Question(id: string, query: string, expectedType: string)

  /** The joined text of the chunks the tokens of the evidence come from. */
  function EvidenceText(chunks: seq<RetrievedChunk>): string {
    Join(" ", Generation.Texts(chunks))
  }

  /** The meaningful tokens of a text: its tokens that are not stopwords. */
  function Meaningful(tokenize: Tokenizer, s: string): set<string> {
    set t | t in tokenize(s) && t !in Stopwords
  }

  /** `run_eval.compute_groundedness`: the share of the answer's
      meaningful tokens that occur among the evidence's meaningful tokens;
      0 for an empty answer, no chunks, or no meaningful answer token. */
  function GroundednessStop(answer: string, usedChunks: seq<RetrievedChunk>, tokenize: Tokenizer): (g: real)
    ensures 0.0 <= g <= 1.0
    ensures answer == [] || usedChunks == [] || Meaningful(tokenize, answer) == {} ==> g == 0.0
    ensures answer != [] && usedChunks != [] && Meaningful(tokenize, answer) != {} ==>
      && (g == 1.0 <==> Meaningful(tokenize, answer) <= Meaningful(tokenize, EvidenceText(usedChunks)))
      && (g == 0.0 <==> Meaningful(tokenize, answer) * Meaningful(tokenize, EvidenceText(usedChunks)) == {})
  {
    if answer == [] || usedChunks == [] then 0.0
    else
      var answerTokens := Meaningful(tokenize, answer);
      if answerTokens == {} then 0.0
      else
        var evidenceTokens := Meaningful(tokenize, EvidenceText(usedChunks));
        var overlap := answerTokens * evidenceTokens;
        assert (if 1 < |answerTokens| then |answerTokens| else 1) == |answerTokens| by {
          var t :| t in answerTokens;
        }
        assert |overlap| as real / (if 1 < |answerTokens| then |answerTokens| else 1) as real
          == OverlapRatio(answerTokens, evidenceTokens);
        |overlap| as real / (if 1 < |answerTokens| then |answerTokens| else 1) as real
  }

  /** Stopwords make no difference: two tokenizers that agree on the
      meaningful tokens of the answer and of the evidence give the same
      score. */
  lemma StopwordsIgnored(answer: string, usedChunks: seq<RetrievedChunk>, tok1: Tokenizer, tok2: Tokenizer)
    requires Meaningful(tok1, answer) == Meaningful(tok2, answer)
    requires Meaningful(tok1, EvidenceText(usedChunks)) == Meaningful(tok2, EvidenceText(usedChunks))
    ensures GroundednessStop(answer, usedChunks, tok1) == GroundednessStop(answer, usedChunks, tok2)
  {
  }

  /** With a tokenizer that never yields a stopword, the score agrees with
      `metrics.compute_groundedness` over the chunks' texts. */
  lemma AgreesWithMetricsGroundedness(answer: string, usedChunks: seq<RetrievedChunk>, tokenize: Tokenizer)
    requires forall s: string :: tokenize(s) !! Stopwords
    ensures GroundednessStop(answer, usedChunks, tokenize)
      == Groundedness(answer, seq(|usedChunks|, i requires 0 <= i < |usedChunks| => Some(usedChunks[i].text)), tokenize)
  {
    var sources := seq(|usedChunks|, i requires 0 <= i < |usedChunks| => Some(usedChunks[i].text));
    var texts := seq(|sources|, i requires 0 <= i < |sources| => sources[i].GetOr(""));
    assert texts == Generation.Texts(usedChunks);
    assert SourcesText(sources) == EvidenceText(usedChunks);
    assert Meaningful(tokenize, answer) == tokenize(answer);
    assert Meaningful(tokenize, EvidenceText(usedChunks)) == tokenize(EvidenceText(usedChunks));
  }

  /** The evidence a question's answer is scored against: the endorsed
      chunks when the gate answered, nothing otherwise. */
  function EvidenceFor(conf: ConfidenceResult): (chunks: seq<RetrievedChunk>)
    ensures conf.decision == Answer ==> chunks == conf.usedChunks
    ensures conf.decision != Answer ==> chunks == []
  {
    if conf.decision == Answer then conf.usedChunks else []
  }

  /** The string a response's `type` is written as. */
  function DecisionName(d: Decision): (s: string)
    ensures s == AnswerType || s == RefuseType || s == ClarifyType
  {
    match d
    case Answer => AnswerType
    case Refuse => RefuseType
    case Clarify => ClarifyType
  }

  /** `s[:n]`. */
  function Prefix(s: string, n: nat): (p: string)
    ensures |p| <= n && |p| <= |s| && p == s[..|p|]
    ensures |s| <= n ==> p == s
  {
    if |s| <= n then s else s[..n]
  }

  /** The result row recorded for question `q`, given the pipeline's
      response and the decision of the re-run gate. */
  function RowOf(q: Question, out: QueryResponse, conf: ConfidenceResult, tokenize: Tokenizer): (row: EvalRow)
    ensures 0.0 <= row.groundedness <= 1.0
    ensures conf.decision != Answer ==> row.groundedness == 0.0
  {
    EvalRow(q.id, q.query, q.expectedType, DecisionName(out.kind), out.confidence, out.meta.topScore,
            out.meta.latencyTotal, out.meta.latencyRetrieval, out.meta.latencyGeneration,
            |out.sources|, out.meta.requestId, Some(Prefix(out.answer, PreviewLength)),
            GroundednessStop(out.answer, EvidenceFor(conf), tokenize))
  }

  /** The rows of a run over `questions`, in question order. */
  function RowsFor(questions: seq<Question>, respond: string -> QueryResponse,
                   rerun: string -> ConfidenceResult, tokenize: Tokenizer): (rows: seq<EvalRow>)
    ensures |rows| == |questions|
  {
    seq(|questions|, i requires 0 <= i < |questions| =>
      RowOf(questions[i], respond(questions[i].query), rerun(questions[i].query), tokenize))
  }

  /** The question loop of `run_eval.main`. */
  method EvaluateQuestions(questions: seq<Question>, respond: string -> QueryResponse,
                           rerun: string -> ConfidenceResult, tokenize: Tokenizer)
    returns (results: seq<EvalRow>)
    ensures results == RowsFor(questions, respond, rerun, tokenize)
  {
    results := [];
    var i := 0;
    while i < |questions|
      invariant 0 <= i <= |questions|
      invariant results == RowsFor(questions[..i], respond, rerun, tokenize)
    {
      var q := questions[i];
      var out := respond(q.query);
      var decision := rerun(q.query);
      var grounded := GroundednessStop(out.answer, if decision.decision == Answer then decision.usedChunks else [], tokenize);
      var rec := EvalRow(q.id, q.query, q.expectedType, DecisionName(out.kind), out.confidence, out.meta.topScore,
                         out.meta.latencyTotal, out.meta.latencyRetrieval, out.meta.latencyGeneration,
                         |out.sources|, out.meta.requestId, Some(Prefix(out.answer, PreviewLength)), grounded);
      assert rec == RowOf(q, out, decision, tokenize);
      RowsForStep(questions, i, respond, rerun, tokenize);
      results := results + [rec];
      i := i + 1;
    }
    assert questions[..|questions|] == questions;
  }

  lemma RowsForStep(questions: seq<Question>, i: nat, respond: string -> QueryResponse,
                    rerun: string -> ConfidenceResult, tokenize: Tokenizer)
    requires i < |questions|
    ensures RowsFor(questions[..i + 1], respond, rerun, tokenize)
      == RowsFor(questions[..i], respond, rerun, tokenize)
         + [RowOf(questions[i], respond(questions[i].query), rerun(questions[i].query), tokenize)]
  {
  }

  // ---------------------------------------------------------------------
  // The report

  /** Number of occurrences of `k` in `ks`. */
  function Occurrences(ks: seq<string>, k: string): (n: nat)
    ensures n <= |ks|
  {
    if ks == [] then 0 else Occurrences(ks[..|ks| - 1], k) + (if ks[|ks| - 1] == k then 1 else 0)
  }

  /** `dict(Counter(ks))`: each value that occurs, with its count. */
  function Tally(ks: seq<string>): (m: map<string, nat>)
    ensures forall k :: k in m <==> k in ks
    ensures forall k :: k in m ==> m[k] == Occurrences(ks, k)
  {
    if ks == [] then map[]
    else
      var m := Tally(ks[..|ks| - 1]);
      var k := ks[|ks| - 1];
      assert forall x :: x in ks <==> x in ks[..|ks| - 1] || x == k;
      if k in m then m[k := m[k] + 1]
      else
        OccurrencesAbsent(ks[..|ks| - 1], k);
        m[k := 1]
  }

  lemma {:induction false} OccurrencesAbsent(ks: seq<string>, k: string)
    requires k !in ks
    ensures Occurrences(ks, k) == 0
  {
    if ks != [] {
      assert ks[..|ks| - 1] <= ks;
      OccurrencesAbsent(ks[..|ks| - 1], k);
    }
  }

  function PredTypes(results: seq<EvalRow>): (ts: seq<string>)
    ensures |ts| == |results| && forall i :: 0 <= i < |results| ==> ts[i] == results[i].predType
  {
    seq(|results|, i requires 0 <= i < |results| => results[i].predType)
  }

  function ExpectedTypes(results: seq<EvalRow>): (ts: seq<string>)
    ensures |ts| == |results| && forall i :: 0 <= i < |results| ==> ts[i] == results[i].expectedType
  {
    seq(|results|, i requires 0 <= i < |results| => results[i].expectedType)
  }

  datatype EvalReport = EvalReport(
    total: nat,
    accuracy: real,
    refusalCorrectness: real,
    answerCorrectness: real,
    predTypeCounts: map<string, nat>,
    expectedTypeCounts: map<string, nat>,
    avgLatencyTotal: real,
    avgTopScore: real,
    avgGroundedness: real,
    avgGroundednessAnswer: real,
    avgGroundednessRefuse: real,
    avgGroundednessClarify: real)

  /** Mean groundedness of the rows predicted as `t`, 0 when there are none. */
  function AvgGroundednessOfType(results: seq<EvalRow>, t: string): real {
    var rows := RowsOfType(results, t);
    Mean(Sum(rows, GroundednessOf), |rows|)
  }

  /** The metric block of `run_eval.main`: every division is guarded, an
      empty group reporting 0. */
  function ReportOf(results: seq<EvalRow>): (rep: EvalReport)
    ensures rep.total == |results|
  {
    var total := |results|;
    EvalReport(
      total,
      Rate(Count(results, IsCorrect), total),
      Rate(Count(results, RefusedCorrectly), Count(results, ExpectsRefuse)),
      Rate(Count(results, AnsweredCorrectly), Count(results, ExpectsAnswer)),
      Tally(PredTypes(results)),
      Tally(ExpectedTypes(results)),
      Mean(Sum(results, LatencyOf), total),
      Mean(Sum(results, TopScoreOf), total),
      Mean(Sum(results, GroundednessOf), total),
      AvgGroundednessOfType(results, AnswerType),
      AvgGroundednessOfType(results, RefuseType),
      AvgGroundednessOfType(results, ClarifyType))
  }

  /** The rates lie in [0, 1] and an empty run reports 0 everywhere. */
  lemma ReportRatesBounded(results: seq<EvalRow>)
    ensures var rep := ReportOf(results);
      && 0.0 <= rep.accuracy <= 1.0
      && 0.0 <= rep.refusalCorrectness <= 1.0
      && 0.0 <= rep.answerCorrectness <= 1.0
      && (results == [] ==> rep.accuracy == 0.0 && rep.avgLatencyTotal == 0.0 && rep.avgTopScore == 0.0
                            && rep.avgGroundedness == 0.0)
  {
    CountMonotone(results, RefusedCorrectly, ExpectsRefuse);
    CountMonotone(results, AnsweredCorrectly, ExpectsAnswer);
    RateBounds(Count(results, IsCorrect), |results|);
    RateBounds(Count(results, RefusedCorrectly), Count(results, ExpectsRefuse));
    RateBounds(Count(results, AnsweredCorrectly), Count(results, ExpectsAnswer));
  }

  /** When every row's groundedness lies in [0, 1], so do the overall
      mean and the mean of each predicted type. */
  lemma ReportGroundednessBounded(results: seq<EvalRow>)
    requires forall r :: r in results ==> 0.0 <= r.groundedness <= 1.0
    ensures var rep := ReportOf(results);
      && 0.0 <= rep.avgGroundedness <= 1.0
      && 0.0 <= rep.avgGroundednessAnswer <= 1.0
      && 0.0 <= rep.avgGroundednessRefuse <= 1.0
      && 0.0 <= rep.avgGroundednessClarify <= 1.0
  {
    if results != [] {
      MeanOfSumBounds(results, GroundednessOf, 0.0, 1.0);
    }
    TypeGroundednessBounded(results, AnswerType);
    TypeGroundednessBounded(results, RefuseType);
    TypeGroundednessBounded(results, ClarifyType);
  }

  lemma TypeGroundednessBounded(results: seq<EvalRow>, t: string)
    requires forall r :: r in results ==> 0.0 <= r.groundedness <= 1.0
    ensures 0.0 <= AvgGroundednessOfType(results, t) <= 1.0
  {
    var rows := RowsOfType(results, t);
    if rows != [] {
      MeanOfSumBounds(rows, GroundednessOf, 0.0, 1.0);
    }
  }

  /** On a non-empty run the report's shared figures are those of
      `compute_metrics`. */
  lemma ReportAgreesWithMetrics(results: seq<EvalRow>)
    requires results != []
    ensures var rep := ReportOf(results);
      var m := ComputeMetrics(results).value;
      && rep.total == m.total && rep.accuracy == m.accuracy
      && rep.refusalCorrectness == m.refusalCorrectness && rep.answerCorrectness == m.answerCorrectness
      && rep.avgLatencyTotal == m.avgLatencyTotal && rep.avgTopScore == m.avgTopScore
  {
  }

  /** Occurrences of three distinct values add up to the length of a
      sequence that holds nothing else. */
  lemma {:induction false} OccurrencesOfThree(ks: seq<string>, a: string, b: string, c: string)
    requires a != b && b != c && a != c
    requires forall i :: 0 <= i < |ks| ==> ks[i] == a || ks[i] == b || ks[i] == c
    ensures Occurrences(ks, a) + Occurrences(ks, b) + Occurrences(ks, c) == |ks|
  {
    if ks != [] {
      OccurrencesOfThree(ks[..|ks| - 1], a, b, c);
    }
  }

  /** In a run's report, the predicted-type counts name only the three
      decisions, every decision that occurs counts its rows, the counts add
      up to the number of questions, and every row scored against no
      evidence because the gate did not answer has groundedness 0. */
  lemma RunReportFacts(questions: seq<Question>, respond: string -> QueryResponse,
                       rerun: string -> ConfidenceResult, tokenize: Tokenizer)
    ensures var rows := RowsFor(questions, respond, rerun, tokenize);
      var counts := ReportOf(rows).predTypeCounts;
      && (forall k :: k in counts ==> k == AnswerType || k == RefuseType || k == ClarifyType)
      && Occurrences(PredTypes(rows), AnswerType) + Occurrences(PredTypes(rows), RefuseType)
         + Occurrences(PredTypes(rows), ClarifyType) == |questions|
      && (forall i :: 0 <= i < |questions| && rerun(questions[i].query).decision != Answer ==> rows[i].groundedness == 0.0)
      && 0.0 <= ReportOf(rows).avgGroundedness <= 1.0
  {
    RowsFacts(questions, respond, rerun, tokenize);
    ReportFactsOfRows(RowsFor(questions, respond, rerun, tokenize));
  }

  /** What each row of a run records: a decision name as its predicted
      type, and a groundedness in [0, 1] that is 0 unless the gate answered. */
  lemma RowsFacts(questions: seq<Question>, respond: string -> QueryResponse,
                  rerun: string -> ConfidenceResult, tokenize: Tokenizer)
    ensures var rows := RowsFor(questions, respond, rerun, tokenize);
      && (forall i :: 0 <= i < |rows| ==>
            rows[i].predType == AnswerType || rows[i].predType == RefuseType || rows[i].predType == ClarifyType)
      && (forall i :: 0 <= i < |rows| ==> 0.0 <= rows[i].groundedness <= 1.0)
      && (forall i :: 0 <= i < |questions| && rerun(questions[i].query).decision != Answer ==> rows[i].groundedness == 0.0)
  {
    var rows := RowsFor(questions, respond, rerun, tokenize);
    forall i | 0 <= i < |rows|
      ensures rows[i].predType == AnswerType || rows[i].predType == RefuseType || rows[i].predType == ClarifyType
      ensures 0.0 <= rows[i].groundedness <= 1.0
      ensures rerun(questions[i].query).decision != Answer ==> rows[i].groundedness == 0.0
    {
      var out := respond(questions[i].query);
      assert rows[i] == RowOf(questions[i], out, rerun(questions[i].query), tokenize);
      assert rows[i].predType == DecisionName(out.kind);
    }
  }

  /** The report of rows whose predicted types are decision names and
      whose groundedness lies in [0, 1]. */
  lemma ReportFactsOfRows(rows: seq<EvalRow>)
    requires forall i :: 0 <= i < |rows| ==>
      rows[i].predType == AnswerType || rows[i].predType == RefuseType || rows[i].predType == ClarifyType
    requires forall i :: 0 <= i < |rows| ==> 0.0 <= rows[i].groundedness <= 1.0
    ensures forall k :: k in ReportOf(rows).predTypeCounts ==> k == AnswerType || k == RefuseType || k == ClarifyType
    ensures Occurrences(PredTypes(rows), AnswerType) + Occurrences(PredTypes(rows), RefuseType)
      + Occurrences(PredTypes(rows), ClarifyType) == |rows|
    ensures 0.0 <= ReportOf(rows).avgGroundedness <= 1.0
  {
    PredTypesAreDecisions(rows);
    OccurrencesOfThree(PredTypes(rows), AnswerType, RefuseType, ClarifyType);
    forall r | r in rows ensures 0.0 <= r.groundedness <= 1.0 {
      var i :| 0 <= i < |rows| && rows[i] == r;
    }
    ReportGroundednessBounded(rows);
  }

  /** Every predicted type of a run is one of the three decision names. */
  lemma PredTypesAreDecisions(rows: seq<EvalRow>)
    requires forall i :: 0 <= i < |rows| ==>
      rows[i].predType == AnswerType || rows[i].predType == RefuseType || rows[i].predType == ClarifyType
    ensures AnswerType != RefuseType && RefuseType != ClarifyType && AnswerType != ClarifyType
    ensures forall i :: 0 <= i < |PredTypes(rows)| ==>
      PredTypes(rows)[i] == AnswerType || PredTypes(rows)[i] == RefuseType || PredTypes(rows)[i] == ClarifyType
    ensures forall k :: k in Tally(PredTypes(rows)) ==> k == AnswerType || k == RefuseType || k == ClarifyType
  {
    assert AnswerType[0] != RefuseType[0] && RefuseType[0] != ClarifyType[0] && AnswerType[0] != ClarifyType[0];
  }

}
