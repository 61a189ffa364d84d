/** Evaluation metrics over the rows of an evaluation run: a lexical
    groundedness ratio, mean latencies per predicted type, and the
    correctness rates of `compute_metrics`. The regular-expression
    tokenizer is an input (`Tokenizer`). */
module EvalMetrics {
  import opened Util
  import opened PyStr

  /** `set(re.findall(r"\b[a-zA-Z_]{3,}\b", s.lower()))`: the distinct
      word tokens of a text. */
  type Tokenizer = string -> set<string>

  /** One row of results.jsonl. `answerPreview` is None where the row has
      no `answer_preview` key. */
  datatype EvalRow = EvalRow(
    id: string,
    query: string,
    expectedType: string,
    predType: string,
    confidence: real,
    topScore: real,
    latencyTotal: real,
    latencyRetrieval: real,
    latencyGeneration: real,
    numSources: nat,
    requestId: Option<string>,
    answerPreview: Option<string>,
    groundedness: real)

  const AnswerType := "answer"
  const RefuseType := "refuse"
  const ClarifyType := "clarify"

  /** The phrase that marks an answer as a refusal in disguise. */
  const NotEnoughPhrase := "don't have enough"

  // ---------------------------------------------------------------------
  // Groundedness

  /** The share of answer tokens that also occur in the evidence. */
  function OverlapRatio(answerTokens: set<string>, evidenceTokens: set<string>): (r: real)
    requires answerTokens != {}
    ensures 0.0 <= r <= 1.0
    ensures r == 1.0 <==> answerTokens <= evidenceTokens
    ensures r == 0.0 <==> answerTokens * evidenceTokens == {}
  {
    var overlap := answerTokens * evidenceTokens;
    SubsetCard(overlap, answerTokens);
    assert |overlap| == |answerTokens| ==> overlap == answerTokens by {
      if |overlap| == |answerTokens| {
        SubsetSameCard(overlap, answerTokens);
      }
    }
    RatioFacts(|overlap|, |answerTokens|);
    assert answerTokens <= evidenceTokens <==> overlap == answerTokens;
    assert overlap == {} <==> |overlap| == 0;
    |overlap| as real / |answerTokens| as real
  }

  /** A part over a positive whole lies in [0, 1], is 1 exactly for the
      whole and 0 exactly for nothing. */
  lemma RatioFacts(part: nat, whole: nat)
    requires 0 < whole && part <= whole
    ensures var q := part as real / whole as real;
      && 0.0 <= q <= 1.0 && (q == 1.0 <==> part == whole) && (q == 0.0 <==> part == 0)
  {
    var q := part as real / whole as real;
    DivideBounds(part as real, whole as real, 0.0, 1.0);
    assert q * whole as real == part as real;
  }

  /** The evidence text of `metrics.compute_groundedness`: the sources'
      `text` entries (an absent one counts as empty) joined by spaces. */
  function SourcesText(sourceTexts: seq<Option<string>>): string {
    Join(" ", seq(|sourceTexts|, i requires 0 <= i < |sourceTexts| => sourceTexts[i].GetOr("")))
  }

  /** `metrics.compute_groundedness`: 0 for an empty answer, no sources or
      an answer without tokens; otherwise the share of the answer's tokens
      found in the sources' text. */
  function Groundedness(answer: string, sourceTexts: seq<Option<string>>, tokenize: Tokenizer): (g: real)
    ensures 0.0 <= g <= 1.0
    ensures answer == [] || sourceTexts == [] || tokenize(answer) == {} ==> g == 0.0
    ensures answer != [] && sourceTexts != [] && tokenize(answer) != {} ==>
      && (g == 1.0 <==> tokenize(answer) <= tokenize(SourcesText(sourceTexts)))
      && (g == 0.0 <==> tokenize(answer) * tokenize(SourcesText(sourceTexts)) == {})
  {
    if answer == [] || sourceTexts == [] then 0.0
    else
      var answerTokens := tokenize(answer);
      if answerTokens == {} then 0.0
      else OverlapRatio(answerTokens, tokenize(SourcesText(sourceTexts)))
  }

  // ---------------------------------------------------------------------
  // Mean latency per predicted type

  /** `[r for r in results if r["pred_type"] == t]`. */
  function RowsOfType(results: seq<EvalRow>, t: string): (rs: seq<EvalRow>)
    ensures |rs| <= |results|
    ensures forall r :: r in rs <==> r in results && r.predType == t
    ensures forall r :: multiset(rs)[r] == if r.predType == t then multiset(results)[r] else 0
  {
    if results == [] then []
    else
      var last := results[|results| - 1];
      assert results == results[..|results| - 1] + [last];
      RowsOfType(results[..|results| - 1], t) + (if last.predType == t then [last] else [])
  }

  function LatencyOf(r: EvalRow): real {
    r.latencyTotal
  }

  function TopScoreOf(r: EvalRow): real {
    r.topScore
  }

  function GroundednessOf(r: EvalRow): real {
    r.groundedness
  }

  /** `avg_latency_for_type`: the mean total latency of the rows predicted
      as `t`, or 0 when there are none. */
  function AvgLatencyForType(results: seq<EvalRow>, t: string): (a: real)
    ensures (forall r :: r in results ==> r.predType != t) ==> a == 0.0
  {
    var rows := RowsOfType(results, t);
    assert rows != [] ==> rows[0] in rows;
    Mean(Sum(rows, LatencyOf), |rows|)
  }

  /** When every latency lies in [lo, hi], so does the mean for each
      predicted type that occurs. */
  lemma AvgLatencyForTypeBounds(results: seq<EvalRow>, t: string, lo: real, hi: real)
    requires forall r :: r in results ==> lo <= r.latencyTotal <= hi
    requires exists r :: r in results && r.predType == t
    ensures lo <= AvgLatencyForType(results, t) <= hi
  {
    var rows := RowsOfType(results, t);
    var r :| r in results && r.predType == t;
    assert r in rows;
    MeanOfSumBounds(rows, LatencyOf, lo, hi);
  }

  // ---------------------------------------------------------------------
  // `compute_metrics`

  predicate IsCorrect(r: EvalRow) {
    r.predType == r.expectedType
  }

  predicate ExpectsRefuse(r: EvalRow) {
    r.expectedType == RefuseType
  }

  predicate RefusedCorrectly(r: EvalRow) {
    r.expectedType == RefuseType && r.predType == RefuseType
  }

  predicate ExpectsAnswer(r: EvalRow) {
    r.expectedType == AnswerType
  }

  predicate AnsweredCorrectly(r: EvalRow) {
    r.expectedType == AnswerType && r.predType == AnswerType
  }

  predicate PredictsAnswer(r: EvalRow) {
    r.predType == AnswerType
  }

  /** An answer whose preview does not admit to lacking information. */
  predicate EffectiveAnswer(r: EvalRow) {
    r.predType == AnswerType && !Contains(LowerAscii(r.answerPreview.GetOr("")), NotEnoughPhrase)
  }

  /** A question meant to be refused that was met with a clarification. */
  predicate ClarifiedOutOfDomain(r: EvalRow) {
    r.expectedType == RefuseType && r.predType == ClarifyType
  }

  /** `x / d if d else 0`. */
  function Rate(x: nat, d: nat): real {
    if d == 0 then 0.0 else x as real / d as real
  }

  datatype Metrics = Metrics(
    total: nat,
    accuracy: real,
    refusalCorrectness: real,
    answerCorrectness: real,
    effectiveAnswerRate: real,
    clarifyOodRate: real,
    avgLatencyTotal: real,
    avgLatencyAnswer: real,
    avgLatencyRefuse: real,
    avgLatencyClarify: real,
    avgTopScore: real)

  /** `compute_metrics` divides by the row count unguarded. */
  datatype MetricsError = ZeroDivision

  /** `compute_metrics`; with at least one row, `Rate` and `Mean` are the
      plain divisions by the row count. */
  function ComputeMetrics(results: seq<EvalRow>): (r: Result<Metrics, MetricsError>)
    ensures r.Err? <==> results == []
    ensures r.Ok? ==> r.value.total == |results|
  {
    var total := |results|;
    if total == 0 then Err(ZeroDivision)
    else
      var expectedRefuse := Count(results, ExpectsRefuse);
      var expectedAnswer := Count(results, ExpectsAnswer);
      Ok(Metrics(
        total,
        Rate(Count(results, IsCorrect), total),
        Rate(Count(results, RefusedCorrectly), expectedRefuse),
        Rate(Count(results, AnsweredCorrectly), expectedAnswer),
        Rate(Count(results, EffectiveAnswer), total),
        Rate(Count(results, ClarifiedOutOfDomain), expectedRefuse),
        Mean(Sum(results, LatencyOf), total),
        AvgLatencyForType(results, AnswerType),
        AvgLatencyForType(results, RefuseType),
        AvgLatencyForType(results, ClarifyType),
        Mean(Sum(results, TopScoreOf), total)))
  }

  /** A count of a subset of the denominator's rows gives a rate in [0, 1]. */
  lemma RateBounds(x: nat, d: nat)
    requires x <= d
    ensures 0.0 <= Rate(x, d) <= 1.0
  {
    if d > 0 {
      DivideBounds(x as real, d as real, 0.0, 1.0);
    }
  }

  lemma RateAdd(x: nat, y: nat, d: nat)
    ensures Rate(x, d) + Rate(y, d) == Rate(x + y, d)
  {
    if d > 0 {
      var dr := d as real;
      assert (x as real / dr) * dr == x as real;
      assert (y as real / dr) * dr == y as real;
      assert ((x + y) as real / dr) * dr == (x + y) as real;
    }
  }

  /** Every rate lies in [0, 1] and is 0 when its denominator is, and an
      effective answer is an answer. */
  lemma MetricsBounded(results: seq<EvalRow>)
    requires results != []
    ensures var m := ComputeMetrics(results).value;
      && 0.0 <= m.accuracy <= 1.0
      && 0.0 <= m.refusalCorrectness <= 1.0
      && 0.0 <= m.answerCorrectness <= 1.0
      && 0.0 <= m.effectiveAnswerRate <= 1.0
      && 0.0 <= m.clarifyOodRate <= 1.0
      && (Count(results, ExpectsRefuse) == 0 ==> m.refusalCorrectness == 0.0 && m.clarifyOodRate == 0.0)
      && (Count(results, ExpectsAnswer) == 0 ==> m.answerCorrectness == 0.0)
      && Count(results, EffectiveAnswer) <= Count(results, PredictsAnswer) <= |results|
  {
    var total := |results|;
    var er := Count(results, ExpectsRefuse);
    CountMonotone(results, RefusedCorrectly, ExpectsRefuse);
    CountMonotone(results, AnsweredCorrectly, ExpectsAnswer);
    CountMonotone(results, ClarifiedOutOfDomain, ExpectsRefuse);
    CountMonotone(results, EffectiveAnswer, PredictsAnswer);
    RateBounds(Count(results, IsCorrect), total);
    RateBounds(Count(results, RefusedCorrectly), er);
    RateBounds(Count(results, AnsweredCorrectly), Count(results, ExpectsAnswer));
    RateBounds(Count(results, EffectiveAnswer), total);
    RateBounds(Count(results, ClarifiedOutOfDomain), er);
  }

  /** Out-of-domain questions that were refused and those that were met
      with a clarification are disjoint, so the two rates add up to at
      most 1. */
  lemma RefusalAndClarifyShareOutOfDomain(results: seq<EvalRow>)
    requires results != []
    ensures var m := ComputeMetrics(results).value;
      m.refusalCorrectness + m.clarifyOodRate <= 1.0
  {
    var er := Count(results, ExpectsRefuse);
    var a := Count(results, RefusedCorrectly);
    var b := Count(results, ClarifiedOutOfDomain);
    assert RefuseType != ClarifyType by {
      assert RefuseType[0] != ClarifyType[0];
    }
    CountDisjoint(results, RefusedCorrectly, ClarifiedOutOfDomain, ExpectsRefuse);
    assert a + b <= er;
    RateAdd(a, b, er);
    RateBounds(a + b, er);
    assert Rate(a, er) + Rate(b, er) <= 1.0;
    var m := ComputeMetrics(results).value;
    assert m.refusalCorrectness == Rate(a, er);
    assert m.clarifyOodRate == Rate(b, er);
  }

  /** The mean latency and mean top score lie within the bounds of the
      rows' values. */
  lemma MetricsMeansBounded(results: seq<EvalRow>, lo: real, hi: real)
    requires results != []
    requires forall r :: r in results ==> lo <= r.latencyTotal <= hi && lo <= r.topScore <= hi
    ensures var m := ComputeMetrics(results).value;
      lo <= m.avgLatencyTotal <= hi && lo <= m.avgTopScore <= hi
  {
    MeanOfSumBounds(results, LatencyOf, lo, hi);
    MeanOfSumBounds(results, TopScoreOf, lo, hi);
  }
}
