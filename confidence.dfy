/** The confidence gate: retrieved hits are sorted by score, capped, and
    mapped by an ordered list of rules to answer, clarify or refuse,
    together with the hits the decision rests on. */
module Confidence {
  import opened Util
  import opened Retrieval

  datatype Decision = Answer | Clarify | Refuse

  /** Which rule fired, with the numbers its message reports. */
  datatype Rationale =
    | NoEvidence
    | BelowLowThreshold(top: real, thLow: real)
    | ConsistentStrongEvidence(top: real, thHigh: real, sameTopic: bool, supportCount: nat)
    | CompetingTopics(top: real, margin: real, marginMin: real)
    | StrongUnambiguous
    | BetweenThresholds(top: real, thLow: real, thHigh: real)

  datatype ConfidenceResult = ConfidenceResult(
    decision: Decision,
    confidence: real,
    topScore: real,
    secondScore: real,
    margin: real,
    rationale: Rationale,
    usedChunks: seq<RetrievedChunk>)

  /** The gate's configuration: thresholds, the margin applied to
      competing topics, and the cap on the hits considered. */
  datatype Gate = Gate(thHigh: real, thLow: real, marginMin: real, maxChunks: int)

  datatype GateError = LowNotBelowHigh

  const DefaultThHigh: real := 0.40
  const DefaultThLow: real := 0.25
  const DefaultMarginMin: real := 0.03
  const DefaultMaxChunks := 5

  /** `ConfidenceGate.__init__` once the configuration has been read: the
      low threshold must lie strictly below the high one. */
  function NewGate(thHigh: real, thLow: real, marginMin: real, maxChunks: int): (r: Result<Gate, GateError>)
    ensures r.Ok? <==> thLow < thHigh
    ensures r.Err? ==> r.error == LowNotBelowHigh
    ensures r.Ok? ==> r.value == Gate(thHigh, thLow, marginMin, maxChunks)
  {
    if !(thLow < thHigh) then Err(LowNotBelowHigh) else Ok(Gate(thHigh, thLow, marginMin, maxChunks))
  }

  // ---------------------------------------------------------------------
  // Stable sort by descending score

  predicate SortedDesc(s: seq<RetrievedChunk>) {
    forall a, b :: 0 <= a < b < |s| ==> s[a].score >= s[b].score
  }

  /** Inserts `x` after every element scoring at least as much, so that
      among equal scores earlier elements stay first. */
  function InsertDesc(x: RetrievedChunk, s: seq<RetrievedChunk>): seq<RetrievedChunk> {
    if s == [] then [x]
    else if s[0].score >= x.score then [s[0]] + InsertDesc(x, s[1..])
    else [x] + s
  }

  /** `sorted(hits, key=score, reverse=True)`. */
  function SortDesc(s: seq<RetrievedChunk>): seq<RetrievedChunk> {
    if s == [] then [] else InsertDesc(s[|s| - 1], SortDesc(s[..|s| - 1]))
  }

  /** The elements with score `v`, in order. */
  function WithScore(s: seq<RetrievedChunk>, v: real): seq<RetrievedChunk> {
    if s == [] then [] else (if s[0].score == v then [s[0]] else []) + WithScore(s[1..], v)
  }

  lemma {:induction false} WithScoreAppend(a: seq<RetrievedChunk>, b: seq<RetrievedChunk>, v: real)
    ensures WithScore(a + b, v) == WithScore(a, v) + WithScore(b, v)
  {
    if a == [] {
      assert a + b == b;
    } else {
      var h := if a[0].score == v then [a[0]] else [];
      assert (a + b)[0] == a[0];
      assert (a + b)[1..] == a[1..] + b;
      WithScoreAppend(a[1..], b, v);
      assert WithScore(a + b, v) == h + WithScore(a[1..] + b, v);
      assert WithScore(a, v) == h + WithScore(a[1..], v);
      RegroupChunks(h, WithScore(a[1..], v), WithScore(b, v));
    }
  }

  lemma RegroupChunks(x: seq<RetrievedChunk>, y: seq<RetrievedChunk>, z: seq<RetrievedChunk>)
    ensures x + (y + z) == x + y + z
  {
  }

  /** Inserting into a descending list keeps it descending; the new head
      is the old head or `x`. */
  lemma {:induction false} InsertDescSorted(x: RetrievedChunk, s: seq<RetrievedChunk>)
    requires SortedDesc(s)
    ensures SortedDesc(InsertDesc(x, s))
    ensures InsertDesc(x, s)[0] == x || (s != [] && InsertDesc(x, s)[0] == s[0])
  {
    if s != [] && s[0].score >= x.score {
      var t := s[1..];
      assert SortedDesc(t);
      InsertDescSorted(x, t);
      var it := InsertDesc(x, t);
      var r := [s[0]] + it;
      assert InsertDesc(x, s) == r;
      assert s[0].score >= it[0].score by {
        if t != [] { assert t[0] == s[1]; }
      }
      forall a, b | 0 <= a < b < |r| ensures r[a].score >= r[b].score {
        if a == 0 {
          assert r[b] == it[b - 1];
        } else {
          assert r[a] == it[a - 1] && r[b] == it[b - 1];
        }
      }
    }
  }

  /** Inserting adds exactly `x`. */
  lemma {:induction false} InsertDescAdds(x: RetrievedChunk, s: seq<RetrievedChunk>)
    ensures multiset(InsertDesc(x, s)) == multiset(s) + multiset{x}
    ensures |InsertDesc(x, s)| == |s| + 1
  {
    if s != [] && s[0].score >= x.score {
      InsertDescAdds(x, s[1..]);
      assert s == [s[0]] + s[1..];
    }
  }

  /** Inserting `x` leaves the elements of every other score as they
      were and puts `x` after those of its own score. */
  lemma {:induction false} InsertDescStable(x: RetrievedChunk, s: seq<RetrievedChunk>, v: real)
    requires SortedDesc(s)
    ensures WithScore(InsertDesc(x, s), v) == WithScore(s, v) + WithScore([x], v)
  {
    if s == [] {
      assert InsertDesc(x, s) == [x];
      assert WithScore(s, v) == [];
    } else if s[0].score >= x.score {
      var t := s[1..];
      assert SortedDesc(t);
      InsertDescStable(x, t, v);
      var it := InsertDesc(x, t);
      var h := if s[0].score == v then [s[0]] else [];
      assert InsertDesc(x, s) == [s[0]] + it;
      assert ([s[0]] + it)[0] == s[0] && ([s[0]] + it)[1..] == it;
      assert WithScore(InsertDesc(x, s), v) == h + WithScore(it, v);
      assert WithScore(s, v) == h + WithScore(t, v);
      RegroupChunks(h, WithScore(t, v), WithScore([x], v));
    } else {
      assert InsertDesc(x, s) == [x] + s;
      WithScoreAppend([x], s, v);
      WithScoreBelow(s, x.score, v);
      assert WithScore([x], v) == [] || x.score == v;
    }
  }

  /** When `x` goes in front, no element after it has `x`'s score. */
  lemma {:induction false} WithScoreBelow(s: seq<RetrievedChunk>, top: real, v: real)
    requires SortedDesc(s) && (s == [] || s[0].score < top)
    ensures v == top ==> WithScore(s, v) == []
  {
    if s != [] {
      assert SortedDesc(s[1..]);
      WithScoreBelow(s[1..], top, v);
    }
  }

  /** The sort yields a descending list. */
  lemma {:induction false} SortDescSorted(s: seq<RetrievedChunk>)
    ensures SortedDesc(SortDesc(s))
  {
    if s != [] {
      SortDescSorted(s[..|s| - 1]);
      InsertDescSorted(s[|s| - 1], SortDesc(s[..|s| - 1]));
    }
  }

  /** The sort yields a permutation of its input. */
  lemma {:induction false} SortDescPermutes(s: seq<RetrievedChunk>)
    ensures multiset(SortDesc(s)) == multiset(s)
    ensures |SortDesc(s)| == |s|
  {
    if s != [] {
      var front := s[..|s| - 1];
      var last := s[|s| - 1];
      assert SortDesc(s) == InsertDesc(last, SortDesc(front));
      SortDescPermutes(front);
      InsertDescAdds(last, SortDesc(front));
      assert s == front + [last];
      assert multiset(s) == multiset(front) + multiset{last};
    }
  }

  /** The sort keeps the input order among equal scores. */
  lemma {:induction false} SortDescStable(s: seq<RetrievedChunk>, v: real)
    ensures WithScore(SortDesc(s), v) == WithScore(s, v)
  {
    if s != [] {
      var front := s[..|s| - 1];
      var last := s[|s| - 1];
      SortDescStable(front, v);
      SortDescSorted(front);
      InsertDescStable(last, SortDesc(front), v);
      assert s == front + [last];
      WithScoreAppend(front, [last], v);
    }
  }

  /** The sort yields a descending permutation of its input that keeps
      the input order among equal scores. */
  lemma SortDescFacts(s: seq<RetrievedChunk>, v: real)
    ensures SortedDesc(SortDesc(s))
    ensures multiset(SortDesc(s)) == multiset(s)
    ensures |SortDesc(s)| == |s|
    ensures WithScore(SortDesc(s), v) == WithScore(s, v)
  {
    SortDescSorted(s);
    SortDescPermutes(s);
    SortDescStable(s, v);
  }

  // ---------------------------------------------------------------------
  // The decision

  /** The length of the Python slice `xs[:m]` of a list of length `n`. */
  function CapLen(m: int, n: nat): (c: nat)
    ensures c <= n
    ensures m >= 0 ==> c == if m < n then m else n
  {
    if m >= 0 then (if m < n then m else n) else (if n + m > 0 then n + m else 0)
  }

  /** The hits the gate works on: sorted, then cut to `max_chunks`. */
  function Capped(g: Gate, hits: seq<RetrievedChunk>): (c: seq<RetrievedChunk>)
    ensures |c| == CapLen(g.maxChunks, |hits|)
  {
    SortDescFacts(hits, 0.0);
    SortDesc(hits)[..CapLen(g.maxChunks, |hits|)]
  }

  function SupportCount(capped: seq<RetrievedChunk>, thHigh: real): nat {
    Count(capped, (h: RetrievedChunk) => h.score >= thHigh)
  }

  /** The two best hits come from the same document or the same module. */
  predicate SameTopic(c: seq<RetrievedChunk>) {
    |c| > 1 && (c[0].docId == c[1].docId || c[0].moduleName == c[1].moduleName)
  }

  function SecondScore(c: seq<RetrievedChunk>): real {
    if |c| > 1 then c[1].score else 0.0
  }

  /** `ConfidenceGate.decide`. A non-empty hit list must leave at least
      one hit after the cap: `hits_sorted[0]` raises otherwise. */
  function Decide(g: Gate, hits: seq<RetrievedChunk>): (r: ConfidenceResult)
    requires hits != [] ==> CapLen(g.maxChunks, |hits|) > 0
    ensures hits == [] ==> r == ConfidenceResult(Refuse, 0.0, 0.0, 0.0, 0.0, NoEvidence, [])
    ensures r.confidence == r.topScore && r.margin == r.topScore - r.secondScore
    ensures hits != [] ==> r.topScore == Capped(g, hits)[0].score && r.secondScore == SecondScore(Capped(g, hits))
    ensures r.usedChunks == [] <==> r.decision == Refuse
    ensures r.decision != Refuse ==> r.usedChunks == Capped(g, hits)
    ensures hits != [] ==> (r.decision == Refuse <==> r.topScore < g.thLow)
  {
    if hits == [] then ConfidenceResult(Refuse, 0.0, 0.0, 0.0, 0.0, NoEvidence, [])
    else
      var c := Capped(g, hits);
      var s1 := c[0].score;
      var s2 := SecondScore(c);
      var margin := s1 - s2;
      if s1 < g.thLow then ConfidenceResult(Refuse, s1, s1, s2, margin, BelowLowThreshold(s1, g.thLow), [])
      else
        var sameTopic := SameTopic(c);
        var support := SupportCount(c, g.thHigh);
        if s1 >= g.thHigh then
          if sameTopic || support >= 2 then
            ConfidenceResult(Answer, s1, s1, s2, margin, ConsistentStrongEvidence(s1, g.thHigh, sameTopic, support), c)
          else if |c| > 1 && !sameTopic && margin < g.marginMin then
            ConfidenceResult(Clarify, s1, s1, s2, margin, CompetingTopics(s1, margin, g.marginMin), c)
          else
            ConfidenceResult(Answer, s1, s1, s2, margin, StrongUnambiguous, c)
        else
          ConfidenceResult(Clarify, s1, s1, s2, margin, BetweenThresholds(s1, g.thLow, g.thHigh), c)
  }

  /** The capped hits are the best hits, best first: they are sorted, they
      are hits, and no hit left out scores more than one kept. */
  lemma CappedIsBestPrefix(g: Gate, hits: seq<RetrievedChunk>)
    ensures SortedDesc(Capped(g, hits))
    ensures multiset(Capped(g, hits)) <= multiset(hits)
    ensures g.maxChunks >= 0 ==> |Capped(g, hits)| <= g.maxChunks
  {
    var s := SortDesc(hits);
    SortDescFacts(hits, 0.0);
    var c := Capped(g, hits);
    assert s == c + s[|c|..];
  }

  /** The top score is the highest score among all hits. */
  lemma TopIsMaximum(g: Gate, hits: seq<RetrievedChunk>)
    requires hits != [] && CapLen(g.maxChunks, |hits|) > 0
    ensures forall h :: h in hits ==> h.score <= Decide(g, hits).topScore
    ensures exists i :: 0 <= i < |hits| && hits[i].score == Decide(g, hits).topScore
  {
    var s := SortDesc(hits);
    SortDescFacts(hits, 0.0);
    forall h | h in hits ensures h.score <= s[0].score {
      assert h in multiset(s);
      var k :| 0 <= k < |s| && s[k] == h;
    }
    assert s[0] in multiset(hits);
    var i :| 0 <= i < |hits| && hits[i] == s[0];
  }

  /** With two or more capped hits the second score is the runner-up
      among all hits: at most one hit scores above it, and at least two
      score at least as much. */
  lemma SecondIsRunnerUp(g: Gate, hits: seq<RetrievedChunk>)
    requires CapLen(g.maxChunks, |hits|) > 1
    ensures var s2 := Decide(g, hits).secondScore;
      && Count(hits, (h: RetrievedChunk) => h.score > s2) <= 1
      && Count(hits, (h: RetrievedChunk) => h.score >= s2) >= 2
  {
    var s := SortDesc(hits);
    SortDescFacts(hits, 0.0);
    var s2 := s[1].score;
    assert Capped(g, hits)[1] == s[1];
    assert Decide(g, hits).secondScore == s2;
    CountPermutation(hits, s, (h: RetrievedChunk) => h.score > s2);
    CountPermutation(hits, s, (h: RetrievedChunk) => h.score >= s2);
    RunnerUpOfSorted(s);
  }

  /** In a descending list of two or more, one element at most scores
      above the second, and two score at least as much. */
  lemma RunnerUpOfSorted(s: seq<RetrievedChunk>)
    requires SortedDesc(s) && |s| > 1
    ensures Count(s, (h: RetrievedChunk) => h.score > s[1].score) <= 1
    ensures Count(s, (h: RetrievedChunk) => h.score >= s[1].score) >= 2
  {
    var s2 := s[1].score;
    var above := (h: RetrievedChunk) => h.score > s2;
    var atLeast := (h: RetrievedChunk) => h.score >= s2;
    var head := s[..2];
    var tail := s[2..];
    assert s == head + tail;
    CountAppend(head, tail, above);
    CountAppend(head, tail, atLeast);
    forall x | x in tail ensures !above(x) {
      var k :| 0 <= k < |tail| && tail[k] == x;
      assert x == s[k + 2];
    }
    CountNone(tail, above);
    CountAll(head, atLeast);
    assert head[..1][..0] == [];
    assert !above(head[1]);
  }

  /** Counting is blind to order. */
  lemma {:induction false} CountPermutation(a: seq<RetrievedChunk>, b: seq<RetrievedChunk>, p: RetrievedChunk -> bool)
    requires multiset(a) == multiset(b)
    ensures Count(a, p) == Count(b, p)
    decreases |a|
  {
    if a != [] {
      var x := a[|a| - 1];
      var a' := a[..|a| - 1];
      assert a == a' + [x];
      assert x in multiset(b);
      var k :| 0 <= k < |b| && b[k] == x;
      var b' := b[..k] + b[k + 1..];
      assert b == b[..k] + [x] + b[k + 1..];
      assert multiset(a) == multiset(a') + multiset{x};
      assert multiset(b) == multiset(b[..k]) + multiset{x} + multiset(b[k + 1..]);
      assert multiset(b') == multiset(b[..k]) + multiset(b[k + 1..]);
      assert multiset(a') == multiset(a) - multiset{x};
      assert multiset(b') == multiset(b) - multiset{x};
      CountPermutation(a', b', p);
      CountAppend(b[..k], [x], p);
      CountAppend(b[..k] + [x], b[k + 1..], p);
      CountAppend(b[..k], b[k + 1..], p);
    }
  }

  /** In a descending list the hits at or above a threshold form a
      prefix, so a prefix of length `c` holds `min(c, K)` of them. */
  lemma {:induction false} PrefixCount(s: seq<RetrievedChunk>, th: real, c: nat)
    requires SortedDesc(s) && c <= |s|
    ensures var p := (h: RetrievedChunk) => h.score >= th;
      Count(s[..c], p) == if c < Count(s, p) then c else Count(s, p)
    decreases |s| - c
  {
    var p := (h: RetrievedChunk) => h.score >= th;
    if c == |s| {
      assert s[..c] == s;
    } else {
      PrefixCount(s, th, c + 1);
      assert s[..c + 1][..c] == s[..c];
      if p(s[c]) {
        CountAll(s[..c], p);
      }
    }
  }

  /** `support_count` equals the number of hits scoring at least the high
      threshold, capped at the number of capped hits. */
  lemma SupportCountOfHits(g: Gate, hits: seq<RetrievedChunk>)
    ensures var k := Count(hits, (h: RetrievedChunk) => h.score >= g.thHigh);
      var c := |Capped(g, hits)|;
      SupportCount(Capped(g, hits), g.thHigh) == if c < k then c else k
  {
    var s := SortDesc(hits);
    SortDescFacts(hits, 0.0);
    var p := (h: RetrievedChunk) => h.score >= g.thHigh;
    CountPermutation(hits, s, p);
    PrefixCount(s, g.thHigh, CapLen(g.maxChunks, |hits|));
  }

  /** The rule table in full: which decision each region of the scores
      leads to. */
  lemma DecisionRules(g: Gate, hits: seq<RetrievedChunk>)
    requires hits != [] && CapLen(g.maxChunks, |hits|) > 0
    ensures var c := Capped(g, hits);
      var s1 := c[0].score;
      var s2 := SecondScore(c);
      var support := SupportCount(c, g.thHigh);
      && (Decide(g, hits).decision == Refuse <==> s1 < g.thLow)
      && (Decide(g, hits).decision == Answer <==>
            g.thLow <= s1 && g.thHigh <= s1
            && (SameTopic(c) || support >= 2 || |c| == 1 || s1 - s2 >= g.marginMin))
      && (Decide(g, hits).decision == Clarify <==>
            g.thLow <= s1
            && (s1 < g.thHigh || (|c| > 1 && !SameTopic(c) && support < 2 && s1 - s2 < g.marginMin)))
  {
  }

  /** A top score exactly at the low threshold is not refused. */
  lemma LowThresholdIsNotRefused(g: Gate, hits: seq<RetrievedChunk>)
    requires hits != [] && CapLen(g.maxChunks, |hits|) > 0
    requires Decide(g, hits).topScore == g.thLow
    ensures Decide(g, hits).decision != Refuse
  {
  }

  /** A clarification in the strong region only happens between two hits
      of different topics whose second one is below the high threshold. */
  lemma CompetingClarifyIsBelowHigh(g: Gate, hits: seq<RetrievedChunk>)
    requires hits != [] && CapLen(g.maxChunks, |hits|) > 0
    requires Decide(g, hits).decision == Clarify && Decide(g, hits).topScore >= g.thHigh
    ensures var c := Capped(g, hits);
      |c| > 1 && !SameTopic(c) && Decide(g, hits).secondScore < g.thHigh
      && Decide(g, hits).margin < g.marginMin
  {
    var c := Capped(g, hits);
    var p := (h: RetrievedChunk) => h.score >= g.thHigh;
    assert c == c[..2] + c[2..];
    CountAppend(c[..2], c[2..], p);
    assert c[..2] == c[..1] + [c[1]];
    assert c[..1][..0] == [];
  }

  /** Scores from 0.25 (inclusive) up to 0.40 (exclusive) are the middle
      zone of the default gate and always ask for clarification; a score
      of 0.40 with two hits from the same document is answered. */
  lemma DefaultGateScenarios(hits: seq<RetrievedChunk>)
    requires hits != []
    ensures var g := Gate(DefaultThHigh, DefaultThLow, DefaultMarginMin, DefaultMaxChunks);
      var top := Capped(g, hits)[0].score;
      && (top < 0.25 ==> Decide(g, hits).decision == Refuse)
      && (0.25 <= top < 0.40 ==> Decide(g, hits).decision == Clarify)
      && (top >= 0.40 && SameTopic(Capped(g, hits)) ==> Decide(g, hits).decision == Answer)
  {
  }
}
