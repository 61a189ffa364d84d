/** The questions.jsonl checker: each question has an id, a query and an
    expected type of `answer` or `refuse`, and no id repeats. The script
    stops at the first record that fails. */
module ValidateEval {
  import opened Util
  import opened Json

  const RequiredKeys: set<string> := {"id", "query", "expected_type"}

  datatype Failure =
    | MissingKeys       // the required-keys assert
    | BadExpectedType   // the expected_type assert
    | IdUnhashable      // TypeError from the set lookup
    | DuplicateId       // the uniqueness assert

  /** A missing questions file makes the reader raise before any record. */
  datatype EvalError = FileMissing | Rejected(index: nat, why: Failure)

  /** `expected_type in ("answer", "refuse")`: `clarify` is not a valid
      expectation. */
  predicate ExpectedTypeOk(j: Json) {
    j == JStr("answer") || j == JStr("refuse")
  }

  function IdKey(q: Object): Option<Key> {
    if "id" in q then HashKey(q["id"]) else None
  }

  function IdKeys(qs: seq<Object>): set<Key> {
    set i | 0 <= i < |qs| && IdKey(qs[i]).Some? :: IdKey(qs[i]).value
  }

  predicate QuestionOk(q: Object) {
    RequiredKeys <= q.Keys && ExpectedTypeOk(q["expected_type"]) && IdKey(q).Some?
  }

  /** A file the script accepts. */
  predicate AllValid(qs: seq<Object>) {
    && (forall i :: 0 <= i < |qs| ==> QuestionOk(qs[i]))
    && (forall i, j :: 0 <= i < j < |qs| ==> IdKey(qs[i]) != IdKey(qs[j]))
  }

  /** The first check a question fails, given the ids seen before it. */
  function QuestionFailure(q: Object, seen: set<Key>): (f: Option<Failure>)
    ensures f.None? <==> QuestionOk(q) && IdKey(q).value !in seen
  {
    if !(RequiredKeys <= q.Keys) then Some(MissingKeys)
    else if !ExpectedTypeOk(q["expected_type"]) then Some(BadExpectedType)
    else if IdKey(q).None? then Some(IdUnhashable)
    else if IdKey(q).value in seen then Some(DuplicateId)
    else None
  }

  lemma ExtendValid(qs: seq<Object>, q: Object)
    requires AllValid(qs)
    ensures AllValid(qs + [q]) <==> QuestionFailure(q, IdKeys(qs)) == None
  {
    var qs' := qs + [q];
    assert qs'[..|qs|] == qs;
    assert qs'[|qs|] == q;
    if QuestionFailure(q, IdKeys(qs)) == None {
      forall i, j | 0 <= i < j < |qs'| ensures IdKey(qs'[i]) != IdKey(qs'[j]) {
        if j == |qs| {
          assert IdKey(qs[i]).value in IdKeys(qs);
        }
      }
    }
  }

  /** `validate_eval.main`: the number of questions, or the first failure. */
  method ValidateEval(fileExists: bool, qs: seq<Object>) returns (r: Result<nat, EvalError>)
    ensures !fileExists ==> r == Err(FileMissing)
    ensures r.Ok? <==> fileExists && AllValid(qs)
    ensures r.Ok? ==> r.value == |qs|
    ensures r.Err? && fileExists ==>
      && r.error.Rejected? && r.error.index < |qs|
      && AllValid(qs[..r.error.index]) && !AllValid(qs[..r.error.index + 1])
      && QuestionFailure(qs[r.error.index], IdKeys(qs[..r.error.index])) == Some(r.error.why)
  {
    if !fileExists {
      return Err(FileMissing);
    }
    var ids: set<Key> := {};
    var n := 0;
    while n < |qs|
      invariant 0 <= n <= |qs|
      invariant AllValid(qs[..n])
      invariant ids == IdKeys(qs[..n])
    {
      var q := qs[n];
      assert qs[..n + 1] == qs[..n] + [q];
      ExtendValid(qs[..n], q);
      var failure := QuestionFailure(q, ids);
      if failure.Some? {
        return Err(Rejected(n, failure.value));
      }
      ids := ids + {IdKey(q).value};
      assert IdKeys(qs[..n + 1]) == IdKeys(qs[..n]) + {IdKey(q).value} by {
        var rs := qs[..n + 1];
        assert forall k :: 0 <= k < n ==> rs[k] == qs[..n][k];
        assert rs[n] == q;
      }
      n := n + 1;
    }
    assert qs[..|qs|] == qs;
    return Ok(n);
  }

  /** A question expecting a clarification is rejected, whatever else it holds. */
  lemma ClarifyIsRejected(q: Object, seen: set<Key>)
    requires RequiredKeys <= q.Keys && q["expected_type"] == JStr("clarify")
    ensures QuestionFailure(q, seen) == Some(BadExpectedType)
  {
    assert JStr("clarify") != JStr("answer") by {
      assert "clarify"[0] != "answer"[0];
    }
    assert JStr("clarify") != JStr("refuse") by {
      assert "clarify"[0] != "refuse"[0];
    }
  }
}
