/** The chunks.jsonl checker: every record has the required keys, a
    chunk id not seen before, a text whose length matches its offsets,
    and a text that is not blank. The script aborts at the first record
    that fails; a failing `assert` and a Python exception raised on an
    ill-typed value both end it, and the model names which check failed. */
module ValidateChunks {
  import opened Util
  import opened PyStr
  import opened Json
  import Ingest
  import Chunking

  const RequiredKeys: set<string> :=
    {"chunk_id", "doc_id", "module", "text", "start_char", "end_char", "chunk_index", "created_at", "meta"}

  /** Why a record stops the script. */
  datatype Failure =
    | MissingKeys        // the schema assert
    | IdUnhashable       // TypeError from the set lookup
    | DuplicateChunkId   // the uniqueness assert
    | TextHasNoLength    // TypeError from len()
    | OffsetsNotNumeric  // TypeError from the subtraction
    | OffsetMismatch     // the offset assert
    | TextNotString      // AttributeError from .strip()
    | BlankText          // the non-empty assert

  datatype ChunksError = FileMissing | Rejected(index: nat, why: Failure)

  /** The set key of a record's chunk id, when it has one. */
  function IdKey(c: Object): Option<Key> {
    if "chunk_id" in c then HashKey(c["chunk_id"]) else None
  }

  /** The ids the loop has put in its set after the records `rs`. */
  function IdKeys(rs: seq<Object>): set<Key> {
    set i | 0 <= i < |rs| && IdKey(rs[i]).Some? :: IdKey(rs[i]).value
  }

  /** A record every per-record check accepts. */
  predicate ChunkOk(c: Object) {
    && RequiredKeys <= c.Keys
    && IdKey(c).Some?
    && c["text"].JStr?
    && NumberOf(c["start_char"]).Some? && NumberOf(c["end_char"]).Some?
    && |c["text"].s| as real == NumberOf(c["end_char"]).value - NumberOf(c["start_char"]).value
    && NonBlank(c["text"].s)
  }

  /** A file the script accepts: every record passes and no two records
      share a chunk id. */
  predicate AllValid(rs: seq<Object>) {
    && (forall i :: 0 <= i < |rs| ==> ChunkOk(rs[i]))
    && (forall i, j :: 0 <= i < j < |rs| ==> IdKey(rs[i]) != IdKey(rs[j]))
  }

  /** The first check record `c` fails, given the ids seen before it. */
  function RecordFailure(c: Object, seen: set<Key>): (f: Option<Failure>)
    ensures f.None? <==> ChunkOk(c) && IdKey(c).value !in seen
  {
    if !(RequiredKeys <= c.Keys) then Some(MissingKeys)
    else if IdKey(c).None? then Some(IdUnhashable)
    else if IdKey(c).value in seen then Some(DuplicateChunkId)
    else if LenOf(c["text"]).None? then Some(TextHasNoLength)
    else if NumberOf(c["end_char"]).None? || NumberOf(c["start_char"]).None? then Some(OffsetsNotNumeric)
    else if LenOf(c["text"]).value as real != NumberOf(c["end_char"]).value - NumberOf(c["start_char"]).value then Some(OffsetMismatch)
    else if !c["text"].JStr? then Some(TextNotString)
    else if !NonBlank(c["text"].s) then Some(BlankText)
    else None
  }

  /** A valid prefix stays valid with one more record exactly when that
      record passes its checks against the ids seen so far. */
  lemma ExtendValid(rs: seq<Object>, c: Object)
    requires AllValid(rs)
    ensures AllValid(rs + [c]) <==> RecordFailure(c, IdKeys(rs)) == None
  {
    var rs' := rs + [c];
    assert rs'[..|rs|] == rs;
    assert rs'[|rs|] == c;
    if RecordFailure(c, IdKeys(rs)) == None {
      forall i, j | 0 <= i < j < |rs'| ensures IdKey(rs'[i]) != IdKey(rs'[j]) {
        if j == |rs| {
          assert IdKey(rs[i]).value in IdKeys(rs);
        }
      }
    }
  }

  /** `validate_chunks.main` over the records of an existing file. */
  method ValidateChunks(fileExists: bool, recs: seq<Object>) returns (r: Result<nat, ChunksError>)
    ensures !fileExists ==> r == Err(FileMissing)
    ensures r.Ok? <==> fileExists && AllValid(recs)
    ensures r.Ok? ==> r.value == |recs|
    ensures r.Err? && fileExists ==>
      && r.error.Rejected? && r.error.index < |recs|
      && AllValid(recs[..r.error.index]) && !AllValid(recs[..r.error.index + 1])
      && RecordFailure(recs[r.error.index], IdKeys(recs[..r.error.index])) == Some(r.error.why)
  {
    if !fileExists {
      return Err(FileMissing);
    }
    var ids: set<Key> := {};
    var count := 0;
    var i := 0;
    while i < |recs|
      invariant 0 <= i <= |recs| && count == i
      invariant AllValid(recs[..i])
      invariant ids == IdKeys(recs[..i])
    {
      var c := recs[i];
      count := count + 1;
      assert recs[..i + 1] == recs[..i] + [c];
      ExtendValid(recs[..i], c);
      var failure := RecordFailure(c, ids);
      if failure.Some? {
        return Err(Rejected(i, failure.value));
      }
      ids := ids + {IdKey(c).value};
      assert IdKeys(recs[..i + 1]) == IdKeys(recs[..i]) + {IdKey(c).value} by {
        var rs := recs[..i + 1];
        assert forall k :: 0 <= k < i ==> rs[k] == recs[..i][k];
        assert rs[i] == c;
      }
      i := i + 1;
    }
    assert recs[..|recs|] == recs;
    return Ok(count);
  }

  /** The records that chunk_doc_record writes for one document pass
      every check: the splitter's offsets match its texts, its texts are
      not blank, and its chunk ids are distinct. */
  lemma SplitterOutputPasses(doc: Ingest.DocRecord, cfg: Chunking.SplitConfig, createdAt: string)
    requires Chunking.DocChunks(doc, cfg, createdAt).Ok?
    ensures AllValid(Chunking.ChunksJson(Chunking.DocChunks(doc, cfg, createdAt).value))
  {
    var rs := Chunking.DocChunks(doc, cfg, createdAt).value;
    var js := Chunking.ChunksJson(rs);
    forall j | 0 <= j < |js| ensures ChunkOk(js[j]) {
      Chunking.DocChunkFits(doc, cfg, createdAt, j);
      ChunkJsonPasses(rs[j]);
    }
    Chunking.DocChunksShape(doc, cfg, createdAt);
    forall a, b | 0 <= a < b < |js| ensures IdKey(js[a]) != IdKey(js[b]) {
      ChunkJsonPasses(rs[a]);
      ChunkJsonPasses(rs[b]);
    }
  }

  /** The JSON of a chunk record passes the per-record checks when its
      text is the non-blank slice its offsets name. */
  lemma ChunkJsonPasses(c: Chunking.ChunkRecord)
    requires c.endChar - c.startChar == |c.text| && NonBlank(c.text)
    ensures ChunkOk(Chunking.ChunkJson(c))
    ensures IdKey(Chunking.ChunkJson(c)) == Some(KStr(c.chunkId))
  {
    var o := Chunking.ChunkJson(c);
    assert o.Keys == RequiredKeys;
  }
}
