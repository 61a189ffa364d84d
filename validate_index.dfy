/** The index checker: the three artifacts exist, the metadata rows carry
    `vector_id` 0, 1, ..., N-1 in order, and the chunk count, the index
    row count and the metadata count agree, with a positive dimension.
    Reading the FAISS file is represented by its row count and dimension. */
module ValidateIndex {
  import opened Util
  import opened Json
  import IndexBuild
  import Chunking

  /** What `faiss.read_index` reports. */
  datatype IndexShape = IndexShape(ntotal: nat, dim: nat)

  datatype IndexError =
    | ChunksMissing
    | IndexMissing
    | MetaMissing
    | VectorIdMissing(row: nat)             // KeyError on rec["vector_id"]
    | VectorIdMismatch(row: nat)            // the sequence assert
    | ChunkCountMismatch(chunks: nat, meta: nat)
    | VectorCountMismatch(vectors: nat, meta: nat)
    | DimensionNotPositive

  datatype IndexSummary = IndexSummary(chunks: nat, vectors: nat, dim: nat)

  /** Row i of the metadata says `vector_id == i`. */
  predicate RowNumbered(rec: Object, i: nat) {
    "vector_id" in rec && EqualsInt(rec["vector_id"], i)
  }

  predicate Sequential(meta: seq<Object>) {
    forall i :: 0 <= i < |meta| ==> RowNumbered(meta[i], i)
  }

  /** Everything the script asserts. */
  predicate IndexValid(chunksExist: bool, indexExists: bool, metaExists: bool,
                       nChunks: nat, index: IndexShape, meta: seq<Object>) {
    chunksExist && indexExists && metaExists && Sequential(meta)
    && nChunks == |meta| && index.ntotal == |meta| && index.dim > 0
  }

  /** `validate_index.main`; `nChunks` is the number of records in
      chunks.jsonl. */
  method ValidateIndex(chunksExist: bool, indexExists: bool, metaExists: bool,
                       nChunks: nat, index: IndexShape, meta: seq<Object>)
    returns (r: Result<IndexSummary, IndexError>)
    ensures r.Ok? <==> IndexValid(chunksExist, indexExists, metaExists, nChunks, index, meta)
    ensures r.Ok? ==> r.value == IndexSummary(nChunks, index.ntotal, index.dim)
    ensures !chunksExist ==> r == Err(ChunksMissing)
    ensures chunksExist && !indexExists ==> r == Err(IndexMissing)
    ensures chunksExist && indexExists && !metaExists ==> r == Err(MetaMissing)
    ensures r.Err? && (r.error.VectorIdMissing? || r.error.VectorIdMismatch?) ==>
      var k := r.error.row;
      && k < |meta| && Sequential(meta[..k])
      && (r.error.VectorIdMissing? <==> "vector_id" !in meta[k])
      && !RowNumbered(meta[k], k)
    ensures chunksExist && indexExists && metaExists && Sequential(meta) ==>
      (if nChunks != |meta| then r == Err(ChunkCountMismatch(nChunks, |meta|))
       else if index.ntotal != |meta| then r == Err(VectorCountMismatch(index.ntotal, |meta|))
       else if index.dim == 0 then r == Err(DimensionNotPositive)
       else r.Ok?)
  {
    if !chunksExist { return Err(ChunksMissing); }
    if !indexExists { return Err(IndexMissing); }
    if !metaExists { return Err(MetaMissing); }
    var nVec := index.ntotal;
    var dim := index.dim;
    var nMeta := 0;
    var expectedVid := 0;
    while nMeta < |meta|
      invariant 0 <= nMeta <= |meta| && expectedVid == nMeta
      invariant Sequential(meta[..nMeta])
    {
      var rec := meta[nMeta];
      if "vector_id" !in rec {
        return Err(VectorIdMissing(nMeta));
      }
      if !EqualsInt(rec["vector_id"], expectedVid) {
        assert !Sequential(meta) by {
          assert !RowNumbered(meta[nMeta], nMeta);
        }
        return Err(VectorIdMismatch(nMeta));
      }
      assert meta[..nMeta + 1] == meta[..nMeta] + [rec];
      expectedVid := expectedVid + 1;
      nMeta := nMeta + 1;
    }
    assert meta[..|meta|] == meta;
    if nChunks != nMeta { return Err(ChunkCountMismatch(nChunks, nMeta)); }
    if nVec != nMeta { return Err(VectorCountMismatch(nVec, nMeta)); }
    if dim <= 0 { return Err(DimensionNotPositive); }
    return Ok(IndexSummary(nChunks, nVec, dim));
  }

  /** What build_index writes passes the checker: the metadata rows are
      numbered 0..N-1, one per chunk, and the index has one row per chunk,
      provided the embedder produced vectors of positive dimension. */
  lemma BuiltIndexValidates(chunks: seq<Chunking.ChunkRecord>, embed: string -> seq<real>, dim: nat)
    requires dim > 0
    requires forall i :: 0 <= i < |chunks| ==> |embed(chunks[i].text)| == dim
    ensures var a := IndexBuild.Build(chunks, embed, dim);
      IndexValid(true, true, true, |chunks|, IndexShape(|a.index.vectors|, a.index.dim),
                 seq(|a.meta|, i requires 0 <= i < |a.meta| => IndexBuild.MetaJson(a.meta[i])))
  {
    var a := IndexBuild.Build(chunks, embed, dim);
    var js := seq(|a.meta|, i requires 0 <= i < |a.meta| => IndexBuild.MetaJson(a.meta[i]));
    forall i | 0 <= i < |js| ensures RowNumbered(js[i], i) {
      MetaJsonVectorId(a.meta[i]);
    }
  }

  lemma MetaJsonVectorId(m: IndexBuild.MetaRecord)
    ensures "vector_id" in IndexBuild.MetaJson(m)
    ensures IndexBuild.MetaJson(m)["vector_id"] == JInt(m.vectorId)
  {
  }
}
