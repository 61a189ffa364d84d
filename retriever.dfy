/** Dense retrieval: the FAISS index and the row-aligned metadata store,
    the construction checks that tie them together, and the join of
    search results back to chunk metadata. The index's search and the
    query embedder are inputs. */
module Retrieval {
  import opened Util
  import Chunking
  import IndexBuild

  /** One result of an index search: a score and a row id (-1 when the
      index has fewer than k entries). */
  datatype SearchHit = SearchHit(score: real, row: int)

  /** What the retriever uses of a loaded FAISS index: its row count, its
      dimension and its search, given a query vector and k. */
  datatype FaissIndex = FaissIndex(ntotal: nat, dim: nat, search: (seq<real>, nat) -> seq<SearchHit>)

  /** One retrieved chunk. */
  datatype RetrievedChunk = RetrievedChunk(
    chunkId: string,
    docId: string,
    moduleName: string,
    score: real,
    text: string,
    meta: Chunking.ChunkMeta,
    startChar: int,
    endChar: int,
    chunkIndex: int,
    vectorId: int)

  datatype RetrieverError =
    | IndexNotFound
    | MetaNotFound
    | IndexMetaMismatch(ntotal: nat, metaRows: nat)
    | QueryDimMismatch(queryDim: nat, indexDim: nat)
    | RowOutOfRange(row: int)

  const DefaultTopK := 5

  /** Python's `rows[i]` on a list: negative positions count from the end;
      None stands for `IndexError`. */
  function RowAt(rows: seq<IndexBuild.MetaRecord>, i: int): (r: Option<IndexBuild.MetaRecord>)
    ensures r.Some? <==> -|rows| <= i < |rows|
    ensures 0 <= i < |rows| ==> r == Some(rows[i])
  {
    if 0 <= i < |rows| then Some(rows[i])
    else if -|rows| <= i < 0 then Some(rows[|rows| + i])
    else None
  }

  /** The metadata of meta.jsonl, one record per line, addressed by row. */
  class FaissMetaStore {
    var meta: seq<IndexBuild.MetaRecord>

    /** Loads the records in file order. */
    constructor (lines: seq<IndexBuild.MetaRecord>)
      ensures meta == lines
    {
      meta := [];
      new;
      var i := 0;
      while i < |lines|
        invariant 0 <= i <= |lines|
        invariant meta == lines[..i]
      {
        meta := meta + [lines[i]];
        i := i + 1;
      }
    }

    function Len(): (n: nat)
      reads this
      ensures n == |meta|
    {
      |meta|
    }

    method Get(vectorId: int) returns (r: Option<IndexBuild.MetaRecord>)
      ensures r == RowAt(meta, vectorId)
    {
      if 0 <= vectorId < |meta| {
        r := Some(meta[vectorId]);
      } else if -|meta| <= vectorId < 0 {
        r := Some(meta[|meta| + vectorId]);
      } else {
        r := None;
      }
    }
  }

  /** `int(top_k or self.top_k)`: a missing or zero request falls back to
      the configured default. */
  function EffectiveK(requested: Option<int>, configured: int): (k: int)
    ensures requested.Some? && requested.value != 0 ==> k == requested.value
    ensures requested.None? || requested.value == 0 ==> k == configured
  {
    match requested
    case Some(v) => if v != 0 then v else configured
    case None => configured
  }

  /** The chunk built from metadata record `rec` for a hit scored `score`;
      an absent `meta` becomes an empty one. */
  function ChunkOf(rec: IndexBuild.MetaRecord, score: real): RetrievedChunk {
    RetrievedChunk(rec.chunkId, rec.docId, rec.moduleName, score, rec.text,
                   rec.meta.GetOr(Chunking.ChunkMeta(None, None)),
                   rec.startChar, rec.endChar, rec.chunkIndex, rec.vectorId)
  }

  /** The join loop of `retrieve`: hits with a negative row are skipped,
      every other hit becomes the chunk of its metadata row, in search
      order; a row the store does not have raises. */
  function JoinHits(hits: seq<SearchHit>, rows: seq<IndexBuild.MetaRecord>): (r: Result<seq<RetrievedChunk>, RetrieverError>)
    ensures r.Ok? ==> |r.value| == |RealHits(hits)|
  {
    if hits == [] then Ok([])
    else
      var h := hits[|hits| - 1];
      match JoinHits(hits[..|hits| - 1], rows)
      case Err(e) => Err(e)
      case Ok(front) =>
        if h.row < 0 then Ok(front)
        else match RowAt(rows, h.row)
          case None => Err(RowOutOfRange(h.row))
          case Some(rec) => Ok(front + [ChunkOf(rec, h.score)])
  }

  /** What `retrieve` returns or raises. */
  function RetrieveSpec(index: FaissIndex, rows: seq<IndexBuild.MetaRecord>, embed: string -> seq<real>,
                        configuredK: int, query: string, requested: Option<int>): Result<seq<RetrievedChunk>, RetrieverError> {
    var k := EffectiveK(requested, configuredK);
    if k <= 0 then Ok([])
    else
      var q := embed(query);
      if |q| != index.dim then Err(QueryDimMismatch(|q|, index.dim))
      else JoinHits(index.search(q, k), rows)
  }

  class Retriever {
    const index: FaissIndex
    const metaStore: FaissMetaStore
    const embed: string -> seq<real>
    const topK: int

    /** Index rows and metadata rows correspond one to one. */
    predicate Aligned()
      reads this, metaStore
    {
      index.ntotal == |metaStore.meta|
    }

    constructor (index: FaissIndex, metaStore: FaissMetaStore, embed: string -> seq<real>, topK: int)
      ensures this.index == index && this.metaStore == metaStore
      ensures this.embed == embed && this.topK == topK
    {
      this.index := index;
      this.metaStore := metaStore;
      this.embed := embed;
      this.topK := topK;
    }

    /** `Retriever.__init__` after the configuration has been read: the
        index and meta files must exist and agree in their row counts. */
    static method Load(indexExists: bool, metaExists: bool, index: FaissIndex, lines: seq<IndexBuild.MetaRecord>,
                       embed: string -> seq<real>, topK: int)
      returns (r: Result<Retriever, RetrieverError>)
      ensures !indexExists ==> r == Err(IndexNotFound)
      ensures indexExists && !metaExists ==> r == Err(MetaNotFound)
      ensures indexExists && metaExists && index.ntotal != |lines| ==> r == Err(IndexMetaMismatch(index.ntotal, |lines|))
      ensures r.Ok? <==> indexExists && metaExists && index.ntotal == |lines|
      ensures r.Ok? ==> (fresh(r.value) && fresh(r.value.metaStore) && r.value.index == index
        && r.value.metaStore.meta == lines && r.value.topK == topK && r.value.embed == embed
        && r.value.Aligned())
    {
      if !indexExists {
        return Err(IndexNotFound);
      }
      if !metaExists {
        return Err(MetaNotFound);
      }
      var store := new FaissMetaStore(lines);
      if index.ntotal != store.Len() {
        return Err(IndexMetaMismatch(index.ntotal, store.Len()));
      }
      var ret := new Retriever(index, store, embed, topK);
      return Ok(ret);
    }

    /** `Retriever.retrieve`. */
    method Retrieve(query: string, requested: Option<int>) returns (r: Result<seq<RetrievedChunk>, RetrieverError>)
      ensures r == RetrieveSpec(index, metaStore.meta, embed, topK, query, requested)
    {
      var k := EffectiveK(requested, topK);
      if k <= 0 {
        return Ok([]);
      }
      var q := embed(query);
      if |q| != index.dim {
        return Err(QueryDimMismatch(|q|, index.dim));
      }
      var hits := index.search(q, k);
      var results: seq<RetrievedChunk> := [];
      var i := 0;
      while i < |hits|
        invariant 0 <= i <= |hits|
        invariant JoinHits(hits[..i], metaStore.meta) == Ok(results)
      {
        var h := hits[i];
        assert hits[..i + 1][..i] == hits[..i];
        if h.row >= 0 {
          var rec := metaStore.Get(h.row);
          if rec.None? {
            JoinHitsErrorStays(hits, i + 1, metaStore.meta);
            return Err(RowOutOfRange(h.row));
          }
          results := results + [ChunkOf(rec.value, h.score)];
        }
        i := i + 1;
      }
      assert hits[..|hits|] == hits;
      return Ok(results);
    }
  }

  /** Once the join has raised on a prefix of the hits, it raises the
      same error on the whole list. */
  lemma {:induction false} JoinHitsErrorStays(hits: seq<SearchHit>, i: nat, rows: seq<IndexBuild.MetaRecord>)
    requires i <= |hits| && JoinHits(hits[..i], rows).Err?
    ensures JoinHits(hits, rows) == JoinHits(hits[..i], rows)
    decreases |hits| - i
  {
    if i < |hits| {
      assert hits[..i + 1][..i] == hits[..i];
      JoinHitsErrorStays(hits, i + 1, rows);
    } else {
      assert hits[..i] == hits;
    }
  }

  /** Two identical queries against an unchanged retriever return the same
      chunks, hence the same chunk ids. */
  method RetrieveIsDeterministic(ret: Retriever, query: string, requested: Option<int>)
    returns (first: Result<seq<RetrievedChunk>, RetrieverError>, second: Result<seq<RetrievedChunk>, RetrieverError>)
    ensures first == second
    ensures first == RetrieveSpec(ret.index, ret.metaStore.meta, ret.embed, ret.topK, query, requested)
  {
    first := ret.Retrieve(query, requested);
    second := ret.Retrieve(query, requested);
  }

  /** With an effective k of zero or less nothing is embedded or searched:
      the result is empty whatever the embedder and the index do. */
  lemma NonPositiveKIsEmpty(index: FaissIndex, rows: seq<IndexBuild.MetaRecord>, embed: string -> seq<real>,
                            configuredK: int, query: string, requested: Option<int>)
    requires EffectiveK(requested, configuredK) <= 0
    ensures RetrieveSpec(index, rows, embed, configuredK, query, requested) == Ok([])
  {
  }

  /** A query vector of the wrong dimension raises before any search. */
  lemma DimensionChecked(index: FaissIndex, rows: seq<IndexBuild.MetaRecord>, embed: string -> seq<real>,
                         configuredK: int, query: string, requested: Option<int>)
    requires EffectiveK(requested, configuredK) > 0 && |embed(query)| != index.dim
    ensures RetrieveSpec(index, rows, embed, configuredK, query, requested)
      == Err(QueryDimMismatch(|embed(query)|, index.dim))
  {
  }

  /** The hits that denote a row, in search order. */
  function RealHits(hits: seq<SearchHit>): (rs: seq<SearchHit>)
    ensures |rs| <= |hits|
    ensures forall j :: 0 <= j < |rs| ==> rs[j].row >= 0
  {
    if hits == [] then []
    else RealHits(hits[..|hits| - 1]) + (if hits[|hits| - 1].row >= 0 then [hits[|hits| - 1]] else [])
  }

  /** The join succeeds exactly when every non-negative row is in the
      store; it then holds one chunk per such hit, in search order, with
      the hit's score and every other field copied from that row's
      record (`vector_id` included, read from the record). */
  lemma {:induction false} JoinHitsCharacterised(hits: seq<SearchHit>, rows: seq<IndexBuild.MetaRecord>)
    ensures JoinHits(hits, rows).Ok? <==> forall j :: 0 <= j < |hits| ==> hits[j].row < |rows|
    ensures JoinHits(hits, rows).Ok? ==>
      forall j :: 0 <= j < |RealHits(hits)| ==>
        RealHits(hits)[j].row < |rows|
        && JoinHits(hits, rows).value[j] == ChunkOf(rows[RealHits(hits)[j].row], RealHits(hits)[j].score)
  {
    if hits != [] {
      var front := hits[..|hits| - 1];
      JoinHitsCharacterised(front, rows);
      assert forall j :: 0 <= j < |front| ==> front[j] == hits[j];
    }
  }

  /** Every retrieved score is a score of the search that is at least `lo`
      when all search scores are. */
  lemma {:induction false} JoinHitsLowerBound(hits: seq<SearchHit>, rows: seq<IndexBuild.MetaRecord>, lo: real)
    requires forall j :: 0 <= j < |hits| ==> hits[j].score >= lo
    requires JoinHits(hits, rows).Ok?
    ensures forall j :: 0 <= j < |JoinHits(hits, rows).value| ==> JoinHits(hits, rows).value[j].score >= lo
  {
    if hits != [] {
      JoinHitsLowerBound(hits[..|hits| - 1], rows, lo);
    }
  }

  /** The join keeps the search order: scores that do not increase along
      the search results do not increase along the retrieved chunks, and
      there are never more chunks than search results. */
  lemma {:induction false} JoinHitsKeepsOrder(hits: seq<SearchHit>, rows: seq<IndexBuild.MetaRecord>)
    requires forall a, b :: 0 <= a < b < |hits| ==> hits[a].score >= hits[b].score
    requires JoinHits(hits, rows).Ok?
    ensures |JoinHits(hits, rows).value| <= |hits|
    ensures forall a, b :: 0 <= a < b < |JoinHits(hits, rows).value| ==>
      JoinHits(hits, rows).value[a].score >= JoinHits(hits, rows).value[b].score
  {
    if hits != [] {
      var front := hits[..|hits| - 1];
      var h := hits[|hits| - 1];
      JoinHitsKeepsOrder(front, rows);
      JoinHitsLowerBound(front, rows, h.score);
    }
  }

  /** When the metadata rows carry their own position as `vector_id` (as
      `meta_records` writes them), every retrieved chunk's `vector_id` is
      the row the search returned. */
  lemma AlignedVectorIds(hits: seq<SearchHit>, rows: seq<IndexBuild.MetaRecord>)
    requires forall i :: 0 <= i < |rows| ==> rows[i].vectorId == i
    requires JoinHits(hits, rows).Ok?
    ensures forall j :: 0 <= j < |RealHits(hits)| ==>
      JoinHits(hits, rows).value[j].vectorId == RealHits(hits)[j].row
  {
    JoinHitsCharacterised(hits, rows);
    var rh := RealHits(hits);
    forall j | 0 <= j < |rh| ensures JoinHits(hits, rows).value[j].vectorId == rh[j].row {
      RealHitsFrom(hits, j);
    }
  }

  /** Every real hit is a hit of the search. */
  lemma {:induction false} RealHitsFrom(hits: seq<SearchHit>, j: nat)
    requires j < |RealHits(hits)|
    ensures RealHits(hits)[j] in hits
  {
    var front := hits[..|hits| - 1];
    if j < |RealHits(front)| {
      RealHitsFrom(front, j);
    }
  }

  /** A search whose rows are all either -1 or below `ntotal` never makes
      an aligned retriever raise after the dimension check, and returns at
      most k chunks when the search returns k results. */
  lemma RetrieveWithinIndex(index: FaissIndex, rows: seq<IndexBuild.MetaRecord>, embed: string -> seq<real>,
                            configuredK: int, query: string, requested: Option<int>)
    requires index.ntotal == |rows|
    requires var k := EffectiveK(requested, configuredK);
      k > 0 && |embed(query)| == index.dim
      && |index.search(embed(query), k)| <= k
      && forall j :: 0 <= j < |index.search(embed(query), k)| ==> index.search(embed(query), k)[j].row < index.ntotal
    ensures var r := RetrieveSpec(index, rows, embed, configuredK, query, requested);
      r.Ok? && |r.value| <= EffectiveK(requested, configuredK)
  {
    var k := EffectiveK(requested, configuredK);
    var hits := index.search(embed(query), k);
    JoinHitsCharacterised(hits, rows);
  }
}
