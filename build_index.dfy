/** Building the vector index and its row-aligned metadata file from the
    chunk records: row i of the index holds the embedding of chunk i, and
    line i of meta.jsonl describes that chunk under `vector_id = i`. The
    embedding model is an input; the FAISS write and the file write are
    represented by what they store. */
module IndexBuild {
  import opened Util
  import opened Json
  import Chunking

  /** One line of meta.jsonl. `meta` is None when the line has no `meta` key. */
  datatype MetaRecord = MetaRecord(
    vectorId: int,
    chunkId: string,
    docId: string,
    moduleName: string,
    text: string,
    meta: Option<Chunking.ChunkMeta>,
    startChar: int,
    endChar: int,
    chunkIndex: int)

  /** What the index file holds: the dimension and the vectors, row by row. */
  datatype StoredIndex = StoredIndex(dim: nat, vectors: seq<seq<real>>)

  /** Everything `build_index` leaves behind: the index, the metadata rows
      and the count `write_jsonl` returns. */
  datatype Artifacts = Artifacts(index: StoredIndex, meta: seq<MetaRecord>, written: nat)

  function MetaRecordOf(i: nat, c: Chunking.ChunkRecord): MetaRecord {
    MetaRecord(i, c.chunkId, c.docId, c.moduleName, c.text, Some(c.meta),
               c.startChar, c.endChar, c.chunkIndex)
  }

  /** `meta_records`: the chunks enumerated in order. */
  function MetaRecords(chunks: seq<Chunking.ChunkRecord>): (ms: seq<MetaRecord>)
    ensures |ms| == |chunks|
  {
    seq(|chunks|, i requires 0 <= i < |chunks| => MetaRecordOf(i, chunks[i]))
  }

  /** Record i has `vector_id == i` and copies every other field of chunk
      i unchanged. */
  lemma MetaRecordsAligned(chunks: seq<Chunking.ChunkRecord>)
    ensures var ms := MetaRecords(chunks);
      forall i :: 0 <= i < |ms| ==>
        && ms[i].vectorId == i
        && ms[i].chunkId == chunks[i].chunkId && ms[i].docId == chunks[i].docId
        && ms[i].moduleName == chunks[i].moduleName && ms[i].text == chunks[i].text
        && ms[i].meta == Some(chunks[i].meta)
        && ms[i].startChar == chunks[i].startChar && ms[i].endChar == chunks[i].endChar
        && ms[i].chunkIndex == chunks[i].chunkIndex
  {
  }

  /** `build_index`'s `main`: embed the chunk texts in order (`embed`
      stands for the embedding model; the embeddings form a matrix, and
      `dim` is its column count), store them in an index of that
      dimension, and write one metadata row per chunk. */
  function Build(chunks: seq<Chunking.ChunkRecord>, embed: string -> seq<real>, dim: nat): (a: Artifacts)
    requires forall i :: 0 <= i < |chunks| ==> |embed(chunks[i].text)| == dim
    ensures |a.index.vectors| == |chunks| == |a.meta| == a.written
    ensures a.index.dim == dim
    ensures forall i :: 0 <= i < |a.index.vectors| ==> |a.index.vectors[i]| == a.index.dim
    ensures forall i :: 0 <= i < |chunks| ==> a.index.vectors[i] == embed(chunks[i].text)
    ensures forall i :: 0 <= i < |a.meta| ==> a.meta[i].vectorId == i && a.meta[i].chunkId == chunks[i].chunkId
  {
    var vectors := seq(|chunks|, i requires 0 <= i < |chunks| => embed(chunks[i].text));
    var meta := MetaRecords(chunks);
    Artifacts(StoredIndex(dim, vectors), meta, |meta|)
  }

  /** The JSON object written to meta.jsonl for a record. */
  function MetaJson(m: MetaRecord): Object {
    var base := map[
      "vector_id" := JInt(m.vectorId),
      "chunk_id" := JStr(m.chunkId),
      "doc_id" := JStr(m.docId),
      "module" := JStr(m.moduleName),
      "text" := JStr(m.text),
      "start_char" := JInt(m.startChar),
      "end_char" := JInt(m.endChar),
      "chunk_index" := JInt(m.chunkIndex)];
    match m.meta
    case Some(cm) => base["meta" := Chunking.ChunkMetaJson(cm)]
    case None => base
  }
}
