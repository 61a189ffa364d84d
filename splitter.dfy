/** Sliding-window splitting of a document's text into overlapping
    character chunks, and the chunk records written to chunks.jsonl. */
module Chunking {
  import opened Util
  import opened PyStr
  import opened Json
  import Ingest

  datatype SplitConfig = SplitConfig(chunkSize: int, overlap: int)

  const DefaultSplit := SplitConfig(800, 150)

  datatype SplitError = ChunkSizeNotPositive | OverlapNegative | OverlapNotBelowChunkSize

  /** One window kept by the splitter: its text, its half-open character
      range in the document, and its position among the kept windows. */
  datatype Piece = Piece(text: string, startChar: nat, endChar: nat, chunkIndex: nat)

  /** The `meta` object of a chunk record. */
  datatype ChunkMeta = ChunkMeta(sourcePath: Option<string>, heading: Option<string>)

  /** One line of chunks.jsonl. */
  datatype ChunkRecord = ChunkRecord(
    chunkId: string,
    docId: string,
    moduleName: string,
    text: string,
    startChar: nat,
    endChar: nat,
    chunkIndex: nat,
    createdAt: string,
    meta: ChunkMeta)

  /** The end of the window starting at `start`: `min(start + size, n)`. */
  function WindowEnd(n: nat, size: nat, start: nat): (e: nat)
    requires start < n && size > 0
    ensures start < e <= n && e - start <= size
    ensures e == n <==> start + size >= n
  {
    if start + size < n then start + size else n
  }

  /** The window `[start, end)` as a one-element list when it is not
      whitespace only, numbered `idx`; otherwise empty. */
  function Kept(text: string, size: nat, start: nat, idx: nat): (here: seq<Piece>)
    requires start < |text| && size > 0
    ensures |here| <= 1
  {
    var end := WindowEnd(|text|, size, start);
    var chunk := text[start..end];
    if NonBlank(chunk) then [Piece(chunk, start, end, idx)] else []
  }

  /** The kept windows from the one starting at `start` on, numbered from
      `idx`: the window is `[start, min(start + size, |text|))`, kept when
      not whitespace only; the walk stops after the window that reaches
      the end of the text. */
  function Windows(text: string, size: nat, step: nat, start: nat, idx: nat): seq<Piece>
    requires 0 < step <= size && start < |text|
    decreases |text| - start
  {
    var here := Kept(text, size, start, idx);
    if WindowEnd(|text|, size, start) == |text| then here
    else here + Windows(text, size, step, start + step, idx + |here|)
  }

  /** What `split_text_with_offsets` returns or raises. */
  function Split(text: string, cfg: SplitConfig): (r: Result<seq<Piece>, SplitError>)
    ensures r.Err? <==> cfg.chunkSize <= 0 || cfg.overlap < 0 || cfg.overlap >= cfg.chunkSize
    ensures cfg.chunkSize <= 0 ==> r == Err(ChunkSizeNotPositive)
    ensures cfg.chunkSize > 0 && cfg.overlap < 0 ==> r == Err(OverlapNegative)
    ensures cfg.chunkSize > 0 && cfg.overlap >= 0 && cfg.overlap >= cfg.chunkSize ==> r == Err(OverlapNotBelowChunkSize)
    ensures r.Ok? && text == [] ==> r.value == []
  {
    if cfg.chunkSize <= 0 then Err(ChunkSizeNotPositive)
    else if cfg.overlap < 0 then Err(OverlapNegative)
    else if cfg.overlap >= cfg.chunkSize then Err(OverlapNotBelowChunkSize)
    else if |text| == 0 then Ok([])
    else Ok(Windows(text, cfg.chunkSize, cfg.chunkSize - cfg.overlap, 0, 0))
  }

  /** `split_text_with_offsets`. */
  method SplitTextWithOffsets(text: string, cfg: SplitConfig) returns (r: Result<seq<Piece>, SplitError>)
    ensures r == Split(text, cfg)
  {
    if cfg.chunkSize <= 0 {
      return Err(ChunkSizeNotPositive);
    }
    if cfg.overlap < 0 {
      return Err(OverlapNegative);
    }
    if cfg.overlap >= cfg.chunkSize {
      return Err(OverlapNotBelowChunkSize);
    }
    var n := |text|;
    if n == 0 {
      return Ok([]);
    }
    var chunks := SlideWindows(text, cfg.chunkSize, cfg.chunkSize - cfg.overlap);
    return Ok(chunks);
  }

  /** The window loop of `split_text_with_offsets` on a non-empty text
      with a valid configuration. */
  method SlideWindows(text: string, size: nat, step: nat) returns (chunks: seq<Piece>)
    requires 0 < step <= size && |text| > 0
    ensures chunks == Windows(text, size, step, 0, 0)
  {
    var n := |text|;
    ghost var full := Windows(text, size, step, 0, 0);
    chunks := [];
    var start := 0;
    var idx := 0;
    while start < n
      invariant 0 <= start < n
      invariant idx == |chunks|
      invariant chunks + Windows(text, size, step, start, idx) == full
      decreases n - start
    {
      var end := WindowEnd(n, size, start);
      ghost var before := chunks;
      chunks := AppendWindow(text, size, start, chunks);
      idx := |chunks|;
      if end == n {
        WindowsLast(text, size, step, start, before, full);
        break;
      }
      WindowsStep(text, size, step, start, before, chunks, idx, full);
      start := start + step;
    }
  }

  /** One iteration's body: the window `[start, end)` is appended, with
      the next index, unless it is whitespace only. */
  method AppendWindow(text: string, size: nat, start: nat, chunks: seq<Piece>) returns (after: seq<Piece>)
    requires start < |text| && size > 0
    ensures after == chunks + Kept(text, size, start, |chunks|)
  {
    var end := WindowEnd(|text|, size, start);
    var chunkText := text[start..end];
    after := chunks;
    if NonBlank(chunkText) {
      after := after + [Piece(chunkText, start, end, |chunks|)];
    }
  }

  /** Regrouping a concatenation of three lists of pieces. */
  lemma RegroupPieces(a: seq<Piece>, b: seq<Piece>, c: seq<Piece>)
    ensures a + (b + c) == a + b + c
  {
  }

  /** One iteration of the window loop preserves its invariant. */
  lemma WindowsStep(text: string, size: nat, step: nat, start: nat, before: seq<Piece>, after: seq<Piece>, next: nat, full: seq<Piece>)
    requires 0 < step <= size && start < |text| && WindowEnd(|text|, size, start) < |text|
    requires before + Windows(text, size, step, start, |before|) == full
    requires after == before + Kept(text, size, start, |before|) && next == |after|
    ensures after + Windows(text, size, step, start + step, next) == full
  {
    var here := Kept(text, size, start, |before|);
    var rest := Windows(text, size, step, start + step, next);
    assert next == |before| + |here|;
    assert Windows(text, size, step, start, |before|) == here + rest;
    RegroupPieces(before, here, rest);
  }

  /** The iteration whose window reaches the end of the text completes
      the result. */
  lemma WindowsLast(text: string, size: nat, step: nat, start: nat, before: seq<Piece>, full: seq<Piece>)
    requires 0 < step <= size && start < |text| && WindowEnd(|text|, size, start) == |text|
    requires before + Windows(text, size, step, start, |before|) == full
    ensures before + Kept(text, size, start, |before|) == full
  {
    assert Windows(text, size, step, start, |before|) == Kept(text, size, start, |before|);
  }

  /** Well-formedness of every kept window: a non-blank slice of the text
      of at most `size` characters. */
  predicate PieceOk(text: string, size: nat, p: Piece) {
    p.startChar < p.endChar <= |text| && p.text == text[p.startChar..p.endChar]
    && p.endChar - p.startChar <= size && NonBlank(p.text)
  }

  /** The pieces `w` are well formed, start at or after `start`, and are
      numbered consecutively from `idx`. */
  predicate PiecesFrom(text: string, size: nat, start: nat, idx: nat, w: seq<Piece>) {
    forall j :: 0 <= j < |w| ==> PieceOk(text, size, w[j]) && start <= w[j].startChar && w[j].chunkIndex == idx + j
  }

  /** The starts of the pieces `w` strictly increase. */
  predicate StartsIncrease(w: seq<Piece>) {
    forall a, b :: 0 <= a < b < |w| ==> w[a].startChar < w[b].startChar
  }

  /** The window at `start`, when kept, is well formed and numbered `idx`. */
  lemma KeptPiecesFrom(text: string, size: nat, start: nat, idx: nat)
    requires start < |text| && size > 0
    ensures PiecesFrom(text, size, start, idx, Kept(text, size, start, idx))
    ensures forall j :: 0 <= j < |Kept(text, size, start, idx)| ==> Kept(text, size, start, idx)[j].startChar == start
  {
  }

  /** A window yields a piece exactly when its text is not blank. */
  lemma KeptIffNonBlank(text: string, size: nat, start: nat, idx: nat)
    requires start < |text| && size > 0
    ensures |Kept(text, size, start, idx)| == 1 <==> NonBlank(text[start..WindowEnd(|text|, size, start)])
  {
  }

  /** The window at `start` followed by well-formed pieces from a later
      start gives well-formed pieces with increasing starts. */
  lemma KeptThenPieces(text: string, size: nat, step: nat, start: nat, idx: nat, rest: seq<Piece>)
    requires 0 < step <= size && start < |text|
    requires PiecesFrom(text, size, start + step, idx + |Kept(text, size, start, idx)|, rest) && StartsIncrease(rest)
    ensures PiecesFrom(text, size, start, idx, Kept(text, size, start, idx) + rest)
    ensures StartsIncrease(Kept(text, size, start, idx) + rest)
  {
    var here := Kept(text, size, start, idx);
    KeptPiecesFrom(text, size, start, idx);
    var w := here + rest;
    forall j | 0 <= j < |w|
      ensures PieceOk(text, size, w[j]) && start <= w[j].startChar && w[j].chunkIndex == idx + j
    {
      if j >= |here| {
        assert w[j] == rest[j - |here|];
      } else {
        assert w[j] == here[j];
      }
    }
    forall a, b | 0 <= a < b < |w| ensures w[a].startChar < w[b].startChar {
      if a < |here| {
        assert w[a] == here[a] && w[b] == rest[b - |here|];
      } else {
        assert w[a] == rest[a - |here|] && w[b] == rest[b - |here|];
      }
    }
  }

  /** Every window from `start` on is well formed, starts at or after
      `start`, the windows are numbered consecutively from `idx`, and
      their starts strictly increase. */
  lemma {:induction false} WindowsWellFormed(text: string, size: nat, step: nat, start: nat, idx: nat)
    requires 0 < step <= size && start < |text|
    ensures PiecesFrom(text, size, start, idx, Windows(text, size, step, start, idx))
    ensures StartsIncrease(Windows(text, size, step, start, idx))
    decreases |text| - start
  {
    var next := idx + |Kept(text, size, start, idx)|;
    if WindowEnd(|text|, size, start) < |text| {
      assert start + step < |text|;
      WindowsWellFormed(text, size, step, start + step, next);
      KeptThenPieces(text, size, step, start, idx, Windows(text, size, step, start + step, next));
      assert Windows(text, size, step, start, idx) == Kept(text, size, start, idx) + Windows(text, size, step, start + step, next);
    } else {
      KeptPiecesFrom(text, size, start, idx);
    }
  }

  /** Every chunk is a non-blank slice `text[start:end]` with
      `0 <= start < end <= len(text)` and length at most `chunk_size`;
      starts strictly increase and chunk indices are 0, 1, 2, ... */
  lemma SplitPiecesWellFormed(text: string, cfg: SplitConfig)
    requires Split(text, cfg).Ok?
    ensures var ps := Split(text, cfg).value;
      && (forall j :: 0 <= j < |ps| ==> PieceOk(text, cfg.chunkSize, ps[j]))
      && (forall j :: 0 <= j < |ps| ==> ps[j].chunkIndex == j)
      && (forall a, b :: 0 <= a < b < |ps| ==> ps[a].startChar < ps[b].startChar)
  {
    if text != [] {
      assert Split(text, cfg).value == Windows(text, cfg.chunkSize, cfg.chunkSize - cfg.overlap, 0, 0);
      WindowsWellFormed(text, cfg.chunkSize, cfg.chunkSize - cfg.overlap, 0, 0);
    }
  }

  /** A window of a text without whitespace is kept. */
  lemma KeptWithoutWhitespace(text: string, size: nat, start: nat, idx: nat)
    requires start < |text| && size > 0
    requires forall i :: 0 <= i < |text| ==> !IsSpace(text[i])
    ensures Kept(text, size, start, idx)
      == [Piece(text[start..WindowEnd(|text|, size, start)], start, WindowEnd(|text|, size, start), idx)]
  {
    assert text[start..WindowEnd(|text|, size, start)][0] == text[start];
  }

  /** Consecutive pieces advance by `step` and overlap by `size - step`
      characters, from the start `first` to the end `last`. */
  predicate Contiguous(w: seq<Piece>, size: nat, step: nat, first: nat, last: nat) {
    && w != [] && w[0].startChar == first && w[|w| - 1].endChar == last
    && (forall j :: 0 <= j < |w| - 1 ==> w[j + 1].startChar == w[j].startChar + step)
    && (forall j :: 0 <= j < |w| - 1 ==> w[j].endChar - w[j + 1].startChar == size - step)
  }

  /** A piece followed by contiguous pieces that start `step` later and
      that it overlaps by `size - step` characters. */
  lemma ConsContiguous(p: Piece, rest: seq<Piece>, size: nat, step: nat, last: nat)
    requires Contiguous(rest, size, step, p.startChar + step, last)
    requires p.endChar - (p.startChar + step) == size - step
    ensures Contiguous([p] + rest, size, step, p.startChar, last)
  {
    var w := [p] + rest;
    forall j | 0 <= j < |w| - 1
      ensures w[j + 1].startChar == w[j].startChar + step
      ensures w[j].endChar - w[j + 1].startChar == size - step
    {
      if j > 0 {
        assert w[j] == rest[j - 1] && w[j + 1] == rest[j];
      }
    }
  }

  /** No window from the one at `start` on is whitespace only, so the
      splitter skips none of them. */
  predicate EveryWindowKept(text: string, size: nat, step: nat, start: nat)
    requires 0 < step <= size && start < |text|
    decreases |text| - start
  {
    var e := WindowEnd(|text|, size, start);
    && NonBlank(text[start..e])
    && (e < |text| ==> EveryWindowKept(text, size, step, start + step))
  }

  /** In a text without whitespace every window is kept. */
  lemma {:induction false} EveryWindowKeptWithoutWhitespace(text: string, size: nat, step: nat, start: nat)
    requires 0 < step <= size && start < |text|
    requires forall i :: 0 <= i < |text| ==> !IsSpace(text[i])
    ensures EveryWindowKept(text, size, step, start)
    decreases |text| - start
  {
    var e := WindowEnd(|text|, size, start);
    assert text[start..e][0] == text[start];
    if e < |text| {
      EveryWindowKeptWithoutWhitespace(text, size, step, start + step);
    }
  }

  /** A window that is not whitespace only is kept as it is. */
  lemma KeptWhenNonBlank(text: string, size: nat, start: nat, idx: nat)
    requires start < |text| && size > 0
    requires NonBlank(text[start..WindowEnd(|text|, size, start)])
    ensures Kept(text, size, start, idx)
      == [Piece(text[start..WindowEnd(|text|, size, start)], start, WindowEnd(|text|, size, start), idx)]
  {
  }

  /** When no window is skipped, the chunks start at `start`, end at
      `len(text)`, advance by `step`, and consecutive chunks share exactly
      `size - step` characters. */
  lemma {:induction false} WindowsContiguous(text: string, size: nat, step: nat, start: nat, idx: nat)
    requires 0 < step <= size && start < |text|
    requires EveryWindowKept(text, size, step, start)
    ensures Contiguous(Windows(text, size, step, start, idx), size, step, start, |text|)
    decreases |text| - start
  {
    if WindowEnd(|text|, size, start) < |text| {
      WindowsContiguous(text, size, step, start + step, idx + 1);
      ContiguousStep(text, size, step, start, idx);
    } else {
      KeptWhenNonBlank(text, size, start, idx);
    }
  }

  /** A kept window before contiguous later windows keeps them contiguous. */
  lemma ContiguousStep(text: string, size: nat, step: nat, start: nat, idx: nat)
    requires 0 < step <= size && start < |text| && WindowEnd(|text|, size, start) < |text|
    requires NonBlank(text[start..WindowEnd(|text|, size, start)])
    requires Contiguous(Windows(text, size, step, start + step, idx + 1), size, step, start + step, |text|)
    ensures Contiguous(Windows(text, size, step, start, idx), size, step, start, |text|)
  {
    var e := WindowEnd(|text|, size, start);
    var p := Piece(text[start..e], start, e, idx);
    KeptWhenNonBlank(text, size, start, idx);
    assert Windows(text, size, step, start, idx) == [p] + Windows(text, size, step, start + step, idx + 1);
    ConsContiguous(p, Windows(text, size, step, start + step, idx + 1), size, step, |text|);
  }

  /** The splitter's promise: when no window is whitespace only, the
      chunks cover the text from 0 to its end, each starting
      `chunk_size - overlap` after the previous one and sharing `overlap`
      characters with it. */
  lemma SplitOverlap(text: string, cfg: SplitConfig)
    requires Split(text, cfg).Ok? && text != []
    requires EveryWindowKept(text, cfg.chunkSize, cfg.chunkSize - cfg.overlap, 0)
    ensures var ps := Split(text, cfg).value;
      && ps != [] && ps[0].startChar == 0 && ps[|ps| - 1].endChar == |text|
      && (forall j :: 0 <= j < |ps| - 1 ==> ps[j + 1].startChar == ps[j].startChar + (cfg.chunkSize - cfg.overlap))
      && (forall j :: 0 <= j < |ps| - 1 ==> ps[j].endChar - ps[j + 1].startChar == cfg.overlap)
  {
    WindowsContiguous(text, cfg.chunkSize, cfg.chunkSize - cfg.overlap, 0, 0);
  }

  /** In particular the overlap holds for every text without whitespace. */
  lemma SplitOverlapWithoutWhitespace(text: string, cfg: SplitConfig)
    requires Split(text, cfg).Ok? && text != []
    requires forall i :: 0 <= i < |text| ==> !IsSpace(text[i])
    ensures var ps := Split(text, cfg).value;
      && ps != [] && ps[0].startChar == 0 && ps[|ps| - 1].endChar == |text|
      && (forall j :: 0 <= j < |ps| - 1 ==> ps[j + 1].startChar == ps[j].startChar + (cfg.chunkSize - cfg.overlap))
      && (forall j :: 0 <= j < |ps| - 1 ==> ps[j].endChar - ps[j + 1].startChar == cfg.overlap)
  {
    EveryWindowKeptWithoutWhitespace(text, cfg.chunkSize, cfg.chunkSize - cfg.overlap, 0);
    SplitOverlap(text, cfg);
  }

  /** A 2000-character text without whitespace, split 800/150, gives the
      windows [0, 800), [650, 1450) and [1300, 2000). */
  lemma SplitScenario(text: string)
    requires |text| == 2000 && forall i :: 0 <= i < |text| ==> !IsSpace(text[i])
    ensures var r := Split(text, DefaultSplit);
      && r.Ok? && |r.value| == 3
      && r.value[0].startChar == 0 && r.value[0].endChar == 800
      && r.value[1].startChar == 650 && r.value[1].endChar == 1450
      && r.value[2].startChar == 1300 && r.value[2].endChar == 2000
  {
    KeptWithoutWhitespace(text, 800, 0, 0);
    KeptWithoutWhitespace(text, 800, 650, 1);
    KeptWithoutWhitespace(text, 800, 1300, 2);
    var w2 := Windows(text, 800, 650, 1300, 2);
    assert w2 == [Piece(text[1300..2000], 1300, 2000, 2)];
    var w1 := Windows(text, 800, 650, 650, 1);
    assert w1 == [Piece(text[650..1450], 650, 1450, 1)] + w2;
    assert Windows(text, 800, 650, 0, 0) == [Piece(text[0..800], 0, 800, 0)] + w1;
  }

  /** `f"{doc_id}#c{chunk_index:04d}"`. */
  function ChunkId(docId: string, chunkIndex: nat): string {
    docId + "#c" + Pad4(chunkIndex)
  }

  /** The last `#` of a chunk id is the one after the document id: the
      zero-padded index holds only digits. */
  lemma ChunkIdLastHash(docId: string, chunkIndex: nat)
    ensures LastIndexOfHash(ChunkId(docId, chunkIndex)) == |docId|
  {
    var s := ChunkId(docId, chunkIndex);
    var p := Pad4(chunkIndex);
    assert s[|docId|] == '#';
    forall i | |docId| < i < |s| ensures s[i] != '#' {
      if i > |docId| + 1 {
        assert s[i] == p[i - |docId| - 2];
        assert IsDigitChar(p[i - |docId| - 2]);
      }
    }
  }

  function LastIndexOfHash(s: string): (r: int)
    ensures -1 <= r < |s|
    ensures r >= 0 ==> s[r] == '#'
    ensures forall i :: r < i < |s| ==> s[i] != '#'
  {
    Ingest.LastIndexOf(s, '#')
  }

  /** A chunk id determines both its document id and its chunk index, so
      ids are unique within a document and across documents with
      distinct ids. */
  lemma ChunkIdInjective(a: string, i: nat, b: string, j: nat)
    requires ChunkId(a, i) == ChunkId(b, j)
    ensures a == b && i == j
  {
    var s := ChunkId(a, i);
    ChunkIdLastHash(a, i);
    ChunkIdLastHash(b, j);
    assert a == s[..|a|] == b;
    assert Pad4(i) == s[|a| + 2..] == Pad4(j);
    Pad4Injective(i, j);
  }

  function ChunkRecordOf(doc: Ingest.DocRecord, p: Piece, createdAt: string): ChunkRecord {
    ChunkRecord(
      ChunkId(doc.id, p.chunkIndex),
      doc.id,
      doc.moduleName,
      p.text,
      p.startChar,
      p.endChar,
      p.chunkIndex,
      createdAt,
      ChunkMeta(Some(doc.source.path), None))
  }

  function ChunkRecordsOf(doc: Ingest.DocRecord, ps: seq<Piece>, createdAt: string): (rs: seq<ChunkRecord>)
    ensures |rs| == |ps|
  {
    seq(|ps|, j requires 0 <= j < |ps| => ChunkRecordOf(doc, ps[j], createdAt))
  }

  /** What `chunk_doc_record` returns or raises for a document. */
  function DocChunks(doc: Ingest.DocRecord, cfg: SplitConfig, createdAt: string): Result<seq<ChunkRecord>, SplitError> {
    match Split(doc.text, cfg)
    case Err(e) => Err(e)
    case Ok(ps) => Ok(ChunkRecordsOf(doc, ps, createdAt))
  }

  /** `chunk_doc_record`; `createdAt` is the one clock reading it takes. */
  method ChunkDocRecord(doc: Ingest.DocRecord, cfg: SplitConfig, createdAt: string)
    returns (r: Result<seq<ChunkRecord>, SplitError>)
    ensures r == DocChunks(doc, cfg, createdAt)
  {
    var docId := doc.id;
    var moduleName := doc.moduleName;
    var sourcePath := doc.source.path;
    var baseChunks := SplitTextWithOffsets(doc.text, cfg);
    if baseChunks.Err? {
      return Err(baseChunks.error);
    }
    var ps := baseChunks.value;
    var out: seq<ChunkRecord> := [];
    var i := 0;
    while i < |ps|
      invariant 0 <= i <= |ps|
      invariant out == ChunkRecordsOf(doc, ps[..i], createdAt)
    {
      var c := ps[i];
      var chunkId := docId + "#c" + Pad4(c.chunkIndex);
      ChunkRecordsStep(doc, ps, i, createdAt);
      out := out + [ChunkRecord(chunkId, docId, moduleName, c.text, c.startChar, c.endChar,
                                c.chunkIndex, createdAt, ChunkMeta(Some(sourcePath), None))];
      i := i + 1;
    }
    assert ps[..|ps|] == ps;
    return Ok(out);
  }

  /** One more piece adds its record after the others. */
  lemma ChunkRecordsStep(doc: Ingest.DocRecord, ps: seq<Piece>, i: nat, createdAt: string)
    requires i < |ps|
    ensures ChunkRecordsOf(doc, ps[..i + 1], createdAt)
      == ChunkRecordsOf(doc, ps[..i], createdAt) + [ChunkRecordOf(doc, ps[i], createdAt)]
  {
  }

  /** One record per split chunk, in order: each copies the document's id,
      module and source path, keeps the chunk's text, offsets and index,
      carries the shared timestamp, and has a chunk id unique within the
      document. */
  lemma DocChunksShape(doc: Ingest.DocRecord, cfg: SplitConfig, createdAt: string)
    requires DocChunks(doc, cfg, createdAt).Ok?
    ensures var rs := DocChunks(doc, cfg, createdAt).value;
      var ps := Split(doc.text, cfg).value;
      && |rs| == |ps|
      && (forall j :: 0 <= j < |rs| ==>
            && rs[j].docId == doc.id && rs[j].moduleName == doc.moduleName
            && rs[j].meta.sourcePath == Some(doc.source.path) && rs[j].createdAt == createdAt
            && rs[j].text == ps[j].text && rs[j].startChar == ps[j].startChar
            && rs[j].endChar == ps[j].endChar && rs[j].chunkIndex == j
            && rs[j].startChar < rs[j].endChar <= |doc.text|
            && rs[j].text == doc.text[rs[j].startChar..rs[j].endChar])
      && (forall a, b :: 0 <= a < b < |rs| ==> rs[a].chunkId != rs[b].chunkId)
  {
    SplitPiecesWellFormed(doc.text, cfg);
    var rs := DocChunks(doc, cfg, createdAt).value;
    forall a, b | 0 <= a < b < |rs| ensures rs[a].chunkId != rs[b].chunkId {
      if rs[a].chunkId == rs[b].chunkId {
        ChunkIdInjective(doc.id, a, doc.id, b);
      }
    }
  }

  /** The JSON object written to chunks.jsonl for a record. */
  function ChunkMetaJson(m: ChunkMeta): Json {
    JObj(map["source_path" := StrOrNull(m.sourcePath), "heading" := StrOrNull(m.heading)])
  }

  function ChunkJson(c: ChunkRecord): Object {
    map[
      "chunk_id" := JStr(c.chunkId),
      "doc_id" := JStr(c.docId),
      "module" := JStr(c.moduleName),
      "text" := JStr(c.text),
      "start_char" := JInt(c.startChar),
      "end_char" := JInt(c.endChar),
      "chunk_index" := JInt(c.chunkIndex),
      "created_at" := JStr(c.createdAt),
      "meta" := ChunkMetaJson(c.meta)]
  }

  /** The lines of chunks.jsonl for a list of records, in order. */
  function ChunksJson(rs: seq<ChunkRecord>): (js: seq<Object>)
    ensures |js| == |rs| && forall j :: 0 <= j < |rs| ==> js[j] == ChunkJson(rs[j])
  {
    seq(|rs|, j requires 0 <= j < |rs| => ChunkJson(rs[j]))
  }

  /** Each chunk record of a document holds a non-blank text whose length
      is the width of its offsets. */
  lemma DocChunkFits(doc: Ingest.DocRecord, cfg: SplitConfig, createdAt: string, j: nat)
    requires DocChunks(doc, cfg, createdAt).Ok? && j < |DocChunks(doc, cfg, createdAt).value|
    ensures var r := DocChunks(doc, cfg, createdAt).value[j];
      r.endChar - r.startChar == |r.text| && NonBlank(r.text)
  {
    DocChunksShape(doc, cfg, createdAt);
    SplitPiecesWellFormed(doc.text, cfg);
    var ps := Split(doc.text, cfg).value;
    assert PieceOk(doc.text, cfg.chunkSize, ps[j]);
  }
}

