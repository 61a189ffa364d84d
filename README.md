# Enterprise knowledge assistant: a Dafny model

This project models the core of a retrieval-augmented question-answering
service over the Python standard library documentation.

Building the corpus runs through these stages:

- **Ingest.** Raw `.rst` files become document records (`docs.jsonl`).
- **Chunking.** Each document is cut into overlapping character windows (`chunks.jsonl`).
- **Index build.** The index build writes one vector per chunk together with a metadata table aligned by vector row (`meta.jsonl`).
- **Validation.** Four validators check the three files and the evaluation questions.

Answering a query runs through these stages:

- **Retriever.** It embeds the query, searches the vector index and joins every hit with its metadata row.
- **Confidence gate.** It turns the hit scores into a decision: `answer`, `clarify` or `refuse`.
- **Generator.** For a refusal or a clarification it returns a fixed message and never calls the language model. For an answer it builds a prompt from the endorsed chunks and asks the model.
- **Pipeline.** It assembles the response with sources, scores and latencies, and appends one entry to the query log.

An evaluation runner puts every question of the evaluation set through the pipeline. It records one row per question, scores each answer's lexical groundedness and aggregates the rows into a report. A separate metrics module computes the summary metrics over such rows.

The model has one Dafny module per core source file. Four shared modules sit beside them:

- `Util`: option and result types, counting and sums.
- `PyStr`: Python's `strip`, `str.join`, substring search and zero padding on `seq<char>`.
- `Json`: JSON values with Python's dictionary-key and numeric equality.
- `PyInt`: which strings Python's `int(s, 16)` accepts. It covers the rewrite of Unicode whitespace and decimal digits, the ASCII-only whitespace skipping, the sign, the `0x` prefix and underscores.

The model takes each source file's own form:

- Code that changes state is an imperative Dafny `method` with loop invariants:
  - the retriever's hit loop;
  - the splitter's window loop;
  - the validators' record loops;
  - the query logger;
  - the evaluation loop;
  - the prompt builder's block loop (`Prompt.BuildPrompt`);
  - the pipeline's source loop (`Pipeline.CollectSources`);
  - the chunk-record loop (`Chunking.ChunkDocRecord`);
  - the raw-document loader (`Ingest.LoadRawDocs`);
  - the metadata store's construction (`Retrieval.FaissMetaStore` constructor);
  - the index validator (`ValidateIndex.ValidateIndex`).

  Each such method is proved equal to a specification function, and the properties are proved about that function. The query logger's `Log` states its new state directly: the old entries followed by the new one.
- Objects that hold state are classes: the metadata store, the retriever, the pipeline and the logger.
- The gate, the prompt's template (`Prompt.PromptOf`, which `BuildPrompt` is proved equal to), the generator's branching and the metrics are functions.

Some parts of the outside world are parameters of the model, as functions or values. They are:

- the embedding model;
- the vector search;
- the language model;
- SHA-256;
- the clock;
- fresh request ids;
- the regular-expression tokenizer;
- whether a file exists.

## Model

| member | source | states |
|---|---|---|
| `Confidence.NewGate` | src/rag/confidence.py:40-56 | A gate is built exactly when `threshold_low < threshold_high`, keeping the four settings; otherwise the construction fails with the threshold error. |
| `Confidence.SortDescFacts` | src/rag/confidence.py:71 | The descending sort by score yields a sorted permutation of the hits, and it is stable: hits of equal score keep their input order. |
| `Confidence.SortDescSorted` | src/rag/confidence.py:71 | The sort by score yields hits in non-increasing score order. |
| `Confidence.SortDescPermutes` | src/rag/confidence.py:71 | The sort by score returns the same hits, each as many times as in the input, so the length is also unchanged. |
| `Confidence.SortDescStable` | src/rag/confidence.py:71 | For each score, the hits carrying it appear in their input order: the sort is stable. |
| `Confidence.CapLen` | src/rag/confidence.py:71 | The length of the slice `[:max_chunks]` never exceeds the list length and equals `min(max_chunks, n)` for a non-negative cap; negative caps count from the end. |
| `Confidence.Capped` | src/rag/confidence.py:71 | The capped list has the slice length. |
| `Confidence.Decide` | src/rag/confidence.py:58-156 | No hits gives a refusal with all scores 0. Confidence is the top score, and the margin is top minus second. The top and second scores are those of the sorted capped list, with the second 0 when it is missing. Evidence is empty exactly for a refusal. Every non-refusal carries the whole capped list. With hits, the gate refuses exactly when the top score is below the low threshold. |
| `Confidence.CappedIsBestPrefix` | src/rag/confidence.py:70-71 | The evidence considered is sorted by descending score, is a sub-multiset of the hits and has at most `max_chunks` elements. |
| `Confidence.TopIsMaximum` | src/rag/confidence.py:71-76 | The reported top score is the largest hit score and is the score of some hit. |
| `Confidence.SecondIsRunnerUp` | src/rag/confidence.py:73-77 | With at least two capped hits, at most one hit scores above the second score and at least two score at or above it. |
| `Confidence.SupportCountOfHits` | src/rag/confidence.py:98-99 | The support count is the number of hits at or above the high threshold, capped at the evidence length. |
| `Confidence.DecisionRules` | src/rag/confidence.py:80-156 | Gives the three decisions as if-and-only-if conditions on top score, second score, topic sameness, support count and margin. |
| `Confidence.LowThresholdIsNotRefused` | src/rag/confidence.py:81 | A top score equal to the low threshold is not refused, because the comparison is strict. |
| `Confidence.CompetingClarifyIsBelowHigh` | src/rag/confidence.py:101-131 | A clarification with a strong top score comes only from at least two hits on different topics whose runner-up is below the high threshold and whose margin is below `margin_min`. |
| `Confidence.DefaultGateScenarios` | src/rag/confidence.py:47-156 | Under the default settings (0.40, 0.25, 0.03, 5): top below 0.25 refuses; 0.25 to 0.40 clarifies; at least 0.40 with the same topic answers. |
| `Retrieval.RowAt` | src/retrieval/retriever.py:43-44 | List indexing as Python does it: defined for `-len <= i < len`, and it returns the row itself for a non-negative index. |
| `Retrieval.FaissMetaStore.constructor` | src/retrieval/retriever.py:35-38 | The store holds the metadata lines in file order. |
| `Retrieval.FaissMetaStore.Len` | src/retrieval/retriever.py:40-41 | The length is the number of rows held. |
| `Retrieval.FaissMetaStore.Get` | src/retrieval/retriever.py:43-44 | Looking up a vector id returns the row Python indexing gives, and nothing where Python raises. |
| `Retrieval.EffectiveK` | src/retrieval/retriever.py:82 | `int(top_k or self.top_k)`: a requested k other than 0 wins; none or 0 falls back to the configured k. |
| `Retrieval.JoinHits` | src/retrieval/retriever.py:98-119 | A successful join has one result per non-negative hit id. |
| `Retrieval.Retriever.constructor` | src/retrieval/retriever.py:47-79 | The retriever keeps the index, metadata store, embedder and configured k it is given. |
| `Retrieval.Retriever.Load` | src/retrieval/retriever.py:48-79 | A missing index or metadata file fails, checked in that order. A vector count that differs from the metadata row count fails with both numbers. Loading succeeds in every other case, and the new retriever is then aligned. |
| `Retrieval.Retriever.Retrieve` | src/retrieval/retriever.py:81-119 | The hit loop returns exactly the value of the retrieval specification `RetrieveSpec`. |
| `Retrieval.RetrieveIsDeterministic` | src/retrieval/retriever.py:81-119 | Two retrievals of the same query on the same retriever give the same result; the evaluation runner's re-run relies on this. |
| `Retrieval.NonPositiveKIsEmpty` | src/retrieval/retriever.py:82-84 | A non-positive effective k returns no hits, without embedding or searching. |
| `Retrieval.DimensionChecked` | src/retrieval/retriever.py:86-90 | A query vector whose width differs from the index dimension fails with both dimensions. |
| `Retrieval.RealHits` | src/retrieval/retriever.py:99-101 | Skipping the `-1` placeholders leaves at most as many hits, all with non-negative ids. |
| `Retrieval.JoinHitsCharacterised` | src/retrieval/retriever.py:99-117 | The join succeeds exactly when every hit id is below the number of metadata rows. Each result is then the metadata row of the matching real hit, carrying that hit's score. |
| `Retrieval.JoinHitsLowerBound` | src/retrieval/retriever.py:99-117 | Joining keeps every score at or above any lower bound of the search scores. |
| `Retrieval.JoinHitsKeepsOrder` | src/retrieval/retriever.py:94-117 | Search results in descending score order stay in that order after the join, with no more results than hits. |
| `Retrieval.AlignedVectorIds` | src/retrieval/retriever.py:103-115 | With metadata rows numbered by position, each result's vector id is the id the search returned. |
| `Retrieval.RetrieveWithinIndex` | src/retrieval/retriever.py:94-119 | Suppose the index and metadata agree in size and the search returns at most k ids within the index. Then retrieval succeeds with at most k chunks. |
| `Ingest.ModuleOfRstFile` | src/ingest/load_raw.py:18-19 | The module name is the file stem: `dir/base.rst` gives `base`. |
| `Ingest.OsPathModule` | src/ingest/load_raw.py:19 | `os.path.rst` gives the module name `os.path`. |
| `Ingest.KeptFiles` | src/ingest/load_raw.py:44-47 | No more files are kept than were found. |
| `Ingest.LoadRawDocs` | src/ingest/load_raw.py:22-69 | A missing raw directory fails; otherwise the loop returns one record per kept file, in file order. |
| `Ingest.KeptIsOrderedSubsequence` | src/ingest/load_raw.py:44-47 | The kept files are exactly the non-blank ones, or all files when empty ones are included, in their original order. |
| `Ingest.LoadedDocsShape` | src/ingest/load_raw.py:44-67 | Every record comes from some file. Its id is `prefix:relpath`, and its text is the file text. Its module is the stem, its source type is `rst`, and its timestamp is the load's one timestamp. It has the repository-relative path when that option is on, and non-blank text unless empty files are included. |
| `Ingest.DocIdInjective` | src/ingest/load_raw.py:50 | Document ids with the same prefix are equal only for equal relative paths. |
| `Ingest.LoadedDocIdsDistinct` | src/ingest/load_raw.py:44-67 | Distinct relative paths give distinct document ids. |
| `Chunking.WindowEnd` | src/chunking/splitter.py:40 | A window ends after its start, at most `chunk_size` later and no later than the text end. It ends at the text end exactly when the full window would reach it. |
| `Chunking.KeptIffNonBlank` | src/chunking/splitter.py:41-53 | A window yields a piece exactly when its text is not blank. |
| `Chunking.KeptPiecesFrom` | src/chunking/splitter.py:41-53 | The piece a window yields is a well-formed slice starting at the window start and numbered with the running index. |
| `Chunking.Split` | src/chunking/splitter.py:18-60 | The configuration is rejected with the source's three errors, checked in the source's order. Empty text gives no pieces. |
| `Chunking.SplitTextWithOffsets` | src/chunking/splitter.py:18-60 | The splitting method returns exactly the value of `Split`. |
| `Chunking.SlideWindows` | src/chunking/splitter.py:34-60 | The window loop computes exactly the specified window sequence. |
| `Chunking.AppendWindow` | src/chunking/splitter.py:40-53 | One loop step appends the current window exactly when it is not blank, numbered with the count of chunks kept so far. |
| `Chunking.WindowsWellFormed` | src/chunking/splitter.py:39-58 | Every piece is a non-blank slice of the text with its offsets and at most `chunk_size` long. Pieces are numbered consecutively, and their starts strictly increase. |
| `Chunking.KeptThenPieces` | src/chunking/splitter.py:39-58 | A kept window followed by the later windows stays well formed: numbering stays consecutive and starts keep increasing. |
| `Chunking.SplitPiecesWellFormed` | src/chunking/splitter.py:18-60 | Every piece the splitter returns is a non-blank slice with its offsets, numbered from 0 with strictly increasing starts. |
| `Chunking.DocChunkFits` | src/chunking/splitter.py:39-53 | Every chunk record of a document spans exactly its text length and its text is not blank. |
| `Chunking.KeptWithoutWhitespace` | src/chunking/splitter.py:43-53 | In text without whitespace every window is kept. |
| `Chunking.KeptWhenNonBlank` | src/chunking/splitter.py:40-53 | A window that is not whitespace only is kept as the slice `[start, end)` with its offsets and number. |
| `Chunking.EveryWindowKeptWithoutWhitespace` | src/chunking/splitter.py:39-58 | In text without whitespace no window is skipped. |
| `Chunking.WindowsContiguous` | src/chunking/splitter.py:39-58 | When no window from the first on is whitespace only, the windows start at the first start, end at the text end, advance by `step` and overlap by `chunk_size - step`. |
| `Chunking.ContiguousStep` | src/chunking/splitter.py:39-58 | A kept window in front of contiguous later windows starts `step` before them and overlaps the next by `chunk_size - step`. |
| `Chunking.SplitOverlap` | tests/test_splitter.py:19-21 | When no window is whitespace only, the pieces cover the text from 0 to its end, consecutive pieces start `chunk_size - overlap` apart, and each overlaps the next by exactly `overlap` characters. |
| `Chunking.SplitOverlapWithoutWhitespace` | tests/test_splitter.py:4-21 | In particular, for non-empty text without whitespace the pieces cover the text, start `chunk_size - overlap` apart and overlap by exactly `overlap` characters. |
| `Chunking.SplitScenario` | src/chunking/splitter.py:13-60 | With the defaults 800/150, a 2000-character text without whitespace splits into [0,800), [650,1450) and [1300,2000). |
| `Chunking.ChunkIdLastHash` | src/chunking/splitter.py:79 | The last `#` of a chunk id follows the document id. |
| `Chunking.ChunkIdInjective` | src/chunking/splitter.py:79 | Equal chunk ids come from the same document id and chunk index. |
| `Chunking.ChunkDocRecord` | src/chunking/splitter.py:63-98 | The loop returns exactly the specified chunk records of the document. |
| `Chunking.ChunkRecordsStep` | src/chunking/splitter.py:78-96 | One more piece appends its record after the records of the earlier pieces. |
| `Chunking.DocChunksShape` | src/chunking/splitter.py:63-98 | Each record carries the document's id, module, source path and the one timestamp, plus the piece's text and offsets. Its text is the document slice at those offsets. Records are numbered from 0, and chunk ids are distinct. |
| `IndexBuild.MetaRecordsAligned` | scripts/build_index.py:43-55 | Metadata row `i` has vector id `i` and carries chunk `i`'s fields. |
| `IndexBuild.Build` | scripts/build_index.py:22-58 | The index has one vector per chunk, the embedding of that chunk's text, in chunk order. The index dimension is the embeddings' column count, and every stored vector has that width. The metadata table has the same length, and the written count equals it. |
| `ValidateIndex.ValidateIndex` | scripts/validate_index.py:10-44 | Validation succeeds exactly on valid artifacts and then reports the three counts. Each missing file fails in the source's order. A bad vector id is reported at the first row out of sequence. With sequential ids, the count and dimension checks fail in the source's order. |
| `ValidateIndex.BuiltIndexValidates` | scripts/validate_index.py:32-42 | What the index build writes passes validation when the embeddings have a positive column count. |
| `ValidateIndex.MetaJsonVectorId` | scripts/build_index.py:45-46 | Every written metadata row has the integer `vector_id` of its record. |
| `ValidateChunks.RecordFailure` | scripts/validate_chunks.py:26-37 | A chunk passes exactly when the following all hold: it has the required keys; its id is new; its text length equals `end_char - start_char`; its text is not blank. |
| `ValidateChunks.ExtendValid` | scripts/validate_chunks.py:23-37 | A valid prefix stays valid after one more record exactly when that record passes against the ids seen so far. |
| `ValidateChunks.ValidateChunks` | scripts/validate_chunks.py:16-39 | A missing file fails. Success, reporting the record count, holds exactly when every record passes. A failure names the first failing record and why it fails. |
| `ValidateChunks.SplitterOutputPasses` | scripts/validate_chunks.py:23-37 | The records the splitter writes for a document pass the chunk validator. |
| `ValidateChunks.ChunkJsonPasses` | scripts/validate_chunks.py:26-37 | A chunk record whose offsets match its non-blank text passes, keyed by its chunk id. |
| `ValidateEval.QuestionFailure` | scripts/validate_eval.py:13-17 | A question passes exactly when it has `id`, `query` and `expected_type`, its type is `answer` or `refuse`, and its id is new. |
| `ValidateEval.ExtendValid` | scripts/validate_eval.py:11-17 | A valid prefix stays valid after one more question exactly when that question passes. |
| `ValidateEval.ValidateEval` | scripts/validate_eval.py:6-18 | Success, reporting the question count, holds exactly when every question passes. A failure names the first failing question and why it fails. |
| `ValidateEval.ClarifyIsRejected` | scripts/validate_eval.py:15 | An expected type of `clarify` is rejected. |
| `ValidateDocs.IsHexSha256` | scripts/validate_docs.py:14-21 | Only a string of length 64 can be accepted as a digest. |
| `ValidateDocs.HexDigestAccepted` | scripts/validate_docs.py:14-21 | Every 64-character hexadecimal string is accepted. |
| `ValidateDocs.SignedStringAccepted` | scripts/validate_docs.py:17-19 | Because `int(s, 16)` accepts a sign, a minus sign followed by 63 hex digits is accepted although its first character is not a hex digit. |
| `ValidateDocs.UnicodeDigestAccepted` | scripts/validate_docs.py:14-21 | Because `int(s, 16)` reads any Unicode decimal digit, 64 ARABIC-INDIC DIGIT ZERO characters are accepted as a digest although none is a hex digit. |
| `ValidateDocs.SeparatorDigestRejected` | scripts/validate_docs.py:14-21 | `int(s, 16)` skips only ASCII whitespace around a number, so a leading U+001C before 63 hex digits is rejected although `str.strip` would remove it. |
| `PyInt.AsciiTextUnchanged` | scripts/validate_docs.py:17-18 | For ASCII text with no surrounding whitespace, `int(s, 16)` accepts exactly the hex literals: an optional sign, an optional `0x` prefix, hex digits with single underscores. |
| `PyInt.HexDigitsAccepted` | scripts/validate_docs.py:17-19 | `int(s, 16)` accepts any non-empty run of hex digits. |
| `PyInt.SignedDigitsAccepted` | scripts/validate_docs.py:17-19 | `int(s, 16)` accepts a minus sign followed by hex digits. |
| `PyInt.NotHexLiteral` | scripts/validate_docs.py:17-21 | After `int()` has rewritten the text and skipped ASCII whitespace, text that starts with neither a sign nor a hex digit is no literal. |
| `PyInt.ArabicIndicZerosAccepted` | scripts/validate_docs.py:17-19 | `int(s, 16)` rewrites each ARABIC-INDIC DIGIT ZERO to `0` and accepts a string of them. |
| `PyInt.SeparatorRejected` | scripts/validate_docs.py:17-21 | `int(s, 16)` keeps a leading U+001C, which is not ASCII whitespace, and raises ValueError. |
| `PyInt.SeparatorStripped` | scripts/validate_docs.py:17-21 | `str.strip`, unlike `int()`, removes a leading U+001C and leaves the hex digits after it bare. |
| `ValidateDocs.TopKeysMissing` | scripts/validate_docs.py:28-29 | The set of missing top-level keys is empty exactly when all six are present. |
| `ValidateDocs.SourceKeysMissing` | scripts/validate_docs.py:43-44 | The set of missing source keys is empty exactly when `path` and `type` are present. |
| `ValidateDocs.SourceErrors` | scripts/validate_docs.py:39-50 | The source block yields no error exactly when it is valid, and every error it yields is a source error of this line. |
| `ValidateDocs.ValidateRecord` | scripts/validate_docs.py:24-61 | The record check returns exactly the specified error list. |
| `ValidateDocs.AddIfFailed` | scripts/validate_docs.py:33-59 | A field check appends its message to the error list exactly when it fails, and keeps the earlier messages. |
| `ValidateDocs.ValidateSource` | scripts/validate_docs.py:39-50 | The source-block check returns exactly the specified source errors. |
| `ValidateDocs.ComposeFacts` | scripts/validate_docs.py:33-59 | The collected errors are empty exactly when every field check passes. Each field error appears exactly when its check fails, every source error is kept, and all errors carry the record's line. |
| `ValidateDocs.ComposeFlagFacts` | scripts/validate_docs.py:33-59 | No error is reported exactly when every field check passes, and each field message appears exactly when its own check fails. |
| `ValidateDocs.ComposeSourceFacts` | scripts/validate_docs.py:39-50 | Every source error is kept, no other source error appears, and every message carries the record line with no missing-keys or duplicate-id message. |
| `ValidateDocs.RecordErrorsEmptyIff` | scripts/validate_docs.py:24-61 | A record has no error exactly when it is a valid document record. |
| `ValidateDocs.MissingKeyStops` | scripts/validate_docs.py:28-31 | Missing top-level keys yield exactly one error, naming them, and nothing else is checked. |
| `ValidateDocs.RecordErrorsCharacterised` | scripts/validate_docs.py:33-59 | With all keys present, each of the eight field errors appears exactly when its own condition fails. |
| `ValidateDocs.SourceErrorsCharacterised` | scripts/validate_docs.py:39-50 | The source errors: not an object; type not `rst` once both keys are present; path blank or not a string once both keys are present. |
| `ValidateDocs.CheckOf` | scripts/validate_docs.py:89-113 | A record is accepted exactly when valid, carrying its id, module, path and length. Otherwise it is rejected with its non-empty error list. |
| `ValidateDocs.ValidateDocs` | scripts/validate_docs.py:64-143 | The record loop returns exactly the specified exit code and final statistics. |
| `ValidateDocs.ScanRecord` | scripts/validate_docs.py:87-113 | One loop iteration updates the statistics exactly as specified. |
| `ValidateDocs.CheckRecord` | scripts/validate_docs.py:89-93 | Checking one record gives exactly its specified outcome. |
| `ValidateDocs.ScanSeen` | scripts/validate_docs.py:95-100 | The seen ids are the ids of the accepted records, and every record is counted. |
| `ValidateDocs.ScanClean` | scripts/validate_docs.py:83-122 | No error is collected exactly when every record is accepted and the accepted ids are pairwise distinct. |
| `ValidateDocs.ScanDuplicates` | scripts/validate_docs.py:95-100 | A duplicate-id error names line `n` exactly when record `n` is accepted and an earlier accepted record has the same id. |
| `ValidateDocs.ScanLargest` | scripts/validate_docs.py:77-113 | The largest document is unset exactly when nothing is accepted. Otherwise it is the first accepted record of maximal length. |
| `ValidateDocs.ExitCodes` | scripts/validate_docs.py:64-143 | The exit code is 2 exactly for a missing file. It is 0 exactly when all records are accepted with distinct ids, and 1 otherwise. |
| `ValidateDocs.IngestOutputPasses` | scripts/validate_docs.py:24-61 | Suppose the digest is 64 hex characters, the paths are distinct, the module names are non-blank and the creation timestamp is non-blank. Then the ingest output with default options validates with exit code 0. |
| `ValidateDocs.LoadedDocChecked` | scripts/validate_docs.py:24-61 | Under the same assumptions, each ingested document's record is accepted with its id, module, path and text length. |
| `ValidateDocs.DocJsonPasses` | scripts/validate_docs.py:24-61 | A document record with non-blank fields, type `rst` and a hexadecimal digest is accepted. |
| `Prompt.BuildPrompt` | src/rag/prompt.py:5-26 | The prompt builder returns exactly the specified prompt text. |
| `Prompt.PromptLayout` | src/rag/prompt.py:10-24 | The prompt is the instructions, then the numbered blocks joined by blank lines, the question header and the query, then the closing line. |
| `Prompt.PromptStartsAndEnds` | src/rag/prompt.py:12-24 | After stripping, the prompt starts with the instruction sentence and ends with the closing sentence. |
| `Prompt.PromptContainsQuery` | src/rag/prompt.py:12-24 | The query occurs in the prompt. |
| `Prompt.PromptContainsBlock` | src/rag/prompt.py:6-24 | Block `[k+1] text_k` occurs in the prompt for every chunk `k`. |
| `Prompt.PromptContainsChunk` | src/rag/prompt.py:6-24 | Every chunk's text occurs in the prompt. |
| `Prompt.ContextContainsBlock` | src/rag/prompt.py:6-10 | Every numbered block occurs in the joined context. |
| `Prompt.BlockContainsText` | src/rag/prompt.py:8 | A numbered block contains its chunk's text. |
| `Prompt.ContextJoinsInOrder` | src/rag/prompt.py:6-10 | Adding a chunk appends a blank line and its block, numbered one past the others, to the context. |
| `Generation.NewGenerator` | src/rag/generator.py:16-23 | A generator is built exactly when the API key is set and non-empty, with model `gpt-4o-mini`; otherwise the key error is raised. |
| `Generation.SourcesOf` | src/rag/generator.py:76-83 | The generator's sources are the chunk id, module and score of each endorsed chunk, in order. |
| `Generation.CallLlm` | src/rag/generator.py:25-46 | The model's reply is returned stripped: empty, or with no whitespace at either end. |
| `Generation.Generate` | src/rag/generator.py:51-84 | Type and confidence come from the gate. A refusal or a clarification gives its fixed message and no sources. An answer gives the stripped reply to the prompt built from the endorsed chunks, with one source per chunk. |
| `Generation.FixedMessagesIgnoreModel` | src/rag/generator.py:53-65 | For a refusal or a clarification, the output does not depend on the language model at all. |
| `Generation.AnswerUsesPromptOnly` | src/rag/generator.py:67-70 | An answer depends on the language model only through its reply to the prompt, and that prompt contains the query and every endorsed chunk's text. |
| `Generation.AnswerHasSources` | src/rag/generator.py:67-84 | When the gate answers, the output lists one source per capped hit, and there is at least one. |
| `Pipeline.RequestIdOf` | src/utils/query_logger.py:16 | A given non-empty request id is kept; otherwise a fresh one is used. |
| `Pipeline.QueryLogger.constructor` | src/utils/query_logger.py:11-13 | A new logger has an empty log. |
| `Pipeline.QueryLogger.Log` | src/utils/query_logger.py:15-27 | Logging appends exactly one entry, with the request id, timestamp and record, and returns that request id. |
| `Pipeline.CollectSources` | src/rag/pipeline.py:51-62 | The source-building loop yields exactly one item per endorsed chunk, in order, with its id, module, path and score. |
| `Pipeline.SourceItems` | src/rag/pipeline.py:51-62 | One source item per endorsed chunk, in order. |
| `Pipeline.Assemble` | src/rag/pipeline.py:35-80 | The response takes type, answer and confidence from the generator, and its sources from the gate's endorsed chunks. Its metadata holds the gate's top score, the number of hits and the three latencies. |
| `Pipeline.Respond` | src/rag/pipeline.py:35-94 | The response carries a request id exactly when logging is enabled; that id is the given one or a fresh one. Nothing else in the response changes. |
| `Pipeline.RAGPipeline.constructor` | src/rag/pipeline.py:16-29 | The pipeline keeps its components. Logging is enabled unless the configuration turns it off. |
| `Pipeline.RAGPipeline.Run` | src/rag/pipeline.py:35-94 | The response is the specified function of the retrieval result. Exactly one log entry is appended when the run succeeds with logging on, and the log is unchanged otherwise. |
| `Pipeline.SourcesAreEndorsed` | src/rag/pipeline.py:51-62 | Sources are empty exactly for a refusal. Otherwise they are the capped hits, clarifications included, in descending score order. |
| `Pipeline.MetaReportsRetrieval` | src/rag/pipeline.py:64-70 | `retrieved_k` is the hit count, and `top_score` equals the confidence. With no hits it is 0; with hits it is the maximum hit score. |
| `Pipeline.NoHitsRefuse` | src/rag/pipeline.py:35-80 | No hits give a refusal with the fixed message, confidence 0, no sources and `retrieved_k` 0. |
| `EvalMetrics.OverlapRatio` | src/eval_runner/metrics.py:25-27 | The overlap share lies in [0,1]. It is 1 exactly when the answer tokens all occur in the evidence, and 0 exactly when none do. |
| `EvalMetrics.Groundedness` | src/eval_runner/metrics.py:5-27 | The score lies in [0,1] and is 0 for an empty answer, no sources or no tokens. Otherwise it is 1 exactly when all answer tokens occur in the joined source texts, and 0 exactly when none does. |
| `EvalMetrics.RowsOfType` | src/eval_runner/metrics.py:32 | The rows kept are exactly the rows predicted as the given type, each as many times as it occurs in the results. |
| `EvalMetrics.AvgLatencyForType` | src/eval_runner/metrics.py:31-33 | With no row of the type the average is 0. |
| `EvalMetrics.AvgLatencyForTypeBounds` | src/eval_runner/metrics.py:31-33 | The per-type average latency lies within any bounds of the row latencies. |
| `EvalMetrics.ComputeMetrics` | src/eval_runner/metrics.py:36-98 | Computing metrics fails, by division by zero, exactly on an empty result list, and `total` is the row count. |
| `EvalMetrics.MetricsBounded` | src/eval_runner/metrics.py:36-98 | All five rates lie in [0,1]. Rates over no expected refusal or answer are 0. Effective answers are at most predicted answers, which are at most the total. |
| `EvalMetrics.RefusalAndClarifyShareOutOfDomain` | src/eval_runner/metrics.py:43-91 | Refusal correctness and the clarify-on-out-of-domain rate share one denominator and sum to at most 1. |
| `EvalMetrics.MetricsMeansBounded` | src/eval_runner/metrics.py:77-78 | The average latency and average top score lie within any bounds of the row values. |
| `RunEval.GroundednessStop` | src/eval_runner/run_eval.py:22-41 | The score lies in [0,1] and is 0 for an empty answer, no chunks or no meaningful answer token. Otherwise it is 1 exactly when every meaningful answer token occurs among the evidence's, and 0 exactly when none does. |
| `RunEval.StopwordsIgnored` | src/eval_runner/run_eval.py:31-38 | Two tokenizers that differ only in stopwords give the same score. |
| `RunEval.AgreesWithMetricsGroundedness` | src/eval_runner/run_eval.py:22-41 | For a tokenizer that never yields a stopword, the runner's score equals the metrics module's score over the chunk texts. |
| `RunEval.EvidenceFor` | src/eval_runner/run_eval.py:67-70 | Answers are scored against the gate's endorsed chunks; other decisions are scored against nothing. |
| `RunEval.DecisionName` | src/eval_runner/run_eval.py:76 | The predicted type is one of `answer`, `refuse` and `clarify`. |
| `RunEval.Prefix` | src/eval_runner/run_eval.py:84 | The answer preview is a prefix of at most 200 characters, and the whole answer when it is shorter. |
| `RunEval.RowOf` | src/eval_runner/run_eval.py:72-87 | A row's groundedness lies in [0,1] and is 0 whenever the re-run gate did not answer. |
| `RunEval.EvaluateQuestions` | src/eval_runner/run_eval.py:55-88 | The question loop returns exactly one specified row per question, in order. |
| `RunEval.Tally` | src/eval_runner/run_eval.py:95-96 | The counter has exactly the values that occur, each with its number of occurrences. |
| `RunEval.ReportRatesBounded` | src/eval_runner/run_eval.py:98-119 | Accuracy, refusal rate and answer rate lie in [0,1]. An empty run reports 0 accuracy, latency, top score and groundedness. |
| `RunEval.ReportGroundednessBounded` | src/eval_runner/run_eval.py:118-137 | When row scores lie in [0,1], so do the overall mean and the mean of each predicted type. |
| `RunEval.ReportAgreesWithMetrics` | src/eval_runner/run_eval.py:94-116 | On a non-empty run, total, accuracy, both correctness rates, average latency and average top score equal those of the metrics module. |
| `RunEval.RowsFacts` | src/eval_runner/run_eval.py:72-87 | Every row of a run names one of the three decisions as its predicted type and has a groundedness in [0,1]. |
| `RunEval.ReportFactsOfRows` | src/eval_runner/run_eval.py:94-152 | For such rows, the predicted-type counter names only the three decisions, its counts add up to the row count, and the mean groundedness lies in [0,1]. |
| `RunEval.RunReportFacts` | src/eval_runner/run_eval.py:55-152 | In a run's report, the predicted-type counts name only the three decisions and add up to the number of questions. Every question the gate did not answer has groundedness 0. The mean groundedness lies in [0,1]. |

## Left out

- The embedding model, FAISS internals (inner-product search, the index file format) and the language-model client are function parameters. The model states what the code does with their results, not how the results are computed.
- ValidateDocs.IsHexSha256: the model of `int(s, 16)` lives in the `PyInt` module; which characters count as Unicode decimal digits follows Unicode 15.0, the version Python 3.12 ships; a Python built on another Unicode version reads a slightly different set of digits. A string whose rewrite hits a character that is neither ASCII, whitespace nor a digit is rejected at once by `int()`; the model reaches the same verdict by writing `?` in its place.
- Configuration loading (`config.yaml`, `.env`) is left out. The settings are parameters; the gate's defaults 0.40, 0.25, 0.03 and 5 are constants.
- File I/O (JSONL reading and writing, `report.json`, `report.md`, the query log file), `print` output and the HTTP API are left out. Each file becomes a sequence of records, and a missing file becomes a Boolean.
- The clock, elapsed-time measurement and `uuid4` are left out; they are parameters of the operations that use them.
- The tokenizer `re.findall(r"\b[a-zA-Z_]{3,}\b", s.lower())` is a function parameter from text to a set of tokens. Lower-casing belongs to it.
- `EvalMetrics.EffectiveAnswer` lower-cases the answer preview with ASCII case mapping only, not Python's full Unicode `str.lower()`.
- The gate's rationale text only records the rule that fired. Its float formatting (`:.3f`) is left out.
- Scores and latencies are exact reals, not IEEE doubles. Rounding is not modelled.
- `Confidence.Decide` requires a non-empty capped list whenever there are hits. When `top_k` caps it to nothing, the source raises `IndexError` on `hits_sorted[0]`; the model does not represent that crash.
- `Retrieval.JoinHits` treats a hit id at or beyond the metadata length as an error, where the source raises `IndexError`.
- In `ValidateDocs`, the non-empty-line statistic (`splitlines`) and the average statistics are left out. The 50-error print limit is left out too, because it only affects output.
- The evaluation runner's `tags` field is left out, and so are the markdown report and the written files.
- The evaluation runner re-runs retrieval and the gate; that re-run is a parameter from query to gate decision. `Retrieval.RetrieveIsDeterministic` shows a real re-run gives the same result.
- The pipeline's per-call responses in the evaluation loop are also a parameter from query to response. Each run's log append is therefore not repeated in that loop.
- `src/rag/pipeline.py` has no step that downgrades a generated answer that reads like a refusal to `refuse`, so none is modelled; the response's decision is always the gate's.
