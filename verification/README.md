# Enterprise agentic RAG core, modelled in Dafny

This project models the retrieval-augmented question answering core of
`enterprise-agentic-rag`:

- **Ingestion.** PDF text is cut into overlapping character windows. Every
  non-blank window becomes a chunk record named `"{source}::chunk_{i}"`.
- **Two indexes.** The chunks are indexed by a dense vector store and by a
  BM25 store.
- **Hybrid retrieval.** A query asks both stores for
  `top_k * pool_mult` candidates. It min-max normalises each list's scores,
  merges the two lists by chunk id, blends the scores with weight `alpha`,
  sorts by the blend (stably, descending) and keeps `top_k`.
- **Optional reranking.** A language model can rerank the result. The
  reranker reads the model's reply as a JSON ranking, or loosely as a
  comma-separated list of 1-based passage numbers.
- **Answering.** An answer is generated over a character-budgeted context.
  An exact "not available" policy is enforced on it, and it comes with a
  list of the cited sources.
- **Exploration.** Five fixed probe queries gather up to 18 distinct
  chunks, which the model summarises into a snapshot, topics and questions.
  The reply is validated and capped.
- **Around the core:**
  - reciprocal rank fusion;
  - query expansion;
  - the self-RAG retry test;
  - the corrective retry loop built on that test;
  - environment-driven feature switches;
  - the RAPTOR placeholder.

Each Python function becomes a pure Dafny function over immutable data.

- **Outside calls become parameters.** The model is a function from prompts
  to replies (`Oracle.Llm`), and the JSON decoder is a partial function.
  PDF extraction is a function from path to text. Vector search is given as
  the `(score, index)` rows it returns, and BM25 scoring as the score list.
- **Exceptions become values.** Every exception the code raises or lets
  through becomes an `Err` of `Common.Result`.
- **Loops.** Where the source's loop is the interesting part, a `method`
  that runs the loop as written is proved equal to the functional model:
  - `Chunkers.ChunkLoop`
  - `Answer.FormatContextLoop`
  - `Reranker.NormalizeLoop`
  - `Explore.CleanLoop`
  - `Pipeline.GatherLoop`
  - `Raptor.SummariesLoop`
  - `Crag.CragLoop`

Modules follow the source files:

| module | file |
|---|---|
| `Chunkers` | `ingestion/chunkers.py` |
| `Raptor` | `ingestion/raptor.py` |
| `Corpus` | PDF selection shared by both stores |
| `Bm25Store` | `retrieval/bm25_store.py` |
| `VectorStore` | `retrieval/vector_store.py` |
| `Hybrid` | `retrieval/hybrid.py` |
| `Fusion` | `retrieval/fusion.py` |
| `QueryExpansion` | `retrieval/query_expansion.py` |
| `Reranker` | `reranking/llm_reranker.py` |
| `Answer` | `generation/answer.py` |
| `Explore` | `generation/explore.py` |
| `SelfRag` | `generation/self_rag.py` |
| `Crag` | `generation/crag.py` |
| `Config` | `config.py` |
| `Schemas` | `schemas.py` |
| `Pipeline` | `pipeline.py` |

Support modules:

| module | provides |
|---|---|
| `Common` | results, errors, Python's `xs[:k]` |
| `Text` | `strip`, `lower`, `split`, `find`, `in` on strings |
| `Json` | decoded JSON values, `dict.get`, truthiness |
| `Seqs` | keys, first occurrence, dedup |
| `Sorting` | the stable descending sort behind `sort(key=..., reverse=True)` and `sorted(...)` |
| `Oracle` | the prompts |

## Model

| member | source | states |
|---|---|---|
| Chunkers.ChunkText | rag_core/ingestion/chunkers.py:4-11 | A missing or all-blank text gives no chunks; a non-blank text with a size of zero or less raises the chunk-size error; nothing else fails. |
| Chunkers.Step | rag_core/ingestion/chunkers.py:10-16 | The stride is at least 1. With a non-negative overlap it is at most the window size; a negative overlap makes it exceed the window. |
| Chunkers.ChunkShape | rag_core/ingestion/chunkers.py:13-23 | A non-blank text yields `ceil(n/step)` chunks of the stripped text. Chunk `i` is the slice starting at `i*step`, non-empty and at most `size` long. |
| Chunkers.WindowsFromSpec | rag_core/ingestion/chunkers.py:18-21 | The windows emitted from window `j` on are exactly windows `j .. count-1`, each starting inside the text. |
| Chunkers.CountBound | rag_core/ingestion/chunkers.py:18 | Window `i` starts before the end of the text exactly when `i` is below the window count: the loop guard `start < n`. |
| Chunkers.ChunksCover | rag_core/ingestion/chunkers.py:13-23 | With a non-negative overlap every character of the stripped text lies in some chunk, and the last chunk ends at the end of the text. |
| Chunkers.LastWindowEnds | rag_core/ingestion/chunkers.py:18-21 | When windows step by no more than their size, the last window reaches the end of the text. |
| Chunkers.NegativeOverlapGap | rag_core/ingestion/chunkers.py:10-16 | A negative overlap (not corrected by the `overlap >= size` guard) leaves the character at offset `size` in no chunk. |
| Chunkers.ChunkLoop | rag_core/ingestion/chunkers.py:4-23 | The while loop as written computes exactly `ChunkText`, for every input including the error case. |
| Chunkers.TwoThousandChars | rag_core/ingestion/chunkers.py:4-23 | With the defaults 800/200, 2000 characters give four chunks of at most 800 characters. |
| Chunkers.SevenHundredChars | rag_core/ingestion/chunkers.py:4-23 | 700 characters give two chunks, the second being the last 100 characters again. |
| Raptor.Summaries | rag_core/ingestion/raptor.py:9-17 | One output record per input record, with the same keys plus "summary". "summary" maps to the empty string and every other key keeps its value. |
| Raptor.SummariesLoop | rag_core/ingestion/raptor.py:14-17 | The append loop computes `Summaries`. |
| Raptor.SummariesIdempotent | rag_core/ingestion/raptor.py:9-17 | Applying the placeholder twice equals applying it once. |
| Raptor.SummaryOverwritten | rag_core/ingestion/raptor.py:16 | A record that already has a "summary" comes back with that entry set to the empty string: the display's later "summary" wins over the one unpacked from the record. It keeps every other entry and gains no key. |
| Corpus.GlobPdfs | rag_core/retrieval/bm25_store.py:64 | The directory's PDF paths are those entries with the `.pdf` suffix and no leading dot, in sorted order. |
| Corpus.ListedPdfs | rag_core/retrieval/vector_store.py:71 | The given paths are kept when their lower-cased form ends in `.pdf`, and the result is sorted. |
| Corpus.PdfPaths | rag_core/retrieval/vector_store.py:70-78 | The build fails exactly when no path qualifies. A directory gives "No PDFs found in: dir" and a list gives "No PDF paths provided"; a success is non-empty and sorted. |
| Bm25Store.Runs | rag_core/retrieval/bm25_store.py:17-20 | Every token is a non-empty run of `[a-z0-9]`. |
| Bm25Store.RunsOfJoin | rag_core/retrieval/bm25_store.py:17-20 | Tokens joined by blanks tokenize back to the same tokens (the tokenizer's round trip). |
| Bm25Store.RunsOfWord | rag_core/retrieval/bm25_store.py:20 | A run followed by a non-word character is exactly one token, and the rest is tokenized after it. |
| Bm25Store.TokenizeCaseBlind | rag_core/retrieval/bm25_store.py:18 | Texts that agree after lower-casing have the same tokens. |
| Bm25Store.TokenizeNothing | rag_core/retrieval/bm25_store.py:18 | `None` and "" tokenize to nothing. |
| Bm25Store.BuildMetaNamed | rag_core/retrieval/bm25_store.py:71-85 | Every stored record's id is its source and chunk position in the `::chunk_` form. |
| Bm25Store.BuildMetaKeepsAll | rag_core/retrieval/bm25_store.py:71-86 | With a positive size, every chunk of every document becomes a record, in document order. Unlike the vector store, blank chunks are not filtered. |
| Bm25Store.Build | rag_core/retrieval/bm25_store.py:63-90 | No PDFs raises "No PDFs found in: dir". A built index stores the records `BuildMeta` gathers from the sorted PDF paths, with exactly one token list per record holding that record's tokens. |
| Bm25Store.BuildKeepsAll | rag_core/retrieval/bm25_store.py:63-90 | With a positive window size and at least one PDF, the build succeeds and its records' texts are every chunk of every document, in path order, none filtered. |
| Bm25Store.BuildNamed | rag_core/retrieval/bm25_store.py:63-90 | A successful build stores only well-named records. |
| Bm25Store.TopIdxs | rag_core/retrieval/bm25_store.py:108 | Every selected index is a valid record index. |
| Bm25Store.Search | rag_core/retrieval/bm25_store.py:101-103 | Search fails with "BM25 index not built" exactly when there is no index or no records. |
| Bm25Store.SearchSpec | rag_core/retrieval/bm25_store.py:105-123 | On a built index the result has `min(k, n)` entries. Entry `j` is the record at the `j`-th selected index with its score, tagged "bm25". |
| Bm25Store.TopIdxsOrder | rag_core/retrieval/bm25_store.py:108 | Selected indices come by descending score, and equal scores keep ascending index order (Python's sort is stable). |
| Bm25Store.TopIdxsBest | rag_core/retrieval/bm25_store.py:108 | An index left out scores no higher than any selected one. |
| Bm25Store.TieOrder | rag_core/retrieval/bm25_store.py:108 | In the reversed stable sort of `range(n)`, two positions with equal scores hold increasing indices. |
| VectorStore.ChunkRecords | rag_core/retrieval/vector_store.py:97-104 | Every record's text is non-empty and already stripped, and its chunk position is a real chunk position. |
| VectorStore.ChunkRecordsMembers | rag_core/retrieval/vector_store.py:98-104 | A record is produced exactly for each chunk whose stripped text is non-empty. It carries that chunk's position `i` and id `source::chunk_i`. |
| VectorStore.ChunkRecordsOrdered | rag_core/retrieval/vector_store.py:98-104 | Records come in strictly increasing chunk position. |
| VectorStore.BlankChunkGap | rag_core/retrieval/vector_store.py:99-102 | A blank middle chunk leaves a gap: positions 0 and 2, not 0 and 1. |
| VectorStore.DocRecords | rag_core/retrieval/vector_store.py:86-97 | A document whose text is blank contributes nothing. It fails only when it has text and the chunk size is not positive. |
| VectorStore.BuildRecords | rag_core/retrieval/vector_store.py:83-104 | Every record gathered over all documents has stripped, non-empty text. |
| VectorStore.BuildRecordsNamed | rag_core/retrieval/vector_store.py:102-104 | Every gathered record's id is its source and chunk position in the `::chunk_` form. |
| VectorStore.Build | rag_core/retrieval/vector_store.py:63-117 | A path-selection error propagates. Nothing extracted raises the "No extractable text chunks" error. A success stores exactly the records gathered from the selected paths: a non-empty list of stripped, non-empty texts. |
| VectorStore.BuildRecordsConcat | rag_core/retrieval/vector_store.py:83-104 | Gathering records over two runs of paths succeeds exactly when it succeeds over each, and then yields the first run's records followed by the second's. |
| VectorStore.BuildRecordsOne | rag_core/retrieval/vector_store.py:83-104 | With a positive window size, one path yields no records when its text is blank, and otherwise the records of the chunks of its stripped text, named after its base name. |
| VectorStore.AllBlankIsError | rag_core/retrieval/vector_store.py:91-117 | When every selected document's text is blank, the build fails with the extraction error, whatever the chunk settings. |
| VectorStore.Hits | rag_core/retrieval/vector_store.py:151-164 | A chunk is returned exactly when some row names a stored record. It is that record with that row's score. |
| VectorStore.HitsConcat | rag_core/retrieval/vector_store.py:151-164 | Row lists map piecewise, so results keep row order. |
| VectorStore.HitsAllValid | rag_core/retrieval/vector_store.py:151-164 | When every row names a record, there is one chunk per row, in row order. |
| VectorStore.Search | rag_core/retrieval/vector_store.py:138-165 | Search fails with "Vector index not built" exactly when nothing is built or no records are stored. Otherwise it returns `Hits(meta, rows)`: one chunk per row that names a stored record, in row order, carrying that row's score and tagged "vector". |
| VectorStore.PaddingDropped | rag_core/retrieval/vector_store.py:152-153 | A padding row with index -1 changes nothing. |
| Hybrid.MinMaxNorm | rag_core/retrieval/hybrid.py:8-14 | Same length as the input. All ones when max and min are within 1e-9, otherwise `(v-min)/(max-min)`; every value lies in [0, 1]. |
| Hybrid.MinMaxNormEnds | rag_core/retrieval/hybrid.py:14 | Outside the degenerate case, exactly the minima map to 0 and exactly the maxima map to 1. |
| Hybrid.MinMaxNormMonotone | rag_core/retrieval/hybrid.py:14 | Outside the degenerate case, normalisation preserves and reflects the order of scores. |
| Hybrid.PutVector | rag_core/retrieval/hybrid.py:32-33 | A vector hit replaces its id's value with (doc, s, 0.0), appends a new id at the end, and leaves other ids untouched. |
| Hybrid.PutBm25 | rag_core/retrieval/hybrid.py:34-38 | A BM25 hit creates (doc, 0.0, s) for a new id. For a known id it only sets `b`, keeping the stored chunk and `v`. Other ids are untouched. |
| Hybrid.Expected | rag_core/retrieval/hybrid.py:31-38 | The reference value of `merged[id]` carries that id. Its `v` is 0 or a vector score, and its `b` is 0 or a BM25 score. |
| Hybrid.Spec | rag_core/retrieval/hybrid.py:31-38 | The reference merge holds one entry per distinct id, vector ids first, in first-insertion order. |
| Hybrid.MergeVectorSpec | rag_core/retrieval/hybrid.py:32-33 | The vector loop builds exactly the reference merge of its hits. |
| Hybrid.MergeBm25Spec | rag_core/retrieval/hybrid.py:31-38 | The BM25 loop, run after the vector loop, builds exactly the reference merge of both lists. |
| Hybrid.BlendedSpec | rag_core/retrieval/hybrid.py:27-46 | Before sorting, entry `k` is the blend of the reference entry of the `k`-th merged id. |
| Hybrid.BlendedIds | rag_core/retrieval/hybrid.py:31-46 | The blended list carries the merged ids in order, each once. |
| Hybrid.FuseEntries | rag_core/retrieval/hybrid.py:27-49 | Every output chunk is the blend of the reference merge entry for its id. |
| Hybrid.FuseCorrect | rag_core/retrieval/hybrid.py:27-49 | Ids are distinct and scores descend. The output has `min(top_k, #ids)` entries, each the blended reference entry of its id. Every id is present once `top_k` covers them. Equal scores keep merge order (the sort is stable). |
| Hybrid.FuseScoreBounds | rag_core/retrieval/hybrid.py:42 | With 0 <= alpha <= 1 every blended score lies in [0, 1]. |
| Hybrid.Retrieve | rag_core/retrieval/hybrid.py:23-49 | Both stores are asked for `top_k*pool_mult`. The vector store's error wins, then the BM25 store's; the call succeeds exactly when both searches succeed. |
| Hybrid.HybridRetrieve | rag_core/retrieval/hybrid.py:53-66 | On success: distinct ids, descending scores, every chunk tagged "hybrid", at most `top_k` chunks, and with 0 <= alpha <= 1 all scores lie in [0, 1]. |
| Hybrid.RetrieveAsksPool | rag_core/retrieval/hybrid.py:24-25 | The result depends on the stores only through their answers to the pooled query. |
| Hybrid.MergeExample | rag_core/retrieval/hybrid.py:27-49 | A worked case. Ids 1 and 2 tie at 0.5 and keep merge order; id 3 scores 0. |
| Fusion.Add | rag_core/retrieval/fusion.py:15-16 | One hit adds `1/(k+rank+1)` to its id's running score. It replaces the stored chunk by this hit's chunk, appends a new id last, and leaves other ids untouched. |
| Fusion.AccumulateSpec | rag_core/retrieval/fusion.py:13-16 | The two loops accumulate, per distinct id in first-seen order, the chunk of its last hit and its summed reciprocal-rank score. |
| Fusion.FusedAllSpec | rag_core/retrieval/fusion.py:18-23 | The fused list has one rescored copy per distinct id, in first-seen order, tagged "fusion". |
| Fusion.RrfFusion | rag_core/retrieval/fusion.py:5-26 | Fusion fails with a division by zero exactly when some `k + rank + 1` is zero. |
| Fusion.RrfCorrect | rag_core/retrieval/fusion.py:5-26 | Ids are distinct and scores descend. The output has `min(top_k, #ids)` entries, each the reference fused chunk of its id. Every id is present once `top_k` covers them. Ties keep first-seen order. |
| Fusion.RrfNonNegativeK | rag_core/retrieval/fusion.py:5 | With `k >= 0` (the default is 60) fusion never fails. |
| Fusion.RrfScoreSingle | rag_core/retrieval/fusion.py:8 | A chunk listed once, at rank `r`, scores `1/(k+r+1)`. |
| Fusion.RrfScorePositive | rag_core/retrieval/fusion.py:8 | With `k >= 0` every listed chunk scores above 0. |
| Fusion.RrfScoreAbsent | rag_core/retrieval/fusion.py:8 | An id never listed scores 0. |
| QueryExpansion.NonBlankMembers | rag_core/retrieval/query_expansion.py:8 | A line is kept exactly when it is the non-empty stripped form of some piece of the reply. |
| QueryExpansion.WithQuery | rag_core/retrieval/query_expansion.py:10-11 | The stripped query is always present. The lines are unchanged if it was already there; otherwise it is put first. |
| QueryExpansion.ExpandQueries | rag_core/retrieval/query_expansion.py:5-12 | Between 1 and `max(1, n)` queries come back. |
| QueryExpansion.ExpandShape | rag_core/retrieval/query_expansion.py:5-12 | The result is the first `max(1, n)` query-completed lines. Every entry is stripped, and each is the query or a non-blank line of the reply. |
| QueryExpansion.QueryFirstWhenMissing | rag_core/retrieval/query_expansion.py:10-12 | When the reply lacks the query, the query comes first. |
| QueryExpansion.QueryCutOff | rag_core/retrieval/query_expansion.py:10-12 | A reply that repeats the query after `max(1, n)` other lines loses the query to the cap. |
| Reranker.PassageParts | rag_core/reranking/llm_reranker.py:28-29 | Each block is "[P{i}]\n" followed by the first 1200 characters of the stripped text. |
| Reranker.PassageNumber | rag_core/reranking/llm_reranker.py:27-29 | The digits inside a block's label read back as its 1-based position. |
| Reranker.StrictRanking | rag_core/reranking/llm_reranker.py:35-42 | A strict ranking exists exactly when the reply decodes to an object whose "ranking" is a list, and it is that list. |
| Reranker.StrictWins | rag_core/reranking/llm_reranker.py:35-45 | A non-empty JSON ranking list is used as it is, entry by entry. |
| Reranker.LooseOtherwise | rag_core/reranking/llm_reranker.py:44-52 | Without a non-empty JSON ranking list, the loose reading of the reply is used. |
| Reranker.Cleaned | rag_core/reranking/llm_reranker.py:46 | The cleaned reply has no newlines and no blanks. |
| Reranker.LooseRoundTrip | rag_core/reranking/llm_reranker.py:46-52 | A comma-separated list of numbers reads back as those numbers. |
| Reranker.CandidatesIff | rag_core/reranking/llm_reranker.py:69-75 | A 0-based position is a candidate exactly when it is in range and the ranking names it, 1-based. |
| Reranker.CandidatesStep | rag_core/reranking/llm_reranker.py:69-75 | An entry adds `idx-1` when that is in range, and is ignored otherwise. |
| Reranker.Normalize | rag_core/reranking/llm_reranker.py:66-78 | The normalised order names only real positions, has no repeats, and is non-empty when there are candidates. |
| Reranker.NormalizeLoop | rag_core/reranking/llm_reranker.py:66-78 | The loop with a `seen` set computes `Normalize`. |
| Reranker.Clamp | rag_core/reranking/llm_reranker.py:24 | `max(1, min(top_k, n))` lies in [1, n] and equals `top_k` when that already does. |
| Reranker.Chosen | rag_core/reranking/llm_reranker.py:54-81 | Between 1 and `Clamp` distinct positions are chosen, all in range. |
| Reranker.ChosenFallback | rag_core/reranking/llm_reranker.py:54-64 | When no entry names a passage, the first `Clamp` positions are chosen in original order. |
| Reranker.ChosenIsTake | rag_core/reranking/llm_reranker.py:66-81 | Otherwise the first `Clamp` named positions are chosen, without repeats. |
| Reranker.ChosenOnlyNamed | rag_core/reranking/llm_reranker.py:66-81 | Positions the ranking does not name are dropped, not appended. |
| Reranker.ChosenOrder | rag_core/reranking/llm_reranker.py:66-81 | Chosen positions come in the order the ranking first names them. |
| Reranker.ChosenAllNamed | rag_core/reranking/llm_reranker.py:66-81 | Once `Clamp` allows, every named position is output. |
| Reranker.Retagged | rag_core/reranking/llm_reranker.py:82-86 | A reranked copy keeps content and score and gets the tag "rerank". |
| Reranker.Rerank | rag_core/reranking/llm_reranker.py:20-89 | No candidates gives no output; otherwise 1 to `Clamp` chunks come back. |
| Reranker.RerankPicks | rag_core/reranking/llm_reranker.py:20-89 | Each output chunk is a retagged copy of a different candidate at the chosen position, with its score. |
| Reranker.ExampleZeroBased | rag_core/reranking/llm_reranker.py:66-78 | The reply "2,0,3" on three passages is read 1-based. Passages 2 and 3 (0-based 1 and 2) come back, and 0 is ignored. |
| Reranker.ExampleTwoOne | rag_core/reranking/llm_reranker.py:44-89 | The non-JSON reply "2,1" on three passages returns the second passage, then the first. |
| Answer.FitWithin | rag_core/generation/answer.py:17-30 | The blocks kept fit the budget together. |
| Answer.FitLongest | rag_core/generation/answer.py:17-30 | The blocks kept are the longest prefix of the non-blank chunks whose blocks fit. The next block would break the budget: the loop stops, it does not skip. |
| Answer.FitEmptyIff | rag_core/generation/answer.py:17-30 | Nothing is kept exactly when every chunk is blank or the first non-blank block alone exceeds the budget. |
| Answer.FormatContext | rag_core/generation/answer.py:9-32 | The context is empty exactly when no block is accepted. Otherwise it is at most `max_chars + #blocks - 2` long. |
| Answer.FormatContextLoop | rag_core/generation/answer.py:14-32 | The loop as written gives the same text as `FormatContext`. |
| Answer.Citations | rag_core/generation/answer.py:54-61 | The citations are every non-empty source among the chunks, once each, in order of first appearance. |
| Answer.GenerateAnswer | rag_core/generation/answer.py:35-63 | No context gives the fallback sentence and no citations. Otherwise a declining reply becomes the fallback sentence, any other reply is returned stripped, and the citations come from the chunks. |
| Answer.AnswerPassesPolicy | rag_core/generation/answer.py:48-52 | The answer is either exactly the fallback sentence or a non-empty, stripped reply that the policy does not decline. |
| Answer.NoContextIgnoresModel | rag_core/generation/answer.py:43-45 | Without context the model is not consulted: any two models give the same answer. |
| Answer.NoContextIff | rag_core/generation/answer.py:9-32 | With the 24000-character budget the context is empty exactly when every chunk is blank or the first non-blank block is too long. |
| Explore.NoContent | rag_core/generation/explore.py:41-46 | The fixed result for no readable context. |
| Explore.ParseReply | rag_core/generation/explore.py:51-64 | A reply that decodes is used as it is. One that does not, with no '{' or no '}', becomes the empty object. |
| Explore.ParseReplySpan | rag_core/generation/explore.py:55-62 | Any other reading of an undecodable reply is the decoding of the span from its first '{' to its last '}'. |
| Explore.BracesOutOfOrder | rag_core/generation/explore.py:58 | When every '}' precedes every '{', the reply becomes the empty object. |
| Explore.ReadQuestion | rag_core/generation/explore.py:72-76 | An entry must be a dictionary whose "q" is a string, missing or falsy; a non-dictionary entry or a truthy non-string "q" fails with AttributeError. A falsy "q" reads as "". A question is kept exactly when that "q" is not blank; it is the stripped "q", and its support is the entry's "support", or `[]` when that is missing or falsy. |
| Explore.Clean | rag_core/generation/explore.py:71-76 | Cleaning fails exactly when some entry is unreadable. Otherwise the kept questions are those the entries yield, in entry order: they equal the front-to-back reference reading `Yields`. |
| Explore.CleanConcat | rag_core/generation/explore.py:71-76 | Cleaning two runs of entries one after the other keeps the first run's questions, then the second's. |
| Explore.CleanLoop | rag_core/generation/explore.py:71-76 | The loop as written computes `Clean`. |
| Explore.CutTopics | rag_core/generation/explore.py:80 | `topics[:12]` succeeds on a list or a string and keeps its first `min(12, n)` elements. |
| Explore.Shape | rag_core/generation/explore.py:66-82 | A successful result comes from a dictionary. Its snapshot is the reply's "snapshot" or the placeholder, its topics are the reply's "topics" (default `[]`) cut to 12, and its questions are the first 20 kept entries in entry order. Failures are AttributeError or TypeError. |
| Explore.ShapeOkIff | rag_core/generation/explore.py:66-82 | Shaping succeeds exactly when the data is a dictionary, its questions are a list of readable entries, and its topics are a list or a string. |
| Explore.EmptyObjectDefaults | rag_core/generation/explore.py:66-82 | An empty object yields the default snapshot, no topics and no questions. |
| Explore.ExploreDocument | rag_core/generation/explore.py:30-82 | No context gives the fixed result. Otherwise the result is the shaping of the model's reply as `ParseReply` reads it: snapshot, topics and questions come from that reply, under the caps. |
| Explore.NoContextIgnoresModel | rag_core/generation/explore.py:39-46 | Without context neither the model nor the decoder is consulted. |
| Explore.UnreadableReplyDefaults | rag_core/generation/explore.py:51-68 | A reply that is not JSON and contains no '{' gives the default snapshot with nothing else. |
| SelfRag.ShouldRetryIff | rag_core/generation/self_rag.py:3-12 | A retry is asked for exactly when some trigger phrase occurs in the lower-cased answer. |
| SelfRag.NothingNoRetry | rag_core/generation/self_rag.py:4 | A missing or empty answer never asks for a retry. |
| SelfRag.CaseInsensitive | rag_core/generation/self_rag.py:4 | Letter case does not matter. |
| SelfRag.Monotone | rag_core/generation/self_rag.py:12 | Any text containing a triggering answer triggers too. |
| SelfRag.FallbackRetries | rag_core/generation/self_rag.py:5-7 | The answer policy's fallback sentence asks for a retry. |
| Crag.CragRunSpec | rag_core/generation/crag.py:4-10 | No attempts allowed gives nothing. Otherwise the loop stops at the first answer that does not ask for a retry, or at the last attempt, and returns that run. |
| Crag.StopsAfterUnique | rag_core/generation/crag.py:6-9 | The number of runs is fixed by the answers. |
| Crag.TwoRetries | rag_core/generation/crag.py:4-10 | With the default two attempts and two unsatisfying answers, the second run is returned. |
| Crag.FirstPasses | rag_core/generation/crag.py:8-9 | A satisfying first answer is returned at once. |
| Crag.CragLoop | rag_core/generation/crag.py:4-10 | The loop runs at most `max_iters` times and at least once when allowed. It stops as `StopsAfter` says, returns the last run's result, and returns `CragRun`. The run count is reported alongside. |
| Config.EnvBoolIff | rag_core/config.py:5-9 | A set variable switches on exactly when its stripped value spells one of 1/true/yes/y/on in any letter case. |
| Config.UnsetIsDefault | rag_core/config.py:7-8 | An unset variable yields the default. |
| Config.EmptyIsOff | rag_core/config.py:9 | A set but empty variable switches off even a feature that defaults on. |
| Config.PaddingIgnored | rag_core/config.py:9 | Surrounding white space is ignored. |
| Config.CaseIgnored | rag_core/config.py:9 | Letter case is ignored. |
| Config.ReadFlags | rag_core/config.py:11-33 | Reading the environment changes only the five switches; every other setting stays as given. An unset variable gives each switch its declared default. |
| Config.SwitchesFromVariables | rag_core/config.py:13-17 | Each switch is read from its own variable (`ENABLE_HYBRID`, `ENABLE_RERANK`, `ENABLE_QUERY_EXPANSION`, `ENABLE_SELF_RAG`, `ENABLE_CRAG`). A set variable decides it by whether its stripped, lower-cased value is an accepted spelling. |
| Config.EmptyEnvDefaults | rag_core/config.py:13-17 | With nothing set, the switches take the declared defaults: hybrid on, rerank off, expansion off, self-RAG on, CRAG off. |
| Schemas.Rescored | rag_core/schemas.py:5-11 | A rescored copy keeps id, text, source and position and takes the new score and tag. |
| Schemas.ChunkDefaults | rag_core/schemas.py:9-11 | A chunk built from id, text and source has position 0, score 0 and tag "vector". |
| Schemas.ResultDefaults | rag_core/schemas.py:13-18 | A result built from query and answer has no citations, no chunks and no debug value. |
| Pipeline.RetrieveOnly | rag_core/pipeline.py:22-36 | Retrieval succeeds exactly when both pooled searches succeed. Without reranking the result is the hybrid list: distinct, descending, tagged "hybrid", at most `TOP_K`. With reranking it has at most `max(1, TOP_K)` chunks tagged "rerank". |
| Pipeline.RerankFromCandidates | rag_core/pipeline.py:33-34 | Reranking only picks among the hybrid candidates: each result has a candidate's content and score. It is empty exactly when there are none. |
| Pipeline.RerankedIsRerank | rag_core/pipeline.py:33-36 | With reranking on, the pipeline returns the reranked hybrid result. |
| Pipeline.PlainIsHybrid | rag_core/pipeline.py:25-36 | With reranking off, the pipeline returns the hybrid result as it is. |
| Pipeline.Run | rag_core/pipeline.py:38-41 | `run` fails exactly when retrieval fails. It returns the retrieved chunks with the answer and citations generated over them. |
| Pipeline.RunAnswerShape | rag_core/pipeline.py:38-41 | The answer is the fallback sentence or a reply the policy lets through, and every citation names the source of a returned chunk. |
| Pipeline.EachOf | rag_core/pipeline.py:55-56 | Probing succeeds exactly when every probe does, giving one batch per probe in order. A failure is the error of the first failing probe; every probe before it succeeded. |
| Pipeline.Gathered | rag_core/pipeline.py:66 | At most 18 chunks are gathered. |
| Pipeline.GatheredSpec | rag_core/pipeline.py:52-66 | Gathered chunks sit at distinct (source, chunk index) places, and each is the first retrieved chunk at its place. A retrieved place is missing only when the cap of 18 was reached. |
| Pipeline.GatherLoop | rag_core/pipeline.py:52-64 | The nested loop with its `seen` set keeps exactly the first chunk for each place, in retrieval order. |
| Pipeline.ExploreAll | rag_core/pipeline.py:43-67 | A failing probe's error propagates. Otherwise the result is the exploration of the gathered chunks, and it satisfies the caps. |

## Left out

- **I/O.** Reading and writing index files is not modelled: `_try_load`, the
  JSON persistence in both `build`s, and the FAISS index file. A store is
  modelled as built or not built.
- **PDF extraction.** This is the `load` parameter. `pdf_loader.py` is not
  part of this model. Neither is the `isinstance(full_text, list)` joining in
  the vector store, since `load` returns a string.
- **Embeddings and FAISS.** Sentence embedding, normalisation and the
  inner-product search are not modelled. `VectorStore.Search` is given the
  `(score, index)` rows the FAISS search returns, and how many rows come
  back for a given `k` is not modelled.
- **BM25 scoring.** `BM25Okapi` is a library, and the score of each record
  is a parameter of `Bm25Store.Search`.
- Bm25Store.Build: building over PDFs that yield no chunks returns an empty
  index. The library scorer's behaviour on an empty corpus is not modelled,
  and a later search reports the index as not built.
- **Floating point.** Scores, `alpha` and the `1e-9` threshold are exact
  reals. Rounding, NaN and infinities are not modelled, and the float
  conversions `float(s)` are the identity.
- **Characters.** Only ASCII white space, case and digits are handled by
  `strip`, `lower`, `isdigit` and the tokenizer. Unicode case folding and
  Unicode white space are not. `splitlines` is modelled as splitting on
  `"\n"` only.
- **JSON decoding.** `json.loads` is a parameter: a partial function from
  text to decoded values. Explore.ParseReply states only what the
  surrounding code does with its answer.
- **Prompt texts.** The templates in `prompts.py` are not modelled. A prompt
  is the template's name plus the values filled in, and building it is
  assumed to succeed. As written, two templates would make `str.format`
  raise `KeyError`:
  - `RERANK_PROMPT` has a `{top_k}` field that `rerank` does not fill
    (`rag_core/reranking/llm_reranker.py:32`).
  - The JSON schema's literal braces in `EXPLORE_PROMPT` are read as a
    field (`rag_core/generation/explore.py:48`).

  The model describes what the reranker and the explorer do with the reply
  once the prompt is built.
- Crag.CragRunSpec: a run is modelled as producing a `RAGResult` with an
  `answer` field. `Pipeline.run` in `rag_core/pipeline.py:38-41` returns a
  tuple, on which `crag_run`'s `last.answer` would raise.
- **Settings.** `int(...)`/`float(...)` parsing of the numeric environment
  variables is not modelled. Config.ReadFlags takes the numbers as given
  and models only the boolean switches.
- **`getattr` defaults.** The defaults in `pipeline.py`, `answer.py` and
  `explore.py` are not modelled. Chunks are `DocChunk` records, which
  always have those attributes. Likewise `hasattr(d, "model_copy")` and the
  guarded `d2.method = ...` assignments are not modelled, since a copy's tag
  can always be set.
- **Python's `sort`.** `sort(key=..., reverse=True)` is modelled as a stable
  descending insertion sort. The Dafny definition does not reproduce the
  library's algorithm, only its result (stable, descending, a permutation).
- Explore.CutTopics: slicing a non-empty dictionary "topics" raises
  `TypeError` before Python 3.12 and `KeyError` from 3.12 on, since slices
  became hashable. The source pins no Python version, and the model uses
  `TypeError`.
- **Dictionary key order.** RAPTOR records and decoded JSON objects are
  maps, so the insertion order of a Python `dict`'s keys is not modelled.
  For example, `{**d, "summary": ""}` keeps an existing "summary" key in
  its original position, and the model cannot state this.
- **Other callers.** The UI is not modelled: `app/streamlit_app.py`,
  `ui_text.py` and the logger.
- **Exploration output.** Reranker.Rerank and Explore.ExploreDocument are
  given the model's reply for a prompt, but the prompt's wording is not
  modelled. What is done with the reply is modelled: how it is read, and
  the defaults, validation and caps applied to it.
- QueryExpansion.ExpandQueries: `n` is used only for the cap and inside the
  prompt, whose text is not modelled.
- Hybrid.HybridRetrieve: the score bound holds only for `0 <= alpha <= 1`.
  The source does not check `alpha`, and the model does not either.
