# RAGDex ingestion and retrieval core in Dafny

RAGDex is a personal retrieval-augmented assistant. It works in two stages.

Offline ingestion:
- `DocumentLoader` turns the raw files of each domain directory into chunk records. It normalises whitespace, splits the text into sentences and packs them into token-budget chunks. Each chunk gets an id. Only changed files are reprocessed, using a SHA-256 log.
- `ChunkVectorizer` reads each `<domain>_chunks.json`, drops blank chunks, picks ids, removes repeated ids and embeds the texts in batches.
- `ChromaIngestor` loads the embedding files into four parallel lists. It drops the records whose id the vector store already holds and adds the rest in batches.

Online:
- `RAGRetriever.retrieve_v2` keeps the search hits closer than an L2 distance of 1.15. When none is that close, it falls back to the nearest hit if its distance is below 1.6.
- `Prompter.prompt` wraps the context and the question in a fixed instruction.

The model has one module per source file, plus two shared modules:
- `Common`: options, results, Python exceptions, subsequences and `range` starts.
- `Text`: Python's `str.split`, `strip`, `join`, `split()`, `in` and `str(int)` on `seq<char>`.

Modules by source file:
- `Chunker` and `DocumentLoading`: `document_loader.py`.
- `Embeddings`: `create_embeddings.py`.
- `VectorStore`: `store_embeddings.py`.
- `Retrieval`: `retriever.py`.
- `Prompting`: `prompter.py`.

How the model is built:
- Loops of the source are methods, each proved equal to a specification function; the properties are lemmas about those functions.
- Objects whose fields the source updates are classes: `DocumentLoading.DocumentLoader` for the processing log, `VectorStore.ChromaIngestor` for the four lists, and `VectorStore.Collection` for the store.
- Hash functions, the NLTK sentence tokenizer and the sentence encoder are function-valued parameters.
- Files, directory listings and JSON documents are values.
- Search hits arrive as (document, distance) pairs, nearest first.

Behaviour of the code worth knowing before reading the table:
- **Reprocessing several files of one domain.** The docstring of `process_all` (`document_loader.py:208-211`) promises that old chunks of updated files are removed. The code looks old positions up in a map built before the first deletion, and a reprocessed file that yields no chunks keeps its old entries. See Findings.
- **Extraction failures.** PDF and OCR errors are caught inside the extraction helpers (`document_loader.py:73-93`), which return the text read before the error, empty when the file cannot be opened. A supported file that yields no chunks is still written to the log (`document_loader.py:197-199`). `DocumentLoading.ProcessOutcomes` states this.
- **Chunk overlap.** With `overlap_tokens > 0`, closing a chunk re-seeds the buffer with the last `overlap_tokens` tokens of that chunk joined by single spaces, and the next sentence is appended after it. So every chunk after the first begins with that seed and a space. Cutting that prefix from every later chunk and joining all chunks with spaces gives back the sentences joined with spaces (`Chunker.OverlapReconstruction`). Without overlap, the chunks joined with spaces are already that text (`Chunker.Reconstruction`).
- **Chunk ids.** The docstring of `generate_chunk_id` (`document_loader.py:151`) calls the ids globally unique, but the id depends only on the domain, the text's SHA-1 prefix and the index, so two files of one domain whose chunks at the same index have equal text get the same id (`Chunker.ChunkIdText`). Downstream this is harmless: `process_file` ignores `chunk_id` and derives each entry's id from its text (`Embeddings.LoaderChunksGetHashIds`).

## Model

| member | source | states |
|---|---|---|
| Chunker.NormalizedLinesClean | rag_agent/app/ingestion/document_loader.py:100-101 | every kept line is non-empty, stripped and free of line breaks; the result is empty exactly when no line is kept, and otherwise splitting it at line breaks gives exactly the kept lines |
| Chunker.NormalizeIdempotent | rag_agent/app/ingestion/document_loader.py:100-101 | `normalize_text` applied twice equals applied once |
| Chunker.Normalize | rag_agent/app/ingestion/document_loader.py:100-101 | `normalize_text`: the stripped non-blank lines joined by `"\n"`; its properties are `NormalizedLinesClean` and `NormalizeIdempotent` |
| Chunker.SafeSentTokenize | rag_agent/app/ingestion/document_loader.py:21-26 | when the tokenizer reports its model missing, every returned sentence is non-empty, stripped and has no period |
| Chunker.FallbackSentencesClean | rag_agent/app/ingestion/document_loader.py:24-26 | the period-split fallback never returns an empty or unstripped piece |
| Chunker.FallbackOfJoined | rag_agent/app/ingestion/document_loader.py:24-26 | clean sentences written back as `". "`-separated text are recovered exactly by the fallback (round trip) |
| Chunker.LastTokens | rag_agent/app/ingestion/document_loader.py:131 | `tokens[-k:]` is the suffix of length `min(k, len(tokens))` |
| Chunker.Chunks | rag_agent/app/ingestion/document_loader.py:116-146 | the greedy fold of `chunk_text` over the sentences: close on overflow of a non-empty buffer, re-seed with the overlap, flush at the end; its properties are the `Feed*`, `ChunkCount`, `Reconstruction`, `OverlapReconstruction`, `OverfullBufferEmitted` and `OversizedSentenceUnsplit` lemmas |
| Chunker.ChunkText | rag_agent/app/ingestion/document_loader.py:103-146 | the loop returns the chunks of the greedy fold `Chunks` over the sentences of `safe_sent_tokenize` |
| Chunker.OverlapSeed | rag_agent/app/ingestion/document_loader.py:125-136 | closing a chunk with overlap appends the joined buffer; the new buffer is one element whose tokens are the last `min(overlap, n)` tokens of that chunk, and `current_len` is that count |
| Chunker.StepCoherent | rag_agent/app/ingestion/document_loader.py:120-140 | one iteration keeps `current_len` equal to the token count of `" ".join(current_chunk)` |
| Chunker.FeedCoherent | rag_agent/app/ingestion/document_loader.py:116-140 | `current_len` equals that token count in every state the loop reaches |
| Chunker.FeedKeepsChunks | rag_agent/app/ingestion/document_loader.py:120-144 | a chunk once emitted is never changed or removed |
| Chunker.ChunkCount | rag_agent/app/ingestion/document_loader.py:116-146 | there are never more chunks than sentences, and there are no chunks exactly when there are no sentences |
| Chunker.Reconstruction | rag_agent/app/ingestion/document_loader.py:116-146 | with `overlap_tokens <= 0` the chunks joined by spaces equal the sentences joined by spaces |
| Chunker.CloseChain | rag_agent/app/ingestion/document_loader.py:125-133 | with overlap, a chunk closed from a buffer that starts with the previous chunk's seed begins with that seed and a space, so the chunks keep that chain |
| Chunker.StepSeeded | rag_agent/app/ingestion/document_loader.py:120-139 | with overlap, one iteration keeps the chain, and after any close the buffer is the last chunk's seed (its last `overlap_tokens` tokens joined by spaces) followed by at least one sentence |
| Chunker.StepSeededText | rag_agent/app/ingestion/document_loader.py:120-139 | with overlap, one iteration moves the sentence into the buffer and, on a close, the buffer's sentences without the seed into the chunk; the text joined by spaces without the seeds is unchanged |
| Chunker.FeedTrimmed | rag_agent/app/ingestion/document_loader.py:116-146 | with overlap, the rest of the loop yields chunks whose text joined by spaces, once each later chunk's seed prefix is cut, is the text still pending |
| Chunker.OverlapReconstruction | rag_agent/app/ingestion/document_loader.py:116-146 | with `overlap_tokens > 0` every chunk after the first begins with the last `overlap_tokens` tokens of the chunk before it, joined by spaces, and a space; with that prefix cut from every later chunk, the chunks joined by spaces equal the sentences joined by spaces |
| Chunker.OverfullBufferEmitted | rag_agent/app/ingestion/document_loader.py:125-126 | a non-empty buffer already over budget is emitted as a chunk by the next sentence or the final flush |
| Chunker.OversizedSentenceUnsplit | rag_agent/app/ingestion/document_loader.py:118-144 | a sentence with more tokens than the budget is never split: some chunk ends with it whole, and without overlap it is a chunk of its own |
| Chunker.ChunkId | rag_agent/app/ingestion/document_loader.py:149-156 | the id, a function of domain, text and index only (never of the file name), starts with `domain + "_"` and its trailing digits parse back to the chunk index |
| Chunker.ChunkIdText | rag_agent/app/ingestion/document_loader.py:154-156 | for one domain and index, two texts get the same id exactly when their SHA-1 digests agree on the first eight characters |
| DocumentLoading.LastDot | rag_agent/app/ingestion/document_loader.py:170 | the result is the position of the last `.`, or -1 when there is none |
| DocumentLoading.Suffix | rag_agent/app/ingestion/document_loader.py:170 | `Path.suffix` is empty or a tail of the name of length at least 2 starting with `.` |
| DocumentLoading.Lower | rag_agent/app/ingestion/document_loader.py:170 | lower-casing keeps the length and maps each ASCII capital to its small letter |
| DocumentLoading.SuffixOfStem | rag_agent/app/ingestion/document_loader.py:170 | a non-empty stem followed by one extension has that extension as suffix |
| DocumentLoading.Kind | rag_agent/app/ingestion/document_loader.py:170-178 | the extension dispatch on the lower-cased `suffix`: `.pdf` is a PDF, `.md` and `.txt` are plain text, anything else is unsupported; its properties are `SuffixOfStem`, `KindUpperCase`, `KindHiddenFile` and `KindLastSuffix`, and `ProcessOutcomes` for the unsupported branch |
| DocumentLoading.ExtractedText | rag_agent/app/ingestion/document_loader.py:171-175 | a PDF whose extracted text strips to nothing falls back to its OCR text; every other file keeps its text; its effect on the records is stated by `ProcessOutcomes` and `RecordsEmptyIff` |
| DocumentLoading.ChunkRecords | rag_agent/app/ingestion/document_loader.py:185-195 | one record per chunk |
| DocumentLoading.ChunkRecordsAt | rag_agent/app/ingestion/document_loader.py:185-195 | record `i` holds chunk `i`, the file name, the domain and the id built from index `i` |
| DocumentLoading.ChunkRecordsFields | rag_agent/app/ingestion/document_loader.py:185-195 | each record carries its chunk, file name and domain, and its id's trailing number is its position |
| DocumentLoading.ProcessResult | rag_agent/app/ingestion/document_loader.py:159-201 | what `process_document` returns and the log it leaves; its properties are `ProcessOutcomes`, `RecordIdsDistinct`, `RecordsEmptyIff`, `SecondCallSkips` and `NoHashingIgnoresLog` |
| DocumentLoading.ProcessOutcomes | rag_agent/app/ingestion/document_loader.py:159-201 | a skip or an unsupported extension returns nothing and leaves the log alone; otherwise there is one record per chunk, numbered 0..n-1, with file name and domain, and the log gets the digest exactly when hashing is on, even when no chunk was produced |
| DocumentLoading.RecordIdsDistinct | rag_agent/app/ingestion/document_loader.py:185-195 | no two records of one document share an id |
| DocumentLoading.RecordsEmptyIff | rag_agent/app/ingestion/document_loader.py:181-195 | a processed file yields records exactly when its normalised text yields a sentence |
| DocumentLoading.SecondCallSkips | rag_agent/app/ingestion/document_loader.py:163-199 | with hashing on, processing the same unchanged file again is a skip that returns nothing |
| DocumentLoading.NoHashingIgnoresLog | rag_agent/app/ingestion/document_loader.py:163-199 | with hashing off the log is neither written nor consulted |
| DocumentLoading.SourceIndices | rag_agent/app/ingestion/document_loader.py:235-241 | the positions of a source are ascending, in range and all hold that source |
| DocumentLoading.IndexMapLookup | rag_agent/app/ingestion/document_loader.py:235-241 | the map sends each source to exactly its ascending positions, and a source is a key exactly when it occurs |
| DocumentLoading.BuildIndexMap | rag_agent/app/ingestion/document_loader.py:235-241 | the loop builds that map |
| DocumentLoading.DeleteDescending | rag_agent/app/ingestion/document_loader.py:250-252 | the `del` loop deletes from the last index down, and raises `IndexError` at the first index past the end |
| DocumentLoading.DeleteSource | rag_agent/app/ingestion/document_loader.py:250-252 | deleting all positions of a source, from the end, removes exactly that source's entries and keeps the rest in order |
| DocumentLoading.FeedFiles | rag_agent/app/ingestion/document_loader.py:243-255 | the file loop of one domain with the map built once, an `IndexError` from `del` ending it; its properties are the lemmas below |
| DocumentLoading.ReplaceAllStale | rag_agent/app/ingestion/document_loader.py:236-255 | the updates as written: each reprocessed file deletes the positions the map built before the loop holds for it, from the end, raising `IndexError` past the end, then appends its records; `FeedFilesIsStale` proves the loop equals it, and `StaleIndexLosesChunks`, `StaleIndexRaises` and `EmptiedFileKeepsChunks` exhibit its failures |
| DocumentLoading.ReplaceAllFresh | rag_agent/app/ingestion/document_loader.py:208-211 | the updates the docstring promises: every reprocessed file loses its old entries and its new records are appended; its properties are `FreshReplacesEveryFile`, `FreshDropsEmptiedFile` and `FreshKeepsBothFiles` |
| DocumentLoading.DomainOutcome | rag_agent/app/ingestion/document_loader.py:223-255 | one domain: a missing or malformed chunk file starts from `[]`, the map is built from it, then the file loop runs |
| DocumentLoading.FirstReplaceIsFresh | rag_agent/app/ingestion/document_loader.py:235-255 | with a map built from the list being updated, the update removes exactly the file's old entries and appends its new ones |
| DocumentLoading.AllUntouched | rag_agent/app/ingestion/document_loader.py:243-247 | when every file is skipped or unsupported, the domain list and the log stay as they were |
| DocumentLoading.SingleFileReplaced | rag_agent/app/ingestion/document_loader.py:235-255 | when only one file of a domain is reprocessed, the list becomes the old list without that file's entries, then its new records |
| DocumentLoading.RecordsIgnoreOtherPaths | rag_agent/app/ingestion/document_loader.py:163-167 | the records of a file do not depend on log entries written for other paths |
| DocumentLoading.NoRecordsKeepsList | rag_agent/app/ingestion/document_loader.py:243-247 | files that all produce no records leave the list unchanged, whatever the map holds |
| DocumentLoading.OneFileYieldsChunks | rag_agent/app/ingestion/document_loader.py:235-255 | when exactly one file yields records (the others skipped, unsupported or reprocessed into nothing), the list becomes the old list without that file's entries, then its new records |
| DocumentLoading.FeedKeepsOtherPaths | rag_agent/app/ingestion/document_loader.py:243-255 | log entries of paths not in the domain are kept |
| DocumentLoading.FeedRecordsFiles | rag_agent/app/ingestion/document_loader.py:197-199 | after a domain run with hashing that completes, every file of the domain is either unsupported or logged with its current digest |
| DocumentLoading.SecondRunUnchanged | rag_agent/app/ingestion/document_loader.py:224-255 | with hashing on, running a domain again over its own output and log changes nothing |
| DocumentLoading.DeletePair | rag_agent/app/ingestion/document_loader.py:251-252 | deleting positions `[i, i+1]` from the end removes exactly those two entries |
| DocumentLoading.FeedFilesIsStale | rag_agent/app/ingestion/document_loader.py:235-255 | the domain loop changes the list exactly as `ReplaceAllStale` does over its reprocessed files and their records, so the counterexamples below are runs of `process_all` |
| DocumentLoading.StaleIndexLosesChunks | rag_agent/app/ingestion/document_loader.py:235-255 | as written: `[a0,a1,b0,b1]` with `a.txt` then `b.txt` reprocessed ends as `[b0,b1,b0',b1']` |
| DocumentLoading.StaleIndexRaises | rag_agent/app/ingestion/document_loader.py:235-255 | as written: when `a.txt` shrinks from two chunks to one, the stale position of `b.txt` raises `IndexError` |
| DocumentLoading.EmptiedFileKeepsChunks | rag_agent/app/ingestion/document_loader.py:243-247 | as written: with hashing on, a changed file that now yields no chunks leaves the list unchanged, its old entries included, while its new digest is logged; a second run then changes nothing, so the stale entries stay |
| DocumentLoading.FreshReplacesEveryFile | rag_agent/app/ingestion/document_loader.py:208-211 | corrected: for any number of reprocessed files with distinct names, whether or not they yield records, the result is the old list without any of their entries, followed by all new records in processing order |
| DocumentLoading.FreshDropsEmptiedFile | rag_agent/app/ingestion/document_loader.py:208-211 | corrected: a reprocessed file that yields no records loses its old entries |
| DocumentLoading.FreshKeepsBothFiles | rag_agent/app/ingestion/document_loader.py:249-255 | corrected: the input of the as-written counterexample ends as `[a0',a1',b0',b1']` |
| DocumentLoading.RunDomainsNames | rag_agent/app/ingestion/document_loader.py:217-261 | chunk files are written, as `<domain>_chunks.json`, for a prefix of the domain directories in listing order (a domain that raises stops the run) |
| DocumentLoading.RunDomainsLog | rag_agent/app/ingestion/document_loader.py:217-266 | the log file is written, holding the final log, exactly when every domain completed without raising |
| DocumentLoading.RunDomains | rag_agent/app/ingestion/document_loader.py:217-266 | the domain loop of `process_all`: chunk files written per directory, stopping at the first `IndexError`, and the log file written only when every domain completed |
| DocumentLoading.ProcessAllOutcome | rag_agent/app/ingestion/document_loader.py:204-266 | `process_all`: nothing is written and the log is unchanged when the raw directory is missing, otherwise the domain loop `RunDomains`; its properties are `RunDomainsNames`, `RunDomainsLog` and `RunDomainsSaves`, and `DocumentLoader.ProcessAll` is proved equal to it |
| DocumentLoading.RunDomainsSaves | rag_agent/app/ingestion/document_loader.py:204-266 | both of the above for one run of `process_all` |
| DocumentLoading.BuildRecords | rag_agent/app/ingestion/document_loader.py:185-195 | the `enumerate` loop builds `ChunkRecords` |
| DocumentLoading.DocumentLoader.constructor | rag_agent/app/ingestion/document_loader.py:65-70 | the log is the stored log file's contents, or empty when there is none |
| DocumentLoading.DocumentLoader.ProcessDocument | rag_agent/app/ingestion/document_loader.py:159-201 | returns the records of `ProcessResult`, and the new `process_log` is the log it describes |
| DocumentLoading.DocumentLoader.ProcessDomain | rag_agent/app/ingestion/document_loader.py:224-255 | the domain loop, with its map built once, yields the list (or `IndexError`) and the log of `DomainOutcome` |
| DocumentLoading.DocumentLoader.ProcessAll | rag_agent/app/ingestion/document_loader.py:204-266 | the chunk files, log file and in-memory log are those of `ProcessAllOutcome`; nothing is written when the raw directory is missing |
| Embeddings.RemoveAll | rag_agent/app/ingestion/create_embeddings.py:30 | `str.replace(pat, "")` never lengthens the string |
| Embeddings.RemoveAllAppended | rag_agent/app/ingestion/create_embeddings.py:30 | removing the pattern from `d + pat` gives `d` back when `d` does not contain it |
| Embeddings.DomainOfChunkFile | rag_agent/app/ingestion/create_embeddings.py:29-30 | the domain read from `<domain>_chunks.json` is the domain the loader wrote it for, unless the domain contains `_chunks.json` |
| Embeddings.EntryOf | rag_agent/app/ingestion/create_embeddings.py:41-53 | an item is dropped exactly when its stripped text is empty; otherwise the entry has the stripped text, the item's id or the MD5 of the text, the source or "unknown", the chunk index or -1, and the file's domain |
| Embeddings.Collected | rag_agent/app/ingestion/create_embeddings.py:40-57 | the entries of the item loop; never more entries than items, and its properties are `CollectedWellFormed`, `CollectedKeepsAll` and `CollectedEmptyIff` |
| Embeddings.CollectedWellFormed | rag_agent/app/ingestion/create_embeddings.py:40-57 | every collected text is non-empty and stripped, and every entry is tagged with the domain |
| Embeddings.CollectedKeepsAll | rag_agent/app/ingestion/create_embeddings.py:40-57 | with no blank item, each item gives exactly its entry, in order |
| Embeddings.CollectedEmptyIff | rag_agent/app/ingestion/create_embeddings.py:40-57 | nothing is collected exactly when every item is blank |
| Embeddings.Dedup | rag_agent/app/ingestion/create_embeddings.py:61-69 | first occurrence of each id, in input order; never longer than its input, and its properties are the `Dedup*` lemmas |
| Embeddings.DedupIdSet | rag_agent/app/ingestion/create_embeddings.py:61-69 | de-duplication loses no id |
| Embeddings.DedupDistinct | rag_agent/app/ingestion/create_embeddings.py:61-69 | the kept ids are pairwise distinct |
| Embeddings.DedupSubsequence | rag_agent/app/ingestion/create_embeddings.py:61-69 | the kept entries keep the input order |
| Embeddings.DedupFirst | rag_agent/app/ingestion/create_embeddings.py:61-69 | each kept entry is the first occurrence of its id, with that occurrence's text and metadata |
| Embeddings.DedupOfDistinct | rag_agent/app/ingestion/create_embeddings.py:61-69 | input with distinct ids passes unchanged |
| Embeddings.BatchesFlatten | rag_agent/app/ingestion/create_embeddings.py:76-77 | the batches laid end to end are the texts: every index lies in exactly one batch, in order |
| Embeddings.BatchesAtStarts | rag_agent/app/ingestion/create_embeddings.py:76-77 | batch `k` is `chunks[i:i + batch_size]` for the `k`-th value `i` of `range(0, len(chunks), batch_size)` |
| Embeddings.BatchShapes | rag_agent/app/ingestion/create_embeddings.py:76-77 | each batch is non-empty and at most `batch_size` long, and only the last may be shorter |
| Embeddings.EncodeAllCount | rag_agent/app/ingestion/create_embeddings.py:78-84 | an encoder giving one vector per text gives one vector per batched text |
| Embeddings.Embedded | rag_agent/app/ingestion/create_embeddings.py:76-84 | the loop raises `ValueError` exactly for batch size 0 and embeds nothing for a negative one |
| Embeddings.EmbeddedCount | rag_agent/app/ingestion/create_embeddings.py:73-84 | with a positive batch size there is exactly one vector per text |
| Embeddings.Records | rag_agent/app/ingestion/create_embeddings.py:89-96 | the zip is as long as the shorter of entries and vectors |
| Embeddings.FileResult | rag_agent/app/ingestion/create_embeddings.py:28-101 | one chunk file: domain, collected entries, de-duplication, embedding and output records, or `ValueError` for batch size 0 |
| Embeddings.FileRecordsDistinct | rag_agent/app/ingestion/create_embeddings.py:28-101 | a chunk file fails exactly for batch size 0; otherwise it is written to `<domain>_embeddings.json` with pairwise distinct ids, each record being the first occurrence of its id among the non-blank items |
| Embeddings.OneRecordPerChunk | rag_agent/app/ingestion/create_embeddings.py:61-96 | with one vector per text and a positive batch size, every de-duplicated chunk gets exactly one record, in order, with its id, text and metadata |
| Embeddings.NegativeBatchSizeWritesNothing | rag_agent/app/ingestion/create_embeddings.py:76-99 | a negative batch size writes the file with no records |
| Embeddings.LoaderChunksGetHashIds | rag_agent/app/ingestion/create_embeddings.py:45-51 | a chunk file written by the loader (`chunk_id`, no `chunk_index`) gives every entry the MD5 of its text as id and -1 as index |
| Embeddings.LoaderChunksDedupByText | rag_agent/app/ingestion/create_embeddings.py:45-69 | hence de-duplication of loader chunks is by text: the kept texts are pairwise distinct |
| Embeddings.ChunkFiles | rag_agent/app/ingestion/create_embeddings.py:107 | only names matching `*_chunks.json` are processed |
| Embeddings.WriteAllOutcome | rag_agent/app/ingestion/create_embeddings.py:114-115 | the file loop fails exactly for batch size 0, and otherwise writes one output per domain |
| Embeddings.PipelineOutcome | rag_agent/app/ingestion/create_embeddings.py:106-115 | `run_pipeline` raises `ValueError` exactly when no chunk file matches or the batch size is 0, and otherwise writes one embeddings file per matching chunk file's domain |
| Embeddings.PipelineResult | rag_agent/app/ingestion/create_embeddings.py:106-115 | `run_pipeline`: `ValueError` when the glob finds no chunk file, otherwise `process_file` on each file in order; its properties are `PipelineOutcome` and `WriteAllOutcome`, and `ChunkVectorizer.RunPipeline` is proved equal to it |
| Embeddings.ChunkVectorizer.constructor | rag_agent/app/ingestion/create_embeddings.py:11-23 | stores the batch size and the collaborators |
| Embeddings.ChunkVectorizer.CollectEntries | rag_agent/app/ingestion/create_embeddings.py:40-57 | the item loop builds `Collected` |
| Embeddings.ChunkVectorizer.UniqueById | rag_agent/app/ingestion/create_embeddings.py:62-65 | the dict's keys are the input ids, listed in first-occurrence order, each mapped to its first entry's text and metadata |
| Embeddings.ChunkVectorizer.Deduplicate | rag_agent/app/ingestion/create_embeddings.py:61-69 | the dict read back in insertion order is `Dedup` |
| Embeddings.ChunkVectorizer.EmbedTexts | rag_agent/app/ingestion/create_embeddings.py:73-84 | the batch loop gives `Embedded` |
| Embeddings.ChunkVectorizer.BuildOutput | rag_agent/app/ingestion/create_embeddings.py:89-96 | the output loop gives `Records` |
| Embeddings.ChunkVectorizer.ProcessFile | rag_agent/app/ingestion/create_embeddings.py:28-101 | `process_file` gives `FileResult` |
| Embeddings.ChunkVectorizer.RunPipeline | rag_agent/app/ingestion/create_embeddings.py:106-115 | `run_pipeline` gives `PipelineResult` |
| VectorStore.FileRows | rag_agent/app/ingestion/store_embeddings.py:35-39 | one row per item, with id, text, metadata (absent as `{}`) and vector |
| VectorStore.EmbeddingsFiles | rag_agent/app/ingestion/store_embeddings.py:26 | only names matching `*_embeddings.json` are loaded |
| VectorStore.LoadedRowsCount | rag_agent/app/ingestion/store_embeddings.py:31-39 | one row per record of every file |
| VectorStore.PresentIff | rag_agent/app/ingestion/store_embeddings.py:51-55 | the ids reported are exactly the candidates the store holds |
| VectorStore.PresentAppend | rag_agent/app/ingestion/store_embeddings.py:48-55 | asking batch by batch reports the same ids as asking all at once |
| VectorStore.InsertedAppend | rag_agent/app/ingestion/store_embeddings.py:89-95 | adding in batches equals adding all at once |
| VectorStore.InsertedKeys | rag_agent/app/ingestion/store_embeddings.py:89-95 | adding keeps every stored record and stores every new id |
| VectorStore.InsertedFirst | rag_agent/app/ingestion/store_embeddings.py:89-95 | a new id is stored with the first row carrying it |
| VectorStore.Inserted | rag_agent/app/ingestion/store_embeddings.py:89-95 | `collection.add` of the rows in order: an id not yet stored is stored with its row, a stored id keeps its record; its properties are `InsertedAppend`, `InsertedKeys` and `InsertedFirst`, and `Collection.Add` and `ChromaIngestor.AddInBatches` are proved equal to it |
| VectorStore.KeepNew | rag_agent/app/ingestion/store_embeddings.py:63-67 | the rows whose id is not already stored, in order; never longer than its input |
| VectorStore.Filtered | rag_agent/app/ingestion/store_embeddings.py:42-73 | `_filter_existing_ids`: the rows whose id the store does not already hold, in order; its properties are `PresentIff`, `PresentAppend` and the `KeepNew*` lemmas, and `ChromaIngestor.FilterExistingIds` is proved equal to it |
| VectorStore.KeepNewOrder | rag_agent/app/ingestion/store_embeddings.py:63-67 | the kept rows keep their order |
| VectorStore.KeepNewOnlyNew | rag_agent/app/ingestion/store_embeddings.py:63-67 | no kept row has an existing id |
| VectorStore.KeepNewCount | rag_agent/app/ingestion/store_embeddings.py:63-67 | a row with a new id is kept as often as it occurs, and a row with an existing id never |
| VectorStore.KeepNewNone | rag_agent/app/ingestion/store_embeddings.py:57-59 | nothing existing: the rows pass unchanged |
| VectorStore.KeepNewAll | rag_agent/app/ingestion/store_embeddings.py:69-71 | everything existing: no row is left |
| VectorStore.DuplicatesSurviveFilter | rag_agent/app/ingestion/store_embeddings.py:63-67 | filtering removes only stored ids: two loaded rows with the same new id both survive |
| VectorStore.Ingested | rag_agent/app/ingestion/store_embeddings.py:75-96 | `ingest`: filter the rows against the store, then add the rest in batches, `ValueError` when something remains and the batch size is 0 |
| VectorStore.IngestRaises | rag_agent/app/ingestion/store_embeddings.py:75-95 | `ingest` raises exactly when something is new and the batch size is 0 |
| VectorStore.IngestStoresEveryId | rag_agent/app/ingestion/store_embeddings.py:75-95 | with a positive batch size the store afterwards holds exactly the old ids plus the loaded ones, and no stored record is replaced |
| VectorStore.SecondIngestAddsNothing | rag_agent/app/ingestion/store_embeddings.py:75-95 | ingesting the same records again adds nothing and leaves the lists empty (idempotence) |
| VectorStore.Collection.constructor | rag_agent/app/ingestion/store_embeddings.py:18 | the collection starts with the given records |
| VectorStore.Collection.Add | rag_agent/app/ingestion/store_embeddings.py:90-95 | one batch is inserted as by `Inserted` |
| VectorStore.ChromaIngestor.Rows | rag_agent/app/ingestion/store_embeddings.py:20-23 | row `k` is position `k` of the four lists |
| VectorStore.ChromaIngestor.constructor | rag_agent/app/ingestion/store_embeddings.py:8-23 | the four lists start empty and aligned |
| VectorStore.ChromaIngestor.Append | rag_agent/app/ingestion/store_embeddings.py:36-39 | one record is appended to all four lists |
| VectorStore.ChromaIngestor.LoadFile | rag_agent/app/ingestion/store_embeddings.py:35-39 | a file's records are appended in order, lists aligned |
| VectorStore.ChromaIngestor.LoadAllJson | rag_agent/app/ingestion/store_embeddings.py:25-40 | `ValueError` with the lists unchanged exactly when no file matches; otherwise every record of every file is appended in order and the lists stay aligned |
| VectorStore.ChromaIngestor.ExistingIds | rag_agent/app/ingestion/store_embeddings.py:48-55 | the set built over 1000-id batches is exactly the set of candidate ids the store holds |
| VectorStore.ChromaIngestor.NewData | rag_agent/app/ingestion/store_embeddings.py:63-67 | the comprehension gives `KeepNew` |
| VectorStore.ChromaIngestor.FilterExistingIds | rag_agent/app/ingestion/store_embeddings.py:42-73 | the lists become the rows whose id the store lacks, in order, still aligned |
| VectorStore.ChromaIngestor.SetRows | rag_agent/app/ingestion/store_embeddings.py:73 | the unzip gives back the rows, aligned |
| VectorStore.ChromaIngestor.AddInBatches | rag_agent/app/ingestion/store_embeddings.py:89-95 | the batch loop adds the rows as `Inserted` does |
| VectorStore.ChromaIngestor.Ingest | rag_agent/app/ingestion/store_embeddings.py:75-96 | the outcome, the store and the lists are those of `Ingested` |
| Retrieval.Retrieve | rag_agent/app/prompt/retriever.py:30-51 | `retrieve`: every returned document, unfiltered, joined by newlines |
| Retrieval.FilteredContext | rag_agent/app/prompt/retriever.py:53-73 | `retrieve_v2`: the close documents, or the fallback; its properties are `RetrieveV2Outcomes` and the `CloseHits*` lemmas |
| Retrieval.CloseHitsOrder | rag_agent/app/prompt/retriever.py:59-63 | the close hits keep the search order |
| Retrieval.CloseHitsCount | rag_agent/app/prompt/retriever.py:59-63 | a hit is kept exactly when its distance is below 1.15, as often as it was returned |
| Retrieval.CloseHitsEmptyIff | rag_agent/app/prompt/retriever.py:59-67 | nothing is kept exactly when every distance is at least 1.15 |
| Retrieval.CloseHitsAll | rag_agent/app/prompt/retriever.py:59-63 | when every hit is close all are kept |
| Retrieval.RetrieveV2Outcomes | rag_agent/app/prompt/retriever.py:53-69 | a close hit rules out the fallback; otherwise the nearest document is returned below 1.6, the empty string from 1.6 on, and an empty result raises `IndexError` |
| Retrieval.ThresholdExamples | rag_agent/app/prompt/retriever.py:53-69 | distances `[0.9, 1.2, 1.3]` keep only the first document; `[1.3, 1.4]` fall back to the first; `[1.8, 1.9]` give the empty context |
| Retrieval.AllCloseIsRetrieve | rag_agent/app/prompt/retriever.py:30-73 | when every hit is close, `retrieve_v2` returns what `retrieve` returns |
| Retrieval.ContextSplitsBack | rag_agent/app/prompt/retriever.py:69 | when no document contains a newline, splitting the context at newlines gives the kept documents back |
| Retrieval.RetrieveSplitsBack | rag_agent/app/prompt/retriever.py:49-51 | likewise for `retrieve` and every returned document |
| Retrieval.RetrieveV2 | rag_agent/app/prompt/retriever.py:53-73 | the loop and the fallback give `FilteredContext` |
| Prompting.FullPrompt | rag_agent/app/prompt/prompter.py:17-29 | `Prompter.prompt`'s string; its properties are `PromptFrame`, `ContextRoundTrip`, `ContextHeaderShown` and `PrePromptHasNoContextHeader` |
| Prompting.PromptFrame | rag_agent/app/prompt/prompter.py:17-29 | every prompt starts with `pre_prompt` and ends with `"\n\nQUESTION: " + query` |
| Prompting.ContextRoundTrip | rag_agent/app/prompt/prompter.py:22-29 | the context block is present exactly when the context is truthy, and it holds the context unchanged |
| Prompting.ContextHeaderShown | rag_agent/app/prompt/prompter.py:22-27 | `"CONTEXT:\n"` occurs in the prompt whenever the context is non-empty |
| Prompting.PrePromptHasNoContextHeader | rag_agent/app/prompt/prompter.py:12-14 | the fixed instruction itself contains no `"CONTEXT:\n"` |

## Left out

- File I/O: reading files and directories, JSON load and dump, creating directories, and `print`/`tqdm` output. Directory listings, file contents and parsed JSON are inputs. A missing, malformed or non-list chunk file is `None`, which the loader treats as the empty list.
- Text extraction: `pdf_to_text` and `pdf_to_text_ocr` (pdfplumber, pdf2image, tesseract). Each file carries its extracted text and its OCR text as inputs. Their internal error handling is not modelled.
- Hashing: SHA-256 of file contents (`compute_file_hash`) is an input per file. SHA-1 and MD5 hex digests are function parameters; only the 8-character prefix of SHA-1 is used structurally.
- NLTK: `sent_tokenize` is a function parameter returning `None` when the punkt model is missing. The download at import time is not modelled.
- Encoder: SentenceTransformer encoding and normalisation are a function parameter from texts to vectors. Vectors are `seq<real>`, with no floating-point behaviour.
- Chroma:
  - Persistence, clients and backend limits are left out.
  - The error Chroma raises for an id repeated within one `add` batch is left out. The model's `Inserted` keeps the first record for an id already present.
  - `get` is modelled as reporting exactly the requested ids it holds.
- Retrieval inputs: query embedding, `top_k`, `metadata_filter` and the store query are not modelled. The search result arrives as the list of (document, distance) hits, nearest first. Distances are reals compared only with `<`.
- `Prompter`: the Gemini call (`prompter.py:31-35`) and module-level client setup. Only the prompt string is modelled.
- Order of listings: `iterdir()` and `glob()` order is whatever the given listing says.
- `str.lower()` is modelled on ASCII letters only, which is enough for the extensions compared against.
- `str.splitlines()` is modelled as a split at every line-break character. For `\r\n` this gives an extra empty piece, which `normalize_text` drops, so its result is the same.
- `chunk_size` of `DocumentLoader.__init__` is stored but never used, so it is not modelled.
- Python's `KeyError` on a missing `"id"`, `"text"` or `"embedding"` key in `load_all_json` is not modelled: the items are given with those fields.
- No lower bound on chunk token counts is stated: the first chunk closes as soon as the next sentence overflows, so a one-token sentence followed by an oversized one gives a one-token chunk, fewer tokens than `overlap_tokens`.
- Prompting.ContextHeaderShown: proves only that `"CONTEXT:\n"` appears when the context is non-empty. The converse is not stated: the query and the context themselves may contain that text.

## Findings

| source | as written | input that shows it | evidently intended | confidence | as-written member | corrected member |
|---|---|---|---|---|---|---|
| rag_agent/app/ingestion/document_loader.py:235-255 | the source→positions map is built once per domain, and later deletions use its positions although earlier deletions and appends have shifted the list | old list `[a0,a1,b0,b1]`, `a.txt` then `b.txt` reprocessed into two chunks each: the result is `[b0,b1,b0',b1']`, losing `a0',a1'` and keeping the old `b0,b1`; if `a.txt` shrinks to one chunk over `[a0,a1,b0]`, the run raises `IndexError` and no file is saved | each reprocessed file's old entries are removed by source and its new records appended, leaving other files' entries in order | high (not executed) | DocumentLoading.StaleIndexLosesChunks | DocumentLoading.FreshReplacesEveryFile |
| rag_agent/app/ingestion/document_loader.py:243-247 | a reprocessed file whose new text yields no chunks returns `[]`, which the loop treats like a skipped file, so its old entries stay, while `process_document` has already logged its new digest (lines 197-199) | hashing on, `a.txt` with entries `[a0,a1]` edited to contain no text (or a scanned PDF whose OCR yields nothing): the list stays `[a0,a1]`, the log holds the new digest, and every later run skips the file, so the stale chunks are never removed | old chunks of an updated file are removed (docstring, lines 208-211) even when it yields no new chunks | medium (not executed) | DocumentLoading.EmptiedFileKeepsChunks | DocumentLoading.FreshDropsEmptiedFile |

`DocumentLoading.ReplaceAllStale` models the update as written, and `DocumentLoading.FeedFilesIsStale` shows that the domain loop of `process_all` performs exactly that update on its reprocessed files. `DocumentLoading.StaleIndexRaises` exhibits the `IndexError` case. `DocumentLoading.ReplaceAllFresh` is the corrected update: it drops every reprocessed file's entries and appends its new records. `DocumentLoading.FreshKeepsBothFiles` shows it on the first row's input. `DocumentLoader.ProcessDomain` keeps the source's behaviour. When exactly one file yields records and no other file is reprocessed, the loop already does the corrected update (`DocumentLoading.FirstReplaceIsFresh`, `DocumentLoading.SingleFileReplaced`).
