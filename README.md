# Interview bot backend: document ingestion and retrieval

This project models the core of the interview bot's Python backend. The backend stores documents as embedded chunks in a vector index and answers questions from them:

- **Chunker.** Normalises text and cuts it into overlapping fixed-size windows, each with a deterministic id, number and offsets. It also computes statistics over a chunk list.
- **Fingerprint and titles.** A document id is the first 16 lower-case hex digits of the SHA-256 digest of the text's UTF-8 bytes. Titles are extracted from the first line.
- **Settings.** The defaults, and the comma-separated CORS origin list.
- **Vector repository.** Upsert, filtered similarity query, existence check, filtered delete, delete-all, interview-flag clearing and setting, and the per-document listing.
- **Document handler.** Upload (duplicate refusal, interview-flag clearing, chunking, embedding, upsert), listing, deletion and delete-all against the store.
- **Chat handler.** Retrieval for one document, or two-stage retrieval (top 3 → their documents → all their chunks → stable re-sort → top 5). It then builds the context and the source list, and asks the language model.
- **Services.** Input checks and response shaping in front of the handlers, and pagination of the document list.
- **LLM and embedding services.** System prompt, message lists and the context block. Embedding input checks, order-preserving batching and the dimension table.

Three stand-ins replace the outside world:

- The Pinecone index is a map from vector id to values and metadata, held in a `VectorRepository` object whose methods change it.
- Similarity scores come from a scoring function the repository is built with.
- The OpenAI endpoints are functions the services are built with. Each answers with a value or with the error it raised.

Objects the source mutates are classes:

- `VectorRepository` holds the index.
- `DocumentHandler` and `ChatHandler` hold the repository.
- `DocumentService` and `ChatService` hold a handler.

The chunker, embedding and LLM services never change after construction, so they are datatypes. A constructor that raises is a function returning `Result`.

Each loop of the source is a method with invariants, proved equal to a specification function. The loops are:

- the cleaning and window loops of `chunk_text`;
- the batch loop of `embed_batch`;
- the grouping loop of `list_unique_documents`;
- the flag-update loops;
- the Stage-1, Stage-2 and source loops of `handle_chat`;
- the context and message-list loops of the LLM service.

The properties are proved as lemmas about those functions.

A few behaviours one might expect of this backend are not what the code does; the model follows the code:

- Uploading a document whose id is already stored raises "Document already uploaded". It is not an idempotent upload that returns the existing id.
- Deleting an id that is not stored raises "Document not found". It is not a no-op.
- Re-ranking is a stable sort on score alone, so equal scores keep pool order. There is no tie-break on chunk number or document id.
- The chunk window defaults are 1000 and 200 characters (`backend/config.py`, lines 27-28), not 2000 and 300.
- Stage 2 visits the document ids of a Python `set`, in an unspecified order. Their order is not preserved.
- The chunker works on the normalised text and emits windows while `start < len(text)`. A trailing chunk can therefore lie wholly inside the previous window's overlap (`Chunking.TrailingChunkInsideOverlap`). The loop does not stop once a window reaches the end, and the chunks do not reconstruct the raw text.
- No compensating deletes, retries or timeouts exist. A flag clearing done before a failed upload stays done (`DocumentHandling.DocumentHandler.UploadOutcome`).
- There is no separate document store. Titles and flags live in vector metadata.

## Model

| member | source | states |
|---|---|---|
| HashUtils.HexEncode | backend/utils/hash_utils.py:9 | `hexdigest()` gives two lower-case hex digits per byte |
| HashUtils.HexRoundTrip | backend/utils/hash_utils.py:9 | decoding the hex digest gives the digest bytes back, so the encoding loses nothing |
| HashUtils.ComputeFileHash | backend/utils/hash_utils.py:6-9 | a document id is exactly 16 characters, all lower-case hex digits |
| HashUtils.FileHashIsEightBytes | backend/utils/hash_utils.py:9 | the 16-character id is the hex encoding, high nibble first, of the first 8 digest bytes, and those bytes can be read back from it |
| HashUtils.DocumentIdOf | backend/utils/hash_utils.py:6-9 | the id of a text is 16 characters long and is taken from the digest of the text's UTF-8 bytes |
| HashUtils.TitleLine | backend/utils/hash_utils.py:15-18 | the processed first line has no surrounding whitespace and no newline |
| HashUtils.ShortenTitle | backend/utils/hash_utils.py:21-26 | a line longer than `max_length` becomes its first `max_length` characters plus `...`, a shorter non-empty line stays as it is, an empty one becomes `Untitled Document`; never empty, never a newline |
| HashUtils.ExtractTitle | backend/utils/hash_utils.py:12-28 | `extract_title_from_content` is the truncation rule above applied to the processed first line |
| HashUtils.ExtractTitleDefault | backend/utils/hash_utils.py:12 | with the default limit of 50 a title has 1 to 53 characters |
| Config.DefaultSettings | backend/config.py:16-35 | without overrides the window is 1000 characters with 200 of overlap and the size limit is 5 MiB |
| Config.CorsOriginsList | backend/config.py:42-44 | one origin per comma-separated field, each stripped and free of commas |
| Config.CorsOriginsListFields | backend/config.py:44 | there are as many origins as commas plus one, origin `i` is field `i` stripped, and the fields joined by commas are the setting again |
| Config.DefaultCorsOrigins | backend/config.py:42-44 | the default setting at line 24 yields exactly `["http://localhost:3000"]` |
| Config.DefaultChunkingAccepted | backend/config.py:27-28 | the default window settings pass the chunker's check and give a step of 800 |
| Chunking.CollapseSpaces | backend/utils/chunking_service.py:73-74 | after the space loop no `"  "` is left |
| Chunking.CollapseNewlines | backend/utils/chunking_service.py:77-78 | after the newline loop no `"\n\n\n"` is left |
| Chunking.CleanText | backend/utils/chunking_service.py:67-80 | the two rewrite loops terminate and `_clean_text` computes `Cleaned` |
| Chunking.StripLinesShape | backend/utils/chunking_service.py:70 | after stripping every line no whitespace touches a line break and none is at either end |
| Chunking.CollapsedShape | backend/utils/chunking_service.py:73-78 | the two loops keep line breaks unpadded and leave no double space and no triple newline |
| Chunking.CleanedShape | backend/utils/chunking_service.py:70-80 | cleaned text has no `"  "`, no `"\n\n\n"`, no whitespace at either end, and no line with surrounding whitespace |
| Chunking.CleanedIdempotent | backend/utils/chunking_service.py:67-80 | cleaning twice is cleaning once |
| Chunking.NewChunkingService | backend/utils/chunking_service.py:11-17 | construction fails with ValueError exactly when `chunk_overlap >= chunk_size`, and otherwise keeps both values |
| Chunking.Step | backend/utils/chunking_service.py:58 | `start` moves forward by a positive step on each turn |
| Chunking.ChunkIdInjective | backend/utils/chunking_service.py:44 | two chunk ids of one session are equal only for the same chunk number |
| Chunking.WindowEnd | backend/utils/chunking_service.py:36 | the window `text[start:end]` ends inside the text and is at most `chunk_size` long |
| Chunking.WindowBlank | backend/utils/chunking_service.py:39-40 | the loop's `not chunk_text.strip()` test holds exactly when every character of the window is whitespace |
| Chunking.ChunksAt | backend/utils/chunking_service.py:43-55 | one chunk per visited window start |
| Chunking.StartsEmit | backend/utils/chunking_service.py:31-40 | every window start the loop visits lies inside the text and has a window that is not all whitespace |
| Chunking.StartsCons | backend/utils/chunking_service.py:58-59 | after emitting at `start` the loop continues at `start + chunk_size - chunk_overlap` |
| Chunking.ChunksAtSnoc | backend/utils/chunking_service.py:55 | appending a window start appends the chunk built there, numbered by its position |
| Chunking.LoopTurn | backend/utils/chunking_service.py:33-59 | one turn of the window loop appends the chunk at `start` and moves to the next window start |
| Chunking.ChunkWindows | backend/utils/chunking_service.py:27-65 | the window loop returns every chunk of `WindowsSpec`, or raises once the count passes 10,000 |
| Chunking.ChunkTextSpec | backend/utils/chunking_service.py:19-65 | an empty cleaned text gives no chunks; the call fails exactly when more than 10,000 windows would be emitted; a success has one chunk per emitted window and at most 10,000 |
| Chunking.ChunkText | backend/utils/chunking_service.py:19-65 | `chunk_text` (clean, then the window loop) returns or raises what `ChunkTextSpec` says |
| Chunking.StartsAt | backend/utils/chunking_service.py:58-59 | the `j`-th window starts `j` steps after the first |
| Chunking.WindowFields | backend/utils/chunking_service.py:31-59 | on cleaned text, chunk `j` has the fields listed for `ChunkFields` |
| Chunking.ChunkFields | backend/utils/chunking_service.py:28-59 | chunk `j` has number `j` and id `"{session_id}_chunk_{j}"`; its start is `j·(chunk_size − chunk_overlap)`, inside the text, and its end is `start + chunk_size`, unclipped; `total_chars` is the clipped window length; its text is the stripped window, non-empty and at most `chunk_size` long |
| Chunking.StartsStop | backend/utils/chunking_service.py:31-40 | the loop stops at the first window start that lies past the text or whose window is all whitespace |
| Chunking.TrailingChunkInsideOverlap | backend/utils/chunking_service.py:31-59 | a cleaned text longer than one step but no longer than one window (and at most two steps) gives two chunks, the second lying wholly inside the first window |
| Chunking.Min | backend/utils/chunking_service.py:99 | `min` is a member of the sizes and no larger than any |
| Chunking.Max | backend/utils/chunking_service.py:100 | `max` is a member of the sizes and no smaller than any |
| Chunking.SumBetween | backend/utils/chunking_service.py:97-100 | the total lies between count × minimum and count × maximum |
| Chunking.FloorDivBetween | backend/utils/chunking_service.py:98 | floor division by the count keeps such a total between minimum and maximum |
| Chunking.GetChunkStats | backend/utils/chunking_service.py:82-101 | no chunks gives all zeros; otherwise the count and the total length are reported, `min ≤ avg ≤ max`, every chunk lies between min and max, and both are reached |
| Repository.DocumentIdOf | backend/repositories/vector_repository.py:89-90 | a document id counts only when it is present and non-empty |
| Repository.Zero | backend/repositories/vector_repository.py:81 | the dummy query vector has the index dimension |
| Repository.MatchingIds | backend/repositories/vector_repository.py:59-64 | the candidates of a query are exactly the stored vectors that satisfy the filter |
| Repository.MatchOf | backend/repositories/vector_repository.py:66-72 | a result carries the vector's id and metadata, with `text` taken from the metadata or `""` when absent |
| Repository.WithFlag | backend/repositories/vector_repository.py:145-148 | a flag update changes only `is_interview`; values and every other metadata key stay |
| Repository.UpsertedLookup | backend/repositories/vector_repository.py:39 | upsert keeps every stored id and adds the batch's ids; each id of the batch holds its last vector in the batch; every other record stays |
| Repository.VectorRepository.constructor | backend/repositories/vector_repository.py:10-16 | the repository is connected to an index with the given contents, dimension and scoring |
| Repository.VectorRepository.UpsertVectors | backend/repositories/vector_repository.py:29-40 | the index becomes the upsert of the vectors, and their count is returned |
| Repository.VectorRepository.QueryVectors | backend/repositories/vector_repository.py:42-74 | returns `min(top_k, #matching)` distinct filter-satisfying vectors, best first, none left out scoring above a returned one |
| Repository.AnswerSatisfies | backend/repositories/vector_repository.py:59-74 | every query answer has at most `top_k` results, each satisfying the filter, best score first |
| Repository.QueryCoversMatches | backend/repositories/vector_repository.py:59-64 | a query whose `top_k` reaches the number of matching vectors returns all of them |
| Repository.VectorRepository.DeleteByFilter | backend/repositories/vector_repository.py:102-109 | removes exactly the vectors that satisfy the filter and leaves the others as they were |
| Repository.VectorRepository.DeleteAll | backend/repositories/vector_repository.py:111-113 | the index is empty afterwards |
| Repository.VectorRepository.CheckExists | backend/repositories/vector_repository.py:115-130 | true exactly when some stored vector satisfies the filter |
| Repository.VectorRepository.SetFlags | backend/repositories/vector_repository.py:143-148 | the flag is set on every returned vector and nothing else changes |
| Repository.VectorRepository.ClearInterviewFlags | backend/repositories/vector_repository.py:132-148 | up to 10,000 flagged vectors are unflagged and nothing else changes; with at most 10,000 flagged, none is flagged afterwards |
| Repository.VectorRepository.SetInterviewFlag | backend/repositories/vector_repository.py:150-166 | up to 10,000 vectors of the document get the new flag value; no other vector changes |
| Repository.VectorRepository.ListUniqueDocuments | backend/repositories/vector_repository.py:76-100 | the listing is `GroupByDocument` of an answer to the unfiltered 10,000-result dummy query |
| Repository.GroupResults | backend/repositories/vector_repository.py:86-100 | the `documents_map` loop returns `GroupByDocument` of the results |
| Repository.EntriesOf | backend/repositories/vector_repository.py:87-98 | the map holds exactly the listed documents |
| Repository.GroupByDocument | backend/repositories/vector_repository.py:100 | one entry per listed document id |
| Repository.EntriesSnocSkip | backend/repositories/vector_repository.py:89-90 | a result without a document id changes nothing |
| Repository.EntriesSnocSeen | backend/repositories/vector_repository.py:97-98 | a result of an already listed document adds one to its count |
| Repository.EntriesSnocNew | backend/repositories/vector_repository.py:90-96 | a result of a new document lists it with this result's title (default `Untitled`), flag (default `False`) and a count of 1 |
| Repository.FirstAppearancesListed | backend/repositories/vector_repository.py:86-100 | listed ids are distinct, and a document is listed exactly when some result carries its id |
| Repository.FirstForIsEarliest | backend/repositories/vector_repository.py:90-96 | the entry of a listed document is taken from the earliest result carrying its id, and its count is at least 1 |
| Repository.ListingCoversStore | backend/repositories/vector_repository.py:80-100 | with at most 10,000 vectors stored, every stored vector is in the listing query and every stored document id is listed, nothing else |
| Embedding.NewEmbeddingService | backend/utils/embedding_service.py:11-17 | an empty API key is refused with ValueError; otherwise the model is kept |
| Embedding.EmbedText | backend/utils/embedding_service.py:19-39 | a blank text fails; a non-blank text succeeds whenever the endpoint answers with at least one embedding, and a success is the first embedding it gives for the stripped text; every failure is a generic error with the `Failed to generate embedding: ` prefix |
| Embedding.EmbedTextStripInvariant | backend/utils/embedding_service.py:23 | whitespace around the text never changes the outcome |
| Embedding.BatchAt | backend/utils/embedding_service.py:50 | a batch is `texts[i:i+batch_size]`, non-empty and at most `batch_size` long |
| Embedding.FlattenAppend | backend/utils/embedding_service.py:61 | extending by one more batch answer appends it |
| Embedding.EmbedBatchSpec | backend/utils/embedding_service.py:41-70 | an empty list gives `[]`; a zero batch size raises the `range()` ValueError on a non-empty list; a negative one gives `[]` |
| Embedding.EmbedBatch | backend/utils/embedding_service.py:41-70 | the batch loop returns or raises what `EmbedBatchSpec` says |
| Embedding.BatchesPartition | backend/utils/embedding_service.py:49-50 | the batches, joined in order, are the input list |
| Embedding.BatchSizes | backend/utils/embedding_service.py:49-50 | every batch is non-empty and holds at most `batch_size` texts |
| Embedding.BatchCount | backend/utils/embedding_service.py:49 | there are `ceil(n / batch_size)` batches |
| Embedding.RunBatchesConcat | backend/utils/embedding_service.py:52-70 | the run succeeds exactly when every call succeeds, and is then the answers concatenated in batch order |
| Embedding.RunBatchesCount | backend/utils/embedding_service.py:59-61 | with one embedding per input per call, a successful run has one embedding per text |
| Embedding.EmbedBatchCount | backend/utils/embedding_service.py:41-70 | so a successful `embed_batch` returns one embedding per input text |
| Embedding.EmbeddingDimension | backend/utils/embedding_service.py:72-81 | 3072 exactly for `text-embedding-3-large`, 1536 otherwise |
| Ranking.InsertDesc | backend/handlers/chat_handler.py:111-115 | insertion adds exactly the one result |
| Ranking.SortByScore | backend/handlers/chat_handler.py:111-115 | the sort is a permutation of its input |
| Ranking.InsertDescSorted | backend/handlers/chat_handler.py:111-115 | inserting into a descending list keeps it descending |
| Ranking.InsertDescStable | backend/handlers/chat_handler.py:111-115 | an inserted result comes first among the results of its own score |
| Ranking.SortByScoreCorrect | backend/handlers/chat_handler.py:111-115 | the sort is a descending permutation in which results of equal score keep their order (stable) |
| Ranking.SortByScoreSorted | backend/utils/llm_service.py:128 | an already descending list is left unchanged |
| Llm.NewLLMService | backend/utils/llm_service.py:10-24 | an empty API key is refused with ValueError; otherwise model, token limit and temperature are kept |
| Llm.BuildSystemPrompt | backend/utils/llm_service.py:58-82 | no context or an empty one gives exactly the base prompt; otherwise the prompt starts with the base prompt and the background header, followed by the context verbatim |
| Llm.PromptContext | backend/utils/llm_service.py:70-80 | what is read back out of a prompt as its background is never empty |
| Llm.PromptContextRoundTrip | backend/utils/llm_service.py:70-82 | the context a prompt was built with is exactly what is read back from it, and a prompt built without one carries none |
| Llm.GenerateResponse | backend/utils/llm_service.py:26-56 | sends the system prompt and the user message; succeeds exactly when the endpoint does, with its reply stripped; failures carry the `Failed to generate response: ` prefix |
| Llm.RecentHistory | backend/utils/llm_service.py:99 | `chat_history[-10:]` is the last `min(10, n)` entries |
| Llm.HistoryMessagesShape | backend/utils/llm_service.py:96-106 | the message list is the system message, the last at most ten history entries in order, then the user message, at most 12 in all |
| Llm.BuildHistoryMessages | backend/utils/llm_service.py:96-106 | the append loop builds exactly that list |
| Llm.GenerateWithChatHistory | backend/utils/llm_service.py:84-120 | that list is sent; success exactly when the endpoint succeeds, reply stripped; failures carry the `with history` prefix |
| Llm.Kept | backend/utils/llm_service.py:131-135 | the kept parts are non-empty, stripped and no more than the results |
| Llm.TopFive | backend/utils/llm_service.py:128-132 | `min(5, n)` results are kept |
| Llm.TopFiveFrom | backend/utils/llm_service.py:128-132 | they are at most five, best first, drawn from the results without repetition (sub-multiset), and no result left out scores above a kept one |
| Llm.KeptIndex | backend/utils/llm_service.py:131-135 | each kept part is the stripped text of a result |
| Llm.KeptFrom | backend/utils/llm_service.py:131-135 | every kept part comes from some result |
| Llm.KeptAll | backend/utils/llm_service.py:131-135 | when no result is blank every result is kept, in order |
| Llm.ContextTextParts | backend/utils/llm_service.py:122-140 | the context joins at most five non-blank stripped texts of the five best results with blank lines; no results give `""`; the chat handler's `_format_context` (`backend/handlers/chat_handler.py`, lines 156-172) builds the same block |
| Llm.FormatContext | backend/utils/llm_service.py:122-140 | the sort-and-keep loop returns that context block |
| ChatHandling.Stage1Filter | backend/handlers/chat_handler.py:66 | Stage 1 filters on `is_interview = True` exactly in interview mode, otherwise not at all |
| ChatHandling.DocIdsOf | backend/handlers/chat_handler.py:87-91 | the set holds exactly the non-empty document ids of the hits |
| ChatHandling.SourceOf | backend/handlers/chat_handler.py:131-140 | a source carries the result's document id and text |
| ChatHandling.SourcesOf | backend/handlers/chat_handler.py:129-140 | there are no more sources than results |
| ChatHandling.SourcesInOrder | backend/handlers/chat_handler.py:129-140 | one source per result that carries a document id, in result order: the positions of those results, increasing, give the sources one for one |
| ChatHandling.SourceIndex | backend/handlers/chat_handler.py:130-140 | each source is built from a result that carries a document id |
| ChatHandling.SourcesFrom | backend/handlers/chat_handler.py:130-140 | every source comes from a result carrying a document id |
| ChatHandling.SourcesAll | backend/handlers/chat_handler.py:130-140 | when every result carries an id there is one source per result, in order |
| ChatHandling.ContextFor | backend/handlers/chat_handler.py:122-126 | there is no context exactly when there are no results |
| ChatHandling.Respond | backend/handlers/chat_handler.py:121-153 | the response is the model's reply to the message with the results' context (`_format_context`), or none when there are no results; `sources_used` holds exactly when there are results; sources are `SourcesOf` them; the call fails exactly when the model call does, with its error unchanged |
| ChatHandling.PoolDocuments | backend/handlers/chat_handler.py:96-107 | every chunk in the Stage-2 pool belongs to one of the visited documents |
| ChatHandling.TwoStageResults | backend/handlers/chat_handler.py:86-119 | two-stage results are at most five, best first, taken from the pool without repetition, none of the pool left out scoring above a selected one, each of a document named by a Stage-1 hit; no Stage-1 hit gives no results |
| ChatHandling.Stage1HitsInPool | backend/handlers/chat_handler.py:95-107 | every Stage-1 hit with a document id is in the pool when no such document has more than 10,000 vectors |
| ChatHandling.SingleStageResults | backend/handlers/chat_handler.py:50-62 | a question about one document gets at most five results, best first, all of that document |
| ChatHandling.ChatHandler.constructor | backend/handlers/chat_handler.py:15-24 | the handler keeps its three dependencies |
| ChatHandling.ChatHandler.CollectDocIds | backend/handlers/chat_handler.py:87-91 | the loop collects `DocIdsOf` the hits |
| ChatHandling.ChatHandler.FetchAll | backend/handlers/chat_handler.py:96-107 | each document id is visited once, in some order, and the pool is the concatenation of their full per-document answers |
| ChatHandling.ChatHandler.CollectSources | backend/handlers/chat_handler.py:129-140 | the loop builds `SourcesOf` the results |
| ChatHandling.ChatHandler.SearchAll | backend/handlers/chat_handler.py:64-119 | the two-stage path selects results as `TwoStage` allows |
| ChatHandling.ChatHandler.Reply | backend/handlers/chat_handler.py:121-153 | the end of `handle_chat` computes `Respond` |
| ChatHandling.ChatHandler.HandleChat | backend/handlers/chat_handler.py:26-154 | an embedding failure is passed on; a named but absent document is refused with `Document not found`; a present one is searched alone for its top 5; otherwise two-stage retrieval; then `Respond` |
| DocumentHandling.TitleFor | backend/handlers/document_handler.py:64 | the title is the first 100 characters of the filename, or `Untitled` for an empty one; never empty, at most 100 |
| DocumentHandling.ChunkTexts | backend/handlers/document_handler.py:72 | one text per chunk |
| DocumentHandling.VectorsFor | backend/handlers/document_handler.py:76-89 | `zip` builds as many vectors as the shorter of chunks and embeddings |
| DocumentHandling.UpsertedDistinct | backend/handlers/document_handler.py:92 | with distinct ids every vector of the batch is stored as sent |
| DocumentHandling.InterviewFlagExclusive | backend/handlers/document_handler.py:60-92 | with no flag left and every new vector of the document, only its vectors are flagged after the upsert |
| DocumentHandling.VectorsForFields | backend/handlers/document_handler.py:76-89 | vector `k` has id `"{document_id}_chunk_{k}"`, embedding `k`, and metadata text, document id, title, chunk number `k` and flag |
| DocumentHandling.VectorsForDistinct | backend/handlers/document_handler.py:76-92 | the vectors of one upload have distinct ids |
| DocumentHandling.PreparedOnePerChunk | backend/handlers/document_handler.py:72-92 | with an endpoint giving one embedding per text, an upload stores one vector per chunk |
| DocumentHandling.DocumentHandler.constructor | backend/handlers/document_handler.py:16-25 | the handler keeps its dependencies |
| DocumentHandling.DocumentHandler.Prepared | backend/handlers/document_handler.py:64-89 | every prepared vector carries the text's document id |
| DocumentHandling.DocumentHandler.HandleUpload | backend/handlers/document_handler.py:27-98 | a stored id is refused with nothing changed; otherwise interview uploads first clear up to 10,000 flags, and that clearing survives a later failure; success upserts the vectors, returns id, title and count, and, when at most 10,000 vectors were flagged before, leaves only the new document flagged |
| DocumentHandling.DocumentHandler.StoreDocument | backend/handlers/document_handler.py:63-98 | chunk, embed, upsert: the first failing step is passed on with the store unchanged; success upserts exactly the prepared vectors |
| DocumentHandling.DocumentHandler.HandleCheckExists | backend/handlers/document_handler.py:100-102 | true exactly when a stored vector carries the id |
| DocumentHandling.DocumentHandler.HandleListDocuments | backend/handlers/document_handler.py:104-106 | the repository's listing |
| DocumentHandling.DocumentHandler.HandleDeleteDocument | backend/handlers/document_handler.py:108-132 | an absent id is refused with nothing changed; otherwise exactly the document's vectors go, the others stay, and it is no longer stored |
| DocumentHandling.DocumentHandler.HandleDeleteAll | backend/handlers/document_handler.py:134-145 | the store is empty and the success message returned |
| Text.Utf8Encode | backend/services/document_service.py:42 | `text.encode('utf-8')` has at least one and at most four bytes per character |
| DocumentService.UploadRejection | backend/services/document_service.py:39-44 | accepted exactly when the text is not blank and its UTF-8 encoding has at most `max_size` bytes (exactly `max_size` passes); each refusal has its message; more than `max_size` characters is always refused, and a non-blank text of at most `max_size / 4` characters always passes |
| DocumentService.ProcessUploadSpec | backend/services/document_service.py:17-55 | a refusal never reaches the handler; otherwise the handler's error is passed on, or its id, title and count with the success message |
| DocumentService.Paginate | backend/services/document_service.py:57-86 | total is the list length, page and limit are echoed, `has_more` holds exactly when `page·limit < total`; for positive page and limit the documents are `all[(page−1)·limit : page·limit]`, at most `limit`; a page past the end is empty with nothing after it |
| DocumentService.PagesCover | backend/services/document_service.py:73-78 | pages 1 to `k` together are the first `k·limit` documents, without gaps or repeats |
| DocumentService.HasMoreMeansUnseen | backend/services/document_service.py:73-78 | `has_more` on page `k` holds exactly when pages 1 to `k` leave documents unseen, and enough pages show them all |
| DocumentService.DeleteRejection | backend/services/document_service.py:101-102 | an empty or whitespace id is refused with `Document ID cannot be empty`, any other passes |
| DocumentService.DocumentService.constructor | backend/services/document_service.py:13-15 | the service keeps its handler |
| DocumentService.DocumentService.ProcessUpload | backend/services/document_service.py:17-55 | a refused text leaves the store alone; an accepted one is uploaded as `HandleUpload` says and its result shaped by `ProcessUploadSpec` |
| DocumentService.DocumentService.ListDocuments | backend/services/document_service.py:57-86 | a page of the repository listing |
| DocumentService.DocumentService.DeleteDocument | backend/services/document_service.py:88-109 | a blank id is refused with the store unchanged; any other is deleted as `HandleDeleteDocument` says |
| DocumentService.DocumentService.DeleteAllDocuments | backend/services/document_service.py:111-122 | the store is empty and the message passed on |
| ChatService.MessageRejection | backend/services/chat_service.py:29-34 | accepted exactly when the message is not blank and has at most 1000 characters (exactly 1000 passes); each refusal has its message |
| ChatService.ProcessChatSpec | backend/services/chat_service.py:14-45 | a refusal never reaches the handler; otherwise its error is passed on, or its response, flag and sources with status `success` |
| ChatService.ChatService.constructor | backend/services/chat_service.py:10-12 | the service keeps its handler |
| ChatService.ChatService.ProcessChat | backend/services/chat_service.py:14-45 | the answer is `ProcessChatSpec` of the handler's outcome, which for an accepted message is what `HandleChat` promises |

## Left out

- The OpenAI and Pinecone clients. Endpoints and scoring are function parameters. Pinecone's approximate search is modelled as an exact top-k with ties in any order.
- Index creation (`_ensure_index_exists`), the network, timeouts and retries.
- SHA-256 itself: the digest function is a parameter. Only the hex encoding and the truncation to 16 characters are modelled.
- `time.sleep` between batches: it changes no result.
- `calculate_cost`: it is floating point.
- Scores and embedding components are reals. The model only compares scores.
- Console logging (`print`).
- The HTTP routers, `main.py`, the cached dependency singletons, `clear_data.py` and the loading of `.env` into settings.
- The pydantic schemas, which are plain datatypes here.
- The iteration order of the Stage-2 document-id `set`: any order that visits each id once is allowed.
- Chunk numbers are stored as integers; metadata values of other types are not modelled.
- `ChatService.ProcessChatSpec`: `sources` is passed through without the `[]` default, because the handler always sets it.
- `Chunking.NewChunkingService`: requires `chunk_size > 0`. A non-positive window reaches Python's negative-slice rules, which the constructor does not guard against.
- `Llm.GenerateResponse` and `Llm.GenerateWithChatHistory`: an endpoint answer without choices is folded into the endpoint's error.
- `Embedding.EmbedText`: an answer with no data is the generic error `list index out of range`.
- History entries are assumed to have `role` and `content`.
- A single-text embedding call is modelled as a one-element list.
- `DocumentService.Paginate`: the contract spells out the page contents only for `page ≥ 1` and `limit ≥ 1`. For other values the body applies Python's slice rules to the same bounds.
- `HashUtils.ExtractTitle`: for a negative `max_length` the contract states only that the title ends in `...`.
- `Repository.VectorRepository.ClearInterviewFlags` and `Repository.VectorRepository.SetInterviewFlag`: the ids updated are a ghost result. Beyond 10,000 matching vectors, the contracts do not say which were reached.
