/** Document ingestion and deletion (`backend/handlers/document_handler.py`):
    the handler owns a chunker, an embedding service, the digest function
    behind `compute_file_hash`, and the vector store it changes. */
module DocumentHandling {
  import opened Wrappers
  import opened Text
  import opened HashUtils
  import opened Chunking
  import opened Repository
  import opened Embedding

  /** The dictionary `handle_upload` returns. */
  datatype UploadResult = UploadResult(documentId: string, title: string, chunksCreated: nat)

  /** The dictionary `handle_delete_document` returns. */
  datatype DeleteResult = DeleteResult(message: string, documentId: string)

  /** The batch size `handle_upload` leaves `embed_batch` at. */
  const BatchSize := 100

  /** `filename[:100] if filename else "Untitled"`. */
  function TitleFor(filename: string): (title: string)
    ensures 0 < |title| <= 100
    ensures filename == "" ==> title == "Untitled"
    ensures filename != "" ==> |title| == Repository.Min(100, |filename|) && title <= filename
  {
    if filename != "" then filename[..Repository.Min(100, |filename|)] else "Untitled"
  }

  /** The texts handed to `embed_batch`, one per chunk. */
  function ChunkTexts(chunks: seq<DocumentChunk>): (texts: seq<string>)
    ensures |texts| == |chunks|
  {
    seq(|chunks|, i requires 0 <= i < |chunks| => chunks[i].text)
  }

  /** The metadata written for one chunk. */
  function ChunkMetadataFor(chunk: DocumentChunk, documentId: string, title: string, isInterview: bool): Metadata {
    Metadata(Some(chunk.text), Some(documentId), Some(title), Some(chunk.metadata.chunkNumber as int), Some(isInterview))
  }

  /** The vectors of `zip(chunks, embeddings)`: as many as the shorter list. */
  function VectorsFor(chunks: seq<DocumentChunk>, embeddings: seq<Repository.Embedding>, documentId: string,
                      title: string, isInterview: bool): (vectors: seq<Vector>)
    ensures |vectors| == Repository.Min(|chunks|, |embeddings|)
  {
    seq(Repository.Min(|chunks|, |embeddings|), k requires 0 <= k < Repository.Min(|chunks|, |embeddings|) =>
      Vector(chunks[k].id, embeddings[k], ChunkMetadataFor(chunks[k], documentId, title, isInterview)))
  }

  /** Some stored vector belongs to the document. */
  predicate Stored(index: map<string, VectorRecord>, documentId: string) {
    exists id :: id in index && Satisfies(index[id].metadata, ByDocument(documentId))
  }

  /** The ids of the flagged vectors. */
  function Flagged(index: map<string, VectorRecord>): set<string> {
    MatchingIds(index, ByInterview(true))
  }

  /** The index with the flag of the vectors in `cleared` turned off. */
  function FlagsCleared(index: map<string, VectorRecord>, cleared: set<string>): map<string, VectorRecord> {
    map id | id in index :: if id in cleared then WithFlag(index[id], false) else index[id]
  }

  /** Ids of a vector list are pairwise distinct. */
  predicate DistinctIds(vectors: seq<Vector>) {
    forall i, j :: 0 <= i < j < |vectors| ==> vectors[i].id != vectors[j].id
  }

  /** With distinct ids, every vector of the batch is stored as it was sent. */
  lemma UpsertedDistinct(index: map<string, VectorRecord>, vectors: seq<Vector>, k: nat)
    requires DistinctIds(vectors) && k < |vectors|
    ensures vectors[k].id in Upserted(index, vectors)
    ensures Upserted(index, vectors)[vectors[k].id] == VectorRecord(vectors[k].values, vectors[k].metadata)
  {
    UpsertedLookup(index, vectors, vectors[k].id);
  }

  /** When no stored vector is flagged and every new vector belongs to the
      document, every flagged vector after the upsert belongs to it. */
  lemma InterviewFlagExclusive(index: map<string, VectorRecord>, vectors: seq<Vector>, documentId: string)
    requires Flagged(index) == {}
    requires forall k :: 0 <= k < |vectors| ==> vectors[k].metadata.documentId == Some(documentId)
    ensures forall id :: id in Flagged(Upserted(index, vectors)) ==>
      Upserted(index, vectors)[id].metadata.documentId == Some(documentId)
  {
    var after := Upserted(index, vectors);
    forall id | id in Flagged(after)
      ensures after[id].metadata.documentId == Some(documentId)
    {
      UpsertedLookup(index, vectors, id);
      if exists j :: 0 <= j < |vectors| && vectors[j].id == id {
        var j :| 0 <= j < |vectors| && vectors[j].id == id;
        while exists l :: j < l < |vectors| && vectors[l].id == id
          invariant 0 <= j < |vectors| && vectors[j].id == id
          decreases |vectors| - j
        {
          var l :| j < l < |vectors| && vectors[l].id == id;
          j := l;
        }
      }
    }
  }

  /** Vector `k` of an upload carries chunk `k`: its id `"{document_id}_chunk_{k}"`,
      embedding `k`, and the metadata with the chunk's text, the document
      id, the title, chunk number `k` and the flag. */
  lemma VectorsForFields(c: ChunkingService, text: string, documentId: string, embeddings: seq<Repository.Embedding>,
                         title: string, isInterview: bool, k: nat)
    requires ValidService(c) && ChunkTextSpec(c, text, documentId).Ok?
    requires k < Repository.Min(|ChunkTextSpec(c, text, documentId).value|, |embeddings|)
    ensures var chunks := ChunkTextSpec(c, text, documentId).value;
      var vs := VectorsFor(chunks, embeddings, documentId, title, isInterview);
      && vs[k].id == ChunkId(documentId, k)
      && vs[k].values == embeddings[k]
      && vs[k].metadata == Metadata(Some(chunks[k].text), Some(documentId), Some(title), Some(k), Some(isInterview))
      && chunks[k].text != []
  {
    var chunks := ChunkTextSpec(c, text, documentId).value;
    var vs := VectorsFor(chunks, embeddings, documentId, title, isInterview);
    ChunkFields(c, text, documentId, k);
    assert vs[k] == Vector(chunks[k].id, embeddings[k], ChunkMetadataFor(chunks[k], documentId, title, isInterview));
  }

  /** The vectors of one upload have distinct ids. */
  lemma VectorsForDistinct(c: ChunkingService, text: string, documentId: string, embeddings: seq<Repository.Embedding>,
                           title: string, isInterview: bool)
    requires ValidService(c) && ChunkTextSpec(c, text, documentId).Ok?
    ensures DistinctIds(VectorsFor(ChunkTextSpec(c, text, documentId).value, embeddings, documentId, title, isInterview))
  {
    var vs := VectorsFor(ChunkTextSpec(c, text, documentId).value, embeddings, documentId, title, isInterview);
    forall i, j | 0 <= i < j < |vs|
      ensures vs[i].id != vs[j].id
    {
      ChunkFields(c, text, documentId, i);
      ChunkFields(c, text, documentId, j);
      if vs[i].id == vs[j].id {
        ChunkIdInjective(documentId, i, j);
      }
    }
  }

  class DocumentHandler {
    const chunking: ChunkingService
    const embedding: EmbeddingService
    const sha256: seq<bv8> -> Digest
    const repo: VectorRepository

    constructor (chunking: ChunkingService, embedding: EmbeddingService, sha256: seq<bv8> -> Digest,
                 repo: VectorRepository)
      ensures this.chunking == chunking && this.embedding == embedding && this.sha256 == sha256 && this.repo == repo
    {
      this.chunking := chunking;
      this.embedding := embedding;
      this.sha256 := sha256;
      this.repo := repo;
    }

    /** What `handle_upload` stores for a new document, after the duplicate
        check: the chunks, their embeddings and the vectors built from them,
        or the error one of those steps raises. */
    function Prepared(text: string, filename: string, isInterview: bool): (r: Result<seq<Vector>>)
      requires ValidService(chunking)
      ensures r.Ok? ==> forall k :: 0 <= k < |r.value| ==>
        r.value[k].metadata.documentId == Some(HashUtils.DocumentIdOf(sha256, text))
    {
      var documentId := HashUtils.DocumentIdOf(sha256, text);
      var chunks :- ChunkTextSpec(chunking, text, documentId);
      if chunks == [] then Err(ValueError("Document empty after chunking"))
      else
        var embeddings :- EmbedBatchSpec(embedding, ChunkTexts(chunks), BatchSize);
        Ok(VectorsFor(chunks, embeddings, documentId, TitleFor(filename), isInterview))
    }

    /** What `handle_upload` does to the store, from `before` to `after`.
        A document already stored is refused and nothing changes. Otherwise
        an interview upload first clears the stored flags (at most 10000 of
        them, and this stays done even when a later step fails), and on
        success the new vectors are upserted; when every flag was cleared,
        the new document is then the only interview document. */
    ghost predicate UploadOutcome(before: map<string, VectorRecord>, after: map<string, VectorRecord>,
                                  text: string, filename: string, isInterview: bool,
                                  r: Result<UploadResult>, cleared: set<string>)
      requires ValidService(chunking)
    {
      var documentId := HashUtils.DocumentIdOf(sha256, text);
      var prepared := Prepared(text, filename, isInterview);
      if Stored(before, documentId) then
        r == Err(ValueError("Document already uploaded (ID: " + documentId + ")")) &&
        after == before && cleared == {}
      else
        (if isInterview then cleared <= Flagged(before) && |cleared| == Repository.Min(10000, |Flagged(before)|)
         else cleared == {}) &&
        (r.Ok? <==> prepared.Ok?) &&
        (r.Err? ==> r.error == prepared.error && after == FlagsCleared(before, cleared)) &&
        (r.Ok? ==>
          r.value == UploadResult(documentId, TitleFor(filename), |prepared.value|) &&
          after == Upserted(FlagsCleared(before, cleared), prepared.value) &&
          (isInterview && |Flagged(before)| <= 10000 ==>
            forall id :: id in Flagged(after) ==> after[id].metadata.documentId == Some(documentId)))
    }

    /** `handle_upload`. */
    method HandleUpload(text: string, filename: string, isInterview: bool)
      returns (r: Result<UploadResult>, ghost cleared: set<string>)
      requires ValidService(chunking)
      modifies repo
      ensures UploadOutcome(old(repo.index), repo.index, text, filename, isInterview, r, cleared)
    {
      var documentId := HashUtils.DocumentIdOf(sha256, text);
      cleared := {};
      var exists_ := repo.CheckExists(ByDocument(documentId));
      if exists_ {
        return Err(ValueError("Document already uploaded (ID: " + documentId + ")")), cleared;
      }
      if isInterview {
        cleared := repo.ClearInterviewFlags();
      }
      assert repo.index == FlagsCleared(old(repo.index), cleared);
      ghost var before := repo.index;
      r := StoreDocument(text, filename, isInterview);
      if r.Ok? && isInterview && |Flagged(old(repo.index))| <= 10000 {
        InterviewFlagExclusive(before, Prepared(text, filename, isInterview).value, documentId);
      }
    }

    /** The rest of `handle_upload` once the duplicate check has passed and
        any flags are cleared: chunk, embed and upsert, stopping at the
        first step that fails with the store as it was. */
    method StoreDocument(text: string, filename: string, isInterview: bool) returns (r: Result<UploadResult>)
      requires ValidService(chunking)
      modifies repo
      ensures r.Ok? <==> Prepared(text, filename, isInterview).Ok?
      ensures r.Err? ==> r.error == Prepared(text, filename, isInterview).error && repo.index == old(repo.index)
      ensures r.Ok? ==>
        var vectors := Prepared(text, filename, isInterview).value;
        r.value == UploadResult(HashUtils.DocumentIdOf(sha256, text), TitleFor(filename), |vectors|) &&
        repo.index == Upserted(old(repo.index), vectors)
    {
      var documentId := HashUtils.DocumentIdOf(sha256, text);
      var title := TitleFor(filename);
      var chunks := ChunkText(chunking, text, documentId);
      if chunks.Err? {
        return Err(chunks.error);
      }
      if |chunks.value| == 0 {
        return Err(ValueError("Document empty after chunking"));
      }
      var embeddings := EmbedBatch(embedding, ChunkTexts(chunks.value), BatchSize);
      if embeddings.Err? {
        return Err(embeddings.error);
      }
      var vectors := VectorsFor(chunks.value, embeddings.value, documentId, title, isInterview);
      var stored := repo.UpsertVectors(vectors);
      r := Ok(UploadResult(documentId, title, stored));
    }

    /** `handle_check_exists`. */
    method HandleCheckExists(documentId: string) returns (exists_: bool)
      ensures exists_ <==> Stored(repo.index, documentId)
    {
      exists_ := repo.CheckExists(ByDocument(documentId));
    }

    /** `handle_list_documents`. */
    method HandleListDocuments() returns (docs: seq<DocumentInfo>, ghost matches: seq<Match>)
      ensures IsQueryAnswer(repo.index, repo.similarity, Zero(repo.dimension), NoFilter, 10000, matches)
      ensures docs == GroupByDocument(matches)
    {
      docs, matches := repo.ListUniqueDocuments();
    }

    /** `handle_delete_document`: an absent document is an error and
        nothing changes; otherwise every vector of the document goes and all
        other vectors stay as they were. */
    method HandleDeleteDocument(documentId: string) returns (r: Result<DeleteResult>)
      modifies repo
      ensures r.Err? <==> !Stored(old(repo.index), documentId)
      ensures r.Err? ==> r.error == ValueError("Document not found (ID: " + documentId + ")") && repo.index == old(repo.index)
      ensures r.Ok? ==> r.value == DeleteResult("Document deleted successfully", documentId)
      ensures r.Ok? ==> forall id :: id in repo.index <==>
        id in old(repo.index) && old(repo.index)[id].metadata.documentId != Some(documentId)
      ensures forall id :: id in repo.index ==> repo.index[id] == old(repo.index)[id]
      ensures !Stored(repo.index, documentId)
    {
      var exists_ := repo.CheckExists(ByDocument(documentId));
      if !exists_ {
        return Err(ValueError("Document not found (ID: " + documentId + ")"));
      }
      repo.DeleteByFilter(ByDocument(documentId));
      r := Ok(DeleteResult("Document deleted successfully", documentId));
    }

    /** `handle_delete_all`: the store is left empty. */
    method HandleDeleteAll() returns (message: string)
      modifies repo
      ensures repo.index == map[]
      ensures message == "All data cleared successfully"
    {
      repo.DeleteAll();
      message := "All data cleared successfully";
    }
  }

  /** With an endpoint that answers one embedding per text, a successful
      upload stores one vector per chunk. */
  lemma PreparedOnePerChunk(c: ChunkingService, embedding: EmbeddingService, text: string, documentId: string,
                            filename: string, isInterview: bool)
    requires ValidService(c) && OnePerText(embedding)
    requires ChunkTextSpec(c, text, documentId).Ok?
    requires EmbedBatchSpec(embedding, ChunkTexts(ChunkTextSpec(c, text, documentId).value), BatchSize).Ok?
    ensures var chunks := ChunkTextSpec(c, text, documentId).value;
      |VectorsFor(chunks, EmbedBatchSpec(embedding, ChunkTexts(chunks), BatchSize).value, documentId,
                  TitleFor(filename), isInterview)| == |chunks|
  {
    EmbedBatchCount(embedding, ChunkTexts(ChunkTextSpec(c, text, documentId).value), BatchSize);
  }
}
