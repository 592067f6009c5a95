/** The document service: input checks in front of the document handler,
    the shaping of its answers, and the pagination of the document list. */
module DocumentService {
  import opened Wrappers
  import opened Text
  import opened Repository
  import opened Chunking
  import opened DocumentHandling

  /** The default upload size limit, 5 MiB. */
  const DefaultMaxSize: int := 5242880

  const UploadMessage := "Document uploaded successfully"

  /** The answer to a successful upload. */
  datatype UploadResponse = UploadResponse(documentId: string, title: string, chunksCreated: nat, message: string)

  /** One page of the document list, with the figures the client pages by. */
  datatype DocumentPage = DocumentPage(documents: seq<DocumentInfo>, total: nat, page: int, limit: int, hasMore: bool)

  /** Why `process_upload` refuses `text` before reaching the handler, if
      it does: a text that is empty or all whitespace, or one whose UTF-8
      encoding is longer than `maxSize` bytes. A text within the limit in
      bytes is accepted however close to it, and since a character takes
      one to four bytes, a text of more than `maxSize` characters is always
      refused and one of at most a quarter of it never is for its size. */
  function UploadRejection(text: string, maxSize: int): (e: Option<Error>)
    ensures e.None? <==> !IsBlank(text) && |Utf8Encode(text)| <= maxSize
    ensures IsBlank(text) ==> e == Some(ValueError("Document cannot be empty"))
    ensures !IsBlank(text) && |Utf8Encode(text)| > maxSize ==>
      e == Some(ValueError("Document too large (max " + IntToString(maxSize) + " bytes)"))
    ensures |text| > maxSize ==> e.Some?
    ensures !IsBlank(text) && 4 * |text| <= maxSize ==> e.None?
  {
    if IsBlank(text) then Some(ValueError("Document cannot be empty"))
    else if |Utf8Encode(text)| > maxSize then
      Some(ValueError("Document too large (max " + IntToString(maxSize) + " bytes)"))
    else None
  }

  /** `process_upload` around the handler's result `handled`: a refused
      text gives its error whatever the handler would have done (the
      handler is not reached); otherwise the handler's error is passed on,
      or its figures are returned unchanged with the success message. */
  function ProcessUploadSpec(text: string, maxSize: int, handled: Result<UploadResult>): (r: Result<UploadResponse>)
    ensures UploadRejection(text, maxSize).Some? ==> r == Err(UploadRejection(text, maxSize).value)
    ensures UploadRejection(text, maxSize).None? ==> (r.Ok? <==> handled.Ok?)
    ensures UploadRejection(text, maxSize).None? && handled.Err? ==> r.error == handled.error
    ensures r.Ok? ==>
      handled.Ok? &&
      r.value.documentId == handled.value.documentId && r.value.title == handled.value.title &&
      r.value.chunksCreated == handled.value.chunksCreated && r.value.message == UploadMessage
  {
    match UploadRejection(text, maxSize)
    case Some(e) => Err(e)
    case None =>
      match handled
      case Err(e) => Err(e)
      case Ok(u) => Ok(UploadResponse(u.documentId, u.title, u.chunksCreated, UploadMessage))
  }

  lemma MulPred(page: int, limit: int)
    ensures (page - 1) * limit + limit == page * limit
    ensures page >= 1 && limit >= 1 ==> 0 <= (page - 1) * limit
  {
  }

  /** `list_documents` over the full list `all`: the slice
      `all[(page-1)*limit : (page-1)*limit + limit]` with Python's slice
      bounds, the total, and whether documents remain past this page.
      With `page >= 1` and `limit >= 1` the page is the `page`-th run of
      `limit` documents, clipped to the list; a page wholly past the end is
      empty and has nothing after it. */
  function Paginate(all: seq<DocumentInfo>, page: int, limit: int): (p: DocumentPage)
    ensures p.total == |all| && p.page == page && p.limit == limit
    ensures p.hasMore <==> page * limit < |all|
    ensures page >= 1 && limit >= 1 ==>
      p.documents == all[Repository.Min((page - 1) * limit, |all|)..Repository.Min(page * limit, |all|)]
    ensures page >= 1 && limit >= 1 ==> |p.documents| <= limit
    ensures page >= 1 && limit >= 1 && (page - 1) * limit >= |all| ==> p.documents == [] && !p.hasMore
  {
    var start := (page - 1) * limit;
    var end := start + limit;
    MulPred(page, limit);
    DocumentPage(PySlice(all, start, end), |all|, page, limit, end < |all|)
  }

  /** The documents of pages `1` to `k`, in page order. */
  function PagesUpTo(all: seq<DocumentInfo>, limit: int, k: nat): seq<DocumentInfo> {
    if k == 0 then [] else PagesUpTo(all, limit, k - 1) + Paginate(all, k, limit).documents
  }

  lemma SliceJoin<T>(s: seq<T>, a: nat, b: nat)
    requires a <= b <= |s|
    ensures s[..a] + s[a..b] == s[..b]
  {
  }

  /** Paging through the list in order yields it without gaps or repeats:
      the first `k` pages together are the first `k * limit` documents. */
  lemma {:induction false} PagesCover(all: seq<DocumentInfo>, limit: int, k: nat)
    requires limit >= 1
    ensures PagesUpTo(all, limit, k) == all[..Repository.Min(k * limit, |all|)]
  {
    if k > 0 {
      PagesCover(all, limit, k - 1);
      MulPred(k, limit);
      var a, b := Repository.Min((k - 1) * limit, |all|), Repository.Min(k * limit, |all|);
      assert Paginate(all, k, limit).documents == all[a..b];
      SliceJoin(all, a, b);
    }
  }

  /** `has_more` says exactly whether the pages so far leave documents
      unseen, and enough pages show every document. */
  lemma HasMoreMeansUnseen(all: seq<DocumentInfo>, limit: int, k: nat)
    requires limit >= 1 && k >= 1
    ensures Paginate(all, k, limit).hasMore <==> |PagesUpTo(all, limit, k)| < |all|
    ensures k * limit >= |all| ==> PagesUpTo(all, limit, k) == all
  {
    PagesCover(all, limit, k);
  }

  /** Why `delete_document` refuses an id before reaching the handler: an
      empty or all-whitespace id. */
  function DeleteRejection(documentId: string): (e: Option<Error>)
    ensures e.Some? <==> IsBlank(documentId)
    ensures e.Some? ==> e.value == ValueError("Document ID cannot be empty")
  {
    if IsBlank(documentId) then Some(ValueError("Document ID cannot be empty")) else None
  }

  /** The service object, delegating to one document handler. */
  class DocumentService {
    const handler: DocumentHandler

    constructor (handler: DocumentHandler)
      ensures this.handler == handler
    {
      this.handler := handler;
    }

    /** `process_upload`: a refused text leaves the store alone; an
        accepted one is uploaded by the handler and its answer shaped. */
    method ProcessUpload(text: string, filename: string, isInterview: bool, maxSize: int)
      returns (r: Result<UploadResponse>, ghost handled: Result<UploadResult>, ghost cleared: set<string>)
      requires ValidService(handler.chunking)
      modifies handler.repo
      ensures r == ProcessUploadSpec(text, maxSize, handled)
      ensures UploadRejection(text, maxSize).Some? ==> handler.repo.index == old(handler.repo.index)
      ensures UploadRejection(text, maxSize).None? ==>
        handler.UploadOutcome(old(handler.repo.index), handler.repo.index, text, filename, isInterview,
                              handled, cleared)
    {
      handled, cleared := Err(ValueError("")), {};
      var rejection := UploadRejection(text, maxSize);
      if rejection.Some? {
        return Err(rejection.value), handled, cleared;
      }
      var uploaded;
      uploaded, cleared := handler.HandleUpload(text, filename, isInterview);
      handled := uploaded;
      if uploaded.Err? {
        return Err(uploaded.error), handled, cleared;
      }
      var u := uploaded.value;
      r := Ok(UploadResponse(u.documentId, u.title, u.chunksCreated, UploadMessage));
    }

    /** `list_documents`: one page of the handler's document list. */
    method ListDocuments(page: int, limit: int) returns (p: DocumentPage, ghost matches: seq<Match>)
      ensures IsQueryAnswer(handler.repo.index, handler.repo.similarity, Zero(handler.repo.dimension),
                            NoFilter, 10000, matches)
      ensures p == Paginate(GroupByDocument(matches), page, limit)
    {
      var all;
      all, matches := handler.HandleListDocuments();
      p := Paginate(all, page, limit);
    }

    /** `delete_document`: a blank id is refused and the store left alone;
        any other is deleted by the handler. */
    method DeleteDocument(documentId: string) returns (r: Result<DeleteResult>)
      modifies handler.repo
      ensures DeleteRejection(documentId).Some? ==>
        r == Err(DeleteRejection(documentId).value) && handler.repo.index == old(handler.repo.index)
      ensures DeleteRejection(documentId).None? ==>
        (r.Err? <==> !Stored(old(handler.repo.index), documentId)) &&
        (r.Err? ==> r.error == ValueError("Document not found (ID: " + documentId + ")") &&
                    handler.repo.index == old(handler.repo.index)) &&
        (r.Ok? ==> r.value == DeleteResult("Document deleted successfully", documentId) &&
                   forall id :: id in handler.repo.index <==>
                     id in old(handler.repo.index) &&
                     old(handler.repo.index)[id].metadata.documentId != Some(documentId))
      ensures forall id :: id in handler.repo.index ==> handler.repo.index[id] == old(handler.repo.index)[id]
    {
      var rejection := DeleteRejection(documentId);
      if rejection.Some? {
        return Err(rejection.value);
      }
      r := handler.HandleDeleteDocument(documentId);
    }

    /** `delete_all_documents`. */
    method DeleteAllDocuments() returns (message: string)
      modifies handler.repo
      ensures handler.repo.index == map[]
      ensures message == "All data cleared successfully"
    {
      message := handler.HandleDeleteAll();
    }
  }
}
