/** Retrieval-augmented chat (`backend/handlers/chat_handler.py`). A
    question about one document is answered from that document's five best
    chunks. Otherwise retrieval has two stages: the three best chunks (among
    the interview documents in interview mode) name the relevant documents,
    every chunk of those documents is fetched, and the five best of that
    pool after a stable re-sort are kept. The documents are fetched in the
    iteration order of a Python `set`, which is left open here. */
module ChatHandling {
  import opened Wrappers
  import opened Text
  import opened Repository
  import opened Ranking
  import opened Embedding
  import opened Llm

  /** One entry of `sources`. */
  datatype Source = Source(documentId: string, title: string, chunkNumber: int, text: string)

  /** The dictionary `handle_chat` returns. */
  datatype ChatResult = ChatResult(response: string, sourcesUsed: bool, sources: seq<Source>)

  /** The Stage-1 filter: `{"is_interview": True}` in interview mode, none otherwise. */
  function Stage1Filter(interviewMode: bool): (f: Filter)
    ensures f == NoFilter || f == ByInterview(true)
    ensures f == ByInterview(true) <==> interviewMode
  {
    if interviewMode then ByInterview(true) else NoFilter
  }

  /** The distinct non-empty document ids among the results. */
  function DocIdsOf(ms: seq<Match>): (ids: set<string>)
    ensures forall d :: d in ids <==> exists i :: 0 <= i < |ms| && Repository.DocumentIdOf(ms[i].metadata) == Some(d)
  {
    set i | 0 <= i < |ms| && Repository.DocumentIdOf(ms[i].metadata).Some? :: Repository.DocumentIdOf(ms[i].metadata).value
  }

  /** The source entry of a result that carries a document id: title
      `"Unknown"` and chunk number 0 when those keys are absent. */
  function SourceOf(m: Match): (s: Source)
    requires Repository.DocumentIdOf(m.metadata).Some?
    ensures s.documentId == m.metadata.documentId.value && s.text == m.text
  {
    Source(Repository.DocumentIdOf(m.metadata).value, m.metadata.title.GetOr("Unknown"),
           m.metadata.chunkNumber.GetOr(0), m.text)
  }

  /** The sources of a result list: one per result that carries a document
      id, in result order. */
  function SourcesOf(ms: seq<Match>): (sources: seq<Source>)
    ensures |sources| <= |ms|
  {
    if ms == [] then []
    else
      var m := ms[|ms| - 1];
      SourcesOf(ms[..|ms| - 1]) + (if Repository.DocumentIdOf(m.metadata).Some? then [SourceOf(m)] else [])
  }

  /** `SourcesOf` is a filter-map: the positions of the results that carry
      a document id, in increasing order, give the sources one for one. */
  lemma {:induction false} SourcesInOrder(ms: seq<Match>) returns (idx: seq<nat>)
    ensures |idx| == |SourcesOf(ms)|
    ensures forall k :: 0 <= k < |idx| ==>
      idx[k] < |ms| && Repository.DocumentIdOf(ms[idx[k]].metadata).Some? && SourcesOf(ms)[k] == SourceOf(ms[idx[k]])
    ensures forall k, l :: 0 <= k < l < |idx| ==> idx[k] < idx[l]
    ensures forall i :: 0 <= i < |ms| && Repository.DocumentIdOf(ms[i].metadata).Some? ==> i in idx
    decreases |ms|
  {
    if ms == [] {
      idx := [];
    } else {
      var n := |ms| - 1;
      var init, m := ms[..n], ms[n];
      assert ms == init + [m];
      var idx0 := SourcesInOrder(init);
      if Repository.DocumentIdOf(m.metadata).Some? {
        idx := idx0 + [n];
        assert SourcesOf(ms) == SourcesOf(init) + [SourceOf(m)];
      } else {
        idx := idx0;
        assert SourcesOf(ms) == SourcesOf(init);
      }
      forall i | 0 <= i < n
        ensures ms[i] == init[i]
      {
      }
    }
  }

  /** The result source `k` was built from: one that carries a document
      id. */
  lemma {:induction false} SourceIndex(ms: seq<Match>, k: nat) returns (i: nat)
    requires k < |SourcesOf(ms)|
    ensures i < |ms| && Repository.DocumentIdOf(ms[i].metadata).Some? && SourcesOf(ms)[k] == SourceOf(ms[i])
    decreases |ms|
  {
    var init := ms[..|ms| - 1];
    var m := ms[|ms| - 1];
    assert SourcesOf(ms) == SourcesOf(init) + (if Repository.DocumentIdOf(m.metadata).Some? then [SourceOf(m)] else []);
    if k < |SourcesOf(init)| {
      i := SourceIndex(init, k);
      assert init[i] == ms[i];
    } else {
      i := |ms| - 1;
    }
  }

  /** `s` is the source entry of one of the results that carry a document
      id. */
  ghost predicate SourceFromResult(ms: seq<Match>, s: Source) {
    exists i :: 0 <= i < |ms| && Repository.DocumentIdOf(ms[i].metadata).Some? && s == SourceOf(ms[i])
  }

  /** Every source comes from one of the results that carry a document id. */
  lemma SourcesFrom(ms: seq<Match>)
    ensures forall k :: 0 <= k < |SourcesOf(ms)| ==> SourceFromResult(ms, SourcesOf(ms)[k])
  {
    forall k | 0 <= k < |SourcesOf(ms)|
      ensures SourceFromResult(ms, SourcesOf(ms)[k])
    {
      var i := SourceIndex(ms, k);
    }
  }

  /** Results that all carry a document id give one source each, in order. */
  lemma {:induction false} SourcesAll(ms: seq<Match>)
    requires forall i :: 0 <= i < |ms| ==> Repository.DocumentIdOf(ms[i].metadata).Some?
    ensures |SourcesOf(ms)| == |ms|
    ensures forall i :: 0 <= i < |ms| ==> SourcesOf(ms)[i] == SourceOf(ms[i])
    decreases |ms|
  {
    if ms != [] {
      var init := ms[..|ms| - 1];
      forall i | 0 <= i < |init|
        ensures Repository.DocumentIdOf(init[i].metadata).Some?
      {
        assert init[i] == ms[i];
      }
      SourcesAll(init);
      assert SourcesOf(ms) == SourcesOf(init) + [SourceOf(ms[|ms| - 1])];
      forall i | 0 <= i < |ms|
        ensures SourcesOf(ms)[i] == SourceOf(ms[i])
      {
        if i < |init| {
          assert init[i] == ms[i];
        }
      }
    }
  }

  /** The context handed to the model: none when there are no results. */
  function ContextFor(results: seq<Match>): (context: Option<string>)
    ensures context.None? <==> results == []
  {
    if results == [] then None else Some(ContextText(results))
  }

  /** The answer built from the selected results: the model's reply to the
      question with their context, whether sources were used, and the
      sources themselves. */
  function Respond(llm: LLMService, message: string, results: seq<Match>): (r: Result<ChatResult>)
    ensures r.Ok? ==> r.value.sourcesUsed == (results != []) && r.value.sources == SourcesOf(results)
    ensures r.Ok? <==> GenerateResponse(llm, message, ContextFor(results)).Ok?
    ensures r.Ok? ==> r.value.response == GenerateResponse(llm, message, ContextFor(results)).value
    ensures r.Err? ==> r.error == GenerateResponse(llm, message, ContextFor(results)).error
    ensures results == [] && r.Ok? ==>
      !r.value.sourcesUsed && r.value.sources == [] &&
      r.value.response == GenerateResponse(llm, message, None).value
  {
    var response :- GenerateResponse(llm, message, ContextFor(results));
    Ok(ChatResult(response, results != [], SourcesOf(results)))
  }

  /** The order Stage 2 visits the document ids in: each id of the set
      exactly once. */
  ghost predicate Enumerates(order: seq<string>, ids: set<string>) {
    && (forall i, j :: 0 <= i < j < |order| ==> order[i] != order[j])
    && (forall d :: d in ids <==> d in order)
  }

  /** What two-stage retrieval may select: a Stage-1 answer, one full
      per-document answer for each of its document ids in the visiting
      order, and the five best of their concatenation after the stable
      re-sort. */
  ghost predicate TwoStage(index: map<string, VectorRecord>, similarity: (Repository.Embedding, Repository.Embedding) -> real,
                           q: Repository.Embedding, interviewMode: bool, stage1: seq<Match>, order: seq<string>,
                           perDoc: seq<seq<Match>>, results: seq<Match>)
  {
    && IsQueryAnswer(index, similarity, q, Stage1Filter(interviewMode), 3, stage1)
    && Enumerates(order, DocIdsOf(stage1))
    && |perDoc| == |order|
    && (forall k :: 0 <= k < |order| ==> IsQueryAnswer(index, similarity, q, ByDocument(order[k]), 10000, perDoc[k]))
    && results == TopFive(Flatten(perDoc))
  }

  /** Every member of the pool belongs to one of the visited documents. */
  lemma PoolDocuments(index: map<string, VectorRecord>, similarity: (Repository.Embedding, Repository.Embedding) -> real,
                      q: Repository.Embedding, ids: set<string>, order: seq<string>, perDoc: seq<seq<Match>>, m: Match)
    requires Enumerates(order, ids) && |perDoc| == |order|
    requires forall k :: 0 <= k < |order| ==> IsQueryAnswer(index, similarity, q, ByDocument(order[k]), 10000, perDoc[k])
    requires m in Flatten(perDoc)
    ensures exists d :: d in ids && m.metadata.documentId == Some(d)
  {
    FlattenMembers(perDoc);
    var k :| 0 <= k < |perDoc| && m in perDoc[k];
    var j :| 0 <= j < |perDoc[k]| && perDoc[k][j] == m;
    var d := order[k];
    assert d in ids;
    AnswerSatisfies(index, similarity, q, ByDocument(d), 10000, perDoc[k]);
    assert Satisfies(perDoc[k][j].metadata, ByDocument(d));
  }

  /** The selection in two-stage retrieval: at most five results, best
      first, taken from the pool without repetition, none of the pool left
      out scoring above a selected one, and each belonging to a document
      one of the Stage-1 hits named. No Stage-1 hit, no results. */
  lemma TwoStageResults(index: map<string, VectorRecord>, similarity: (Repository.Embedding, Repository.Embedding) -> real,
                        q: Repository.Embedding, interviewMode: bool, stage1: seq<Match>, order: seq<string>,
                        perDoc: seq<seq<Match>>, results: seq<Match>)
    requires TwoStage(index, similarity, q, interviewMode, stage1, order, perDoc, results)
    ensures |results| <= 5 && SortedDesc(results)
    ensures forall i :: 0 <= i < |results| ==> results[i] in Flatten(perDoc)
    ensures multiset(results) <= multiset(Flatten(perDoc))
    ensures forall x, i :: x in multiset(Flatten(perDoc)) - multiset(results) && 0 <= i < |results| ==>
      x.score <= results[i].score
    ensures forall i :: 0 <= i < |results| ==>
      exists d :: d in DocIdsOf(stage1) && results[i].metadata.documentId == Some(d)
    ensures stage1 == [] ==> results == []
  {
    TopFiveFrom(Flatten(perDoc));
    forall i | 0 <= i < |results|
      ensures exists d :: d in DocIdsOf(stage1) && results[i].metadata.documentId == Some(d)
    {
      PoolDocuments(index, similarity, q, DocIdsOf(stage1), order, perDoc, results[i]);
    }
  }

  /** Every Stage-1 hit that names a document is in the Stage-2 pool,
      provided none of those documents has more than 10,000 vectors. */
  lemma Stage1HitsInPool(index: map<string, VectorRecord>, similarity: (Repository.Embedding, Repository.Embedding) -> real,
                         q: Repository.Embedding, interviewMode: bool, stage1: seq<Match>, order: seq<string>,
                         perDoc: seq<seq<Match>>, results: seq<Match>)
    requires TwoStage(index, similarity, q, interviewMode, stage1, order, perDoc, results)
    requires forall d :: d in DocIdsOf(stage1) ==> |MatchingIds(index, ByDocument(d))| <= 10000
    ensures forall i :: 0 <= i < |stage1| && Repository.DocumentIdOf(stage1[i].metadata).Some? ==>
      stage1[i] in Flatten(perDoc)
  {
    FlattenMembers(perDoc);
    forall i | 0 <= i < |stage1| && Repository.DocumentIdOf(stage1[i].metadata).Some?
      ensures stage1[i] in Flatten(perDoc)
    {
      var h := stage1[i];
      var d := Repository.DocumentIdOf(h.metadata).value;
      assert d in DocIdsOf(stage1);
      var k :| 0 <= k < |order| && order[k] == d;
      QueryCoversMatches(index, similarity, q, ByDocument(d), 10000, perDoc[k]);
      assert h.id in MatchingIds(index, ByDocument(d));
      var j :| 0 <= j < |perDoc[k]| && perDoc[k][j].id == h.id;
      assert perDoc[k][j] == h;
    }
  }

  /** A question about one document gets at most five results, all of that
      document. */
  lemma SingleStageResults(index: map<string, VectorRecord>, similarity: (Repository.Embedding, Repository.Embedding) -> real,
                           q: Repository.Embedding, documentId: string, results: seq<Match>)
    requires IsQueryAnswer(index, similarity, q, ByDocument(documentId), 5, results)
    ensures |results| <= 5 && SortedDesc(results)
    ensures forall i :: 0 <= i < |results| ==> results[i].metadata.documentId == Some(documentId)
  {
    AnswerSatisfies(index, similarity, q, ByDocument(documentId), 5, results);
  }

  class ChatHandler {
    const embedding: EmbeddingService
    const llm: LLMService
    const repo: VectorRepository

    constructor (embedding: EmbeddingService, llm: LLMService, repo: VectorRepository)
      ensures this.embedding == embedding && this.llm == llm && this.repo == repo
    {
      this.embedding := embedding;
      this.llm := llm;
      this.repo := repo;
    }

    /** The Stage-1 loop: the set of document ids of the hits. */
    method CollectDocIds(stage1: seq<Match>) returns (docIds: set<string>)
      ensures docIds == DocIdsOf(stage1)
    {
      docIds := {};
      for i := 0 to |stage1|
        invariant docIds == DocIdsOf(stage1[..i])
      {
        var d := Repository.DocumentIdOf(stage1[i].metadata);
        assert stage1[..i + 1] == stage1[..i] + [stage1[i]];
        if d.Some? {
          docIds := docIds + {d.value};
        }
      }
      assert stage1[..|stage1|] == stage1;
    }

    /** The Stage-2 loop: every chunk of every listed document, the
        documents visited in an order left open. */
    method FetchAll(q: Repository.Embedding, docIds: set<string>)
      returns (all: seq<Match>, ghost order: seq<string>, ghost perDoc: seq<seq<Match>>)
      ensures Enumerates(order, docIds) && |perDoc| == |order|
      ensures forall k :: 0 <= k < |order| ==>
        IsQueryAnswer(repo.index, repo.similarity, q, ByDocument(order[k]), 10000, perDoc[k])
      ensures all == Flatten(perDoc)
    {
      all := [];
      order := [];
      perDoc := [];
      var remaining := docIds;
      while remaining != {}
        invariant remaining <= docIds
        invariant forall i, j :: 0 <= i < j < |order| ==> order[i] != order[j]
        invariant forall d :: d in docIds <==> d in remaining || d in order
        invariant forall d :: d in order ==> d !in remaining
        invariant |perDoc| == |order|
        invariant forall k :: 0 <= k < |order| ==>
          IsQueryAnswer(repo.index, repo.similarity, q, ByDocument(order[k]), 10000, perDoc[k])
        invariant all == Flatten(perDoc)
        decreases |remaining|
      {
        var d :| d in remaining;
        var chunks := repo.QueryVectors(q, ByDocument(d), 10000);
        FlattenAppend(perDoc, chunks);
        all := all + chunks;
        perDoc := perDoc + [chunks];
        order := order + [d];
        remaining := remaining - {d};
      }
    }

    /** The loop that builds `sources`. */
    method CollectSources(results: seq<Match>) returns (sources: seq<Source>)
      ensures sources == SourcesOf(results)
    {
      sources := [];
      for i := 0 to |results|
        invariant sources == SourcesOf(results[..i])
      {
        var m := results[i];
        assert results[..i + 1] == results[..i] + [m];
        if Repository.DocumentIdOf(m.metadata).Some? {
          sources := sources + [Source(Repository.DocumentIdOf(m.metadata).value, m.metadata.title.GetOr("Unknown"),
                                       m.metadata.chunkNumber.GetOr(0), m.text)];
        }
      }
      assert results[..|results|] == results;
    }

    /** Stage 1 and Stage 2 of `handle_chat` when no document is named. */
    method SearchAll(q: Repository.Embedding, interviewMode: bool)
      returns (results: seq<Match>, ghost stage1: seq<Match>, ghost order: seq<string>, ghost perDoc: seq<seq<Match>>)
      ensures TwoStage(repo.index, repo.similarity, q, interviewMode, stage1, order, perDoc, results)
    {
      order, perDoc := [], [];
      var hits := repo.QueryVectors(q, Stage1Filter(interviewMode), 3);
      stage1 := hits;
      if |hits| == 0 {
        assert DocIdsOf(hits) == {};
        return [], stage1, order, perDoc;
      }
      var docIds := CollectDocIds(hits);
      if docIds == {} {
        return [], stage1, order, perDoc;
      }
      var all;
      all, order, perDoc := FetchAll(q, docIds);
      var sorted := SortByScore(all);
      results := sorted[..Repository.Min(5, |sorted|)];
    }

    /** The end of `handle_chat`: context, sources and the model's reply. */
    method Reply(message: string, searchResults: seq<Match>) returns (r: Result<ChatResult>)
      ensures r == Respond(llm, message, searchResults)
    {
      var context: Option<string> := None;
      var sourcesUsed := false;
      var sources: seq<Source> := [];
      if |searchResults| > 0 {
        context := Some(ContextText(searchResults));
        sourcesUsed := true;
        sources := CollectSources(searchResults);
      }
      var response := GenerateResponse(llm, message, context);
      if response.Err? {
        return Err(response.error);
      }
      r := Ok(ChatResult(response.value, sourcesUsed, sources));
    }

    /** What `handle_chat` answers over the store `index`. A failing
        embedding is passed on. A named document that is not stored is an
        error; a stored one is searched alone for its five best chunks.
        Without a document the two-stage retrieval selects the results. The
        reply is then built from the results, with their context and
        sources. */
    ghost predicate ChatOutcome(index: map<string, VectorRecord>,
                                similarity: (Repository.Embedding, Repository.Embedding) -> real,
                                message: string, documentId: Option<string>, interviewMode: bool,
                                r: Result<ChatResult>, stage1: seq<Match>, order: seq<string>,
                                perDoc: seq<seq<Match>>, results: seq<Match>)
    {
      var embedded := EmbedText(embedding, message);
      if embedded.Err? then r == Err(embedded.error)
      else if documentId.Some? && documentId.value != "" then
        var d := documentId.value;
        if exists id :: id in index && Satisfies(index[id].metadata, ByDocument(d)) then
          IsQueryAnswer(index, similarity, embedded.value, ByDocument(d), 5, results) &&
          r == Respond(llm, message, results)
        else
          r == Err(ValueError("Document not found (ID: " + d + ")"))
      else
        TwoStage(index, similarity, embedded.value, interviewMode, stage1, order, perDoc, results) &&
        r == Respond(llm, message, results)
    }

    /** `handle_chat`. */
    method HandleChat(message: string, documentId: Option<string>, interviewMode: bool)
      returns (r: Result<ChatResult>, ghost stage1: seq<Match>, ghost order: seq<string>,
               ghost perDoc: seq<seq<Match>>, ghost results: seq<Match>)
      ensures ChatOutcome(repo.index, repo.similarity, message, documentId, interviewMode,
                          r, stage1, order, perDoc, results)
    {
      stage1, order, perDoc, results := [], [], [], [];
      var embedded := EmbedText(embedding, message);
      if embedded.Err? {
        return Err(embedded.error), stage1, order, perDoc, results;
      }
      var q := embedded.value;
      var searchResults: seq<Match>;
      if documentId.Some? && documentId.value != "" {
        var d := documentId.value;
        var hasDocument := repo.CheckExists(ByDocument(d));
        if !hasDocument {
          return Err(ValueError("Document not found (ID: " + d + ")")), stage1, order, perDoc, results;
        }
        searchResults := repo.QueryVectors(q, ByDocument(d), 5);
      } else {
        searchResults, stage1, order, perDoc := SearchAll(q, interviewMode);
      }
      results := searchResults;
      r := Reply(message, searchResults);
    }
  }
}
