/** The vector store (`backend/repositories/vector_repository.py`). The
    Pinecone index is an in-memory table from vector id to its values and
    metadata; similarity scoring is a function the repository is built with,
    and a similarity query returns any answer the index may give: the
    `top_k` best-scoring vectors that satisfy the filter, best first, ties
    in any order. */
module Repository {
  import opened Wrappers

  /** An embedding vector. The model never computes on its components. */
  type Embedding = seq<real>

  /** The metadata keys the backend writes and reads. A key that is absent
      from a vector's metadata is `None`. */
  datatype Metadata = Metadata(
    text: Option<string>,
    documentId: Option<string>,
    title: Option<string>,
    chunkNumber: Option<int>,
    isInterview: Option<bool>)

  /** One stored vector. */
  datatype VectorRecord = VectorRecord(values: Embedding, metadata: Metadata)

  /** One vector handed to `upsert_vectors`: `{"id", "values", "metadata"}`. */
  datatype Vector = Vector(id: string, values: Embedding, metadata: Metadata)

  /** The metadata filters the backend uses: `{}`, `{"document_id": d}` and
      `{"is_interview": b}`. */
  datatype Filter = NoFilter | ByDocument(documentId: string) | ByInterview(flag: bool)

  /** Pinecone's equality filter on one metadata key. */
  predicate Satisfies(m: Metadata, f: Filter) {
    match f
    case NoFilter => true
    case ByDocument(d) => m.documentId == Some(d)
    case ByInterview(b) => m.isInterview == Some(b)
  }

  /** A query result as `query_vectors` shapes it: `text` is the metadata
      text, or `""` when that key is absent. */
  datatype Match = Match(id: string, score: real, text: string, metadata: Metadata)

  /** A document as `list_unique_documents` describes it. */
  datatype DocumentInfo = DocumentInfo(documentId: string, title: string, totalChunks: nat, isInterview: bool)

  /** `metadata.get("document_id")` when it is truthy, i.e. present and not
      empty. */
  function DocumentIdOf(m: Metadata): (d: Option<string>)
    ensures d.Some? <==> m.documentId.Some? && m.documentId.value != ""
    ensures d.Some? ==> d.value == m.documentId.value
  {
    if m.documentId.Some? && m.documentId.value != "" then m.documentId else None
  }

  /** The query vector the repository sends when it only wants to list:
      `[0.0] * dimension`. */
  function Zero(dimension: nat): (v: Embedding)
    ensures |v| == dimension
  {
    seq(dimension, _ => 0.0)
  }

  function Min(a: int, b: int): int {
    if a <= b then a else b
  }

  /** The ids of the stored vectors that satisfy `f`. */
  function MatchingIds(index: map<string, VectorRecord>, f: Filter): (ids: set<string>)
    ensures forall id :: id in ids <==> id in index && Satisfies(index[id].metadata, f)
  {
    set id | id in index && Satisfies(index[id].metadata, f)
  }

  /** The result entry for stored vector `id` against query vector `q`. */
  function MatchOf(index: map<string, VectorRecord>, similarity: (Embedding, Embedding) -> real,
                   q: Embedding, id: string): (m: Match)
    requires id in index
    ensures m.id == id && m.metadata == index[id].metadata
    ensures m.text == (if index[id].metadata.text.Some? then index[id].metadata.text.value else "")
  {
    Match(id, similarity(q, index[id].values), index[id].metadata.text.GetOr(""), index[id].metadata)
  }

  /** The ids of a result list. */
  function IdsOf(ms: seq<Match>): (ids: set<string>)
    ensures forall id :: id in ids <==> exists i :: 0 <= i < |ms| && ms[i].id == id
  {
    set i | 0 <= i < |ms| :: ms[i].id
  }

  /** What a similarity query may answer: `min(top_k, #matching)` distinct
      filter-satisfying vectors, best score first, and no left-out matching
      vector scoring above any returned one. */
  ghost predicate IsQueryAnswer(index: map<string, VectorRecord>, similarity: (Embedding, Embedding) -> real,
                                q: Embedding, f: Filter, topK: nat, ms: seq<Match>)
  {
    && |ms| == Min(topK, |MatchingIds(index, f)|)
    && (forall i :: 0 <= i < |ms| ==> ms[i].id in MatchingIds(index, f) && ms[i] == MatchOf(index, similarity, q, ms[i].id))
    && (forall i, j :: 0 <= i < j < |ms| ==> ms[i].id != ms[j].id && ms[j].score <= ms[i].score)
    && (forall i, id :: 0 <= i < |ms| && id in MatchingIds(index, f) && id !in IdsOf(ms) ==>
          similarity(q, index[id].values) <= ms[i].score)
  }

  /** The score of stored vector `id` against query vector `q`. */
  function ScoreOf(index: map<string, VectorRecord>, similarity: (Embedding, Embedding) -> real,
                   q: Embedding, id: string): real
    requires id in index
  {
    similarity(q, index[id].values)
  }

  /** A non-empty finite set of stored ids has a best-scoring member. */
  lemma {:induction false} BestExists(index: map<string, VectorRecord>, similarity: (Embedding, Embedding) -> real,
                                      q: Embedding, ids: set<string>)
    requires ids != {} && ids <= index.Keys
    ensures exists b :: b in ids && forall o :: o in ids ==> ScoreOf(index, similarity, q, o) <= ScoreOf(index, similarity, q, b)
    decreases |ids|
  {
    var x :| x in ids;
    var rest := ids - {x};
    if rest != {} {
      BestExists(index, similarity, q, rest);
      var b :| b in rest && forall o :: o in rest ==> ScoreOf(index, similarity, q, o) <= ScoreOf(index, similarity, q, b);
      assert forall o :: o in ids ==> o == x || o in rest;
      if ScoreOf(index, similarity, q, x) > ScoreOf(index, similarity, q, b) {
        assert forall o :: o in ids ==> ScoreOf(index, similarity, q, o) <= ScoreOf(index, similarity, q, x);
      }
    } else {
      assert ids == {x};
    }
  }

  /** The state of the selection that answers a query: `ms` holds the
      best of `all` so far, best first, and `remaining` the rest. */
  ghost predicate Selected(index: map<string, VectorRecord>, similarity: (Embedding, Embedding) -> real,
                           q: Embedding, all: set<string>, remaining: set<string>, ms: seq<Match>)
  {
    && remaining <= all <= index.Keys
    && (forall i :: 0 <= i < |ms| ==>
          ms[i].id in all && ms[i].id !in remaining && ms[i] == MatchOf(index, similarity, q, ms[i].id))
    && (forall id :: id in all && id !in remaining ==> id in IdsOf(ms))
    && (forall i, j :: 0 <= i < j < |ms| ==> ms[i].id != ms[j].id && ms[j].score <= ms[i].score)
    && (forall i, id :: 0 <= i < |ms| && id in remaining ==> ScoreOf(index, similarity, q, id) <= ms[i].score)
  }

  /** Moving the best remaining id to the end of the answer keeps the
      selection state. */
  lemma SelectStep(index: map<string, VectorRecord>, similarity: (Embedding, Embedding) -> real,
                   q: Embedding, all: set<string>, remaining: set<string>, ms: seq<Match>, best: string)
    requires Selected(index, similarity, q, all, remaining, ms)
    requires best in remaining
    requires forall o :: o in remaining ==> ScoreOf(index, similarity, q, o) <= ScoreOf(index, similarity, q, best)
    ensures Selected(index, similarity, q, all, remaining - {best}, ms + [MatchOf(index, similarity, q, best)])
  {
    var m := MatchOf(index, similarity, q, best);
    var ms' := ms + [m];
    IdsOfSnoc(ms, m);
    assert forall i :: 0 <= i < |ms| ==> ms'[i] == ms[i];
    assert ms'[|ms|] == m;
  }

  /** A selection that has `top_k` results or has run out of candidates is
      an answer to the query. */
  lemma SelectDone(index: map<string, VectorRecord>, similarity: (Embedding, Embedding) -> real,
                   q: Embedding, f: Filter, topK: nat, remaining: set<string>, ms: seq<Match>)
    requires Selected(index, similarity, q, MatchingIds(index, f), remaining, ms)
    requires |ms| + |remaining| == |MatchingIds(index, f)| && |ms| <= topK
    requires |ms| == topK || remaining == {}
    ensures IsQueryAnswer(index, similarity, q, f, topK, ms)
  {
  }

  /** `index.update(id=…, set_metadata={"is_interview": v})` on one record. */
  function WithFlag(r: VectorRecord, v: bool): (r': VectorRecord)
    ensures r'.values == r.values && r'.metadata.isInterview == Some(v)
    ensures r'.metadata.(isInterview := r.metadata.isInterview) == r.metadata
  {
    r.(metadata := r.metadata.(isInterview := Some(v)))
  }

  /** The index after `index.upsert(vectors)`: each vector inserted or
      replaced by id, in order, so a later vector with the same id wins. */
  function Upserted(index: map<string, VectorRecord>, vectors: seq<Vector>): map<string, VectorRecord>
    decreases |vectors|
  {
    if vectors == [] then index
    else Upserted(index[vectors[0].id := VectorRecord(vectors[0].values, vectors[0].metadata)], vectors[1..])
  }

  /** Upsert keeps every stored id, adds the ids of the vectors, stores for
      each id of the batch its last vector in the batch, and leaves every
      other record untouched. */
  lemma {:induction false} UpsertedLookup(index: map<string, VectorRecord>, vectors: seq<Vector>, id: string)
    ensures id in Upserted(index, vectors) <==> id in index || exists j :: 0 <= j < |vectors| && vectors[j].id == id
    ensures (forall j :: 0 <= j < |vectors| ==> vectors[j].id != id) && id in index ==>
      Upserted(index, vectors)[id] == index[id]
    ensures forall j :: (0 <= j < |vectors| && vectors[j].id == id
      && (forall l :: j < l < |vectors| ==> vectors[l].id != id)) ==>
      Upserted(index, vectors)[id] == VectorRecord(vectors[j].values, vectors[j].metadata)
    decreases |vectors|
  {
    if vectors != [] {
      var v := vectors[0];
      var index' := index[v.id := VectorRecord(v.values, v.metadata)];
      var rest := vectors[1..];
      UpsertedLookup(index', rest, id);
      assert forall j :: 1 <= j < |vectors| ==> vectors[j] == rest[j - 1];
      if (exists j :: 0 <= j < |vectors| && vectors[j].id == id) {
        var j :| 0 <= j < |vectors| && vectors[j].id == id;
        if j > 0 {
          assert rest[j - 1].id == id;
        }
      }
      forall j | 0 <= j < |vectors| && vectors[j].id == id && (forall l :: j < l < |vectors| ==> vectors[l].id != id)
        ensures Upserted(index, vectors)[id] == VectorRecord(vectors[j].values, vectors[j].metadata)
      {
        if j > 0 {
          assert rest[j - 1] == vectors[j];
          assert forall l :: j - 1 < l < |rest| ==> rest[l].id != id by {
            forall l | j - 1 < l < |rest| ensures rest[l].id != id {
              assert rest[l] == vectors[l + 1];
            }
          }
        } else {
          assert forall l :: 0 <= l < |rest| ==> rest[l].id != id by {
            forall l | 0 <= l < |rest| ensures rest[l].id != id {
              assert rest[l] == vectors[l + 1];
            }
          }
        }
      }
    }
  }

  /** The stored vector state: the index, the dimension its dummy queries
      use, and the scoring the index applies. */
  class VectorRepository {
    const dimension: nat
    const similarity: (Embedding, Embedding) -> real
    var index: map<string, VectorRecord>

    /** Connects to an index that already holds `contents`. */
    constructor (dimension: nat, similarity: (Embedding, Embedding) -> real, contents: map<string, VectorRecord>)
      ensures this.dimension == dimension && this.similarity == similarity && index == contents
    {
      this.dimension := dimension;
      this.similarity := similarity;
      index := contents;
    }

    /** `upsert_vectors`: insert or replace each vector; returns how many
        were sent. */
    method UpsertVectors(vectors: seq<Vector>) returns (count: nat)
      modifies this
      ensures index == Upserted(old(index), vectors)
      ensures count == |vectors|
    {
      index := Upserted(index, vectors);
      count := |vectors|;
    }

    /** `query_vectors`: the index answers with the `top_k` best-scoring
        vectors that satisfy the filter. The selection below yields exactly
        the answers the index may give, ties broken arbitrarily. */
    method QueryVectors(vector: Embedding, filter: Filter, topK: nat) returns (matches: seq<Match>)
      ensures IsQueryAnswer(index, similarity, vector, filter, topK, matches)
    {
      var all := MatchingIds(index, filter);
      var remaining := all;
      matches := [];
      while |matches| < topK && remaining != {}
        invariant Selected(index, similarity, vector, all, remaining, matches)
        invariant |matches| <= topK && |matches| + |remaining| == |all|
        decreases |remaining|
      {
        BestExists(index, similarity, vector, remaining);
        var best :| best in remaining && forall o :: o in remaining ==>
          ScoreOf(index, similarity, vector, o) <= ScoreOf(index, similarity, vector, best);
        SelectStep(index, similarity, vector, all, remaining, matches, best);
        matches := matches + [MatchOf(index, similarity, vector, best)];
        remaining := remaining - {best};
      }
      SelectDone(index, similarity, vector, filter, topK, remaining, matches);
    }

    /** `delete_by_filter`: removes exactly the vectors that satisfy the
        filter. */
    method DeleteByFilter(filter: Filter)
      modifies this
      ensures forall id :: id in index <==> id in old(index) && !Satisfies(old(index)[id].metadata, filter)
      ensures forall id :: id in index ==> index[id] == old(index)[id]
    {
      index := map id | id in index && !Satisfies(index[id].metadata, filter) :: index[id];
    }

    /** `delete_all`: empties the index. */
    method DeleteAll()
      modifies this
      ensures index == map[]
    {
      index := map[];
    }

    /** `check_exists`: a one-result dummy query comes back non-empty
        exactly when some stored vector satisfies the filter. */
    method CheckExists(filter: Filter) returns (exists_: bool)
      ensures exists_ <==> exists id :: id in index && Satisfies(index[id].metadata, filter)
    {
      var matches := QueryVectors(Zero(dimension), filter, 1);
      exists_ := |matches| > 0;
      if !exists_ {
        assert MatchingIds(index, filter) == {};
      } else {
        assert matches[0].id in MatchingIds(index, filter);
      }
    }

    /** The update loop of `clear_interview_flags` and `set_interview_flag`:
        sets the flag of every returned vector. */
    method SetFlags(matches: seq<Match>, value: bool)
      requires forall i :: 0 <= i < |matches| ==> matches[i].id in index
      modifies this
      ensures forall id :: id in index <==> id in old(index)
      ensures forall id :: id in index ==>
        index[id] == if id in IdsOf(matches) then WithFlag(old(index)[id], value) else old(index)[id]
    {
      for i := 0 to |matches|
        invariant forall id :: id in index <==> id in old(index)
        invariant forall id :: id in index ==>
          index[id] == if id in IdsOf(matches[..i]) then WithFlag(old(index)[id], value) else old(index)[id]
      {
        var id := matches[i].id;
        index := index[id := WithFlag(index[id], value)];
        assert matches[..i + 1] == matches[..i] + [matches[i]];
        IdsOfSnoc(matches[..i], matches[i]);
      }
      assert matches[..|matches|] == matches;
    }

    /** `clear_interview_flags`: the (at most 10,000) flagged vectors a
        dummy query returns get `is_interview = False`; nothing else
        changes. When no more than 10,000 vectors were flagged, none is
        flagged afterwards. */
    method ClearInterviewFlags() returns (ghost cleared: set<string>)
      modifies this
      ensures cleared <= MatchingIds(old(index), ByInterview(true))
      ensures |cleared| == Min(10000, |MatchingIds(old(index), ByInterview(true))|)
      ensures forall id :: id in index <==> id in old(index)
      ensures forall id :: id in index ==>
        index[id] == if id in cleared then WithFlag(old(index)[id], false) else old(index)[id]
      ensures |MatchingIds(old(index), ByInterview(true))| <= 10000 ==> MatchingIds(index, ByInterview(true)) == {}
    {
      var matches := QueryVectors(Zero(dimension), ByInterview(true), 10000);
      cleared := IdsOf(matches);
      ghost var flagged := MatchingIds(index, ByInterview(true));
      DistinctIdsCount(matches);
      if |matches| > 0 {
        SetFlags(matches, false);
      }
      if |flagged| <= 10000 {
        SubsetSameSize(cleared, flagged);
      }
    }

    /** `set_interview_flag(document_id, value)`: every vector of that
        document (at most 10,000 of them) gets `is_interview = value`;
        vectors of other documents are untouched. */
    method SetInterviewFlag(documentId: string, value: bool) returns (ghost updated: set<string>)
      modifies this
      ensures updated <= MatchingIds(old(index), ByDocument(documentId))
      ensures |updated| == Min(10000, |MatchingIds(old(index), ByDocument(documentId))|)
      ensures forall id :: id in index <==> id in old(index)
      ensures forall id :: id in index ==>
        index[id] == if id in updated then WithFlag(old(index)[id], value) else old(index)[id]
    {
      var matches := QueryVectors(Zero(dimension), ByDocument(documentId), 10000);
      updated := IdsOf(matches);
      DistinctIdsCount(matches);
      if |matches| > 0 {
        SetFlags(matches, value);
      }
    }

    /** `list_unique_documents`: one entry per document id among the (at
        most 10,000) vectors a dummy query returns, in order of first
        appearance, as `GroupByDocument` describes. */
    method ListUniqueDocuments() returns (docs: seq<DocumentInfo>, ghost matches: seq<Match>)
      ensures IsQueryAnswer(index, similarity, Zero(dimension), NoFilter, 10000, matches)
      ensures docs == GroupByDocument(matches)
    {
      var results := QueryVectors(Zero(dimension), NoFilter, 10000);
      matches := results;
      docs := GroupResults(results);
    }
  }

  /** The grouping loop of `list_unique_documents`: the `documents_map`
      filled in one pass, then listed in order of first appearance. */
  method GroupResults(results: seq<Match>) returns (docs: seq<DocumentInfo>)
    ensures docs == GroupByDocument(results)
  {
    var order: seq<string> := [];
    var entries: map<string, DocumentInfo> := map[];
    for i := 0 to |results|
      invariant order == FirstAppearances(results[..i])
      invariant entries == EntriesOf(results[..i])
    {
      var m := results[i];
      var docId := DocumentIdOf(m.metadata);
      assert results[..i + 1] == results[..i] + [m];
      if docId.Some? && docId.value !in entries {
        EntriesSnocNew(results[..i], m, docId.value);
        entries := entries[docId.value := DocumentInfo(docId.value, m.metadata.title.GetOr("Untitled"), 1,
          m.metadata.isInterview.GetOr(false))];
        order := order + [docId.value];
      } else if docId.Some? {
        EntriesSnocSeen(results[..i], m, docId.value);
        var e := entries[docId.value];
        entries := entries[docId.value := e.(totalChunks := e.totalChunks + 1)];
      } else {
        EntriesSnocSkip(results[..i], m);
      }
    }
    assert results[..|results|] == results;
    var listed := seq(|order|, i requires 0 <= i < |order| => entries[order[i]]);
    assert forall i :: 0 <= i < |order| ==> listed[i] == InfoOf(results, order[i]);
    docs := listed;
  }

  /** The distinct document ids of a result list, in order of first
      appearance; vectors without a (non-empty) document id are skipped. */
  function FirstAppearances(ms: seq<Match>): (ds: seq<string>)
    decreases |ms|
  {
    if ms == [] then []
    else
      var p := FirstAppearances(ms[..|ms| - 1]);
      var d := DocumentIdOf(ms[|ms| - 1].metadata);
      if d.Some? && d.value !in p then p + [d.value] else p
  }

  /** How many results carry document id `d`. */
  function CountFor(ms: seq<Match>, d: string): nat
    decreases |ms|
  {
    if ms == [] then 0
    else CountFor(ms[..|ms| - 1], d) + (if DocumentIdOf(ms[|ms| - 1].metadata) == Some(d) then 1 else 0)
  }

  /** The first result that carries document id `d`. */
  function FirstFor(ms: seq<Match>, d: string): Match
    requires d in FirstAppearances(ms)
    decreases |ms|
  {
    var p := ms[..|ms| - 1];
    if d in FirstAppearances(p) then FirstFor(p, d) else ms[|ms| - 1]
  }

  /** The entry listed for document `d`: title and flag of its first
      result (defaults `"Untitled"` and `False`), and its result count. */
  function InfoOf(ms: seq<Match>, d: string): DocumentInfo
    requires d in FirstAppearances(ms)
  {
    var first := FirstFor(ms, d);
    DocumentInfo(d, first.metadata.title.GetOr("Untitled"), CountFor(ms, d), first.metadata.isInterview.GetOr(false))
  }

  /** The `documents_map` built from a result list: each listed document
      to its entry. */
  function EntriesOf(ms: seq<Match>): (e: map<string, DocumentInfo>)
    ensures forall d :: d in e <==> d in FirstAppearances(ms)
  {
    map d | d in FirstAppearances(ms) :: InfoOf(ms, d)
  }

  /** The documents listed for a result list. */
  function GroupByDocument(ms: seq<Match>): (docs: seq<DocumentInfo>)
    ensures |docs| == |FirstAppearances(ms)|
  {
    var ds := FirstAppearances(ms);
    seq(|ds|, i requires 0 <= i < |ds| => InfoOf(ms, ds[i]))
  }

  /** Appending a result adds its id. */
  lemma IdsOfSnoc(ms: seq<Match>, m: Match)
    ensures IdsOf(ms + [m]) == IdsOf(ms) + {m.id}
  {
    assert forall i :: 0 <= i < |ms| ==> (ms + [m])[i] == ms[i];
    assert (ms + [m])[|ms|] == m;
  }

  /** A result list of distinct ids has as many ids as entries. */
  lemma {:induction false} DistinctIdsCount(ms: seq<Match>)
    requires forall i, j :: 0 <= i < j < |ms| ==> ms[i].id != ms[j].id
    ensures |IdsOf(ms)| == |ms|
    decreases |ms|
  {
    if ms != [] {
      var p := ms[..|ms| - 1];
      DistinctIdsCount(p);
      assert IdsOf(ms) == IdsOf(p) + {ms[|ms| - 1].id};
      assert ms[|ms| - 1].id !in IdsOf(p);
    }
  }

  /** A subset is no larger than its superset. */
  lemma {:induction false} SubsetSize<T>(a: set<T>, b: set<T>)
    requires a <= b
    ensures |a| <= |b|
    decreases |a|
  {
    if a != {} {
      var x :| x in a;
      SubsetSize(a - {x}, b - {x});
    }
  }

  /** A subset as large as its superset is the superset. */
  lemma SubsetSameSize<T>(a: set<T>, b: set<T>)
    requires a <= b && |a| == |b|
    ensures a == b
  {
    if a != b {
      var x :| x in b && x !in a;
      SubsetSize(a, b - {x});
    }
  }

  /** Appending a result that carries a document already listed adds one
      to that document's count and leaves its first result. */
  lemma InfoSnocOld(ms: seq<Match>, m: Match, d: string)
    requires d in FirstAppearances(ms)
    ensures d in FirstAppearances(ms + [m])
    ensures InfoOf(ms + [m], d) == InfoOf(ms, d).(totalChunks :=
      InfoOf(ms, d).totalChunks + if DocumentIdOf(m.metadata) == Some(d) then 1 else 0)
  {
    assert (ms + [m])[..|ms|] == ms;
  }

  /** A turn of the grouping loop on a result without a document id
      changes nothing. */
  lemma EntriesSnocSkip(ms: seq<Match>, m: Match)
    requires DocumentIdOf(m.metadata).None?
    ensures FirstAppearances(ms + [m]) == FirstAppearances(ms)
    ensures EntriesOf(ms + [m]) == EntriesOf(ms)
  {
    assert (ms + [m])[..|ms|] == ms;
    forall x | x in FirstAppearances(ms)
      ensures InfoOf(ms + [m], x) == InfoOf(ms, x)
    {
      InfoSnocOld(ms, m, x);
    }
  }

  /** A turn of the grouping loop on a result of a listed document counts
      it. */
  lemma EntriesSnocSeen(ms: seq<Match>, m: Match, d: string)
    requires DocumentIdOf(m.metadata) == Some(d) && d in FirstAppearances(ms)
    ensures FirstAppearances(ms + [m]) == FirstAppearances(ms)
    ensures EntriesOf(ms + [m]) == EntriesOf(ms)[d := EntriesOf(ms)[d].(totalChunks := EntriesOf(ms)[d].totalChunks + 1)]
  {
    assert (ms + [m])[..|ms|] == ms;
    forall x | x in FirstAppearances(ms)
      ensures InfoOf(ms + [m], x) == InfoOf(ms, x).(totalChunks :=
        InfoOf(ms, x).totalChunks + if x == d then 1 else 0)
    {
      InfoSnocOld(ms, m, x);
    }
  }

  /** A turn of the grouping loop on a result of an unlisted document lists
      it with this result as its first. */
  lemma EntriesSnocNew(ms: seq<Match>, m: Match, d: string)
    requires DocumentIdOf(m.metadata) == Some(d) && d !in FirstAppearances(ms)
    ensures FirstAppearances(ms + [m]) == FirstAppearances(ms) + [d]
    ensures EntriesOf(ms + [m]) ==
      EntriesOf(ms)[d := DocumentInfo(d, m.metadata.title.GetOr("Untitled"), 1, m.metadata.isInterview.GetOr(false))]
  {
    assert (ms + [m])[..|ms|] == ms;
    forall x | x in FirstAppearances(ms)
      ensures InfoOf(ms + [m], x) == InfoOf(ms, x)
    {
      InfoSnocOld(ms, m, x);
    }
    InfoSnocNew(ms, m, d);
  }

  /** A document that is not yet listed has no result so far. */
  lemma {:induction false} CountForUnlisted(ms: seq<Match>, d: string)
    requires d !in FirstAppearances(ms)
    ensures CountFor(ms, d) == 0
    decreases |ms|
  {
    if ms != [] {
      var p := ms[..|ms| - 1];
      var pd := FirstAppearances(p);
      var last := DocumentIdOf(ms[|ms| - 1].metadata);
      assert forall x :: x in pd ==> x in FirstAppearances(ms);
      CountForUnlisted(p, d);
    }
  }

  /** Appending a result whose document is not yet listed lists it, with
      that result as its first and a count of one. */
  lemma InfoSnocNew(ms: seq<Match>, m: Match, d: string)
    requires d !in FirstAppearances(ms) && DocumentIdOf(m.metadata) == Some(d)
    ensures FirstAppearances(ms + [m]) == FirstAppearances(ms) + [d]
    ensures InfoOf(ms + [m], d)
      == DocumentInfo(d, m.metadata.title.GetOr("Untitled"), 1, m.metadata.isInterview.GetOr(false))
  {
    assert (ms + [m])[..|ms|] == ms;
    CountForUnlisted(ms, d);
  }

  /** The listed document ids are distinct, and a document is listed
      exactly when some result carries its id. */
  lemma {:induction false} FirstAppearancesListed(ms: seq<Match>)
    ensures forall i, j :: 0 <= i < j < |FirstAppearances(ms)| ==> FirstAppearances(ms)[i] != FirstAppearances(ms)[j]
    ensures forall d :: d in FirstAppearances(ms) <==> exists i :: 0 <= i < |ms| && DocumentIdOf(ms[i].metadata) == Some(d)
    decreases |ms|
  {
    if ms != [] {
      var p := ms[..|ms| - 1];
      FirstAppearancesListed(p);
      forall d | (exists i :: 0 <= i < |p| && DocumentIdOf(p[i].metadata) == Some(d))
        ensures exists i :: 0 <= i < |ms| && DocumentIdOf(ms[i].metadata) == Some(d)
      {
        var i :| 0 <= i < |p| && DocumentIdOf(p[i].metadata) == Some(d);
        assert ms[i] == p[i];
      }
      forall d | (exists i :: 0 <= i < |ms| && DocumentIdOf(ms[i].metadata) == Some(d))
        ensures d in FirstAppearances(ms)
      {
        var i :| 0 <= i < |ms| && DocumentIdOf(ms[i].metadata) == Some(d);
        if i < |p| {
          assert p[i] == ms[i];
        }
      }
    }
  }

  /** The entry of a listed document takes its title and flag from the
      earliest result carrying its id, and counts at least that result. */
  lemma {:induction false} FirstForIsEarliest(ms: seq<Match>, d: string)
    requires d in FirstAppearances(ms)
    ensures CountFor(ms, d) >= 1
    ensures exists i :: (0 <= i < |ms| && ms[i] == FirstFor(ms, d) && DocumentIdOf(ms[i].metadata) == Some(d)
      && forall j :: 0 <= j < i ==> DocumentIdOf(ms[j].metadata) != Some(d))
    decreases |ms|
  {
    var p := ms[..|ms| - 1];
    if d in FirstAppearances(p) {
      FirstForIsEarliest(p, d);
      var i :| (0 <= i < |p| && p[i] == FirstFor(p, d) && DocumentIdOf(p[i].metadata) == Some(d)
        && forall j :: 0 <= j < i ==> DocumentIdOf(p[j].metadata) != Some(d));
      assert ms[i] == p[i];
      assert forall j :: 0 <= j < i ==> ms[j] == p[j];
    } else {
      FirstAppearancesListed(p);
      assert forall j :: 0 <= j < |p| ==> ms[j] == p[j];
    }
  }

  /** Every result of a query satisfies its filter; there are at most
      `top_k` of them, best first. */
  lemma AnswerSatisfies(index: map<string, VectorRecord>, similarity: (Embedding, Embedding) -> real,
                        q: Embedding, f: Filter, topK: nat, ms: seq<Match>)
    requires IsQueryAnswer(index, similarity, q, f, topK, ms)
    ensures |ms| <= topK
    ensures forall i :: 0 <= i < |ms| ==> Satisfies(ms[i].metadata, f)
    ensures forall i, j :: 0 <= i < j < |ms| ==> ms[j].score <= ms[i].score
  {
    forall i | 0 <= i < |ms|
      ensures Satisfies(ms[i].metadata, f)
    {
      assert ms[i].id in MatchingIds(index, f);
    }
  }

  /** A query whose `top_k` is at least the number of matching vectors
      returns every one of them. */
  lemma QueryCoversMatches(index: map<string, VectorRecord>, similarity: (Embedding, Embedding) -> real,
                           q: Embedding, f: Filter, topK: nat, ms: seq<Match>)
    requires IsQueryAnswer(index, similarity, q, f, topK, ms)
    requires |MatchingIds(index, f)| <= topK
    ensures IdsOf(ms) == MatchingIds(index, f)
  {
    DistinctIdsCount(ms);
    assert IdsOf(ms) <= MatchingIds(index, f);
    SubsetSameSize(IdsOf(ms), MatchingIds(index, f));
  }

  /** When the store holds at most 10,000 vectors, the listing answer
      covers it all: every stored vector is among the results with its own
      metadata, so every stored document id is listed and nothing else. */
  lemma ListingCoversStore(index: map<string, VectorRecord>, similarity: (Embedding, Embedding) -> real,
                           q: Embedding, ms: seq<Match>)
    requires IsQueryAnswer(index, similarity, q, NoFilter, 10000, ms)
    requires |index| <= 10000
    ensures IdsOf(ms) == index.Keys
    ensures forall d :: d in FirstAppearances(ms) <==>
      exists id :: id in index && DocumentIdOf(index[id].metadata) == Some(d)
  {
    assert MatchingIds(index, NoFilter) == index.Keys;
    QueryCoversMatches(index, similarity, q, NoFilter, 10000, ms);
    FirstAppearancesListed(ms);
    forall d | (exists id :: id in index && DocumentIdOf(index[id].metadata) == Some(d))
      ensures d in FirstAppearances(ms)
    {
      var id :| id in index && DocumentIdOf(index[id].metadata) == Some(d);
      var i :| 0 <= i < |ms| && ms[i].id == id;
      assert ms[i].metadata == index[id].metadata;
    }
  }
}
