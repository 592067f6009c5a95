/** The embedding service (`backend/utils/embedding_service.py`). The
    embeddings endpoint is the function `create` the service is built with:
    given the model name and a list of input texts it answers with one
    embedding list or with the error it raised. The rate-limit pause between
    batches does not change any result and is not modelled. */
module Embedding {
  import opened Wrappers
  import opened Text
  import opened Repository

  datatype EmbeddingService = EmbeddingService(
    model: string,
    create: (string, seq<string>) -> Result<seq<Embedding>>)

  const EmbedFailure := "Failed to generate embedding: "
  const BatchFailure := "Failed to generate batch embeddings: "
  const LargeModel := "text-embedding-3-large"

  /** `__init__`: an empty API key is refused; the model defaults to
      `text-embedding-3-small` at the call sites. */
  function NewEmbeddingService(apiKey: string, model: string,
                               create: (string, seq<string>) -> Result<seq<Embedding>>): (r: Result<EmbeddingService>)
    ensures r.Err? <==> apiKey == ""
    ensures r.Err? ==> r.error == ValueError("OpenAI API key is required")
    ensures r.Ok? ==> r.value.model == model
  {
    if apiKey == "" then Err(ValueError("OpenAI API key is required"))
    else Ok(EmbeddingService(model, create))
  }

  /** `embed_text`: the text is stripped, a blank one is refused, and the
      first embedding of the answer is returned. Every failure, the blank
      text included, comes out as a generic error carrying the prefix. */
  function EmbedText(s: EmbeddingService, text: string): (r: Result<Embedding>)
    ensures Strip(text) == [] ==> r == Err(GenericError(EmbedFailure + "Text cannot be empty"))
    ensures r.Ok? ==> var answer := s.create(s.model, [Strip(text)]);
      Strip(text) != [] && answer.Ok? && |answer.value| > 0 && r.value == answer.value[0]
    ensures var answer := s.create(s.model, [Strip(text)]);
      Strip(text) != [] && answer.Ok? && |answer.value| > 0 ==> r.Ok?
    ensures r.Err? ==> r.error.GenericError? && EmbedFailure <= r.error.message
  {
    var t := Strip(text);
    if t == [] then Err(GenericError(EmbedFailure + "Text cannot be empty"))
    else
      match s.create(s.model, [t])
      case Err(e) => Err(GenericError(EmbedFailure + e.message))
      case Ok(data) =>
        if |data| == 0 then Err(GenericError(EmbedFailure + "list index out of range"))
        else Ok(data[0])
  }

  /** Whitespace around the text never changes what is embedded. */
  lemma EmbedTextStripInvariant(s: EmbeddingService, text: string)
    ensures EmbedText(s, Strip(text)) == EmbedText(s, text)
  {
    StripStripped(Strip(text));
  }

  /** The batch starting at offset `i`: `texts[i:i + batch_size]`. */
  function BatchAt(texts: seq<string>, size: nat, i: nat): (b: seq<string>)
    requires i < |texts|
    ensures 0 < |b| <= size || (size == 0 && b == [])
    ensures b == texts[i..Min(i + size, |texts|)]
  {
    texts[i..Min(i + size, |texts|)]
  }

  /** The batches for the offsets `i, i + size, i + 2*size, …` below the
      length of the list. */
  function BatchesFrom(texts: seq<string>, size: nat, i: nat): seq<seq<string>>
    requires size > 0
    decreases |texts| - i
  {
    if i >= |texts| then [] else [BatchAt(texts, size, i)] + BatchesFrom(texts, size, i + size)
  }

  /** The batches in order, glued back together. */
  function Flatten<T>(parts: seq<seq<T>>): seq<T> {
    if parts == [] then [] else parts[0] + Flatten(parts[1..])
  }

  /** Gluing one more part on at the end. */
  lemma {:induction false} FlattenAppend<T>(parts: seq<seq<T>>, last: seq<T>)
    ensures Flatten(parts + [last]) == Flatten(parts) + last
    decreases |parts|
  {
    if parts != [] {
      FlattenAppend(parts[1..], last);
      assert (parts + [last])[1..] == parts[1..] + [last];
    }
  }

  /** An element is in the glued list exactly when it is in one of the parts. */
  lemma {:induction false} FlattenMembers<T>(parts: seq<seq<T>>)
    ensures forall x :: x in Flatten(parts) ==> exists k :: 0 <= k < |parts| && x in parts[k]
    ensures forall x, k :: 0 <= k < |parts| && x in parts[k] ==> x in Flatten(parts)
    decreases |parts|
  {
    if parts != [] {
      var rest := parts[1..];
      FlattenMembers(rest);
      assert Flatten(parts) == parts[0] + Flatten(rest);
      forall x | x in Flatten(parts)
        ensures exists k :: 0 <= k < |parts| && x in parts[k]
      {
        if x !in parts[0] {
          assert x in Flatten(rest);
          var k :| 0 <= k < |rest| && x in rest[k];
          assert x in parts[k + 1];
        }
      }
      forall x, k | 0 <= k < |parts| && x in parts[k]
        ensures x in Flatten(parts)
      {
        if k > 0 {
          assert x in rest[k - 1];
        }
      }
    }
  }

  /** One call per batch, in order, the answers concatenated; the first
      failing call ends the whole run with that failure. */
  function RunBatches(s: EmbeddingService, batches: seq<seq<string>>): Result<seq<Embedding>> {
    if batches == [] then Ok([])
    else
      match s.create(s.model, batches[0])
      case Err(e) => Err(GenericError(BatchFailure + e.message))
      case Ok(data) =>
        var rest := RunBatches(s, batches[1..]);
        if rest.Err? then rest else Ok(data + rest.value)
  }

  /** What `embed_batch(texts, batch_size)` returns or raises. An empty list
      is answered without any call; a zero batch size makes `range` raise,
      a negative one makes it empty. */
  function EmbedBatchSpec(s: EmbeddingService, texts: seq<string>, batchSize: int): (r: Result<seq<Embedding>>)
    ensures texts == [] ==> r == Ok([])
    ensures texts != [] && batchSize == 0 ==> r == Err(ValueError("range() arg 3 must not be zero"))
    ensures batchSize < 0 ==> r == Ok([])
  {
    if texts == [] then Ok([])
    else if batchSize == 0 then Err(ValueError("range() arg 3 must not be zero"))
    else if batchSize < 0 then Ok([])
    else RunBatches(s, BatchesFrom(texts, batchSize, 0))
  }

  /** The answers gathered so far in front of what the remaining batches give. */
  function Prepend(done: seq<Embedding>, r: Result<seq<Embedding>>): Result<seq<Embedding>> {
    if r.Ok? then Ok(done + r.value) else r
  }

  /** `embed_batch`: a loop over the batch offsets that extends the answer
      list batch by batch and stops at the first failure. */
  method EmbedBatch(s: EmbeddingService, texts: seq<string>, batchSize: int) returns (r: Result<seq<Embedding>>)
    ensures r == EmbedBatchSpec(s, texts, batchSize)
  {
    if |texts| == 0 {
      return Ok([]);
    }
    if batchSize == 0 {
      return Err(ValueError("range() arg 3 must not be zero"));
    }
    if batchSize < 0 {
      return Ok([]);
    }
    var all: seq<Embedding> := [];
    var i: nat := 0;
    assert Prepend(all, RunBatches(s, BatchesFrom(texts, batchSize, 0))) == RunBatches(s, BatchesFrom(texts, batchSize, 0)) by {
      var whole := RunBatches(s, BatchesFrom(texts, batchSize, 0));
      if whole.Ok? {
        assert all + whole.value == whole.value;
      }
    }
    while i < |texts|
      invariant Prepend(all, RunBatches(s, BatchesFrom(texts, batchSize, i))) == EmbedBatchSpec(s, texts, batchSize)
      decreases |texts| - i
    {
      var batch := texts[i..Min(i + batchSize, |texts|)];
      assert BatchesFrom(texts, batchSize, i) == [batch] + BatchesFrom(texts, batchSize, i + batchSize);
      var response := s.create(s.model, batch);
      if response.Err? {
        return Err(GenericError(BatchFailure + response.error.message));
      }
      var rest := RunBatches(s, BatchesFrom(texts, batchSize, i + batchSize));
      if rest.Ok? {
        assert all + (response.value + rest.value) == (all + response.value) + rest.value;
      }
      all := all + response.value;
      i := i + batchSize;
    }
    assert all + [] == all;
    return Ok(all);
  }

  /** The batches partition the texts from offset `i` on, in order. */
  lemma {:induction false} BatchesPartition(texts: seq<string>, size: nat, i: nat)
    requires size > 0 && i <= |texts|
    ensures Flatten(BatchesFrom(texts, size, i)) == texts[i..]
    decreases |texts| - i
  {
    if i < |texts| {
      var j := Min(i + size, |texts|);
      BatchesPartition(texts, size, j);
      if j < |texts| {
        assert BatchesFrom(texts, size, i + size) == BatchesFrom(texts, size, j);
      } else {
        assert BatchesFrom(texts, size, i + size) == [];
      }
      var bs := BatchesFrom(texts, size, i);
      assert bs[0] == texts[i..j] && bs[1..] == BatchesFrom(texts, size, i + size);
      assert texts[i..] == texts[i..j] + texts[j..];
    }
  }

  /** Every batch is non-empty and holds at most `size` texts. */
  lemma {:induction false} BatchSizes(texts: seq<string>, size: nat, i: nat)
    requires size > 0
    ensures forall k :: 0 <= k < |BatchesFrom(texts, size, i)| ==>
      0 < |BatchesFrom(texts, size, i)[k]| <= size
    decreases |texts| - i
  {
    if i < |texts| {
      BatchSizes(texts, size, i + size);
      var bs := BatchesFrom(texts, size, i);
      assert bs[1..] == BatchesFrom(texts, size, i + size);
      forall k | 1 <= k < |bs|
        ensures 0 < |bs[k]| <= size
      {
        assert bs[k] == bs[1..][k - 1];
      }
    }
  }

  lemma MulZero(d: int, k: int)
    requires d > 0 && -d < d * k < d
    ensures k == 0
  {
  }

  lemma DivStep(x: int, d: int)
    requires x >= 0 && d > 0
    ensures (x + d) / d == x / d + 1
  {
    var q, q2 := x / d, (x + d) / d;
    assert x == d * q + x % d;
    assert x + d == d * q2 + (x + d) % d;
    assert d * (q2 - q - 1) == x % d - (x + d) % d;
    MulZero(d, q2 - q - 1);
  }

  lemma DivSmall(x: int, d: int)
    requires 0 <= x < d
    ensures x / d == 0
  {
  }

  /** `ceil(n / size)` calls for the `n` texts left from offset `i`. */
  lemma {:induction false} BatchCount(texts: seq<string>, size: nat, i: nat)
    requires size > 0 && i <= |texts|
    ensures |BatchesFrom(texts, size, i)| == (|texts| - i + size - 1) / size
    decreases |texts| - i
  {
    var n := |texts| - i;
    if n == 0 {
      DivSmall(size - 1, size);
    } else {
      DivStep(n - 1, size);
      if i + size < |texts| {
        BatchCount(texts, size, i + size);
      } else {
        DivSmall(n - 1, size);
      }
    }
  }

  /** The embeddings one call answered with, or none when it failed. */
  function Answer(s: EmbeddingService, batch: seq<string>): seq<Embedding> {
    var a := s.create(s.model, batch);
    if a.Ok? then a.value else []
  }

  /** The run succeeds exactly when every call succeeds, and then it is the
      answers concatenated in batch order. */
  lemma {:induction false} RunBatchesConcat(s: EmbeddingService, batches: seq<seq<string>>)
    ensures RunBatches(s, batches).Ok? <==> forall k :: 0 <= k < |batches| ==> s.create(s.model, batches[k]).Ok?
    ensures RunBatches(s, batches).Ok? ==>
      RunBatches(s, batches).value == Flatten(seq(|batches|, k requires 0 <= k < |batches| => Answer(s, batches[k])))
    decreases |batches|
  {
    if batches != [] {
      RunBatchesConcat(s, batches[1..]);
      var answers := seq(|batches|, k requires 0 <= k < |batches| => Answer(s, batches[k]));
      var tail := batches[1..];
      if RunBatches(s, batches).Ok? {
        assert s.create(s.model, batches[0]).Ok?;
        assert answers[1..] == seq(|tail|, k requires 0 <= k < |tail| => Answer(s, tail[k]));
      }
      if forall k :: 0 <= k < |batches| ==> s.create(s.model, batches[k]).Ok? {
        assert forall k :: 0 <= k < |tail| ==> s.create(s.model, tail[k]).Ok? by {
          forall k | 0 <= k < |tail| ensures s.create(s.model, tail[k]).Ok? {
            assert tail[k] == batches[k + 1];
          }
        }
      }
    }
  }

  /** An endpoint that answers every list with one embedding per text. */
  ghost predicate OnePerText(s: EmbeddingService) {
    forall inputs: seq<string> {:trigger s.create(s.model, inputs)} ::
      s.create(s.model, inputs).Ok? ==> |s.create(s.model, inputs).value| == |inputs|
  }

  /** With such an endpoint a successful run has one embedding per text. */
  lemma {:induction false} RunBatchesCount(s: EmbeddingService, batches: seq<seq<string>>)
    requires OnePerText(s)
    ensures RunBatches(s, batches).Ok? ==> |RunBatches(s, batches).value| == |Flatten(batches)|
    decreases |batches|
  {
    if batches != [] {
      RunBatchesCount(s, batches[1..]);
      var answer := s.create(s.model, batches[0]);
      if answer.Ok? {
        assert |answer.value| == |batches[0]|;
      }
    }
  }

  /** `embed_batch` with a positive batch size, against such an endpoint,
      returns one embedding per input text when it succeeds. */
  lemma EmbedBatchCount(s: EmbeddingService, texts: seq<string>, batchSize: int)
    requires OnePerText(s) && batchSize > 0
    ensures EmbedBatchSpec(s, texts, batchSize).Ok? ==> |EmbedBatchSpec(s, texts, batchSize).value| == |texts|
  {
    if texts != [] {
      RunBatchesCount(s, BatchesFrom(texts, batchSize, 0));
      BatchesPartition(texts, batchSize, 0);
    }
  }

  /** `get_embedding_dimension`: the table of known models, 1536 otherwise. */
  function EmbeddingDimension(s: EmbeddingService): (d: nat)
    ensures d == 3072 <==> s.model == LargeModel
    ensures d != 3072 ==> d == 1536
  {
    match s.model
    case "text-embedding-3-small" => 1536
    case "text-embedding-3-large" => 3072
    case "text-embedding-ada-002" => 1536
    case _ => 1536
  }
}
