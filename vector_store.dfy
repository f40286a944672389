/**
 * The FAISS vector store: the metadata list kept beside the index, document insertion
 * in embedding batches, and the filter / skip / early-stop loop over FAISS candidates.
 * The embedding model and FAISS's nearest-neighbour search are given functions.
 */
module VectorStore {
  import opened Common
  import opened Schemas

  const DefaultDimension: nat := 384
  const SearchOversampling: nat := 10
  /** FAISS's index for "no neighbour". */
  const NoNeighbour: int := -1
  const IndexErrorMessage: string := "IndexError: list index out of range"
  const RangeStepErrorMessage: string := "ValueError: range() arg 3 must not be zero"

  /** One FAISS candidate: a vector index (or -1) and its L2 distance. */
  type Candidate = (int, real)

  /** What `IndexFlatL2.search` returns for `k` neighbours over `ntotal` vectors. */
  predicate KnnShape(cands: seq<Candidate>, k: nat, ntotal: nat)
  {
    && |cands| == k
    && forall i | 0 <= i < |cands| :: NoNeighbour <= cands[i].0 < ntotal && cands[i].1 >= 0.0
  }

  /** `index.search(query_vector, k)` over the stored vectors. */
  type Knn = f: (seq<seq<real>>, seq<real>, nat) -> seq<Candidate>
    | forall v, q, k :: KnnShape(f(v, q, k), k, |v|)
    witness NoNeighbours

  /** A search that finds no neighbour: `k` times index -1. */
  function NoNeighbours(v: seq<seq<real>>, q: seq<real>, k: nat): (r: seq<Candidate>)
    ensures KnnShape(r, k, |v|)
  {
    seq(k, i => (NoNeighbour, 0.0))
  }

  function Min(a: nat, b: nat): nat
  {
    if a <= b then a else b
  }

  /** `search_k = min(top_k * 10, ntotal)` */
  function SearchK(topK: nat, ntotal: nat): (k: nat)
    ensures k <= ntotal && k <= topK * SearchOversampling
    ensures k == topK * SearchOversampling || k == ntotal
  {
    Min(topK * SearchOversampling, ntotal)
  }

  /**
   * The candidate loop from its current position: -1 is skipped, an index past the
   * metadata list raises, a rejected chunk is skipped, and the loop stops as soon as
   * `room` results have been collected (after the first one when `room` is 0 or 1).
   */
  function Scan(metadata: seq<Meta>, cands: seq<Candidate>, f: Filters, room: nat): Result<seq<(Meta, real)>>
    decreases |cands|
  {
    if cands == [] then Ok([])
    else
      var idx := cands[0].0;
      if idx == NoNeighbour then Scan(metadata, cands[1..], f, room)
      else if !(0 <= idx < |metadata|) then Err(IndexErrorMessage)
      else if !Admits(f, metadata[idx]) then Scan(metadata, cands[1..], f, room)
      else if room <= 1 then Ok([(metadata[idx], cands[0].1)])
      else
        var rest :- Scan(metadata, cands[1..], f, room - 1);
        Ok([(metadata[idx], cands[0].1)] + rest)
  }

  /** `prefix` followed by the rest of a scan, keeping an error. */
  function Continue(prefix: seq<(Meta, real)>, r: Result<seq<(Meta, real)>>): Result<seq<(Meta, real)>>
  {
    if r.Ok? then Ok(prefix + r.value) else r
  }

  lemma ContinueEmpty(r: Result<seq<(Meta, real)>>)
    ensures Continue([], r) == r
  {
    if r.Ok? {
      assert [] + r.value == r.value;
    }
  }

  lemma ContinueAssoc(a: seq<(Meta, real)>, b: seq<(Meta, real)>, r: Result<seq<(Meta, real)>>)
    ensures Continue(a, Continue(b, r)) == Continue(a + b, r)
  {
    if r.Ok? {
      assert a + (b + r.value) == (a + b) + r.value;
    }
  }

  /** An admitted candidate with room for more is followed by the scan of the rest. */
  lemma ScanAdmittedStep(metadata: seq<Meta>, cands: seq<Candidate>, f: Filters, room: nat)
    requires cands != [] && 0 <= cands[0].0 < |metadata| && Admits(f, metadata[cands[0].0]) && room >= 2
    ensures Scan(metadata, cands, f, room)
         == Continue([(metadata[cands[0].0], cands[0].1)], Scan(metadata, cands[1..], f, room - 1))
  {
  }

  /** The result of `search` on a store holding `vectors` and `metadata`. */
  function StoreSearch(vectors: seq<seq<real>>, metadata: seq<Meta>, query: string, topK: nat, f: Filters,
                       embedQuery: string -> seq<real>, knn: Knn): Result<seq<(Meta, real)>>
  {
    if |vectors| == 0 then Ok([])
    else Scan(metadata, knn(vectors, embedQuery(query), SearchK(topK, |vectors|)), f, topK)
  }

  /** The chunks `search` could return, in candidate order: valid indices, admitted by the filter. */
  function AdmittedHits(metadata: seq<Meta>, cands: seq<Candidate>, f: Filters): seq<(Meta, real)>
    decreases |cands|
  {
    if cands == [] then []
    else
      var idx := cands[0].0;
      var rest := AdmittedHits(metadata, cands[1..], f);
      if 0 <= idx < |metadata| && Admits(f, metadata[idx]) then [(metadata[idx], cands[0].1)] + rest else rest
  }

  /** Every candidate is -1 or a position of the metadata list. */
  predicate IndicesInRange(metadata: seq<Meta>, cands: seq<Candidate>)
  {
    forall i | 0 <= i < |cands| :: cands[i].0 == NoNeighbour || 0 <= cands[i].0 < |metadata|
  }

  /** The embedding batches `texts[i:i + batch_size]` for `i` in `range(0, len(texts), batch_size)`. */
  function Batches(texts: seq<string>, batchSize: nat): (r: seq<seq<string>>)
    requires batchSize >= 1
    ensures forall b | b in r :: 1 <= |b| <= batchSize
    decreases |texts|
  {
    if texts == [] then []
    else if |texts| <= batchSize then [texts]
    else [texts[..batchSize]] + Batches(texts[batchSize..], batchSize)
  }

  /** The embeddings of all batches, in order (`embeddings.extend(batch_embeddings)`). */
  function EmbedBatches(batches: seq<seq<string>>, embedDocuments: seq<string> -> seq<seq<real>>): seq<seq<real>>
  {
    if batches == [] then []
    else EmbedBatches(batches[..|batches| - 1], embedDocuments) + embedDocuments(batches[|batches| - 1])
  }

  lemma BatchesStep(texts: seq<string>, i: nat, batchSize: nat)
    requires batchSize >= 1 && i < |texts|
    ensures var end := if i + batchSize <= |texts| then i + batchSize else |texts|;
      Batches(texts[i..], batchSize) == [texts[i..end]] + Batches(texts[end..], batchSize)
  {
    var end := if i + batchSize <= |texts| then i + batchSize else |texts|;
    if |texts[i..]| > batchSize {
      assert texts[i..][batchSize..] == texts[end..];
      assert texts[i..][..batchSize] == texts[i..end];
    } else {
      assert texts[end..] == [];
      assert texts[i..] == texts[i..end];
    }
  }

  lemma EmbedBatchesAppend(done: seq<seq<string>>, b: seq<string>, embedDocuments: seq<string> -> seq<seq<real>>)
    ensures EmbedBatches(done + [b], embedDocuments) == EmbedBatches(done, embedDocuments) + embedDocuments(b)
  {
    assert (done + [b])[..|done|] == done;
  }

  /** The batch loop of `add_documents`. */
  method EmbedInBatches(texts: seq<string>, batchSize: nat, embedDocuments: seq<string> -> seq<seq<real>>)
    returns (embeddings: seq<seq<real>>)
    requires batchSize >= 1
    ensures embeddings == EmbedBatches(Batches(texts, batchSize), embedDocuments)
  {
    embeddings := [];
    ghost var done: seq<seq<string>> := [];
    var i := 0;
    assert texts[0..] == texts;
    while i < |texts|
      invariant 0 <= i <= |texts|
      invariant done + Batches(texts[i..], batchSize) == Batches(texts, batchSize)
      invariant embeddings == EmbedBatches(done, embedDocuments)
      decreases |texts| - i
    {
      var end := if i + batchSize <= |texts| then i + batchSize else |texts|;
      var batchTexts := texts[i..end];
      BatchesStep(texts, i, batchSize);
      assert done + Batches(texts[i..], batchSize) == (done + [batchTexts]) + Batches(texts[end..], batchSize);
      var batchEmbeddings := embedDocuments(batchTexts);
      EmbedBatchesAppend(done, batchTexts, embedDocuments);
      embeddings := embeddings + batchEmbeddings;
      done := done + [batchTexts];
      i := end;
    }
    assert texts[i..] == [];
    assert done == Batches(texts, batchSize);
  }

  // ---------------------------------------------------------------- properties

  /** How many results the loop collects before it stops: `room`, and at least the first one. */
  function Cap(room: nat): nat
  {
    if room == 0 then 1 else room
  }

  /**
   * The loop returns the first admitted chunks in candidate order, as many as `room` allows;
   * it fails only on an index past the metadata list.
   */
  lemma {:induction false} ScanIsPrefixOfAdmitted(metadata: seq<Meta>, cands: seq<Candidate>, f: Filters, room: nat)
    ensures Scan(metadata, cands, f, room).Ok? ==>
      Scan(metadata, cands, f, room).value == Prefix(AdmittedHits(metadata, cands, f), Cap(room))
    ensures IndicesInRange(metadata, cands) ==> Scan(metadata, cands, f, room).Ok?
    decreases |cands|
  {
    if cands != [] {
      var idx := cands[0].0;
      var tail := cands[1..];
      assert IndicesInRange(metadata, cands) ==> IndicesInRange(metadata, tail) by {
        if IndicesInRange(metadata, cands) {
          forall i | 0 <= i < |tail| ensures tail[i].0 == NoNeighbour || 0 <= tail[i].0 < |metadata| {
            assert tail[i] == cands[i + 1];
          }
        }
      }
      ScanIsPrefixOfAdmitted(metadata, tail, f, room);
      if room >= 2 {
        ScanIsPrefixOfAdmitted(metadata, tail, f, room - 1);
      }
    }
  }

  /** Every hit the loop can return is a stored, admitted record with a non-negative distance. */
  lemma {:induction false} AdmittedHitsAdmitted(metadata: seq<Meta>, cands: seq<Candidate>, f: Filters)
    requires forall i | 0 <= i < |cands| :: cands[i].1 >= 0.0
    ensures forall p | p in AdmittedHits(metadata, cands, f) :: p.0 in metadata && Admits(f, p.0) && p.1 >= 0.0
    decreases |cands|
  {
    if cands != [] {
      var tail := cands[1..];
      assert forall i | 0 <= i < |tail| :: tail[i] == cands[i + 1];
      AdmittedHitsAdmitted(metadata, tail, f);
    }
  }

  /**
   * `search` returns at most `top_k` results, each a stored record that passes the category
   * and channel filters, in candidate order; it succeeds whenever FAISS's indices are within
   * the metadata list, and an empty index gives no results.
   */
  lemma StoreSearchResults(vectors: seq<seq<real>>, metadata: seq<Meta>, query: string, topK: nat, f: Filters,
                           embedQuery: string -> seq<real>, knn: Knn)
    ensures var r := StoreSearch(vectors, metadata, query, topK, f, embedQuery, knn);
      && (vectors == [] ==> r == Ok([]))
      && (|vectors| <= |metadata| ==> r.Ok?)
      && (r.Ok? ==> |r.value| <= topK && forall p | p in r.value :: p.0 in metadata && Admits(f, p.0) && p.1 >= 0.0)
  {
    if |vectors| > 0 {
      var k := SearchK(topK, |vectors|);
      var cands := knn(vectors, embedQuery(query), k);
      assert KnnShape(cands, k, |vectors|);
      ScanIsPrefixOfAdmitted(metadata, cands, f, topK);
      AdmittedHitsAdmitted(metadata, cands, f);
      if topK == 0 {
        assert cands == [];
      }
      var r := Scan(metadata, cands, f, topK);
      if r.Ok? {
        forall p | p in r.value ensures p in AdmittedHits(metadata, cands, f) {
          var i :| 0 <= i < |r.value| && r.value[i] == p;
          assert r.value[i] == AdmittedHits(metadata, cands, f)[i];
        }
      }
    }
  }

  /** The `updated_at` filter is accepted and ignored. */
  lemma {:induction false} UpdatedAtFilterIgnored(metadata: seq<Meta>, cands: seq<Candidate>, f: Filters, room: nat)
    ensures Scan(metadata, cands, f, room) == Scan(metadata, cands, f.(updatedAt := None), room)
    decreases |cands|
  {
    if cands != [] {
      UpdatedAtFilterIgnored(metadata, cands[1..], f, room);
      if room >= 2 {
        UpdatedAtFilterIgnored(metadata, cands[1..], f, room - 1);
      }
    }
  }

  /** The batches cover the texts exactly, in order. */
  lemma {:induction false} BatchesCoverTexts(texts: seq<string>, batchSize: nat)
    requires batchSize >= 1
    ensures Flatten(Batches(texts, batchSize)) == texts
    decreases |texts|
  {
    if |texts| > batchSize {
      BatchesCoverTexts(texts[batchSize..], batchSize);
      BatchesCoverStep(texts, batchSize);
    } else if texts != [] {
      assert Batches(texts, batchSize) == [texts];
      FlattenCons(texts, []);
      assert texts + [] == texts;
    }
  }

  /** The inductive step of `BatchesCoverTexts`: one more full batch in front. */
  lemma BatchesCoverStep(texts: seq<string>, batchSize: nat)
    requires 1 <= batchSize < |texts|
    requires Flatten(Batches(texts[batchSize..], batchSize)) == texts[batchSize..]
    ensures Flatten(Batches(texts, batchSize)) == texts
  {
    var a, b := texts[..batchSize], texts[batchSize..];
    var rest := Batches(b, batchSize);
    assert Batches(texts, batchSize) == [a] + rest;
    FlattenCons(a, rest);
    TakeDrop(texts, batchSize);
  }

  lemma FlattenCons(s: seq<string>, ss: seq<seq<string>>)
    ensures Flatten([s] + ss) == s + Flatten(ss)
  {
    assert ([s] + ss)[0] == s && ([s] + ss)[1..] == ss;
  }

  /** With an embedder that yields one vector per text, a batch run yields one vector per text. */
  lemma {:induction false} EmbedBatchesCount(batches: seq<seq<string>>, embedDocuments: seq<string> -> seq<seq<real>>)
    requires forall b :: |embedDocuments(b)| == |b|
    ensures |EmbedBatches(batches, embedDocuments)| == |Flatten(batches)|
    decreases |batches|
  {
    if batches != [] {
      var n := |batches| - 1;
      EmbedBatchesCount(batches[..n], embedDocuments);
      assert batches == batches[..n] + [batches[n]];
      FlattenAppend(batches[..n], batches[n]);
    }
  }

  /**
   * A store whose vectors and metadata are aligned stays aligned when `add_documents`
   * is given one metadata record per text and the embedder yields one vector per text.
   */
  lemma AddKeepsAlignment(vectors: seq<seq<real>>, metadata: seq<Meta>, texts: seq<string>, metadatas: seq<Meta>,
                          batchSize: nat, embedDocuments: seq<string> -> seq<seq<real>>)
    requires batchSize >= 1
    requires |vectors| == |metadata| && |metadatas| == |texts|
    requires forall b :: |embedDocuments(b)| == |b|
    ensures |vectors + EmbedBatches(Batches(texts, batchSize), embedDocuments)| == |metadata + metadatas|
  {
    EmbedBatchesCount(Batches(texts, batchSize), embedDocuments);
    BatchesCoverTexts(texts, batchSize);
  }

  class FaissVectorStore {
    /** The vectors held by the FAISS index; `index.ntotal` is their number. */
    var vectors: seq<seq<real>>
    /** `self.metadata`: one record per vector, by position. */
    var metadata: seq<Meta>
    var dimension: nat

    /**
     * `__init__` and `_load_index`: `stored` is the index and metadata read from disk,
     * or None when the files are missing or fail to load, which creates a new index.
     * `dimension or getattr(model, 'dimension', 384)`: 0 counts as absent.
     */
    constructor (stored: Option<(seq<seq<real>>, seq<Meta>)>, dimension: Option<nat>, modelDimension: Option<nat>)
      ensures stored.Some? ==> vectors == stored.value.0 && metadata == stored.value.1
      ensures stored.None? ==> vectors == [] && metadata == []
      ensures this.dimension == if dimension.Some? && dimension.value != 0 then dimension.value
                                else modelDimension.GetOr(DefaultDimension)
    {
      this.dimension := if dimension.Some? && dimension.value != 0 then dimension.value
                        else modelDimension.GetOr(DefaultDimension);
      vectors := [];
      metadata := [];
      new;
      if stored.Some? {
        vectors := stored.value.0;
        metadata := stored.value.1;
      } else {
        CreateNewIndex();
      }
    }

    /** `_create_new_index`: an empty index and an empty metadata list. */
    method CreateNewIndex()
      modifies this
      ensures vectors == [] && metadata == []
      ensures dimension == old(dimension)
    {
      vectors := [];
      metadata := [];
    }

    /**
     * `add_documents`; a zero batch size with texts to add is the `ValueError` that
     * `range` raises before anything is stored.
     */
    method AddDocuments(texts: seq<string>, metadatas: seq<Meta>, batchSize: nat,
                        embedDocuments: seq<string> -> seq<seq<real>>) returns (r: Result<()>)
      modifies this
      ensures r.Err? <==> texts != [] && batchSize == 0
      ensures r.Err? ==> r.error == RangeStepErrorMessage
      ensures texts == [] || r.Err? ==> vectors == old(vectors) && metadata == old(metadata)
      ensures r.Ok? && texts != [] ==> vectors == old(vectors) + EmbedBatches(Batches(texts, batchSize), embedDocuments)
      ensures r.Ok? && texts != [] ==> metadata == old(metadata) + metadatas
      ensures dimension == old(dimension)
    {
      if texts == [] {
        return Ok(());
      }
      if batchSize == 0 {
        return Err(RangeStepErrorMessage);
      }
      var embeddings := EmbedInBatches(texts, batchSize, embedDocuments);
      vectors := vectors + embeddings;
      metadata := metadata + metadatas;
      r := Ok(());
    }

    /** `search`; an index past the metadata list is the `IndexError` Python raises. */
    method Search(query: string, topK: nat, filters: Filters, embedQuery: string -> seq<real>, knn: Knn)
      returns (r: Result<seq<(Meta, real)>>)
      ensures r == StoreSearch(vectors, metadata, query, topK, filters, embedQuery, knn)
    {
      if |vectors| == 0 {
        return Ok([]);
      }
      var queryVector := embedQuery(query);
      var searchK := Min(topK * SearchOversampling, |vectors|);
      var cands := knn(vectors, queryVector, searchK);
      r := FilterCandidates(metadata, cands, filters, topK);
    }

    /** The candidate loop of `search`. */
    static method FilterCandidates(metadata: seq<Meta>, cands: seq<Candidate>, filters: Filters, topK: nat)
      returns (r: Result<seq<(Meta, real)>>)
      ensures r == Scan(metadata, cands, filters, topK)
    {
      var results: seq<(Meta, real)> := [];
      var i := 0;
      assert cands[0..] == cands;
      ContinueEmpty(Scan(metadata, cands, filters, topK));
      while i < |cands|
        invariant 0 <= i <= |cands|
        invariant results == [] || |results| < topK
        invariant Continue(results, Scan(metadata, cands[i..], filters, topK - |results|))
               == Scan(metadata, cands, filters, topK)
      {
        ghost var rest := cands[i..];
        assert rest[0] == cands[i] && rest[1..] == cands[i + 1..];
        ghost var room := topK - |results|;
        var idx := cands[i].0;
        var dist := cands[i].1;
        if idx == NoNeighbour {
          i := i + 1;
          continue;
        }
        if !(0 <= idx < |metadata|) {
          return Err(IndexErrorMessage);
        }
        var chunk := metadata[idx];
        if !Admits(filters, chunk) {
          i := i + 1;
          continue;
        }
        if room >= 2 {
          ScanAdmittedStep(metadata, rest, filters, room);
          ContinueAssoc(results, [(chunk, dist)], Scan(metadata, cands[i + 1..], filters, room - 1));
        }
        results := results + [(chunk, dist)];
        if |results| >= topK {
          return Ok(results);
        }
        i := i + 1;
      }
      assert cands[i..] == [];
      assert results + [] == results;
      return Ok(results);
    }
  }
}
