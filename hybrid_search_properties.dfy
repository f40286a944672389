/** What the fused ranking and the reranker guarantee. */
module HybridSearchProperties {
  import opened Common
  import opened Text
  import opened Sorting
  import opened Schemas
  import opened HybridSearch

  function ChunkIdOf(d: Doc): Option<string>
  {
    d.meta.chunkId
  }

  function PairChunkId(p: (Meta, real)): Option<string>
  {
    p.0.chunkId
  }

  function DocScore(d: Doc): real
  {
    d.score
  }

  // ---------------------------------------------------------------- the vector pass

  /** Every entry of the vector pass comes from a hit: its metadata and `1 / (1 + distance)`. */
  lemma {:induction false} VectorPassEntriesFromHits(hits: seq<(Meta, real)>)
    requires NonNegativeDistances(hits)
    ensures forall k | k in VectorPass(hits).entries ::
      exists i | 0 <= i < |hits| :: VectorPass(hits).entries[k] == Entry(hits[i].0, VectorScore(hits[i].1), 0.0)
  {
    if hits != [] {
      var n := |hits| - 1;
      var prev := hits[..n];
      VectorPassEntriesFromHits(prev);
      var t := VectorPass(hits);
      forall k | k in t.entries
        ensures exists i | 0 <= i < |hits| :: t.entries[k] == Entry(hits[i].0, VectorScore(hits[i].1), 0.0)
      {
        if Truthy(hits[n].0.chunkId) && k == hits[n].0.chunkId.value {
          assert t.entries[k] == Entry(hits[n].0, VectorScore(hits[n].1), 0.0);
        } else {
          assert t == AddVectorHit(VectorPass(prev), hits[n]);
          assert k in VectorPass(prev).entries && t.entries[k] == VectorPass(prev).entries[k];
          var i :| 0 <= i < |prev| && VectorPass(prev).entries[k] == Entry(prev[i].0, VectorScore(prev[i].1), 0.0);
          assert prev[i] == hits[i];
        }
      }
    }
  }

  /** The last hit for a chunk id decides its entry (dict assignment overwrites). */
  lemma {:induction false} VectorPassLastHitWins(hits: seq<(Meta, real)>, i: nat)
    requires NonNegativeDistances(hits)
    requires i < |hits| && Truthy(hits[i].0.chunkId)
    requires forall j | i < j < |hits| :: hits[j].0.chunkId != hits[i].0.chunkId
    ensures hits[i].0.chunkId.value in VectorPass(hits).entries
    ensures VectorPass(hits).entries[hits[i].0.chunkId.value] == Entry(hits[i].0, VectorScore(hits[i].1), 0.0)
  {
    var n := |hits| - 1;
    var prev := hits[..n];
    if i < n {
      assert forall j | i < j < |prev| :: prev[j] == hits[j];
      VectorPassLastHitWins(prev, i);
      assert prev[i] == hits[i];
    }
  }

  /** One vector hit adds its chunk id, when non-empty, to the keys. */
  lemma AddVectorHitKeys(t: Table, hit: (Meta, real), k: string)
    requires TableValid(t) && hit.1 >= 0.0
    ensures k in AddVectorHit(t, hit).keys <==> k in t.keys || (k != "" && hit.0.chunkId == Some(k))
  {
  }

  /** A chunk id is a key of the vector pass exactly when some hit carries it. */
  lemma {:induction false} VectorPassKeys(hits: seq<(Meta, real)>, k: string)
    requires NonNegativeDistances(hits)
    ensures k in VectorPass(hits).keys <==> k != "" && exists i | 0 <= i < |hits| :: hits[i].0.chunkId == Some(k)
  {
    if hits != [] {
      var n := |hits| - 1;
      var prev := hits[..n];
      assert NonNegativeDistances(prev) by {
        forall i | 0 <= i < n ensures prev[i].1 >= 0.0 {
          assert prev[i] == hits[i];
        }
      }
      VectorPassKeys(prev, k);
      assert VectorPass(hits) == AddVectorHit(VectorPass(prev), hits[n]);
      AddVectorHitKeys(VectorPass(prev), hits[n], k);
      HitIdsSnoc(hits, k);
    }
  }

  /** Some hit carries the id exactly when an earlier hit or the last one does. */
  lemma HitIdsSnoc(hits: seq<(Meta, real)>, k: string)
    requires hits != []
    ensures var n := |hits| - 1;
      (exists i | 0 <= i < |hits| :: hits[i].0.chunkId == Some(k)) <==>
      (exists i | 0 <= i < n :: hits[..n][i].0.chunkId == Some(k)) || hits[n].0.chunkId == Some(k)
  {
    var n := |hits| - 1;
    if exists i | 0 <= i < |hits| :: hits[i].0.chunkId == Some(k) {
      var i :| 0 <= i < |hits| && hits[i].0.chunkId == Some(k);
      if i < n {
        assert hits[..n][i] == hits[i];
      }
    }
    if exists i | 0 <= i < n :: hits[..n][i].0.chunkId == Some(k) {
      var i :| 0 <= i < n && hits[..n][i].0.chunkId == Some(k);
      assert hits[i] == hits[..n][i];
    }
  }

  // ---------------------------------------------------------------- the BM25 pass

  predicate ScoresInUnitRange(t: Table)
  {
    forall k | k in t.entries :: 0.0 <= t.entries[k].vectorScore <= 1.0 && 0.0 <= t.entries[k].bm25Score <= 1.0
  }

  lemma {:induction false} VectorPassScoresInUnitRange(hits: seq<(Meta, real)>)
    requires NonNegativeDistances(hits)
    ensures ScoresInUnitRange(VectorPass(hits))
  {
    if hits != [] {
      VectorPassScoresInUnitRange(hits[..|hits| - 1]);
    }
  }

  /**
   * One BM25 step: a present chunk id gets the score `norm`, an admitted new one is appended
   * with vector score 0 and BM25 score `norm`, and no other entry changes.
   */
  lemma AddLexicalFacts(t: Table, chunk: Meta, norm: real, f: Filters)
    requires TableValid(t)
    ensures t.keys <= AddLexical(t, chunk, norm, f).keys
    ensures forall k :: k in AddLexical(t, chunk, norm, f).keys <==>
      k in t.keys || (k != "" && chunk.chunkId == Some(k) && Admits(f, chunk))
    ensures forall k | k in t.entries ::
      && AddLexical(t, chunk, norm, f).entries[k].meta == t.entries[k].meta
      && AddLexical(t, chunk, norm, f).entries[k].vectorScore == t.entries[k].vectorScore
    ensures Truthy(chunk.chunkId) && chunk.chunkId.value in t.entries ==>
      AddLexical(t, chunk, norm, f).entries[chunk.chunkId.value] == t.entries[chunk.chunkId.value].(bm25Score := norm)
    ensures forall k | k in t.entries && chunk.chunkId != Some(k) :: AddLexical(t, chunk, norm, f).entries[k] == t.entries[k]
    ensures forall k | k in AddLexical(t, chunk, norm, f).entries && k !in t.entries ::
      AddLexical(t, chunk, norm, f).entries[k] == Entry(Rebuilt(chunk), 0.0, norm) && Admits(f, chunk)
    ensures ScoresInUnitRange(t) && 0.0 <= norm <= 1.0 ==> ScoresInUnitRange(AddLexical(t, chunk, norm, f))
  {
    var cid := chunk.chunkId;
    var r := AddLexical(t, chunk, norm, f);
    if Truthy(cid) && cid.value in t.entries {
      assert r == Table(t.keys, t.entries[cid.value := t.entries[cid.value].(bm25Score := norm)]);
    } else if Truthy(cid) && Admits(f, chunk) {
      assert r == Table(t.keys + [cid.value], t.entries[cid.value := Entry(Rebuilt(chunk), 0.0, norm)]);
    } else {
      assert r == t;
    }
  }

  /**
   * `u` extends `t`: keys only appended, the metadata and vector score of every entry of `t`
   * kept, and every new entry rebuilt from an admitted chunk of `chunks`, with vector score 0.
   */
  predicate Extends(t: Table, u: Table, chunks: seq<Meta>, f: Filters)
  {
    && t.keys <= u.keys
    && (forall k | k in t.entries ::
          k in u.entries && u.entries[k].meta == t.entries[k].meta && u.entries[k].vectorScore == t.entries[k].vectorScore)
    && (forall k | k in u.entries && k !in t.entries ::
          u.entries[k].vectorScore == 0.0 && exists c | c in chunks && Admits(f, c) :: u.entries[k].meta == Rebuilt(c))
  }

  lemma ExtendsTrans(t: Table, u: Table, v: Table, chunks: seq<Meta>, f: Filters)
    requires Extends(t, u, chunks, f) && Extends(u, v, chunks, f)
    ensures Extends(t, v, chunks, f)
  {
    assert t.keys == u.keys[..|t.keys|] && u.keys == v.keys[..|u.keys|];
    assert t.keys == v.keys[..|t.keys|];
    forall k | k in v.entries && k !in t.entries
      ensures v.entries[k].vectorScore == 0.0 && exists c | c in chunks && Admits(f, c) :: v.entries[k].meta == Rebuilt(c)
    {
      if k in u.entries {
        assert v.entries[k].meta == u.entries[k].meta;
      }
    }
  }

  lemma ExtendsStep(t: Table, chunk: Meta, norm: real, chunks: seq<Meta>, f: Filters)
    requires TableValid(t) && chunk in chunks
    ensures Extends(t, AddLexical(t, chunk, norm, f), chunks, f)
  {
    AddLexicalFacts(t, chunk, norm, f);
  }

  /** The frame part of `LexicalPassExtends`. */
  lemma {:induction false} LexicalPassFrame(t: Table, chunks: seq<Meta>, scores: seq<real>, f: Filters, n: nat)
    requires TableValid(t)
    requires n <= |chunks| == |scores|
    ensures Extends(t, LexicalPass(t, chunks, scores, f, n), chunks, f)
  {
    if n == 0 {
      assert t.keys <= t.keys;
    } else {
      var prev := LexicalPass(t, chunks, scores, f, n - 1);
      LexicalPassFrame(t, chunks, scores, f, n - 1);
      ExtendsStep(prev, chunks[n - 1], Normalize(scores[n - 1], MaxScore(scores)), chunks, f);
      ExtendsTrans(t, prev, LexicalPass(t, chunks, scores, f, n), chunks, f);
    }
  }

  /** A key after the BM25 pass is an earlier key or the truthy id of an admitted corpus chunk. */
  lemma {:induction false} LexicalPassKeys(t: Table, chunks: seq<Meta>, scores: seq<real>, f: Filters, n: nat, k: string)
    requires TableValid(t)
    requires n <= |chunks| == |scores|
    ensures k in LexicalPass(t, chunks, scores, f, n).keys <==>
      k in t.keys || (k != "" && exists j | 0 <= j < n :: chunks[j].chunkId == Some(k) && Admits(f, chunks[j]))
  {
    if n > 0 {
      var prev := LexicalPass(t, chunks, scores, f, n - 1);
      LexicalPassKeys(t, chunks, scores, f, n - 1, k);
      AddLexicalFacts(prev, chunks[n - 1], Normalize(scores[n - 1], MaxScore(scores)), f);
      if exists j | 0 <= j < n :: chunks[j].chunkId == Some(k) && Admits(f, chunks[j]) {
        var j :| 0 <= j < n && chunks[j].chunkId == Some(k) && Admits(f, chunks[j]);
        assert j < n - 1 || (chunks[n - 1].chunkId == Some(k) && Admits(f, chunks[n - 1]));
      }
    }
  }

  /** A BM25 step for another chunk id leaves an entry as it was. */
  lemma AddLexicalOthers(t: Table, chunk: Meta, norm: real, f: Filters, k: string)
    requires TableValid(t) && k in t.entries && chunk.chunkId != Some(k)
    ensures k in AddLexical(t, chunk, norm, f).entries && AddLexical(t, chunk, norm, f).entries[k] == t.entries[k]
  {
  }

  /** An entry no corpus chunk carries leaves the BM25 pass as it entered. */
  lemma {:induction false} LexicalPassUntouched(t: Table, chunks: seq<Meta>, scores: seq<real>, f: Filters, n: nat, k: string)
    requires TableValid(t)
    requires n <= |chunks| == |scores|
    requires k in t.entries && forall j | 0 <= j < n :: chunks[j].chunkId != Some(k)
    ensures k in LexicalPass(t, chunks, scores, f, n).entries
    ensures LexicalPass(t, chunks, scores, f, n).entries[k] == t.entries[k]
  {
    if n > 0 {
      var prev := LexicalPass(t, chunks, scores, f, n - 1);
      LexicalPassUntouched(t, chunks, scores, f, n - 1, k);
      AddLexicalOthers(prev, chunks[n - 1], Normalize(scores[n - 1], MaxScore(scores)), f, k);
    }
  }

  /** The last corpus chunk carrying a chunk id decides its BM25 score: its normalised score. */
  lemma {:induction false} LexicalPassLastChunkWins(t: Table, chunks: seq<Meta>, scores: seq<real>, f: Filters, n: nat, j: nat)
    requires TableValid(t)
    requires n <= |chunks| == |scores|
    requires j < n && Truthy(chunks[j].chunkId)
    requires forall i | j < i < n :: chunks[i].chunkId != chunks[j].chunkId
    ensures chunks[j].chunkId.value in LexicalPass(t, chunks, scores, f, n).entries ==>
      LexicalPass(t, chunks, scores, f, n).entries[chunks[j].chunkId.value].bm25Score == Normalize(scores[j], MaxScore(scores))
  {
    var k := chunks[j].chunkId.value;
    var prev := LexicalPass(t, chunks, scores, f, n - 1);
    var r := LexicalPass(t, chunks, scores, f, n);
    AddLexicalFacts(prev, chunks[n - 1], Normalize(scores[n - 1], MaxScore(scores)), f);
    if j < n - 1 && k in r.entries {
      LexicalPassLastChunkWins(t, chunks, scores, f, n - 1, j);
    }
  }

  /**
   * The BM25 pass appends keys, never removes one, keeps the metadata and vector score of
   * every existing entry, and adds only admitted corpus chunks, with vector score 0. Its keys
   * are the earlier keys and the truthy ids of the admitted corpus chunks; an entry no chunk
   * carries is unchanged; every other entry has the normalised score of the last chunk carrying it.
   */
  lemma LexicalPassExtends(t: Table, chunks: seq<Meta>, scores: seq<real>, f: Filters, n: nat)
    requires TableValid(t)
    requires n <= |chunks| == |scores|
    ensures Extends(t, LexicalPass(t, chunks, scores, f, n), chunks, f)
    ensures forall k :: k in LexicalPass(t, chunks, scores, f, n).keys <==>
      k in t.keys || (k != "" && exists j | 0 <= j < n :: chunks[j].chunkId == Some(k) && Admits(f, chunks[j]))
    ensures forall k | k in t.entries && (forall j | 0 <= j < n :: chunks[j].chunkId != Some(k)) ::
      k in LexicalPass(t, chunks, scores, f, n).entries && LexicalPass(t, chunks, scores, f, n).entries[k] == t.entries[k]
    ensures forall j | 0 <= j < n && Truthy(chunks[j].chunkId) && (forall i | j < i < n :: chunks[i].chunkId != chunks[j].chunkId) ::
      chunks[j].chunkId.value in LexicalPass(t, chunks, scores, f, n).entries ==>
        LexicalPass(t, chunks, scores, f, n).entries[chunks[j].chunkId.value].bm25Score == Normalize(scores[j], MaxScore(scores))
  {
    LexicalPassFrame(t, chunks, scores, f, n);
    forall k
      ensures k in LexicalPass(t, chunks, scores, f, n).keys <==>
        k in t.keys || (k != "" && exists j | 0 <= j < n :: chunks[j].chunkId == Some(k) && Admits(f, chunks[j]))
    {
      LexicalPassKeys(t, chunks, scores, f, n, k);
    }
    forall k | k in t.entries && (forall j | 0 <= j < n :: chunks[j].chunkId != Some(k))
      ensures k in LexicalPass(t, chunks, scores, f, n).entries && LexicalPass(t, chunks, scores, f, n).entries[k] == t.entries[k]
    {
      LexicalPassUntouched(t, chunks, scores, f, n, k);
    }
    forall j | 0 <= j < n && Truthy(chunks[j].chunkId) && (forall i | j < i < n :: chunks[i].chunkId != chunks[j].chunkId)
      ensures chunks[j].chunkId.value in LexicalPass(t, chunks, scores, f, n).entries ==>
        LexicalPass(t, chunks, scores, f, n).entries[chunks[j].chunkId.value].bm25Score == Normalize(scores[j], MaxScore(scores))
    {
      LexicalPassLastChunkWins(t, chunks, scores, f, n, j);
    }
  }

  /** The BM25 pass keeps every score in [0, 1]. */
  lemma {:induction false} LexicalPassScoresInUnitRange(t: Table, chunks: seq<Meta>, scores: seq<real>, f: Filters, n: nat)
    requires TableValid(t) && ScoresInUnitRange(t)
    requires n <= |chunks| == |scores|
    ensures ScoresInUnitRange(LexicalPass(t, chunks, scores, f, n))
  {
    if n > 0 {
      var prev := LexicalPass(t, chunks, scores, f, n - 1);
      LexicalPassScoresInUnitRange(t, chunks, scores, f, n - 1);
      NormalizeInUnitRange(scores, n - 1);
      AddLexicalFacts(prev, chunks[n - 1], Normalize(scores[n - 1], MaxScore(scores)), f);
    }
  }

  /** The hybrid order starts with the vector hits' chunk ids, in the order the store returned them. */
  lemma VectorKeysFirst(hits: seq<(Meta, real)>, chunks: seq<Meta>, scores: seq<real>, f: Filters)
    requires NonNegativeDistances(hits) && |scores| == |chunks|
    ensures VectorPass(hits).keys <= FusionTable(hits, chunks, scores, f).keys
  {
    LexicalPassFrame(VectorPass(hits), chunks, scores, f, |chunks|);
  }

  /**
   * The keys of the fusion table are the truthy ids of the vector hits and of the admitted
   * corpus chunks.
   */
  lemma FusionTableKeys(hits: seq<(Meta, real)>, chunks: seq<Meta>, scores: seq<real>, f: Filters, k: string)
    requires NonNegativeDistances(hits) && |scores| == |chunks|
    ensures k in FusionTable(hits, chunks, scores, f).keys <==>
      k != "" && ((exists i | 0 <= i < |hits| :: hits[i].0.chunkId == Some(k))
                  || exists j | 0 <= j < |chunks| :: chunks[j].chunkId == Some(k) && Admits(f, chunks[j]))
  {
    VectorPassKeys(hits, k);
    LexicalPassKeys(VectorPass(hits), chunks, scores, f, |chunks|, k);
  }

  /**
   * The BM25 score of a fused entry is the normalised score of the last corpus chunk carrying
   * its id, and 0 when no corpus chunk carries it.
   */
  lemma FusionTableBm25(hits: seq<(Meta, real)>, chunks: seq<Meta>, scores: seq<real>, f: Filters, k: string)
    requires NonNegativeDistances(hits) && |scores| == |chunks|
    requires k in FusionTable(hits, chunks, scores, f).entries
    ensures forall j | 0 <= j < |chunks| && chunks[j].chunkId == Some(k) && (forall i | j < i < |chunks| :: chunks[i].chunkId != Some(k)) ::
      FusionTable(hits, chunks, scores, f).entries[k].bm25Score == Normalize(scores[j], MaxScore(scores))
    ensures (forall j | 0 <= j < |chunks| :: chunks[j].chunkId != Some(k)) ==>
      FusionTable(hits, chunks, scores, f).entries[k].bm25Score == 0.0
  {
    var v := VectorPass(hits);
    forall j | 0 <= j < |chunks| && chunks[j].chunkId == Some(k) && (forall i | j < i < |chunks| :: chunks[i].chunkId != Some(k))
      ensures FusionTable(hits, chunks, scores, f).entries[k].bm25Score == Normalize(scores[j], MaxScore(scores))
    {
      LexicalPassLastChunkWins(v, chunks, scores, f, |chunks|, j);
    }
    if forall j | 0 <= j < |chunks| :: chunks[j].chunkId != Some(k) {
      LexicalPassKeys(v, chunks, scores, f, |chunks|, k);
      LexicalPassUntouched(v, chunks, scores, f, |chunks|, k);
      VectorPassEntriesFromHits(hits);
    }
  }

  // ---------------------------------------------------------------- the fused ranking

  lemma FinalListDistinct(t: Table, vectorWeight: real, bm25Weight: real)
    requires TableValid(t)
    ensures DistinctBy(FinalList(t, vectorWeight, bm25Weight), PairChunkId)
  {
    var fl := FinalList(t, vectorWeight, bm25Weight);
    forall i, j | 0 <= i < j < |fl| ensures PairChunkId(fl[i]) != PairChunkId(fl[j]) {
      assert PairChunkId(fl[i]) == Some(t.keys[i]);
      assert PairChunkId(fl[j]) == Some(t.keys[j]);
    }
  }

  /** At most `top_k` results, and exactly `top_k` when the table has that many chunks. */
  lemma FusedLength(hits: seq<(Meta, real)>, chunks: seq<Meta>, scores: seq<real>, f: Filters,
                    topK: nat, vectorWeight: real, bm25Weight: real)
    requires NonNegativeDistances(hits) && |scores| == |chunks|
    ensures var n := |FusionTable(hits, chunks, scores, f).keys|;
      |Fused(hits, chunks, scores, f, topK, vectorWeight, bm25Weight)| == if topK <= n then topK else n
  {
  }

  /** Results come in non-increasing fused score. */
  lemma FusedOrderedByScore(hits: seq<(Meta, real)>, chunks: seq<Meta>, scores: seq<real>, f: Filters,
                            topK: nat, vectorWeight: real, bm25Weight: real)
    requires NonNegativeDistances(hits) && |scores| == |chunks|
    ensures SortedDesc(Fused(hits, chunks, scores, f, topK, vectorWeight, bm25Weight), DocScore)
  {
    var ranked := Ranked(hits, chunks, scores, f, vectorWeight, bm25Weight);
    var top := Prefix(ranked, topK);
    var r := Fused(hits, chunks, scores, f, topK, vectorWeight, bm25Weight);
    forall i, j | 0 <= i < j < |r| ensures DocScore(r[i]) >= DocScore(r[j]) {
      assert top[i] == ranked[i] && top[j] == ranked[j];
      assert PairScore(ranked[i]) >= PairScore(ranked[j]);
    }
  }

  /** One result per chunk id: every result has a non-empty chunk id and no two share one. */
  lemma FusedDistinctChunks(hits: seq<(Meta, real)>, chunks: seq<Meta>, scores: seq<real>, f: Filters,
                            topK: nat, vectorWeight: real, bm25Weight: real)
    requires NonNegativeDistances(hits) && |scores| == |chunks|
    ensures DistinctBy(Fused(hits, chunks, scores, f, topK, vectorWeight, bm25Weight), ChunkIdOf)
    ensures forall d | d in Fused(hits, chunks, scores, f, topK, vectorWeight, bm25Weight) :: Truthy(d.meta.chunkId)
  {
    FusedDistinct(hits, chunks, scores, f, topK, vectorWeight, bm25Weight);
    FusedChunkIdsTruthy(hits, chunks, scores, f, topK, vectorWeight, bm25Weight);
  }

  lemma FusedDistinct(hits: seq<(Meta, real)>, chunks: seq<Meta>, scores: seq<real>, f: Filters,
                      topK: nat, vectorWeight: real, bm25Weight: real)
    requires NonNegativeDistances(hits) && |scores| == |chunks|
    ensures DistinctBy(Fused(hits, chunks, scores, f, topK, vectorWeight, bm25Weight), ChunkIdOf)
  {
    var t := FusionTable(hits, chunks, scores, f);
    var fl := FinalList(t, vectorWeight, bm25Weight);
    var ranked := SortDesc(fl, PairScore);
    FinalListDistinct(t, vectorWeight, bm25Weight);
    PermutationDistinctBy(fl, ranked, PairChunkId);
    var top := Prefix(ranked, topK);
    var r := Fused(hits, chunks, scores, f, topK, vectorWeight, bm25Weight);
    forall i, j | 0 <= i < j < |r| ensures ChunkIdOf(r[i]) != ChunkIdOf(r[j]) {
      assert top[i] == ranked[i] && top[j] == ranked[j];
      assert PairChunkId(ranked[i]) != PairChunkId(ranked[j]);
    }
  }

  lemma FusedChunkIdsTruthy(hits: seq<(Meta, real)>, chunks: seq<Meta>, scores: seq<real>, f: Filters,
                            topK: nat, vectorWeight: real, bm25Weight: real)
    requires NonNegativeDistances(hits) && |scores| == |chunks|
    ensures forall d | d in Fused(hits, chunks, scores, f, topK, vectorWeight, bm25Weight) :: Truthy(d.meta.chunkId)
  {
    var t := FusionTable(hits, chunks, scores, f);
    var fl := FinalList(t, vectorWeight, bm25Weight);
    var ranked := SortDesc(fl, PairScore);
    FinalListTruthy(t, vectorWeight, bm25Weight);
    PermutationKeepsAll(fl, ranked, PairHasChunkId);
    var top := Prefix(ranked, topK);
    var r := Fused(hits, chunks, scores, f, topK, vectorWeight, bm25Weight);
    forall d | d in r ensures Truthy(d.meta.chunkId) {
      var i :| 0 <= i < |r| && r[i] == d;
      assert top[i] == ranked[i];
      assert PairHasChunkId(ranked[i]);
    }
  }

  predicate PairHasChunkId(p: (Meta, real))
  {
    Truthy(p.0.chunkId)
  }

  lemma FinalListTruthy(t: Table, vectorWeight: real, bm25Weight: real)
    requires TableValid(t)
    ensures var fl := FinalList(t, vectorWeight, bm25Weight);
      forall p | 0 <= p < |fl| :: PairHasChunkId(fl[p])
  {
    var fl := FinalList(t, vectorWeight, bm25Weight);
    forall p | 0 <= p < |fl| ensures PairHasChunkId(fl[p]) {
      var k := t.keys[p];
      assert k in t.keys;
      assert fl[p].0 == t.entries[k].meta;
    }
  }

  /**
   * Every result is a table entry formatted with its fused score
   * `vector_score * vector_weight + bm25_score * bm25_weight`.
   */
  lemma FusedFromTable(hits: seq<(Meta, real)>, chunks: seq<Meta>, scores: seq<real>, f: Filters,
                       topK: nat, vectorWeight: real, bm25Weight: real)
    requires NonNegativeDistances(hits) && |scores| == |chunks|
    ensures var t := FusionTable(hits, chunks, scores, f);
      forall d | d in Fused(hits, chunks, scores, f, topK, vectorWeight, bm25Weight) ::
        exists k | k in t.keys :: d == FormatResult(t.entries[k].meta, FusedScore(t.entries[k], vectorWeight, bm25Weight))
  {
    var t := FusionTable(hits, chunks, scores, f);
    var fl := FinalList(t, vectorWeight, bm25Weight);
    var ranked := SortDesc(fl, PairScore);
    var top := Prefix(ranked, topK);
    var r := Fused(hits, chunks, scores, f, topK, vectorWeight, bm25Weight);
    forall d | d in r
      ensures exists k | k in t.keys :: d == FormatResult(t.entries[k].meta, FusedScore(t.entries[k], vectorWeight, bm25Weight))
    {
      var i :| 0 <= i < |r| && r[i] == d;
      assert top[i] == ranked[i];
      assert ranked[i] in multiset(fl);
      var p :| 0 <= p < |fl| && fl[p] == ranked[i];
      assert t.keys[p] in t.keys;
    }
  }

  lemma WeightedUnit(x: real, w: real)
    requires 0.0 <= x <= 1.0 && w >= 0.0
    ensures 0.0 <= x * w <= w
  {
    assert x * w + (1.0 - x) * w == w;
    assert (1.0 - x) * w >= 0.0;
  }

  lemma FusedScoreInRange(e: Entry, vectorWeight: real, bm25Weight: real)
    requires 0.0 <= e.vectorScore <= 1.0 && 0.0 <= e.bm25Score <= 1.0
    requires vectorWeight >= 0.0 && bm25Weight >= 0.0
    ensures 0.0 <= FusedScore(e, vectorWeight, bm25Weight) <= vectorWeight + bm25Weight
  {
    WeightedUnit(e.vectorScore, vectorWeight);
    WeightedUnit(e.bm25Score, bm25Weight);
    var fromVector := e.vectorScore * vectorWeight;
    var fromBm25 := e.bm25Score * bm25Weight;
    assert 0.0 <= fromVector <= vectorWeight && 0.0 <= fromBm25 <= bm25Weight;
  }

  /** With non-negative weights every fused score lies in [0, vector_weight + bm25_weight]. */
  lemma FusedScoreBounds(hits: seq<(Meta, real)>, chunks: seq<Meta>, scores: seq<real>, f: Filters,
                         topK: nat, vectorWeight: real, bm25Weight: real)
    requires NonNegativeDistances(hits) && |scores| == |chunks|
    requires vectorWeight >= 0.0 && bm25Weight >= 0.0
    ensures forall d | d in Fused(hits, chunks, scores, f, topK, vectorWeight, bm25Weight) ::
      0.0 <= d.score <= vectorWeight + bm25Weight
  {
    var t := FusionTable(hits, chunks, scores, f);
    VectorPassScoresInUnitRange(hits);
    LexicalPassScoresInUnitRange(VectorPass(hits), chunks, scores, f, |chunks|);
    FusedFromTable(hits, chunks, scores, f, topK, vectorWeight, bm25Weight);
    forall d | d in Fused(hits, chunks, scores, f, topK, vectorWeight, bm25Weight)
      ensures 0.0 <= d.score <= vectorWeight + bm25Weight
    {
      var k :| k in t.keys && d == FormatResult(t.entries[k].meta, FusedScore(t.entries[k], vectorWeight, bm25Weight));
      FusedScoreInRange(t.entries[k], vectorWeight, bm25Weight);
    }
  }

  /** Chunks with equal fused scores keep the table's insertion order (vector hits first). */
  lemma FusedTiesKeepInsertionOrder(hits: seq<(Meta, real)>, chunks: seq<Meta>, scores: seq<real>, f: Filters,
                                    vectorWeight: real, bm25Weight: real, s: real)
    requires NonNegativeDistances(hits) && |scores| == |chunks|
    ensures WithKey(Ranked(hits, chunks, scores, f, vectorWeight, bm25Weight), PairScore, s)
         == WithKey(FinalList(FusionTable(hits, chunks, scores, f), vectorWeight, bm25Weight), PairScore, s)
  {
    SortDescStable(FinalList(FusionTable(hits, chunks, scores, f), vectorWeight, bm25Weight), PairScore, s);
  }

  // ---------------------------------------------------------------- rerank

  /** `rerank` returns `min(top_k, len(results))` documents. */
  lemma RerankLength(results: seq<Doc>, query: string, topK: nat)
    ensures |Reranked(results, query, topK)| == if topK <= |results| then topK else |results|
  {
  }

  /** The reranked list is in non-increasing `rerank_score`. */
  lemma RerankOrdered(results: seq<Doc>, query: string, topK: nat)
    ensures SortedDesc(Reranked(results, query, topK), RerankKey)
  {
    var sorted := SortDesc(WithRerankScores(QueryTokenSet(query), results), RerankKey);
    var r := Reranked(results, query, topK);
    forall i, j | 0 <= i < j < |r| ensures RerankKey(r[i]) >= RerankKey(r[j]) {
      assert r[i] == sorted[i] && r[j] == sorted[j];
    }
  }

  /**
   * Every reranked document is an input document with its `rerank_score` attached,
   * and with `top_k >= len(results)` every input document is kept.
   */
  lemma RerankElements(results: seq<Doc>, query: string, topK: nat)
    ensures var tokens := QueryTokenSet(query);
      forall d | d in Reranked(results, query, topK) ::
        exists i | 0 <= i < |results| :: d == results[i].(rerankScore := Some(RerankScore(tokens, results[i])))
    ensures topK >= |results| ==>
      multiset(Reranked(results, query, topK)) == multiset(WithRerankScores(QueryTokenSet(query), results))
  {
    var tokens := QueryTokenSet(query);
    var w := WithRerankScores(tokens, results);
    var sorted := SortDesc(w, RerankKey);
    var r := Reranked(results, query, topK);
    forall d | d in r
      ensures exists i | 0 <= i < |results| :: d == results[i].(rerankScore := Some(RerankScore(tokens, results[i])))
    {
      var p :| 0 <= p < |r| && r[p] == d;
      assert r[p] == sorted[p];
      assert sorted[p] in multiset(w);
      var i :| 0 <= i < |w| && w[i] == sorted[p];
    }
    if topK >= |results| {
      assert r == sorted;
    }
  }

  /** Documents with the same `rerank_score` keep their retrieval order. */
  lemma RerankTiesKeepOrder(results: seq<Doc>, query: string, s: real)
    ensures var w := WithRerankScores(QueryTokenSet(query), results);
      WithKey(SortDesc(w, RerankKey), RerankKey, s) == WithKey(w, RerankKey, s)
  {
    SortDescStable(WithRerankScores(QueryTokenSet(query), results), RerankKey, s);
  }

  /** A rerank score is between 0 and three times the number of distinct query tokens. */
  lemma RerankScoreBounds(tokens: set<string>, d: Doc)
    ensures 0 <= RerankScore(tokens, d) <= 3 * |tokens|
  {
    var title := Lower(d.meta.title.GetOr(""));
    var text := Lower(d.meta.text.GetOr(""));
    var inTitle := set t | t in tokens && Contains(title, t);
    var inText := set t | t in tokens && Contains(text, t);
    assert inTitle <= tokens;
    assert inText <= tokens;
    SubsetCardinality(inTitle, tokens);
    SubsetCardinality(inText, tokens);
  }

  // ---------------------------------------------------------------- search

  /** `search` never returns more than `top_k` results, on either path. */
  lemma SearchAtMostTopK(chunks: seq<Meta>, corpus: seq<seq<string>>, hasBm25Index: bool, query: string, topK: nat,
                         filters: Filters, useHybrid: bool, vectorWeight: real, bm25Weight: real,
                         vectorSearch: VectorSearch, bm25: Bm25Scorer)
    requires |corpus| == |chunks|
    ensures |SearchResults(chunks, corpus, hasBm25Index, query, topK, filters, useHybrid,
                           vectorWeight, bm25Weight, vectorSearch, bm25)| <= topK
  {
    if useHybrid && hasBm25Index {
      FusedLength(vectorSearch(query, topK * 3, filters), chunks, bm25(corpus, Tokenize(query)),
                  filters, topK, vectorWeight, bm25Weight);
    } else {
      assert |vectorSearch(query, topK, filters)| <= topK;
    }
  }
}
