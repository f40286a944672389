/**
 * The hybrid retriever: BM25 scores and vector-store hits fused into one ranked list,
 * plus the keyword-overlap reranker. The vector store's output and BM25Okapi's score
 * vector are given inputs.
 */
module HybridSearch {
  import opened Common
  import opened Text
  import opened Sorting
  import opened Schemas
  import VectorStore

  const SnippetLength: nat := 200
  const DefaultVectorWeight: real := 0.7
  const DefaultBm25Weight: real := 0.3

  // ---------------------------------------------------------------- tokens and snippets

  /** The token class `[\w가-힣]`. */
  predicate IsTokenChar(c: char)
  {
    IsWordChar(c) || IsHangulSyllable(c)
  }

  /** `_tokenize`: `re.findall(r'[\w가-힣]+', text.lower())`. */
  function Tokenize(text: string): (r: seq<string>)
    ensures forall k | 0 <= k < |r| :: r[k] != [] && forall i | 0 <= i < |r[k]| :: IsTokenChar(r[k][i])
  {
    Runs(Lower(text), IsTokenChar)
  }

  lemma LowerAppend(a: string, b: string)
    ensures Lower(a + b) == Lower(a) + Lower(b)
  {
  }

  /** A character that is not a token character separates tokens. */
  lemma TokenizeSplits(a: string, c: char, b: string)
    requires !IsTokenChar(LowerChar(c))
    ensures Tokenize(a + [c] + b) == Tokenize(a) + Tokenize(b)
  {
    assert Lower(a + [c] + b) == Lower(a) + [LowerChar(c)] + Lower(b);
    RunsSplit(Lower(a), LowerChar(c), Lower(b), IsTokenChar);
  }

  /** A non-empty word of token characters is one token, lower-cased. */
  lemma TokenizeWord(w: string)
    requires w != []
    requires forall i | 0 <= i < |w| :: IsTokenChar(w[i])
    ensures Tokenize(w) == [Lower(w)]
  {
    RunsWhole(Lower(w), IsTokenChar);
  }

  /** Glued together, the tokens are exactly the token characters of the lower-cased text. */
  lemma TokenizeKeepsTokenChars(text: string)
    ensures Flatten(Tokenize(text)) == Keep(Lower(text), IsTokenChar)
  {
    RunsFlatten(Lower(text), IsTokenChar);
  }

  /** `_extract_snippet` */
  function ExtractSnippet(text: string, maxLength: nat): (r: string)
    ensures |r| <= maxLength + 3
    ensures Prefix(text, maxLength) <= r
    ensures |text| <= maxLength ==> r == text
    ensures |text| > maxLength ==> r[maxLength..] == "..."
  {
    if |text| <= maxLength then text else text[..maxLength] + "..."
  }

  /** `_format_result` */
  function FormatResult(metadata: Meta, score: real): (d: Doc)
    ensures d.meta == metadata.(text := Some(metadata.text.GetOr("")), channel := metadata.channel.Written())
    ensures d.score == score && d.rerankScore.None?
    ensures d.snippet == Some(ExtractSnippet(metadata.text.GetOr(""), SnippetLength))
  {
    var text := metadata.text.GetOr("");
    Doc(metadata.(text := Some(text), channel := metadata.channel.Written()), score, Some(ExtractSnippet(text, SnippetLength)), None)
  }

  function FormatAll(ps: seq<(Meta, real)>): (r: seq<Doc>)
    ensures |r| == |ps|
    ensures forall i | 0 <= i < |ps| :: r[i] == FormatResult(ps[i].0, ps[i].1)
  {
    seq(|ps|, i requires 0 <= i < |ps| => FormatResult(ps[i].0, ps[i].1))
  }

  // ---------------------------------------------------------------- filters and scores

  /** Similarity from an L2 distance. */
  function VectorScore(distance: real): (s: real)
    requires distance >= 0.0
    ensures 0.0 < s <= 1.0
  {
    1.0 / (1.0 + distance)
  }

  function MaxOf(s: seq<real>): (m: real)
    requires s != []
    ensures m in s
    ensures forall i | 0 <= i < |s| :: s[i] <= m
  {
    if |s| == 1 then s[0]
    else
      var rest := MaxOf(s[1..]);
      assert forall i | 1 <= i < |s| :: s[i] == s[1..][i - 1];
      if s[0] >= rest then s[0] else rest
  }

  /** `max(bm25_scores) if len(bm25_scores) > 0 else 1.0` */
  function MaxScore(scores: seq<real>): real
  {
    if |scores| > 0 then MaxOf(scores) else 1.0
  }

  /** BM25 normalisation: `score / max` for a positive score and maximum, otherwise 0. */
  function Normalize(score: real, maxScore: real): real
  {
    if score > 0.0 then (if maxScore > 0.0 then score / maxScore else 0.0) else 0.0
  }

  lemma NormalizeBelowMax(score: real, maxScore: real)
    requires score <= maxScore
    ensures 0.0 <= Normalize(score, maxScore) <= 1.0
  {
    if score > 0.0 {
      assert score / maxScore * maxScore == score;
    }
  }

  /** Every normalised score of a corpus lies in [0, 1]. */
  lemma NormalizeInUnitRange(scores: seq<real>, i: nat)
    requires i < |scores|
    ensures 0.0 <= Normalize(scores[i], MaxScore(scores)) <= 1.0
    ensures scores[i] > 0.0 ==> Normalize(scores[i], MaxScore(scores)) == scores[i] / MaxOf(scores)
  {
    var m := MaxOf(scores);
    assert MaxScore(scores) == m;
    assert scores[i] <= m;
    NormalizeBelowMax(scores[i], m);
  }

  // ---------------------------------------------------------------- the fusion table

  /** One value of the `chunk_scores` dict. */
  datatype Entry = Entry(meta: Meta, vectorScore: real, bm25Score: real)

  /** The `chunk_scores` dict: its keys in insertion order and its entries. */
  datatype Table = Table(keys: seq<string>, entries: map<string, Entry>)

  const EmptyTable: Table := Table([], map[])

  predicate TableValid(t: Table)
  {
    && NoDup(t.keys)
    && (forall k | k in t.keys :: k in t.entries && k != "")
    && (forall k | k in t.entries :: k in t.keys)
    && (forall k | k in t.entries :: t.entries[k].meta.chunkId == Some(k))
  }

  predicate NonNegativeDistances(hits: seq<(Meta, real)>)
  {
    forall i | 0 <= i < |hits| :: hits[i].1 >= 0.0
  }

  /** One iteration of the vector-hit loop. */
  function AddVectorHit(t: Table, hit: (Meta, real)): (r: Table)
    requires TableValid(t) && hit.1 >= 0.0
    ensures TableValid(r)
  {
    var cid := hit.0.chunkId;
    if Truthy(cid) then
      var e := Entry(hit.0, VectorScore(hit.1), 0.0);
      Table(if cid.value in t.entries then t.keys else t.keys + [cid.value], t.entries[cid.value := e])
    else t
  }

  /** The table after the vector-hit loop has seen `hits`. */
  function VectorPass(hits: seq<(Meta, real)>): (t: Table)
    requires NonNegativeDistances(hits)
    ensures TableValid(t)
  {
    if hits == [] then EmptyTable
    else AddVectorHit(VectorPass(hits[..|hits| - 1]), hits[|hits| - 1])
  }

  /** One more hit is one more `AddVectorHit`. */
  lemma VectorPassStep(hits: seq<(Meta, real)>, i: nat)
    requires NonNegativeDistances(hits) && i < |hits|
    ensures NonNegativeDistances(hits[..i]) && NonNegativeDistances(hits[..i + 1])
    ensures VectorPass(hits[..i + 1]) == AddVectorHit(VectorPass(hits[..i]), hits[i])
  {
    PrefixStep(hits, i);
    assert forall j | 0 <= j < i + 1 :: hits[..i + 1][j] == hits[j];
  }

  /**
   * The metadata built for a chunk only BM25 found: its eight keys read with `chunk.get`,
   * so a missing channel becomes `null`.
   */
  function Rebuilt(chunk: Meta): (m: Meta)
    ensures !m.channel.Missing?
    ensures m.(channel := chunk.channel) == chunk
  {
    chunk.(channel := chunk.channel.Written())
  }

  /** One iteration of the BM25 loop, for a chunk whose normalised score is `norm`. */
  function AddLexical(t: Table, chunk: Meta, norm: real, f: Filters): (r: Table)
    requires TableValid(t)
    ensures TableValid(r)
  {
    var cid := chunk.chunkId;
    if !Truthy(cid) then t
    else if cid.value in t.entries then
      Table(t.keys, t.entries[cid.value := t.entries[cid.value].(bm25Score := norm)])
    else if !Admits(f, chunk) then t
    else Table(t.keys + [cid.value], t.entries[cid.value := Entry(Rebuilt(chunk), 0.0, norm)])
  }

  /** The table after the BM25 loop has seen the first `n` corpus chunks. */
  function LexicalPass(t: Table, chunks: seq<Meta>, scores: seq<real>, f: Filters, n: nat): (r: Table)
    requires TableValid(t)
    requires n <= |chunks| == |scores|
    ensures TableValid(r)
  {
    if n == 0 then t
    else AddLexical(LexicalPass(t, chunks, scores, f, n - 1), chunks[n - 1], Normalize(scores[n - 1], MaxScore(scores)), f)
  }

  /** One more corpus chunk is one more `AddLexical`. */
  lemma LexicalPassStep(t: Table, chunks: seq<Meta>, scores: seq<real>, f: Filters, n: nat)
    requires TableValid(t)
    requires n < |chunks| == |scores|
    ensures LexicalPass(t, chunks, scores, f, n + 1)
         == AddLexical(LexicalPass(t, chunks, scores, f, n), chunks[n], Normalize(scores[n], MaxScore(scores)), f)
  {
  }

  function FusedScore(e: Entry, vectorWeight: real, bm25Weight: real): real
  {
    e.vectorScore * vectorWeight + e.bm25Score * bm25Weight
  }

  /** `final_results` before sorting: one (metadata, fused score) pair per key, in key order. */
  function FinalList(t: Table, vectorWeight: real, bm25Weight: real): (r: seq<(Meta, real)>)
    requires TableValid(t)
    ensures |r| == |t.keys|
    ensures forall i | 0 <= i < |r| :: r[i] == (t.entries[t.keys[i]].meta, FusedScore(t.entries[t.keys[i]], vectorWeight, bm25Weight))
  {
    seq(|t.keys|, i requires 0 <= i < |t.keys| =>
      (t.entries[t.keys[i]].meta, FusedScore(t.entries[t.keys[i]], vectorWeight, bm25Weight)))
  }

  function PairScore(p: (Meta, real)): real
  {
    p.1
  }

  /** The fusion table of one hybrid query. */
  function FusionTable(hits: seq<(Meta, real)>, chunks: seq<Meta>, scores: seq<real>, f: Filters): (t: Table)
    requires NonNegativeDistances(hits) && |scores| == |chunks|
    ensures TableValid(t)
  {
    LexicalPass(VectorPass(hits), chunks, scores, f, |chunks|)
  }

  /** `final_results` after the descending sort. */
  function Ranked(hits: seq<(Meta, real)>, chunks: seq<Meta>, scores: seq<real>, f: Filters,
                  vectorWeight: real, bm25Weight: real): seq<(Meta, real)>
    requires NonNegativeDistances(hits) && |scores| == |chunks|
  {
    SortDesc(FinalList(FusionTable(hits, chunks, scores, f), vectorWeight, bm25Weight), PairScore)
  }

  /** The result of `_hybrid_search`. */
  function Fused(hits: seq<(Meta, real)>, chunks: seq<Meta>, scores: seq<real>, f: Filters,
                 topK: nat, vectorWeight: real, bm25Weight: real): seq<Doc>
    requires NonNegativeDistances(hits) && |scores| == |chunks|
  {
    FormatAll(Prefix(Ranked(hits, chunks, scores, f, vectorWeight, bm25Weight), topK))
  }

  // ---------------------------------------------------------------- rerank

  /** `rerank_score`: 2 per distinct query token in the title, 1 per distinct query token in the text. */
  function RerankScore(tokens: set<string>, d: Doc): int
  {
    var title := Lower(d.meta.title.GetOr(""));
    var text := Lower(d.meta.text.GetOr(""));
    2 * |set t | t in tokens && Contains(title, t)| + |set t | t in tokens && Contains(text, t)|
  }

  function WithRerankScores(tokens: set<string>, results: seq<Doc>): (r: seq<Doc>)
    ensures |r| == |results|
    ensures forall i | 0 <= i < |results| :: r[i] == results[i].(rerankScore := Some(RerankScore(tokens, results[i])))
  {
    seq(|results|, i requires 0 <= i < |results| => results[i].(rerankScore := Some(RerankScore(tokens, results[i]))))
  }

  /** The sort key `x.get("rerank_score", 0)`. */
  function RerankKey(d: Doc): real
  {
    d.rerankScore.GetOr(0) as real
  }

  function QueryTokenSet(query: string): set<string>
  {
    set t | t in Tokenize(query)
  }

  /** The result of `rerank`. */
  function Reranked(results: seq<Doc>, query: string, topK: nat): seq<Doc>
  {
    Prefix(SortDesc(WithRerankScores(QueryTokenSet(query), results), RerankKey), topK)
  }

  // ---------------------------------------------------------------- the retriever

  /**
   * The vector store as the retriever sees it: `(query, top_k, filters)` to `(metadata, L2 distance)`
   * pairs, at most `top_k` of them, as the vector store's `search` guarantees.
   */
  type VectorSearch = f: (string, nat, Filters) -> seq<(Meta, real)>
    | forall q, k, fl :: NonNegativeDistances(f(q, k, fl)) && |f(q, k, fl)| <= k
    witness (q: string, k: nat, fl: Filters) => []

  /** Every successful search of the vector store has at most `top_k` pairs and non-negative distances. */
  lemma StoreResultsAreBounded(vectors: seq<seq<real>>, metadata: seq<Meta>,
                               embedQuery: string -> seq<real>, knn: VectorStore.Knn)
    ensures forall q, k, fl ::
      var r := VectorStore.StoreSearch(vectors, metadata, q, k, fl, embedQuery, knn);
      r.Ok? ==> NonNegativeDistances(r.value) && |r.value| <= k
  {
    forall q, k, fl
      ensures var r := VectorStore.StoreSearch(vectors, metadata, q, k, fl, embedQuery, knn);
        r.Ok? ==> NonNegativeDistances(r.value) && |r.value| <= k
    {
      var r := VectorStore.StoreSearch(vectors, metadata, q, k, fl, embedQuery, knn);
      VectorStore.StoreSearchResults(vectors, metadata, q, k, fl, embedQuery, knn);
      if r.Ok? {
        forall i | 0 <= i < |r.value| ensures r.value[i].1 >= 0.0 {
          assert r.value[i] in r.value;
        }
      }
    }
  }

  /**
   * The vector store's `search` over fixed contents as the retriever sees it: its successful
   * results. When every vector has its metadata, as `add_documents` keeps it, no search fails.
   */
  function StoreVectorSearch(vectors: seq<seq<real>>, metadata: seq<Meta>,
                             embedQuery: string -> seq<real>, knn: VectorStore.Knn): (vs: VectorSearch)
    ensures forall q, k, fl | VectorStore.StoreSearch(vectors, metadata, q, k, fl, embedQuery, knn).Ok? ::
      vs(q, k, fl) == VectorStore.StoreSearch(vectors, metadata, q, k, fl, embedQuery, knn).value
    ensures |vectors| <= |metadata| ==> forall q, k, fl ::
      VectorStore.StoreSearch(vectors, metadata, q, k, fl, embedQuery, knn) == Ok(vs(q, k, fl))
  {
    StoreResultsAreBounded(vectors, metadata, embedQuery, knn);
    StoreSearchSucceeds(vectors, metadata, embedQuery, knn);
    (q: string, k: nat, fl: Filters) =>
      match VectorStore.StoreSearch(vectors, metadata, q, k, fl, embedQuery, knn)
      case Ok(v) => v
      case Err(_) => []
  }

  lemma StoreSearchSucceeds(vectors: seq<seq<real>>, metadata: seq<Meta>,
                            embedQuery: string -> seq<real>, knn: VectorStore.Knn)
    ensures |vectors| <= |metadata| ==> forall q, k, fl :: VectorStore.StoreSearch(vectors, metadata, q, k, fl, embedQuery, knn).Ok?
  {
    forall q, k, fl ensures |vectors| <= |metadata| ==> VectorStore.StoreSearch(vectors, metadata, q, k, fl, embedQuery, knn).Ok? {
      VectorStore.StoreSearchResults(vectors, metadata, q, k, fl, embedQuery, knn);
    }
  }

  /** `BM25Okapi(corpus).get_scores(query_tokens)`: one score per corpus document. */
  type Bm25Scorer = f: (seq<seq<string>>, seq<string>) -> seq<real>
    | forall c, q :: |f(c, q)| == |c|
    witness (c: seq<seq<string>>, q: seq<string>) => seq(|c|, i => 0.0)

  /** The BM25 corpus: the tokens of each chunk's text. */
  function CorpusTokens(chunks: seq<Meta>): (r: seq<seq<string>>)
    ensures |r| == |chunks|
    ensures forall i | 0 <= i < |chunks| :: r[i] == Tokenize(chunks[i].text.GetOr(""))
  {
    seq(|chunks|, i requires 0 <= i < |chunks| => Tokenize(chunks[i].text.GetOr("")))
  }

  /** The chunks read from a JSON-lines file: one parsed record per non-blank line. */
  function ParsedLines(lines: seq<string>, parse: string -> Meta): (r: seq<Meta>)
    ensures |r| <= |lines|
  {
    if lines == [] then []
    else
      var rest := ParsedLines(lines[..|lines| - 1], parse);
      var line := lines[|lines| - 1];
      if IsBlank(line) then rest else rest + [parse(line)]
  }

  /**
   * What `search` returns for a retriever holding `chunks` (tokenised as `corpus`): the fused
   * ranking over `3 * top_k` vector hits when hybrid search is asked for and an index exists,
   * otherwise the formatted vector hits.
   */
  function SearchResults(chunks: seq<Meta>, corpus: seq<seq<string>>, hasBm25Index: bool, query: string, topK: nat,
                         filters: Filters, useHybrid: bool, vectorWeight: real, bm25Weight: real,
                         vectorSearch: VectorSearch, bm25: Bm25Scorer): seq<Doc>
    requires |corpus| == |chunks|
  {
    if useHybrid && hasBm25Index then
      Fused(vectorSearch(query, topK * 3, filters), chunks, bm25(corpus, Tokenize(query)),
            filters, topK, vectorWeight, bm25Weight)
    else FormatAll(vectorSearch(query, topK, filters))
  }

  class HybridRetriever {
    /** The corpus chunks loaded for BM25 (`self.chunks`). */
    var chunks: seq<Meta>
    /** The tokenized corpus the BM25 index was built from. */
    var corpus: seq<seq<string>>
    /** Whether `self.bm25_index` was built. */
    var hasBm25Index: bool

    /** The BM25 corpus is the tokenization of the chunks, document for document. */
    predicate Valid()
      reads this
    {
      corpus == CorpusTokens(chunks)
    }

    /**
     * `__init__`: builds the BM25 index only when a chunks file is given;
     * `chunksFile` holds that file's lines and `parse` stands for `json.loads`.
     */
    constructor (chunksFile: Option<seq<string>>, parse: string -> Meta)
      ensures Valid()
      ensures chunksFile.Some? ==> chunks == ParsedLines(chunksFile.value, parse) && hasBm25Index
      ensures chunksFile.None? ==> chunks == [] && !hasBm25Index
    {
      chunks := [];
      corpus := [];
      hasBm25Index := false;
      new;
      if chunksFile.Some? {
        BuildBm25Index(chunksFile.value, parse);
      }
    }

    /** `_build_bm25_index` */
    method BuildBm25Index(lines: seq<string>, parse: string -> Meta)
      requires Valid()
      modifies this
      ensures Valid()
      ensures chunks == old(chunks) + ParsedLines(lines, parse)
      ensures hasBm25Index
    {
      var i := 0;
      while i < |lines|
        invariant 0 <= i <= |lines|
        invariant chunks == old(chunks) + ParsedLines(lines[..i], parse)
      {
        PrefixStep(lines, i);
        if !IsBlank(lines[i]) {
          chunks := chunks + [parse(lines[i])];
        }
        i := i + 1;
      }
      assert lines[..i] == lines;
      var tokenizedCorpus: seq<seq<string>> := [];
      var j := 0;
      while j < |chunks|
        invariant 0 <= j <= |chunks|
        invariant tokenizedCorpus == CorpusTokens(chunks[..j])
      {
        assert chunks[..j + 1][..j] == chunks[..j];
        tokenizedCorpus := tokenizedCorpus + [Tokenize(chunks[j].text.GetOr(""))];
        j := j + 1;
      }
      assert chunks[..j] == chunks;
      corpus := tokenizedCorpus;
      hasBm25Index := true;
    }

    /**
     * `search`: the fused ranking when hybrid search is requested and a BM25 index exists,
     * otherwise the vector store's hits formatted as they come.
     */
    method Search(query: string, topK: nat, filters: Filters, useHybrid: bool,
                  vectorWeight: real, bm25Weight: real,
                  vectorSearch: VectorSearch, bm25: Bm25Scorer) returns (r: seq<Doc>)
      requires Valid()
      ensures r == SearchResults(chunks, corpus, hasBm25Index, query, topK, filters, useHybrid,
                                 vectorWeight, bm25Weight, vectorSearch, bm25)
    {
      if useHybrid && hasBm25Index {
        r := HybridSearchPass(query, topK, filters, vectorWeight, bm25Weight, vectorSearch, bm25);
      } else {
        r := VectorOnlySearch(query, topK, filters, vectorSearch);
      }
    }

    /** `_vector_search` */
    static method VectorOnlySearch(query: string, topK: nat, filters: Filters, vectorSearch: VectorSearch)
      returns (r: seq<Doc>)
      ensures r == FormatAll(vectorSearch(query, topK, filters))
    {
      var results := vectorSearch(query, topK, filters);
      r := [];
      var i := 0;
      while i < |results|
        invariant 0 <= i <= |results|
        invariant r == FormatAll(results[..i])
      {
        r := r + [FormatResult(results[i].0, results[i].1)];
        i := i + 1;
      }
      PrefixWhole(results);
    }

    /** `_hybrid_search` */
    method HybridSearchPass(query: string, topK: nat, filters: Filters, vectorWeight: real, bm25Weight: real,
                            vectorSearch: VectorSearch, bm25: Bm25Scorer) returns (r: seq<Doc>)
      requires Valid()
      ensures r == Fused(vectorSearch(query, topK * 3, filters), chunks, bm25(corpus, Tokenize(query)),
                         filters, topK, vectorWeight, bm25Weight)
    {
      var vectorHits := vectorSearch(query, topK * 3, filters);
      var queryTokens := Tokenize(query);
      var bm25Scores := bm25(corpus, queryTokens);
      var keys, entries := VectorHitLoop(vectorHits);
      keys, entries := Bm25Loop(keys, entries, vectorHits, bm25Scores, filters);
      var finalResults := FinalScoreLoop(keys, entries, vectorWeight, bm25Weight);
      finalResults := SortDesc(finalResults, PairScore);
      r := FormatAll(Prefix(finalResults, topK));
    }

    /** The loop of `_hybrid_search` over the vector hits. */
    static method VectorHitLoop(vectorHits: seq<(Meta, real)>) returns (keys: seq<string>, entries: map<string, Entry>)
      requires NonNegativeDistances(vectorHits)
      ensures Table(keys, entries) == VectorPass(vectorHits)
    {
      keys := [];
      entries := map[];
      var i := 0;
      while i < |vectorHits|
        invariant 0 <= i <= |vectorHits|
        invariant Table(keys, entries) == VectorPass(vectorHits[..i])
      {
        ghost var t := Table(keys, entries);
        var metadata := vectorHits[i].0;
        var distance := vectorHits[i].1;
        var chunkId := metadata.chunkId;
        if Truthy(chunkId) {
          var vectorScore := 1.0 / (1.0 + distance);
          if chunkId.value !in entries {
            keys := keys + [chunkId.value];
          }
          entries := entries[chunkId.value := Entry(metadata, vectorScore, 0.0)];
          assert vectorScore == VectorScore(vectorHits[i].1);
        }
        VectorPassStep(vectorHits, i);
        assert Table(keys, entries) == AddVectorHit(t, vectorHits[i]);
        i := i + 1;
      }
      PrefixWhole(vectorHits);
    }

    /** The loop of `_hybrid_search` over the BM25 corpus. */
    method Bm25Loop(keys0: seq<string>, entries0: map<string, Entry>, ghost vectorHits: seq<(Meta, real)>,
                    bm25Scores: seq<real>, filters: Filters) returns (keys: seq<string>, entries: map<string, Entry>)
      requires NonNegativeDistances(vectorHits) && Table(keys0, entries0) == VectorPass(vectorHits)
      requires |bm25Scores| == |chunks|
      ensures Table(keys, entries) == FusionTable(vectorHits, chunks, bm25Scores, filters)
    {
      keys, entries := keys0, entries0;
      var j := 0;
      while j < |chunks|
        invariant 0 <= j <= |chunks|
        invariant Table(keys, entries) == LexicalPass(VectorPass(vectorHits), chunks, bm25Scores, filters, j)
      {
        ghost var t := Table(keys, entries);
        var chunk := chunks[j];
        var chunkId := chunk.chunkId;
        if Truthy(chunkId) {
          var bm25Score := bm25Scores[j];
          var normalized: real;
          if bm25Score > 0.0 {
            var maxBm25 := if |bm25Scores| > 0 then MaxOf(bm25Scores) else 1.0;
            normalized := if maxBm25 > 0.0 then bm25Score / maxBm25 else 0.0;
          } else {
            normalized := 0.0;
          }
          if chunkId.value in entries {
            entries := entries[chunkId.value := entries[chunkId.value].(bm25Score := normalized)];
          } else if Admits(filters, chunk) {
            keys := keys + [chunkId.value];
            entries := entries[chunkId.value := Entry(Rebuilt(chunk), 0.0, normalized)];
          }
          assert normalized == Normalize(bm25Scores[j], MaxScore(bm25Scores));
        }
        assert Table(keys, entries) == AddLexical(t, chunk, Normalize(bm25Scores[j], MaxScore(bm25Scores)), filters);
        LexicalPassStep(VectorPass(vectorHits), chunks, bm25Scores, filters, j);
        j := j + 1;
      }
    }

    /** The loop of `_hybrid_search` that builds `final_results`. */
    static method FinalScoreLoop(keys: seq<string>, entries: map<string, Entry>, vectorWeight: real, bm25Weight: real)
      returns (finalResults: seq<(Meta, real)>)
      requires TableValid(Table(keys, entries))
      ensures finalResults == FinalList(Table(keys, entries), vectorWeight, bm25Weight)
    {
      ghost var expected := FinalList(Table(keys, entries), vectorWeight, bm25Weight);
      finalResults := [];
      var k := 0;
      while k < |keys|
        invariant 0 <= k <= |keys|
        invariant finalResults == expected[..k]
      {
        assert expected[..k + 1] == expected[..k] + [expected[k]];
        var e := entries[keys[k]];
        var finalScore := e.vectorScore * vectorWeight + e.bm25Score * bm25Weight;
        assert expected[k].0 == e.meta;
        assert expected[k].1 == finalScore;
        finalResults := finalResults + [(e.meta, finalScore)];
        k := k + 1;
      }
      PrefixWhole(expected);
    }

    /** `rerank` */
    method Rerank(results: seq<Doc>, query: string, topK: nat) returns (r: seq<Doc>)
      ensures r == Reranked(results, query, topK)
    {
      var queryTokens := QueryTokenSet(query);
      var reranked: seq<Doc> := [];
      var i := 0;
      while i < |results|
        invariant 0 <= i <= |results|
        invariant reranked == WithRerankScores(queryTokens, results)[..i]
      {
        var result := results[i];
        var text := Lower(result.meta.text.GetOr(""));
        var title := Lower(result.meta.title.GetOr(""));
        var titleScore := |set t | t in queryTokens && Contains(title, t)| * 2;
        var textScore := |set t | t in queryTokens && Contains(text, t)|;
        reranked := reranked + [result.(rerankScore := Some(titleScore + textScore))];
        i := i + 1;
      }
      assert reranked == WithRerankScores(queryTokens, results);
      reranked := SortDesc(reranked, RerankKey);
      r := Prefix(reranked, topK);
    }
  }
}
