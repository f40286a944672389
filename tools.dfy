/**
 * The agent's tools: FAQ retrieval with its optional rerank, and the formatting of the
 * generated answer (citation synthesis from the retrieved documents, confidence
 * adjustment, line splitting and the caps on steps and follow-ups).
 */
module Tools {
  import opened Common
  import opened Text
  import opened Schemas
  import opened HybridSearch
  import opened HybridSearchProperties

  const MaxCitations: nat := 5
  const MaxSteps: nat := 7
  const MaxFollowups: nat := 2

  // ---------------------------------------------------------------- retrieve_faq

  /** What `retrieve_faq` returns: the search results, reranked and cut when there are too many. */
  function Retrieved(chunks: seq<Meta>, corpus: seq<seq<string>>, hasBm25Index: bool, query: string, topK: nat,
                     filters: Filters, vectorSearch: VectorSearch, bm25: Bm25Scorer): seq<Doc>
    requires |corpus| == |chunks|
  {
    var results := SearchResults(chunks, corpus, hasBm25Index, query, topK, filters, true,
                                 DefaultVectorWeight, DefaultBm25Weight, vectorSearch, bm25);
    if |results| > topK then Reranked(results, query, topK) else results
  }

  /** The rerank branch is never taken: `retrieve_faq` returns the search results unchanged. */
  lemma RetrievedIsSearch(chunks: seq<Meta>, corpus: seq<seq<string>>, hasBm25Index: bool, query: string, topK: nat,
                          filters: Filters, vectorSearch: VectorSearch, bm25: Bm25Scorer)
    requires |corpus| == |chunks|
    ensures Retrieved(chunks, corpus, hasBm25Index, query, topK, filters, vectorSearch, bm25)
         == SearchResults(chunks, corpus, hasBm25Index, query, topK, filters, true,
                          DefaultVectorWeight, DefaultBm25Weight, vectorSearch, bm25)
    ensures |Retrieved(chunks, corpus, hasBm25Index, query, topK, filters, vectorSearch, bm25)| <= topK
  {
    SearchAtMostTopK(chunks, corpus, hasBm25Index, query, topK, filters, true,
                     DefaultVectorWeight, DefaultBm25Weight, vectorSearch, bm25);
  }

  /** `retrieve_faq` */
  method RetrieveFaq(retriever: HybridRetriever, query: string, topK: nat, filters: Filters,
                     vectorSearch: VectorSearch, bm25: Bm25Scorer) returns (results: seq<Doc>)
    requires retriever.Valid()
    ensures results == Retrieved(retriever.chunks, retriever.corpus, retriever.hasBm25Index, query, topK,
                                 filters, vectorSearch, bm25)
  {
    results := retriever.Search(query, topK, filters, true, DefaultVectorWeight, DefaultBm25Weight,
                                vectorSearch, bm25);
    if |results| > topK {
      results := retriever.Rerank(results, query, topK);
    }
  }

  // ---------------------------------------------------------------- lines

  /** A string `steps` or `followups` value, as the list of its stripped non-blank lines. */
  function NonBlankLines(text: string): (r: seq<string>)
    ensures forall k | 0 <= k < |r| :: r[k] != [] && IsStripped(r[k])
  {
    StrippedNonBlank(SplitOn(text, '\n'))
  }

  /** Joining pieces without the separator and splitting again gives the pieces back. */
  lemma {:induction false} SplitOnJoin(pieces: seq<string>, sep: char)
    requires pieces != []
    requires forall k | 0 <= k < |pieces| :: sep !in pieces[k]
    ensures SplitOn(Join([sep], pieces), sep) == pieces
    decreases |pieces|
  {
    if |pieces| == 1 {
      assert IndexOf(pieces[0], sep) == |pieces[0]|;
    } else {
      SplitOnJoin(pieces[1..], sep);
      SplitOnCons(pieces[0], Join([sep], pieces[1..]), sep);
      assert Join([sep], pieces) == pieces[0] + [sep] + Join([sep], pieces[1..]);
      assert pieces == [pieces[0]] + pieces[1..];
    }
  }

  /** A first piece without the separator is split off at the separator that follows it. */
  lemma SplitOnCons(p: string, rest: string, sep: char)
    requires sep !in p
    ensures SplitOn(p + [sep] + rest, sep) == [p] + SplitOn(rest, sep)
  {
    var s := p + [sep] + rest;
    assert s[|p|] == sep;
    assert IndexOf(s, sep) == |p|;
    assert s[..|p|] == p;
    assert s[|p| + 1..] == rest;
  }

  lemma NonBlankLinesOfEmpty()
    ensures NonBlankLines([]) == []
  {
    assert SplitOn([], '\n') == [[]];
    assert Strip([]) == [];
  }

  /** Lines that are non-blank, stripped and free of newlines survive the round trip through one string. */
  lemma NonBlankLinesOfJoin(lines: seq<string>)
    requires forall k | 0 <= k < |lines| :: lines[k] != [] && IsStripped(lines[k]) && '\n' !in lines[k]
    ensures NonBlankLines(Join(['\n'], lines)) == lines
  {
    if lines == [] {
      NonBlankLinesOfEmpty();
    } else {
      SplitOnJoin(lines, '\n');
      StrippedNonBlankOfStripped(lines);
    }
  }

  /** A `steps`/`followups` value as a list: a string is split into lines, a missing value is `[]`. */
  function AsList(v: Option<TextOrList>): seq<string>
  {
    match v
    case None => []
    case Some(Block(text)) => NonBlankLines(text)
    case Some(Items(items)) => items
  }

  // ---------------------------------------------------------------- format_answer

  /**
   * The citation synthesised from a retrieved document. A search result always holds the
   * `title` and `url` keys, so `doc.get("title", "")` passes a `None` title through.
   */
  function CitationOf(d: Doc): (c: Citation)
    ensures c.title == d.meta.title && c.url == d.meta.url && c.faqId == d.meta.faqId
    ensures d.snippet.Some? ==> c.snippet == d.snippet.value
    ensures d.snippet.None? ==> c.snippet == Prefix(d.meta.text.GetOr(""), SnippetLength)
  {
    Citation(d.meta.title, d.meta.url,
             d.snippet.GetOr(Prefix(d.meta.text.GetOr(""), SnippetLength)), d.meta.faqId)
  }

  function CitationsOf(docs: seq<Doc>): (r: seq<Citation>)
    ensures |r| == |docs|
    ensures forall i | 0 <= i < |docs| :: r[i] == CitationOf(docs[i])
  {
    seq(|docs|, i requires 0 <= i < |docs| => CitationOf(docs[i]))
  }

  /** The citations: the model's own, or else those of the first five retrieved documents. */
  function CitationsFor(answerData: AnswerData, docs: seq<Doc>): seq<Citation>
  {
    if answerData.citations == [] && docs != [] then CitationsOf(Prefix(docs, MaxCitations))
    else answerData.citations
  }

  /** What `format_answer` returns. */
  function Formatted(answerData: AnswerData, docs: seq<Doc>): Answer
  {
    var citations := CitationsFor(answerData, docs);
    var confidence := if citations == [] then Some(ConfidenceLow) else answerData.confidence.Get(ConfidenceMedium);
    var answer :=
      if citations == [] && !StartsWith(answerData.answer.Get("").GetOr(""), NoMatchPrefix) then Some(NoMatchAnswer)
      else answerData.answer.Get("");
    Answer(answer, Prefix(AsList(answerData.steps), MaxSteps), citations,
           Prefix(AsList(answerData.followups), MaxFollowups), confidence, answerData.safety.Get(""))
  }

  /** At most seven steps and two follow-ups, each the leading part of what the model sent. */
  lemma FormattedCaps(answerData: AnswerData, docs: seq<Doc>)
    ensures var a := Formatted(answerData, docs);
      && |a.steps| <= MaxSteps && a.steps <= AsList(answerData.steps)
      && |a.followups| <= MaxFollowups && a.followups <= AsList(answerData.followups)
      && (|AsList(answerData.steps)| >= MaxSteps ==> |a.steps| == MaxSteps)
      && (|AsList(answerData.followups)| >= MaxFollowups ==> |a.followups| == MaxFollowups)
  {
  }

  /**
   * The model's citations pass through uncapped; without them the first (at most) five
   * documents are cited, each by title, URL, snippet and `faq_id`.
   */
  lemma FormattedCitations(answerData: AnswerData, docs: seq<Doc>)
    ensures var a := Formatted(answerData, docs);
      && (answerData.citations != [] ==> a.citations == answerData.citations)
      && (answerData.citations == [] ==>
            |a.citations| == (if |docs| <= MaxCitations then |docs| else MaxCitations)
            && forall i | 0 <= i < |a.citations| :: a.citations[i] == CitationOf(docs[i]))
  {
  }

  /**
   * The answer is without citations only when there was nothing to cite; it then has low
   * confidence and an answer starting with the canned no-match text. With citations the
   * model's answer and confidence (default "medium") are kept, `None` where the model sent
   * `null`; so is the safety text (default "").
   */
  lemma FormattedConfidence(answerData: AnswerData, docs: seq<Doc>)
    ensures var a := Formatted(answerData, docs);
      && (a.citations == [] <==> answerData.citations == [] && docs == [])
      && (a.citations == [] ==>
            a.confidence == Some(ConfidenceLow) && a.answer.Some? && StartsWith(a.answer.value, NoMatchPrefix))
      && (a.citations == [] && answerData.answer.Text? && StartsWith(answerData.answer.text, NoMatchPrefix) ==>
            a.answer == Some(answerData.answer.text))
      && (a.citations != [] ==>
            && (answerData.confidence.Missing? ==> a.confidence == Some(ConfidenceMedium))
            && (answerData.confidence.Null? ==> a.confidence == None)
            && (answerData.confidence.Text? ==> a.confidence == Some(answerData.confidence.text))
            && (answerData.answer.Missing? ==> a.answer == Some(""))
            && (answerData.answer.Null? ==> a.answer == None)
            && (answerData.answer.Text? ==> a.answer == Some(answerData.answer.text)))
      && (answerData.safety.Missing? ==> a.safety == Some(""))
      && (answerData.safety.Null? ==> a.safety == None)
      && (answerData.safety.Text? ==> a.safety == Some(answerData.safety.text))
  {
    var a := Formatted(answerData, docs);
    if a.citations == [] && !StartsWith(answerData.answer.Get("").GetOr(""), NoMatchPrefix) {
      assert NoMatchAnswer[..|NoMatchPrefix|] == NoMatchPrefix;
    }
  }

  /** The citation loop over the first five documents. */
  method CiteDocuments(docs: seq<Doc>) returns (citations: seq<Citation>)
    ensures citations == CitationsOf(Prefix(docs, MaxCitations))
  {
    var top := Prefix(docs, MaxCitations);
    citations := [];
    var i := 0;
    while i < |top|
      invariant 0 <= i <= |top|
      invariant citations == CitationsOf(top[..i])
    {
      var doc := top[i];
      var citation := Citation(doc.meta.title, doc.meta.url,
                               doc.snippet.GetOr(Prefix(doc.meta.text.GetOr(""), SnippetLength)), doc.meta.faqId);
      citations := citations + [citation];
      i := i + 1;
    }
    PrefixWhole(top);
  }

  /** `format_answer` */
  method FormatAnswer(answerData: AnswerData, docs: seq<Doc>) returns (formatted: Answer)
    ensures formatted == Formatted(answerData, docs)
  {
    var citations := answerData.citations;
    if citations == [] && docs != [] {
      citations := CiteDocuments(docs);
    }
    var confidence := answerData.confidence.Get(ConfidenceMedium);
    var answer := answerData.answer.Get("");
    if citations == [] {
      confidence := Some(ConfidenceLow);
      if !StartsWith(answer.GetOr(""), NoMatchPrefix) {
        answer := Some(NoMatchAnswer);
      }
    }
    var steps := AsList(answerData.steps);
    var followups := AsList(answerData.followups);
    formatted := Answer(answer, Prefix(steps, MaxSteps), citations, Prefix(followups, MaxFollowups),
                        confidence, answerData.safety.Get(""));
  }
}
