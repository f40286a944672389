/**
 * The per-request pipeline of the FAQ agent (`FAQAgent.process_question`): mask the inputs,
 * classify and rewrite the question, search with filters and retry with relaxed filters when
 * too little comes back, resolve conflicting FAQs (newest first, one chunk per FAQ), generate
 * from the first five documents, format, then attach the PII warning and calibrate confidence.
 */
module Orchestrator {
  import opened Common
  import opened Text
  import opened Sorting
  import opened Schemas
  import opened HybridSearch
  import opened PiiDetector
  import opened GeminiClient
  import opened Tools

  /** `top_k` of both searches. */
  const SearchTopK: nat := 10
  /** Fewer results than this trigger the relaxed search. */
  const MinResults: nat := 3
  /** Documents handed to the generator. */
  const MaxEvidence: nat := 5
  const SafetyPrefix: string := "주의: "

  // ---------------------------------------------------------------- get_date

  /** A calendar date as `datetime.strptime(s, "%Y-%m-%d")` produces it. */
  datatype Date = Date(year: nat, month: nat, day: nat)

  /** `datetime.min` */
  const MinDate: Date := Date(1, 1, 1)

  function DigitValue(c: char): nat
    requires IsDigit(c)
  {
    c as int - '0' as int
  }

  predicate AllDigits(s: string)
  {
    forall i | 0 <= i < |s| :: IsDigit(s[i])
  }

  /** The decimal value of a string of digits. */
  function DigitsValue(s: string): nat
    requires AllDigits(s)
  {
    if s == [] then 0 else 10 * DigitsValue(s[..|s| - 1]) + DigitValue(s[|s| - 1])
  }

  predicate IsLeapYear(y: nat)
  {
    y % 4 == 0 && (y % 100 != 0 || y % 400 == 0)
  }

  function DaysInMonth(y: nat, m: nat): nat
    requires 1 <= m <= 12
  {
    if m == 2 then (if IsLeapYear(y) then 29 else 28)
    else if m == 4 || m == 6 || m == 9 || m == 11 then 30
    else 31
  }

  /** What the `datetime` constructor accepts. */
  predicate IsValidDate(d: Date)
  {
    1 <= d.year <= 9999 && 1 <= d.month <= 12 && 1 <= d.day <= DaysInMonth(d.year, d.month)
  }

  /**
   * The `%m` directive, the alternatives `1[0-2]|0[1-9]|[1-9]` tried in order at the front of
   * `s`: the month and the number of characters it took.
   */
  function MonthField(s: string): (r: Option<(nat, nat)>)
    ensures r.Some? ==> 1 <= r.value.0 <= 12 && 1 <= r.value.1 <= 2 && r.value.1 <= |s|
  {
    if |s| >= 2 && s[0] == '1' && '0' <= s[1] <= '2' then Some((10 + DigitValue(s[1]), 2))
    else if |s| >= 2 && s[0] == '0' && '1' <= s[1] <= '9' then Some((DigitValue(s[1]), 2))
    else if |s| >= 1 && '1' <= s[0] <= '9' then Some((DigitValue(s[0]), 1))
    else None
  }

  /**
   * The `%d` directive, `3[01]|[12]\d|0[1-9]|[1-9]| [1-9]`, at the end of the string: the whole
   * remainder must be what the first matching alternative takes ("unconverted data remains"
   * otherwise).
   */
  function DayField(s: string): (r: Option<nat>)
    ensures r.Some? ==> 1 <= r.value <= 31
  {
    if |s| == 2 && s[0] == '3' && (s[1] == '0' || s[1] == '1') then Some(30 + DigitValue(s[1]))
    else if |s| == 2 && (s[0] == '1' || s[0] == '2') && IsDigit(s[1]) then Some(10 * DigitValue(s[0]) + DigitValue(s[1]))
    else if |s| == 2 && s[0] == '0' && '1' <= s[1] <= '9' then Some(DigitValue(s[1]))
    else if |s| == 1 && '1' <= s[0] <= '9' then Some(DigitValue(s[0]))
    else if |s| == 2 && s[0] == ' ' && '1' <= s[1] <= '9' then Some(DigitValue(s[1]))
    else None
  }

  function Pow10(n: nat): nat
  {
    if n == 0 then 1 else 10 * Pow10(n - 1)
  }

  lemma {:induction false} DigitsValueBound(s: string)
    requires AllDigits(s)
    ensures DigitsValue(s) < Pow10(|s|)
    decreases |s|
  {
    if s != [] {
      DigitsValueBound(s[..|s| - 1]);
    }
  }

  /** `datetime.strptime(s, "%Y-%m-%d")`, `None` where it raises. */
  function ParseDate(s: string): (r: Option<Date>)
    ensures r.Some? ==> IsValidDate(r.value)
  {
    if |s| < 5 || !AllDigits(s[..4]) || s[4] != '-' then None
    else
      var rest := s[5..];
      match MonthField(rest)
      case None => None
      case Some(field) =>
        var width := field.1;
        if width >= |rest| || rest[width] != '-' then None
        else
          match DayField(rest[width + 1..])
          case None => None
          case Some(day) =>
            var date := Date(DigitsValue(s[..4]), field.0, day);
            DigitsValueBound(s[..4]);
            if IsValidDate(date) then Some(date) else None
  }

  /** Dates in the order `datetime` compares them. */
  function DateKey(d: Date): real
  {
    (d.year * 10000 + d.month * 100 + d.day) as real
  }

  /** `get_date`: the parsed `updated_at`, or `datetime.min` when missing or unparseable. */
  function UpdatedAt(doc: Doc): Date
  {
    ParseDate(doc.meta.updatedAt.GetOr("")).GetOr(MinDate)
  }

  /** The sort key of `_resolve_conflicts`. */
  function UpdatedAtKey(doc: Doc): real
  {
    DateKey(UpdatedAt(doc))
  }

  // ---------------------------------------------------------------- _resolve_conflicts

  /** The non-empty `faq_id`s among `docs`. */
  function FaqIds(docs: seq<Doc>): set<string>
  {
    set d | d in docs && Truthy(d.meta.faqId) :: d.meta.faqId.value
  }

  /**
   * The deduplication loop: a document with a non-empty `faq_id` is kept when no earlier one
   * had it; a document without one is always kept.
   */
  function Unique(docs: seq<Doc>): seq<Doc>
  {
    if docs == [] then []
    else
      var init := docs[..|docs| - 1];
      var doc := docs[|docs| - 1];
      if Truthy(doc.meta.faqId) && doc.meta.faqId.value in FaqIds(init) then Unique(init)
      else Unique(init) + [doc]
  }

  /** What `_resolve_conflicts` returns. */
  function Resolved(docs: seq<Doc>): seq<Doc>
  {
    Unique(SortDesc(docs, UpdatedAtKey))
  }

  lemma FaqIdsAppend(docs: seq<Doc>, doc: Doc)
    ensures FaqIds(docs + [doc]) == FaqIds(docs) + (if Truthy(doc.meta.faqId) then {doc.meta.faqId.value} else {})
  {
    var s := docs + [doc];
    forall x | x in FaqIds(s) ensures x in FaqIds(docs) || (Truthy(doc.meta.faqId) && x == doc.meta.faqId.value) {
      var d :| d in s && Truthy(d.meta.faqId) && d.meta.faqId.value == x;
      if d != doc {
        assert d in docs;
      }
    }
    forall x | x in FaqIds(docs) ensures x in FaqIds(s) {
      var d :| d in docs && Truthy(d.meta.faqId) && d.meta.faqId.value == x;
      assert d in s;
    }
    if Truthy(doc.meta.faqId) {
      assert doc in s;
    }
  }

  lemma UniqueAppend(docs: seq<Doc>, doc: Doc)
    ensures Unique(docs + [doc])
         == if Truthy(doc.meta.faqId) && doc.meta.faqId.value in FaqIds(docs) then Unique(docs) else Unique(docs) + [doc]
  {
    assert (docs + [doc])[..|docs|] == docs;
  }

  /** The deduplication loop of `_resolve_conflicts` over the sorted documents. */
  method KeepFirstPerFaq(sortedDocs: seq<Doc>) returns (uniqueDocs: seq<Doc>)
    ensures uniqueDocs == Unique(sortedDocs)
  {
    var seenFaqIds: set<string> := {};
    uniqueDocs := [];
    for i := 0 to |sortedDocs|
      invariant uniqueDocs == Unique(sortedDocs[..i])
      invariant seenFaqIds == FaqIds(sortedDocs[..i])
    {
      var doc := sortedDocs[i];
      var faqId := doc.meta.faqId;
      assert sortedDocs[..i + 1] == sortedDocs[..i] + [doc];
      FaqIdsAppend(sortedDocs[..i], doc);
      UniqueAppend(sortedDocs[..i], doc);
      if Truthy(faqId) && faqId.value !in seenFaqIds {
        uniqueDocs := uniqueDocs + [doc];
        seenFaqIds := seenFaqIds + {faqId.value};
      } else if !Truthy(faqId) {
        uniqueDocs := uniqueDocs + [doc];
      }
    }
    PrefixWhole(sortedDocs);
  }

  /** `_resolve_conflicts` */
  method ResolveConflicts(docs: seq<Doc>) returns (uniqueDocs: seq<Doc>)
    ensures uniqueDocs == Resolved(docs)
  {
    var sortedDocs := SortDesc(docs, UpdatedAtKey);
    uniqueDocs := KeepFirstPerFaq(sortedDocs);
  }

  // ---------------------------------------------------------------- filters and relaxed search

  /** The filters of the first search. */
  function BuildFilters(channel: Option<string>, intent: string): (f: Filters)
    ensures f.channel.Some? <==> Truthy(channel)
    ensures f.channel.Some? ==> f.channel == channel
    ensures f.category.Some? <==> intent != "" && intent != OtherCategory
    ensures f.category.Some? ==> f.category.value == intent
    ensures f.updatedAt.None?
  {
    Filters(if intent != "" && intent != OtherCategory then Some(intent) else None,
            if Truthy(channel) then channel else None,
            None)
  }

  /** The filters of the relaxed search: the channel only. */
  function RelaxedFilters(channel: Option<string>): Filters
  {
    Filters(None, if Truthy(channel) then channel else None, None)
  }

  /** The `chunk_id`s of `docs` (`existing_ids`; a missing id is `None`). */
  function ChunkIds(docs: seq<Doc>): set<Option<string>>
  {
    set d | d in docs :: d.meta.chunkId
  }

  /** The relaxed documents whose `chunk_id` is not among `ids`, in order. */
  function NewDocs(relaxed: seq<Doc>, ids: set<Option<string>>): seq<Doc>
  {
    if relaxed == [] then []
    else
      var init := relaxed[..|relaxed| - 1];
      var doc := relaxed[|relaxed| - 1];
      if doc.meta.chunkId in ids then NewDocs(init, ids) else NewDocs(init, ids) + [doc]
  }

  /** The merge: the first results followed by the relaxed results with a new `chunk_id`. */
  function Merged(docs: seq<Doc>, relaxed: seq<Doc>): seq<Doc>
  {
    docs + NewDocs(relaxed, ChunkIds(docs))
  }

  /** The merge loop (`existing_ids` is not updated inside it). */
  method MergeRelaxed(retrievedDocs: seq<Doc>, relaxedDocs: seq<Doc>) returns (merged: seq<Doc>)
    ensures merged == Merged(retrievedDocs, relaxedDocs)
  {
    var existingIds := set d | d in retrievedDocs :: d.meta.chunkId;
    merged := retrievedDocs;
    for i := 0 to |relaxedDocs|
      invariant merged == retrievedDocs + NewDocs(relaxedDocs[..i], existingIds)
    {
      var doc := relaxedDocs[i];
      PrefixStep(relaxedDocs, i);
      if doc.meta.chunkId !in existingIds {
        merged := merged + [doc];
      }
    }
    PrefixWhole(relaxedDocs);
  }

  // ---------------------------------------------------------------- safety and confidence

  /** The safety text built from the PII warnings. */
  function SafetyMessage(warnings: seq<string>): string
  {
    SafetyPrefix + Join(" ", warnings)
  }

  /** Step 8: the PII warnings replace `safety` when there are any. */
  function WithSafety(formatted: Answer, warnings: seq<string>): Answer
  {
    if warnings != [] then formatted.(safety := Some(SafetyMessage(warnings))) else formatted
  }

  /** Step 9: an answer without citations gets low confidence and the canned no-match text. */
  function Calibrated(a: Answer): Answer
  {
    if a.citations == [] then
      a.(confidence := Some(ConfidenceLow),
         answer := if StartsWith(a.answer.GetOr(""), NoMatchPrefix) then a.answer else Some(NoMatchAnswer))
    else a
  }

  // ---------------------------------------------------------------- process_question

  /** The masked user context handed to the generator: `None` unless a non-empty context was given. */
  function ContextClean(finder: Finder, userContext: Option<string>): Option<string>
  {
    if Truthy(userContext) then Some(Detect(finder, userContext.value).text) else None
  }

  /** The state of the hybrid retriever that a search reads: its chunks, their tokens and whether a BM25 index exists. */
  datatype SearchIndex = SearchIndex(chunks: seq<Meta>, corpus: seq<seq<string>>, hasBm25Index: bool)

  /** A retriever state whose token lists are aligned with its chunks. */
  type LoadedIndex = index: SearchIndex | |index.corpus| == |index.chunks| witness SearchIndex([], [], false)

  /** Steps 3 to 5: search, the relaxed retry when fewer than three documents come back, conflict resolution. */
  function Evidence(index: LoadedIndex, vectorSearch: VectorSearch, bm25: Bm25Scorer,
                    query: string, channel: Option<string>, intent: string): seq<Doc>
  {
    var docs := Retrieved(index.chunks, index.corpus, index.hasBm25Index, query, SearchTopK,
                          BuildFilters(channel, intent), vectorSearch, bm25);
    var relaxed := Retrieved(index.chunks, index.corpus, index.hasBm25Index, query, SearchTopK,
                             RelaxedFilters(channel), vectorSearch, bm25);
    Resolved(if |docs| < MinResults then Merged(docs, relaxed) else docs)
  }

  /** Steps 6 and 7: generation from the first five documents, then formatting against all of them. */
  function Answering(model: Model, prompts: Prompts, decode: JsonDecoder, questionClean: string, docs: seq<Doc>,
                     userContextClean: Option<string>): Answer
  {
    Formatted(AnswerFor(model, prompts, decode, questionClean, Prefix(docs, MaxEvidence), userContextClean), docs)
  }

  /**
   * Steps 1 to 9 on the masked inputs: classify, rewrite, gather evidence, generate, format,
   * attach the warnings and calibrate.
   */
  function Respond(index: LoadedIndex, model: Model, prompts: Prompts, decode: JsonDecoder, vectorSearch: VectorSearch,
                   bm25: Bm25Scorer, questionClean: string, userContextClean: Option<string>,
                   piiWarnings: seq<string>, channel: Option<string>): Answer
  {
    var intent := ClassifyIntent(model, prompts, questionClean);
    var query := RewriteQuery(model, prompts, questionClean, intent);
    var docs := Evidence(index, vectorSearch, bm25, query, channel, intent);
    Calibrated(WithSafety(Answering(model, prompts, decode, questionClean, docs, userContextClean), piiWarnings))
  }

  /** What `process_question` returns. */
  function Process(index: LoadedIndex, model: Model, prompts: Prompts, decode: JsonDecoder, finder: Finder,
                   vectorSearch: VectorSearch, bm25: Bm25Scorer,
                   question: string, channel: Option<string>, userContext: Option<string>): Answer
  {
    Respond(index, model, prompts, decode, vectorSearch, bm25,
            Detect(finder, question).text, ContextClean(finder, userContext),
            InputWarnings(finder, question, userContext), channel)
  }

  /** The agent: a retriever and the collaborators it calls. */
  class FAQAgent {
    const retriever: HybridRetriever
    /** The Gemini client's model. */
    const model: Model
    /** The Gemini client's system instructions. */
    const prompts: Prompts
    /** `json.loads` of the generated answer. */
    const decode: JsonDecoder
    /** The regular-expression engine of the PII masker. */
    const finder: Finder
    /** The vector store behind the retriever. */
    const vectorSearch: VectorSearch
    /** The BM25 index behind the retriever. */
    const bm25: Bm25Scorer

    constructor (retriever: HybridRetriever, model: Model, decode: JsonDecoder, finder: Finder,
                 vectorSearch: VectorSearch, bm25: Bm25Scorer)
      ensures this.retriever == retriever && this.model == model && this.decode == decode
      ensures this.finder == finder && this.vectorSearch == vectorSearch && this.bm25 == bm25
      ensures this.prompts == DefaultPrompts
    {
      this.retriever := retriever;
      this.model := model;
      this.prompts := DefaultPrompts;
      this.decode := decode;
      this.finder := finder;
      this.vectorSearch := vectorSearch;
      this.bm25 := bm25;
    }

    /** The retriever's current state. */
    function Index(): LoadedIndex
      requires retriever.Valid()
      reads retriever
    {
      SearchIndex(retriever.chunks, retriever.corpus, retriever.hasBm25Index)
    }

    /** Steps 3 to 5 against the retriever. */
    method GatherEvidence(query: string, channel: Option<string>, intent: string) returns (docs: seq<Doc>)
      requires retriever.Valid()
      ensures docs == Evidence(Index(), vectorSearch, bm25, query, channel, intent)
    {
      var filters := BuildFilters(channel, intent);
      var retrievedDocs := RetrieveFaq(retriever, query, SearchTopK, filters, vectorSearch, bm25);
      if |retrievedDocs| < MinResults {
        var relaxedDocs := RetrieveFaq(retriever, query, SearchTopK, RelaxedFilters(channel), vectorSearch, bm25);
        retrievedDocs := MergeRelaxed(retrievedDocs, relaxedDocs);
      }
      docs := ResolveConflicts(retrievedDocs);
    }

    /** Steps 8 and 9 on the formatted answer. */
    static method Finish(formatted0: Answer, piiWarnings: seq<string>) returns (formatted: Answer)
      ensures formatted == Calibrated(WithSafety(formatted0, piiWarnings))
    {
      formatted := formatted0;
      if piiWarnings != [] {
        formatted := formatted.(safety := Some(SafetyPrefix + Join(" ", piiWarnings)));
      }
      if formatted.citations == [] {
        formatted := formatted.(confidence := Some(ConfidenceLow));
        if !StartsWith(formatted.answer.GetOr(""), NoMatchPrefix) {
          formatted := formatted.(answer := Some(NoMatchAnswer));
        }
      }
    }

    /** The masking of step 0: the question, and the user context when one is given. */
    method MaskInputs(question: string, userContext: Option<string>)
      returns (questionClean: string, userContextClean: Option<string>, piiWarnings: seq<string>)
      ensures questionClean == Detect(finder, question).text
      ensures userContextClean == ContextClean(finder, userContext)
      ensures piiWarnings == InputWarnings(finder, question, userContext)
    {
      questionClean, piiWarnings := DetectAndMaskPii(question, finder);
      userContextClean := None;
      if userContext.Some? && userContext.value != "" {
        var contextText, contextWarnings := DetectAndMaskPii(userContext.value, finder);
        userContextClean := Some(contextText);
        piiWarnings := piiWarnings + contextWarnings;
      }
    }

    /** Steps 1 to 9. */
    method RespondTo(questionClean: string, userContextClean: Option<string>, piiWarnings: seq<string>,
                     channel: Option<string>) returns (answer: Answer)
      requires retriever.Valid()
      ensures answer == Respond(Index(), model, prompts, decode, vectorSearch, bm25, questionClean, userContextClean,
                                piiWarnings, channel)
    {
      var intent := ClassifyIntent(model, prompts, questionClean);
      var rewrittenQuery := RewriteQuery(model, prompts, questionClean, intent);
      var retrievedDocs := GatherEvidence(rewrittenQuery, channel, intent);
      var answerData := GenerateAnswer(model, prompts, decode, questionClean, Prefix(retrievedDocs, MaxEvidence), userContextClean);
      var formatted := FormatAnswer(answerData, retrievedDocs);
      answer := Finish(formatted, piiWarnings);
    }

    /** `process_question` */
    method ProcessQuestion(question: string, channel: Option<string>, userContext: Option<string>)
      returns (answer: Answer)
      requires retriever.Valid()
      ensures answer == Process(Index(), model, prompts, decode, finder, vectorSearch, bm25, question, channel, userContext)
    {
      var questionClean, userContextClean, piiWarnings := MaskInputs(question, userContext);
      answer := RespondTo(questionClean, userContextClean, piiWarnings, channel);
    }
  }
}
