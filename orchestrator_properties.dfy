/**
 * Properties of the agent pipeline: the date key orders dates as `datetime` does and reads back
 * the canonical `YYYY-MM-DD` form; conflict resolution returns a date-sorted subsequence with one
 * document per FAQ; the relaxed merge keeps the first results and adds only new chunks; the final
 * calibration is implied by the formatting.
 */
module OrchestratorProperties {
  import opened Common
  import opened Text
  import opened Sorting
  import opened Schemas
  import opened HybridSearch
  import opened Tools
  import opened Orchestrator

  // ---------------------------------------------------------------- dates

  /** `a` is strictly earlier than `b`. */
  predicate Before(a: Date, b: Date)
  {
    a.year < b.year || (a.year == b.year && (a.month < b.month || (a.month == b.month && a.day < b.day)))
  }

  /** On valid dates the sort key orders exactly as the calendar does, and tells dates apart. */
  lemma DateKeyOrder(a: Date, b: Date)
    requires IsValidDate(a) && IsValidDate(b)
    ensures DateKey(a) < DateKey(b) <==> Before(a, b)
    ensures DateKey(a) == DateKey(b) <==> a == b
  {
    var ra := a.month * 100 + a.day;
    var rb := b.month * 100 + b.day;
    assert 101 <= ra <= 1231 && 101 <= rb <= 1231;
    assert ra < rb <==> (a.month < b.month || (a.month == b.month && a.day < b.day));
    assert ra == rb ==> a.month == b.month && a.day == b.day;
  }

  /** A missing or unparseable `updated_at` sorts as `datetime.min`, below every parseable date. */
  lemma MinDateIsLeast(doc: Doc)
    ensures UpdatedAtKey(doc) >= DateKey(MinDate)
    ensures ParseDate(doc.meta.updatedAt.GetOr("")).None? ==> UpdatedAtKey(doc) == DateKey(MinDate)
    ensures ParseDate(doc.meta.updatedAt.GetOr("")).Some? ==> UpdatedAt(doc) == ParseDate(doc.meta.updatedAt.GetOr("")).value
  {
  }

  /** `n` as exactly `width` decimal digits (zero-padded, `%0*d`). */
  function Digits(n: nat, width: nat): (r: string)
    ensures |r| == width && AllDigits(r)
  {
    if width == 0 then [] else Digits(n / 10, width - 1) + [DigitChar(n % 10)]
  }

  /** The canonical `YYYY-MM-DD` text of a date. */
  function FormatDate(d: Date): string
  {
    Digits(d.year, 4) + "-" + Digits(d.month, 2) + "-" + Digits(d.day, 2)
  }

  lemma {:induction false} DigitsValueOfDigits(n: nat, width: nat)
    requires n < Pow10(width)
    ensures DigitsValue(Digits(n, width)) == n
    decreases width
  {
    if width > 0 {
      var s := Digits(n, width);
      assert s[..|s| - 1] == Digits(n / 10, width - 1);
      DigitsValueOfDigits(n / 10, width - 1);
    }
  }

  lemma TwoDigits(n: nat)
    requires n < 100
    ensures Digits(n, 2) == [DigitChar(n / 10), DigitChar(n % 10)]
  {
    var t := n / 10;
    assert t < 10 && t % 10 == t;
    assert Digits(t, 1) == Digits(t / 10, 0) + [DigitChar(t % 10)];
  }

  lemma MonthFieldOfDigits(m: nat, tail: string)
    requires 1 <= m <= 12
    ensures MonthField(Digits(m, 2) + tail) == Some((m, 2))
  {
    TwoDigits(m);
  }

  lemma DayFieldOfDigits(d: nat)
    requires 1 <= d <= 31
    ensures DayField(Digits(d, 2)) == Some(d)
  {
    TwoDigits(d);
  }

  /** Every valid date reads back from its canonical text. */
  lemma ParseFormatDate(d: Date)
    requires IsValidDate(d)
    ensures ParseDate(FormatDate(d)) == Some(d)
  {
    var y := Digits(d.year, 4);
    var m := Digits(d.month, 2);
    var day := Digits(d.day, 2);
    var s := FormatDate(d);
    var rest := m + "-" + day;
    assert s == y + "-" + rest;
    assert s[..4] == y && s[4] == '-' && s[5..] == rest;
    assert Pow10(4) == 10000;
    DigitsValueOfDigits(d.year, 4);
    MonthFieldOfDigits(d.month, "-" + day);
    assert rest == m + ("-" + day);
    assert rest[2] == '-' && rest[3..] == day;
    DayFieldOfDigits(d.day);
  }

  // ---------------------------------------------------------------- deduplication

  /** No non-empty `faq_id` occurs twice. */
  predicate DistinctFaqIds(docs: seq<Doc>)
  {
    forall i, j | 0 <= i < j < |docs| && Truthy(docs[i].meta.faqId) :: docs[i].meta.faqId != docs[j].meta.faqId
  }

  /** The documents without a `faq_id`, in order. */
  function Untagged(docs: seq<Doc>): seq<Doc>
  {
    if docs == [] then []
    else
      var init := docs[..|docs| - 1];
      var doc := docs[|docs| - 1];
      if Truthy(doc.meta.faqId) then Untagged(init) else Untagged(init) + [doc]
  }

  /** `docs[i]` is the first document with its `faq_id`, or has none. */
  predicate FirstOfItsFaq(docs: seq<Doc>, i: nat)
    requires i < |docs|
  {
    Truthy(docs[i].meta.faqId) ==> forall j | 0 <= j < i :: docs[j].meta.faqId != docs[i].meta.faqId
  }

  lemma {:induction false} UniqueSubseq(docs: seq<Doc>)
    ensures IsSubseq(Unique(docs), docs)
    decreases |docs|
  {
    if docs == [] {
    } else {
      var init := docs[..|docs| - 1];
      var doc := docs[|docs| - 1];
      assert docs == init + [doc];
      UniqueSubseq(init);
      if Truthy(doc.meta.faqId) && doc.meta.faqId.value in FaqIds(init) {
        SubseqAppendRight(Unique(init), init, doc);
      } else {
        SubseqAppendBoth(Unique(init), init, doc);
      }
    }
  }

  lemma {:induction false} UniqueFaqIds(docs: seq<Doc>)
    ensures FaqIds(Unique(docs)) == FaqIds(docs)
    decreases |docs|
  {
    if docs != [] {
      var init := docs[..|docs| - 1];
      var doc := docs[|docs| - 1];
      assert docs == init + [doc];
      UniqueFaqIds(init);
      FaqIdsAppend(init, doc);
      FaqIdsAppend(Unique(init), doc);
    }
  }

  lemma {:induction false} UniqueDistinct(docs: seq<Doc>)
    ensures DistinctFaqIds(Unique(docs))
    decreases |docs|
  {
    if docs != [] {
      var init := docs[..|docs| - 1];
      var doc := docs[|docs| - 1];
      var u := Unique(init);
      UniqueDistinct(init);
      UniqueFaqIds(init);
      if !(Truthy(doc.meta.faqId) && doc.meta.faqId.value in FaqIds(init)) {
        var r := u + [doc];
        forall i, j | 0 <= i < j < |r| && Truthy(r[i].meta.faqId) ensures r[i].meta.faqId != r[j].meta.faqId {
          if j == |u| {
            assert r[i] == u[i] && u[i] in u;
            assert u[i].meta.faqId.value in FaqIds(u);
          } else {
            assert r[i] == u[i] && r[j] == u[j];
          }
        }
      }
    }
  }

  lemma UntaggedAppend(docs: seq<Doc>, doc: Doc)
    ensures Untagged(docs + [doc]) == if Truthy(doc.meta.faqId) then Untagged(docs) else Untagged(docs) + [doc]
  {
    assert (docs + [doc])[..|docs|] == docs;
  }

  /** Every document without a `faq_id` survives, in order. */
  lemma {:induction false} UniqueKeepsUntagged(docs: seq<Doc>)
    ensures Untagged(Unique(docs)) == Untagged(docs)
    decreases |docs|
  {
    if docs != [] {
      var init := docs[..|docs| - 1];
      var doc := docs[|docs| - 1];
      UniqueKeepsUntagged(init);
      if !(Truthy(doc.meta.faqId) && doc.meta.faqId.value in FaqIds(init)) {
        UntaggedAppend(Unique(init), doc);
      }
    }
  }

  /** The first document of each FAQ, and every document without a `faq_id`, is kept. */
  lemma {:induction false} UniqueKeepsFirst(docs: seq<Doc>, i: nat)
    requires i < |docs| && FirstOfItsFaq(docs, i)
    ensures docs[i] in Unique(docs)
    decreases |docs|
  {
    var init := docs[..|docs| - 1];
    var doc := docs[|docs| - 1];
    if i < |docs| - 1 {
      assert init[i] == docs[i];
      assert FirstOfItsFaq(init, i);
      UniqueKeepsFirst(init, i);
    } else if Truthy(doc.meta.faqId) {
      forall d | d in init && Truthy(d.meta.faqId) ensures d.meta.faqId.value != doc.meta.faqId.value {
        var j :| 0 <= j < |init| && init[j] == d;
        assert docs[j] == d;
      }
      assert doc.meta.faqId.value !in FaqIds(init);
    }
  }

  /** A subsequence of a sorted sequence is sorted. */
  lemma {:induction false} SubseqSorted(a: seq<Doc>, b: seq<Doc>, key: Doc -> real)
    requires IsSubseq(a, b) && SortedDesc(b, key)
    ensures SortedDesc(a, key)
    decreases |b|
  {
    if a != [] && b != [] {
      assert SortedDesc(b[1..], key);
      if a[0] == b[0] {
        SubseqSorted(a[1..], b[1..], key);
        SubseqElements(a[1..], b[1..]);
        forall y | y in a[1..] ensures key(a[0]) >= key(y) {
          var k :| 0 <= k < |b[1..]| && b[1..][k] == y;
          assert b[k + 1] == y;
        }
        ConsSorted(a[0], a[1..], key);
        assert a == [a[0]] + a[1..];
      } else {
        SubseqSorted(a, b[1..], key);
      }
    }
  }

  /**
   * `_resolve_conflicts` returns documents of the input, newest first, with one document per
   * non-empty `faq_id` and every FAQ of the input still represented by its newest document.
   */
  lemma ResolvedProperties(docs: seq<Doc>)
    ensures SortedDesc(Resolved(docs), UpdatedAtKey)
    ensures DistinctFaqIds(Resolved(docs))
    ensures forall d | d in Resolved(docs) :: d in docs
    ensures FaqIds(Resolved(docs)) == FaqIds(docs)
    ensures forall d, e | d in Resolved(docs) && e in docs && Truthy(e.meta.faqId) && e.meta.faqId == d.meta.faqId ::
      UpdatedAtKey(e) <= UpdatedAtKey(d)
  {
    var sorted := SortDesc(docs, UpdatedAtKey);
    var r := Unique(sorted);
    assert Resolved(docs) == r;
    UniqueSubseq(sorted);
    SubseqSorted(r, sorted, UpdatedAtKey);
    UniqueDistinct(sorted);
    SubseqElements(r, sorted);
    SameElements(sorted, docs);
    UniqueFaqIds(sorted);
    FaqIdsOfSameElements(sorted, docs);
    forall d, e | d in r && e in docs && Truthy(e.meta.faqId) && e.meta.faqId == d.meta.faqId
      ensures UpdatedAtKey(e) <= UpdatedAtKey(d)
    {
      KeptIsNewest(sorted, d, e);
    }
  }

  /** The first index, at or before `j`, of a document carrying `docs[j]`'s `faq_id`. */
  lemma {:induction false} FirstWithFaqId(docs: seq<Doc>, j: nat) returns (i: nat)
    requires j < |docs|
    ensures i <= j && docs[i].meta.faqId == docs[j].meta.faqId && FirstOfItsFaq(docs, i)
    decreases j
  {
    if k :| 0 <= k < j && docs[k].meta.faqId == docs[j].meta.faqId {
      i := FirstWithFaqId(docs, k);
    } else {
      i := j;
    }
  }

  /** In a newest-first sequence, the document `Unique` keeps for a FAQ is no older than any other. */
  lemma KeptIsNewest(sorted: seq<Doc>, d: Doc, e: Doc)
    requires SortedDesc(sorted, UpdatedAtKey) && DistinctFaqIds(Unique(sorted))
    requires d in Unique(sorted) && e in sorted && Truthy(e.meta.faqId) && e.meta.faqId == d.meta.faqId
    ensures UpdatedAtKey(e) <= UpdatedAtKey(d)
  {
    var r := Unique(sorted);
    var j :| 0 <= j < |sorted| && sorted[j] == e;
    var i := FirstWithFaqId(sorted, j);
    UniqueKeepsFirst(sorted, i);
    var a :| 0 <= a < |r| && r[a] == d;
    var b :| 0 <= b < |r| && r[b] == sorted[i];
    assert a == b;
  }

  /** Sequences that are permutations of each other hold the same elements. */
  lemma SameElements(a: seq<Doc>, b: seq<Doc>)
    requires multiset(a) == multiset(b)
    ensures forall d :: d in a <==> d in b
  {
    forall d ensures d in a <==> d in b {
      assert d in a <==> d in multiset(a);
      assert d in b <==> d in multiset(b);
    }
  }

  lemma FaqIdsOfSameElements(a: seq<Doc>, b: seq<Doc>)
    requires forall d :: d in a <==> d in b
    ensures FaqIds(a) == FaqIds(b)
  {
  }

  // ---------------------------------------------------------------- relaxed merge

  /** The documents added by the merge are exactly the relaxed ones whose `chunk_id` is new. */
  lemma {:induction false} NewDocsMembers(relaxed: seq<Doc>, ids: set<Option<string>>)
    ensures forall d :: d in NewDocs(relaxed, ids) <==> d in relaxed && d.meta.chunkId !in ids
    ensures IsSubseq(NewDocs(relaxed, ids), relaxed)
    decreases |relaxed|
  {
    if relaxed == [] {
    } else {
      var init := relaxed[..|relaxed| - 1];
      var doc := relaxed[|relaxed| - 1];
      assert relaxed == init + [doc];
      NewDocsMembers(init, ids);
      if doc.meta.chunkId in ids {
        SubseqAppendRight(NewDocs(init, ids), init, doc);
      } else {
        SubseqAppendBoth(NewDocs(init, ids), init, doc);
      }
    }
  }

  /**
   * The merge keeps the first results unchanged in front; what follows are relaxed results
   * whose `chunk_id` none of the first results had, and every such relaxed result is there.
   */
  lemma MergedProperties(docs: seq<Doc>, relaxed: seq<Doc>)
    ensures Merged(docs, relaxed)[..|docs|] == docs
    ensures forall k | |docs| <= k < |Merged(docs, relaxed)| ::
              Merged(docs, relaxed)[k] in relaxed && Merged(docs, relaxed)[k].meta.chunkId !in ChunkIds(docs)
    ensures forall d | d in relaxed && d.meta.chunkId !in ChunkIds(docs) :: d in Merged(docs, relaxed)
  {
    var added := NewDocs(relaxed, ChunkIds(docs));
    NewDocsMembers(relaxed, ChunkIds(docs));
    var m := docs + added;
    forall k | |docs| <= k < |m| ensures m[k] in relaxed && m[k].meta.chunkId !in ChunkIds(docs) {
      assert m[k] == added[k - |docs|];
    }
    forall d | d in relaxed && d.meta.chunkId !in ChunkIds(docs) ensures d in m {
      assert d in added;
    }
  }

  // ---------------------------------------------------------------- pipeline

  /** The relaxed search drops only the category filter. */
  lemma RelaxedDropsCategory(channel: Option<string>, intent: string)
    ensures RelaxedFilters(channel) == BuildFilters(channel, intent).(category := None)
  {
  }

  /**
   * The evidence is newest first with one document per FAQ; when the first search already gave
   * three or more documents the relaxed search plays no part.
   */
  lemma EvidenceProperties(index: LoadedIndex, vectorSearch: VectorSearch, bm25: Bm25Scorer,
                           query: string, channel: Option<string>, intent: string)
    ensures SortedDesc(Evidence(index, vectorSearch, bm25, query, channel, intent), UpdatedAtKey)
    ensures DistinctFaqIds(Evidence(index, vectorSearch, bm25, query, channel, intent))
    ensures var docs := Retrieved(index.chunks, index.corpus, index.hasBm25Index, query, SearchTopK,
                                  BuildFilters(channel, intent), vectorSearch, bm25);
      |docs| >= MinResults ==> Evidence(index, vectorSearch, bm25, query, channel, intent) == Resolved(docs)
  {
    var docs := Retrieved(index.chunks, index.corpus, index.hasBm25Index, query, SearchTopK,
                          BuildFilters(channel, intent), vectorSearch, bm25);
    var relaxed := Retrieved(index.chunks, index.corpus, index.hasBm25Index, query, SearchTopK,
                             RelaxedFilters(channel), vectorSearch, bm25);
    ResolvedProperties(if |docs| < MinResults then Merged(docs, relaxed) else docs);
  }

  /**
   * Steps 8 and 9: the warnings, when there are any, become the safety text; an answer without
   * citations ends with low confidence and the no-match text; nothing else changes.
   */
  lemma FinishProperties(formatted: Answer, warnings: seq<string>)
    ensures var r := Calibrated(WithSafety(formatted, warnings));
      && r.citations == formatted.citations && r.steps == formatted.steps && r.followups == formatted.followups
      && (warnings != [] ==> r.safety == Some(SafetyMessage(warnings)))
      && (warnings == [] ==> r.safety == formatted.safety)
      && (r.citations == [] ==>
            r.confidence == Some(ConfidenceLow) && r.answer.Some? && StartsWith(r.answer.value, NoMatchPrefix))
      && (r.citations != [] ==> r.confidence == formatted.confidence && r.answer == formatted.answer)
  {
    assert NoMatchAnswer[..|NoMatchPrefix|] == NoMatchPrefix;
  }

  /** Step 9 never changes a formatted answer: the formatting already calibrated it. */
  lemma CalibrationRedundant(answerData: AnswerData, docs: seq<Doc>, warnings: seq<string>)
    ensures Calibrated(WithSafety(Formatted(answerData, docs), warnings)) == WithSafety(Formatted(answerData, docs), warnings)
  {
    FormattedConfidence(answerData, docs);
  }
}
