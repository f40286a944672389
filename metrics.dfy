/**
 * Offline evaluation metrics: Recall@K over FAQ ids, keyword faithfulness of an answer to
 * its retrieved snippets, the hallucination heuristic, the per-question metrics record and
 * the aggregate over a run. Python floats are modelled as exact reals.
 */
module Metrics {
  import opened Common
  import opened Text
  import opened Schemas
  import Tools

  /** The `k` of Recall@K that `calculate_metrics` uses. */
  const RecallK: nat := 5

  /** Below this share of matched answer words an answer with citations counts as a hallucination. */
  const HallucinationThreshold: real := 0.3

  /** The phrases that mark an honest "nothing found" answer. */
  const NotFoundMarker: string := "찾지 못했"
  const NotFoundSentence: string := NotFoundMarker + "습니다"

  function ToSet<T>(s: seq<T>): set<T>
  {
    set x | x in s
  }

  /** `set(text.lower().split())` */
  function WordSet(text: string): set<string>
  {
    ToSet(SplitWords(Lower(text)))
  }

  /** The words of all snippets: `set(" ".join(snippets).lower().split())`. */
  function SnippetWords(snippets: seq<string>): set<string>
  {
    WordSet(Join(" ", snippets))
  }

  lemma WordSetOfEmpty()
    ensures WordSet([]) == {}
  {
    assert Lower([]) == [];
    assert SplitWords([]) == [];
  }

  /** The share `part / whole` of a part of a positive whole. */
  lemma RatioBounds(part: nat, whole: nat)
    requires part <= whole && whole > 0
    ensures var q := (part as real) / (whole as real);
      && 0.0 <= q <= 1.0 && (q == 1.0 <==> part == whole) && (q == 0.0 <==> part == 0)
  {
    var q := (part as real) / (whole as real);
    assert q * (whole as real) == part as real;
  }

  /** One minus the share of the rest is the share of the part. */
  lemma ComplementRatio(rest: nat, part: nat, whole: nat)
    requires rest + part == whole && whole > 0
    ensures 1.0 - (rest as real) / (whole as real) == (part as real) / (whole as real)
  {
    var w, r, p := whole as real, rest as real, part as real;
    assert r + p == w;
    var s, q := r / w, p / w;
    assert s * w == r;
    assert q * w == p;
    var d := 1.0 - s;
    assert d * w == w - s * w;
    assert (d - q) * w == 0.0;
    ZeroProduct(d - q, w);
  }

  /** A product with a positive factor is zero only when the other factor is. */
  lemma ZeroProduct(x: real, w: real)
    requires w > 0.0 && x * w == 0.0
    ensures x == 0.0
  {
  }

  // ---------------------------------------------------------------- recall

  /** `calculate_recall_at_k` */
  function RecallAtK(retrieved: seq<string>, groundTruth: seq<string>, k: nat): real
  {
    if groundTruth == [] then 0.0
    else
      var topK := ToSet(Prefix(retrieved, k));
      var truth := ToSet(groundTruth);
      if |truth| == 0 then 0.0 else (|topK * truth| as real) / (|truth| as real)
  }

  /**
   * Recall@K lies in [0, 1]; it is 1 exactly when every ground-truth id is among the first
   * `k` retrieved ids, and 0 exactly when none is (or there is no ground truth).
   */
  lemma RecallAtKSpec(retrieved: seq<string>, groundTruth: seq<string>, k: nat)
    ensures var r := RecallAtK(retrieved, groundTruth, k);
      && 0.0 <= r <= 1.0
      && (r == 1.0 <==> groundTruth != [] && forall id | id in groundTruth :: id in Prefix(retrieved, k))
      && (r == 0.0 <==> forall id | id in groundTruth :: id !in Prefix(retrieved, k))
  {
    if groundTruth != [] {
      var topK := ToSet(Prefix(retrieved, k));
      var truth := ToSet(groundTruth);
      assert groundTruth[0] in truth;
      var hit := topK * truth;
      SubsetCardinality(hit, truth);
      RatioBounds(|hit|, |truth|);
      if hit == truth {
        assert forall id | id in groundTruth :: id in Prefix(retrieved, k) by {
          forall id | id in groundTruth ensures id in Prefix(retrieved, k) {
            assert id in truth;
          }
        }
      } else {
        ProperSubsetCardinality(hit, truth);
        var x :| x in truth && x !in hit;
        assert x in groundTruth && x !in Prefix(retrieved, k);
      }
      if hit == {} {
        assert forall id | id in groundTruth :: id !in Prefix(retrieved, k) by {
          forall id | id in groundTruth ensures id !in Prefix(retrieved, k) {
            assert id in truth && id !in hit;
          }
        }
      } else {
        var x :| x in hit;
        assert x in groundTruth && x in Prefix(retrieved, k);
      }
    }
  }

  // ---------------------------------------------------------------- faithfulness

  /** `calculate_faithfulness`: the share of the answer's words found in the snippets. */
  function Faithfulness(answer: string, snippets: seq<string>): real
  {
    if answer == [] || snippets == [] then 0.0
    else
      var answerWords := WordSet(answer);
      var total := |answerWords|;
      if total == 0 then 0.0
      else (|answerWords * SnippetWords(snippets)| as real) / (total as real)
  }

  /**
   * Faithfulness lies in [0, 1]; it is 1 exactly when the answer has words and all of them
   * occur in the snippets, and 0 exactly when no answer word does (or either side is empty).
   */
  lemma FaithfulnessSpec(answer: string, snippets: seq<string>)
    ensures var f := Faithfulness(answer, snippets);
      && 0.0 <= f <= 1.0
      && (f == 1.0 <==> answer != [] && snippets != [] && WordSet(answer) != {}
                        && WordSet(answer) <= SnippetWords(snippets))
      && (f == 0.0 <==> answer == [] || snippets == [] || WordSet(answer) * SnippetWords(snippets) == {})
  {
    if answer != [] && snippets != [] {
      var aw := WordSet(answer);
      var sw := SnippetWords(snippets);
      if aw != {} {
        var hit := aw * sw;
        SubsetCardinality(hit, aw);
        RatioBounds(|hit|, |aw|);
        if hit != aw {
          ProperSubsetCardinality(hit, aw);
        }
      }
    }
  }

  // ---------------------------------------------------------------- hallucination

  /** `detect_hallucination` */
  function Hallucination(answer: string, snippets: seq<string>, citations: seq<Citation>): bool
  {
    if answer == [] then false
    else if citations == [] then !(Contains(answer, NotFoundSentence) || Contains(answer, NotFoundMarker))
    else
      var answerWords := WordSet(answer);
      var unmatched := answerWords - SnippetWords(snippets);
      var matchRatio := 1.0 - (if |answerWords| > 0 then (|unmatched| as real) / (|answerWords| as real) else 0.0);
      matchRatio < HallucinationThreshold
  }

  /** An empty answer is never a hallucination. */
  lemma HallucinationOfEmpty(snippets: seq<string>, citations: seq<Citation>)
    ensures !Hallucination([], snippets, citations)
  {
  }

  /** Without citations an answer is a hallucination exactly when it does not say "찾지 못했". */
  lemma HallucinationWithoutCitations(answer: string, snippets: seq<string>)
    requires answer != []
    ensures Hallucination(answer, snippets, []) <==> !Contains(answer, NotFoundMarker)
  {
    if Contains(answer, NotFoundSentence) {
      ContainsPrefixOfNeedle(answer, NotFoundMarker, "습니다");
    }
  }

  /**
   * With citations, the hallucination test is the faithfulness score below 0.3: the match
   * ratio `1 - |unmatched| / |words|` is the share of matched words.
   */
  lemma HallucinationIsLowFaithfulness(answer: string, snippets: seq<string>, citations: seq<Citation>)
    requires answer != [] && citations != []
    ensures Hallucination(answer, snippets, citations) <==>
              (WordSet(answer) != {} && Faithfulness(answer, snippets) < HallucinationThreshold)
  {
    var aw := WordSet(answer);
    var sw := SnippetWords(snippets);
    if snippets == [] {
      assert Join(" ", snippets) == [];
      WordSetOfEmpty();
      assert sw == {};
    }
    if aw != {} {
      var unmatched := aw - sw;
      var hit := aw * sw;
      assert unmatched * hit == {};
      assert unmatched + hit == aw;
      assert |unmatched| + |hit| == |aw|;
      ComplementRatio(|unmatched|, |hit|, |aw|);
    }
  }

  /** The canned no-match prefix holds "찾지 못했" at offset 8 (after "관련 FAQ를 "). */
  lemma NoMatchPrefixMarkerAt()
    ensures 8 + |NotFoundMarker| <= |NoMatchPrefix| && NoMatchPrefix[8..8 + |NotFoundMarker|] == NotFoundMarker
  {
  }

  /** The canned no-match prefix says "찾지 못했". */
  lemma NoMatchPrefixSaysNotFound()
    ensures Contains(NoMatchPrefix, NotFoundMarker)
  {
    NoMatchPrefixMarkerAt();
    ContainsAt(NoMatchPrefix, NotFoundMarker, 8);
  }

  /** A text starting with `prefix` contains what `prefix` holds at offset `i`. */
  lemma StartsWithContains(text: string, prefix: string, needle: string, i: nat)
    requires StartsWith(text, prefix)
    requires i + |needle| <= |prefix| && prefix[i..i + |needle|] == needle
    ensures Contains(text, needle)
  {
    assert text[..|prefix|] == prefix;
    assert text[i..i + |needle|] == prefix[i..i + |needle|];
    ContainsAt(text, needle, i);
  }

  /** An answer opening with the canned no-match text and citing nothing is not a hallucination. */
  lemma NoMatchAnswerIsHonest(answer: string, snippets: seq<string>)
    requires StartsWith(answer, NoMatchPrefix)
    ensures !Hallucination(answer, snippets, [])
  {
    NoMatchPrefixMarkerAt();
    StartsWithContains(answer, NoMatchPrefix, NotFoundMarker, 8);
    HallucinationWithoutCitations(answer, snippets);
  }

  /** A formatted answer without citations is never judged a hallucination. */
  lemma FormattedWithoutCitationsIsHonest(answerData: AnswerData, docs: seq<Doc>, snippets: seq<string>)
    ensures var a := Tools.Formatted(answerData, docs);
      a.citations == [] ==> a.answer.Some? && !Hallucination(a.answer.value, snippets, a.citations)
  {
    Tools.FormattedConfidence(answerData, docs);
    var a := Tools.Formatted(answerData, docs);
    if a.citations == [] {
      NoMatchAnswerIsHonest(a.answer.value, snippets);
    }
  }

  // ---------------------------------------------------------------- calculate_metrics

  /** The ground-truth record of one question: its `faq_ids` and (unused) `snippet`. */
  datatype GroundTruth = GroundTruth(faqIds: Option<seq<string>>, snippet: Option<string>)

  /** The metrics dict of one question; `tokens` is present only when given. */
  datatype EvalMetrics = EvalMetrics(
    recallAt5: real,
    faithfulness: real,
    hallucination: bool,
    latency: real,
    numRetrieved: nat,
    numCitations: nat,
    hasCitations: bool,
    tokens: Option<int>)

  /** The truthy `faq_id`s of the retrieved documents, in order. */
  function RetrievedFaqIds(docs: seq<Doc>): (r: seq<string>)
    ensures forall k | 0 <= k < |r| :: r[k] != []
    ensures |r| <= |docs|
  {
    if docs == [] then []
    else (if Truthy(docs[0].meta.faqId) then [docs[0].meta.faqId.value] else []) + RetrievedFaqIds(docs[1..])
  }

  /** An id is retrieved exactly when some document carries it as a non-empty `faq_id`. */
  lemma {:induction false} RetrievedFaqIdsMembers(docs: seq<Doc>, id: string)
    ensures id in RetrievedFaqIds(docs) <==> id != [] && exists i | 0 <= i < |docs| :: docs[i].meta.faqId == Some(id)
    decreases |docs|
  {
    if docs != [] {
      RetrievedFaqIdsMembers(docs[1..], id);
      if exists i | 0 <= i < |docs| :: docs[i].meta.faqId == Some(id) {
        var i :| 0 <= i < |docs| && docs[i].meta.faqId == Some(id);
        if i > 0 {
          assert docs[1..][i - 1].meta.faqId == Some(id);
        }
      }
      if exists i | 0 <= i < |docs[1..]| :: docs[1..][i].meta.faqId == Some(id) {
        var i :| 0 <= i < |docs[1..]| && docs[1..][i].meta.faqId == Some(id);
        assert docs[i + 1].meta.faqId == Some(id);
      }
    }
  }

  /** The snippet texts of the retrieved documents (`""` where a document has none). */
  function Snippets(docs: seq<Doc>): (r: seq<string>)
    ensures |r| == |docs|
    ensures forall i | 0 <= i < |docs| :: r[i] == docs[i].meta.text.GetOr("")
  {
    seq(|docs|, i requires 0 <= i < |docs| => docs[i].meta.text.GetOr(""))
  }

  /** `calculate_metrics`; the question and the ground-truth snippet do not affect the result. */
  function CalculateMetrics(question: string, answer: string, docs: seq<Doc>, citations: seq<Citation>,
                            groundTruth: GroundTruth, latency: real, tokens: Option<int>): EvalMetrics
  {
    var snippets := Snippets(docs);
    EvalMetrics(
      RecallAtK(RetrievedFaqIds(docs), groundTruth.faqIds.GetOr([]), RecallK),
      Faithfulness(answer, snippets),
      Hallucination(answer, snippets, citations),
      latency,
      |docs|,
      |citations|,
      |citations| > 0,
      tokens)
  }

  /**
   * The scores are in [0, 1]; recall is 1 exactly when every ground-truth id is among the
   * first five non-empty retrieved ids; the counts, the latency and the tokens are passed
   * through; an answer with an empty text is never a hallucination.
   */
  lemma CalculateMetricsSpec(question: string, answer: string, docs: seq<Doc>, citations: seq<Citation>,
                             groundTruth: GroundTruth, latency: real, tokens: Option<int>)
    ensures var m := CalculateMetrics(question, answer, docs, citations, groundTruth, latency, tokens);
      && 0.0 <= m.recallAt5 <= 1.0
      && 0.0 <= m.faithfulness <= 1.0
      && (m.recallAt5 == 1.0 <==>
            (groundTruth.faqIds.GetOr([]) != [] &&
             forall id | id in groundTruth.faqIds.GetOr([]) :: id in Prefix(RetrievedFaqIds(docs), RecallK)))
      && (answer == [] ==> !m.hallucination && m.faithfulness == 0.0)
      && m.numRetrieved == |docs| && m.numCitations == |citations|
      && (m.hasCitations <==> citations != [])
      && m.latency == latency && m.tokens == tokens
  {
    RecallAtKSpec(RetrievedFaqIds(docs), groundTruth.faqIds.GetOr([]), RecallK);
    FaithfulnessSpec(answer, Snippets(docs));
  }

  // ---------------------------------------------------------------- aggregate_metrics

  /** The aggregate dict of a non-empty run. */
  datatype Aggregate = Aggregate(
    totalQuestions: nat,
    avgRecallAt5: real,
    avgFaithfulness: real,
    hallucinationRate: real,
    avgLatency: real,
    avgCitations: real,
    citationRate: real,
    totalTokens: Option<int>)

  function RecallOf(m: EvalMetrics): real { m.recallAt5 }
  function FaithfulnessOf(m: EvalMetrics): real { m.faithfulness }
  function LatencyOf(m: EvalMetrics): real { m.latency }
  function CitationsOf(m: EvalMetrics): real { m.numCitations as real }
  predicate Hallucinated(m: EvalMetrics) { m.hallucination }
  predicate Cited(m: EvalMetrics) { m.hasCitations }

  /** `sum(f(m) for m in ms)` */
  function Sum(ms: seq<EvalMetrics>, f: EvalMetrics -> real): real
  {
    if ms == [] then 0.0 else Sum(ms[..|ms| - 1], f) + f(ms[|ms| - 1])
  }

  /** `sum(1 for m in ms if p(m))` */
  function CountIf(ms: seq<EvalMetrics>, p: EvalMetrics -> bool): (r: nat)
    ensures r <= |ms|
  {
    if ms == [] then 0 else CountIf(ms[..|ms| - 1], p) + (if p(ms[|ms| - 1]) then 1 else 0)
  }

  /** `sum(m["tokens"] for m in ms if "tokens" in m)` */
  function TotalTokens(ms: seq<EvalMetrics>): int
  {
    if ms == [] then 0 else TotalTokens(ms[..|ms| - 1]) + ms[|ms| - 1].tokens.GetOr(0)
  }

  /** `aggregate_metrics`; `None` stands for the empty dict of an empty run. */
  function AggregateMetrics(ms: seq<EvalMetrics>): Option<Aggregate>
  {
    if ms == [] then None
    else
      var n := |ms| as real;
      var total := TotalTokens(ms);
      Some(Aggregate(
        |ms|,
        Sum(ms, RecallOf) / n,
        Sum(ms, FaithfulnessOf) / n,
        (CountIf(ms, Hallucinated) as real) / n,
        Sum(ms, LatencyOf) / n,
        Sum(ms, CitationsOf) / n,
        (CountIf(ms, Cited) as real) / n,
        if total > 0 then Some(total) else None))
  }

  /** A sum of values that all lie in [lo, hi] lies in [n * lo, n * hi]. */
  lemma {:induction false} SumBounds(ms: seq<EvalMetrics>, f: EvalMetrics -> real, lo: real, hi: real)
    requires forall i | 0 <= i < |ms| :: lo <= f(ms[i]) <= hi
    ensures (|ms| as real) * lo <= Sum(ms, f) <= (|ms| as real) * hi
    decreases |ms|
  {
    if ms != [] {
      var init := ms[..|ms| - 1];
      assert forall i | 0 <= i < |init| :: init[i] == ms[i];
      SumBounds(init, f, lo, hi);
    }
  }

  /** A count is the whole run exactly when every record qualifies. */
  lemma {:induction false} CountIfAll(ms: seq<EvalMetrics>, p: EvalMetrics -> bool)
    ensures CountIf(ms, p) == |ms| <==> forall i | 0 <= i < |ms| :: p(ms[i])
    decreases |ms|
  {
    if ms != [] {
      var init := ms[..|ms| - 1];
      assert forall i | 0 <= i < |init| :: init[i] == ms[i];
      CountIfAll(init, p);
      if CountIf(ms, p) == |ms| {
        assert forall i | 0 <= i < |ms| :: p(ms[i]) by {
          forall i | 0 <= i < |ms| ensures p(ms[i]) {
            if i < |init| {
              assert init[i] == ms[i];
            }
          }
        }
      }
    }
  }

  /** A count is zero exactly when no record qualifies. */
  lemma {:induction false} CountIfNone(ms: seq<EvalMetrics>, p: EvalMetrics -> bool)
    ensures CountIf(ms, p) == 0 <==> forall i | 0 <= i < |ms| :: !p(ms[i])
    decreases |ms|
  {
    if ms != [] {
      var init := ms[..|ms| - 1];
      assert forall i | 0 <= i < |init| :: init[i] == ms[i];
      CountIfNone(init, p);
      if CountIf(ms, p) == 0 {
        assert forall i | 0 <= i < |ms| :: !p(ms[i]) by {
          forall i | 0 <= i < |ms| ensures !p(ms[i]) {
            if i < |init| {
              assert init[i] == ms[i];
            }
          }
        }
      }
    }
  }

  /**
   * The aggregate of a run: absent exactly for an empty run; otherwise it counts the
   * questions, its two rates lie in [0, 1] (the hallucination rate is 0 exactly when no
   * answer hallucinated, the citation rate is 1 exactly when every answer cited), and the
   * token total is reported only when positive.
   */
  lemma AggregateMetricsSpec(ms: seq<EvalMetrics>)
    ensures var r := AggregateMetrics(ms);
      && (r.None? <==> ms == [])
      && (r.Some? ==>
            && r.value.totalQuestions == |ms|
            && 0.0 <= r.value.hallucinationRate <= 1.0
            && 0.0 <= r.value.citationRate <= 1.0
            && (r.value.hallucinationRate == 0.0 <==> forall i | 0 <= i < |ms| :: !ms[i].hallucination)
            && (r.value.citationRate == 1.0 <==> forall i | 0 <= i < |ms| :: ms[i].hasCitations)
            && (r.value.totalTokens.None? <==> TotalTokens(ms) <= 0)
            && (r.value.totalTokens.Some? ==> r.value.totalTokens.value == TotalTokens(ms)))
  {
    if ms != [] {
      CountIfNone(ms, Hallucinated);
      CountIfAll(ms, Cited);
      RatioBounds(CountIf(ms, Hallucinated), |ms|);
      RatioBounds(CountIf(ms, Cited), |ms|);
    }
  }

  /** Averaging scores that lie in [0, 1] (as `calculate_metrics` produces them) gives scores in [0, 1]. */
  lemma AggregateScoresBounded(ms: seq<EvalMetrics>)
    requires ms != []
    requires forall i | 0 <= i < |ms| :: 0.0 <= ms[i].recallAt5 <= 1.0 && 0.0 <= ms[i].faithfulness <= 1.0
    ensures var r := AggregateMetrics(ms).value;
      0.0 <= r.avgRecallAt5 <= 1.0 && 0.0 <= r.avgFaithfulness <= 1.0 && 0.0 <= r.avgCitations
  {
    var n := |ms| as real;
    SumBounds(ms, RecallOf, 0.0, 1.0);
    SumBounds(ms, FaithfulnessOf, 0.0, 1.0);
    SumNonNegative(ms, CitationsOf);
    MeanBounds(Sum(ms, RecallOf), n);
    MeanBounds(Sum(ms, FaithfulnessOf), n);
    MeanNonNegative(Sum(ms, CitationsOf), n);
  }

  /** The mean of a total between 0 and the count lies in [0, 1]. */
  lemma MeanBounds(total: real, n: real)
    requires n > 0.0 && 0.0 <= total <= n * 1.0
    ensures 0.0 <= total / n <= 1.0
  {
    var q := total / n;
    assert q * n == total;
  }

  lemma MeanNonNegative(total: real, n: real)
    requires n > 0.0 && 0.0 <= total
    ensures 0.0 <= total / n
  {
  }

  /** A sum of non-negative values is non-negative. */
  lemma {:induction false} SumNonNegative(ms: seq<EvalMetrics>, f: EvalMetrics -> real)
    requires forall i | 0 <= i < |ms| :: 0.0 <= f(ms[i])
    ensures 0.0 <= Sum(ms, f)
    decreases |ms|
  {
    if ms != [] {
      var init := ms[..|ms| - 1];
      assert forall i | 0 <= i < |init| :: init[i] == ms[i];
      SumNonNegative(init, f);
    }
  }

  /** The aggregate of one record repeats that record. */
  lemma AggregateOfOne(m: EvalMetrics)
    ensures AggregateMetrics([m]) == Some(Aggregate(
      1, m.recallAt5, m.faithfulness, if m.hallucination then 1.0 else 0.0, m.latency,
      m.numCitations as real, if m.hasCitations then 1.0 else 0.0,
      if m.tokens.GetOr(0) > 0 then m.tokens else None))
  {
    assert [m][..0] == [];
    assert Sum([m], RecallOf) == m.recallAt5;
    assert Sum([m], FaithfulnessOf) == m.faithfulness;
    assert Sum([m], LatencyOf) == m.latency;
    assert Sum([m], CitationsOf) == m.numCitations as real;
    assert CountIf([m], Hallucinated) == if m.hallucination then 1 else 0;
    assert CountIf([m], Cited) == if m.hasCitations then 1 else 0;
    assert TotalTokens([m]) == m.tokens.GetOr(0);
  }
}
