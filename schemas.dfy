/**
 * The records that flow through the pipeline. Python dicts become datatypes; a key that
 * may be missing becomes an `Option` field (`None` stands for "absent or null").
 */
module Schemas {
  import opened Common

  /** A string field of a JSON object or Python dict: missing, `null` (`None`), or a string. */
  datatype JsonText = Missing | Null | Text(text: string)
  {
    /** Python `d.get(key, default)`: the default for a missing key, `None` for `null`. */
    function Get(default: string): Option<string>
    {
      match this
      case Missing => Some(default)
      case Null => None
      case Text(s) => Some(s)
    }

    /** The field after `other[key] = d.get(key)`: a missing key is written as `null`. */
    function Written(): JsonText
    {
      if Missing? then Null else this
    }
  }

  /**
   * Chunk metadata: a vector-store metadata entry, a corpus chunk loaded for BM25,
   * or the record rebuilt for a lexical-only hit. The eight keys the core reads; the channel,
   * the only one whose default is not `None`, keeps `null` apart from a missing key.
   */
  datatype Meta = Meta(
    chunkId: Option<string>,
    faqId: Option<string>,
    title: Option<string>,
    text: Option<string>,
    category: Option<string>,
    url: Option<string>,
    updatedAt: Option<string>,
    channel: JsonText)

  /** A search result as `_format_result` builds it; `rerank` adds `rerank_score`. */
  datatype Doc = Doc(meta: Meta, score: real, snippet: Option<string>, rerankScore: Option<int>)

  /** The filter dict: each field is `Some(v)` when the key is present. */
  datatype Filters = Filters(category: Option<string>, channel: Option<string>, updatedAt: Option<string>)

  const NoFilters: Filters := Filters(None, None, None)

  /**
   * A citation (`Citation` in the API schema). `title` and `url` are `None` when the cited
   * search result holds `None` there.
   */
  datatype Citation = Citation(title: Option<string>, url: Option<string>, snippet: string, faqId: Option<string>)

  /** A JSON field the model may send either as one string or as a list of strings. */
  datatype TextOrList = Block(text: string) | Items(items: seq<string>)

  /**
   * The answer dict `generate_answer` returns: the decoded JSON object, or one of the
   * two fallback payloads. The text fields keep a JSON `null` apart from a missing key;
   * missing steps or follow-ups are `None`; missing, `null` or empty citations are `[]`.
   */
  datatype AnswerData = AnswerData(
    answer: JsonText,
    steps: Option<TextOrList>,
    citations: seq<Citation>,
    confidence: JsonText,
    followups: Option<TextOrList>,
    safety: JsonText)

  /**
   * The dict `format_answer` assembles. `answer`, `confidence` and `safety` are `None` where
   * the model sent JSON `null` for them.
   */
  datatype Answer = Answer(
    answer: Option<string>,
    steps: seq<string>,
    citations: seq<Citation>,
    followups: seq<string>,
    confidence: Option<string>,
    safety: Option<string>)

  /** Python truthiness of an optional string: present and non-empty. */
  predicate Truthy(o: Option<string>)
  {
    o.Some? && o.value != ""
  }

  const ChannelBoth: string := "both"
  const ConfidenceLow: string := "low"
  const ConfidenceMedium: string := "medium"

  /** The catch-all intent category. */
  const OtherCategory: string := "기타"

  /** The canned no-match answer and the prefix that is tested for. */
  const NoMatchPrefix: string := "관련 FAQ를 찾지 못했습니다"
  const NoMatchAnswer: string := NoMatchPrefix + ". 고객센터(1588-0000)로 문의하시거나 인터넷뱅킹 도움말을 참고하세요."

  /**
   * The metadata filter of the vector store and of the BM25 pass:
   * the category must equal the filter's, the channel (default "both") must be "both"
   * or the filter's channel; a `null` channel is neither.
   */
  predicate Admits(f: Filters, m: Meta)
  {
    (f.category.Some? ==> m.category == Some(f.category.value))
    && (f.channel.Some? ==>
          m.channel.Get(ChannelBoth) == Some(ChannelBoth) || m.channel.Get(ChannelBoth) == Some(f.channel.value))
  }

  /**
   * Absent filters admit every chunk; a missing channel or "both" always passes the channel
   * test, and a `null` channel never does.
   */
  lemma AdmitsDefaults(f: Filters, m: Meta)
    ensures f.category.None? && f.channel.None? ==> Admits(f, m)
    ensures f.category.None? && (m.channel.Missing? || m.channel == Text(ChannelBoth)) ==> Admits(f, m)
    ensures f.channel.Some? && m.channel.Null? ==> !Admits(f, m)
    ensures f.channel.Some? && m.channel.Text? ==>
      (Admits(f, m) <==> (f.category.None? || m.category == f.category)
                         && (m.channel.text == ChannelBoth || m.channel.text == f.channel.value))
  {
  }
}
