/**
 * The Gemini client's pre- and post-processing: the prompt assembly, the error wrapping of
 * `generate`, the first-word intent with its "기타" fallback, the query-rewrite fallback,
 * the code-fence stripping of an answer and the two fallback payloads. The model call and
 * the JSON decoder are given functions.
 */
module GeminiClient {
  import opened Common
  import opened Text
  import opened Schemas

  /** The `generation_config` dict. */
  datatype GenerationConfig = GenerationConfig(temperature: real, maxOutputTokens: Option<int>)

  /** `model.generate_content(prompt, generation_config=...).text`, or the message of what it raised. */
  type Model = (string, GenerationConfig) -> Result<string>

  /**
   * What `json.loads` makes of a cleaned response: it raises `JSONDecodeError`, or it gives
   * a JSON value that is not an object (a list, string, number, boolean or null, named by
   * its Python type), or it gives an object.
   */
  datatype Decoded = NotJson | NotObject(typeName: string) | Object(data: AnswerData)

  type JsonDecoder = string -> Decoded

  const PromptSeparator: string := "\n\n---\n\n"
  const GenerateErrorPrefix: string := "Gemini API 호출 실패: "
  const AnswerErrorPrefix: string := "답변 생성 중 오류가 발생했습니다: "
  /** `str(None)`, as an f-string writes a key that holds `None`. */
  const NoneText: string := "None"

  const ClassifySystemPrompt: string := @"당신은 인터넷뱅킹 FAQ 시스템의 의도 분류기입니다.
사용자의 질문을 다음 카테고리 중 하나로 분류하세요:
- 로그인: 로그인, 비밀번호, 계정 관련
- 이체: 이체, 송금, 계좌이체 관련
- 인증서: 공동인증서, 공인인증서, 인증서 발급/갱신
- 오류코드: 오류 메시지, 에러 코드 해석
- 보안: 보안카드, OTP, 보안 설정
- 수수료: 이체 수수료, 거래 수수료
- 한도: 이체 한도, 거래 한도
- 계좌등록: 계좌 등록, 자주쓰는계좌
- 기타: 위에 해당하지 않는 경우

카테고리명만 반환하세요. 예: 이체"

  const RewriteSystemPrompt: string := @"당신은 검색 쿼리 재작성 전문가입니다.
사용자의 질문을 FAQ 검색에 최적화된 형태로 재작성하세요.

주의사항:
- 동의어/유사어 추가 (예: ""공인인증서"" → ""공동인증서"")
- 약어 확장 (예: ""OTP"" → ""일회용 비밀번호"")
- 오타 수정
- 검색에 유용한 키워드 추가

원본 질문의 의미는 유지하되, 검색 성능을 높이도록 재작성하세요.
재작성된 질문만 반환하세요."

  const AnswerSystemPrompt: string := @"당신은 인터넷뱅킹 FAQ 전문 상담원입니다.

중요 규칙:
1. 반드시 제공된 FAQ 문서만을 근거로 답변하세요. 추측하지 마세요.
2. 답변은 짧고 명확하게, 단계형으로 작성하세요.
3. 반드시 출처(FAQ 제목, URL)를 명시하세요.
4. FAQ에 없는 내용은 ""관련 FAQ를 찾지 못했습니다""라고 답변하세요.
5. 근거가 부족하면 confidence를 low로 설정하세요.

출력 형식 (JSON):
{
  ""answer"": ""최종 답변 (3-5줄)"",
  ""steps"": [""1단계"", ""2단계"", ...],
  ""citations"": [{""title"": ""FAQ 제목"", ""url"": ""URL"", ""snippet"": ""발췌""}],
  ""confidence"": ""high/medium/low"",
  ""followups"": [""추가 질문1""]
}

반드시 유효한 JSON 형식으로만 응답하세요."

  /** The system instructions of the three requests; the client's own are `DefaultPrompts`. */
  datatype Prompts = Prompts(classify: string, rewrite: string, answer: string)

  const DefaultPrompts: Prompts := Prompts(ClassifySystemPrompt, RewriteSystemPrompt, AnswerSystemPrompt)

  // ---------------------------------------------------------------- generate

  /** The prompt sent to the model: the system instruction, when given, goes first. */
  function FullPrompt(prompt: string, systemInstruction: Option<string>): (r: string)
    ensures EndsWith(r, prompt)
    ensures Truthy(systemInstruction) ==>
      StartsWith(r, systemInstruction.value + PromptSeparator) && |r| == |systemInstruction.value| + 7 + |prompt|
    ensures !Truthy(systemInstruction) ==> r == prompt
  {
    if Truthy(systemInstruction) then systemInstruction.value + PromptSeparator + prompt else prompt
  }

  /** `max_output_tokens` is only set for a truthy `max_tokens`. */
  function Config(temperature: real, maxTokens: Option<int>): (c: GenerationConfig)
    ensures c.temperature == temperature
    ensures c.maxOutputTokens.Some? <==> maxTokens.Some? && maxTokens.value != 0
  {
    GenerationConfig(temperature, if maxTokens.Some? && maxTokens.value != 0 then maxTokens else None)
  }

  /** `generate`: the model's text, or the failure re-raised with its prefix. */
  function Generate(model: Model, prompt: string, systemInstruction: Option<string>, temperature: real,
                    maxTokens: Option<int>): (r: Result<string>)
  {
    match model(FullPrompt(prompt, systemInstruction), Config(temperature, maxTokens))
    case Ok(text) => Ok(text)
    case Err(e) => Err(GenerateErrorPrefix + e)
  }

  /** `generate` succeeds exactly when the model does, returning its text; a failure keeps its cause after the prefix. */
  lemma GenerateOutcome(model: Model, prompt: string, systemInstruction: Option<string>, temperature: real,
                        maxTokens: Option<int>)
    ensures var out := model(FullPrompt(prompt, systemInstruction), Config(temperature, maxTokens));
      var r := Generate(model, prompt, systemInstruction, temperature, maxTokens);
      && (r.Ok? <==> out.Ok?)
      && (r.Ok? ==> r.value == out.value)
      && (r.Err? ==> StartsWith(r.error, GenerateErrorPrefix) && r.error[|GenerateErrorPrefix|..] == out.error)
  {
  }

  // ---------------------------------------------------------------- classify_intent

  /** `w` is the first whitespace-separated word of `s`. */
  predicate IsFirstWord(s: string, w: string)
  {
    && w != []
    && StartsWith(s, w)
    && (forall i | 0 <= i < |w| :: !IsSpace(w[i]))
    && (|w| == |s| || IsSpace(s[|w|]))
  }

  /** A string has at most one first word. */
  lemma FirstWordUnique(s: string, w1: string, w2: string)
    requires IsFirstWord(s, w1) && IsFirstWord(s, w2)
    ensures w1 == w2
  {
    assert forall k | 0 <= k < |w1| :: w1[k] == s[k];
    assert forall k | 0 <= k < |w2| :: w2[k] == s[k];
    assert w1 == s[..|w1|] && w2 == s[..|w2|];
  }

  /** The first token of `split()` on a string that starts with a non-space is its first word. */
  lemma FirstTokenIsFirstWord(s: string)
    requires s != [] && !IsSpace(s[0])
    ensures SplitWords(s) != []
    ensures IsFirstWord(s, SplitWords(s)[0])
  {
    var n := RunLength(s, IsNotSpace);
    assert SplitWords(s) == [s[..n]] + Runs(s[n..], IsNotSpace);
    if n < |s| {
      assert !IsNotSpace(s[n]);
    }
  }

  function ClassifyPrompt(question: string): string
  {
    "질문: " + question + "\n\n카테고리:"
  }

  /** `classify_intent`: the first word of the stripped response; "기타" for a blank response or a failure. */
  function ClassifyIntent(model: Model, prompts: Prompts, question: string): (intent: string)
    ensures intent != [] && forall i | 0 <= i < |intent| :: !IsSpace(intent[i])
  {
    match Generate(model, ClassifyPrompt(question), Some(prompts.classify), 0.3, None)
    case Err(_) => OtherCategoryIsWord(); OtherCategory
    case Ok(result) =>
      var s := Strip(result);
      if s != [] then
        FirstWordOfStripped(result);
        SplitWords(s)[0]
      else OtherCategoryIsWord(); OtherCategory
  }

  /** "기타" is one word. */
  lemma OtherCategoryIsWord()
    ensures OtherCategory != [] && forall i | 0 <= i < |OtherCategory| :: !IsSpace(OtherCategory[i])
  {
    assert OtherCategory == ['기', '타'];
    assert !IsSpace('기') && !IsSpace('타');
  }

  /** A non-blank response, stripped, has a first word, and it holds no whitespace. */
  lemma FirstWordOfStripped(result: string)
    requires Strip(result) != []
    ensures SplitWords(Strip(result)) != []
    ensures var w := SplitWords(Strip(result))[0]; w != [] && forall i | 0 <= i < |w| :: !IsSpace(w[i])
  {
    StripIsStripped(result);
    FirstTokenIsFirstWord(Strip(result));
  }

  /** The intent in terms of the model's answer. */
  lemma ClassifyIntentSpec(model: Model, prompts: Prompts, question: string)
    ensures var out := Generate(model, ClassifyPrompt(question), Some(prompts.classify), 0.3, None);
      var intent := ClassifyIntent(model, prompts, question);
      && (out.Err? ==> intent == OtherCategory)
      && (out.Ok? && IsBlank(out.value) ==> intent == OtherCategory)
      && (out.Ok? && !IsBlank(out.value) ==> IsFirstWord(Strip(out.value), intent))
  {
    var out := Generate(model, ClassifyPrompt(question), Some(prompts.classify), 0.3, None);
    if out.Ok? {
      StripEmptyIffBlank(out.value);
      if !IsBlank(out.value) {
        StripSpec(out.value);
        FirstTokenIsFirstWord(Strip(out.value));
      }
    }
  }

  /** A model that answers one category word, padded with whitespace, yields exactly that word. */
  lemma ClassifyIntentOfWord(model: Model, prompts: Prompts, question: string, ws1: string, word: string, ws2: string)
    requires model(FullPrompt(ClassifyPrompt(question), Some(prompts.classify)), Config(0.3, None)) == Ok(ws1 + word + ws2)
    requires IsBlank(ws1) && IsBlank(ws2)
    requires word != [] && forall i | 0 <= i < |word| :: !IsSpace(word[i])
    ensures ClassifyIntent(model, prompts, question) == word
  {
    StripAround(ws1, word, ws2);
    RunsWhole(word, IsNotSpace);
  }

  // ---------------------------------------------------------------- rewrite_query

  function RewritePrompt(question: string, intent: string): string
  {
    "의도: " + intent + "\n원본 질문: " + question + "\n\n재작성된 질문:"
  }

  /** `rewrite_query`: the stripped response; the question itself for a blank response or a failure. */
  function RewriteQuery(model: Model, prompts: Prompts, question: string, intent: string): (r: string)
    ensures r == question || (r != [] && IsStripped(r))
  {
    match Generate(model, RewritePrompt(question, intent), Some(prompts.rewrite), 0.5, None)
    case Err(_) => question
    case Ok(result) =>
      StripSpec(result);
      if Strip(result) != [] then Strip(result) else question
  }

  /** The rewritten query in terms of the model's answer. */
  lemma RewriteQuerySpec(model: Model, prompts: Prompts, question: string, intent: string)
    ensures var out := Generate(model, RewritePrompt(question, intent), Some(prompts.rewrite), 0.5, None);
      var r := RewriteQuery(model, prompts, question, intent);
      && (out.Err? ==> r == question)
      && (out.Ok? && IsBlank(out.value) ==> r == question)
      && (out.Ok? && !IsBlank(out.value) ==> r == Strip(out.value))
  {
    var out := Generate(model, RewritePrompt(question, intent), Some(prompts.rewrite), 0.5, None);
    if out.Ok? {
      StripEmptyIffBlank(out.value);
    }
  }

  // ---------------------------------------------------------------- code fences

  const JsonFence: string := "```json"
  const Fence: string := "```"

  /** Python `s[len(p):] if s.startswith(p) else s`. */
  function DropPrefix(s: string, p: string): (r: string)
    ensures StartsWith(s, p) ==> s == p + r
    ensures !StartsWith(s, p) ==> r == s
  {
    if StartsWith(s, p) then s[|p|..] else s
  }

  /** Python `s[:-len(p)] if s.endswith(p) else s`, for a non-empty `p`. */
  function DropSuffix(s: string, p: string): (r: string)
    ensures EndsWith(s, p) ==> s == r + p
    ensures !EndsWith(s, p) ==> r == s
  {
    if EndsWith(s, p) then s[..|s| - |p|] else s
  }

  /**
   * The cleaning before `json.loads`: strip, drop a leading "```json", then a leading "```",
   * then a trailing "```", and strip again.
   */
  function StripFences(response: string): string
  {
    Strip(DropSuffix(DropPrefix(DropPrefix(Strip(response), JsonFence), Fence), Fence))
  }

  /** The cleaned response is stripped and no longer than the response. */
  lemma StripFencesShape(response: string)
    ensures IsStripped(StripFences(response))
    ensures |StripFences(response)| <= |response|
  {
    StripSpec(DropSuffix(DropPrefix(DropPrefix(Strip(response), JsonFence), Fence), Fence));
  }

  lemma FencedIsStripped(opening: string, body: string)
    requires opening != [] && opening[0] == '`'
    ensures IsStripped(opening + body + Fence)
  {
    var s := opening + body + Fence;
    assert s[0] == opening[0];
    assert s[|s| - 1] == Fence[2];
  }

  lemma DropPrefixOf(p: string, rest: string)
    ensures DropPrefix(p + rest, p) == rest
  {
    assert (p + rest)[..|p|] == p;
  }

  lemma DropSuffixOf(rest: string, p: string)
    ensures DropSuffix(rest + p, p) == rest
  {
    assert (rest + p)[|rest|..] == p;
  }

  /** A body that does not start with a backquote does not start with a fence. */
  lemma NoFenceAhead(body: string, tail: string)
    requires body != [] && body[0] != '`'
    ensures !StartsWith(body + tail, Fence)
  {
    assert (body + tail)[0] == body[0];
  }

  /** A JSON code block, padded with whitespace, is reduced to its stripped body. */
  lemma StripFencesJsonBlock(ws1: string, body: string, ws2: string)
    requires IsBlank(ws1) && IsBlank(ws2)
    requires body == [] || body[0] != '`'
    ensures StripFences(ws1 + JsonFence + body + Fence + ws2) == Strip(body)
  {
    var r := ws1 + JsonFence + body + Fence + ws2;
    var tail := body + Fence;
    var core := JsonFence + tail;
    assert r == ws1 + core + ws2;
    FencedIsStripped(JsonFence, body);
    assert core == JsonFence + body + Fence;
    StripAround(ws1, core, ws2);
    DropPrefixOf(JsonFence, tail);
    if body == [] {
      assert tail == Fence + [];
      DropPrefixOf(Fence, []);
    } else {
      NoFenceAhead(body, Fence);
      DropSuffixOf(body, Fence);
    }
  }

  /** A string whose first character differs from that of `p` does not start with `p`. */
  lemma NotStartsWithFirst(s: string, p: string)
    requires p != [] && (s == [] || s[0] != p[0])
    ensures !StartsWith(s, p)
  {
    if |p| <= |s| {
      assert s[..|p|][0] == s[0];
    }
  }

  /** A string whose last character differs from that of `p` does not end with `p`. */
  lemma NotEndsWithLast(s: string, p: string)
    requires p != [] && (s == [] || s[|s| - 1] != p[|p| - 1])
    ensures !EndsWith(s, p)
  {
    if |p| <= |s| {
      assert s[|s| - |p|..][|p| - 1] == s[|s| - 1];
    }
  }

  /** Putting the same text in front keeps a string from starting with `tag`. */
  lemma NotStartsWithAfter(front: string, tail: string, tag: string)
    requires !StartsWith(tail, tag)
    ensures !StartsWith(front + tail, front + tag)
  {
    if |front + tag| <= |front + tail| {
      assert (front + tail)[..|front + tag|] == front + tail[..|tag|];
      assert (front + tail[..|tag|])[|front|..] == tail[..|tag|];
      assert (front + tag)[|front|..] == tag;
    }
  }

  lemma NotJsonFence(tail: string)
    requires tail != [] && tail[0] != 'j'
    ensures !StartsWith(Fence + tail, JsonFence)
  {
    NotStartsWithFirst(tail, "json");
    assert JsonFence == Fence + "json";
    NotStartsWithAfter(Fence, tail, "json");
  }

  /** A plain code block, padded with whitespace, is reduced to its stripped body. */
  lemma StripFencesPlainBlock(ws1: string, body: string, ws2: string)
    requires IsBlank(ws1) && IsBlank(ws2)
    requires body == [] || (body[0] != '`' && body[0] != 'j')
    ensures StripFences(ws1 + Fence + body + Fence + ws2) == Strip(body)
  {
    var r := ws1 + Fence + body + Fence + ws2;
    var tail := body + Fence;
    var core := Fence + tail;
    assert r == ws1 + core + ws2;
    FencedIsStripped(Fence, body);
    assert core == Fence + body + Fence;
    StripAround(ws1, core, ws2);
    assert core[3..] == tail;
    NotJsonFence(tail);
    DropPrefixOf(Fence, tail);
    DropSuffixOf(body, Fence);
  }

  /** A response that neither starts nor ends with a backquote is only stripped. */
  lemma StripFencesUnfenced(response: string)
    requires var s := Strip(response); s == [] || (s[0] != '`' && s[|s| - 1] != '`')
    ensures StripFences(response) == Strip(response)
  {
    var s := Strip(response);
    assert JsonFence[0] == '`' && Fence[0] == '`' && Fence[|Fence| - 1] == '`';
    NotStartsWithFirst(s, JsonFence);
    assert DropPrefix(s, JsonFence) == s;
    NotStartsWithFirst(s, Fence);
    assert DropPrefix(s, Fence) == s;
    NotEndsWithLast(s, Fence);
    assert DropSuffix(s, Fence) == s;
    StripIdempotent(response);
  }

  // ---------------------------------------------------------------- generate_answer

  /**
   * The `[FAQ i]` block of the prompt for one retrieved document. A search result always
   * holds the `title` and `url` keys, so `doc.get('title', '')` of a missing title is
   * `None`, which the f-string writes as "None".
   */
  function DocBlock(i: nat, d: Doc): string
  {
    BlockHeader(i) + Line("제목: ", d.meta.title.GetOr(NoneText)) + Line("내용: ", d.meta.text.GetOr(""))
      + Line("URL: ", d.meta.url.GetOr(NoneText))
  }

  function BlockHeader(i: nat): string
  {
    "\n[FAQ " + NatToString(i) + "]\n"
  }

  /** One `name: value` line of a block. */
  function Line(name: string, value: string): string
  {
    name + value + "\n"
  }

  /** `docs_text` after the loop over the given documents, numbered from 1. */
  function DocsText(docs: seq<Doc>): string
  {
    if docs == [] then "" else DocsText(docs[..|docs| - 1]) + DocBlock(|docs|, docs[|docs| - 1])
  }

  /** The documents' blocks, numbered 1, 2, ..., one per document, in order. */
  function DocBlocks(docs: seq<Doc>): (r: seq<string>)
    ensures |r| == |docs|
    ensures forall i | 0 <= i < |docs| :: r[i] == DocBlock(i + 1, docs[i])
  {
    seq(|docs|, i requires 0 <= i < |docs| => DocBlock(i + 1, docs[i]))
  }

  /** `docs_text` is the concatenation of the numbered blocks. */
  lemma {:induction false} DocsTextIsBlocks(docs: seq<Doc>)
    ensures DocsText(docs) == Flatten(DocBlocks(docs))
  {
    if docs != [] {
      var n := |docs| - 1;
      DocsTextIsBlocks(docs[..n]);
      assert DocBlocks(docs) == DocBlocks(docs[..n]) + [DocBlock(n + 1, docs[n])];
      FlattenAppend(DocBlocks(docs[..n]), DocBlock(n + 1, docs[n]));
    }
  }

  /** The user prompt of `generate_answer`. */
  function UserPrompt(question: string, docs: seq<Doc>, userContext: Option<string>): string
  {
    QuestionLine(question) + (if Truthy(userContext) then SituationLine(userContext.value) else "")
      + FaqSection(DocsText(docs))
  }

  function QuestionLine(question: string): string
  {
    "사용자 질문: " + question
  }

  function SituationLine(userContext: string): string
  {
    "\n상황: " + userContext
  }

  function FaqSection(docsText: string): string
  {
    "\n\n관련 FAQ:\n" + docsText + "\n\n위 FAQ를 근거로 JSON 형식 답변을 생성하세요."
  }

  /** The payload for a response that is not valid JSON: the raw response as the answer. */
  function ParseFailurePayload(response: string): AnswerData
  {
    AnswerData(Text(response), Some(Items([])), [], Text(ConfidenceMedium), Some(Items([])), Missing)
  }

  /** The message of the `AttributeError` that `result.get` raises on a non-object JSON value. */
  function NoGetMessage(typeName: string): string
  {
    "'" + typeName + "' object has no attribute 'get'"
  }

  /** The payload for a failed generation, or for any other exception the outer handler catches. */
  function ErrorPayload(error: string): AnswerData
  {
    AnswerData(Text(AnswerErrorPrefix + error), Some(Items([])), [], Text(ConfidenceLow), Some(Items([])), Missing)
  }

  /** What `generate_answer` returns. */
  function AnswerFor(model: Model, prompts: Prompts, decode: JsonDecoder, question: string, docs: seq<Doc>,
                     userContext: Option<string>): AnswerData
  {
    match Generate(model, UserPrompt(question, docs, userContext), Some(prompts.answer), 0.7, None)
    case Err(e) => ErrorPayload(e)
    case Ok(response) =>
      match decode(StripFences(response))
      case NotJson => ParseFailurePayload(response)
      case NotObject(typeName) => ErrorPayload(NoGetMessage(typeName))
      case Object(data) => data
  }

  /**
   * A decoded object is returned as decoded; a parse failure gives the raw response with
   * empty lists and medium confidence; a failed generation, or a JSON value that is not an
   * object (on which `result.get` raises), gives low confidence, empty lists and an answer
   * that reports the error.
   */
  lemma AnswerForCases(model: Model, prompts: Prompts, decode: JsonDecoder, question: string, docs: seq<Doc>,
                       userContext: Option<string>)
    ensures var out := model(FullPrompt(UserPrompt(question, docs, userContext), Some(prompts.answer)),
                             Config(0.7, None));
      var r := AnswerFor(model, prompts, decode, question, docs, userContext);
      && (out.Ok? && decode(StripFences(out.value)).Object? ==> r == decode(StripFences(out.value)).data)
      && (out.Ok? && decode(StripFences(out.value)).NotObject? ==>
            r.confidence == Text(ConfidenceLow)
            && r.answer == Text(AnswerErrorPrefix + NoGetMessage(decode(StripFences(out.value)).typeName))
            && r.steps == Some(Items([])) && r.citations == [] && r.followups == Some(Items([])) && r.safety == Missing)
      && (out.Ok? && decode(StripFences(out.value)).NotJson? ==>
            r.answer == Text(out.value) && r.confidence == Text(ConfidenceMedium)
            && r.steps == Some(Items([])) && r.citations == [] && r.followups == Some(Items([])) && r.safety == Missing)
      && (out.Err? ==>
            r.confidence == Text(ConfidenceLow) && r.answer.Text?
            && StartsWith(r.answer.text, AnswerErrorPrefix + GenerateErrorPrefix)
            && r.steps == Some(Items([])) && r.citations == [] && r.followups == Some(Items([])) && r.safety == Missing)
  {
    var out := model(FullPrompt(UserPrompt(question, docs, userContext), Some(prompts.answer)), Config(0.7, None));
    if out.Err? {
      ErrorAnswerPrefix(out.error);
    }
  }

  lemma DocsTextStep(docs: seq<Doc>, i: nat)
    requires i < |docs|
    ensures DocsText(docs[..i + 1]) == DocsText(docs[..i]) + DocBlock(i + 1, docs[i])
  {
    PrefixStep(docs, i);
  }

  lemma ErrorAnswerPrefix(e: string)
    ensures StartsWith(AnswerErrorPrefix + (GenerateErrorPrefix + e), AnswerErrorPrefix + GenerateErrorPrefix)
  {
    var a := AnswerErrorPrefix + (GenerateErrorPrefix + e);
    assert a[..|AnswerErrorPrefix + GenerateErrorPrefix|] == AnswerErrorPrefix + GenerateErrorPrefix;
  }

  /** The four `docs_text +=` of one loop iteration. */
  method AppendBlock(docsText0: string, i: nat, doc: Doc) returns (docsText: string)
    ensures docsText == docsText0 + DocBlock(i, doc)
  {
    var header, title, text, url := BlockHeader(i), Line("제목: ", doc.meta.title.GetOr(NoneText)),
      Line("내용: ", doc.meta.text.GetOr("")), Line("URL: ", doc.meta.url.GetOr(NoneText));
    docsText := docsText0 + header;
    docsText := docsText + title;
    docsText := docsText + text;
    docsText := docsText + url;
    assert docsText == docsText0 + (header + title + text + url);
  }

  /** The loop that accumulates `docs_text`. */
  method BuildDocsText(docs: seq<Doc>) returns (docsText: string)
    ensures docsText == DocsText(docs)
  {
    docsText := "";
    var i := 0;
    while i < |docs|
      invariant 0 <= i <= |docs|
      invariant docsText == DocsText(docs[..i])
    {
      DocsTextStep(docs, i);
      docsText := AppendBlock(docsText, i + 1, docs[i]);
      i := i + 1;
    }
    PrefixWhole(docs);
  }

  /** The user prompt, built as `generate_answer` builds it. */
  method BuildUserPrompt(question: string, docs: seq<Doc>, userContext: Option<string>) returns (userPrompt: string)
    ensures userPrompt == UserPrompt(question, docs, userContext)
  {
    var docsText := BuildDocsText(docs);
    userPrompt := QuestionLine(question);
    if Truthy(userContext) {
      userPrompt := userPrompt + SituationLine(userContext.value);
    }
    userPrompt := userPrompt + FaqSection(docsText);
  }

  /** The fence cleaning, stage by stage. */
  method CleanResponse(response: string) returns (responseClean: string)
    ensures responseClean == StripFences(response)
  {
    responseClean := Strip(response);
    ghost var stripped := responseClean;
    if StartsWith(responseClean, JsonFence) {
      responseClean := responseClean[7..];
    }
    ghost var noJson := responseClean;
    assert noJson == DropPrefix(stripped, JsonFence);
    if StartsWith(responseClean, Fence) {
      responseClean := responseClean[3..];
    }
    ghost var noOpening := responseClean;
    assert noOpening == DropPrefix(noJson, Fence);
    if EndsWith(responseClean, Fence) {
      responseClean := responseClean[..|responseClean| - 3];
    }
    assert responseClean == DropSuffix(noOpening, Fence);
    responseClean := Strip(responseClean);
  }

  /** `generate_answer` */
  method GenerateAnswer(model: Model, prompts: Prompts, decode: JsonDecoder, question: string, docs: seq<Doc>,
                        userContext: Option<string>) returns (result: AnswerData)
    ensures result == AnswerFor(model, prompts, decode, question, docs, userContext)
  {
    var userPrompt := BuildUserPrompt(question, docs, userContext);
    var response := Generate(model, userPrompt, Some(prompts.answer), 0.7, None);
    if response.Err? {
      return ErrorPayload(response.error);
    }
    var responseClean := CleanResponse(response.value);
    var decoded := decode(responseClean);
    match decoded
    case NotJson =>
      result := ParseFailurePayload(response.value);
    case NotObject(typeName) =>
      result := ErrorPayload(NoGetMessage(typeName));
    case Object(data) =>
      result := data;
  }
}
