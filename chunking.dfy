/**
 * FAQ chunking: token counting (an abstract tokenizer with a whitespace-word fallback),
 * paragraph splitting on blank lines, the packing of paragraphs into chunks with a word
 * overlap between consecutive chunks, and the chunking of a list of FAQ records.
 */
module Chunking {
  import opened Common
  import opened Text
  import opened Schemas
  import opened Cleaning

  /** `encoding.encode(text)` as a token count; `None` when the encoder raises. */
  type Encoder = string -> Option<nat>

  const DefaultMaxChunkTokens: int := 500
  const DefaultOverlapTokens: int := 50
  const ParagraphBreak: string := "\n\n"
  const ChunkIdInfix: string := "_chunk_"

  // ---------------------------------------------------------------- count_tokens

  /** `count_tokens`: the encoder's count, or the number of whitespace-separated words. */
  function CountTokens(encoding: Option<Encoder>, text: string): nat
  {
    match encoding
    case None => |SplitWords(text)|
    case Some(encode) => encode(text).GetOr(|SplitWords(text)|)
  }

  /**
   * Without an encoder, or when encoding fails, `count_tokens` counts words: text made of
   * `n` words separated by single spaces costs `n` tokens. An encoder's count is kept.
   */
  lemma CountTokensOfWords(encoding: Option<Encoder>, ws: seq<string>)
    requires forall k | 0 <= k < |ws| :: ws[k] != [] && forall i | 0 <= i < |ws[k]| :: !IsSpace(ws[k][i])
    ensures var text := Join(" ", ws);
      && (encoding.None? || encoding.value(text).None? ==> CountTokens(encoding, text) == |ws|)
      && (encoding.Some? && encoding.value(text).Some? ==> CountTokens(encoding, text) == encoding.value(text).value)
  {
    SplitWordsOfJoin(ws);
  }

  /** A token counter: `count_tokens` with its encoder fixed. */
  type TokenCount = string -> nat

  function Counter(encoding: Option<Encoder>): TokenCount
  {
    text => CountTokens(encoding, text)
  }

  // ---------------------------------------------------------------- split_by_paragraphs

  /** Index of the last newline of `t`. */
  function LastNewline(t: string): (k: Option<nat>)
    ensures k.Some? ==> k.value < |t| && t[k.value] == '\n'
    ensures k.None? ==> '\n' !in t
    decreases |t|
  {
    if t == [] then None
    else if t[|t| - 1] == '\n' then Some(|t| - 1)
    else LastNewline(t[..|t| - 1])
  }

  /**
   * What `\s*\n` matches at the start of `t`: `\s*` takes the whole whitespace run and
   * gives back characters until a newline follows, so the match ends just after the
   * run's last newline. The result is the match's length.
   */
  function BreakTail(t: string): (n: Option<nat>)
    ensures n.Some? ==> 1 <= n.value <= |t|
  {
    match LastNewline(t[..RunLength(t, IsSpace)])
    case None => None
    case Some(k) => Some(k + 1)
  }

  /** The end of the match of `\n\s*\n` that starts at `i`, if one does. */
  function BreakEnd(s: string, i: nat): (e: Option<nat>)
    requires i < |s|
    ensures e.Some? ==> i + 2 <= e.value <= |s|
  {
    if s[i] != '\n' then None
    else match BreakTail(s[i + 1..])
      case None => None
      case Some(n) => Some(i + 1 + n)
  }

  /** The first match of `\n\s*\n` at or after `i`: where it starts and where it ends. */
  function FirstBreak(s: string, i: nat): (m: Option<(nat, nat)>)
    requires i <= |s|
    ensures m.Some? ==> i <= m.value.0 && m.value.0 + 2 <= m.value.1 <= |s|
    decreases |s| - i
  {
    if i == |s| then None
    else match BreakEnd(s, i)
      case Some(e) => Some((i, e))
      case None => FirstBreak(s, i + 1)
  }

  /** `re.split(r'\n\s*\n', s)`: the pieces between successive matches. */
  function SplitAtBreaks(s: string): (r: seq<string>)
    ensures r != []
    decreases |s|
  {
    match FirstBreak(s, 0)
    case None => [s]
    case Some((i, e)) => [s[..i]] + SplitAtBreaks(s[e..])
  }

  /** `split_by_paragraphs`: split at blank lines, strip, drop blank paragraphs. */
  function SplitParagraphs(text: string): (r: seq<string>)
    ensures forall k | 0 <= k < |r| :: r[k] != [] && IsStripped(r[k])
  {
    if text == [] then [] else StrippedNonBlank(SplitAtBreaks(text))
  }

  lemma {:induction false} SkipWithoutNewline(s: string, i: nat, j: nat)
    requires i <= j <= |s|
    requires forall k | i <= k < j :: s[k] != '\n'
    ensures FirstBreak(s, i) == FirstBreak(s, j)
    decreases j - i
  {
    if i < j {
      SkipWithoutNewline(s, i + 1, j);
    }
  }

  /** Text without newlines is one paragraph, or none when it is blank. */
  lemma SplitParagraphsOfLine(text: string)
    requires '\n' !in text
    ensures SplitParagraphs(text) == if Strip(text) == [] then [] else [Strip(text)]
  {
    if text != [] {
      SkipWithoutNewline(text, 0, |text|);
      assert FirstBreak(text, 0) == None;
      assert SplitAtBreaks(text) == [text];
      assert [text][1..] == [];
      assert StrippedNonBlank([text]) == (if Strip(text) != [] then [Strip(text)] else []) + StrippedNonBlank([]);
    }
  }

  /** A newline-free piece, a blank line, then text starting with a non-space: one split. */
  lemma SplitAtFirstBreak(p: string, rest: string)
    requires '\n' !in p
    requires rest != [] && !IsSpace(rest[0])
    ensures SplitAtBreaks(p + ParagraphBreak + rest) == [p] + SplitAtBreaks(rest)
  {
    var s := p + ParagraphBreak + rest;
    SkipWithoutNewline(s, 0, |p|);
    var t := s[|p| + 1..];
    assert t == ['\n'] + rest;
    assert RunLength(t, IsSpace) == 1;
    assert t[..1] == ['\n'];
    assert BreakTail(t) == Some(1);
    assert FirstBreak(s, 0) == Some((|p|, |p| + 2));
    assert s[..|p|] == p && s[|p| + 2..] == rest;
  }

  lemma StrippedNonBlankCons(p: string, tail: seq<string>)
    requires p != [] && IsStripped(p)
    ensures StrippedNonBlank([p] + tail) == [p] + StrippedNonBlank(tail)
  {
    StripOfStripped(p);
    assert ([p] + tail)[1..] == tail;
  }

  /** Joining stripped one-line paragraphs with blank lines and splitting again gives them back. */
  lemma {:induction false} SplitParagraphsOfJoin(paragraphs: seq<string>)
    requires forall k | 0 <= k < |paragraphs| :: paragraphs[k] != [] && IsStripped(paragraphs[k]) && '\n' !in paragraphs[k]
    ensures SplitParagraphs(Join(ParagraphBreak, paragraphs)) == paragraphs
    decreases |paragraphs|
  {
    if |paragraphs| == 1 {
      SplitParagraphsOfOne(paragraphs[0]);
      assert paragraphs == [paragraphs[0]];
    } else if |paragraphs| > 1 {
      var p, tail := paragraphs[0], paragraphs[1..];
      SplitParagraphsOfJoin(tail);
      SplitParagraphsOfJoinCons(p, tail);
      assert paragraphs == [p] + tail;
    }
  }

  /** The one-paragraph case of `SplitParagraphsOfJoin`. */
  lemma SplitParagraphsOfOne(p: string)
    requires p != [] && IsStripped(p) && '\n' !in p
    ensures SplitParagraphs(Join(ParagraphBreak, [p])) == [p]
  {
    SplitParagraphsOfLine(p);
    StripOfStripped(p);
  }

  /** The inductive step of `SplitParagraphsOfJoin`: prepending one more paragraph. */
  lemma SplitParagraphsOfJoinCons(p: string, tail: seq<string>)
    requires p != [] && IsStripped(p) && '\n' !in p
    requires tail != [] && tail[0] != [] && IsStripped(tail[0])
    requires SplitParagraphs(Join(ParagraphBreak, tail)) == tail
    ensures SplitParagraphs(Join(ParagraphBreak, [p] + tail)) == [p] + tail
  {
    var rest := Join(ParagraphBreak, tail);
    assert ([p] + tail)[1..] == tail;
    assert Join(ParagraphBreak, [p] + tail) == p + ParagraphBreak + rest;
    JoinHead(ParagraphBreak, tail);
    SplitParagraphsCons(p, rest);
  }

  /** A stripped one-line paragraph, a blank line, then text starting with a non-space. */
  lemma SplitParagraphsCons(p: string, rest: string)
    requires p != [] && IsStripped(p) && '\n' !in p
    requires rest != [] && !IsSpace(rest[0])
    ensures SplitParagraphs(p + ParagraphBreak + rest) == [p] + SplitParagraphs(rest)
  {
    SplitAtFirstBreak(p, rest);
    StrippedNonBlankCons(p, SplitAtBreaks(rest));
  }

  /** A join whose first piece is non-empty starts with that piece's first character. */
  lemma JoinHead(sep: string, xs: seq<string>)
    requires xs != [] && xs[0] != []
    ensures Join(sep, xs) != [] && Join(sep, xs)[0] == xs[0][0]
  {
  }

  /** A cleaned body has no newlines left, so it is a single paragraph (or none). */
  lemma CleanedBodyIsOneParagraph(body: string, html: HtmlParser)
    ensures var c := CleanText(body, true, html);
      SplitParagraphs(c) == if c == [] then [] else [c]
  {
    var c := CleanText(body, true, html);
    CleanTextSpec(body, true, html);
    NormalizedHasNoNewline(c);
    SplitParagraphsOfStrippedLine(c);
  }

  /** A stripped line is its own single paragraph, or none when it is empty. */
  lemma SplitParagraphsOfStrippedLine(c: string)
    requires IsStripped(c) && '\n' !in c
    ensures SplitParagraphs(c) == if c == [] then [] else [c]
  {
    SplitParagraphsOfLine(c);
    StripOfStripped(c);
  }

  // ---------------------------------------------------------------- chunk records

  /** The seven fields `create_chunks` receives. */
  datatype FaqFields = FaqFields(faqId: string, title: string, body: string, category: string,
                                 url: string, updatedAt: string, channel: string)

  /** `f"{faq_id}_chunk_{idx}"` */
  function ChunkId(faqId: string, idx: nat): string
  {
    faqId + ChunkIdInfix + NatToString(idx)
  }

  /** The chunk dict with index `idx` and text `text`; `title` is the cleaned title. */
  function ChunkOf(fields: FaqFields, title: string, idx: nat, text: string): Meta
  {
    Meta(Some(ChunkId(fields.faqId, idx)), Some(fields.faqId), Some(title), Some(text), Some(fields.category),
         Some(fields.url), Some(fields.updatedAt), Text(fields.channel))
  }

  /** Chunk `k` has id `{faq_id}_chunk_{k}`, the FAQ's metadata and the cleaned title. */
  predicate Numbered(fields: FaqFields, title: string, chunks: seq<Meta>)
  {
    forall k | 0 <= k < |chunks| ::
      && chunks[k].chunkId == Some(ChunkId(fields.faqId, k))
      && chunks[k].faqId == Some(fields.faqId) && chunks[k].title == Some(title)
      && chunks[k].category == Some(fields.category) && chunks[k].url == Some(fields.url)
      && chunks[k].updatedAt == Some(fields.updatedAt) && chunks[k].channel == Text(fields.channel)
      && chunks[k].text.Some?
  }

  // ---------------------------------------------------------------- overlap

  /**
   * The overlap: walking the previous chunk's words from the end, each word is put in
   * front while the running token count stays within the budget; the first word that
   * does not fit ends the walk.
   */
  function OverlapWords(count: TokenCount, words: seq<string>, budget: int): seq<string>
    decreases |words|
  {
    if words == [] then []
    else
      var n := count(words[|words| - 1]);
      if n <= budget then OverlapWords(count, words[..|words| - 1], budget - n) + [words[|words| - 1]]
      else []
  }

  /** The summed token count of some words. */
  function TokenSum(count: TokenCount, words: seq<string>): nat
    decreases |words|
  {
    if words == [] then 0 else TokenSum(count, words[..|words| - 1]) + count(words[|words| - 1])
  }

  /** The overlap is a suffix of the words. */
  lemma {:induction false} OverlapWordsSuffix(count: TokenCount, words: seq<string>, budget: int)
    ensures var r := OverlapWords(count, words, budget);
      |r| <= |words| && r == words[|words| - |r|..]
    decreases |words|
  {
    if words != [] {
      var n := |words| - 1;
      var c := count(words[n]);
      if c <= budget {
        var init := words[..n];
        OverlapWordsSuffix(count, init, budget - c);
        var q := OverlapWords(count, init, budget - c);
        SuffixSnoc(words, |words| - |q| - 1);
      }
    }
  }

  /** A non-empty overlap fits the budget. */
  lemma {:induction false} OverlapWordsFit(count: TokenCount, words: seq<string>, budget: int)
    ensures var r := OverlapWords(count, words, budget);
      r != [] ==> TokenSum(count, r) <= budget
    decreases |words|
  {
    if words != [] {
      var n := |words| - 1;
      var w := words[n];
      var c := count(w);
      if c <= budget {
        OverlapWordsFit(count, words[..n], budget - c);
        var q := OverlapWords(count, words[..n], budget - c);
        assert (q + [w])[..|q|] == q;
      }
    }
  }

  lemma TokenSumSnoc(count: TokenCount, words: seq<string>, w: string)
    ensures TokenSum(count, words + [w]) == TokenSum(count, words) + count(w)
  {
    assert (words + [w])[..|words|] == words;
  }

  /** The overlap is the longest such suffix: one more word would exceed the budget. */
  lemma {:induction false} OverlapWordsLongest(count: TokenCount, words: seq<string>, budget: int)
    ensures var m := |words| - |OverlapWords(count, words, budget)|;
      0 < m <= |words| ==> TokenSum(count, words[m - 1..]) > budget
    decreases |words|
  {
    if words != [] {
      var n := |words| - 1;
      var w := words[n];
      var init := words[..n];
      var c := count(w);
      if c <= budget {
        var q := OverlapWords(count, init, budget - c);
        assert OverlapWords(count, words, budget) == q + [w];
        OverlapWordsLongest(count, init, budget - c);
        var m := |init| - |q|;
        if 0 < m {
          OverlapLongestStep(count, words, m, budget);
        }
      } else {
        assert OverlapWords(count, words, budget) == [];
        SuffixSnoc(words, n);
        assert init[n..] == [];
        TokenSumSnoc(count, [], w);
      }
    }
  }

  /** The inductive step of `OverlapWordsLongest`: the last word is added to the suffix's sum. */
  lemma OverlapLongestStep(count: TokenCount, words: seq<string>, m: nat, budget: int)
    requires 0 < m < |words|
    requires TokenSum(count, words[..|words| - 1][m - 1..]) > budget - count(words[|words| - 1])
    ensures TokenSum(count, words[m - 1..]) > budget
  {
    var n := |words| - 1;
    SuffixSnoc(words, m - 1);
    TokenSumSnoc(count, words[..n][m - 1..], words[n]);
  }

  /** The reversed-words loop that builds the overlap. */
  method TakeOverlap(count: TokenCount, words: seq<string>, overlapTokens: int) returns (overlapWords: seq<string>)
    ensures overlapWords == OverlapWords(count, words, overlapTokens)
  {
    overlapWords := [];
    var overlapCount: int := 0;
    var i := |words|;
    PrefixWhole(words);
    while i > 0
      invariant 0 <= i <= |words|
      invariant OverlapWords(count, words, overlapTokens)
             == OverlapWords(count, words[..i], overlapTokens - overlapCount) + overlapWords
    {
      var word := words[i - 1];
      var wordTokens := count(word);
      assert words[..i][..i - 1] == words[..i - 1];
      if overlapCount + wordTokens <= overlapTokens {
        overlapWords := [word] + overlapWords;
        overlapCount := overlapCount + wordTokens;
        i := i - 1;
      } else {
        break;
      }
    }
  }

  // ---------------------------------------------------------------- packing

  /** The loop state: `current_chunk`, `current_tokens`, `chunk_idx` and the chunks so far. */
  datatype Packing = Packing(current: string, tokens: int, idx: nat, chunks: seq<Meta>)

  /** Store the current chunk, stripped, if it is not blank. */
  function Flush(fields: FaqFields, title: string, st: Packing): Packing
  {
    if Strip(st.current) != [] then
      Packing(st.current, st.tokens, st.idx + 1, st.chunks + [ChunkOf(fields, title, st.idx, Strip(st.current))])
    else st
  }

  /** The chunk text started after a flush: the overlap words (or else the title), then the paragraph. */
  function Restart(count: TokenCount, title: string, overlapTokens: int, chunks: seq<Meta>, para: string): string
  {
    var plain := title + ParagraphBreak + para + ParagraphBreak;
    if chunks != [] && overlapTokens > 0 then
      var overlap := OverlapWords(count, SplitWords(chunks[|chunks| - 1].text.GetOr([])), overlapTokens);
      if overlap != [] then Join(" ", overlap) + ParagraphBreak + para + ParagraphBreak else plain
    else plain
  }

  /** One paragraph: append it if it fits, otherwise flush and restart with it. */
  function Step(count: TokenCount, fields: FaqFields, title: string, maxChunkTokens: int, overlapTokens: int,
                st: Packing, para: string): Packing
  {
    var paraTokens := count(para);
    if st.tokens + paraTokens <= maxChunkTokens then
      Packing(st.current + para + ParagraphBreak, st.tokens + paraTokens, st.idx, st.chunks)
    else
      var flushed := Flush(fields, title, st);
      var current := Restart(count, title, overlapTokens, flushed.chunks, para);
      Packing(current, count(current), flushed.idx, flushed.chunks)
  }

  /** The loop state after the given paragraphs. */
  function PackAll(count: TokenCount, fields: FaqFields, title: string, maxChunkTokens: int, overlapTokens: int,
                   start: Packing, paras: seq<string>): Packing
    decreases |paras|
  {
    if paras == [] then start
    else Step(count, fields, title, maxChunkTokens, overlapTokens,
              PackAll(count, fields, title, maxChunkTokens, overlapTokens, start, paras[..|paras| - 1]),
              paras[|paras| - 1])
  }

  /** What `create_chunks` returns. */
  function Chunks(encoding: Option<Encoder>, html: HtmlParser, fields: FaqFields, maxChunkTokens: int,
                  overlapTokens: int): seq<Meta>
  {
    ChunksOf(Counter(encoding), fields, CleanText(fields.title, true, html), CleanText(fields.body, true, html),
             maxChunkTokens, overlapTokens)
  }

  /** The chunks of an FAQ whose title and body are already cleaned. */
  function ChunksOf(count: TokenCount, fields: FaqFields, title: string, body: string, maxChunkTokens: int,
                    overlapTokens: int): seq<Meta>
  {
    var fullText := title + ParagraphBreak + body;
    var paragraphs := SplitParagraphs(body);
    if count(fullText) <= maxChunkTokens || paragraphs == [] then
      [ChunkOf(fields, title, 0, fullText)]
    else
      var head := title + ParagraphBreak;
      var st := PackAll(count, fields, title, maxChunkTokens, overlapTokens,
                        Packing(head, count(head), 0, []), paragraphs);
      Flush(fields, title, st).chunks
  }

  // ---------------------------------------------------------------- properties of the packing

  /** Every stored chunk has a non-empty stripped text. */
  predicate StrippedTexts(chunks: seq<Meta>)
  {
    forall k | 0 <= k < |chunks| :: chunks[k].text.Some? && chunks[k].text.value != [] && IsStripped(chunks[k].text.value)
  }

  /** What the loop keeps: `chunk_idx` counts the chunks, which are numbered and non-blank. */
  predicate PackingInv(fields: FaqFields, title: string, st: Packing)
  {
    st.idx == |st.chunks| && Numbered(fields, title, st.chunks) && StrippedTexts(st.chunks)
  }

  lemma NotBlankAround(x: string, p: string, y: string)
    requires !IsBlank(p)
    ensures !IsBlank(x + p + y)
  {
    var i :| 0 <= i < |p| && !IsSpace(p[i]);
    assert (x + p + y)[|x| + i] == p[i];
  }

  /** A flush stores at most one chunk, and exactly one when the current text is not blank. */
  lemma FlushKeeps(fields: FaqFields, title: string, st: Packing)
    requires PackingInv(fields, title, st)
    ensures PackingInv(fields, title, Flush(fields, title, st))
    ensures |Flush(fields, title, st).chunks| == |st.chunks| + (if IsBlank(st.current) then 0 else 1)
  {
    StripEmptyIffBlank(st.current);
    var text := Strip(st.current);
    if text != [] {
      StripIsStripped(st.current);
      assert Flush(fields, title, st).chunks == st.chunks + [ChunkOf(fields, title, st.idx, text)];
      NumberedSnoc(fields, title, st.chunks, text);
    }
  }

  /** Appending the next numbered chunk with a stripped non-empty text keeps the chunks numbered. */
  lemma NumberedSnoc(fields: FaqFields, title: string, chunks: seq<Meta>, text: string)
    requires Numbered(fields, title, chunks) && StrippedTexts(chunks)
    requires text != [] && IsStripped(text)
    ensures var chunks' := chunks + [ChunkOf(fields, title, |chunks|, text)];
      Numbered(fields, title, chunks') && StrippedTexts(chunks')
  {
    var chunks' := chunks + [ChunkOf(fields, title, |chunks|, text)];
    assert forall k | 0 <= k < |chunks| :: chunks'[k] == chunks[k];
  }

  /** A step stores at most one chunk and leaves the paragraph in the current text. */
  lemma StepKeeps(count: TokenCount, fields: FaqFields, title: string, maxChunkTokens: int, overlapTokens: int,
                  st: Packing, para: string)
    requires PackingInv(fields, title, st)
    ensures var st' := Step(count, fields, title, maxChunkTokens, overlapTokens, st, para);
      && PackingInv(fields, title, st')
      && |st.chunks| <= |st'.chunks| <= |st.chunks| + 1
      && (!IsBlank(para) ==> !IsBlank(st'.current))
  {
    var st' := Step(count, fields, title, maxChunkTokens, overlapTokens, st, para);
    if st.tokens + count(para) <= maxChunkTokens {
      assert st'.chunks == st.chunks && st'.idx == st.idx && st'.current == st.current + para + ParagraphBreak;
      if !IsBlank(para) {
        NotBlankAround(st.current, para, ParagraphBreak);
      }
    } else {
      var flushed := Flush(fields, title, st);
      FlushKeeps(fields, title, st);
      assert st'.chunks == flushed.chunks && st'.idx == flushed.idx;
      assert st'.current == Restart(count, title, overlapTokens, flushed.chunks, para);
      if !IsBlank(para) {
        RestartNotBlank(count, title, overlapTokens, flushed.chunks, para);
      }
    }
  }

  /** A restarted chunk holding a non-blank paragraph is not blank. */
  lemma RestartNotBlank(count: TokenCount, title: string, overlapTokens: int, chunks: seq<Meta>, para: string)
    requires !IsBlank(para)
    ensures !IsBlank(Restart(count, title, overlapTokens, chunks, para))
  {
    NotBlankAround(title + ParagraphBreak, para, ParagraphBreak);
    if chunks != [] && overlapTokens > 0 {
      var overlap := OverlapWords(count, SplitWords(chunks[|chunks| - 1].text.GetOr([])), overlapTokens);
      NotBlankAround(Join(" ", overlap) + ParagraphBreak, para, ParagraphBreak);
    }
  }

  /** After `n` paragraphs the loop has stored at most `n` chunks, and the last paragraph is pending. */
  lemma {:induction false} PackAllKeeps(count: TokenCount, fields: FaqFields, title: string, maxChunkTokens: int,
                                        overlapTokens: int, start: Packing, paras: seq<string>)
    requires PackingInv(fields, title, start) && start.chunks == []
    requires forall k | 0 <= k < |paras| :: !IsBlank(paras[k])
    ensures var st := PackAll(count, fields, title, maxChunkTokens, overlapTokens, start, paras);
      && PackingInv(fields, title, st)
      && |st.chunks| <= |paras|
      && (paras != [] ==> !IsBlank(st.current))
    decreases |paras|
  {
    if paras != [] {
      var n := |paras| - 1;
      PackAllKeeps(count, fields, title, maxChunkTokens, overlapTokens, start, paras[..n]);
      var st := PackAll(count, fields, title, maxChunkTokens, overlapTokens, start, paras[..n]);
      StepKeeps(count, fields, title, maxChunkTokens, overlapTokens, st, paras[n]);
    }
  }

  /** Chunk ids `{faq_id}_chunk_{k}` of distinct indices differ. */
  lemma ChunkIdInjective(faqId: string, j: nat, k: nat)
    requires ChunkId(faqId, j) == ChunkId(faqId, k)
    ensures j == k
  {
    var n := |faqId + ChunkIdInfix|;
    assert ChunkId(faqId, j)[n..] == NatToString(j);
    assert ChunkId(faqId, k)[n..] == NatToString(k);
    NatToStringInjective(j, k);
  }

  /** Numbered chunks have pairwise distinct ids. */
  lemma NumberedIdsDistinct(fields: FaqFields, title: string, chunks: seq<Meta>)
    requires Numbered(fields, title, chunks)
    ensures forall j, k | 0 <= j < k < |chunks| :: chunks[j].chunkId != chunks[k].chunkId
  {
    forall j, k | 0 <= j < k < |chunks| ensures chunks[j].chunkId != chunks[k].chunkId {
      if chunks[j].chunkId == chunks[k].chunkId {
        ChunkIdInjective(fields.faqId, j, k);
      }
    }
  }

  /**
   * Packing gives at least one chunk and at most one more than there are paragraphs,
   * numbered `{faq_id}_chunk_0`, `_1`, ... and carrying the FAQ's metadata. A text that
   * fits (or a body without paragraphs) gives the single chunk `title + "\n\n" + body`;
   * otherwise every chunk text is stripped and non-empty.
   */
  lemma ChunksOfSpec(count: TokenCount, fields: FaqFields, title: string, body: string, maxChunkTokens: int,
                     overlapTokens: int)
    ensures var fullText := title + ParagraphBreak + body;
      var single := count(fullText) <= maxChunkTokens || SplitParagraphs(body) == [];
      var r := ChunksOf(count, fields, title, body, maxChunkTokens, overlapTokens);
      && Numbered(fields, title, r)
      && 1 <= |r| <= |SplitParagraphs(body)| + 1
      && (single ==> r == [ChunkOf(fields, title, 0, fullText)])
      && (!single ==> StrippedTexts(r))
  {
    var fullText := title + ParagraphBreak + body;
    var paragraphs := SplitParagraphs(body);
    if count(fullText) > maxChunkTokens && paragraphs != [] {
      var head := title + ParagraphBreak;
      var start := Packing(head, count(head), 0, []);
      forall k | 0 <= k < |paragraphs| ensures !IsBlank(paragraphs[k]) {
        assert !IsSpace(paragraphs[k][0]);
      }
      PackAllKeeps(count, fields, title, maxChunkTokens, overlapTokens, start, paragraphs);
      var st := PackAll(count, fields, title, maxChunkTokens, overlapTokens, start, paragraphs);
      FlushKeeps(fields, title, st);
    }
  }

  /**
   * `create_chunks` returns one or two chunks: the cleaned body has no blank line left to
   * split at, so it is a single paragraph. Their metadata and numbering are as for
   * `ChunksOf`; a text that fits, or an empty body, gives the single chunk
   * `title + "\n\n" + body`.
   */
  lemma ChunksSpec(encoding: Option<Encoder>, html: HtmlParser, fields: FaqFields, maxChunkTokens: int,
                   overlapTokens: int)
    ensures var title := CleanText(fields.title, true, html);
      var body := CleanText(fields.body, true, html);
      var fullText := title + ParagraphBreak + body;
      var single := CountTokens(encoding, fullText) <= maxChunkTokens || body == [];
      var r := Chunks(encoding, html, fields, maxChunkTokens, overlapTokens);
      && Numbered(fields, title, r)
      && 1 <= |r| <= 2
      && (single ==> r == [ChunkOf(fields, title, 0, fullText)])
      && (!single ==> StrippedTexts(r))
  {
    var title := CleanText(fields.title, true, html);
    var body := CleanText(fields.body, true, html);
    CleanedBodyIsOneParagraph(fields.body, html);
    OneParagraphChunks(Counter(encoding), fields, title, body, maxChunkTokens, overlapTokens);
  }

  lemma OneParagraphChunks(count: TokenCount, fields: FaqFields, title: string, body: string, maxChunkTokens: int,
                           overlapTokens: int)
    requires SplitParagraphs(body) == if body == [] then [] else [body]
    ensures var fullText := title + ParagraphBreak + body;
      var single := count(fullText) <= maxChunkTokens || body == [];
      var r := ChunksOf(count, fields, title, body, maxChunkTokens, overlapTokens);
      && Numbered(fields, title, r)
      && 1 <= |r| <= 2
      && (single ==> r == [ChunkOf(fields, title, 0, fullText)])
      && (!single ==> StrippedTexts(r))
  {
    ChunksOfSpec(count, fields, title, body, maxChunkTokens, overlapTokens);
  }

  /** The chunks of distinct positions in `create_chunks`' result have distinct ids. */
  lemma ChunksIdsDistinct(encoding: Option<Encoder>, html: HtmlParser, fields: FaqFields, maxChunkTokens: int,
                          overlapTokens: int)
    ensures var r := Chunks(encoding, html, fields, maxChunkTokens, overlapTokens);
      forall j, k | 0 <= j < k < |r| :: r[j].chunkId != r[k].chunkId
  {
    ChunksSpec(encoding, html, fields, maxChunkTokens, overlapTokens);
    NumberedIdsDistinct(fields, CleanText(fields.title, true, html),
                        Chunks(encoding, html, fields, maxChunkTokens, overlapTokens));
  }

  /** The chunk text started after a flush, with the overlap taken from the last stored chunk. */
  method StartChunk(count: TokenCount, title: string, overlapTokens: int, chunks: seq<Meta>, para: string)
    returns (currentChunk: string)
    ensures currentChunk == Restart(count, title, overlapTokens, chunks, para)
  {
    if chunks != [] && overlapTokens > 0 {
      var words := SplitWords(chunks[|chunks| - 1].text.GetOr([]));
      var overlapWords := TakeOverlap(count, words, overlapTokens);
      if overlapWords != [] {
        currentChunk := Join(" ", overlapWords) + ParagraphBreak + para + ParagraphBreak;
      } else {
        currentChunk := title + ParagraphBreak + para + ParagraphBreak;
      }
    } else {
      currentChunk := title + ParagraphBreak + para + ParagraphBreak;
    }
  }

  /** The body of the paragraph loop of `create_chunks`. */
  method PackParagraph(count: TokenCount, fields: FaqFields, title: string, maxChunkTokens: int,
                       overlapTokens: int, currentChunk: string, currentTokens: int, chunkIdx: nat,
                       chunks: seq<Meta>, para: string)
    returns (currentChunk': string, currentTokens': int, chunkIdx': nat, chunks': seq<Meta>)
    ensures Packing(currentChunk', currentTokens', chunkIdx', chunks')
         == Step(count, fields, title, maxChunkTokens, overlapTokens,
                 Packing(currentChunk, currentTokens, chunkIdx, chunks), para)
  {
    currentChunk', currentTokens', chunkIdx', chunks' := currentChunk, currentTokens, chunkIdx, chunks;
    var paraTokens := count(para);
    if currentTokens' + paraTokens <= maxChunkTokens {
      currentChunk' := currentChunk' + para + ParagraphBreak;
      currentTokens' := currentTokens' + paraTokens;
    } else {
      if Strip(currentChunk') != [] {
        chunks' := chunks' + [ChunkOf(fields, title, chunkIdx', Strip(currentChunk'))];
        chunkIdx' := chunkIdx' + 1;
      }
      currentChunk' := StartChunk(count, title, overlapTokens, chunks', para);
      currentTokens' := count(currentChunk');
    }
  }

  /** The paragraph loop of `create_chunks`, from the title-only first chunk. */
  method PackParagraphs(count: TokenCount, fields: FaqFields, title: string, maxChunkTokens: int,
                        overlapTokens: int, paragraphs: seq<string>)
    returns (currentChunk: string, currentTokens: int, chunkIdx: nat, chunks: seq<Meta>)
    ensures Packing(currentChunk, currentTokens, chunkIdx, chunks)
         == PackAll(count, fields, title, maxChunkTokens, overlapTokens,
                    Packing(title + ParagraphBreak, count(title + ParagraphBreak), 0, []), paragraphs)
  {
    currentChunk := title + ParagraphBreak;
    currentTokens := count(currentChunk);
    chunkIdx := 0;
    chunks := [];
    ghost var start := Packing(currentChunk, currentTokens, 0, []);
    for i := 0 to |paragraphs|
      invariant Packing(currentChunk, currentTokens, chunkIdx, chunks)
             == PackAll(count, fields, title, maxChunkTokens, overlapTokens, start, paragraphs[..i])
    {
      currentChunk, currentTokens, chunkIdx, chunks :=
        PackParagraph(count, fields, title, maxChunkTokens, overlapTokens,
                      currentChunk, currentTokens, chunkIdx, chunks, paragraphs[i]);
      PrefixStep(paragraphs, i);
    }
    PrefixWhole(paragraphs);
  }

  /** `create_chunks` */
  method CreateChunks(encoding: Option<Encoder>, html: HtmlParser, fields: FaqFields, maxChunkTokens: int,
                      overlapTokens: int) returns (chunks: seq<Meta>)
    ensures chunks == Chunks(encoding, html, fields, maxChunkTokens, overlapTokens)
  {
    var count := Counter(encoding);
    var title := CleanText(fields.title, true, html);
    var body := CleanText(fields.body, true, html);
    chunks := [];
    var fullText := title + ParagraphBreak + body;
    var fullTokens := count(fullText);
    if fullTokens <= maxChunkTokens {
      chunks := chunks + [ChunkOf(fields, title, 0, fullText)];
      return;
    }
    var paragraphs := SplitParagraphs(body);
    if paragraphs == [] {
      chunks := chunks + [ChunkOf(fields, title, 0, fullText)];
      return;
    }
    var currentChunk, currentTokens, chunkIdx;
    currentChunk, currentTokens, chunkIdx, chunks :=
      PackParagraphs(count, fields, title, maxChunkTokens, overlapTokens, paragraphs);
    if Strip(currentChunk) != [] {
      chunks := chunks + [ChunkOf(fields, title, chunkIdx, Strip(currentChunk))];
    }
  }

  // ---------------------------------------------------------------- chunk_faq_items

  /** A record's fields with `.get` defaults: `""`, and `"both"` for the channel. */
  function FieldsOf(item: FaqRecord): FaqFields
  {
    FaqFields(Field(item, "faq_id", []), Field(item, "title", []), Field(item, "body", []),
              Field(item, "category", []), Field(item, "url", []), Field(item, "updated_at", []),
              Field(item, "channel", ChannelBoth))
  }

  function Field(item: FaqRecord, key: string, default: string): string
  {
    if key in item then item[key] else default
  }

  /** What `chunk_faq_items` returns: every record's chunks, in record order. */
  function AllChunks(encoding: Option<Encoder>, html: HtmlParser, items: seq<FaqRecord>, maxChunkTokens: int): seq<Meta>
    decreases |items|
  {
    if items == [] then []
    else
      var last := Chunks(encoding, html, FieldsOf(items[|items| - 1]), maxChunkTokens, DefaultOverlapTokens);
      AllChunks(encoding, html, items[..|items| - 1], maxChunkTokens) + last
  }

  /** `chunk_faq_items` */
  method ChunkFaqItems(encoding: Option<Encoder>, html: HtmlParser, items: seq<FaqRecord>, maxChunkTokens: int)
    returns (allChunks: seq<Meta>)
    ensures allChunks == AllChunks(encoding, html, items, maxChunkTokens)
  {
    allChunks := [];
    for i := 0 to |items|
      invariant allChunks == AllChunks(encoding, html, items[..i], maxChunkTokens)
    {
      var chunks := CreateChunks(encoding, html, FieldsOf(items[i]), maxChunkTokens, DefaultOverlapTokens);
      allChunks := allChunks + chunks;
      PrefixStep(items, i);
    }
    PrefixWhole(items);
  }

  /** One record's chunks: one or two, each with the record's `faq_id` and channel. */
  lemma RecordChunks(encoding: Option<Encoder>, html: HtmlParser, item: FaqRecord, maxChunkTokens: int)
    ensures var r := Chunks(encoding, html, FieldsOf(item), maxChunkTokens, DefaultOverlapTokens);
      && 1 <= |r| <= 2
      && forall k | 0 <= k < |r| ::
           r[k].faqId == Some(Field(item, "faq_id", [])) && r[k].channel == Text(Field(item, "channel", ChannelBoth))
  {
    ChunksSpec(encoding, html, FieldsOf(item), maxChunkTokens, DefaultOverlapTokens);
  }

  /** Every record yields one or two chunks. */
  lemma {:induction false} AllChunksLength(encoding: Option<Encoder>, html: HtmlParser, items: seq<FaqRecord>,
                                           maxChunkTokens: int)
    ensures |items| <= |AllChunks(encoding, html, items, maxChunkTokens)| <= 2 * |items|
    decreases |items|
  {
    if items != [] {
      var n := |items| - 1;
      AllChunksLength(encoding, html, items[..n], maxChunkTokens);
      RecordChunks(encoding, html, items[n], maxChunkTokens);
    }
  }
}
