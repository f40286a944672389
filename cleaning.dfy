/**
 * Text cleaning for FAQ ingestion: HTML removal (an abstract HTML-to-text parser),
 * whitespace normalisation, removal of characters outside an allowed class, the
 * combined `clean_text` and the cleaning of one FAQ record.
 */
module Cleaning {
  import opened Common
  import opened Text

  /** `BeautifulSoup(text, 'html.parser').get_text()`, an external parser. */
  type HtmlParser = string -> string

  /** An FAQ record as loaded from JSON: field name to string value. */
  type FaqRecord = map<string, string>

  // ---------------------------------------------------------------- remove_html

  /** `remove_html`: empty text stays empty, anything else goes through the parser. */
  function RemoveHtml(text: string, html: HtmlParser): (r: string)
    ensures text == [] ==> r == []
    ensures text != [] ==> r == html(text)
  {
    if text == [] then [] else html(text)
  }

  // ---------------------------------------------------------------- normalize_whitespace

  /** `re.sub(r'\s+', ' ', s)`: every maximal whitespace run becomes one space. */
  function CollapseSpaces(s: string): (r: string)
    ensures s == [] <==> r == []
    ensures s != [] && !IsSpace(s[0]) ==> r[0] == s[0]
    decreases |s|
  {
    if s == [] then []
    else if IsSpace(s[0]) then [' '] + CollapseSpaces(s[RunLength(s, IsSpace)..])
    else [s[0]] + CollapseSpaces(s[1..])
  }

  /** `normalize_whitespace` */
  function NormalizeWhitespace(text: string): string
  {
    if text == [] then [] else Strip(CollapseSpaces(text))
  }

  /** Every whitespace character is a plain space and none is followed by another whitespace. */
  predicate SingleSpaced(s: string)
  {
    forall i | 0 <= i < |s| && IsSpace(s[i]) :: s[i] == ' ' && (i + 1 < |s| ==> !IsSpace(s[i + 1]))
  }

  /** The shape of normalised text: stripped and single-spaced. */
  predicate IsNormalized(s: string)
  {
    IsStripped(s) && SingleSpaced(s)
  }

  /** Normalised text holds no newline: its only whitespace is the plain space. */
  lemma NormalizedHasNoNewline(s: string)
    requires IsNormalized(s)
    ensures '\n' !in s
  {
    forall i | 0 <= i < |s| ensures s[i] != '\n' {
      if IsSpace(s[i]) {
        assert s[i] == ' ';
      }
    }
  }

  lemma {:induction false} CollapseSingleSpaced(s: string)
    ensures SingleSpaced(CollapseSpaces(s))
    decreases |s|
  {
    if s != [] {
      if IsSpace(s[0]) {
        var rest := s[RunLength(s, IsSpace)..];
        CollapseSingleSpaced(rest);
        var r := CollapseSpaces(s);
        assert r == [' '] + CollapseSpaces(rest);
        forall i | 0 <= i < |r| && IsSpace(r[i])
          ensures r[i] == ' ' && (i + 1 < |r| ==> !IsSpace(r[i + 1]))
        {
          if i > 0 {
            assert r[i] == CollapseSpaces(rest)[i - 1];
          }
        }
      } else {
        CollapseSingleSpaced(s[1..]);
        var r := CollapseSpaces(s);
        assert r == [s[0]] + CollapseSpaces(s[1..]);
        forall i | 0 <= i < |r| && IsSpace(r[i])
          ensures r[i] == ' ' && (i + 1 < |r| ==> !IsSpace(r[i + 1]))
        {
          assert i > 0;
          assert r[i] == CollapseSpaces(s[1..])[i - 1];
        }
      }
    }
  }

  lemma SingleSpacedSlice(s: string, a: nat, b: nat)
    requires a <= b <= |s|
    requires SingleSpaced(s)
    ensures SingleSpaced(s[a..b])
  {
    var t := s[a..b];
    forall i | 0 <= i < |t| && IsSpace(t[i])
      ensures t[i] == ' ' && (i + 1 < |t| ==> !IsSpace(t[i + 1]))
    {
      assert t[i] == s[a + i];
      if i + 1 < |t| {
        assert t[i + 1] == s[a + i + 1];
      }
    }
  }

  /** Normalised text is stripped and has only single plain spaces. */
  lemma NormalizeShape(text: string)
    ensures IsNormalized(NormalizeWhitespace(text))
  {
    if text != [] {
      var c := CollapseSpaces(text);
      CollapseSingleSpaced(text);
      StripSpec(c);
      var a, b :| 0 <= a <= b <= |c| && Strip(c) == c[a..b];
      SingleSpacedSlice(c, a, b);
    }
  }

  lemma KeepBlank(s: string)
    requires IsBlank(s)
    ensures Keep(s, IsNotSpace) == []
  {
  }

  lemma {:induction false} CollapseKeepsNonSpace(s: string)
    ensures Keep(CollapseSpaces(s), IsNotSpace) == Keep(s, IsNotSpace)
    decreases |s|
  {
    if s != [] {
      if IsSpace(s[0]) {
        var n := RunLength(s, IsSpace);
        var rest := s[n..];
        CollapseKeepsNonSpace(rest);
        assert s == s[..n] + rest;
        KeepAppend(s[..n], rest, IsNotSpace);
        KeepBlank(s[..n]);
        assert CollapseSpaces(s) == [' '] + CollapseSpaces(rest);
        KeepAppend([' '], CollapseSpaces(rest), IsNotSpace);
      } else {
        CollapseKeepsNonSpace(s[1..]);
        assert CollapseSpaces(s) == [s[0]] + CollapseSpaces(s[1..]);
        KeepAppend([s[0]], CollapseSpaces(s[1..]), IsNotSpace);
      }
    }
  }

  lemma StripKeepsNonSpace(s: string)
    ensures Keep(Strip(s), IsNotSpace) == Keep(s, IsNotSpace)
  {
    LStripKeepsNonSpace(s);
    RStripKeepsNonSpace(LStrip(s));
  }

  lemma LStripKeepsNonSpace(s: string)
    ensures Keep(LStrip(s), IsNotSpace) == Keep(s, IsNotSpace)
  {
    var l := LStrip(s);
    var n := |s| - |l|;
    assert s == s[..n] + l;
    KeepAppend(s[..n], l, IsNotSpace);
    KeepBlank(s[..n]);
  }

  lemma RStripKeepsNonSpace(l: string)
    ensures Keep(RStrip(l), IsNotSpace) == Keep(l, IsNotSpace)
  {
    var r := RStrip(l);
    assert l == r + l[|r|..];
    KeepAppend(r, l[|r|..], IsNotSpace);
    KeepBlank(l[|r|..]);
  }

  /** Normalisation changes whitespace only: the non-whitespace characters are kept, in order. */
  lemma NormalizeKeepsNonSpace(text: string)
    ensures Keep(NormalizeWhitespace(text), IsNotSpace) == Keep(text, IsNotSpace)
  {
    if text != [] {
      CollapseKeepsNonSpace(text);
      StripKeepsNonSpace(CollapseSpaces(text));
    }
  }

  lemma {:induction false} CollapseOfSingleSpaced(s: string)
    requires SingleSpaced(s)
    ensures CollapseSpaces(s) == s
    decreases |s|
  {
    if s != [] {
      SingleSpacedSlice(s, 1, |s|);
      CollapseOfSingleSpaced(s[1..]);
      if IsSpace(s[0]) {
        assert RunLength(s, IsSpace) == 1;
      }
      assert s == [s[0]] + s[1..];
    }
  }

  /** Normalised text is left as it is by a second normalisation. */
  lemma NormalizeFixes(s: string)
    requires IsNormalized(s)
    ensures NormalizeWhitespace(s) == s
  {
    if s != [] {
      CollapseOfSingleSpaced(s);
      StripOfStripped(s);
    }
  }

  /** `normalize_whitespace` is idempotent. */
  lemma NormalizeIdempotent(text: string)
    ensures NormalizeWhitespace(NormalizeWhitespace(text)) == NormalizeWhitespace(text)
  {
    NormalizeShape(text);
    NormalizeFixes(NormalizeWhitespace(text));
  }

  /** Normalisation empties exactly the blank strings. */
  lemma NormalizeEmptyIffBlank(text: string)
    ensures NormalizeWhitespace(text) == [] <==> IsBlank(text)
  {
    NormalizeKeepsNonSpace(text);
    BlankIffNoNonSpace(text);
    var n := NormalizeWhitespace(text);
    BlankIffNoNonSpace(n);
    NormalizeShape(text);
    if n != [] {
      assert !IsSpace(n[0]);
    }
  }

  lemma {:induction false} BlankIffNoNonSpace(s: string)
    ensures IsBlank(s) <==> Keep(s, IsNotSpace) == []
    decreases |s|
  {
    if s != [] {
      BlankIffNoNonSpace(s[1..]);
      assert IsBlank(s) <==> IsSpace(s[0]) && IsBlank(s[1..]);
    }
  }

  lemma {:induction false} CollapseChars(s: string)
    ensures forall i | 0 <= i < |CollapseSpaces(s)| :: CollapseSpaces(s)[i] == ' ' || CollapseSpaces(s)[i] in s
    decreases |s|
  {
    if s != [] {
      var rest := if IsSpace(s[0]) then s[RunLength(s, IsSpace)..] else s[1..];
      CollapseChars(rest);
      var r := CollapseSpaces(s);
      forall i | 0 <= i < |r| ensures r[i] == ' ' || r[i] in s {
        if i > 0 {
          assert r[i] == CollapseSpaces(rest)[i - 1];
          assert forall c | c in rest :: c in s;
        }
      }
    }
  }

  /** Every character of normalised text is a space or a character of the input. */
  lemma NormalizeChars(text: string)
    ensures forall c | c in NormalizeWhitespace(text) :: c == ' ' || c in text
  {
    if text != [] {
      var c := CollapseSpaces(text);
      CollapseChars(text);
      StripChars(c);
      forall x | x in Strip(c) ensures x == ' ' || x in text {
        var i :| 0 <= i < |c| && c[i] == x;
      }
    }
  }

  /** Stripping only removes characters. */
  lemma StripChars(s: string)
    ensures forall x | x in Strip(s) :: x in s
  {
    var l := LStrip(s);
    var r := RStrip(l);
    forall x | x in r ensures x in s {
      var i :| 0 <= i < |r| && r[i] == x;
      assert r[i] == l[i];
      assert l[i] == s[|s| - |l| + i];
    }
  }

  // ---------------------------------------------------------------- remove_special_chars

  /** The punctuation `remove_special_chars` keeps. */
  predicate IsKeptPunctuation(c: char)
  {
    c in ".,!?;:()[]{}\"'-"
  }

  /** The complement of the removed class `[^\w\s가-힣.,!?;:()\[\]{}"\'-]`. */
  predicate IsAllowedChar(c: char)
  {
    IsWordChar(c) || IsSpace(c) || IsHangulSyllable(c) || IsKeptPunctuation(c)
  }

  /**
   * `remove_special_chars`: both settings of `keep_newlines` use the same pattern, and
   * newlines belong to `\s`, so the flag does not change the result.
   */
  function RemoveSpecialChars(text: string, keepNewlines: bool): string
  {
    if text == [] then [] else Keep(text, IsAllowedChar)
  }

  lemma {:induction false} KeepSubseq(s: string, p: char -> bool)
    ensures IsSubseq(Keep(s, p), s)
    decreases |s|
  {
    if s != [] {
      KeepSubseq(s[1..], p);
    }
  }

  /**
   * The result consists of allowed characters only, is obtained by deleting characters
   * from the input, and the flag makes no difference.
   */
  lemma RemoveSpecialCharsSpec(text: string, keepNewlines: bool)
    ensures var r := RemoveSpecialChars(text, keepNewlines);
      && (forall i | 0 <= i < |r| :: IsAllowedChar(r[i]))
      && IsSubseq(r, text)
      && r == RemoveSpecialChars(text, !keepNewlines)
  {
    KeepSubseq(text, IsAllowedChar);
  }

  lemma {:induction false} KeepIdentity(s: string, p: char -> bool)
    ensures Keep(s, p) == s <==> forall i | 0 <= i < |s| :: p(s[i])
    decreases |s|
  {
    if s != [] {
      KeepIdentity(s[1..], p);
      if forall i | 0 <= i < |s| :: p(s[i]) {
        assert forall i | 0 <= i < |s[1..]| :: p(s[1..][i]);
        assert s == [s[0]] + s[1..];
      }
    }
  }

  /** Text is left unchanged exactly when it holds no removable character. */
  lemma RemoveSpecialCharsFixes(text: string, keepNewlines: bool)
    ensures RemoveSpecialChars(text, keepNewlines) == text <==> forall i | 0 <= i < |text| :: IsAllowedChar(text[i])
  {
    KeepIdentity(text, IsAllowedChar);
  }

  /** Removing special characters twice is removing them once. */
  lemma RemoveSpecialCharsIdempotent(text: string, keepNewlines: bool)
    ensures RemoveSpecialChars(RemoveSpecialChars(text, keepNewlines), keepNewlines) == RemoveSpecialChars(text, keepNewlines)
  {
    var r := RemoveSpecialChars(text, keepNewlines);
    KeepIdentity(r, IsAllowedChar);
  }

  // ---------------------------------------------------------------- clean_text

  /** `clean_text`: optional HTML removal, then normalise, drop special characters, normalise. */
  function CleanText(text: string, removeHtmlTags: bool, html: HtmlParser): string
  {
    if text == [] then []
    else
      var t := if removeHtmlTags then RemoveHtml(text, html) else text;
      NormalizeWhitespace(RemoveSpecialChars(NormalizeWhitespace(t), false))
  }

  /**
   * Cleaned text is normalised (stripped, single plain spaces), holds only allowed
   * characters, and cleaning it again without HTML removal changes nothing.
   */
  lemma CleanTextSpec(text: string, removeHtmlTags: bool, html: HtmlParser)
    ensures var r := CleanText(text, removeHtmlTags, html);
      && (text == [] ==> r == [])
      && IsNormalized(r)
      && (forall i | 0 <= i < |r| :: IsAllowedChar(r[i]))
      && CleanText(r, false, html) == r
  {
    var r := CleanText(text, removeHtmlTags, html);
    if text != [] {
      var t := if removeHtmlTags then RemoveHtml(text, html) else text;
      var k := RemoveSpecialChars(NormalizeWhitespace(t), false);
      NormalizeShape(k);
      NormalizeChars(k);
      forall i | 0 <= i < |k| ensures IsAllowedChar(k[i]) {
      }
      forall i | 0 <= i < |r| ensures IsAllowedChar(r[i]) {
        assert r[i] in r;
      }
      if r != [] {
        NormalizeFixes(r);
        KeepIdentity(r, IsAllowedChar);
        NormalizeFixes(r);
      }
    }
  }

  // ---------------------------------------------------------------- clean_faq_item

  /** `clean_faq_item`: a copy with `title` and `body` cleaned where present. */
  function CleanFaqItem(item: FaqRecord, html: HtmlParser): FaqRecord
  {
    var titled := if "title" in item then item["title" := CleanText(item["title"], true, html)] else item;
    if "body" in titled then titled["body" := CleanText(titled["body"], true, html)] else titled
  }

  /** The keys are unchanged, `title` and `body` are cleaned, every other field is copied. */
  lemma CleanFaqItemSpec(item: FaqRecord, html: HtmlParser)
    ensures var r := CleanFaqItem(item, html);
      && r.Keys == item.Keys
      && ("title" in item ==> r["title"] == CleanText(item["title"], true, html))
      && ("body" in item ==> r["body"] == CleanText(item["body"], true, html))
      && (forall k | k in item && k != "title" && k != "body" :: r[k] == item[k])
  {
  }
}
