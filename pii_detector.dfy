/**
 * Detection and masking of personal data in user input. The regular-expression engine
 * is a given function from a pattern and a text to the (start, end) spans of its
 * matches; the rewrite of the spans and the aggregation of warnings are modelled.
 */
module PiiDetector {
  import opened Common
  import opened Text

  const MaskChar: char := '*'

  datatype Span = Span(start: nat, end: nat)

  /** Ascending, non-overlapping spans inside a text of length `n`, as `re.finditer` yields them. */
  predicate ValidSpans(spans: seq<Span>, n: nat)
  {
    && (forall i | 0 <= i < |spans| :: spans[i].start <= spans[i].end <= n)
    && (forall i, j | 0 <= i < j < |spans| :: spans[i].end <= spans[j].start)
  }

  /** `re.finditer(pattern, text, re.IGNORECASE)`, as the spans of the matches. */
  type Finder = f: (string, string) -> seq<Span>
    | forall p, t :: ValidSpans(f(p, t), |t|)
    witness (p: string, t: string) => []

  // ---------------------------------------------------------------- one match

  function Stars(n: nat): (r: string)
    ensures |r| == n && forall i | 0 <= i < n :: r[i] == MaskChar
  {
    seq(n, i => MaskChar)
  }

  predicate IsSeparator(c: char)
  {
    c == ':' || c == '='
  }

  function FirstSeparator(m: string): (k: nat)
    ensures k <= |m|
    ensures k < |m| ==> IsSeparator(m[k])
    ensures forall j | 0 <= j < k :: !IsSeparator(m[j])
    decreases |m|
  {
    if m == [] then 0 else if IsSeparator(m[0]) then 0 else 1 + FirstSeparator(m[1..])
  }

  /** `re.split(r"[:=]", match_text, 1)` */
  function SplitAtFirstSeparator(m: string): (parts: seq<string>)
    ensures 1 <= |parts| <= 2
  {
    var k := FirstSeparator(m);
    if k == |m| then [m] else [m[..k], m[k + 1..]]
  }

  predicate HasSeparator(m: string)
  {
    ':' in m || '=' in m
  }

  /** The replacement for one matched text. */
  function MaskMatch(m: string): string
  {
    if HasSeparator(m) then
      var parts := SplitAtFirstSeparator(m);
      if |parts| == 2 then
        var prefix := parts[0] + (if ':' in m then ":" else "=");
        var value := Strip(parts[1]);
        prefix + " " + Stars(|value|)
      else Stars(|m|)
    else Stars(|m|)
  }

  /** A match with a separator always splits in two, so the whole-match fallback is only reached without one. */
  lemma SplitTwoPartsIffSeparator(m: string)
    ensures |SplitAtFirstSeparator(m)| == 2 <==> HasSeparator(m)
  {
    if HasSeparator(m) {
      SeparatorFound(m);
    }
  }

  /** The replacement of a match whose first separator is at `k`. */
  lemma MaskMatchAt(m: string, k: nat)
    requires k == FirstSeparator(m) < |m|
    ensures MaskMatch(m) == m[..k] + [if ':' in m then ':' else '='] + " " + Stars(|Strip(m[k + 1..])|)
  {
    assert HasSeparator(m) by {
      assert IsSeparator(m[k]);
    }
    assert SplitAtFirstSeparator(m) == [m[..k], m[k + 1..]];
  }

  /** A match without separator is replaced by mask characters only, one per character. */
  lemma MaskMatchWithoutSeparator(m: string)
    requires !HasSeparator(m)
    ensures |MaskMatch(m)| == |m|
    ensures forall j | 0 <= j < |m| :: MaskMatch(m)[j] == MaskChar
  {
  }

  /** Mask characters appended to a kept part. */
  lemma StarsAfter(pre: string, n: nat)
    ensures forall j | |pre| <= j < |pre + Stars(n)| :: (pre + Stars(n))[j] == MaskChar
  {
  }

  /**
   * With a separator: the text before the first `:`/`=` is kept, followed by `:` when the match
   * contains any `:` (otherwise `=`), a space, and one mask character per character of the
   * stripped value.
   */
  lemma MaskMatchWithSeparator(m: string)
    requires HasSeparator(m)
    ensures var r := MaskMatch(m); var k := FirstSeparator(m);
      && |r| == k + 2 + |Strip(m[k + 1..])|
      && r[..k] == m[..k]
      && r[k] == (if ':' in m then ':' else '=')
      && r[k + 1] == ' '
      && forall j | k + 2 <= j < |r| :: r[j] == MaskChar
  {
    var k := FirstSeparator(m);
    SeparatorFound(m);
    MaskMatchAt(m, k);
    var kept, c, n := m[..k], if ':' in m then ':' else '=', |Strip(m[k + 1..])|;
    assert MaskMatch(m) == kept + [c] + " " + Stars(n);
    SeparatedStars(kept, c, n);
  }

  /** A match holding `:` or `=` has a first separator. */
  lemma SeparatorFound(m: string)
    requires HasSeparator(m)
    ensures FirstSeparator(m) < |m|
  {
    var j :| 0 <= j < |m| && IsSeparator(m[j]);
    assert FirstSeparator(m) <= j;
  }

  /** The shape `kept + separator + " " + stars`. */
  lemma SeparatedStars(kept: string, c: char, n: nat)
    ensures var r := kept + [c] + " " + Stars(n);
      && |r| == |kept| + 2 + n && r[..|kept|] == kept && r[|kept|] == c && r[|kept| + 1] == ' '
      && forall j | |kept| + 2 <= j < |r| :: r[j] == MaskChar
  {
    var pre := kept + [c] + " ";
    assert pre[..|kept|] == kept;
    assert (pre + Stars(n))[..|kept|] == pre[..|kept|];
    StarsAfter(pre, n);
  }

  /**
   * The separator quirk: when the first separator is `=` but a `:` occurs later in the match,
   * the replacement writes `:` where the `=` was.
   */
  lemma SeparatorQuirk(m: string)
    requires FirstSeparator(m) < |m| && m[FirstSeparator(m)] == '='
    requires ':' in m
    ensures MaskMatch(m)[FirstSeparator(m)] == ':'
  {
    MaskMatchWithSeparator(m);
  }

  // ---------------------------------------------------------------- rewriting a text

  /**
   * The left-to-right reference: the text from position `from` on, every span replaced by
   * `replace` of its matched text and everything between spans copied.
   */
  function Rebuilt(t: string, spans: seq<Span>, from: nat, replace: string -> string): string
    requires ValidSpans(spans, |t|)
    requires from <= |t| && (spans != [] ==> from <= spans[0].start)
    decreases |spans|
  {
    if spans == [] then t[from..]
    else
      var s := spans[0];
      t[from..s.start] + replace(t[s.start..s.end]) + Rebuilt(t, spans[1..], s.end, replace)
  }

  /** `mask_text`'s result text. */
  function Masked(t: string, spans: seq<Span>): string
    requires ValidSpans(spans, |t|)
  {
    Rebuilt(t, spans, 0, MaskMatch)
  }

  lemma SuffixSpansValid(spans: seq<Span>, i: nat, n: nat)
    requires ValidSpans(spans, n) && i <= |spans|
    ensures ValidSpans(spans[i..], n)
  {
    var sfx := spans[i..];
    forall a, b | 0 <= a < b < |sfx| ensures sfx[a].end <= sfx[b].start {
      assert sfx[a] == spans[i + a] && sfx[b] == spans[i + b];
    }
  }

  /** A gap before the first span can be copied first. */
  lemma RebuiltShift(t: string, spans: seq<Span>, a: nat, b: nat, replace: string -> string)
    requires ValidSpans(spans, |t|)
    requires a <= b <= |t| && (spans != [] ==> b <= spans[0].start)
    ensures Rebuilt(t, spans, a, replace) == t[a..b] + Rebuilt(t, spans, b, replace)
  {
    if spans == [] {
      assert t[a..] == t[a..b] + t[b..];
    } else {
      var e := spans[0].start;
      var x := RebuiltAfterGap(t, spans, replace);
      RebuiltUnfold(t, spans, a, replace);
      RebuiltUnfold(t, spans, b, replace);
      GapSplit(t, a, b, e, x);
    }
  }

  lemma GapSplit(t: string, a: nat, b: nat, e: nat, x: string)
    requires a <= b <= e <= |t|
    ensures t[a..e] + x == t[a..b] + (t[b..e] + x)
  {
    assert t[a..e] == t[a..b] + t[b..e];
  }

  /** What follows the gap before the first span: its replacement and the rest. */
  function RebuiltAfterGap(t: string, spans: seq<Span>, replace: string -> string): string
    requires ValidSpans(spans, |t|) && spans != []
  {
    SuffixSpansValid(spans, 1, |t|);
    replace(t[spans[0].start..spans[0].end]) + Rebuilt(t, spans[1..], spans[0].end, replace)
  }

  lemma RebuiltUnfold(t: string, spans: seq<Span>, from: nat, replace: string -> string)
    requires ValidSpans(spans, |t|) && spans != []
    requires from <= spans[0].start
    ensures Rebuilt(t, spans, from, replace) == t[from..spans[0].start] + RebuiltAfterGap(t, spans, replace)
  {
  }

  /** Where the already rewritten part of the text starts when `i` matches remain. */
  function Frontier(n: nat, matches: seq<Span>, i: nat): nat
    requires i <= |matches|
  {
    if i < |matches| then matches[i].start else n
  }

  /** The loop invariant of `mask_text`: text up to the frontier untouched, the rest rewritten. */
  predicate RewriteInvariant(text: string, matches: seq<Span>, i: nat, replace: string -> string, masked: string)
    requires ValidSpans(matches, |text|) && i <= |matches|
  {
    SuffixSpansValid(matches, i, |text|);
    var p := Frontier(|text|, matches, i);
    p <= |text| && masked == text[..p] + Rebuilt(text, matches[i..], p, replace)
  }

  /** One iteration of the reversed loop keeps the invariant. */
  lemma RewriteStep(text: string, matches: seq<Span>, i: nat, replace: string -> string, masked: string)
    requires ValidSpans(matches, |text|) && 0 < i <= |matches|
    requires RewriteInvariant(text, matches, i, replace, masked)
    ensures var s := matches[i - 1];
      s.start <= s.end <= |masked| &&
      RewriteInvariant(text, matches, i - 1, replace,
        masked[..s.start] + replace(masked[s.start..s.end]) + masked[s.end..])
  {
    SuffixSpansValid(matches, i - 1, |text|);
    SuffixSpansValid(matches, i, |text|);
    var s := matches[i - 1];
    var a, b := s.start, s.end;
    var p := Frontier(|text|, matches, i);
    var rest := Rebuilt(text, matches[i..], p, replace);
    assert b <= p;
    ConcatSlices(text[..p], rest, a, b);
    PrefixSlices(text, p, a, b);
    var r := replace(text[a..b]);
    RebuiltShift(text, matches[i..], b, p, replace);
    var tail := matches[i - 1..];
    assert tail[0] == s && tail[1..] == matches[i..];
    RebuiltUnfold(text, tail, a, replace);
    assert RebuiltAfterGap(text, tail, replace) == r + (text[b..p] + rest);
    GapIsEmpty(text[..a], r, text[b..p] + rest, text[a..a]);
  }

  lemma GapIsEmpty(x: string, y: string, z: string, e: string)
    requires e == []
    ensures x + y + z == x + (e + (y + z))
  {
  }

  /** The loop of `mask_text` over the reversed matches, for any replacement. */
  method RewriteFromLast(text: string, matches: seq<Span>, replace: string -> string) returns (maskedText: string)
    requires ValidSpans(matches, |text|)
    ensures maskedText == Rebuilt(text, matches, 0, replace)
  {
    maskedText := text;
    var i := |matches|;
    assert text[..|text|] == text && text[|text|..] == [];
    while i > 0
      invariant 0 <= i <= |matches|
      invariant RewriteInvariant(text, matches, i, replace, maskedText)
    {
      RewriteStep(text, matches, i, replace, maskedText);
      var start := matches[i - 1].start;
      var end := matches[i - 1].end;
      var matchText := maskedText[start..end];
      maskedText := maskedText[..start] + replace(matchText) + maskedText[end..];
      i := i - 1;
    }
    assert matches[0..] == matches;
    if matches != [] {
      RebuiltShift(text, matches, 0, matches[0].start, replace);
    }
  }

  /** `mask_text`: the matches are rewritten from the last to the first. */
  method MaskText(text: string, pattern: string, finder: Finder) returns (maskedText: string, wasMasked: bool)
    ensures maskedText == Masked(text, finder(pattern, text))
    ensures wasMasked <==> |finder(pattern, text)| > 0
  {
    var matches := finder(pattern, text);
    maskedText := RewriteFromLast(text, matches, MaskMatch);
    wasMasked := |matches| > 0;
  }

  /** Where the gap before span `i` starts: at `from` for the first span, else where span `i - 1` ends. */
  function GapStart(spans: seq<Span>, from: nat, i: nat): nat
    requires i <= |spans|
  {
    if i == 0 then from else spans[i - 1].end
  }

  /** The rewritten text from `from` up to the end of span `i - 1`: gaps and replacements, no tail. */
  function RebuiltPieces(t: string, spans: seq<Span>, from: nat, replace: string -> string, i: nat): string
    requires ValidSpans(spans, |t|)
    requires from <= |t| && (spans != [] ==> from <= spans[0].start)
    requires i <= |spans|
    decreases i
  {
    if i == 0 then []
    else
      var s := spans[0];
      t[from..s.start] + replace(t[s.start..s.end]) + RebuiltPieces(t, spans[1..], s.end, replace, i - 1)
  }

  lemma SplitAtCons(x: string, y: string, z: string, w: string)
    ensures x + (y + z + w) == (x + y + z) + w
  {
  }

  lemma Regroup(x: string, y: string, z: string)
    ensures x + (y + z) == (x + y) + z
  {
  }

  /** The rebuilt text is the pieces of the first `i` spans followed by the rebuilt rest. */
  lemma {:induction false} RebuiltSplitAt(t: string, spans: seq<Span>, from: nat, replace: string -> string, i: nat)
    requires ValidSpans(spans, |t|)
    requires from <= |t| && (spans != [] ==> from <= spans[0].start)
    requires i <= |spans|
    ensures ValidSpans(spans[i..], |t|) && GapStart(spans, from, i) <= |t|
    ensures spans[i..] != [] ==> GapStart(spans, from, i) <= spans[i].start
    ensures Rebuilt(t, spans, from, replace)
         == RebuiltPieces(t, spans, from, replace, i) + Rebuilt(t, spans[i..], GapStart(spans, from, i), replace)
    decreases i
  {
    SuffixSpansValid(spans, i, |t|);
    if i == 0 {
      assert spans[0..] == spans;
    } else {
      var s := spans[0];
      var tail := spans[1..];
      SuffixSpansValid(spans, 1, |t|);
      RebuiltSplitAt(t, tail, s.end, replace, i - 1);
      assert tail[i - 1..] == spans[i..];
      var g := GapStart(spans, from, i);
      assert GapStart(tail, s.end, i - 1) == g;
      var head := t[from..s.start] + replace(t[s.start..s.end]);
      var p := RebuiltPieces(t, tail, s.end, replace, i - 1);
      var rest := Rebuilt(t, spans[i..], g, replace);
      assert Rebuilt(t, spans, from, replace) == head + (p + rest);
      assert RebuiltPieces(t, spans, from, replace, i) == head + p;
      Regroup(head, p, rest);
    }
  }

  /** The masked text around match `i`: the pieces before it, its gap, its replacement, the rest. */
  lemma MaskedAround(t: string, spans: seq<Span>, i: nat)
    requires ValidSpans(spans, |t|) && i < |spans|
    ensures Masked(t, spans) == RebuiltPieces(t, spans, 0, MaskMatch, i) + t[GapStart(spans, 0, i)..spans[i].start]
                                + MaskMatch(t[spans[i].start..spans[i].end]) + Rebuilt(t, spans[i + 1..], spans[i].end, MaskMatch)
  {
    RebuiltSplitAt(t, spans, 0, MaskMatch, i);
    var rest := spans[i..];
    var s := spans[i];
    var g := GapStart(spans, 0, i);
    assert rest[0] == s && rest[1..] == spans[i + 1..];
    var after := Rebuilt(t, spans[i + 1..], s.end, MaskMatch);
    assert Rebuilt(t, rest, g, MaskMatch) == t[g..s.start] + MaskMatch(t[s.start..s.end]) + after;
    SplitAtCons(RebuiltPieces(t, spans, 0, MaskMatch, i), t[g..s.start], MaskMatch(t[s.start..s.end]), after);
  }

  /**
   * Without matches the text is unchanged. Otherwise every gap is kept: the gap before
   * each match (the prefix for the first) is copied, followed by the replacement of the
   * match, and the text after the last match is copied as the tail.
   */
  lemma MaskedKeepsOutside(t: string, spans: seq<Span>)
    requires ValidSpans(spans, |t|)
    ensures spans == [] ==> Masked(t, spans) == t
    ensures spans != [] ==> t[..spans[0].start] <= Masked(t, spans)
    ensures forall i | 0 <= i < |spans| ::
      Masked(t, spans) == RebuiltPieces(t, spans, 0, MaskMatch, i) + t[GapStart(spans, 0, i)..spans[i].start]
                          + MaskMatch(t[spans[i].start..spans[i].end]) + Rebuilt(t, spans[i + 1..], spans[i].end, MaskMatch)
    ensures Masked(t, spans) == RebuiltPieces(t, spans, 0, MaskMatch, |spans|) + t[GapStart(spans, 0, |spans|)..]
  {
    if spans != [] {
      assert t[0..spans[0].start] == t[..spans[0].start];
    }
    forall i | 0 <= i < |spans|
      ensures Masked(t, spans) == RebuiltPieces(t, spans, 0, MaskMatch, i) + t[GapStart(spans, 0, i)..spans[i].start]
                                  + MaskMatch(t[spans[i].start..spans[i].end]) + Rebuilt(t, spans[i + 1..], spans[i].end, MaskMatch)
    {
      MaskedAround(t, spans, i);
    }
    RebuiltSplitAt(t, spans, 0, MaskMatch, |spans|);
    assert spans[|spans|..] == [];
  }

  /** Replacements that give back the matched text leave the text as it was. */
  lemma {:induction false} RebuiltFixedPoint(t: string, spans: seq<Span>, from: nat, replace: string -> string)
    requires ValidSpans(spans, |t|)
    requires from <= |t| && (spans != [] ==> from <= spans[0].start)
    requires forall i | 0 <= i < |spans| :: replace(t[spans[i].start..spans[i].end]) == t[spans[i].start..spans[i].end]
    ensures Rebuilt(t, spans, from, replace) == t[from..]
    decreases |spans|
  {
    if spans != [] {
      var s := spans[0];
      SuffixSpansValid(spans, 1, |t|);
      forall i | 0 <= i < |spans[1..]|
        ensures replace(t[spans[1..][i].start..spans[1..][i].end]) == t[spans[1..][i].start..spans[1..][i].end]
      {
        assert spans[1..][i] == spans[i + 1];
      }
      RebuiltFixedPoint(t, spans[1..], s.end, replace);
      assert t[from..s.start] + t[s.start..s.end] + t[s.end..] == t[from..];
    }
  }

  // ---------------------------------------------------------------- a password match

  predicate IsPasswordValueChar(c: char)
  {
    IsWordChar(c) || c in "!@#$%^&*()_+-=[]{};':\"\\|,.<>/?"
  }

  /** The parts of a match of `비밀번호\s*[:=]\s*[...]{6,}`: fieldName, blanks, separator, blanks, value. */
  predicate PasswordParts(fieldName: string, ws1: string, sep: char, ws2: string, value: string)
  {
    && fieldName == "비밀번호"
    && IsBlank(ws1)
    && IsSeparator(sep)
    && IsBlank(ws2)
    && |value| >= 6 && (forall i | 0 <= i < |value| :: IsPasswordValueChar(value[i]) && !IsSpace(value[i]))
  }

  lemma {:induction false} FirstSeparatorAfter(a: string, b: string)
    requires forall j | 0 <= j < |a| :: !IsSeparator(a[j])
    ensures FirstSeparator(a + b) == |a| + FirstSeparator(b)
    decreases |a|
  {
    if a != [] {
      assert (a + b)[1..] == a[1..] + b;
      FirstSeparatorAfter(a[1..], b);
    } else {
      assert a + b == b;
    }
  }

  lemma SpaceIsNotSeparator(c: char)
    requires IsSpace(c)
    ensures !IsSeparator(c)
  {
  }

  /** In a password match the first separator is the one after the field name. */
  lemma PasswordSeparatorPosition(fieldName: string, ws1: string, sep: char, tail: string)
    requires fieldName == "비밀번호" && IsBlank(ws1) && IsSeparator(sep)
    ensures FirstSeparator(fieldName + ws1 + [sep] + tail) == |fieldName + ws1|
  {
    var head := fieldName + ws1;
    forall j | 0 <= j < |head| ensures !IsSeparator(head[j]) {
      if j >= |fieldName| {
        SpaceIsNotSeparator(ws1[j - |fieldName|]);
      } else {
        assert head[j] == fieldName[j];
      }
    }
    assert head + [sep] + tail == head + ([sep] + tail);
    FirstSeparatorAfter(head, [sep] + tail);
  }

  /** The only `:` a password match can hold outside its value is its separator. */
  lemma PasswordColon(fieldName: string, ws1: string, sep: char, ws2: string, value: string)
    requires fieldName == "비밀번호" && IsBlank(ws1) && IsBlank(ws2)
    requires forall i | 0 <= i < |value| :: !IsSeparator(value[i])
    ensures ':' in fieldName + ws1 + [sep] + ws2 + value <==> sep == ':'
  {
    var m := fieldName + ws1 + [sep] + ws2 + value;
    var k := |fieldName + ws1|;
    assert m[k] == sep;
    forall j | 0 <= j < |m| && j != k ensures m[j] != ':' {
      if j < |fieldName| {
        assert m[j] == fieldName[j];
      } else if j < k {
        assert m[j] == ws1[j - |fieldName|];
        SpaceIsNotSeparator(ws1[j - |fieldName|]);
      } else if j < k + 1 + |ws2| {
        assert m[j] == ws2[j - k - 1];
        SpaceIsNotSeparator(ws2[j - k - 1]);
      } else {
        assert m[j] == value[j - k - 1 - |ws2|];
      }
    }
  }

  /**
   * Masks are not inert: masking a password match without `:`/`=` in its value gives another
   * password match (a run of at least six `*`), so scanning the masked text again raises the
   * password warning again.
   */
  lemma MaskedPasswordStillMatches(fieldName: string, ws1: string, sep: char, ws2: string, value: string)
    requires PasswordParts(fieldName, ws1, sep, ws2, value)
    requires forall i | 0 <= i < |value| :: !IsSeparator(value[i])
    ensures MaskMatch(fieldName + ws1 + [sep] + ws2 + value) == fieldName + ws1 + [sep] + " " + Stars(|value|)
    ensures PasswordParts(fieldName, ws1, sep, " ", Stars(|value|))
  {
    PasswordReplacement(fieldName, ws1, sep, ws2, value);
    assert IsPasswordValueChar(MaskChar) && !IsSpace(MaskChar);
  }

  /**
   * A masked password match is a fixed point of masking that still matches the password
   * pattern: masking a text whose matches are all masked password matches leaves it
   * unchanged while the password warning is raised again.
   */
  lemma MaskedPasswordFixedPoint(fieldName: string, ws1: string, sep: char, n: nat, t: string, spans: seq<Span>)
    requires fieldName == "비밀번호" && IsBlank(ws1) && IsSeparator(sep) && n >= 6
    requires ValidSpans(spans, |t|)
    requires forall i | 0 <= i < |spans| :: t[spans[i].start..spans[i].end] == fieldName + ws1 + [sep] + " " + Stars(n)
    ensures PasswordParts(fieldName, ws1, sep, " ", Stars(n))
    ensures MaskMatch(fieldName + ws1 + [sep] + " " + Stars(n)) == fieldName + ws1 + [sep] + " " + Stars(n)
    ensures Masked(t, spans) == t
  {
    MaskedPasswordMatchFixed(fieldName, ws1, sep, n);
    RebuiltFixedPoint(t, spans, 0, MaskMatch);
  }

  /** The one-match part of `MaskedPasswordFixedPoint`. */
  lemma MaskedPasswordMatchFixed(fieldName: string, ws1: string, sep: char, n: nat)
    requires fieldName == "비밀번호" && IsBlank(ws1) && IsSeparator(sep) && n >= 6
    ensures PasswordParts(fieldName, ws1, sep, " ", Stars(n))
    ensures MaskMatch(fieldName + ws1 + [sep] + " " + Stars(n)) == fieldName + ws1 + [sep] + " " + Stars(n)
  {
    StarsArePasswordValue(n);
    assert IsBlank(" ") by {
      assert IsSpace(' ');
    }
    MaskedPasswordStillMatches(fieldName, ws1, sep, " ", Stars(n));
  }

  lemma StarsArePasswordValue(n: nat)
    ensures forall i | 0 <= i < n :: IsPasswordValueChar(Stars(n)[i]) && !IsSpace(Stars(n)[i]) && !IsSeparator(Stars(n)[i])
  {
    assert IsPasswordValueChar(MaskChar) && !IsSpace(MaskChar) && !IsSeparator(MaskChar);
  }

  /** The replacement of a password match keeps the field name, the blanks and the separator. */
  lemma PasswordReplacement(fieldName: string, ws1: string, sep: char, ws2: string, value: string)
    requires fieldName == "비밀번호" && IsBlank(ws1) && IsSeparator(sep) && IsBlank(ws2)
    requires forall i | 0 <= i < |value| :: !IsSpace(value[i]) && !IsSeparator(value[i])
    ensures MaskMatch(fieldName + ws1 + [sep] + ws2 + value) == fieldName + ws1 + [sep] + " " + Stars(|value|)
  {
    var head := fieldName + ws1;
    var tail := ws2 + value;
    var m := fieldName + ws1 + [sep] + ws2 + value;
    var k := |head|;
    PasswordSeparatorPosition(fieldName, ws1, sep, tail);
    assert m == head + [sep] + tail;
    assert m[..k] == head && m[k + 1..] == tail;
    StripBlankPrefix(ws2, value);
    PasswordColon(fieldName, ws1, sep, ws2, value);
    MaskMatchAt(m, k);
  }

  /** Stripping blanks followed by a value without leading or trailing blanks gives the value. */
  lemma StripBlankPrefix(ws: string, value: string)
    requires IsBlank(ws)
    requires forall i | 0 <= i < |value| :: !IsSpace(value[i])
    ensures Strip(ws + value) == value
  {
    assert IsStripped(value);
    assert ws + value + [] == ws + value;
    StripAround(ws, value, []);
  }

  // ---------------------------------------------------------------- the table

  datatype PiiCategory = PiiCategory(name: string, patterns: seq<string>)

  const PasswordCategory: string := "password"
  const SecurityCardCategory: string := "security_card_full"
  const OtpCategory: string := "otp_full"
  const AccountCategory: string := "account_full"
  const CardNumberCategory: string := "card_number"
  const ResidentNumberCategory: string := "resident_number"
  const PhoneCategory: string := "phone_full"

  /** `PII_PATTERNS`, in its declaration order. */
  const PiiPatterns: seq<PiiCategory> := [
    PiiCategory(PasswordCategory, [
      @"비밀번호\s*[:=]\s*[\w!@#$%^&*()_+\-=\[\]{};':\""\\|,.<>\/?]{6,}",
      @"패스워드\s*[:=]\s*[\w!@#$%^&*()_+\-=\[\]{};':\""\\|,.<>\/?]{6,}"]),
    PiiCategory(SecurityCardCategory, [
      @"보안카드\s*(전체|번호|전체번호)\s*[:=]\s*[\d\s\-]{12,}",
      @"보안카드\s*[:=]\s*[\d\s\-]{12,}"]),
    PiiCategory(OtpCategory, [
      @"OTP\s*(전체|번호|전체번호)\s*[:=]\s*[\d]{6,}",
      @"일회용\s*비밀번호\s*(전체|번호)\s*[:=]\s*[\d]{6,}"]),
    PiiCategory(AccountCategory, [
      @"계좌번호\s*(전체|번호)\s*[:=]\s*[\d\s\-]{10,}",
      @"계좌\s*[:=]\s*[\d\s\-]{10,}"]),
    PiiCategory(CardNumberCategory, [
      @"카드번호\s*(전체|번호)\s*[:=]\s*[\d\s\-]{13,}",
      @"신용카드\s*(전체|번호)\s*[:=]\s*[\d\s\-]{13,}"]),
    PiiCategory(ResidentNumberCategory, [
      @"주민등록번호\s*[:=]\s*[\d]{6}\s*[-]?\s*[\d]{7}",
      @"주민번호\s*[:=]\s*[\d]{6}\s*[-]?\s*[\d]{7}"]),
    PiiCategory(PhoneCategory, [
      @"전화번호\s*(전체|번호)\s*[:=]\s*[\d\s\-]{10,}"])
  ]

  const GenericWarning: string := "민감한 정보는 입력하지 마세요."

  /** `_get_warning_message` */
  function WarningMessage(piiType: string): (msg: string)
    ensures (piiType !in {PasswordCategory, SecurityCardCategory, OtpCategory, AccountCategory,
                          CardNumberCategory, ResidentNumberCategory, PhoneCategory}) ==> msg == GenericWarning
  {
    if piiType == PasswordCategory then "비밀번호는 입력하지 마세요. 비밀번호 찾기 기능을 사용하세요."
    else if piiType == SecurityCardCategory then "보안카드 전체 번호는 입력하지 마세요. 화면에 표시된 좌표에 해당하는 번호만 입력하세요."
    else if piiType == OtpCategory then "OTP 전체 번호는 입력하지 마세요. OTP 앱에서 생성된 번호만 입력하세요."
    else if piiType == AccountCategory then "계좌번호 전체는 입력하지 마세요. 필요한 경우 마지막 4자리만 확인하세요."
    else if piiType == CardNumberCategory then "카드번호 전체는 입력하지 마세요."
    else if piiType == ResidentNumberCategory then "주민등록번호는 입력하지 마세요."
    else if piiType == PhoneCategory then "전화번호 전체는 입력하지 마세요."
    else GenericWarning
  }

  /** The warning of each category of a table, in table order. */
  function CategoryMessages(cats: seq<PiiCategory>): (r: seq<string>)
    ensures |r| == |cats|
    ensures forall i | 0 <= i < |cats| :: r[i] == WarningMessage(cats[i].name)
  {
    Map(cats, CategoryMessage)
  }

  function CategoryMessage(c: PiiCategory): string
  {
    WarningMessage(c.name)
  }

  /** A message's length, and for a short message also its first character. */
  function MessageKey(msg: string): (nat, char)
  {
    if 0 < |msg| <= 20 then (|msg|, msg[0]) else (|msg|, ' ')
  }

  /** The keys of the table's messages, in table order; no two are equal. */
  const MessageKeys: seq<(nat, char)> :=
    [(34, ' '), (49, ' '), (43, ' '), (41, ' '), (18, '카'), (17, '주'), (18, '전')]

  lemma CategoryMessageKeys()
    ensures MessageKey(WarningMessage(PasswordCategory)) == MessageKeys[0]
    ensures MessageKey(WarningMessage(SecurityCardCategory)) == MessageKeys[1]
    ensures MessageKey(WarningMessage(OtpCategory)) == MessageKeys[2]
    ensures MessageKey(WarningMessage(AccountCategory)) == MessageKeys[3]
    ensures MessageKey(WarningMessage(CardNumberCategory)) == MessageKeys[4]
    ensures MessageKey(WarningMessage(ResidentNumberCategory)) == MessageKeys[5]
    ensures MessageKey(WarningMessage(PhoneCategory)) == MessageKeys[6]
  {
    // The category names differ in their first character, except `password` and `phone_full`,
    // which differ in length.
    assert PasswordCategory[0] == 'p' && |PasswordCategory| == 8 && SecurityCardCategory[0] == 's';
    assert OtpCategory[0] == 'o' && AccountCategory[0] == 'a' && CardNumberCategory[0] == 'c';
    assert ResidentNumberCategory[0] == 'r' && PhoneCategory[0] == 'p' && |PhoneCategory| == 10;
  }

  lemma MessageKeyAt(i: nat)
    requires i < |PiiPatterns|
    ensures MessageKey(CategoryMessages(PiiPatterns)[i]) == MessageKeys[i]
    ensures MessageKeys[i] !in MessageKeys[i + 1..]
  {
    CategoryMessageKeys();
    var names := [PasswordCategory, SecurityCardCategory, OtpCategory, AccountCategory,
                  CardNumberCategory, ResidentNumberCategory, PhoneCategory];
    assert PiiPatterns[i].name == names[i];
  }

  /** Every category of the table has its own message, and none is the generic one. */
  lemma TableMessagesDistinct()
    ensures NoDup(CategoryMessages(PiiPatterns))
    ensures GenericWarning !in CategoryMessages(PiiPatterns)
  {
    var ms := CategoryMessages(PiiPatterns);
    forall i, j | 0 <= i < j < |ms| ensures ms[i] != ms[j] {
      MessageKeyAt(i);
      MessageKeyAt(j);
      assert MessageKeys[j] in MessageKeys[i + 1..];
    }
    assert MessageKey(GenericWarning) == (17, '민');
    forall i | 0 <= i < |ms| ensures ms[i] != GenericWarning {
      MessageKeyAt(i);
    }
  }

  // ---------------------------------------------------------------- detection

  /** The running text and the warnings collected so far. */
  datatype Detection = Detection(text: string, warnings: seq<string>)

  /** One `mask_text` call of the inner loop and its effect on the warnings. */
  function PatternStep(finder: Finder, d: Detection, piiType: string, pattern: string): Detection
  {
    var spans := finder(pattern, d.text);
    var msg := WarningMessage(piiType);
    Detection(Masked(d.text, spans), if |spans| > 0 && msg !in d.warnings then d.warnings + [msg] else d.warnings)
  }

  /** The inner loop after the given patterns of one category. */
  function RunPatterns(finder: Finder, d: Detection, piiType: string, patterns: seq<string>): Detection
  {
    if patterns == [] then d
    else PatternStep(finder, RunPatterns(finder, d, piiType, patterns[..|patterns| - 1]), piiType, patterns[|patterns| - 1])
  }

  /** The outer loop after the given categories. */
  function RunTable(finder: Finder, d: Detection, cats: seq<PiiCategory>): Detection
  {
    if cats == [] then d
    else
      var c := cats[|cats| - 1];
      RunPatterns(finder, RunTable(finder, d, cats[..|cats| - 1]), c.name, c.patterns)
  }

  /** One more category of the table is one more run of its patterns. */
  lemma RunTableStep(finder: Finder, d: Detection, cats: seq<PiiCategory>, c: nat)
    requires c < |cats|
    ensures RunTable(finder, d, cats[..c + 1]) == RunPatterns(finder, RunTable(finder, d, cats[..c]), cats[c].name, cats[c].patterns)
  {
    PrefixStep(cats, c);
  }

  /** The result of `detect_and_mask_pii`. */
  function Detect(finder: Finder, text: string): (d: Detection)
    ensures text == [] ==> d == Detection(text, [])
  {
    if text == [] then Detection(text, []) else RunTable(finder, Detection(text, []), PiiPatterns)
  }

  /** Whether some pattern of the category matched the running text it was applied to. */
  predicate SomePatternMatched(finder: Finder, d: Detection, piiType: string, patterns: seq<string>)
  {
    exists j | 0 <= j < |patterns| :: |finder(patterns[j], RunPatterns(finder, d, piiType, patterns[..j]).text)| > 0
  }

  /** Some pattern of a longer list matched iff one of the shorter list did or the last one did. */
  lemma SomePatternMatchedStep(finder: Finder, d: Detection, piiType: string, patterns: seq<string>)
    requires patterns != []
    ensures var n := |patterns| - 1; var prev := patterns[..n];
      SomePatternMatched(finder, d, piiType, patterns) <==>
        SomePatternMatched(finder, d, piiType, prev) ||
        |finder(patterns[n], RunPatterns(finder, d, piiType, prev).text)| > 0
  {
    var n := |patterns| - 1;
    var prev := patterns[..n];
    if SomePatternMatched(finder, d, piiType, patterns) && !SomePatternMatched(finder, d, piiType, prev) {
      var j :| 0 <= j < |patterns| && |finder(patterns[j], RunPatterns(finder, d, piiType, patterns[..j]).text)| > 0;
      if j < n {
        PrefixOfPrefix(patterns, n, j);
        assert false;
      }
    }
    if SomePatternMatched(finder, d, piiType, prev) {
      var j :| 0 <= j < |prev| && |finder(prev[j], RunPatterns(finder, d, piiType, prev[..j]).text)| > 0;
      PrefixOfPrefix(patterns, n, j);
      assert |finder(patterns[j], RunPatterns(finder, d, piiType, patterns[..j]).text)| > 0;
    }
  }

  /**
   * One category adds at most its own message, only if it is not there yet, and adds it
   * exactly when one of its patterns matched.
   */
  lemma {:induction false} RunPatternsWarnings(finder: Finder, d: Detection, piiType: string, patterns: seq<string>)
    ensures var r := RunPatterns(finder, d, piiType, patterns); var msg := WarningMessage(piiType);
      && (r.warnings == d.warnings || (msg !in d.warnings && r.warnings == d.warnings + [msg]))
      && (msg in r.warnings <==> msg in d.warnings || SomePatternMatched(finder, d, piiType, patterns))
    decreases |patterns|
  {
    if patterns != [] {
      RunPatternsWarnings(finder, d, piiType, patterns[..|patterns| - 1]);
      SomePatternMatchedStep(finder, d, piiType, patterns);
    }
  }

  /**
   * The warnings are duplicate-free and follow the order of the table: each category
   * contributes its message at most once, after those of earlier categories.
   */
  lemma {:induction false} RunTableWarnings(finder: Finder, text: string, cats: seq<PiiCategory>)
    ensures NoDup(RunTable(finder, Detection(text, []), cats).warnings)
    ensures IsSubseq(RunTable(finder, Detection(text, []), cats).warnings, CategoryMessages(cats))
  {
    if cats != [] {
      var n := |cats| - 1;
      var prev := cats[..n];
      RunTableWarnings(finder, text, prev);
      var before := RunTable(finder, Detection(text, []), prev);
      var c := cats[n];
      RunPatternsWarnings(finder, before, c.name, c.patterns);
      CategoryMessagesSnoc(cats);
      var after := RunTable(finder, Detection(text, []), cats);
      NoDupSubseqSnoc(before.warnings, after.warnings, CategoryMessages(prev), WarningMessage(c.name));
    }
  }

  lemma CategoryMessagesSnoc(cats: seq<PiiCategory>)
    requires cats != []
    ensures CategoryMessages(cats) == CategoryMessages(cats[..|cats| - 1]) + [WarningMessage(cats[|cats| - 1].name)]
  {
    MapSnoc(cats, CategoryMessage);
  }

  /** `detect_and_mask_pii`'s warnings: no duplicates, in table order, each a category's own message. */
  lemma DetectWarnings(finder: Finder, text: string)
    ensures NoDup(Detect(finder, text).warnings)
    ensures IsSubseq(Detect(finder, text).warnings, CategoryMessages(PiiPatterns))
    ensures forall w | w in Detect(finder, text).warnings :: w in CategoryMessages(PiiPatterns) && w != GenericWarning
  {
    if text != [] {
      RunTableWarnings(finder, text, PiiPatterns);
    }
    SubseqElements(Detect(finder, text).warnings, CategoryMessages(PiiPatterns));
    TableMessagesDistinct();
  }

  /** The inner loop of `detect_and_mask_pii`, over the patterns of one category. */
  method MaskCategory(maskedText0: string, warnings0: seq<string>, piiType: string, patterns: seq<string>, finder: Finder)
    returns (maskedText: string, warnings: seq<string>)
    ensures Detection(maskedText, warnings) == RunPatterns(finder, Detection(maskedText0, warnings0), piiType, patterns)
  {
    maskedText, warnings := maskedText0, warnings0;
    var p := 0;
    while p < |patterns|
      invariant 0 <= p <= |patterns|
      invariant Detection(maskedText, warnings) == RunPatterns(finder, Detection(maskedText0, warnings0), piiType, patterns[..p])
    {
      PrefixStep(patterns, p);
      var wasMasked;
      maskedText, wasMasked := MaskText(maskedText, patterns[p], finder);
      if wasMasked {
        var warningMsg := WarningMessage(piiType);
        if warningMsg !in warnings {
          warnings := warnings + [warningMsg];
        }
      }
      p := p + 1;
    }
    PrefixWhole(patterns);
  }

  /** `detect_and_mask_pii` */
  method DetectAndMaskPii(text: string, finder: Finder) returns (maskedText: string, warnings: seq<string>)
    ensures Detection(maskedText, warnings) == Detect(finder, text)
  {
    if text == [] {
      return text, [];
    }
    warnings := [];
    maskedText := text;
    var table := PiiPatterns;
    var c := 0;
    while c < |table|
      invariant 0 <= c <= |table|
      invariant Detection(maskedText, warnings) == RunTable(finder, Detection(text, []), table[..c])
    {
      RunTableStep(finder, Detection(text, []), table, c);
      maskedText, warnings := MaskCategory(maskedText, warnings, table[c].name, table[c].patterns, finder);
      c := c + 1;
    }
    PrefixWhole(table);
  }

  /** The warnings `check_pii_in_input` reports: the question's, then the context's, duplicates kept. */
  function InputWarnings(finder: Finder, question: string, userContext: Option<string>): seq<string>
  {
    Detect(finder, question).warnings
      + (if userContext.Some? && userContext.value != [] then Detect(finder, userContext.value).warnings else [])
  }

  /** `check_pii_in_input` */
  method CheckPiiInInput(question: string, userContext: Option<string>, finder: Finder)
    returns (hasPii: bool, warnings: seq<string>)
    ensures warnings == InputWarnings(finder, question, userContext)
    ensures hasPii <==> warnings != []
  {
    var _, warningsQ := DetectAndMaskPii(question, finder);
    warnings := warningsQ;
    if userContext.Some? && userContext.value != [] {
      var _, warningsC := DetectAndMaskPii(userContext.value, finder);
      warnings := warnings + warningsC;
    }
    hasPii := |warnings| > 0;
  }
}
