/**
 * Character classes and the Python `str` operations the pipeline relies on:
 * `isspace`, `\w`, `lower`, `strip`, `split()`, `split(sep)`, `join`,
 * `startswith`/`endswith`, substring tests and `re.findall` of a character class.
 */
module Text {
  import opened Common

  /** Python `str.isspace` (and the regex class `\s`) for one character. */
  predicate IsSpace(c: char)
  {
    c == ' ' || '\t' <= c <= '\r' || '\U{1c}' <= c <= '\U{1f}' || c == '\U{85}' || c == '\U{a0}'
    || c == '\U{1680}' || '\U{2000}' <= c <= '\U{200a}' || c == '\U{2028}' || c == '\U{2029}'
    || c == '\U{202f}' || c == '\U{205f}' || c == '\U{3000}'
  }

  predicate IsNotSpace(c: char)
  {
    !IsSpace(c)
  }

  /** Hangul syllables, the class `가-힣`. */
  predicate IsHangulSyllable(c: char)
  {
    '가' <= c <= '힣'
  }

  /** The regex class `\w`: ASCII letters, digits, `_` and the Hangul blocks. */
  predicate IsWordChar(c: char)
  {
    'a' <= c <= 'z' || 'A' <= c <= 'Z' || '0' <= c <= '9' || c == '_'
    || IsHangulSyllable(c) || '\U{1100}' <= c <= '\U{11ff}' || '\U{3131}' <= c <= '\U{318e}'
  }

  predicate IsDigit(c: char)
  {
    '0' <= c <= '9'
  }

  function LowerChar(c: char): char
  {
    if 'A' <= c <= 'Z' then (c as int + 32) as char else c
  }

  /** `str.lower()` */
  function Lower(s: string): (r: string)
    ensures |r| == |s|
    ensures forall i | 0 <= i < |s| :: r[i] == LowerChar(s[i])
  {
    seq(|s|, i requires 0 <= i < |s| => LowerChar(s[i]))
  }

  /** The characters of `s` that satisfy `p`, in order. */
  function Keep(s: string, p: char -> bool): (r: string)
    ensures |r| <= |s|
    ensures forall i | 0 <= i < |r| :: p(r[i])
    decreases |s|
  {
    if s == [] then []
    else if p(s[0]) then [s[0]] + Keep(s[1..], p)
    else Keep(s[1..], p)
  }

  lemma {:induction false} KeepAppend(a: string, b: string, p: char -> bool)
    ensures Keep(a + b, p) == Keep(a, p) + Keep(b, p)
    decreases |a|
  {
    if a != [] {
      assert (a + b)[1..] == a[1..] + b;
      KeepAppend(a[1..], b, p);
    } else {
      assert a + b == b;
    }
  }

  // ---------------------------------------------------------------- strip

  function LStrip(s: string): (r: string)
    ensures r <= s || (|r| <= |s| && r == s[|s| - |r|..])
    ensures r == s[|s| - |r|..]
    ensures r != [] ==> !IsSpace(r[0])
    ensures forall i | 0 <= i < |s| - |r| :: IsSpace(s[i])
    decreases |s|
  {
    if s != [] && IsSpace(s[0]) then LStrip(s[1..]) else s
  }

  function RStrip(s: string): (r: string)
    ensures r <= s
    ensures r != [] ==> !IsSpace(r[|r| - 1])
    ensures forall i | |r| <= i < |s| :: IsSpace(s[i])
    decreases |s|
  {
    if s != [] && IsSpace(s[|s| - 1]) then RStrip(s[..|s| - 1]) else s
  }

  /** `str.strip()`: drop leading and trailing whitespace. */
  function Strip(s: string): (r: string)
  {
    RStrip(LStrip(s))
  }

  /** `s` has no leading and no trailing whitespace. */
  predicate IsStripped(s: string)
  {
    s == [] || (!IsSpace(s[0]) && !IsSpace(s[|s| - 1]))
  }

  /** Every character of `s` is whitespace (`not s.strip()`). */
  predicate IsBlank(s: string)
  {
    forall i | 0 <= i < |s| :: IsSpace(s[i])
  }

  /** Strip removes exactly a whitespace prefix and a whitespace suffix. */
  lemma StripSpec(s: string)
    ensures IsStripped(Strip(s))
    ensures exists a, b :: 0 <= a <= b <= |s| && Strip(s) == s[a..b]
                          && (forall i | 0 <= i < a :: IsSpace(s[i]))
                          && (forall i | b <= i < |s| :: IsSpace(s[i]))
  {
    var l := LStrip(s);
    var r := RStrip(l);
    var a := |s| - |l|;
    assert l == s[a..];
    assert r == s[a..a + |r|];
    assert forall i | a + |r| <= i < |s| :: IsSpace(s[i]) by {
      forall i | a + |r| <= i < |s| ensures IsSpace(s[i]) {
        assert s[i] == l[i - a];
      }
    }
    if r != [] {
      assert r[0] == l[0];
    }
  }

  lemma StripIsStripped(s: string)
    ensures IsStripped(Strip(s))
  {
    StripSpec(s);
  }

  lemma StripOfStripped(s: string)
    requires IsStripped(s)
    ensures Strip(s) == s
  {
  }

  /** `strip` is idempotent. */
  lemma StripIdempotent(s: string)
    ensures Strip(Strip(s)) == Strip(s)
  {
    StripSpec(s);
    StripOfStripped(Strip(s));
  }

  /** `s.strip()` is empty exactly when `s` is blank. */
  lemma {:induction false} StripEmptyIffBlank(s: string)
    ensures Strip(s) == [] <==> IsBlank(s)
  {
    StripSpec(s);
  }

  lemma {:induction false} LStripBlankPrefix(ws: string, rest: string)
    requires IsBlank(ws)
    requires rest == [] || !IsSpace(rest[0])
    ensures LStrip(ws + rest) == rest
    decreases |ws|
  {
    if ws == [] {
      assert ws + rest == rest;
    } else {
      assert (ws + rest)[1..] == ws[1..] + rest;
      LStripBlankPrefix(ws[1..], rest);
    }
  }

  lemma {:induction false} RStripBlankSuffix(rest: string, ws: string)
    requires IsBlank(ws)
    requires rest == [] || !IsSpace(rest[|rest| - 1])
    ensures RStrip(rest + ws) == rest
    decreases |ws|
  {
    if ws == [] {
      assert rest + ws == rest;
    } else {
      var n := |ws| - 1;
      assert (rest + ws)[..|rest + ws| - 1] == rest + ws[..n];
      RStripBlankSuffix(rest, ws[..n]);
    }
  }

  /** Stripping whitespace around a stripped core gives the core. */
  lemma StripAround(ws1: string, core: string, ws2: string)
    requires IsBlank(ws1) && IsBlank(ws2) && IsStripped(core)
    ensures Strip(ws1 + core + ws2) == core
  {
    if core == [] {
      assert ws1 + core + ws2 == ws1 + ws2;
      assert IsBlank(ws1 + ws2);
      StripEmptyIffBlank(ws1 + ws2);
    } else {
      assert ws1 + core + ws2 == ws1 + (core + ws2);
      LStripBlankPrefix(ws1, core + ws2);
      RStripBlankSuffix(core, ws2);
    }
  }

  // ---------------------------------------------------------------- runs

  /** Length of the longest prefix of `s` whose characters satisfy `p`. */
  function RunLength(s: string, p: char -> bool): (n: nat)
    ensures n <= |s|
    ensures forall i | 0 <= i < n :: p(s[i])
    ensures n < |s| ==> !p(s[n])
    decreases |s|
  {
    if s == [] || !p(s[0]) then 0 else 1 + RunLength(s[1..], p)
  }

  /**
   * The maximal runs of characters satisfying `p`, left to right:
   * `re.findall('[class]+', s)`, and `s.split()` for the non-space class.
   */
  function Runs(s: string, p: char -> bool): (r: seq<string>)
    ensures forall k | 0 <= k < |r| :: r[k] != [] && forall i | 0 <= i < |r[k]| :: p(r[k][i])
    decreases |s|
  {
    if s == [] then []
    else if !p(s[0]) then Runs(s[1..], p)
    else
      var n := RunLength(s, p);
      [s[..n]] + Runs(s[n..], p)
  }

  lemma {:induction false} RunLengthAppend(a: string, b: string, p: char -> bool)
    requires RunLength(a, p) < |a|
    ensures RunLength(a + b, p) == RunLength(a, p)
    decreases |a|
  {
    if a[0] != (a + b)[0] {
    } else if p(a[0]) {
      assert (a + b)[1..] == a[1..] + b;
      RunLengthAppend(a[1..], b, p);
    }
  }

  lemma {:induction false} RunLengthFull(a: string, b: string, p: char -> bool)
    requires RunLength(a, p) == |a|
    requires b == [] || !p(b[0])
    ensures RunLength(a + b, p) == |a|
    decreases |a|
  {
    if a == [] {
      assert a + b == b;
    } else {
      assert (a + b)[1..] == a[1..] + b;
      RunLengthFull(a[1..], b, p);
    }
  }

  /** A separator character splits the runs: the runs of `a` come first, then those of `b`. */
  lemma {:induction false} RunsSplit(a: string, c: char, b: string, p: char -> bool)
    requires !p(c)
    ensures Runs(a + [c] + b, p) == Runs(a, p) + Runs(b, p)
    decreases |a|
  {
    var s := a + [c] + b;
    if a == [] {
      assert s == [c] + b;
      assert s[1..] == b;
    } else if !p(a[0]) {
      assert s[1..] == a[1..] + [c] + b;
      RunsSplit(a[1..], c, b, p);
    } else {
      var m := RunLength(a, p);
      if m < |a| {
        RunLengthAppend(a, [c] + b, p);
        assert a + ([c] + b) == s;
        assert s[..m] == a[..m];
        assert s[m..] == a[m..] + [c] + b;
        RunsSplit(a[m..], c, b, p);
      } else {
        RunLengthFull(a, [c] + b, p);
        assert a + ([c] + b) == s;
        assert s[..m] == a;
        assert s[m..] == [c] + b;
        assert s[m..][1..] == b;
        assert Runs([c] + b, p) == Runs(b, p);
        assert a[..m] == a && a[m..] == [];
        assert Runs(a, p) == [a];
      }
    }
  }

  /** A non-empty string made only of class characters is a single run. */
  lemma {:induction false} RunsWhole(s: string, p: char -> bool)
    requires s != []
    requires forall i | 0 <= i < |s| :: p(s[i])
    ensures Runs(s, p) == [s]
  {
    var n := RunLength(s, p);
    assert n == |s|;
    assert s[..n] == s && s[n..] == [];
    assert Runs(s[n..], p) == [];
  }

  /** The runs, glued together, are exactly the class characters of `s`. */
  lemma {:induction false} RunsFlatten(s: string, p: char -> bool)
    ensures Flatten(Runs(s, p)) == Keep(s, p)
    decreases |s|
  {
    if s == [] {
    } else if !p(s[0]) {
      RunsFlatten(s[1..], p);
    } else {
      var n := RunLength(s, p);
      RunsFlatten(s[n..], p);
      assert s == s[..n] + s[n..];
      KeepAppend(s[..n], s[n..], p);
      KeepAll(s[..n], p);
      assert [s[..n]] + Runs(s[n..], p) == Runs(s, p);
      assert Flatten([s[..n]] + Runs(s[n..], p)) == s[..n] + Flatten(Runs(s[n..], p));
    }
  }

  lemma {:induction false} KeepAll(s: string, p: char -> bool)
    requires forall i | 0 <= i < |s| :: p(s[i])
    ensures Keep(s, p) == s
    decreases |s|
  {
    if s != [] {
      KeepAll(s[1..], p);
    }
  }

  /** `str.split()` with no argument: the maximal runs of non-whitespace. */
  function SplitWords(s: string): (r: seq<string>)
    ensures forall k | 0 <= k < |r| :: r[k] != [] && forall i | 0 <= i < |r[k]| :: !IsSpace(r[k][i])
  {
    Runs(s, IsNotSpace)
  }

  /** Words joined by single spaces split back into the same words. */
  lemma {:induction false} SplitWordsOfJoin(ws: seq<string>)
    requires forall k | 0 <= k < |ws| :: ws[k] != [] && forall i | 0 <= i < |ws[k]| :: !IsSpace(ws[k][i])
    ensures SplitWords(Join(" ", ws)) == ws
    decreases |ws|
  {
    if |ws| == 1 {
      RunsWhole(ws[0], IsNotSpace);
      assert ws == [ws[0]];
    } else if |ws| > 1 {
      SplitWordsOfJoin(ws[1..]);
      SplitWordsOfJoinCons(ws[0], ws[1..]);
      assert ws == [ws[0]] + ws[1..];
    }
  }

  /** The inductive step of `SplitWordsOfJoin`: prepending one more word. */
  lemma SplitWordsOfJoinCons(w: string, tail: seq<string>)
    requires w != [] && forall i | 0 <= i < |w| :: !IsSpace(w[i])
    requires tail != [] && SplitWords(Join(" ", tail)) == tail
    ensures SplitWords(Join(" ", [w] + tail)) == [w] + tail
  {
    var rest := Join(" ", tail);
    assert ([w] + tail)[1..] == tail;
    assert Join(" ", [w] + tail) == w + [' '] + rest;
    RunsSplit(w, ' ', rest, IsNotSpace);
    RunsWhole(w, IsNotSpace);
  }

  /** `[s.strip() for s in parts if s.strip()]` */
  function StrippedNonBlank(parts: seq<string>): (r: seq<string>)
    ensures forall k | 0 <= k < |r| :: r[k] != [] && IsStripped(r[k])
  {
    if parts == [] then []
    else
      StripSpec(parts[0]);
      (if Strip(parts[0]) != [] then [Strip(parts[0])] else []) + StrippedNonBlank(parts[1..])
  }

  lemma {:induction false} StrippedNonBlankOfStripped(lines: seq<string>)
    requires forall k | 0 <= k < |lines| :: lines[k] != [] && IsStripped(lines[k])
    ensures StrippedNonBlank(lines) == lines
    decreases |lines|
  {
    if lines != [] {
      StripOfStripped(lines[0]);
      StrippedNonBlankOfStripped(lines[1..]);
      assert lines == [lines[0]] + lines[1..];
    }
  }

  // ---------------------------------------------------------------- split / join

  /** Index of the first occurrence of `c` in `s`, or `|s|`. */
  function IndexOf(s: string, c: char): (i: nat)
    ensures i <= |s|
    ensures i < |s| ==> s[i] == c
    ensures forall j | 0 <= j < i :: s[j] != c
    decreases |s|
  {
    if s == [] then 0 else if s[0] == c then 0 else 1 + IndexOf(s[1..], c)
  }

  /** `s.split(sep)` for a one-character separator. */
  function SplitOn(s: string, sep: char): (r: seq<string>)
    ensures |r| >= 1
    ensures forall k | 0 <= k < |r| :: sep !in r[k]
    decreases |s|
  {
    var i := IndexOf(s, sep);
    if i == |s| then [s] else [s[..i]] + SplitOn(s[i + 1..], sep)
  }

  /** `sep.join(xs)` */
  function Join(sep: string, xs: seq<string>): string
  {
    if xs == [] then [] else if |xs| == 1 then xs[0] else xs[0] + sep + Join(sep, xs[1..])
  }

  /** Splitting on a character and joining with it gives the string back. */
  lemma {:induction false} JoinSplitOn(s: string, sep: char)
    ensures Join([sep], SplitOn(s, sep)) == s
    decreases |s|
  {
    var i := IndexOf(s, sep);
    if i < |s| {
      JoinSplitOn(s[i + 1..], sep);
      var rest := SplitOn(s[i + 1..], sep);
      assert SplitOn(s, sep) == [s[..i]] + rest;
      assert s == s[..i] + [sep] + s[i + 1..];
    }
  }

  predicate StartsWith(s: string, p: string)
  {
    |p| <= |s| && s[..|p|] == p
  }

  predicate EndsWith(s: string, p: string)
  {
    |p| <= |s| && s[|s| - |p|..] == p
  }

  /** Python `needle in hay` for strings. */
  predicate Contains(hay: string, needle: string)
    decreases |hay|
  {
    StartsWith(hay, needle) || (hay != [] && Contains(hay[1..], needle))
  }

  /** A string that contains `a + b` contains `a`. */
  lemma {:induction false} ContainsPrefixOfNeedle(hay: string, a: string, b: string)
    requires Contains(hay, a + b)
    ensures Contains(hay, a)
    decreases |hay|
  {
    if StartsWith(hay, a + b) {
      assert hay[..|a|] == (a + b)[..|a|] == a;
    } else {
      ContainsPrefixOfNeedle(hay[1..], a, b);
    }
  }

  /** A string holding `needle` at offset `i` contains it. */
  lemma {:induction false} ContainsAt(hay: string, needle: string, i: nat)
    requires i + |needle| <= |hay| && hay[i..i + |needle|] == needle
    ensures Contains(hay, needle)
    decreases i
  {
    if i > 0 {
      assert hay[1..][i - 1..i - 1 + |needle|] == needle;
      ContainsAt(hay[1..], needle, i - 1);
    }
  }

  // ---------------------------------------------------------------- numbers

  function DigitChar(d: nat): char
    requires d < 10
  {
    ('0' as int + d) as char
  }

  /** Python `str(n)` for a natural number. */
  function NatToString(n: nat): (r: string)
    ensures r != []
    ensures forall i | 0 <= i < |r| :: IsDigit(r[i])
    ensures |r| > 1 ==> r[0] != '0'
    decreases n
  {
    if n < 10 then [DigitChar(n)] else NatToString(n / 10) + [DigitChar(n % 10)]
  }

  /** Distinct numbers print differently. */
  lemma {:induction false} NatToStringInjective(m: nat, n: nat)
    requires NatToString(m) == NatToString(n)
    ensures m == n
    decreases m
  {
    var r := NatToString(m);
    if m >= 10 && n >= 10 {
      var rm, rn := NatToString(m / 10), NatToString(n / 10);
      assert r == rm + [DigitChar(m % 10)] == rn + [DigitChar(n % 10)];
      assert |rm| == |rn|;
      assert rm == r[..|r| - 1] == rn;
      NatToStringInjective(m / 10, n / 10);
    }
  }
}
