/**
  String helpers shared by the front end and the back end: JavaScript's
  `trim`, Python's `strip` and `lower`, and Python's substring test `w in s`.
  The two runtimes disagree on what whitespace is, so every whitespace-aware
  helper takes the whitespace test it follows, `JsSpace` or `PySpace`, and
  its general facts hold for any test. Lower-casing is modelled in ASCII:
  only 'A'..'Z' have a lower-case form.
 */
module Text {

  /**
    Whitespace in both runtimes: tab through carriage return, the Unicode
    space separators (space, U+00A0, U+1680, U+2000..U+200A, U+202F, U+205F,
    U+3000) and the line and paragraph separators U+2028 and U+2029.
   */
  predicate CommonSpace(c: char) {
    || '\t' <= c <= '\r'
    || c == ' ' || c == '\U{00A0}' || c == '\U{1680}'
    || '\U{2000}' <= c <= '\U{200A}'
    || c == '\U{2028}' || c == '\U{2029}' || c == '\U{202F}' || c == '\U{205F}' || c == '\U{3000}'
  }

  /** What JavaScript's `trim` removes: the common set and the byte-order mark U+FEFF. */
  predicate JsSpace(c: char) {
    CommonSpace(c) || c == '\U{FEFF}'
  }

  /** What Python's `strip` removes (`str.isspace`): the common set, U+001C..U+001F and U+0085. */
  predicate PySpace(c: char) {
    CommonSpace(c) || '\U{001C}' <= c <= '\U{001F}' || c == '\U{0085}'
  }

  /** The two runtimes disagree in both directions. */
  lemma WhitespaceSetsDiffer()
    ensures PySpace('\U{001C}') && !JsSpace('\U{001C}')
    ensures JsSpace('\U{FEFF}') && !PySpace('\U{FEFF}')
  {
  }

  /** A whitespace test under which no ASCII letter is whitespace. */
  ghost predicate SparesLetters(space: char -> bool) {
    forall c: char :: 'A' <= c <= 'Z' || 'a' <= c <= 'z' ==> !space(c)
  }

  lemma RuntimesSpareLetters()
    ensures SparesLetters(JsSpace) && SparesLetters(PySpace)
  {
  }

  /** Every character of `s` is whitespace under `space` (vacuously so for the empty string). */
  ghost predicate AllSpace(s: string, space: char -> bool) {
    forall i :: 0 <= i < |s| ==> space(s[i])
  }

  /** Drops leading whitespace: the result is a suffix that is empty or starts with a non-space. */
  function TrimStart(s: string, space: char -> bool): (r: string)
    ensures |r| <= |s| && r == s[|s| - |r|..]
    ensures r != [] ==> !space(r[0])
  {
    if s != [] && space(s[0]) then TrimStart(s[1..], space) else s
  }

  /** What `TrimStart` drops is whitespace, so its result is the longest such suffix. */
  lemma {:induction false} TrimStartDropsOnlySpace(s: string, space: char -> bool)
    ensures AllSpace(s[..|s| - |TrimStart(s, space)|], space)
  {
    if s != [] && space(s[0]) {
      TrimStartDropsOnlySpace(s[1..], space);
      var k := |s| - |TrimStart(s, space)|;
      forall i | 0 < i < k ensures space(s[..k][i]) {
        assert s[..k][i] == s[1..][..k - 1][i - 1];
      }
      assert s[..k][0] == s[0];
    }
  }

  /** Drops trailing whitespace: the result is a prefix that is empty or ends with a non-space. */
  function TrimEnd(s: string, space: char -> bool): (r: string)
    ensures |r| <= |s| && r == s[..|r|]
    ensures r != [] ==> !space(r[|r| - 1])
  {
    if s != [] && space(s[|s| - 1]) then TrimEnd(s[..|s| - 1], space) else s
  }

  /** What `TrimEnd` drops is whitespace, so its result is the longest such prefix. */
  lemma {:induction false} TrimEndDropsOnlySpace(s: string, space: char -> bool)
    ensures AllSpace(s[|TrimEnd(s, space)|..], space)
  {
    if s != [] && space(s[|s| - 1]) {
      var p := s[..|s| - 1];
      TrimEndDropsOnlySpace(p, space);
      var k := |TrimEnd(s, space)|;
      forall i | k <= i < |s| ensures space(s[i]) {
        if i < |s| - 1 {
          assert p[k..][i - k] == s[i];
        }
      }
      assert forall i | 0 <= i < |s| - k :: s[k..][i] == s[k + i];
    }
  }

  /** Number of whitespace characters `Trim` removes at the front. */
  function LeadingSpaces(s: string, space: char -> bool): (n: nat)
    ensures n <= |s|
  {
    |s| - |TrimStart(s, space)|
  }

  /**
    JavaScript `String.prototype.trim` and Python `str.strip()`: the result is
    the slice of `s` left after dropping whitespace at both ends.
   */
  function Trim(s: string, space: char -> bool): (r: string)
    ensures LeadingSpaces(s, space) + |r| <= |s|
    ensures r == s[LeadingSpaces(s, space)..LeadingSpaces(s, space) + |r|]
    ensures r != [] ==> !space(r[0]) && !space(r[|r| - 1])
  {
    TrimEnd(TrimStart(s, space), space)
  }

  /** What `Trim` drops, at either end, is whitespace. */
  lemma TrimDropsOnlySpace(s: string, space: char -> bool)
    ensures AllSpace(s[..LeadingSpaces(s, space)], space)
    ensures AllSpace(s[LeadingSpaces(s, space) + |Trim(s, space)|..], space)
  {
    var t := TrimStart(s, space);
    var r := TrimEnd(t, space);
    TrimStartDropsOnlySpace(s, space);
    TrimEndDropsOnlySpace(t, space);
    assert s[LeadingSpaces(s, space) + |r|..] == t[|r|..];
  }

  /** Stripping leaves nothing exactly when every character is whitespace. */
  lemma TrimEmptyIffAllSpace(s: string, space: char -> bool)
    ensures Trim(s, space) == [] <==> AllSpace(s, space)
  {
    TrimDropsOnlySpace(s, space);
    var a, r := LeadingSpaces(s, space), Trim(s, space);
    if r == [] {
      forall i | 0 <= i < |s| ensures space(s[i]) {
        assert s[..a][i] == s[i];
      }
    } else {
      assert s[a] == r[0];
    }
  }

  /** The truthiness test `!s.trim()` / `not s.strip()`: true exactly for all-whitespace strings. */
  predicate IsBlank(s: string, space: char -> bool)
    ensures IsBlank(s, space) <==> AllSpace(s, space)
  {
    TrimEmptyIffAllSpace(s, space);
    Trim(s, space) == []
  }

  function LowerChar(c: char): (d: char)
    ensures 'A' <= c <= 'Z' ==> d as int == c as int + 32
    ensures !('A' <= c <= 'Z') ==> d == c
  {
    if 'A' <= c <= 'Z' then (c as int - 'A' as int + 'a' as int) as char else c
  }

  /** Python `str.lower()` on ASCII: the same length, each character lowered. */
  function Lower(s: string): (r: string)
    ensures |r| == |s|
    ensures forall i :: 0 <= i < |s| ==> r[i] == LowerChar(s[i])
  {
    if s == [] then [] else [LowerChar(s[0])] + Lower(s[1..])
  }

  /** Lower-casing a character never turns whitespace into non-whitespace or back. */
  lemma LowerCharKeepsSpace(c: char, space: char -> bool)
    requires SparesLetters(space)
    ensures space(LowerChar(c)) <==> space(c)
  {
    if 'A' <= c <= 'Z' {
      assert 'a' <= LowerChar(c) <= 'z';
    }
  }

  /** Lower-casing does not create or remove whitespace. */
  lemma LowerKeepsSpace(s: string, space: char -> bool)
    requires SparesLetters(space)
    ensures AllSpace(Lower(s), space) <==> AllSpace(s, space)
  {
    forall i | 0 <= i < |s| ensures space(Lower(s)[i]) <==> space(s[i]) {
      LowerCharKeepsSpace(s[i], space);
    }
  }

  /** Python `w in s` for strings: `w` occurs in `s` as a contiguous substring. */
  predicate Contains(s: string, w: string)
    ensures Contains(s, w) ==> |w| <= |s|
    ensures w == [] ==> Contains(s, w)
  {
    assert w == [] ==> OccursAt(s, w, 0);
    exists i | 0 <= i <= |s| - |w| :: OccursAt(s, w, i)
  }

  /** `w` occurs in `s` starting at index `i`. */
  predicate OccursAt(s: string, w: string, i: nat) {
    i + |w| <= |s| && s[i..i + |w|] == w
  }

  /**
    Python `any(w in s for w in words)`: some word of the list, tried in
    order, occurs in `s`; never for an empty list.
   */
  predicate ContainsAny(s: string, words: seq<string>)
    ensures ContainsAny(s, words) <==> exists k | 0 <= k < |words| :: Contains(s, words[k])
    ensures words == [] ==> !ContainsAny(s, words)
  {
    exists w | w in words :: Contains(s, w)
  }

  /** A keyword that starts and ends with a non-space character. */
  predicate Solid(w: string, space: char -> bool) {
    w != [] && !space(w[0]) && !space(w[|w| - 1])
  }

  /** A slice of a slice is a slice of the original. */
  lemma SliceOfSlice(s: string, a: nat, b: nat, x: nat, y: nat)
    requires a <= b <= |s| && x <= y <= b - a
    ensures s[a..b][x..y] == s[a + x..a + y]
  {
    forall k | 0 <= k < y - x ensures s[a..b][x..y][k] == s[a + x..a + y][k] {
      assert s[a..b][x + k] == s[a + x + k];
    }
  }

  /** For `r` the slice of `s` starting at `a`, an occurrence at `i` in `r` is one at `a + i` in `s`. */
  lemma OccurrenceInSlice(s: string, r: string, a: nat, w: string, i: nat)
    requires a + |r| <= |s| && r == s[a..a + |r|] && i + |w| <= |r|
    ensures OccursAt(r, w, i) <==> OccursAt(s, w, a + i)
  {
    SliceOfSlice(s, a, a + |r|, i, i + |w|);
  }

  /** Whatever occurs in a slice of `s` occurs in `s`. */
  lemma ContainsInSlice(s: string, r: string, a: nat, w: string)
    requires a + |r| <= |s| && r == s[a..a + |r|] && Contains(r, w)
    ensures Contains(s, w)
  {
    var i :| 0 <= i <= |r| - |w| && OccursAt(r, w, i);
    OccurrenceInSlice(s, r, a, w, i);
  }

  /** An occurrence inside the stripped string is an occurrence in the original. */
  lemma ContainsInTrimmed(s: string, w: string, space: char -> bool)
    requires Contains(Trim(s, space), w)
    ensures Contains(s, w)
  {
    ContainsInSlice(s, Trim(s, space), LeadingSpaces(s, space), w);
  }

  /** A non-space character of `s` lies inside the slice that `Trim` keeps. */
  lemma NonSpaceKept(s: string, k: nat, space: char -> bool)
    requires k < |s| && !space(s[k])
    ensures LeadingSpaces(s, space) <= k < LeadingSpaces(s, space) + |Trim(s, space)|
  {
    TrimDropsOnlySpace(s, space);
    var a, b := LeadingSpaces(s, space), LeadingSpaces(s, space) + |Trim(s, space)|;
    forall m | 0 <= m < a ensures space(s[m]) {
      assert s[..a][m] == s[m];
    }
    forall m | b <= m < |s| ensures space(s[m]) {
      assert s[b..][m - b] == s[m];
    }
  }

  /** An occurrence starts with the word's first character and ends with its last. */
  lemma OccurrenceEnds(s: string, w: string, i: nat)
    requires w != [] && OccursAt(s, w, i)
    ensures s[i] == w[0] && s[i + |w| - 1] == w[|w| - 1]
  {
    assert s[i..i + |w|][0] == s[i];
    assert s[i..i + |w|][|w| - 1] == s[i + |w| - 1];
  }

  /** An occurrence of a keyword with non-space ends lies wholly inside the slice `Trim` keeps. */
  lemma OccurrenceInsideTrim(s: string, w: string, i: nat, space: char -> bool)
    requires Solid(w, space) && OccursAt(s, w, i)
    ensures LeadingSpaces(s, space) <= i && i + |w| <= LeadingSpaces(s, space) + |Trim(s, space)|
  {
    OccurrenceEnds(s, w, i);
    NonSpaceKept(s, i, space);
    NonSpaceKept(s, i + |w| - 1, space);
  }

  /** The occurrence at `i` of a keyword with non-space ends sits at `i - LeadingSpaces(s)` in the stripped string. */
  lemma OccurrenceSurvivesTrim(s: string, w: string, i: nat, space: char -> bool)
    requires Solid(w, space) && OccursAt(s, w, i)
    ensures LeadingSpaces(s, space) <= i && OccursAt(Trim(s, space), w, i - LeadingSpaces(s, space))
  {
    OccurrenceInsideTrim(s, w, i, space);
    var a, r := LeadingSpaces(s, space), Trim(s, space);
    OccurrenceInSlice(s, r, a, w, i - a);
  }

  /** An occurrence of a keyword with non-space ends survives stripping. */
  lemma ContainsSurvivesTrim(s: string, w: string, space: char -> bool)
    requires Solid(w, space) && Contains(s, w)
    ensures Contains(Trim(s, space), w)
  {
    var i :| 0 <= i <= |s| - |w| && OccursAt(s, w, i);
    OccurrenceSurvivesTrim(s, w, i, space);
  }

  /** Stripping never changes whether a keyword with non-space ends occurs. */
  lemma ContainsTrimIff(s: string, w: string, space: char -> bool)
    requires Solid(w, space)
    ensures Contains(Trim(s, space), w) <==> Contains(s, w)
  {
    if Contains(Trim(s, space), w) {
      ContainsInTrimmed(s, w, space);
    }
    if Contains(s, w) {
      ContainsSurvivesTrim(s, w, space);
    }
  }

  /** `ContainsTrimIff` lifted to a list of keywords. */
  lemma ContainsAnyTrimIff(s: string, words: seq<string>, space: char -> bool)
    requires forall w | w in words :: Solid(w, space)
    ensures ContainsAny(Trim(s, space), words) <==> ContainsAny(s, words)
  {
    forall w | w in words ensures Contains(Trim(s, space), w) <==> Contains(s, w) {
      ContainsTrimIff(s, w, space);
    }
  }

  /** A substring occurrence found at a known position. */
  lemma ContainsAt(s: string, w: string, i: nat)
    requires i + |w| <= |s| && s[i..i + |w|] == w
    ensures Contains(s, w)
  {
    assert OccursAt(s, w, i);
  }

  /** A string of whitespace contains no word that starts with a non-space. */
  lemma NoWordInBlank(s: string, w: string, space: char -> bool)
    requires AllSpace(s, space) && w != [] && !space(w[0])
    ensures !Contains(s, w)
  {
    forall i | 0 <= i <= |s| - |w| ensures !OccursAt(s, w, i) {
      assert space(s[i]);
      assert s[i..i + |w|][0] == s[i];
    }
  }
}
