/**
 * String helpers shared by the model: decimal digits, Python's `str.split(sep)[0]`,
 * `in` (substring), `startswith`, `lower`, `strip` and `<` on strings.
 */
module Text {

  // ---------------------------------------------------------------------------
  // Decimal digits
  // ---------------------------------------------------------------------------

  predicate IsDigit(c: char) { '0' <= c <= '9' }

  predicate AllDigits(s: string) { forall i :: 0 <= i < |s| ==> IsDigit(s[i]) }

  function DigitValue(c: char): (d: nat)
    requires IsDigit(c)
    ensures d < 10
  {
    c as int - '0' as int
  }

  function DigitChar(d: nat): (c: char)
    requires d < 10
    ensures IsDigit(c) && DigitValue(c) == d
  {
    ('0' as int + d) as char
  }

  function Pow10(n: nat): (p: nat)
    ensures p >= 1
  {
    if n == 0 then 1 else 10 * Pow10(n - 1)
  }

  /** The number a string of decimal digits denotes (what Python's `int` gives). */
  function DigitsValue(s: string): nat
    requires AllDigits(s)
  {
    if s == [] then 0 else 10 * DigitsValue(s[..|s| - 1]) + DigitValue(s[|s| - 1])
  }

  /** `n` written with exactly `width` digits, zero-padded on the left (`%02d`, `%04d`). */
  function PadDigits(n: nat, width: nat): (r: string)
    ensures |r| == width && AllDigits(r)
  {
    if width == 0 then [] else PadDigits(n / 10, width - 1) + [DigitChar(n % 10)]
  }

  /** Reading back a padded number gives the number, when it fits the width. */
  lemma {:induction false} PadDigitsValue(n: nat, width: nat)
    requires n < Pow10(width)
    ensures DigitsValue(PadDigits(n, width)) == n
  {
    if width > 0 {
      var init := PadDigits(n / 10, width - 1);
      assert n / 10 < Pow10(width - 1);
      PadDigitsValue(n / 10, width - 1);
      DigitsValueSnoc(init, DigitChar(n % 10));
    }
  }

  lemma DigitsValueSnoc(s: string, c: char)
    requires AllDigits(s) && IsDigit(c)
    ensures AllDigits(s + [c]) && DigitsValue(s + [c]) == 10 * DigitsValue(s) + DigitValue(c)
  {
    assert (s + [c])[..|s|] == s;
  }

  /** A digit string is the padded rendering of its own value. */
  lemma {:induction false} DigitsValuePad(s: string)
    requires AllDigits(s)
    ensures DigitsValue(s) < Pow10(|s|)
    ensures PadDigits(DigitsValue(s), |s|) == s
  {
    if s != [] {
      var init := s[..|s| - 1];
      DigitsValuePad(init);
      var v := DigitsValue(s);
      assert v / 10 == DigitsValue(init) && v % 10 == DigitValue(s[|s| - 1]);
      assert DigitChar(DigitValue(s[|s| - 1])) == s[|s| - 1];
      assert s == init + [s[|s| - 1]];
    }
  }

  /** `n` in decimal without leading zeros, as Python's `str(n)` / f-string writes it. */
  function Decimal(n: nat): (r: string)
    ensures 1 <= |r| && AllDigits(r) && DigitsValue(r) == n
    ensures |r| > 1 ==> r[0] != '0'
  {
    if n < 10 then [DigitChar(n)]
    else
      var r := Decimal(n / 10) + [DigitChar(n % 10)];
      assert r[..|r| - 1] == Decimal(n / 10);
      r
  }

  // ---------------------------------------------------------------------------
  // Splitting and searching
  // ---------------------------------------------------------------------------

  /**
   * Python's `s.split(sep)[0]` (and `cut -d<sep> -f1`): everything before the
   * first `sep`, or all of `s` when `sep` does not occur.
   */
  function BeforeFirst(s: string, sep: char): (r: string)
    ensures |r| <= |s| && r == s[..|r|]
    ensures sep !in r
    ensures |r| < |s| ==> s[|r|] == sep
  {
    if s == [] || s[0] == sep then [] else [s[0]] + BeforeFirst(s[1..], sep)
  }

  /** Splitting `a + sep + b` at the first `sep` gives back `a` when `a` holds no `sep`. */
  lemma {:induction false} BeforeFirstSep(a: string, b: string, sep: char)
    requires sep !in a
    ensures BeforeFirst(a + [sep] + b, sep) == a
  {
    if a != [] {
      assert (a + [sep] + b)[1..] == a[1..] + [sep] + b;
      BeforeFirstSep(a[1..], b, sep);
    }
  }

  /** Python's `s.startswith(p)`. */
  predicate StartsWith(s: string, p: string) {
    |p| <= |s| && s[..|p|] == p
  }

  /** Python's `t in s` for strings: `t` occurs as a contiguous substring of `s`. */
  predicate Contains(s: string, t: string)
    decreases |s|
  {
    StartsWith(s, t) || (|s| > 0 && Contains(s[1..], t))
  }

  /** `t` occurs in `s` starting at index `i`. */
  predicate OccursAt(s: string, t: string, i: int) {
    0 <= i && i + |t| <= |s| && s[i..i + |t|] == t
  }

  /** `Contains` holds exactly when `t` occurs somewhere in `s`. */
  lemma {:induction false} ContainsOccurs(s: string, t: string)
    ensures Contains(s, t) <==> exists i :: OccursAt(s, t, i)
  {
    if StartsWith(s, t) {
      assert OccursAt(s, t, 0);
    } else if Contains(s, t) {
      ContainsOccurs(s[1..], t);
      var i :| OccursAt(s[1..], t, i);
      OccursInTail(s, t, i);
    }
    if i :| OccursAt(s, t, i) {
      if i > 0 {
        assert OccursAt(s[1..], t, i - 1);
        ContainsOccurs(s[1..], t);
      } else {
        assert StartsWith(s, t);
      }
    }
  }

  // ---------------------------------------------------------------------------
  // Case and whitespace
  // ---------------------------------------------------------------------------

  function LowerChar(c: char): char {
    if 'A' <= c <= 'Z' then (c as int + 32) as char else c
  }

  /** Python's `s.lower()`, restricted to the ASCII letters. */
  function Lower(s: string): (r: string)
    ensures |r| == |s|
    ensures forall i :: 0 <= i < |s| ==> r[i] == LowerChar(s[i])
  {
    if s == [] then [] else [LowerChar(s[0])] + Lower(s[1..])
  }

  /** The characters for which Python's `str.isspace()` holds. */
  predicate IsSpace(c: char) {
    c == ' ' || '\t' <= c <= '\r' || '\U{1c}' <= c <= '\U{1f}' || c == '\U{85}' || c == '\U{a0}' ||
    c == '\U{1680}' || '\U{2000}' <= c <= '\U{200a}' || c == '\U{2028}' || c == '\U{2029}' ||
    c == '\U{202f}' || c == '\U{205f}' || c == '\U{3000}'
  }

  predicate AllSpace(s: string) {
    forall i :: 0 <= i < |s| ==> IsSpace(s[i])
  }

  lemma AllSpaceEnds(s: string)
    requires s != []
    ensures AllSpace(s) <==> IsSpace(s[0]) && AllSpace(s[1..])
    ensures AllSpace(s) <==> IsSpace(s[|s| - 1]) && AllSpace(s[..|s| - 1])
  {
    if IsSpace(s[0]) && AllSpace(s[1..]) {
      forall i | 0 <= i < |s| ensures IsSpace(s[i]) {
        if i > 0 { assert s[i] == s[1..][i - 1]; }
      }
    }
  }

  /**
   * Python's `s.strip()`: leading and trailing whitespace removed; what is
   * left begins and ends with a non-space, and it is empty exactly when `s`
   * is all whitespace.
   */
  function Strip(s: string): (r: string)
    ensures r != [] ==> !IsSpace(r[0]) && !IsSpace(r[|r| - 1])
    ensures r == [] <==> AllSpace(s)
  {
    if s == [] then []
    else if IsSpace(s[0]) then
      AllSpaceEnds(s);
      Strip(s[1..])
    else if IsSpace(s[|s| - 1]) then
      AllSpaceEnds(s);
      Strip(s[..|s| - 1])
    else s
  }

  /**
   * What `strip` leaves is the slice of its input between a leading and a
   * trailing run of whitespace.
   */
  lemma {:induction false} StripSlice(s: string)
    ensures exists i, j :: 0 <= i <= j <= |s| && Strip(s) == s[i..j] && AllSpace(s[..i]) && AllSpace(s[j..])
  {
    if s == [] {
      assert Strip(s) == s[0..0] && AllSpace(s[..0]) && AllSpace(s[0..]);
    } else if IsSpace(s[0]) {
      StripSlice(s[1..]);
      var i, j :| 0 <= i <= j <= |s[1..]| && Strip(s[1..]) == s[1..][i..j] && AllSpace(s[1..][..i]) && AllSpace(s[1..][j..]);
      SliceInTail(s, i, j);
    } else if IsSpace(s[|s| - 1]) {
      StripSlice(s[..|s| - 1]);
      var i, j :| 0 <= i <= j <= |s| - 1 && Strip(s[..|s| - 1]) == s[..|s| - 1][i..j]
                  && AllSpace(s[..|s| - 1][..i]) && AllSpace(s[..|s| - 1][j..]);
      SliceInInit(s, i, j);
    } else {
      assert Strip(s) == s[0..|s|] && AllSpace(s[..0]) && AllSpace(s[|s|..]);
    }
  }

  /** A whitespace-bounded slice of `s[1..]`, when `s[0]` is a space, is one of `s`. */
  lemma SliceInTail(s: string, i: int, j: int)
    requires s != [] && IsSpace(s[0]) && 0 <= i <= j <= |s| - 1
    requires AllSpace(s[1..][..i]) && AllSpace(s[1..][j..])
    ensures s[1..][i..j] == s[i + 1..j + 1] && AllSpace(s[..i + 1]) && AllSpace(s[j + 1..])
  {
    assert s[..i + 1] == [s[0]] + s[1..][..i];
    assert s[j + 1..] == s[1..][j..];
  }

  /** A whitespace-bounded slice of `s` without its last character, when that is a space, is one of `s`. */
  lemma SliceInInit(s: string, i: int, j: int)
    requires s != [] && IsSpace(s[|s| - 1]) && 0 <= i <= j <= |s| - 1
    requires AllSpace(s[..|s| - 1][..i]) && AllSpace(s[..|s| - 1][j..])
    ensures s[..|s| - 1][i..j] == s[i..j] && AllSpace(s[..i]) && AllSpace(s[j..])
  {
    assert s[..i] == s[..|s| - 1][..i];
    assert s[j..] == s[..|s| - 1][j..] + [s[|s| - 1]];
  }

  /**
   * Conversely, a slice between whitespace runs that is empty or has
   * non-space ends is what `strip` returns: together with `StripSlice` and
   * `Strip`'s own contract this determines `strip()` completely.
   */
  lemma {:induction false} StripExactly(s: string, i: int, j: int)
    requires 0 <= i <= j <= |s| && AllSpace(s[..i]) && AllSpace(s[j..])
    requires i < j ==> !IsSpace(s[i]) && !IsSpace(s[j - 1])
    ensures Strip(s) == s[i..j]
  {
    if i == j {
      StripOfSpaces(s, i);
    } else if IsSpace(s[0]) {
      DropLeadingSpace(s, i, j);
      StripExactly(s[1..], i - 1, j - 1);
      StripStep(s);
    } else if IsSpace(s[|s| - 1]) {
      DropTrailingSpace(s, i, j);
      StripExactly(s[..|s| - 1], i, j);
      StripStep(s);
    } else {
      SpaceRunsEnds(s, i, j);
    }
  }

  /** A leading run of whitespace covers `s[0]`, a trailing one the last character. */
  lemma SpaceRunsEnds(s: string, i: int, j: int)
    requires 0 <= i <= j <= |s| && AllSpace(s[..i]) && AllSpace(s[j..])
    ensures 0 < i ==> IsSpace(s[0])
    ensures j < |s| ==> IsSpace(s[|s| - 1])
  {
    if 0 < i { assert s[..i][0] == s[0]; }
    if j < |s| { assert s[j..][|s| - 1 - j] == s[|s| - 1]; }
  }

  /** One step of `strip`: a leading space goes first, then a trailing one. */
  lemma StripStep(s: string)
    requires s != []
    ensures IsSpace(s[0]) ==> Strip(s) == Strip(s[1..])
    ensures !IsSpace(s[0]) && IsSpace(s[|s| - 1]) ==> Strip(s) == Strip(s[..|s| - 1])
  {
  }

  /** Two whitespace runs that meet make the whole text whitespace, which `strip` empties. */
  lemma StripOfSpaces(s: string, i: int)
    requires 0 <= i <= |s| && AllSpace(s[..i]) && AllSpace(s[i..])
    ensures Strip(s) == s[i..i]
  {
    assert s == s[..i] + s[i..];
    AllSpaceJoin(s[..i], s[i..]);
  }

  /** A non-empty slice between whitespace runs lies in `s[1..]` when `s[0]` is a space. */
  lemma DropLeadingSpace(s: string, i: int, j: int)
    requires 0 <= i < j <= |s| && AllSpace(s[..i]) && AllSpace(s[j..]) && !IsSpace(s[i]) && !IsSpace(s[j - 1])
    requires IsSpace(s[0])
    ensures 0 < i && AllSpace(s[1..][..i - 1]) && AllSpace(s[1..][j - 1..])
    ensures !IsSpace(s[1..][i - 1]) && !IsSpace(s[1..][j - 2]) && s[1..][i - 1..j - 1] == s[i..j]
  {
    assert s[1..][..i - 1] == s[..i][1..i] && s[1..][j - 1..] == s[j..];
    AllSpaceSlice(s[..i], 1, i);
  }

  /** A non-empty slice between whitespace runs lies in `s` without its last character when that is a space. */
  lemma DropTrailingSpace(s: string, i: int, j: int)
    requires 0 <= i < j <= |s| && AllSpace(s[..i]) && AllSpace(s[j..]) && !IsSpace(s[i]) && !IsSpace(s[j - 1])
    requires IsSpace(s[|s| - 1])
    ensures j < |s| && AllSpace(s[..|s| - 1][..i]) && AllSpace(s[..|s| - 1][j..])
    ensures !IsSpace(s[..|s| - 1][i]) && !IsSpace(s[..|s| - 1][j - 1]) && s[..|s| - 1][i..j] == s[i..j]
  {
    assert s[..|s| - 1][..i] == s[..i] && s[..|s| - 1][j..] == s[j..][..|s| - 1 - j];
    AllSpaceSlice(s[j..], 0, |s| - 1 - j);
  }

  /** An occurrence in `s[1..]` is an occurrence in `s`, one place later. */
  lemma OccursInTail(s: string, t: string, i: int)
    requires s != [] && OccursAt(s[1..], t, i)
    ensures OccursAt(s, t, i + 1)
  {
    assert s[i + 1..i + 1 + |t|] == s[1..][i..i + |t|];
  }

  lemma AllSpaceSlice(s: string, a: int, b: int)
    requires AllSpace(s) && 0 <= a <= b <= |s|
    ensures AllSpace(s[a..b])
  {
    forall k | 0 <= k < b - a ensures IsSpace(s[a..b][k]) {
      assert s[a..b][k] == s[a + k];
    }
  }

  lemma AllSpaceJoin(a: string, b: string)
    requires AllSpace(a) && AllSpace(b)
    ensures AllSpace(a + b)
  {
    forall k | 0 <= k < |a + b| ensures IsSpace((a + b)[k]) {
      if k >= |a| { assert (a + b)[k] == b[k - |a|]; }
    }
  }

  // ---------------------------------------------------------------------------
  // Ordering of strings
  // ---------------------------------------------------------------------------

  /** Python's `a < b` on strings: lexicographic by code point, a proper prefix first. */
  predicate StrLess(a: string, b: string) {
    if a == [] then b != []
    else if b == [] then false
    else if a[0] != b[0] then a[0] < b[0]
    else StrLess(a[1..], b[1..])
  }

  lemma {:induction false} StrLessIrreflexive(a: string)
    ensures !StrLess(a, a)
  {
    if a != [] {
      StrLessIrreflexive(a[1..]);
    }
  }

  lemma {:induction false} StrLessTransitive(a: string, b: string, c: string)
    requires StrLess(a, b) && StrLess(b, c)
    ensures StrLess(a, c)
  {
    if a != [] && b != [] && c != [] && a[0] == b[0] && b[0] == c[0] {
      StrLessTransitive(a[1..], b[1..], c[1..]);
    }
  }
}
