/**
  The string operations the line filter relies on: literal substring search,
  the decimal rendering of a count (`str(n)` for a natural number) and the
  removal of trailing newline characters (`rstrip('\n')`).
 */
module Strings {

  // ---------------------------------------------------------------------------
  // Substring search
  // ---------------------------------------------------------------------------

  /** `pat` occurs in `text` starting at position `i`. */
  ghost predicate OccursAt(pat: string, text: string, i: int)
  {
    0 <= i <= |text| - |pat| && text[i..i + |pat|] == pat
  }

  /** The reference meaning of "`pat` occurs in `text`": some window of `text` equals `pat`. */
  ghost predicate IsSubstring(pat: string, text: string)
  {
    exists i :: OccursAt(pat, text, i)
  }

  /** Scans `text` left to right and reports whether `pat` starts at some position. */
  predicate Contains(text: string, pat: string)
    decreases |text|
  {
    pat <= text || (text != [] && Contains(text[1..], pat))
  }

  lemma {:induction false} ContainsIffSubstring(text: string, pat: string)
    ensures Contains(text, pat) <==> IsSubstring(pat, text)
    decreases |text|
  {
    if pat <= text {
      assert OccursAt(pat, text, 0);
    }
    if text == [] {
      if IsSubstring(pat, text) {
        var i :| OccursAt(pat, text, i);
        assert pat == [];
      }
    } else {
      var tail := text[1..];
      ContainsIffSubstring(tail, pat);
      if IsSubstring(pat, tail) {
        var i :| OccursAt(pat, tail, i);
        assert text[i + 1..i + 1 + |pat|] == tail[i..i + |pat|];
        assert OccursAt(pat, text, i + 1);
      }
      if IsSubstring(pat, text) && !(pat <= text) {
        var i :| OccursAt(pat, text, i);
        assert i != 0;
        assert tail[i - 1..i - 1 + |pat|] == text[i..i + |pat|];
        assert OccursAt(pat, tail, i - 1);
      }
    }
  }

  // ---------------------------------------------------------------------------
  // Decimal numerals
  // ---------------------------------------------------------------------------

  predicate IsDecimal(s: string)
  {
    forall i :: 0 <= i < |s| ==> '0' <= s[i] <= '9'
  }

  /** The number a string of decimal digits denotes, most significant digit first. */
  function DecimalValue(s: string): nat
    requires IsDecimal(s)
    decreases |s|
  {
    if s == [] then 0 else DecimalValue(s[..|s| - 1]) * 10 + (s[|s| - 1] as int - '0' as int)
  }

  function DigitChar(d: nat): (c: char)
    requires d < 10
    ensures '0' <= c <= '9' && c as int - '0' as int == d
  {
    ('0' as int + d) as char
  }

  /**
    The decimal rendering of a natural number, as `str(n)` produces it:
    at least one digit, no leading zero, and it denotes `n`.
   */
  function NatToString(n: nat): (s: string)
    ensures |s| >= 1 && IsDecimal(s)
    ensures |s| > 1 ==> s[0] != '0'
    ensures DecimalValue(s) == n
    decreases n
  {
    if n < 10 then [DigitChar(n)]
    else
      var front := NatToString(n / 10);
      var s := front + [DigitChar(n % 10)];
      assert s[..|s| - 1] == front;
      s
  }

  // ---------------------------------------------------------------------------
  // Trailing newlines
  // ---------------------------------------------------------------------------

  predicate EndsWithNewline(s: string)
  {
    s != [] && s[|s| - 1] == '\n'
  }

  predicate OnlyNewlines(s: string)
  {
    forall i :: 0 <= i < |s| ==> s[i] == '\n'
  }

  /**
    `s.rstrip('\n')`: the prefix of `s` left after removing every trailing
    newline character. The result keeps a prefix of `s`, does not end in a
    newline, and what was removed consists of newlines only.
   */
  function RStripNewlines(s: string): (r: string)
    ensures r <= s
    ensures !EndsWithNewline(r)
    ensures OnlyNewlines(s[|r|..])
    decreases |s|
  {
    if EndsWithNewline(s) then RStripNewlines(s[..|s| - 1]) else s
  }

  /** The three properties of `RStripNewlines` determine its result. */
  lemma RStripNewlinesUnique(s: string, t: string)
    requires t <= s && !EndsWithNewline(t) && OnlyNewlines(s[|t|..])
    ensures t == RStripNewlines(s)
  {
  }

  /** Stripping twice is the same as stripping once. */
  lemma RStripNewlinesIdempotent(s: string)
    ensures RStripNewlines(RStripNewlines(s)) == RStripNewlines(s)
  {
  }
}
