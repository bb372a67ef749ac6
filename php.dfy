/**
 * The two pieces of PHP runtime behaviour the tagging layer depends on:
 * `str_replace($search, '', $subject)` and the conversion of a string used
 * as an array offset into an integer key.
 */
module Php {
  import opened Wrappers

  /** `pat` occurs in `s` starting at position `i`. */
  predicate OccursAt(pat: string, s: string, i: int) {
    0 <= i && i + |pat| <= |s| && s[i..i + |pat|] == pat
  }

  /** `pat` occurs somewhere inside `s`. */
  ghost predicate Occurs(pat: string, s: string) {
    exists i :: OccursAt(pat, s, i)
  }

  /**
   * `str_replace(pat, '', s)`: scans left to right and deletes every
   * non-overlapping occurrence of `pat`.
   */
  function RemoveAll(s: string, pat: string): string
    requires |pat| > 0
    decreases |s|
  {
    if |s| < |pat| then s
    else if s[..|pat|] == pat then RemoveAll(s[|pat|..], pat)
    else [s[0]] + RemoveAll(s[1..], pat)
  }

  /** A leading occurrence is removed and scanning goes on after it. */
  lemma RemoveAllLeading(pat: string, s: string)
    requires |pat| > 0
    ensures RemoveAll(pat + s, pat) == RemoveAll(s, pat)
  {
    assert (pat + s)[..|pat|] == pat;
    assert (pat + s)[|pat|..] == s;
  }

  /** A subject in which the pattern never occurs comes back unchanged. */
  lemma {:induction false} RemoveAllAbsent(s: string, pat: string)
    requires |pat| > 0
    requires !Occurs(pat, s)
    ensures RemoveAll(s, pat) == s
    decreases |s|
  {
    if |s| >= |pat| {
      assert !OccursAt(pat, s, 0);
      assert s[0..0 + |pat|] == s[..|pat|];
      forall i | 0 <= i && i + |pat| <= |s| - 1
        ensures !OccursAt(pat, s[1..], i)
      {
        assert s[1..][i..i + |pat|] == s[i + 1..i + 1 + |pat|];
        assert !OccursAt(pat, s, i + 1);
      }
      RemoveAllAbsent(s[1..], pat);
      assert [s[0]] + s[1..] == s;
    }
  }

  /** A pattern holding a character that `s` lacks cannot occur in `s`. */
  lemma NotOccursWithoutChar(pat: string, s: string, j: nat)
    requires j < |pat|
    requires forall i :: 0 <= i < |s| ==> s[i] != pat[j]
    ensures !Occurs(pat, s)
  {
    forall i | 0 <= i && i + |pat| <= |s|
      ensures !OccursAt(pat, s, i)
    {
      assert s[i..i + |pat|][j] == s[i + j];
    }
  }

  predicate IsDigit(c: char) {
    '0' <= c <= '9'
  }

  predicate AllDigits(s: string) {
    forall i :: 0 <= i < |s| ==> IsDigit(s[i])
  }

  /** The number a string of decimal digits denotes. */
  function DecimalValue(s: string): nat
    requires AllDigits(s)
  {
    if s == [] then 0
    else DecimalValue(s[..|s| - 1]) * 10 + (s[|s| - 1] - '0') as nat
  }

  /** The canonical decimal spelling of `n`, as PHP prints an integer. */
  function DecimalString(n: nat): (r: string)
    ensures |r| > 0 && AllDigits(r)
    ensures r[0] != '0' || r == "0"
  {
    if n < 10 then ['0' + n as char]
    else DecimalString(n / 10) + ['0' + (n % 10) as char]
  }

  /** PHP_INT_MAX on a 64-bit build. */
  const PhpIntMax: int := 0x7FFF_FFFF_FFFF_FFFF

  /**
   * The integer array key PHP uses for the string offset `s`, when it is a
   * non-negative one: `s` must be a canonical decimal integer (no sign, no
   * leading zero unless it is "0", no blanks) that fits in a PHP int.
   * Every other string stays a string key. A canonical negative string
   * such as "-3" does become an integer key, but a negative one, which no
   * appended list element ever carries, so `None` describes it as well.
   */
  function ArrayOffset(s: string): Option<nat> {
    if |s| > 0 && AllDigits(s) && (s[0] != '0' || |s| == 1) && DecimalValue(s) <= PhpIntMax
    then Some(DecimalValue(s))
    else None
  }

  lemma {:induction false} DecimalValueOfString(n: nat)
    ensures DecimalValue(DecimalString(n)) == n
  {
    var r := DecimalString(n);
    if n >= 10 {
      DecimalValueOfString(n / 10);
      assert r[..|r| - 1] == DecimalString(n / 10);
    }
  }

  lemma {:induction false} LeadingNonZeroIsPositive(s: string)
    requires |s| > 0 && AllDigits(s) && s[0] != '0'
    ensures DecimalValue(s) >= 1
    decreases |s|
  {
    if |s| > 1 {
      LeadingNonZeroIsPositive(s[..|s| - 1]);
    }
  }

  lemma {:induction false} StringOfDecimalValue(s: string)
    requires |s| > 0 && AllDigits(s) && (s[0] != '0' || |s| == 1)
    ensures DecimalString(DecimalValue(s)) == s
    decreases |s|
  {
    if |s| > 1 {
      var init := s[..|s| - 1];
      LeadingNonZeroIsPositive(init);
      StringOfDecimalValue(init);
      assert init + [s[|s| - 1]] == s;
    }
  }

  /**
   * A string is used as the integer offset `n` exactly when it is the
   * decimal spelling of `n` and `n` fits in a PHP int.
   */
  lemma ArrayOffsetIsDecimal(s: string, n: nat)
    ensures ArrayOffset(s) == Some(n) <==> s == DecimalString(n) && n <= PhpIntMax
  {
    if ArrayOffset(s) == Some(n) {
      StringOfDecimalValue(s);
    }
    if s == DecimalString(n) && n <= PhpIntMax {
      DecimalValueOfString(n);
    }
  }
}
