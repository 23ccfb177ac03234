/**
 * String helpers shared by the watch page and the search page, written the way
 * JavaScript behaves on ASCII text: `toLowerCase` / `toUpperCase`, the template
 * rendering of an integer (`${n}`), and `parseInt(s, 10)`.
 */
module Text {
  import opened Wrappers

  /* ---------- case mapping (ASCII) ---------- */

  function LowerChar(c: char): char {
    if 'A' <= c <= 'Z' then (c as int + 32) as char else c
  }

  function UpperChar(c: char): char {
    if 'a' <= c <= 'z' then (c as int - 32) as char else c
  }

  /** `s.toLowerCase()` */
  function Lower(s: string): (r: string)
    ensures |r| == |s|
    ensures forall i :: 0 <= i < |s| ==> r[i] == LowerChar(s[i])
  {
    seq(|s|, i requires 0 <= i < |s| => LowerChar(s[i]))
  }

  /** `s.toUpperCase()` */
  function Upper(s: string): (r: string)
    ensures |r| == |s|
    ensures forall i :: 0 <= i < |s| ==> r[i] == UpperChar(s[i])
  {
    seq(|s|, i requires 0 <= i < |s| => UpperChar(s[i]))
  }

  /** `a.toLowerCase() === b.toLowerCase()` */
  predicate EqualsIgnoreCase(a: string, b: string) {
    Lower(a) == Lower(b)
  }

  /** Two strings are equal ignoring case exactly when they agree position by position once lower-cased. */
  lemma EqualsIgnoreCaseCharwise(a: string, b: string)
    ensures EqualsIgnoreCase(a, b) <==>
              |a| == |b| && forall i :: 0 <= i < |a| ==> LowerChar(a[i]) == LowerChar(b[i])
  {
  }

  /** Lower-casing twice is lower-casing once. */
  lemma LowerIdempotent(s: string)
    ensures Lower(Lower(s)) == Lower(s)
  {
  }

  /** `t.charAt(0).toUpperCase() + t.slice(1).toLowerCase()`; the empty string stays empty. */
  function Capitalize(t: string): (r: string)
    ensures |r| == |t|
    ensures |t| > 0 ==> !('a' <= r[0] <= 'z')
    ensures forall i :: 1 <= i < |r| ==> !('A' <= r[i] <= 'Z')
    ensures EqualsIgnoreCase(r, t)
  {
    if |t| == 0 then "" else
      var r := [UpperChar(t[0])] + Lower(t[1..]);
      assert Lower(r) == Lower(t) by {
        assert forall i :: 1 <= i < |t| ==> Lower(r)[i] == LowerChar(Lower(t[1..])[i - 1]);
      }
      r
  }

  /* ---------- decimal digits ---------- */

  predicate IsDigit(c: char) {
    '0' <= c <= '9'
  }

  predicate AllDigits(s: string) {
    forall i :: 0 <= i < |s| ==> IsDigit(s[i])
  }

  function DigitChar(d: nat): (c: char)
    requires d < 10
    ensures IsDigit(c)
  {
    ('0' as int + d) as char
  }

  function DigitValue(c: char): (d: nat)
    requires IsDigit(c)
    ensures d < 10
  {
    c as int - '0' as int
  }

  /** Decimal digits of a natural number, most significant first, without leading zeros. */
  function NatDigits(n: nat): (s: string)
    ensures |s| > 0 && AllDigits(s)
    ensures s[0] == '0' ==> n == 0 && s == "0"
  {
    if n < 10 then [DigitChar(n)] else NatDigits(n / 10) + [DigitChar(n % 10)]
  }

  /** The value of a digit string, most significant digit first; 0 for the empty string. */
  function DigitsValue(s: string): nat
    requires AllDigits(s)
  {
    if |s| == 0 then 0 else DigitsValue(s[..|s| - 1]) * 10 + DigitValue(s[|s| - 1])
  }

  /**
   * `${n}` for an integer n: a minus sign exactly for negatives, then the
   * canonical digits of |n| (no leading zero unless n is 0).
   */
  function DecimalString(n: int): (s: string)
    ensures |s| > 0
    ensures n < 0 <==> s[0] == '-'
    ensures var digits := if n < 0 then s[1..] else s;
            && |digits| > 0 && AllDigits(digits)
            && (digits[0] == '0' ==> digits == "0")
            && DigitsValue(digits) == (if n < 0 then -n else n)
  {
    NatDigitsValue(if n < 0 then -n else n);
    if n < 0 then
      var s := "-" + NatDigits(-n);
      assert s[1..] == NatDigits(-n);
      s
    else NatDigits(n)
  }

  /** Number of leading decimal digits of s. */
  function LeadingDigits(s: string): (k: nat)
    ensures k <= |s|
    ensures AllDigits(s[..k])
    ensures k < |s| ==> !IsDigit(s[k])
  {
    if |s| == 0 || !IsDigit(s[0]) then 0
    else
      var k := 1 + LeadingDigits(s[1..]);
      assert s[..k] == [s[0]] + s[1..][..k - 1];
      k
  }

  /** The value of the longest run of decimal digits at the front of s; None when there is none. */
  function UnsignedPrefix(s: string): (r: Option<nat>)
    ensures r.None? <==> LeadingDigits(s) == 0
    ensures r.Some? ==> r.value == DigitsValue(s[..LeadingDigits(s)])
  {
    var k := LeadingDigits(s);
    if k == 0 then None else Some(DigitsValue(s[..k]))
  }

  predicate IsSign(c: char) {
    c == '-' || c == '+'
  }

  /**
   * `parseInt(s, 10)` on text that does not start with white space: an optional
   * sign, then the longest run of decimal digits; no digits at all gives NaN,
   * here None.
   */
  function ParseInt(s: string): (r: Option<int>)
    ensures var signed := |s| > 0 && IsSign(s[0]);
            var body := if signed then s[1..] else s;
            && (r.None? <==> LeadingDigits(body) == 0)
            && (r.Some? ==> r.value == (if signed && s[0] == '-' then -1 else 1) * DigitsValue(body[..LeadingDigits(body)]))
    ensures r.Some? && r.value < 0 ==> s[0] == '-'
  {
    var signed := |s| > 0 && IsSign(s[0]);
    var magnitude := UnsignedPrefix(if signed then s[1..] else s);
    if magnitude.None? then None
    else if signed && s[0] == '-' then Some(-(magnitude.value as int))
    else Some(magnitude.value as int)
  }

  lemma {:induction false} NatDigitsValue(n: nat)
    ensures DigitsValue(NatDigits(n)) == n
  {
    var s := NatDigits(n);
    if n < 10 {
    } else {
      NatDigitsValue(n / 10);
      assert s[..|s| - 1] == NatDigits(n / 10);
    }
  }

  lemma {:induction false} LeadingDigitsOfDigits(s: string, tail: string)
    requires AllDigits(s)
    requires |tail| == 0 || !IsDigit(tail[0])
    ensures LeadingDigits(s + tail) == |s|
  {
    if |s| > 0 {
      assert (s + tail)[1..] == s[1..] + tail;
      LeadingDigitsOfDigits(s[1..], tail);
    } else {
      assert s + tail == tail;
    }
  }

  lemma UnsignedPrefixOfDigits(d: string, tail: string)
    requires |d| > 0 && AllDigits(d)
    requires |tail| == 0 || !IsDigit(tail[0])
    ensures UnsignedPrefix(d + tail) == Some(DigitsValue(d))
  {
    LeadingDigitsOfDigits(d, tail);
    assert (d + tail)[..|d|] == d;
  }

  lemma ParseUnsigned(body: string)
    requires |body| > 0 && IsDigit(body[0])
    ensures ParseInt(body) == Some(UnsignedPrefix(body).value as int)
  {
  }

  lemma ParseNegative(body: string)
    requires |body| > 0 && IsDigit(body[0])
    ensures ParseInt("-" + body) == Some(-(UnsignedPrefix(body).value as int))
  {
  }

  /**
   * `parseInt` reads back what `${n}` printed, even when non-digit text follows it
   * (the way `parseInt("12abc", 10)` is 12).
   */
  lemma ParseDigitsPrefix(m: nat, tail: string)
    requires |tail| == 0 || !IsDigit(tail[0])
    ensures ParseInt(NatDigits(m) + tail) == Some(m)
    ensures ParseInt("-" + (NatDigits(m) + tail)) == Some(-(m as int))
  {
    var d := NatDigits(m);
    NatDigitsValue(m);
    UnsignedPrefixOfDigits(d, tail);
    assert (d + tail)[0] == d[0];
    ParseNegative(d + tail);
    ParseUnsigned(d + tail);
  }

  lemma ParseDecimalPrefix(n: int, tail: string)
    requires |tail| == 0 || !IsDigit(tail[0])
    ensures ParseInt(DecimalString(n) + tail) == Some(n)
  {
    if n < 0 {
      NegativePrefix(n, tail);
    } else {
      assert DecimalString(n) == NatDigits(n);
      ParseDigitsPrefix(n, tail);
    }
  }

  lemma NegativePrefix(n: int, tail: string)
    requires n < 0
    requires |tail| == 0 || !IsDigit(tail[0])
    ensures ParseInt(DecimalString(n) + tail) == Some(n)
  {
    var m: nat := -n;
    var printed := DecimalString(n) + tail;
    var d := NatDigits(m);
    assert printed == "-" + (d + tail);
    ParseDigitsPrefix(m, tail);
    assert ParseInt("-" + (d + tail)) == Some(-(m as int));
  }

  /** `parseInt(`${n}`, 10) === n` */
  lemma ParseDecimal(n: int)
    ensures ParseInt(DecimalString(n)) == Some(n)
  {
    ParseDecimalPrefix(n, "");
    assert DecimalString(n) + "" == DecimalString(n);
  }

  /* ---------- what `parseInt` ignores ---------- */

  /** A '+' in front of an unsigned number does not change what `parseInt` reads. */
  lemma ParsePlusSign(s: string)
    requires |s| == 0 || !IsSign(s[0])
    ensures ParseInt("+" + s) == ParseInt(s)
  {
    assert ("+" + s)[1..] == s;
  }

  /** A '-' in front of an unsigned number negates what `parseInt` reads, and NaN stays NaN. */
  lemma ParseMinusSign(s: string)
    requires |s| == 0 || !IsSign(s[0])
    ensures ParseInt(s).None? ==> ParseInt("-" + s).None?
    ensures ParseInt(s).Some? ==> ParseInt("-" + s) == Some(-ParseInt(s).value)
  {
    assert ("-" + s)[1..] == s;
  }

  lemma {:induction false} DigitsValueLeadingZero(d: string)
    requires AllDigits(d)
    ensures DigitsValue("0" + d) == DigitsValue(d)
  {
    if |d| > 0 {
      assert ("0" + d)[..|d|] == "0" + d[..|d| - 1];
      DigitsValueLeadingZero(d[..|d| - 1]);
    }
  }

  /** A leading zero in front of a digit does not change what `parseInt` reads: "007" is 7. */
  lemma ParseLeadingZero(s: string)
    requires |s| > 0 && IsDigit(s[0])
    ensures ParseInt("0" + s) == ParseInt(s)
  {
    var z := "0" + s;
    var k := LeadingDigits(s);
    assert z[1..] == s;
    assert LeadingDigits(z) == k + 1;
    assert z[..k + 1] == "0" + s[..k];
    DigitsValueLeadingZero(s[..k]);
    assert UnsignedPrefix(z) == UnsignedPrefix(s);
    ParseUnsigned(z);
    ParseUnsigned(s);
  }
}
