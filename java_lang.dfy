/** Java's fixed-width integers and the two java.lang conversions the server relies on:
    Long.parseLong (decimal text to a 64-bit value, or NumberFormatException) and
    Long.toString (a 64-bit value to its decimal text). */
module JavaLang {

  const MinInt: int := -0x8000_0000
  const MaxInt: int := 0x7fff_ffff
  const MinLong: int := -0x8000_0000_0000_0000
  const MaxLong: int := 0x7fff_ffff_ffff_ffff

  /** Java `int` */
  type int32 = x: int | -0x8000_0000 <= x <= 0x7fff_ffff
  /** Java `long` */
  type int64 = x: int | -0x8000_0000_0000_0000 <= x <= 0x7fff_ffff_ffff_ffff

  datatype Option<T> = None | Some(value: T)

  /** Two's-complement truncation of an unbounded integer to a Java `int`. */
  function WrapInt(x: int): (r: int32)
    ensures MinInt <= x <= MaxInt ==> r == x
    ensures (x - r) % 0x1_0000_0000 == 0
  {
    (x - MinInt) % 0x1_0000_0000 + MinInt
  }

  /** Two's-complement truncation of an unbounded integer to a Java `long`. */
  function WrapLong(x: int): (r: int64)
    ensures MinLong <= x <= MaxLong ==> r == x
    ensures (x - r) % 0x1_0000_0000_0000_0000 == 0
  {
    (x - MinLong) % 0x1_0000_0000_0000_0000 + MinLong
  }

  /** `n++` on a Java `int` counter: the wrapped successor of a wrapped count is the
      wrapped successor count. */
  lemma WrapIntSucc(k: int)
    ensures WrapInt(WrapInt(k) + 1) == WrapInt(k + 1)
  {
  }

  predicate IsDigit(c: char) {
    '0' <= c <= '9'
  }

  function DigitValue(c: char): (d: nat)
    requires IsDigit(c)
    ensures d < 10
  {
    c as int - '0' as int
  }

  function DigitChar(d: nat): (c: char)
    requires d < 10
    ensures IsDigit(c) && DigitValue(c) == d
  {
    ('0' as int + d) as char
  }

  predicate AllDigits(s: string) {
    forall k :: 0 <= k < |s| ==> IsDigit(s[k])
  }

  /** The value of a string of decimal digits, most significant first. */
  function DigitsValue(ds: string): nat
    requires AllDigits(ds)
    decreases |ds|
  {
    if ds == [] then 0
    else DigitsValue(ds[..|ds| - 1]) * 10 + DigitValue(ds[|ds| - 1])
  }

  /** Long.parseLong(s) with radix 10: an optional leading '+' or '-', then one or more
      digits, and the signed value must fit a `long`; anything else throws
      NumberFormatException, which is None here. */
  function ParseLong(s: string): (r: Option<int64>)
    ensures r.Some? ==> |s| > 0 && IsDigit(s[|s| - 1])
    ensures r.Some? ==> forall k :: 0 < k < |s| ==> IsDigit(s[k])
    ensures r.Some? ==> IsDigit(s[0]) || s[0] == '+' || s[0] == '-'
    ensures r.Some? && r.value < 0 ==> s[0] == '-'
  {
    if |s| == 0 then None
    else
      var signed := s[0] == '-' || s[0] == '+';
      var digits := if signed then s[1..] else s;
      if |digits| == 0 || !AllDigits(digits) then None
      else
        var v: int := if s[0] == '-' then 0 - DigitsValue(digits) as int else DigitsValue(digits);
        if MinLong <= v <= MaxLong then Some(v) else None
  }

  /** The decimal digits of a natural number, without leading zeros. */
  function NatToString(n: nat): (s: string)
    ensures |s| > 0 && AllDigits(s)
    ensures s[0] == '0' ==> n == 0
    decreases n
  {
    (if n < 10 then "" else NatToString(n / 10)) + [DigitChar(n % 10)]
  }

  /** Long.toString(n) (the same text String.valueOf(n) gives): canonical decimal text,
      a '-' exactly for negative values, and no leading zero except in "0" itself. */
  function LongToString(n: int64): (s: string)
    ensures |s| > 0
    ensures s[0] == '-' <==> n < 0
    ensures n < 0 ==> |s| > 1 && AllDigits(s[1..]) && s[1] != '0'
    ensures n >= 0 ==> AllDigits(s) && (s[0] == '0' ==> s == "0")
  {
    if n < 0 then "-" + NatToString(-(n as int)) else NatToString(n)
  }

  lemma {:induction false} NatToStringValue(n: nat)
    ensures DigitsValue(NatToString(n)) == n
    decreases n
  {
    var s := NatToString(n);
    var init := if n < 10 then "" else NatToString(n / 10);
    var last := DigitChar(n % 10);
    assert s == init + [last];
    assert s[..|s| - 1] == init && s[|s| - 1] == last;
    assert DigitsValue(s) == DigitsValue(init) * 10 + n % 10;
    if n >= 10 {
      NatToStringValue(n / 10);
      assert DigitsValue(init) == n / 10;
    }
  }

  /** Round trip: parseLong reads back every value toString writes. */
  lemma ParseLongToString(n: int64)
    ensures ParseLong(LongToString(n)) == Some(n)
  {
    var m: nat := if n < 0 then -(n as int) else n;
    var ds := NatToString(m);
    assert LongToString(n) == if n < 0 then "-" + ds else ds;
    NatToStringValue(m);
    if n < 0 {
      ParseLongMinus(ds);
    } else {
      ParseLongDigits(ds);
    }
  }

  /** Leading zeros do not change the value of a digit string. */
  lemma {:induction false} LeadingZeroIgnored(ds: string)
    requires AllDigits(ds)
    ensures AllDigits("0" + ds) && DigitsValue("0" + ds) == DigitsValue(ds)
    decreases |ds|
  {
    if ds != [] {
      var z := "0" + ds;
      assert z[..|z| - 1] == "0" + ds[..|ds| - 1];
      LeadingZeroIgnored(ds[..|ds| - 1]);
    }
  }

  /** parseLong ignores leading zeros: "007" is read as 7. */
  lemma ParseLongLeadingZero(ds: string)
    requires |ds| > 0 && AllDigits(ds)
    ensures ParseLong("0" + ds) == ParseLong(ds)
  {
    LeadingZeroIgnored(ds);
    assert IsDigit(ds[0]);
  }

  /** A plain digit string whose value fits a `long` parses to that value. */
  lemma ParseLongDigits(ds: string)
    requires |ds| > 0 && AllDigits(ds) && DigitsValue(ds) <= MaxLong
    ensures ParseLong(ds) == Some(DigitsValue(ds))
  {
  }

  /** A '-' sign followed by digits whose value is at most 2^63 parses to the negated value. */
  lemma ParseLongMinus(ds: string)
    requires |ds| > 0 && AllDigits(ds) && DigitsValue(ds) <= MaxLong + 1
    ensures ParseLong("-" + ds) == Some(0 - DigitsValue(ds))
  {
  }

  /** A '+' sign is accepted and changes nothing. */
  lemma ParseLongPlus(ds: string)
    requires |ds| > 0 && AllDigits(ds)
    ensures ParseLong("+" + ds) == ParseLong(ds)
  {
  }

  /** Only the first character may be a sign; any other non-digit makes parseLong throw. */
  lemma ParseLongRejectsNonDigit(s: string, k: nat)
    requires 0 < k < |s| && !IsDigit(s[k])
    ensures ParseLong(s) == None
  {
  }

  /** The empty text and a lone sign are rejected. */
  lemma ParseLongRejectsNoDigits()
    ensures ParseLong("") == None
    ensures ParseLong("+") == None
    ensures ParseLong("-") == None
  {
  }

  /** A digit string whose value exceeds Long.MAX_VALUE is rejected, with or without a
      '+' sign; after a '-' it is rejected once its value exceeds 2^63
      (-Long.MIN_VALUE). */
  lemma ParseLongRejectsOverflow(ds: string)
    requires |ds| > 0 && AllDigits(ds) && DigitsValue(ds) > MaxLong
    ensures ParseLong(ds) == None
    ensures ParseLong("+" + ds) == None
    ensures DigitsValue(ds) > MaxLong + 1 ==> ParseLong("-" + ds) == None
  {
  }
}
