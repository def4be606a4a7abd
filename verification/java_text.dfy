/**
 * The few Java library text conversions the parser and the builder rely on:
 * Long.parseLong / Long.toString (radix 10), Boolean.parseBoolean and
 * String.toLowerCase, restricted to ASCII text.
 */
module JavaText {
  import opened Wrappers

  const MIN_LONG := -0x8000_0000_0000_0000
  const MAX_LONG := 0x7fff_ffff_ffff_ffff

  predicate IsDigit(c: char) { '0' <= c <= '9' }

  predicate AllDigits(s: string) { forall k :: 0 <= k < |s| ==> IsDigit(s[k]) }

  function DigitValue(c: char): nat
    requires IsDigit(c)
  {
    (c as int) - ('0' as int)
  }

  function DigitChar(d: nat): (c: char)
    requires d < 10
    ensures IsDigit(c) && DigitValue(c) == d
  {
    (('0' as int) + d) as char
  }

  /** The value of a string of decimal digits, most significant first. */
  function DecimalValue(ds: string): nat
    requires AllDigits(ds)
  {
    if |ds| == 0 then 0 else DecimalValue(ds[..|ds| - 1]) * 10 + DigitValue(ds[|ds| - 1])
  }

  /**
   * Long.parseLong(s): an optional '-' or '+' followed by at least one decimal
   * digit, whose value fits in 64 bits; None stands for NumberFormatException.
   */
  function ParseLong(s: string): (r: Option<int>)
    ensures r.Some? ==> LongSyntax(s)
    ensures r.Some? ==> MIN_LONG <= r.value <= MAX_LONG
    ensures r.Some? ==> |s| > 0 && (IsDigit(s[0]) || s[0] == '-' || s[0] == '+')
    ensures r.Some? && s[0] == '-' ==> r.value <= 0
  {
    if |s| == 0 then None
    else
      var body := if s[0] == '-' || s[0] == '+' then s[1..] else s;
      if |body| == 0 || !AllDigits(body) then None
      else
        var v: int := if s[0] == '-' then 0 - DecimalValue(body) as int else DecimalValue(body);
        if MIN_LONG <= v <= MAX_LONG then Some(v) else None
  }

  /** The text Long.parseLong can accept: one or more decimal digits after an optional sign. */
  predicate LongSyntax(s: string)
  {
    || (|s| > 0 && AllDigits(s))
    || (|s| > 1 && (s[0] == '-' || s[0] == '+') && AllDigits(s[1..]))
  }

  /** Long.parseLong of unsigned digits: their decimal value when it fits in 64 bits, else NumberFormatException. */
  lemma ParseLongUnsigned(ds: string)
    requires |ds| > 0 && AllDigits(ds)
    ensures ParseLong(ds) == if DecimalValue(ds) <= MAX_LONG then Some(DecimalValue(ds) as int) else None
  {
    assert IsDigit(ds[0]);
  }

  /** Long.parseLong ignores a leading '+': "+" + ds parses as ds does. */
  lemma ParseLongPlus(ds: string)
    requires |ds| > 0 && AllDigits(ds)
    ensures ParseLong("+" + ds) == ParseLong(ds)
  {
    var plus := "+" + ds;
    assert plus[0] == '+' && plus[1..] == ds;
    assert IsDigit(ds[0]);
  }

  /** Long.parseLong after '-': the negated decimal value when it is at least -2^63, else NumberFormatException. */
  lemma ParseLongMinus(ds: string)
    requires |ds| > 0 && AllDigits(ds)
    ensures ParseLong("-" + ds) == if DecimalValue(ds) <= -MIN_LONG then Some(0 - DecimalValue(ds) as int) else None
  {
    var minus := "-" + ds;
    assert minus[0] == '-' && minus[1..] == ds;
  }

  /** Decimal digits of `n`, without leading zeros (Long.toString of a non-negative value). */
  function Digits(n: nat): (ds: string)
    ensures |ds| > 0 && AllDigits(ds)
  {
    if n < 10 then [DigitChar(n)] else Digits(n / 10) + [DigitChar(n % 10)]
  }

  /** Long.toString(n). */
  function FormatLong(n: int): string
  {
    if n < 0 then "-" + Digits(-n) else Digits(n)
  }

  lemma {:induction false} DigitsValue(n: nat)
    ensures DecimalValue(Digits(n)) == n
  {
    var ds := Digits(n);
    if n >= 10 {
      DigitsValue(n / 10);
      assert ds[..|ds| - 1] == Digits(n / 10);
    }
  }

  /** Long.parseLong inverts Long.toString on every 64-bit value. */
  lemma ParseFormatLong(n: int)
    requires MIN_LONG <= n <= MAX_LONG
    ensures ParseLong(FormatLong(n)) == Some(n)
  {
    if n < 0 {
      DigitsValue(-n);
      assert FormatLong(n)[1..] == Digits(-n);
    } else {
      DigitsValue(n);
    }
  }

  /** Character.toLowerCase on the ASCII range. */
  function LowerChar(c: char): char
  {
    if 'A' <= c <= 'Z' then (c as int + 32) as char else c
  }

  /** String.toLowerCase on ASCII text. */
  function ToLowerAscii(s: string): (r: string)
    ensures |r| == |s|
    ensures forall k :: 0 <= k < |s| ==> r[k] == LowerChar(s[k])
  {
    if |s| == 0 then [] else [LowerChar(s[0])] + ToLowerAscii(s[1..])
  }

  /** String.equalsIgnoreCase on ASCII text: same length, characters equal up to case. */
  predicate EqualsIgnoreCase(a: string, b: string)
  {
    |a| == |b| && forall k :: 0 <= k < |a| ==> LowerChar(a[k]) == LowerChar(b[k])
  }

  /** Boolean.parseBoolean: true exactly when the text is "true" in any letter case. */
  predicate ParseBoolean(s: string)
  {
    EqualsIgnoreCase(s, "true")
  }

  /** Lower-casing then comparing agrees with the case-insensitive comparison against lower-case text. */
  lemma LowerEqualsIgnoreCase(a: string, b: string)
    requires ToLowerAscii(b) == b
    ensures ToLowerAscii(a) == b <==> EqualsIgnoreCase(a, b)
  {
    if EqualsIgnoreCase(a, b) {
      assert forall k :: 0 <= k < |a| ==> ToLowerAscii(a)[k] == LowerChar(b[k]) == ToLowerAscii(b)[k];
    }
  }
}
