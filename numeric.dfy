/**
 * Decimal numerals: the `%d` and `%.2f` renderings of fmt and the subset of
 * strconv.ParseFloat the core feeds it (optional sign, digits, optional
 * fraction).
 */
module Numeric {
  import opened Wrappers
  import opened Text

  function DigitValue(c: char): nat
    requires IsAsciiDigit(c)
  {
    c as int - '0' as int
  }

  function DigitChar(d: nat): (c: char)
    requires d < 10
    ensures IsAsciiDigit(c) && DigitValue(c) == d
  {
    ('0' as int + d) as char
  }

  predicate AllDigits(s: string) {
    forall i :: 0 <= i < |s| ==> IsAsciiDigit(s[i])
  }

  /** The value of a string of decimal digits (0 for the empty string). */
  function NatOf(s: string): nat
    requires AllDigits(s)
  {
    if s == [] then 0 else NatOf(s[..|s| - 1]) * 10 + DigitValue(s[|s| - 1])
  }

  function Pow10(n: nat): (r: nat)
    ensures r >= 1
  {
    if n == 0 then 1 else 10 * Pow10(n - 1)
  }

  /** A numeral of `n` digits has a value below 10^n. */
  lemma {:induction false} NatOfBound(s: string)
    requires AllDigits(s)
    ensures NatOf(s) < Pow10(|s|)
  {
    if s != [] {
      NatOfBound(s[..|s| - 1]);
    }
  }

  /** fmt's `%d` of a natural number: its shortest decimal numeral. */
  function NatToString(n: nat): (r: string)
    ensures |r| >= 1 && AllDigits(r)
    ensures |r| > 1 ==> r[0] != '0'
  {
    if n < 10 then [DigitChar(n)] else NatToString(n / 10) + [DigitChar(n % 10)]
  }

  /** Reading back the numeral `%d` wrote gives the number. */
  lemma {:induction false} NatToStringRoundTrip(n: nat)
    ensures NatOf(NatToString(n)) == n
  {
    if n >= 10 {
      NatToStringRoundTrip(n / 10);
      var s := NatToString(n);
      assert s[..|s| - 1] == NatToString(n / 10);
    }
  }

  /** A number below 10^k has a numeral of at most k digits. */
  lemma {:induction false} NatToStringLength(n: nat, k: nat)
    requires k >= 1 && n < Pow10(k)
    ensures |NatToString(n)| <= k
  {
    if n >= 10 {
      assert k >= 2;
      NatToStringLength(n / 10, k - 1);
    }
  }

  /** Numerals of numbers below 100 have at most two digits. */
  lemma NatToStringShort(n: nat)
    requires n < 100
    ensures |NatToString(n)| <= 2
  {
    NatToStringLength(n, 2);
  }

  /** fmt's `%d` of an integer. */
  function IntToString(i: int): string {
    if i < 0 then "-" + NatToString(-i) else NatToString(i)
  }

  function Zeros(k: nat): (r: string)
    ensures |r| == k && AllDigits(r)
  {
    seq(k, _ => '0')
  }

  lemma {:induction false} NatOfAppend(a: string, b: string)
    requires AllDigits(a) && AllDigits(b)
    ensures AllDigits(a + b)
    ensures NatOf(a + b) == NatOf(a) * Pow10(|b|) + NatOf(b)
    decreases |b|
  {
    if b != [] {
      var b' := b[..|b| - 1];
      var c := b[|b| - 1];
      assert (a + b)[..|a + b| - 1] == a + b';
      assert (a + b)[|a + b| - 1] == c;
      NatOfAppend(a, b');
      assert NatOf(a + b) == NatOf(a + b') * 10 + DigitValue(c);
      assert NatOf(b) == NatOf(b') * 10 + DigitValue(c);
      assert Pow10(|b|) == 10 * Pow10(|b'|);
      ShiftDigit(NatOf(a), Pow10(|b'|), NatOf(b'), DigitValue(c));
    } else {
      assert a + b == a;
    }
  }

  lemma ShiftDigit(x: int, p: int, n: int, d: int)
    ensures (x * p + n) * 10 + d == x * (10 * p) + (n * 10 + d)
  {
  }

  lemma {:induction false} NatOfZeros(k: nat)
    ensures NatOf(Zeros(k)) == 0
  {
    if k > 0 {
      assert Zeros(k)[..k - 1] == Zeros(k - 1);
      NatOfZeros(k - 1);
    }
  }

  /** The numeral of `n` left-padded with zeros to `width` characters (fmt's `%0*d`). */
  function ZeroPad(n: nat, width: nat): (r: string)
    ensures AllDigits(r) && |r| == if |NatToString(n)| >= width then |NatToString(n)| else width
    ensures NatOf(r) == n
  {
    var s := NatToString(n);
    NatToStringRoundTrip(n);
    if |s| >= width then s
    else
      NatOfAppend(Zeros(width - |s|), s);
      NatOfZeros(width - |s|);
      Zeros(width - |s|) + s
  }

  /** The value of the numeral `ip.fp`. */
  function DecimalValue(ip: string, fp: string): (r: real)
    requires AllDigits(ip) && AllDigits(fp)
    ensures r >= 0.0
  {
    NatOf(ip) as real + NatOf(fp) as real / Pow10(|fp|) as real
  }

  /**
   * strconv.ParseFloat restricted to plain decimal numerals: an optional sign,
   * digits, and an optional fraction after one '.', with at least one digit
   * in all. Anything else is a syntax error.
   */
  function ParseDecimal(s: string): (r: Option<real>)
    ensures r.Some? ==> |s| >= 1
  {
    var neg := |s| > 0 && s[0] == '-';
    var body := if |s| > 0 && (s[0] == '-' || s[0] == '+') then s[1..] else s;
    match ParseUnsigned(body)
    case None => None
    case Some(v) => Some(if neg then -v else v)
  }

  /** The unsigned part: digits and an optional fraction after one '.', with at least one digit in all. */
  function ParseUnsigned(body: string): (r: Option<real>)
    ensures r.Some? ==> |body| >= 1
  {
    var ip := match FirstIndexOf(body, '.') case Some(k) => body[..k] case None => body;
    var fp := match FirstIndexOf(body, '.') case Some(k) => body[k + 1..] case None => "";
    if AllDigits(ip) && AllDigits(fp) && |ip| + |fp| >= 1 then Some(DecimalValue(ip, fp))
    else None
  }

  /** A leading '-' negates the value of an unsigned numeral and fails where it fails. */
  lemma ParseNegated(s: string)
    requires s == [] || (s[0] != '-' && s[0] != '+')
    ensures ParseDecimal("-" + s).Some? <==> ParseDecimal(s).Some?
    ensures ParseDecimal(s).Some? ==> ParseDecimal("-" + s).value == -ParseDecimal(s).value
  {
    assert ("-" + s)[1..] == s;
  }

  /** A numeral of digits only reads as its natural value. */
  lemma ParseDigits(s: string)
    requires AllDigits(s) && |s| >= 1
    ensures ParseDecimal(s) == Some(NatOf(s) as real)
  {
    assert IsAsciiDigit(s[0]);
    UnsignedDigits(s);
  }

  /** Without a '.', the unsigned part is the whole numeral and has no fraction. */
  lemma UnsignedDigits(s: string)
    requires AllDigits(s) && |s| >= 1
    ensures ParseUnsigned(s) == Some(NatOf(s) as real)
  {
    assert forall j :: 0 <= j < |s| ==> s[j] != '.';
    assert FirstIndexOf(s, '.').None?;
    assert DecimalValue(s, "") == NatOf(s) as real by {
      assert NatOf("") == 0 && Pow10(0) == 1;
    }
  }

  /** Nearest integer, ties to the even one (the rounding of fmt's `%f` verbs). */
  function RoundHalfEven(v: real): (r: int)
    ensures v - 0.5 <= r as real <= v + 0.5
    ensures r as real - v == 0.5 || v - r as real == 0.5 ==> r % 2 == 0
  {
    var f := v.Floor;
    var frac := v - f as real;
    if frac < 0.5 then f
    else if frac > 0.5 then f + 1
    else if f % 2 == 0 then f
    else f + 1
  }

  /** The two-decimal numeral of a non-negative value. */
  function UnsignedTwoDecimals(y: real): (r: string)
    requires y >= 0.0
  {
    var c := RoundHalfEven(y * 100.0);
    assert c >= 0;
    NatToString(c / 100) + "." + ZeroPad(c % 100, 2)
  }

  /** fmt's `%.2f`; a negative value gets a '-' even when it rounds to zero. */
  function TwoDecimals(x: real): string {
    if x < 0.0 then "-" + UnsignedTwoDecimals(-x) else UnsignedTwoDecimals(x)
  }

  /** The integer digits of `%.2f` (before the '.') and its two decimals. */
  lemma TwoDecimalsShape(x: real)
    requires x >= 0.0
    ensures var s := TwoDecimals(x);
      |s| >= 4 && s[|s| - 3] == '.' && AllDigits(s[..|s| - 3]) && AllDigits(s[|s| - 2..])
      && FirstIndexOf(s, '.') == Some(|s| - 3)
  {
    var c := RoundHalfEven(x * 100.0);
    NatToStringShort(c % 100);
    var ip := NatToString(c / 100);
    var s := TwoDecimals(x);
    assert s == ip + "." + ZeroPad(c % 100, 2);
    assert s[..|s| - 3] == ip;
    assert forall j :: 0 <= j < |ip| ==> s[j] == ip[j];
  }

  /** Reading `%.2f` back gives the input rounded to cents. */
  lemma TwoDecimalsRoundTrip(x: real)
    requires x >= 0.0
    ensures ParseDecimal(TwoDecimals(x)) == Some(RoundHalfEven(x * 100.0) as real / 100.0)
  {
    var c := RoundHalfEven(x * 100.0);
    var s := TwoDecimals(x);
    TwoDecimalsShape(x);
    NatToStringShort(c % 100);
    var ip := NatToString(c / 100);
    var fp := ZeroPad(c % 100, 2);
    assert s == ip + "." + fp;
    assert s[..|s| - 3] == ip;
    assert s[|s| - 2..] == fp;
    NatToStringRoundTrip(c / 100);
    assert s[0] != '-' && s[0] != '+';
    assert DecimalValue(ip, fp) == (c / 100) as real + (c % 100) as real / 100.0;
  }
}
