/**
 * The JavaScript number conversions the portal relies on, over exact reals:
 * `parseFloat` (longest decimal prefix, NaN when there is none), `Number(s)`
 * (the whole trimmed string must be a decimal literal; "" is 0), `parseInt`
 * with radix 10, `String(n)` for a natural number and `padStart`.
 * NaN is `None`. Exponents, `Infinity` and hexadecimal literals are not modelled.
 */
module JsNumber {
  import opened Wrappers
  import JsText

  predicate IsDigit(c: char) {
    '0' <= c <= '9'
  }

  predicate AllDigits(s: string) {
    forall i :: 0 <= i < |s| ==> IsDigit(s[i])
  }

  function DigitValue(c: char): nat
    requires IsDigit(c)
  {
    c as int - '0' as int
  }

  /** The natural number a string of decimal digits denotes. */
  function Digits(s: string): nat
    requires AllDigits(s)
  {
    if s == [] then 0 else 10 * Digits(s[..|s| - 1]) + DigitValue(s[|s| - 1])
  }

  /** The value of the digits after a decimal point: `.d1d2…` is `(d1 + .d2…) / 10`. */
  function Fraction(frac: string): (r: real)
    requires AllDigits(frac)
    ensures 0.0 <= r <= 1.0
  {
    if frac == [] then 0.0 else (DigitValue(frac[0]) as real + Fraction(frac[1..])) / 10.0
  }

  /** The value of the decimal literal `intPart.frac`. */
  function Decimal(intPart: string, frac: string): (r: real)
    requires AllDigits(intPart) && AllDigits(frac)
    ensures r >= 0.0
  {
    Digits(intPart) as real + Fraction(frac)
  }

  /** The end of the run of digits that starts at i. */
  function DigitRun(s: string, i: nat): (j: nat)
    requires i <= |s|
    ensures i <= j <= |s|
    ensures AllDigits(s[i..j])
    ensures j < |s| ==> !IsDigit(s[j])
    decreases |s| - i
  {
    if i < |s| && IsDigit(s[i]) then
      var j := DigitRun(s, i + 1);
      assert s[i..j] == [s[i]] + s[i + 1..j];
      j
    else i
  }

  /**
   * An unsigned decimal literal read greedily from position i: digits, an
   * optional '.', digits, with at least one digit in all. Its value and the
   * position just after it. When s[i] is a digit this is exactly what the
   * regular expression `\d+\.?\d*` matches at i.
   */
  function ScanUnsigned(s: string, i: nat): (r: Option<(real, nat)>)
    requires i <= |s|
    ensures r.Some? ==> i < r.value.1 <= |s| && r.value.0 >= 0.0
    ensures i < |s| && IsDigit(s[i]) ==> r.Some?
    ensures r.Some? ==> r.value.1 == |s| || !IsDigit(s[r.value.1])
  {
    var j := DigitRun(s, i);
    if j < |s| && s[j] == '.' then
      var k := DigitRun(s, j + 1);
      if j == i && k == j + 1 then None
      else Some((Decimal(s[i..j], s[j + 1..k]), k))
    else if j == i then None
    else Some((Decimal(s[i..j], []), j))
  }

  /**
   * `parseFloat(s)`: leading blanks, an optional sign, then the longest
   * decimal literal. Text that starts with a digit always gives a
   * non-negative number.
   */
  function ParseFloat(s: string): (r: Option<real>)
    ensures s != [] && IsDigit(s[0]) ==> r.Some? && r.value >= 0.0
  {
    var t := JsText.TrimStart(s);
    var signed := t != [] && (t[0] == '-' || t[0] == '+');
    match ScanUnsigned(t, if signed then 1 else 0)
    case None => None
    case Some((v, _)) => Some(if signed && t[0] == '-' then -v else v)
  }

  /** `Number(s)` for a string: the trimmed string must be one decimal literal; "" gives 0. */
  function ToNumber(s: string): (r: Option<real>)
  {
    var t := JsText.Trim(s);
    if t == [] then Some(0.0)
    else
      var signed := t[0] == '-' || t[0] == '+';
      match ScanUnsigned(t, if signed then 1 else 0)
      case None => None
      case Some((v, end)) => if end == |t| then Some(if signed && t[0] == '-' then -v else v) else None
  }

  /**
   * Where `Number` accepts a non-blank string, `parseFloat` reads the same
   * number from it: the two differ only on text after the literal and on "".
   */
  lemma ToNumberAgreesWithParseFloat(s: string)
    ensures JsText.Trim(s) != [] && ToNumber(s).Some? ==> ParseFloat(s) == ToNumber(s)
  {
    var t := JsText.Trim(s);
    if t != [] && ToNumber(s).Some? {
      var t0 := JsText.TrimStart(s);
      assert t == t0[..|t|];
      var signed := t[0] == '-' || t[0] == '+';
      var start := if signed then 1 else 0;
      ScanPrefixStable(t0, |t|, start);
    }
  }

  /** Reading a literal that ends inside a prefix of s gives the same result on s. */
  lemma ScanPrefixStable(s: string, n: nat, i: nat)
    requires i <= n <= |s|
    requires ScanUnsigned(s[..n], i).Some? && ScanUnsigned(s[..n], i).value.1 == n
    requires n == |s| || (!IsDigit(s[n]) && s[n] != '.')
    ensures ScanUnsigned(s, i) == ScanUnsigned(s[..n], i)
  {
    var p := s[..n];
    DigitRunPrefix(s, n, i);
    var j := DigitRun(p, i);
    PrefixSlice(s, n, i, j);
    if j < n && p[j] == '.' {
      DigitRunPrefix(s, n, j + 1);
      PrefixSlice(s, n, j + 1, DigitRun(p, j + 1));
    }
  }

  /** A slice inside a prefix is the same slice of the whole string. */
  lemma PrefixSlice(s: string, n: nat, a: nat, b: nat)
    requires a <= b <= n <= |s|
    ensures s[..n][a..b] == s[a..b]
  {
  }

  /** A digit run that stops inside a prefix stops at the same place in the whole string. */
  lemma {:induction false} DigitRunPrefix(s: string, n: nat, i: nat)
    requires i <= n <= |s|
    requires DigitRun(s[..n], i) < n || n == |s| || !IsDigit(s[n])
    ensures DigitRun(s, i) == DigitRun(s[..n], i)
    decreases n - i
  {
    if i < n && IsDigit(s[i]) {
      DigitRunPrefix(s, n, i + 1);
    }
  }

  /**
   * `parseInt(s, 10)`: leading blanks, an optional sign, then at least one
   * digit. Text that starts with a digit gives a natural number.
   */
  function ParseInt(s: string): (r: Option<int>)
    ensures s != [] && IsDigit(s[0]) ==> r.Some? && r.value >= 0
  {
    var t := JsText.TrimStart(s);
    var start := if t != [] && (t[0] == '-' || t[0] == '+') then 1 else 0;
    var end := DigitRun(t, start);
    if end == start then None
    else
      var n: int := Digits(t[start..end]);
      Some(if start == 1 && t[0] == '-' then -n else n)
  }

  /** `String(n)` for a natural number: its decimal digits, with no leading zero. */
  function NatToString(n: nat): (r: string)
    ensures r != [] && AllDigits(r)
    ensures |r| > 1 ==> r[0] != '0'
  {
    var last := ['0' + (n % 10) as char];
    if n < 10 then last else NatToString(n / 10) + last
  }

  /** Reading back the digits `String(n)` writes gives n. */
  lemma {:induction false} NatToStringDigits(n: nat)
    ensures Digits(NatToString(n)) == n
  {
    var s := NatToString(n);
    if n >= 10 {
      NatToStringDigits(n / 10);
      assert s[..|s| - 1] == NatToString(n / 10);
    }
  }

  /** `s.padStart(width, '0')`: zeros in front up to the width; a string already that wide is kept. */
  function PadZeros(s: string, width: nat): (r: string)
    ensures |r| == if |s| < width then width else |s|
    ensures forall i :: 0 <= i < |r| - |s| ==> r[i] == '0'
    ensures r[|r| - |s|..] == s
  {
    if |s| < width then seq(width - |s|, _ => '0') + s else s
  }

  /** A string of zeros denotes 0. */
  lemma {:induction false} ZerosDigits(z: string)
    requires forall i :: 0 <= i < |z| ==> z[i] == '0'
    ensures AllDigits(z) && Digits(z) == 0
  {
    if z != [] {
      ZerosDigits(z[..|z| - 1]);
    }
  }

  /** Leading zeros do not change the number a digit string denotes. */
  lemma {:induction false} LeadingZerosDigits(z: string, s: string)
    requires forall i :: 0 <= i < |z| ==> z[i] == '0'
    requires AllDigits(s)
    ensures AllDigits(z + s) && Digits(z + s) == Digits(s)
  {
    if s == [] {
      assert z + s == z;
      ZerosDigits(z);
    } else {
      var t := z + s;
      LeadingZerosDigits(z, s[..|s| - 1]);
      assert t[..|t| - 1] == z + s[..|s| - 1];
    }
  }

  /** Zero padding keeps the denoted number. */
  lemma PadZerosDigits(s: string, width: nat)
    requires AllDigits(s)
    ensures AllDigits(PadZeros(s, width)) && Digits(PadZeros(s, width)) == Digits(s)
  {
    var r := PadZeros(s, width);
    var z := r[..|r| - |s|];
    assert r == z + s;
    LeadingZerosDigits(z, s);
  }
}
