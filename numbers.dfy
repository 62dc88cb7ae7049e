/**
 * Numbers as the codecs see them. The source reads every numeric field with Python's
 * `float(...)` or `int(...)` and writes it back with `str(...)`. A float of the model is
 * a canonical decimal fraction `mantissa / 10^exponent`; canonical means that the
 * mantissa carries no trailing zero digit when the exponent is positive, so that two
 * decimals are equal exactly when they denote the same number (CanonicalUnique).
 */
module Numbers {
  import opened Wrappers
  import opened Text

  function Pow10(n: nat): (r: nat)
    ensures r >= 1
  {
    if n == 0 then 1 else 10 * Pow10(n - 1)
  }

  function Abs(i: int): nat {
    if i < 0 then -i else i
  }

  // ----- digit strings -----

  predicate IsDigit(c: char) {
    '0' <= c <= '9'
  }

  predicate AllDigits(s: string) {
    forall i :: 0 <= i < |s| ==> IsDigit(s[i])
  }

  function DigitValue(c: char): (d: nat)
    requires IsDigit(c)
    ensures d < 10
  {
    c as int - '0' as int
  }

  function DigitChar(d: nat): (c: char)
    requires d < 10
    ensures IsDigit(c) && DigitValue(c) == d
  {
    ('0' as int + d) as char
  }

  /** The value of a digit string, most significant digit first. */
  function DigitsValue(s: string): nat
    requires AllDigits(s)
  {
    if s == [] then 0 else DigitsValue(s[..|s| - 1]) * 10 + DigitValue(s[|s| - 1])
  }

  /** The shortest digit string of `n`; "0" for zero. */
  function NatDigits(n: nat): (s: string)
    ensures AllDigits(s) && |s| >= 1
  {
    if n < 10 then [DigitChar(n)] else NatDigits(n / 10) + [DigitChar(n % 10)]
  }

  function Zeros(k: nat): (s: string)
    ensures |s| == k && AllDigits(s)
  {
    if k == 0 then [] else Zeros(k - 1) + ['0']
  }

  /** The position of the first '.' in `s`, or `|s|` when there is none. */
  function IndexOfDot(s: string): (k: nat)
    ensures k <= |s|
    ensures k < |s| ==> s[k] == '.'
    ensures forall i :: 0 <= i < k ==> s[i] != '.'
  {
    if s == [] || s[0] == '.' then 0 else 1 + IndexOfDot(s[1..])
  }

  // ----- decimals -----

  datatype DecimalRep = Dec(mantissa: int, exponent: nat)

  /** A float of the source, as a canonical decimal fraction. */
  type Decimal = d: DecimalRep | d.exponent == 0 || d.mantissa % 10 != 0 witness Dec(0, 0)

  predicate NonNegative(d: Decimal) {
    d.mantissa >= 0
  }

  /** Python's truthiness of a float: false exactly for zero. */
  predicate IsZero(d: Decimal) {
    d.mantissa == 0
  }

  const One: Decimal := Dec(1, 0)

  /** Python's `float(i)` for an integer. */
  function FromInt(i: int): (d: Decimal)
    ensures d.mantissa == i && d.exponent == 0
  {
    Dec(i, 0)
  }

  /** The canonical decimal of `m / 10^e`. */
  function Normalize(m: nat, e: nat): (d: Decimal)
    ensures d.mantissa >= 0 && d.exponent <= e
    ensures d.mantissa * Pow10(e - d.exponent) == m
    decreases e
  {
    if e > 0 && m % 10 == 0 then
      var d := Normalize(m / 10, e - 1);
      assert Pow10(e - d.exponent) == 10 * Pow10(e - 1 - d.exponent);
      assert d.mantissa * Pow10(e - 1 - d.exponent) == m / 10;
      assert d.mantissa * (10 * Pow10(e - 1 - d.exponent)) == 10 * (m / 10);
      d
    else
      Dec(m, e)
  }

  function Negate(d: Decimal): (r: Decimal)
    ensures r.mantissa == -d.mantissa && r.exponent == d.exponent
  {
    NegatedMod10(d.mantissa);
    Dec(-d.mantissa, d.exponent)
  }

  /** Python's `int(x)` for a float `x`: truncation toward zero. */
  function Truncate(d: Decimal): (i: int)
    ensures Abs(i) * Pow10(d.exponent) <= Abs(d.mantissa) < (Abs(i) + 1) * Pow10(d.exponent)
    ensures i == 0 || (i < 0 <==> d.mantissa < 0)
  {
    var q: int := Quotient(Abs(d.mantissa), Pow10(d.exponent));
    if d.mantissa < 0 then -q else q
  }

  /** The integer part of `a / p`. */
  function Quotient(a: nat, p: nat): (q: nat)
    requires p > 0
    ensures q * p <= a < (q + 1) * p
  {
    DivBounds(a, p);
    a / p
  }

  /**
   * Python's `float(s)` on decimal notation: surrounding whitespace, an optional sign, digits
   * with at most one decimal point and at least one digit.
   */
  function ParseNum(s: string): (r: Option<Decimal>)
  {
    var t := Strip(s);
    if t != [] && t[0] == '-' then
      match ParseUnsigned(t[1..])
      case Some(d) => Some(Negate(d))
      case None => None
    else if t != [] && t[0] == '+' then ParseUnsigned(t[1..])
    else ParseUnsigned(t)
  }

  /** Digits with at most one decimal point and at least one digit. */
  function ParseUnsigned(body: string): (r: Option<Decimal>)
    ensures r.Some? ==> NonNegative(r.value)
  {
    var k := IndexOfDot(body);
    var ip := body[..k];
    var fp := if k < |body| then body[k + 1..] else [];
    if AllDigits(ip) && AllDigits(fp) && |ip| + |fp| > 0 then
      Some(Normalize(DigitsValue(ip + fp), |fp|))
    else
      None
  }

  /** The characters `str()` of a number can produce. */
  predicate NumChar(c: char) {
    IsDigit(c) || c == '-' || c == '.'
  }

  /** Python's `str(x)` for a float, in positional notation. */
  function FormatNum(d: Decimal): (s: string)
    ensures |s| >= 3 && forall i :: 0 <= i < |s| ==> NumChar(s[i])
  {
    var sign := if d.mantissa < 0 then "-" else "";
    var ds := NatDigits(Abs(d.mantissa));
    if d.exponent == 0 then sign + ds + ".0"
    else
      var p := Padded(ds, d.exponent);
      sign + p[..|p| - d.exponent] + "." + p[|p| - d.exponent..]
  }

  /** `ds` with leading zeros so that at least one digit stands before the point. */
  function Padded(ds: string, e: nat): (p: string)
    requires AllDigits(ds)
    ensures |p| >= e + 1 && AllDigits(p)
    ensures DigitsValue(p) == DigitsValue(ds)
  {
    var z := if |ds| <= e then e + 1 - |ds| else 0;
    LeadingZeros(z, ds);
    Zeros(z) + ds
  }

  /** Python's `int(s)`: surrounding whitespace, an optional sign and at least one digit. */
  function ParseInt(s: string): (r: Option<int>)
  {
    var t := Strip(s);
    if t != [] && t[0] == '-' then
      match ParseDigits(t[1..])
      case Some(n) => Some(-n)
      case None => None
    else if t != [] && t[0] == '+' then ParseDigits(t[1..])
    else ParseDigits(t)
  }

  function ParseDigits(body: string): (r: Option<int>)
    ensures r.Some? ==> r.value >= 0
  {
    if body != [] && AllDigits(body) then Some(DigitsValue(body)) else None
  }

  /** Python's `str(i)` for an integer. */
  function FormatInt(i: int): (s: string)
    ensures |s| >= 1 && forall k :: 0 <= k < |s| ==> NumChar(s[k])
  {
    (if i < 0 then "-" else "") + NatDigits(Abs(i))
  }

  // ----- lemmas -----

  lemma NegatedMod10(m: int)
    ensures (m % 10 == 0) == ((-m) % 10 == 0)
  {
    if m % 10 == 0 {
      NegatedMultiple(m);
    }
    if (-m) % 10 == 0 {
      NegatedMultiple(-m);
    }
  }

  lemma NegatedMultiple(m: int)
    requires m % 10 == 0
    ensures (-m) % 10 == 0
  {
    var q := m / 10;
    assert m == 10 * q;
    assert -m == 10 * (-q);
  }

  lemma DivBounds(a: nat, p: nat)
    requires p > 0
    ensures a / p >= 0
    ensures (a / p) * p <= a < (a / p + 1) * p
  {
    var q, r := a / p, a % p;
    assert a == q * p + r && 0 <= r < p;
    assert (q + 1) * p == q * p + p;
    if q < 0 {
      MulSign(q + 1, p);
      assert false;
    }
  }

  lemma {:induction false} NatDigitsValue(n: nat)
    ensures DigitsValue(NatDigits(n)) == n
  {
    if n >= 10 {
      var s := NatDigits(n);
      assert s[..|s| - 1] == NatDigits(n / 10);
      NatDigitsValue(n / 10);
    }
  }

  lemma {:induction false} DigitsValueConcat(a: string, b: string)
    requires AllDigits(a) && AllDigits(b)
    ensures AllDigits(a + b)
    ensures DigitsValue(a + b) == DigitsValue(a) * Pow10(|b|) + DigitsValue(b)
  {
    if b == [] {
      assert a + b == a;
    } else {
      var ab := a + b;
      var b' := b[..|b| - 1];
      assert ab[..|ab| - 1] == a + b';
      assert ab[|ab| - 1] == b[|b| - 1];
      DigitsValueConcat(a, b');
      var x, y, c := DigitsValue(a), DigitsValue(b'), DigitValue(b[|b| - 1]);
      assert DigitsValue(ab) == (x * Pow10(|b'|) + y) * 10 + c;
      assert DigitsValue(b) == y * 10 + c;
      assert Pow10(|b|) == 10 * Pow10(|b'|);
      ShiftDigit(x, y, c, Pow10(|b'|));
    }
  }

  lemma ShiftDigit(x: int, y: int, c: int, p: int)
    ensures (x * p + y) * 10 + c == x * (10 * p) + (y * 10 + c)
  {
  }

  lemma {:induction false} ZerosValue(k: nat)
    ensures DigitsValue(Zeros(k)) == 0
  {
    if k > 0 {
      var z := Zeros(k);
      assert z[..k - 1] == Zeros(k - 1);
      ZerosValue(k - 1);
    }
  }

  /** Leading zeros do not change the value of a digit string. */
  lemma LeadingZeros(k: nat, s: string)
    requires AllDigits(s)
    ensures AllDigits(Zeros(k) + s) && DigitsValue(Zeros(k) + s) == DigitsValue(s)
  {
    DigitsValueConcat(Zeros(k), s);
    ZerosValue(k);
  }

  /** Every decimal is read back by `float` exactly as `str` wrote it. */
  lemma ParseFormatNum(d: Decimal)
    ensures ParseNum(FormatNum(d)) == Some(d)
  {
    var ip, fp := FormatNumSplit(d);
    var sign := if d.mantissa < 0 then "-" else "";
    ParseSignedBody(sign, ip, fp);
  }

  /** `str(x)` is an optional minus, integer digits, a point and fraction digits. */
  lemma FormatNumSplit(d: Decimal) returns (ip: string, fp: string)
    ensures FormatNum(d) == (if d.mantissa < 0 then "-" else "") + ip + "." + fp
    ensures AllDigits(ip) && AllDigits(fp) && |ip| >= 1 && |fp| >= 1
    ensures Normalize(DigitsValue(ip + fp), |fp|) == Dec(Abs(d.mantissa), d.exponent)
  {
    if d.exponent == 0 {
      ip, fp := IntegralSplit(d);
    } else {
      ip, fp := FractionalSplit(d);
    }
  }

  lemma IntegralSplit(d: Decimal) returns (ip: string, fp: string)
    requires d.exponent == 0
    ensures FormatNum(d) == (if d.mantissa < 0 then "-" else "") + ip + "." + fp
    ensures AllDigits(ip) && AllDigits(fp) && |ip| >= 1 && |fp| >= 1
    ensures Normalize(DigitsValue(ip + fp), |fp|) == Dec(Abs(d.mantissa), d.exponent)
  {
    var mag := Abs(d.mantissa);
    var ds := NatDigits(mag);
    NatDigitsValue(mag);
    ip, fp := ds, "0";
    assert (ds + "0")[..|ds|] == ds;
    assert DigitsValue(ip + fp) == mag * 10;
    assert (mag * 10) % 10 == 0 && (mag * 10) / 10 == mag;
  }

  lemma FractionalSplit(d: Decimal) returns (ip: string, fp: string)
    requires d.exponent > 0
    ensures FormatNum(d) == (if d.mantissa < 0 then "-" else "") + ip + "." + fp
    ensures AllDigits(ip) && AllDigits(fp) && |ip| >= 1 && |fp| >= 1
    ensures Normalize(DigitsValue(ip + fp), |fp|) == Dec(Abs(d.mantissa), d.exponent)
  {
    var e := d.exponent;
    var mag := Abs(d.mantissa);
    var ds := NatDigits(mag);
    NatDigitsValue(mag);
    var padded := Padded(ds, e);
    ip, fp := padded[..|padded| - e], padded[|padded| - e..];
    AllDigitsSlices(padded, |padded| - e);
    assert ip + fp == padded;
    assert DigitsValue(ip + fp) == mag;
    NegatedMod10(d.mantissa);
    assert mag % 10 != 0;
    assert Normalize(mag, e) == Dec(mag, e);
  }

  lemma AllDigitsSlices(s: string, k: nat)
    requires AllDigits(s) && k <= |s|
    ensures AllDigits(s[..k]) && AllDigits(s[k..])
  {
    assert forall i :: 0 <= i < k ==> s[..k][i] == s[i];
    assert forall i :: 0 <= i < |s| - k ==> s[k..][i] == s[k + i];
  }

  lemma ParseSignedBody(sign: string, ip: string, fp: string)
    requires sign == "" || sign == "-"
    requires AllDigits(ip) && AllDigits(fp) && |ip| >= 1 && |fp| >= 1
    ensures ParseNum(sign + ip + "." + fp) ==
      var n := Normalize(DigitsValue(ip + fp), |fp|);
      Some(if sign == "-" then Negate(n) else n)
  {
    var body := ip + "." + fp;
    NumTextUnstripped(sign + body, sign, ip, fp);
    ParseUnsignedDigits(ip, fp);
    if sign == "-" {
      ParseNegative(body, Normalize(DigitsValue(ip + fp), |fp|));
    } else {
      assert sign + body == body;
      ParsePlain(body);
    }
  }

  lemma ParseNegative(body: string, n: Decimal)
    requires Strip("-" + body) == "-" + body
    requires ParseUnsigned(body) == Some(n)
    ensures ParseNum("-" + body) == Some(Negate(n))
  {
    assert ("-" + body)[1..] == body;
  }

  lemma ParsePlain(body: string)
    requires Strip(body) == body && body != [] && IsDigit(body[0])
    ensures ParseNum(body) == ParseUnsigned(body)
  {
  }

  lemma ParseUnsignedDigits(ip: string, fp: string)
    requires AllDigits(ip) && AllDigits(fp) && |ip| >= 1 && |fp| >= 1
    ensures ParseUnsigned(ip + "." + fp) == Some(Normalize(DigitsValue(ip + fp), |fp|))
  {
    DotSplit(ip, fp);
  }

  lemma NumTextUnstripped(s: string, sign: string, ip: string, fp: string)
    requires sign == "" || sign == "-"
    requires AllDigits(ip) && AllDigits(fp) && |ip| >= 1 && |fp| >= 1
    requires s == sign + ip + "." + fp
    ensures Strip(s) == s
    ensures sign == "-" ==> s[0] == '-'
    ensures sign == "" ==> IsDigit(s[0])
  {
    assert s[|s| - 1] == fp[|fp| - 1];
    assert IsDigit(fp[|fp| - 1]);
    if sign == "" {
      assert s[0] == ip[0];
      assert IsDigit(ip[0]);
    } else {
      assert s[0] == '-';
    }
    StripUnchanged(s);
  }

  lemma DotSplit(ip: string, fp: string)
    requires AllDigits(ip)
    ensures var body := ip + "." + fp;
      var k := IndexOfDot(body);
      k == |ip| && body[..k] == ip && body[k + 1..] == fp
  {
    var body := ip + "." + fp;
    var k := IndexOfDot(body);
    assert body[|ip|] == '.';
    assert forall i :: 0 <= i < |ip| ==> body[i] == ip[i] && body[i] != '.';
    assert k == |ip|;
    assert body[..k] == ip;
    assert body[k + 1..] == fp;
  }

  /** Every integer is read back by `int` exactly as `str` wrote it. */
  lemma ParseFormatInt(i: int)
    ensures ParseInt(FormatInt(i)) == Some(i)
  {
    var ds := NatDigits(Abs(i));
    NatDigitsValue(Abs(i));
    IntTextUnstripped(i);
    assert ParseDigits(ds) == Some(Abs(i));
    if i < 0 {
      assert FormatInt(i)[1..] == ds;
    } else {
      assert FormatInt(i) == ds;
    }
  }

  lemma IntTextUnstripped(i: int)
    ensures Strip(FormatInt(i)) == FormatInt(i)
    ensures FormatInt(i)[0] == '-' <==> i < 0
    ensures FormatInt(i)[0] != '+'
  {
    var s := FormatInt(i);
    var ds := NatDigits(Abs(i));
    assert IsDigit(ds[|ds| - 1]) && s[|s| - 1] == ds[|ds| - 1];
    if i >= 0 {
      assert s == ds;
      assert IsDigit(s[0]);
    }
    StripUnchanged(s);
  }

  lemma Pow10Add(a: nat, b: nat)
    ensures Pow10(a + b) == Pow10(a) * Pow10(b)
  {
    if b > 0 {
      Pow10Add(a, b - 1);
      assert Pow10(a + b) == 10 * Pow10(a + b - 1);
      assert Pow10(a) * Pow10(b) == Pow10(a) * (10 * Pow10(b - 1));
    }
  }

  /**
   * Canonical decimals denote distinct numbers: two of them that are equal as fractions
   * (`a.m / 10^a.e == b.m / 10^b.e`) are the same value, so datatype equality is numeric
   * equality, as the source's float comparisons need.
   */
  lemma CanonicalUnique(a: Decimal, b: Decimal)
    requires a.mantissa * Pow10(b.exponent) == b.mantissa * Pow10(a.exponent)
    ensures a == b
  {
    if a.exponent < b.exponent {
      ScaledMantissa(a, b);
      assert false;
    } else if b.exponent < a.exponent {
      ScaledMantissa(b, a);
      assert false;
    } else {
      MulCancel(a.mantissa, b.mantissa, Pow10(a.exponent));
    }
  }

  /** Scaling a decimal to a larger exponent leaves a mantissa divisible by ten. */
  lemma ScaledMantissa(a: Decimal, b: DecimalRep)
    requires a.exponent < b.exponent
    requires a.mantissa * Pow10(b.exponent) == b.mantissa * Pow10(a.exponent)
    ensures b.mantissa % 10 == 0
  {
    var k := b.exponent - a.exponent;
    Pow10Add(a.exponent, k);
    ScaleDivides(a.mantissa, b.mantissa, Pow10(a.exponent), Pow10(k), Pow10(k - 1));
  }

  lemma ScaleDivides(x: int, y: int, pa: int, pk: int, pk1: int)
    requires pa > 0 && pk == 10 * pk1
    requires x * (pa * pk) == y * pa
    ensures y % 10 == 0
  {
    MulAssoc(x, pa, pk);
    assert (x * pk) * pa == y * pa;
    MulCancel(x * pk, y, pa);
    MulAssoc(x, 10, pk1);
    TenfoldMod(x * pk1);
  }

  lemma MulAssoc(x: int, y: int, z: int)
    ensures x * (y * z) == (x * z) * y == (x * y) * z
  {
  }

  lemma TenfoldMod(x: int)
    ensures (10 * x) % 10 == 0
  {
  }

  lemma MulCancel(x: int, y: int, p: nat)
    requires p > 0 && x * p == y * p
    ensures x == y
  {
    MulSign(x - y, p);
    assert (x - y) * p == x * p - y * p;
  }

  lemma MulSign(d: int, p: nat)
    requires p > 0
    ensures d > 0 ==> d * p > 0
    ensures d < 0 ==> d * p < 0
  {
  }

  /** The text of a number is one word: non-empty, no whitespace, no parenthesis, no quote. */
  lemma NumTextIsWord(s: string)
    requires |s| >= 1 && forall i :: 0 <= i < |s| ==> NumChar(s[i])
    ensures IsWord(s) && s[0] != '"'
    ensures forall i :: 0 <= i < |s| ==> s[i] != ')' && s[i] != '('
  {
    assert NumChar(s[0]);
  }

  /** A plain digit string reads as the whole number it spells. */
  lemma ParseWhole(s: string)
    requires |s| >= 1 && AllDigits(s)
    ensures ParseNum(s) == Some(Dec(DigitsValue(s), 0))
  {
    assert IsDigit(s[0]) && IsDigit(s[|s| - 1]);
    StripUnchanged(s);
    assert IndexOfDot(s) == |s|;
    assert s[..|s|] == s;
    assert s + [] == s;
  }
}
