/** Shared vocabulary of the recorder model: bytes, fixed-width unsigned
    integers, little-endian fields, C++ integer division, decimal text, and
    the Option/Result/Outcome wrappers that stand for the source's error
    returns and exceptions. */
module Common {

  newtype byte = x: int | 0 <= x < 256

  const U16_LIMIT: int := 0x1_0000
  const U32_LIMIT: int := 0x1_0000_0000
  const INT32_MIN: int := -0x8000_0000
  const INT32_MAX: int := 0x7FFF_FFFF

  predicate IsU16(x: int) { 0 <= x < U16_LIMIT }
  predicate IsU32(x: int) { 0 <= x < U32_LIMIT }
  predicate IsInt32(x: int) { INT32_MIN <= x <= INT32_MAX }

  datatype Option<+T> = None | Some(value: T)

  datatype Result<+T, +E> = Ok(value: T) | Err(error: E)

  datatype Outcome<+E> = Pass | Fail(error: E)

  function Min(a: int, b: int): int { if a <= b then a else b }
  function Max(a: int, b: int): int { if a >= b then a else b }

  /** std::clamp(v, lo, hi) */
  function Clamp(v: int, lo: int, hi: int): (r: int)
    requires lo <= hi
    ensures lo <= r <= hi
    ensures lo <= v <= hi ==> r == v
    ensures v < lo ==> r == lo
    ensures v > hi ==> r == hi
  {
    if v < lo then lo else if v > hi then hi else v
  }

  /** Division as C++ performs it on signed integers: the quotient is
      truncated toward zero (Dafny's `/` is Euclidean). */
  function TruncDiv(a: int, b: int): (q: int)
    requires b != 0
    ensures b > 0 && a >= 0 ==> q == a / b
  {
    if a >= 0 then
      (if b > 0 then a / b else -(a / -b))
    else
      (if b > 0 then -((-a) / b) else (-a) / (-b))
  }

  /** For a positive divisor, the truncated quotient lies between the
      quotient's floor and ceiling and the remainder has the dividend's sign:
      |a - q*b| < b, with q*b on the zero side of a. */
  lemma TruncDivBounds(a: int, b: int)
    requires b > 0
    ensures a >= 0 ==> 0 <= a - TruncDiv(a, b) * b < b
    ensures a < 0 ==> -b < a - TruncDiv(a, b) * b <= 0
  {
    if a < 0 {
      var q := (-a) / b;
      assert -a == q * b + (-a) % b;
      assert TruncDiv(a, b) == -q;
      assert a - TruncDiv(a, b) * b == -((-a) % b);
    }
  }

  /** The unsigned value of a little-endian byte string. */
  function LeValue(s: seq<byte>): (v: nat)
  {
    if s == [] then 0 else s[0] as nat + 256 * LeValue(s[1..])
  }

  /** The n-byte little-endian encoding of v, truncated to n bytes as a
      store into an n-byte field does. */
  function LeBytes(v: nat, n: nat): (s: seq<byte>)
    ensures |s| == n
  {
    if n == 0 then [] else [(v % 256) as byte] + LeBytes(v / 256, n - 1)
  }

  function Pow256(n: nat): (p: nat)
    ensures p >= 1
  {
    if n == 0 then 1 else 256 * Pow256(n - 1)
  }

  lemma {:induction false} LeRoundTrip(v: nat, n: nat)
    ensures LeValue(LeBytes(v, n)) == v % Pow256(n)
  {
    if n > 0 {
      LeRoundTrip(v / 256, n - 1);
      var s := LeBytes(v, n);
      assert s[1..] == LeBytes(v / 256, n - 1);
      var p := Pow256(n - 1);
      // v == 256*(v/256) + v%256 and (v/256) == p*((v/256)/p) + (v/256)%p
      calc {
        LeValue(s);
        (v % 256) + 256 * ((v / 256) % p);
        { ModOfMul256(v, p); }
        v % (256 * p);
      }
    }
  }

  lemma ModOfMul256(v: nat, p: nat)
    requires p >= 1
    ensures (v % 256) + 256 * ((v / 256) % p) == v % (256 * p)
  {
    var a := v / 256;
    var r := v % 256;
    var q := a / p;
    var m := a % p;
    assert a == q * p + m;
    assert v == 256 * a + r;
    assert v == (256 * p) * q + (256 * m + r) by {
      calc {
        v;
        256 * a + r;
        256 * (q * p + m) + r;
        (256 * p) * q + (256 * m + r);
      }
    }
    assert 0 <= 256 * m + r < 256 * p;
    ModUnique(v, q, 256 * m + r, 256 * p);
  }

  /** The remainder of p by d is the unique r with p == k*d + r, 0 <= r < d. */
  lemma ModUnique(p: int, k: int, r: int, d: int)
    requires d > 0 && 0 <= r < d && p == k * d + r
    ensures p % d == r && p / d == k
  {
    var q := p / d;
    var m := p % d;
    assert p == q * d + m;
    assert (q - k) * d == r - m;
    MulAtLeast(q - k, d);
  }

  lemma MulAtLeast(a: int, d: int)
    requires d > 0
    ensures a >= 1 ==> a * d >= d
    ensures a <= -1 ==> a * d <= -d
  {
  }

  lemma LeValueBound(s: seq<byte>)
    ensures LeValue(s) < Pow256(|s|)
  {
  }

  function LE16(v: nat): (s: seq<byte>) requires IsU16(v) ensures |s| == 2 { LeBytes(v, 2) }
  function LE32(v: nat): (s: seq<byte>) requires IsU32(v) ensures |s| == 4 { LeBytes(v, 4) }

  /** Decoding a little-endian field gives back the value stored in it. */
  lemma LE32RoundTrip(v: nat)
    requires IsU32(v)
    ensures LeValue(LE32(v)) == v
  {
    LeRoundTrip(v, 4);
    assert Pow256(4) == U32_LIMIT;
  }

  lemma LE16RoundTrip(v: nat)
    requires IsU16(v)
    ensures LeValue(LE16(v)) == v
  {
    LeRoundTrip(v, 2);
    assert Pow256(2) == U16_LIMIT;
  }

  // ---------------------------------------------------------------------
  // Decimal text
  // ---------------------------------------------------------------------

  predicate IsDigit(c: char) { '0' <= c <= '9' }

  predicate AllDigits(s: string) { forall i :: 0 <= i < |s| ==> IsDigit(s[i]) }

  function DigitChar(d: nat): (c: char)
    requires d < 10
    ensures IsDigit(c)
  {
    ('0' as int + d) as char
  }

  /** The shortest decimal rendering of n (std::to_wstring, operator<<). */
  function Decimal(n: nat): (s: string)
    ensures |s| >= 1
    ensures AllDigits(s)
    decreases n
  {
    if n < 10 then [DigitChar(n)] else Decimal(n / 10) + [DigitChar(n % 10)]
  }

  /** The value of a string of decimal digits (leading zeros allowed). */
  function DigitsValue(s: string): nat
    requires AllDigits(s)
  {
    if s == [] then 0
    else
      var c := s[|s| - 1];
      assert IsDigit(c);
      10 * DigitsValue(s[..|s| - 1]) + (c as int - '0' as int)
  }

  lemma {:induction false} DecimalValue(n: nat)
    ensures DigitsValue(Decimal(n)) == n
    decreases n
  {
    if n >= 10 {
      DecimalValue(n / 10);
      var s := Decimal(n);
      assert s[..|s| - 1] == Decimal(n / 10);
    }
  }

  /** n rendered with std::setw(w) << std::setfill('0'): zero-padded on the
      left to at least w digits and never truncated. */
  function ZeroPadded(n: nat, w: nat): (s: string)
    ensures |s| == Max(w, |Decimal(n)|)
    ensures AllDigits(s)
  {
    var d := Decimal(n);
    if |d| >= w then d else seq(w - |d|, _ => '0') + d
  }

  lemma {:induction false} LeadingZerosValue(k: nat, d: string)
    requires AllDigits(d)
    ensures AllDigits(seq(k, _ => '0') + d)
    ensures DigitsValue(seq(k, _ => '0') + d) == DigitsValue(d)
    decreases |d|
  {
    var z := seq(k, _ => '0');
    if d == [] {
      assert z + d == z;
      ZerosValue(k);
    } else {
      var d' := d[..|d| - 1];
      LeadingZerosValue(k, d');
      assert (z + d)[..|z + d| - 1] == z + d';
    }
  }

  lemma {:induction false} ZerosValue(k: nat)
    ensures DigitsValue(seq(k, _ => '0')) == 0
  {
    if k > 0 {
      ZerosValue(k - 1);
      assert seq(k, _ => '0')[..k - 1] == seq(k - 1, _ => '0');
    }
  }

  /** Zero padding keeps the number: reading the padded digits gives n back,
      so different numbers never render the same. */
  lemma ZeroPaddedValue(n: nat, w: nat)
    ensures DigitsValue(ZeroPadded(n, w)) == n
  {
    var d := Decimal(n);
    DecimalValue(n);
    if |d| < w {
      LeadingZerosValue(w - |d|, d);
    }
  }

  lemma ZeroPaddedInjective(m: nat, n: nat, w: nat)
    requires ZeroPadded(m, w) == ZeroPadded(n, w)
    ensures m == n
  {
    ZeroPaddedValue(m, w);
    ZeroPaddedValue(n, w);
  }

  // ---------------------------------------------------------------------
  // Case folding
  // ---------------------------------------------------------------------

  /** towlower restricted to ASCII letters. */
  function LowerChar(c: char): char
  {
    if 'A' <= c <= 'Z' then (c as int + 32) as char else c
  }

  function Lower(s: string): (r: string)
    ensures |r| == |s|
    ensures forall i :: 0 <= i < |s| ==> r[i] == LowerChar(s[i])
  {
    seq(|s|, i requires 0 <= i < |s| => LowerChar(s[i]))
  }
}
