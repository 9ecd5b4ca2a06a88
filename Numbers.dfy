/** Exact integer arithmetic on byte strings: powers, big-endian integers, decimal text. */
module Numbers {
  /** One byte of a Python `bytes` object. */
  type Byte = b: int | 0 <= b < 256

  type Bytes32 = s: seq<Byte> | |s| == 32 witness seq(32, _ => 0)
  type Bytes64 = s: seq<Byte> | |s| == 64 witness seq(64, _ => 0)

  function Pow(b: nat, e: nat): (r: nat)
    ensures b > 0 ==> r > 0
  {
    if e == 0 then 1 else b * Pow(b, e - 1)
  }

  lemma {:induction false} PowAdd(b: nat, e1: nat, e2: nat)
    ensures Pow(b, e1 + e2) == Pow(b, e1) * Pow(b, e2)
  {
    if e1 > 0 {
      PowAdd(b, e1 - 1, e2);
      MulAssoc(b, Pow(b, e1 - 1), Pow(b, e2));
    }
  }

  lemma MulAssoc(a: int, b: int, c: int)
    ensures a * (b * c) == (a * b) * c
  {
  }

  lemma {:induction false} PowMonotoneExp(b: nat, e1: nat, e2: nat)
    requires b >= 1 && e1 <= e2
    ensures Pow(b, e1) <= Pow(b, e2)
  {
    if e1 < e2 {
      PowMonotoneExp(b, e1, e2 - 1);
      assert Pow(b, e2) == b * Pow(b, e2 - 1);
    }
  }

  lemma {:induction false} PowMonotoneBase(a: nat, b: nat, e: nat)
    requires a <= b
    ensures Pow(a, e) <= Pow(b, e)
  {
    if e > 0 {
      PowMonotoneBase(a, b, e - 1);
      MulMonotone(a, b, Pow(a, e - 1));
      MulMonotone(Pow(a, e - 1), Pow(b, e - 1), b);
    }
  }

  lemma {:induction false} MulMonotone(a: nat, b: nat, c: nat)
    requires a <= b
    ensures a * c <= b * c && c * a <= c * b
  {
    if c > 0 {
      MulMonotone(a, b, c - 1);
      assert a * c == a * (c - 1) + a;
      assert b * c == b * (c - 1) + b;
    }
  }

  /** `k` zero bytes. */
  function Zeros(k: nat): (z: seq<Byte>)
    ensures |z| == k && forall i :: 0 <= i < k ==> z[i] == 0
  {
    seq(k, _ => 0)
  }

  /** Python's `int.from_bytes(s, 'big')`. */
  function BigEndian(s: seq<Byte>): (n: nat)
    ensures n < Pow(256, |s|)
  {
    if s == [] then 0 else BigEndian(s[..|s| - 1]) * 256 + s[|s| - 1]
  }

  /** A leading non-zero byte fixes the magnitude of the integer. */
  lemma {:induction false} BigEndianLowerBound(s: seq<Byte>)
    requires s != [] && s[0] != 0
    ensures BigEndian(s) >= Pow(256, |s| - 1)
  {
    if |s| > 1 {
      var init := s[..|s| - 1];
      assert init[0] == s[0];
      BigEndianLowerBound(init);
      assert Pow(256, |s| - 1) == 256 * Pow(256, |s| - 2);
    }
  }

  /** Leading zero bytes do not change the integer. */
  lemma {:induction false} BigEndianZeroPrefix(k: nat, s: seq<Byte>)
    ensures BigEndian(Zeros(k) + s) == BigEndian(s)
  {
    if s == [] {
      assert Zeros(k) + s == Zeros(k);
      AllZerosIsZero(k);
    } else {
      var init := s[..|s| - 1];
      assert (Zeros(k) + s)[..|Zeros(k) + s| - 1] == Zeros(k) + init;
      BigEndianZeroPrefix(k, init);
    }
  }

  lemma {:induction false} AllZerosIsZero(k: nat)
    ensures BigEndian(Zeros(k)) == 0
  {
    if k > 0 {
      assert Zeros(k)[..k - 1] == Zeros(k - 1);
      AllZerosIsZero(k - 1);
    }
  }

  /** The shortest big-endian byte string of `n` (empty for 0): the inverse of BigEndian. */
  function NatToBytes(n: nat): (r: seq<Byte>)
    ensures BigEndian(r) == n
    ensures r == [] || r[0] != 0
    decreases n
  {
    if n == 0 then []
    else
      var prefix := NatToBytes(n / 256);
      assert (prefix + [n % 256])[..|prefix|] == prefix;
      prefix + [n % 256]
  }

  /** Bytes without a leading zero are the shortest encoding of their integer. */
  lemma {:induction false} NatToBytesBigEndian(s: seq<Byte>)
    requires s == [] || s[0] != 0
    ensures NatToBytes(BigEndian(s)) == s
  {
    if s != [] {
      var init := s[..|s| - 1];
      BigEndianLowerBound(s);
      var n := BigEndian(s);
      assert n / 256 == BigEndian(init) && n % 256 == s[|s| - 1];
      if init != [] {
        assert init[0] == s[0];
        NatToBytesBigEndian(init);
      }
      assert s == init + [s[|s| - 1]];
    }
  }

  /** Python's `x.to_bytes(width, 'big')` for a value that fits. */
  function ToBytes(x: nat, width: nat): (r: seq<Byte>)
    requires x < Pow(256, width)
    ensures |r| == width && BigEndian(r) == x
  {
    if width == 0 then []
    else
      var prefix := ToBytes(x / 256, width - 1);
      assert (prefix + [x % 256])[..width - 1] == prefix;
      prefix + [x % 256]
  }

  /** A byte string is the fixed-width encoding of its own integer. */
  lemma {:induction false} ToBytesBigEndian(s: seq<Byte>)
    ensures ToBytes(BigEndian(s), |s|) == s
  {
    if s != [] {
      var init := s[..|s| - 1];
      var n := BigEndian(s);
      assert n / 256 == BigEndian(init) && n % 256 == s[|s| - 1];
      ToBytesBigEndian(init);
      assert s == init + [s[|s| - 1]];
    }
  }

  const UINT32_LIMIT: nat := 0x1_0000_0000

  lemma Uint32Limit()
    ensures Pow(256, 4) == UINT32_LIMIT
  {
  }

  // Decimal text, as produced by Python's str(int) and read back by int(s).

  predicate IsDigit(c: char) {
    '0' <= c <= '9'
  }

  predicate AllDigits(s: string) {
    forall i :: 0 <= i < |s| ==> IsDigit(s[i])
  }

  function DigitChar(d: nat): (c: char)
    requires d < 10
    ensures IsDigit(c) && (c as int) - ('0' as int) == d
  {
    (('0' as int) + d) as char
  }

  /** `str(n)` for a non-negative integer. */
  function DecimalString(n: nat): (s: string)
    ensures |s| > 0 && AllDigits(s)
    ensures |s| > 1 ==> s[0] != '0'
    decreases n
  {
    if n < 10 then [DigitChar(n)] else DecimalString(n / 10) + [DigitChar(n % 10)]
  }

  /** `int(s)` for a string of ASCII digits (leading zeros allowed, "" gives 0). */
  function DecimalValue(s: string): nat
    requires AllDigits(s)
  {
    if s == [] then 0 else DecimalValue(s[..|s| - 1]) * 10 + ((s[|s| - 1] as int) - ('0' as int))
  }

  lemma {:induction false} DecimalRoundTrip(n: nat)
    ensures DecimalValue(DecimalString(n)) == n
    decreases n
  {
    if n >= 10 {
      DecimalRoundTrip(n / 10);
      var s := DecimalString(n);
      assert s[..|s| - 1] == DecimalString(n / 10);
    }
  }

  lemma DecimalStringInjective(a: nat, b: nat)
    requires DecimalString(a) == DecimalString(b)
    ensures a == b
  {
    DecimalRoundTrip(a);
    DecimalRoundTrip(b);
  }

  // Decimal fractions: digits with at most one dot, as `float` reads them.

  function CountDots(s: string): nat {
    if s == [] then 0 else (if s[0] == '.' then 1 else 0) + CountDots(s[1..])
  }

  /** `s.replace('.', '')` */
  function RemoveDots(s: string): (r: string)
    ensures |r| + CountDots(s) == |s|
  {
    if s == [] then [] else (if s[0] == '.' then [] else [s[0]]) + RemoveDots(s[1..])
  }

  /** Digits and at most one dot, which is what `float` accepts once the digit check passed. */
  predicate DecimalText(s: string) {
    AllDigits(RemoveDots(s)) && CountDots(s) <= 1
  }

  function DotIndex(s: string): (i: nat)
    requires CountDots(s) > 0
    ensures i < |s| && s[i] == '.' && '.' !in s[..i]
  {
    if s[0] == '.' then 0
    else
      var i := DotIndex(s[1..]) + 1;
      assert s[..i] == [s[0]] + s[1..][..i - 1];
      i
  }

  lemma {:induction false} NoDotsDigits(s: string)
    requires CountDots(s) == 0
    ensures RemoveDots(s) == s
  {
    if s != [] {
      NoDotsDigits(s[1..]);
    }
  }

  lemma {:induction false} RemoveDotsAppend(a: string, b: string)
    ensures RemoveDots(a + b) == RemoveDots(a) + RemoveDots(b) && CountDots(a + b) == CountDots(a) + CountDots(b)
  {
    if a != [] {
      assert (a + b)[0] == a[0] && (a + b)[1..] == a[1..] + b;
      RemoveDotsAppend(a[1..], b);
    } else {
      assert a + b == b;
    }
  }

  /** `float(s)` for digits with at most one dot. */
  function DecimalReal(s: string): real
    requires DecimalText(s)
  {
    if CountDots(s) == 0 then
      NoDotsDigits(s);
      DecimalValue(s) as real
    else
      var i := DotIndex(s);
      assert s == s[..i] + ([s[i]] + s[i + 1..]);
      RemoveDotsAppend(s[..i], [s[i]] + s[i + 1..]);
      RemoveDotsAppend([s[i]], s[i + 1..]);
      DotFreeParts(s, i);
      DecimalValue(s[..i]) as real + DecimalValue(s[i + 1..]) as real / Pow(10, |s| - i - 1) as real
  }

  lemma DotFreeParts(s: string, i: nat)
    requires DecimalText(s) && CountDots(s) > 0 && i < |s| && s[i] == '.'
    requires RemoveDots(s) == RemoveDots(s[..i]) + RemoveDots(s[i + 1..])
    requires CountDots(s) == CountDots(s[..i]) + 1 + CountDots(s[i + 1..])
    ensures AllDigits(s[..i]) && AllDigits(s[i + 1..])
  {
    NoDotsDigits(s[..i]);
    NoDotsDigits(s[i + 1..]);
    AllDigitsSplit(s[..i], s[i + 1..]);
  }

  lemma AllDigitsSplit(a: string, b: string)
    requires AllDigits(a + b)
    ensures AllDigits(a) && AllDigits(b)
  {
    forall k | 0 <= k < |a| ensures IsDigit(a[k]) {
      assert a[k] == (a + b)[k];
    }
    forall k | 0 <= k < |b| ensures IsDigit(b[k]) {
      assert b[k] == (a + b)[|a| + k];
    }
  }

  lemma AllDigitsNoDots(s: string)
    requires AllDigits(s)
    ensures CountDots(s) == 0
  {
    if s != [] {
      AllDigitsNoDots(s[1..]);
    }
  }

  /** `str(i)` for any integer. */
  function IntString(i: int): (s: string)
    ensures i < 0 <==> (|s| > 0 && s[0] == '-')
  {
    if i < 0 then "-" + DecimalString(-i) else DecimalString(i)
  }

  lemma IntStringInjective(a: int, b: int)
    requires IntString(a) == IntString(b)
    ensures a == b
  {
    if a < 0 {
      assert IntString(a)[1..] == DecimalString(-a);
      assert IntString(b)[1..] == DecimalString(-b);
      DecimalStringInjective(-a, -b);
    } else {
      DecimalStringInjective(a, b);
    }
  }

  lemma DivMulUnique(x: int, d: int, q: int, r: int)
    requires d > 0 && 0 <= r < d && x == d * q + r
    ensures x / d == q && x % d == r
  {
    var q', r' := x / d, x % d;
    assert d * q' + r' == d * q + r;
    if q < q' {
      MulMonotone(1, q' - q, d);
    } else if q > q' {
      MulMonotone(1, q - q', d);
    }
  }

  /** Shifting right by a + b bits is shifting by a bits, then by b bits. */
  lemma DivDiv(x: nat, a: nat, b: nat)
    requires a > 0 && b > 0
    ensures x / (a * b) == (x / a) / b
  {
    var q1, r1 := x / a, x % a;
    var q2, r2 := q1 / b, q1 % b;
    assert x == a * q1 + r1;
    assert q1 == b * q2 + r2;
    assert a * q1 == a * (b * q2) + a * r2;
    assert a * (b * q2) == (a * b) * q2;
    MulMonotone(r2, b - 1, a);
    assert a * (b - 1) == a * b - a;
    DivMulUnique(x, a * b, q2, a * r2 + r1);
  }
}
