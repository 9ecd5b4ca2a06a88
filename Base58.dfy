/** Base58 text of byte strings, as `base58_encode` in tools/octrawallets.py writes it. */
module Base58 {
  import opened Wrappers
  import opened Numbers
  import opened Text

  /** BASE58_ALPHABET, tools/octrawallets.py:17:
    * "123456789ABCDEFGHJKLMNPQRSTUVWXYZabcdefghijkmnopqrstuvwxyz", written as its six runs of
    * consecutive ASCII characters (no 0, I, O or l). */
  const ALPHABET: string := "123456789" + "ABCDEFGH" + "JKLMN" + "PQRSTUVWXYZ" + "abcdefghijk" + "mnopqrstuvwxyz"

  /** Membership in ALPHABET, written as character ranges (see AlphabetMembership). */
  predicate IsBase58Char(c: char) {
    '1' <= c <= '9' || 'A' <= c <= 'H' || 'J' <= c <= 'N' || 'P' <= c <= 'Z' || 'a' <= c <= 'k' || 'm' <= c <= 'z'
  }

  /** ALPHABET[d], computed from the runs. */
  function Symbol(d: nat): (c: char)
    requires d < 58
    ensures IsBase58Char(c)
    ensures c == '1' <==> d == 0
  {
    if d < 9 then ('1' as int + d) as char
    else if d < 17 then ('A' as int + (d - 9)) as char
    else if d < 22 then ('J' as int + (d - 17)) as char
    else if d < 33 then ('P' as int + (d - 22)) as char
    else if d < 44 then ('a' as int + (d - 33)) as char
    else ('m' as int + (d - 44)) as char
  }

  /** The value of a Base58 symbol: its position in the alphabet. */
  function DigitOf(c: char): (d: nat)
    requires IsBase58Char(c)
    ensures d < 58 && Symbol(d) == c
  {
    if c <= '9' then c as int - '1' as int
    else if c <= 'H' then c as int - 'A' as int + 9
    else if c <= 'N' then c as int - 'J' as int + 17
    else if c <= 'Z' then c as int - 'P' as int + 22
    else if c <= 'k' then c as int - 'a' as int + 33
    else c as int - 'm' as int + 44
  }

  lemma DigitOfSymbol(d: nat)
    requires d < 58
    ensures DigitOf(Symbol(d)) == d
  {
  }

  lemma AlphabetSymbols()
    ensures |ALPHABET| == 58 && forall d :: 0 <= d < 58 ==> ALPHABET[d] == Symbol(d)
  {
    assert Run('1', 9) == "123456789";
    assert Run('A', 8) == "ABCDEFGH";
    assert Run('J', 5) == "JKLMN";
    assert Run('P', 11) == "PQRSTUVWXYZ";
    assert Run('a', 11) == "abcdefghijk";
    assert Run('m', 14) == "mnopqrstuvwxyz";
  }

  lemma AlphabetMembership(c: char)
    ensures c in ALPHABET <==> IsBase58Char(c)
  {
    AlphabetSymbols();
    if IsBase58Char(c) {
      assert ALPHABET[DigitOf(c)] == c;
    }
  }

  /** `c in BASE58_ALPHABET`. */
  function InAlphabet(c: char): (b: bool)
    ensures b <==> IsBase58Char(c)
  {
    AlphabetMembership(c);
    c in ALPHABET
  }

  predicate AllBase58(s: string) {
    forall i :: 0 <= i < |s| ==> IsBase58Char(s[i])
  }

  /** A scan that has accepted s[..i] and now accepts s[i] has accepted s[..i + 1]. */
  lemma AllBase58Extend(s: string, i: nat)
    requires i < |s| && AllBase58(s[..i]) && IsBase58Char(s[i])
    ensures AllBase58(s[..i + 1])
  {
    assert s[..i + 1] == s[..i] + [s[i]];
  }

  /** The base-58 digits of `n`, most significant first, with no leading zero digit ("" for 0). */
  function Digits(n: nat): (s: string)
    ensures AllBase58(s)
    ensures n > 0 ==> s != [] && s[0] != '1'
    decreases n
  {
    if n == 0 then ""
    else
      Digits(n / 58) + [Symbol(n % 58)]
  }

  /** A string of Base58 symbols read as a base-58 numeral, most significant first. */
  function Value(s: string): nat
    requires AllBase58(s)
  {
    if s == [] then 0 else Value(s[..|s| - 1]) * 58 + DigitOf(s[|s| - 1])
  }

  lemma {:induction false} ValueOfDigits(n: nat)
    ensures Value(Digits(n)) == n
    decreases n
  {
    if n > 0 {
      ValueOfDigits(n / 58);
      var s := Digits(n);
      assert s[..|s| - 1] == Digits(n / 58);
      DigitOfSymbol(n % 58);
    }
  }

  /** Number of zero bytes at the front of `d`. */
  function LeadingZeros(d: seq<Byte>): (k: nat)
    ensures k <= |d| && (forall i :: 0 <= i < k ==> d[i] == 0) && (k < |d| ==> d[k] != 0)
  {
    if d == [] || d[0] != 0 then 0 else 1 + LeadingZeros(d[1..])
  }

  /** Number of '1' symbols at the front of `s`. */
  function LeadingOnes(s: string): (k: nat)
    ensures k <= |s| && (forall i :: 0 <= i < k ==> s[i] == '1') && (k < |s| ==> s[k] != '1')
  {
    if s == [] || s[0] != '1' then 0 else 1 + LeadingOnes(s[1..])
  }

  function Ones(k: nat): (s: string)
    ensures |s| == k && forall i :: 0 <= i < k ==> s[i] == '1'
  {
    seq(k, _ => '1')
  }

  /** What base58_encode returns: one '1' per leading zero byte, then the digits of the integer. */
  function Encode(data: seq<Byte>): string {
    Ones(LeadingZeros(data)) + Digits(BigEndian(data))
  }

  /** The inverse of Encode: '1's back to zero bytes, the rest as a big-endian integer. */
  function Decode(s: string): (r: Option<seq<Byte>>)
    ensures r.Some? <==> AllBase58(s)
  {
    if !AllBase58(s) then None
    else
      var k := LeadingOnes(s);
      assert AllBase58(s[k..]);
      Some(Zeros(k) + NatToBytes(Value(s[k..])))
  }

  /** base58_encode, tools/octrawallets.py:158-175: divide by 58 until zero, prepending the
    * symbol of each remainder; then prepend a '1' for each leading zero byte. */
  method Base58Encode(data: seq<Byte>) returns (encoded: string)
    ensures encoded == Encode(data)
  {
    if |data| == 0 {
      return "";
    }
    var num := BigEndian(data);
    encoded := "";
    while num > 0
      invariant Digits(num) + encoded == Digits(BigEndian(data))
      decreases num
    {
      var remainder := num % 58;
      DigitStep(num);
      num := num / 58;
      encoded := [ALPHABET[remainder]] + encoded;
    }
    encoded := PadZeros(data, encoded);
  }

  /** The second loop of base58_encode (tools/octrawallets.py:172-173): a '1' in front for each
    * leading zero byte. */
  method PadZeros(data: seq<Byte>, digits: string) returns (encoded: string)
    ensures encoded == Ones(LeadingZeros(data)) + digits
  {
    encoded := digits;
    var i := 0;
    while i < |data| && data[i] == 0
      invariant 0 <= i <= |data|
      invariant forall j :: 0 <= j < i ==> data[j] == 0
      invariant encoded == Ones(i) + digits
    {
      assert "1" + Ones(i) == Ones(i + 1);
      encoded := "1" + encoded;
      i := i + 1;
    }
    assert i == LeadingZeros(data);
  }

  /** One division step: the last digit of `n` is ALPHABET[n % 58]. */
  lemma DigitStep(n: nat)
    requires n > 0
    ensures |ALPHABET| == 58 && Digits(n) == Digits(n / 58) + [ALPHABET[n % 58]]
  {
    AlphabetSymbols();
  }

  lemma EncodeEmpty()
    ensures Encode([]) == ""
  {
  }

  lemma EncodeAlphabet(data: seq<Byte>)
    ensures AllBase58(Encode(data))
  {
  }

  /** The '1's in front of the encoding are exactly the zero bytes in front of the input. */
  lemma EncodeLeadingOnes(data: seq<Byte>)
    ensures LeadingOnes(Encode(data)) == LeadingZeros(data)
  {
    var k := LeadingZeros(data);
    var s := Encode(data);
    var n := BigEndian(data);
    if k < |data| {
      var rest := data[k..];
      assert data == Zeros(k) + rest;
      BigEndianZeroPrefix(k, rest);
      BigEndianLowerBound(rest);
      assert s[k] == Digits(n)[0];
    } else {
      assert data == Zeros(k) + [];
      BigEndianZeroPrefix(k, []);
    }
  }

  /** After the leading '1's, the symbols read in base 58 are the big-endian integer of the input. */
  lemma EncodeValue(data: seq<Byte>)
    ensures LeadingZeros(data) <= |Encode(data)|
    ensures Value(Encode(data)[LeadingZeros(data)..]) == BigEndian(data)
  {
    var k := LeadingZeros(data);
    assert Encode(data)[k..] == Digits(BigEndian(data));
    ValueOfDigits(BigEndian(data));
  }

  lemma DecodeEncode(data: seq<Byte>)
    ensures Decode(Encode(data)) == Some(data)
  {
    var k := LeadingZeros(data);
    var rest := data[k..];
    assert data == Zeros(k) + rest;
    EncodeLeadingOnes(data);
    EncodeValue(data);
    BigEndianZeroPrefix(k, rest);
    NatToBytesBigEndian(rest);
  }

  lemma {:induction false} DigitsShorterThan(n: nat, m: nat)
    requires n < Pow(58, m)
    ensures |Digits(n)| <= m
    decreases m
  {
    if n > 0 {
      DigitsShorterThan(n / 58, m - 1);
    }
  }

  lemma {:induction false} DigitsAtLeast(n: nat, m: nat)
    requires n >= Pow(58, m)
    ensures |Digits(n)| >= m + 1
    decreases m
  {
    if m > 0 {
      DigitsAtLeast(n / 58, m - 1);
    }
  }

  lemma PowBounds()
    ensures Pow(256, 32) <= Pow(58, 44)
  {
    assert Pow(256, 8) <= Pow(58, 11) by {
      assert Pow(256, 8) == 18446744073709551616;
      assert Pow(58, 11) == 24986644000165537792;
    }
    PowDouble(8, 11);
    PowDouble(16, 22);
  }

  /** 256^i <= 58^j gives 256^(2i) <= 58^(2j). */
  lemma PowDouble(i: nat, j: nat)
    requires Pow(256, i) <= Pow(58, j)
    ensures Pow(256, i + i) <= Pow(58, j + j)
  {
    PowAdd(256, i, i);
    PowAdd(58, j, j);
    MulMonotone(Pow(256, i), Pow(58, j), Pow(256, i));
    MulMonotone(Pow(256, i), Pow(58, j), Pow(58, j));
  }

  lemma MulCancel(a: nat, b: nat, c: nat)
    requires c > 0 && a * c <= b * c
    ensures a <= b
  {
    if a > b {
      MulMonotone(b + 1, a, c);
    }
  }

  /** Fewer bytes leave room for fewer digits: 256^(32-k) <= 58^(44-k). */
  lemma PowRatio(k: nat)
    requires k <= 32
    ensures Pow(256, 32 - k) <= Pow(58, 44 - k)
  {
    PowBounds();
    PowAdd(256, 32 - k, k);
    PowAdd(58, 44 - k, k);
    PowMonotoneBase(58, 256, k);
    MulMonotone(Pow(58, k), Pow(256, k), Pow(58, 44 - k));
    MulCancel(Pow(256, 32 - k), Pow(58, 44 - k), Pow(256, k));
  }

  /** The number of digits of an integer of `m` bytes after `32 - m` zero bytes. */
  lemma DigitsOfRest(n: nat, k: nat, firstNonZero: bool)
    requires k <= 32 && n < Pow(256, 32 - k)
    requires firstNonZero ==> k < 32 && n >= Pow(256, 31 - k)
    ensures k + |Digits(n)| <= 44
    ensures firstNonZero ==> k + |Digits(n)| >= 32
  {
    PowRatio(k);
    DigitsShorterThan(n, 44 - k);
    if firstNonZero {
      PowMonotoneBase(58, 256, 31 - k);
      DigitsAtLeast(n, 31 - k);
    }
  }

  /** A 32-byte digest encodes to between 32 and 44 symbols. */
  lemma EncodeLength32(d: seq<Byte>)
    requires |d| == 32
    ensures 32 <= |Encode(d)| <= 44
  {
    var k := LeadingZeros(d);
    var rest := d[k..];
    assert d == Zeros(k) + rest;
    BigEndianZeroPrefix(k, rest);
    if k < 32 {
      BigEndianLowerBound(rest);
    }
    DigitsOfRest(BigEndian(rest), k, k < 32);
  }
}
