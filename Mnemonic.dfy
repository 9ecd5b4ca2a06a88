/** Entropy and recovery phrases (structurally BIP-39), tools/octrawallets.py:41-79. */
module Mnemonic {
  import opened Wrappers
  import opened Numbers
  import opened Primitives

  datatype MnemonicError =
    | InvalidStrength      // generate_entropy's ValueError
    | NegativeShiftCount   // `>> (8 - checksum_bits)` with more than 8 checksum bits

  const WORDLIST_SIZE: nat := 2048

  /** generate_entropy, tools/octrawallets.py:53-56; `randomByte(i)` is the i-th byte that
    * `secrets.token_bytes` would return. */
  function GenerateEntropy(strength: int, randomByte: nat -> Byte): (r: Result<seq<Byte>, MnemonicError>)
    ensures r.Ok? <==> strength in {128, 160, 192, 224, 256}
    ensures r.Ok? ==> |r.value| == strength / 8 && forall i :: 0 <= i < |r.value| ==> r.value[i] == randomByte(i)
  {
    if strength !in [128, 160, 192, 224, 256] then Err(InvalidStrength)
    else Ok(seq(strength / 8, i requires 0 <= i => randomByte(i)))
  }

  function ChecksumBits(entropyLength: nat): nat {
    entropyLength * 8 / 32
  }

  /** The number of bits split into words: the entropy followed by the checksum. */
  function TotalBits(entropyLength: nat): nat {
    entropyLength * 8 + ChecksumBits(entropyLength)
  }

  /** `int.from_bytes(checksum[:1], 'big') >> (8 - checksum_bits)`: the top bits of the digest. */
  function ChecksumValue(firstDigestByte: Byte, checksumBits: nat): (c: nat)
    requires checksumBits <= 8
    ensures c < Pow(2, checksumBits)
  {
    PowAdd(2, 8 - checksumBits, checksumBits);
    assert Pow(2, 8) == 256;
    DivBelow(firstDigestByte, Pow(2, 8 - checksumBits), Pow(2, checksumBits));
    firstDigestByte / Pow(2, 8 - checksumBits)
  }

  lemma DivBelow(x: nat, a: nat, b: nat)
    requires a > 0 && x < a * b
    ensures x / a < b
  {
    if x / a >= b {
      MulMonotone(b, x / a, a);
    }
  }

  /** `(entropy_int << checksum_bits) | checksum_int`; the OR is an addition because the
    * checksum is below 2^checksum_bits. */
  function Combined(entropy: seq<Byte>, firstDigestByte: Byte): nat
    requires ChecksumBits(|entropy|) <= 8
  {
    var cs := ChecksumBits(|entropy|);
    var e, m := BigEndian(entropy), Pow(2, cs);
    MulMonotone(0, e, m);
    e * m + ChecksumValue(firstDigestByte, cs)
  }

  /** `(combined >> (bits - (i + 1) * 11)) & 0x7FF` */
  function WordIndex(combined: nat, bits: nat, i: nat): (w: nat)
    requires (i + 1) * 11 <= bits
    ensures w < WORDLIST_SIZE
  {
    (combined / Pow(2, bits - (i + 1) * 11)) % 2048
  }

  /** The word indices entropy_to_mnemonic looks up, in order. */
  function WordIndices(entropy: seq<Byte>, firstDigestByte: Byte): (idx: seq<nat>)
    requires ChecksumBits(|entropy|) <= 8
    ensures |idx| == TotalBits(|entropy|) / 11
    ensures forall i :: 0 <= i < |idx| ==> idx[i] < WORDLIST_SIZE
  {
    var bits := TotalBits(|entropy|);
    var combined := Combined(entropy, firstDigestByte);
    seq(bits / 11, i requires 0 <= i < bits / 11 => WordIndex(combined, bits, i))
  }

  /** The supported entropy sizes give 12, 15, 18, 21 or 24 words. */
  lemma WordCount(entropyLength: nat)
    requires entropyLength in {16, 20, 24, 28, 32}
    ensures TotalBits(entropyLength) % 11 == 0
    ensures TotalBits(entropyLength) / 11 == (entropyLength * 8 + entropyLength * 8 / 32) / 11 == entropyLength * 3 / 4
  {
  }

  /** entropy_to_mnemonic, tools/octrawallets.py:58-73; `wordlist` is what load_wordlist
    * returned, so it has the 2048 entries that function insists on. */
  method EntropyToMnemonic(p: Primitives, entropy: seq<Byte>, wordlist: seq<string>)
    returns (r: Result<seq<string>, MnemonicError>)
    requires |wordlist| == WORDLIST_SIZE
    ensures r.Ok? <==> ChecksumBits(|entropy|) <= 8
    ensures r.Ok? ==>
      var idx := WordIndices(entropy, p.sha256(entropy)[0]);
      |r.value| == |idx| && forall i :: 0 <= i < |idx| ==> r.value[i] == wordlist[idx[i]]
  {
    var checksumBits := |entropy| * 8 / 32;
    var checksum := p.sha256(entropy);
    if checksumBits > 8 {
      return Err(NegativeShiftCount);
    }
    var checksumInt := ChecksumValue(checksum[0], checksumBits);
    var entropyInt := BigEndian(entropy);
    var combined := entropyInt * Pow(2, checksumBits) + checksumInt;
    var mnemonic: seq<string> := [];
    var bits := |entropy| * 8 + checksumBits;
    ghost var idx := WordIndices(entropy, checksum[0]);
    for i := 0 to bits / 11
      invariant |mnemonic| == i
      invariant forall j :: 0 <= j < i ==> mnemonic[j] == wordlist[idx[j]]
    {
      var wordIndex := (combined / Pow(2, bits - (i + 1) * 11)) % 2048;
      mnemonic := mnemonic + [wordlist[wordIndex]];
    }
    return Ok(mnemonic);
  }

  /** The word indices read as one base-2048 numeral, most significant first. */
  function Base2048(idx: seq<nat>): nat {
    if idx == [] then 0 else Base2048(idx[..|idx| - 1]) * 2048 + idx[|idx| - 1]
  }

  lemma Pow2Shift(a: nat)
    ensures Pow(2, a + 11) == Pow(2, a) * 2048
  {
    PowAdd(2, a, 11);
  }

  /** The first k indices spell the top 11k bits of the combined integer. */
  lemma {:induction false} PrefixValue(combined: nat, bits: nat, idx: seq<nat>, k: nat)
    requires combined < Pow(2, bits)
    requires |idx| * 11 <= bits && k <= |idx|
    requires forall i :: 0 <= i < |idx| ==> idx[i] == WordIndex(combined, bits, i)
    ensures Base2048(idx[..k]) == combined / Pow(2, bits - 11 * k)
  {
    if k == 0 {
      DivMulUnique(combined, Pow(2, bits), 0, combined);
    } else {
      PrefixValue(combined, bits, idx, k - 1);
      assert idx[..k][..k - 1] == idx[..k - 1];
      var low := bits - 11 * k;
      var q := combined / Pow(2, low);
      Pow2Shift(low);
      assert bits - 11 * (k - 1) == low + 11;
      DivDiv(combined, Pow(2, low), 2048);
      assert combined / Pow(2, bits - 11 * (k - 1)) == q / 2048;
      assert idx[k - 1] == q % 2048;
    }
  }

  /** Pow(256, n) is Pow(2, 8n). */
  lemma {:induction false} BytePow(n: nat)
    ensures Pow(256, n) == Pow(2, 8 * n)
  {
    if n > 0 {
      BytePow(n - 1);
      PowAdd(2, 8 * (n - 1), 8);
      assert Pow(2, 8) == 256;
    }
  }

  /** e * m + c stays below (e + 1) * m <= limit * m when e < limit and c < m. */
  lemma ShiftedBound(e: nat, c: nat, m: nat, limit: nat)
    requires e < limit && c < m
    ensures e * m + c < limit * m
  {
    MulMonotone(e + 1, limit, m);
  }

  /** The combined integer has no bits above TotalBits. */
  lemma CombinedBound(entropy: seq<Byte>, firstDigestByte: Byte)
    requires ChecksumBits(|entropy|) <= 8
    ensures Combined(entropy, firstDigestByte) < Pow(2, TotalBits(|entropy|))
  {
    var cs := ChecksumBits(|entropy|);
    var e := BigEndian(entropy);
    var m := Pow(2, cs);
    var c := ChecksumValue(firstDigestByte, cs);
    var limit := Pow(2, 8 * |entropy|);
    BytePow(|entropy|);
    PowAdd(2, 8 * |entropy|, cs);
    assert Pow(2, TotalBits(|entropy|)) == limit * m;
    ShiftedBound(e, c, m, limit);
  }

  /** Reading all the indices as one numeral gives back the combined integer. */
  lemma IndicesValue(entropy: seq<Byte>, firstDigestByte: Byte)
    requires ChecksumBits(|entropy|) <= 8 && TotalBits(|entropy|) % 11 == 0
    ensures Base2048(WordIndices(entropy, firstDigestByte)) == Combined(entropy, firstDigestByte)
  {
    var idx := WordIndices(entropy, firstDigestByte);
    var bits := TotalBits(|entropy|);
    var combined := Combined(entropy, firstDigestByte);
    assert |idx| * 11 == bits;
    CombinedBound(entropy, firstDigestByte);
    AllIndicesValue(combined, bits, idx);
  }

  /** All the indices of a numeral of exactly 11 * |idx| bits spell the whole numeral. */
  lemma AllIndicesValue(combined: nat, bits: nat, idx: seq<nat>)
    requires combined < Pow(2, bits) && |idx| * 11 == bits
    requires forall i :: 0 <= i < |idx| ==> idx[i] == WordIndex(combined, bits, i)
    ensures Base2048(idx) == combined
  {
    var k := |idx|;
    PrefixValue(combined, bits, idx, k);
    var low := bits - 11 * k;
    assert low == 0 && Pow(2, low) == 1;
    assert idx[..k] == idx;
    calc {
      Base2048(idx);
      Base2048(idx[..k]);
      combined / Pow(2, low);
      combined / 1;
    }
  }

  /** Concatenating the 11-bit indices gives back `(entropy_int << cs) | checksum_int`, so the
    * entropy is the numeral without its low cs bits and the checksum is those bits. */
  lemma IndicesRecoverEntropy(entropy: seq<Byte>, firstDigestByte: Byte)
    requires ChecksumBits(|entropy|) <= 8 && TotalBits(|entropy|) % 11 == 0
    ensures var cs := ChecksumBits(|entropy|);
      && Base2048(WordIndices(entropy, firstDigestByte)) / Pow(2, cs) == BigEndian(entropy)
      && Base2048(WordIndices(entropy, firstDigestByte)) % Pow(2, cs) == ChecksumValue(firstDigestByte, cs)
  {
    var cs := ChecksumBits(|entropy|);
    IndicesValue(entropy, firstDigestByte);
    CombinedDivMod(entropy, firstDigestByte);
  }

  /** The entropy and the checksum are the quotient and remainder of the combined integer. */
  lemma CombinedDivMod(entropy: seq<Byte>, firstDigestByte: Byte)
    requires ChecksumBits(|entropy|) <= 8
    ensures var cs := ChecksumBits(|entropy|);
      && Combined(entropy, firstDigestByte) / Pow(2, cs) == BigEndian(entropy)
      && Combined(entropy, firstDigestByte) % Pow(2, cs) == ChecksumValue(firstDigestByte, cs)
  {
    var cs := ChecksumBits(|entropy|);
    ShiftOrDivMod(BigEndian(entropy), Pow(2, cs), ChecksumValue(firstDigestByte, cs));
  }

  /** `(e << k) | c` with c below 2^k = m: shifting back gives e, masking gives c. */
  lemma ShiftOrDivMod(e: nat, m: nat, c: nat)
    requires c < m
    ensures (e * m + c) / m == e && (e * m + c) % m == c
  {
    assert e * m == m * e;
    DivMulUnique(e * m + c, m, e, c);
  }

  /** The entropy as read back from a phrase's indices. */
  function EntropyFromIndices(idx: seq<nat>, entropyLength: nat): seq<Byte>
    requires Base2048(idx) / Pow(2, ChecksumBits(entropyLength)) < Pow(256, entropyLength)
  {
    ToBytes(Base2048(idx) / Pow(2, ChecksumBits(entropyLength)), entropyLength)
  }

  /** A phrase is valid when its checksum bits are those of the digest of its entropy. */
  predicate ChecksumValid(p: Primitives, idx: seq<nat>, entropyLength: nat)
    requires ChecksumBits(entropyLength) <= 8
  {
    && Base2048(idx) / Pow(2, ChecksumBits(entropyLength)) < Pow(256, entropyLength)
    && var e := EntropyFromIndices(idx, entropyLength);
       Base2048(idx) % Pow(2, ChecksumBits(entropyLength))
         == ChecksumValue(p.sha256(e)[0], ChecksumBits(entropyLength))
  }

  /** The indices of every generated phrase give back the entropy and pass the checksum. */
  lemma GeneratedPhraseValid(p: Primitives, entropy: seq<Byte>)
    requires |entropy| in {16, 20, 24, 28, 32}
    ensures var idx := WordIndices(entropy, p.sha256(entropy)[0]);
      && Base2048(idx) / Pow(2, ChecksumBits(|entropy|)) < Pow(256, |entropy|)
      && EntropyFromIndices(idx, |entropy|) == entropy
      && ChecksumValid(p, idx, |entropy|)
  {
    WordCount(|entropy|);
    PhraseValid(p, entropy);
  }

  /** The same for any entropy whose bits and checksum fill whole words. */
  lemma PhraseValid(p: Primitives, entropy: seq<Byte>)
    requires ChecksumBits(|entropy|) <= 8 && TotalBits(|entropy|) % 11 == 0
    ensures var idx := WordIndices(entropy, p.sha256(entropy)[0]);
      && Base2048(idx) / Pow(2, ChecksumBits(|entropy|)) < Pow(256, |entropy|)
      && EntropyFromIndices(idx, |entropy|) == entropy
      && ChecksumValid(p, idx, |entropy|)
  {
    var first := p.sha256(entropy)[0];
    IndicesRecoverEntropy(entropy, first);
    ToBytesBigEndian(entropy);
  }

  /** mnemonic_to_seed, tools/octrawallets.py:75-79. */
  function MnemonicToSeed(p: Primitives, mnemonic: seq<string>, passphrase: string): (seed: Bytes64)
  {
    p.pbkdf2HmacSha512(Utf8(JoinWords(mnemonic)), Utf8("mnemonic" + passphrase), 2048)
  }

  /** `" ".join(words)` */
  function JoinWords(words: seq<string>): string {
    if words == [] then "" else if |words| == 1 then words[0] else words[0] + " " + JoinWords(words[1..])
  }
}
