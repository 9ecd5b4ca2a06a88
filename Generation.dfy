/** The wallet generator `generate`, tools/octrawallets.py:195-234: new entropy, its phrase,
  * the seed and master key of that phrase, and the address of the master public key. */
module Generation {
  import opened Wrappers
  import opened Numbers
  import opened Primitives
  import opened Mnemonic
  import opened KeyDerivation
  import opened Address

  /** The message generate signs to show the key pair works. */
  const TEST_MESSAGE: string := "{\"from\":\"test\",\"to\":\"test\",\"amount\":\"1000000\",\"nonce\":1}"

  /** The returned dictionary, as raw values (its hex and base64 renderings left aside). */
  datatype GeneratedWallet = GeneratedWallet(mnemonic: seq<string>, seed: Bytes64, masterChain: Bytes32,
                                             privateKey: Bytes32, publicKey: Bytes32, address: string,
                                             entropy: seq<Byte>, testSignature: Bytes64)

  /** The one exception generate raises of its own: "Invalid address format generated". */
  datatype GenerateError = InvalidAddressGenerated

  /** The phrase entropy_to_mnemonic builds: the words at the entropy's indices. */
  function Phrase(p: Primitives, entropy: seq<Byte>, wordlist: seq<string>): (words: seq<string>)
    requires ChecksumBits(|entropy|) <= 8 && |wordlist| == WORDLIST_SIZE
    ensures var idx := WordIndices(entropy, p.sha256(entropy)[0]);
      |words| == |idx| && forall i :: 0 <= i < |idx| ==> words[i] == wordlist[idx[i]]
  {
    var idx := WordIndices(entropy, p.sha256(entropy)[0]);
    seq(|idx|, i requires 0 <= i < |idx| => wordlist[idx[i]])
  }

  /** generate_entropy(128): the first 16 random bytes. */
  function Drawn(randomByte: nat -> Byte): (entropy: seq<Byte>)
    ensures |entropy| == 16 && forall i :: 0 <= i < 16 ==> entropy[i] == randomByte(i)
  {
    seq(16, i requires 0 <= i => randomByte(i))
  }

  /** What generate computes from the random bytes `randomByte` and the word list. */
  function GenerateSpec(p: Primitives, randomByte: nat -> Byte, wordlist: seq<string>)
    : Result<GeneratedWallet, GenerateError>
    requires |wordlist| == WORDLIST_SIZE
  {
    Assemble(p, Drawn(randomByte), Phrase(p, Drawn(randomByte), wordlist))
  }

  /** The steps after the phrase: its seed, the master key of the seed, the address of the
    * master public key and the address check of tools/octrawallets.py:208-209. */
  function Assemble(p: Primitives, entropy: seq<Byte>, mnemonic: seq<string>): (r: Result<GeneratedWallet, GenerateError>)
    ensures r.Ok? ==> var w := r.value;
      && w.entropy == entropy && w.mnemonic == mnemonic && w.seed == MnemonicToSeed(p, mnemonic, "")
      && w.privateKey + w.masterChain == p.hmacSha512(MASTER_SECRET, w.seed)
      && w.publicKey == p.ed25519PublicKey(w.privateKey)
      && w.address == CreateOctraAddress(p, w.publicKey) && WellFormedAddress(w.address)
  {
    var seed := MnemonicToSeed(p, mnemonic, "");
    var master := DeriveMasterKey(p, seed);
    var publicKey := p.ed25519PublicKey(master.key);
    var address := CreateOctraAddress(p, publicKey);
    if !WellFormedAddress(address) then Err(InvalidAddressGenerated)
    else Ok(GeneratedWallet(mnemonic, seed, master.chain, master.key, publicKey, address, entropy,
                            p.ed25519Sign(master.key, Utf8(TEST_MESSAGE))))
  }

  /** generate, tools/octrawallets.py:195-234, calling the modelled steps in order. */
  method Generate(p: Primitives, randomByte: nat -> Byte, wordlist: seq<string>)
    returns (r: Result<GeneratedWallet, GenerateError>)
    requires |wordlist| == WORDLIST_SIZE
    ensures r == GenerateSpec(p, randomByte, wordlist)
  {
    var entropy := GenerateEntropy(128, randomByte).value;
    assert entropy == Drawn(randomByte);
    var phrase := EntropyToMnemonic(p, entropy, wordlist);
    var mnemonic := phrase.value;
    assert mnemonic == Phrase(p, entropy, wordlist);
    var seed := MnemonicToSeed(p, mnemonic, "");
    var master := DeriveMasterKey(p, seed);
    var publicKey := p.ed25519PublicKey(master.key);
    var address := CreateOctraAddress(p, publicKey);
    var ok := VerifyAddressFormat(address);
    if !ok {
      return Err(InvalidAddressGenerated);
    }
    var signature := p.ed25519Sign(master.key, Utf8(TEST_MESSAGE));
    r := Ok(GeneratedWallet(mnemonic, seed, master.chain, master.key, publicKey, address, entropy, signature));
  }

  /** generate never raises: the address it derives from the master public key always passes
    * the format check. */
  lemma GenerateSucceeds(p: Primitives, randomByte: nat -> Byte, wordlist: seq<string>)
    requires |wordlist| == WORDLIST_SIZE
    ensures GenerateSpec(p, randomByte, wordlist).Ok?
  {
    AssembleSucceeds(p, Drawn(randomByte), Phrase(p, Drawn(randomByte), wordlist));
  }

  /** The address check passes whatever the entropy and phrase. */
  lemma AssembleSucceeds(p: Primitives, entropy: seq<Byte>, mnemonic: seq<string>)
    ensures Assemble(p, entropy, mnemonic).Ok?
  {
    var master := DeriveMasterKey(p, MnemonicToSeed(p, mnemonic, ""));
    CreatedAddressWellFormed(p, p.ed25519PublicKey(master.key));
  }

  /** `words` are the words at the indices of `entropy`, and those indices read back the entropy
    * and pass its checksum. */
  predicate RecoversEntropy(p: Primitives, entropy: seq<Byte>, words: seq<string>, wordlist: seq<string>)
    requires |wordlist| == WORDLIST_SIZE
  {
    && ChecksumBits(|entropy|) <= 8
    && var idx := WordIndices(entropy, p.sha256(entropy)[0]);
    && |words| == |idx| && (forall i :: 0 <= i < |idx| ==> words[i] == wordlist[idx[i]])
    && ChecksumValid(p, idx, |entropy|) && EntropyFromIndices(idx, |entropy|) == entropy
  }

  /** The phrase of 16 bytes has 12 words and gives the bytes back. */
  lemma PhraseRecovers(p: Primitives, entropy: seq<Byte>, wordlist: seq<string>)
    requires |entropy| == 16 && |wordlist| == WORDLIST_SIZE
    ensures |Phrase(p, entropy, wordlist)| == 12
    ensures RecoversEntropy(p, entropy, Phrase(p, entropy, wordlist), wordlist)
  {
    GeneratedPhraseValid(p, entropy);
  }

  /** The phrase generate returns has 12 words, and the indices of its words read back the 16
    * random bytes and pass the checksum. */
  lemma GeneratedPhraseRecovers(p: Primitives, randomByte: nat -> Byte, wordlist: seq<string>)
    requires |wordlist| == WORDLIST_SIZE && GenerateSpec(p, randomByte, wordlist).Ok?
    ensures var w := GenerateSpec(p, randomByte, wordlist).value;
      && |w.entropy| == 16 && (forall i :: 0 <= i < 16 ==> w.entropy[i] == randomByte(i))
      && |w.mnemonic| == 12 && RecoversEntropy(p, w.entropy, w.mnemonic, wordlist)
  {
    PhraseRecovers(p, Drawn(randomByte), wordlist);
  }
}
