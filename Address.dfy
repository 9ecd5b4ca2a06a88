/** Octra addresses: "oct" followed by the Base58 text of SHA-256(public key). */
module Address {
  import opened Numbers
  import opened Base58
  import opened Primitives

  const PREFIX: string := "oct"

  /** What verify_address_format accepts, tools/octrawallets.py:183-192. */
  predicate WellFormedAddress(a: string) {
    && |a| >= 3 && a[..3] == PREFIX
    && 20 <= |a| <= 50
    && AllBase58(a[3..])
  }

  /** verify_address_format, tools/octrawallets.py:183-192, with its scanning loop. */
  method VerifyAddressFormat(address: string) returns (ok: bool)
    ensures ok == WellFormedAddress(address)
  {
    if !(|address| >= 3 && address[..3] == PREFIX) {
      return false;
    }
    if |address| < 20 || |address| > 50 {
      return false;
    }
    var base58Part := address[3..];
    for i := 0 to |base58Part|
      invariant AllBase58(base58Part[..i])
    {
      var c := base58Part[i];
      if !InAlphabet(c) {
        return false;
      }
      AllBase58Extend(base58Part, i);
    }
    assert base58Part[..|base58Part|] == base58Part;
    return true;
  }

  /** create_octra_address, tools/octrawallets.py:177-181. */
  function CreateOctraAddress(p: Primitives, publicKey: seq<Byte>): string {
    PREFIX + Encode(p.sha256(publicKey))
  }

  /** Any 32-byte digest gives an address of 35 to 47 characters that passes the format check. */
  lemma DigestAddressWellFormed(digest: seq<Byte>)
    requires |digest| == 32
    ensures WellFormedAddress(PREFIX + Encode(digest))
    ensures 35 <= |PREFIX + Encode(digest)| <= 47
  {
    EncodeLength32(digest);
    var a := PREFIX + Encode(digest);
    assert a[3..] == Encode(digest);
  }

  /** The runtime check after address creation (tools/octrawallets.py:208-209) never fails. */
  lemma CreatedAddressWellFormed(p: Primitives, publicKey: seq<Byte>)
    ensures WellFormedAddress(CreateOctraAddress(p, publicKey))
  {
    DigestAddressWellFormed(p.sha256(publicKey));
  }

  // ADDRESS_PATTERN, tools/octratx.py:82: r"^oct[1-9A-HJ-NP-Za-km-z]{44}$". Its character class
  // is exactly IsBase58Char.

  /** The pattern with `$` meaning the end of the string: "oct" and exactly 44 symbols. */
  predicate MatchesAddressPattern(s: string) {
    |s| == 47 && s[..3] == PREFIX && AllBase58(s[3..])
  }

  /** What Python's `re.match` does with that pattern: `$` also matches just before a
    * final newline, so one trailing "\n" is let through. */
  predicate MatchesAddressPatternAsWritten(s: string) {
    MatchesAddressPattern(s) || (|s| == 48 && s[47] == '\n' && MatchesAddressPattern(s[..47]))
  }

  /** Every string the strict pattern accepts also passes verify_address_format. */
  lemma PatternImpliesWellFormed(s: string)
    requires MatchesAddressPattern(s)
    ensures WellFormedAddress(s)
  {
  }

  /** With `$` as the end of the string, the pattern accepts exactly the well-formed addresses
    * of 47 characters. */
  lemma PatternIsWellFormed47(s: string)
    ensures MatchesAddressPattern(s) <==> |s| == 47 && WellFormedAddress(s)
  {
  }

  /** As written, the pattern accepts an address that verify_address_format rejects. */
  lemma PatternAsWrittenAcceptsNewline()
    ensures var s := PREFIX + Ones(44) + "\n";
      MatchesAddressPatternAsWritten(s) && !WellFormedAddress(s)
  {
    var s := PREFIX + Ones(44) + "\n";
    assert s[..47] == PREFIX + Ones(44);
    assert (PREFIX + Ones(44))[3..] == Ones(44);
    assert s[3..][44] == '\n';
  }

  /** The converse fails: the address of the all-zero digest is well formed, but has 32
    * symbols where the pattern wants 44, so send_transaction would refuse it as a recipient. */
  lemma WellFormedNotImpliesPattern()
    ensures var a := PREFIX + Encode(Zeros(32));
      WellFormedAddress(a) && !MatchesAddressPattern(a)
  {
    DigestAddressWellFormed(Zeros(32));
    AllZerosIsZero(32);
    assert LeadingZeros(Zeros(32)) == 32;
  }
}
