/**
 * What the model takes from Python's libraries without modelling their insides: the hash,
 * MAC and key-stretching functions of `hashlib`/`hmac`, Ed25519 from `nacl`, and the text of
 * `str(float)` and `json.dumps`. Each is a field of one value so that every operation that needs a primitive
 * names it; the result types carry the only facts the model relies on, the output lengths.
 */
module Primitives {
  import opened Numbers

  datatype Primitives = Primitives(
    /** `hashlib.sha256(m).digest()` */
    sha256: seq<Byte> -> Bytes32,
    /** `hmac.new(key, msg, hashlib.sha512).digest()`, arguments (key, msg) */
    hmacSha512: (seq<Byte>, seq<Byte>) -> Bytes64,
    /** `hashlib.pbkdf2_hmac('sha512', password, salt, iterations)` */
    pbkdf2HmacSha512: (seq<Byte>, seq<Byte>, nat) -> Bytes64,
    /** `SigningKey(seed).verify_key.encode()` */
    ed25519PublicKey: Bytes32 -> Bytes32,
    /** `SigningKey(seed).sign(msg).signature` */
    ed25519Sign: (Bytes32, seq<Byte>) -> Bytes64,
    /** `str(x)` and `repr(x)` of a float */
    floatRepr: real -> string,
    /** `json.dumps(obj, separators=(",", ":"))` of a flat object, its members in order */
    jsonDumps: seq<(string, JsonValue)> -> string)

  /** The JSON values a transaction's members take. */
  datatype JsonValue = JNull | JString(s: string) | JInt(i: int) | JFloat(r: real)

  /** `s.encode('utf-8')` */
  function Utf8(s: string): seq<Byte> {
    if s == [] then [] else Utf8Char(s[0]) + Utf8(s[1..])
  }

  /** ASCII text encodes one byte per character, each its code point. */
  lemma {:induction false} Utf8Ascii(s: string)
    requires forall i :: 0 <= i < |s| ==> s[i] as int < 128
    ensures |Utf8(s)| == |s| && forall i :: 0 <= i < |s| ==> Utf8(s)[i] == s[i] as int
  {
    if s != [] {
      Utf8Ascii(s[1..]);
      assert Utf8(s) == [s[0] as int] + Utf8(s[1..]);
    }
  }

  function Utf8Char(c: char): (b: seq<Byte>)
    ensures 1 <= |b| <= 4
    ensures c as int < 128 ==> b == [c as int]
  {
    var n := c as int;
    if n < 0x80 then [n]
    else if n < 0x800 then [0xC0 + n / 0x40, 0x80 + n % 0x40]
    else if n < 0x10000 then [0xE0 + n / 0x1000, 0x80 + (n / 0x40) % 0x40, 0x80 + n % 0x40]
    else [0xF0 + n / 0x40000, 0x80 + (n / 0x1000) % 0x40, 0x80 + (n / 0x40) % 0x40, 0x80 + n % 0x40]
  }
}
