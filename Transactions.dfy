/**
 * Building, signing and submitting transactions (tools/octratx.py:287-504): the input checks,
 * the signed JSON text, the hash, how a node's reply is read, and the batches of a multi-send.
 */
module Transactions {
  import opened Wrappers
  import opened Numbers
  import opened Text
  import opened Primitives
  import opened Address
  import opened Replies

  const MICROUNIT: nat := 1_000_000

  // AMOUNT_PATTERN, `^\d+(\.\d+)?$` (tools/octratx.py:83).

  /** Digits, optionally followed by a dot and more digits. */
  predicate AmountShape(s: string) {
    if CountDots(s) == 0 then s != [] && AllDigits(s)
    else
      var i := DotIndex(s);
      && CountDots(s) == 1 && 0 < i < |s| - 1
      && AllDigits(s[..i]) && AllDigits(s[i + 1..])
  }

  /** `AMOUNT_PATTERN.match(s)`; as for every Python pattern ending in `$`, one trailing newline
    * is also accepted. */
  predicate AmountPattern(s: string) {
    AmountShape(s) || (|s| > 0 && s[|s| - 1] == '\n' && AmountShape(s[..|s| - 1]))
  }

  /** Every text of the amount pattern without its newline is one `float` reads. */
  lemma AmountShapeIsDecimal(s: string)
    requires AmountShape(s)
    ensures DecimalText(s)
  {
    if CountDots(s) == 0 {
      NoDotsDigits(s);
    } else {
      var i := DotIndex(s);
      var dot := [s[i]];
      assert s == s[..i] + (dot + s[i + 1..]);
      assert RemoveDots(dot) == [] && CountDots(dot) == 1 by {
        assert dot[1..] == [];
      }
      RemoveDotsAppend(s[..i], dot + s[i + 1..]);
      RemoveDotsAppend(dot, s[i + 1..]);
      AllDigitsNoDots(s[..i]);
      AllDigitsNoDots(s[i + 1..]);
      NoDotsDigits(s[..i]);
      NoDotsDigits(s[i + 1..]);
      AllDigitsJoin(s[..i], s[i + 1..]);
    }
  }

  lemma AllDigitsJoin(a: string, b: string)
    requires AllDigits(a) && AllDigits(b)
    ensures AllDigits(a + b)
  {
    forall k | 0 <= k < |a + b| ensures IsDigit((a + b)[k]) {
      if k < |a| {
        assert (a + b)[k] == a[k];
      } else {
        assert (a + b)[k] == b[k - |a|];
      }
    }
  }

  /** The amount check of both send methods: the text of the float matches and it is positive. */
  predicate AmountAccepted(p: Primitives, amount: real) {
    AmountPattern(p.floatRepr(amount)) && amount > 0.0
  }

  /** `int(x)`: truncation toward zero. */
  function Truncate(x: real): (n: int)
    ensures x >= 0.0 ==> 0 <= n && n as real <= x < n as real + 1.0
    ensures x < 0.0 ==> n <= 0 && n as real - 1.0 < x <= n as real
  {
    if x >= 0.0 then x.Floor else -((-x).Floor)
  }

  /** `str(int(amount * MICROUNIT))` */
  function AmountField(amount: real): string {
    IntString(Truncate(amount * MICROUNIT as real))
  }

  /** For a non-negative amount the field is the decimal text of the whole number of
    * micro-units it holds. */
  lemma AmountFieldValue(amount: real)
    requires amount >= 0.0
    ensures AllDigits(AmountField(amount))
    ensures DecimalValue(AmountField(amount)) as real <= amount * MICROUNIT as real < DecimalValue(AmountField(amount)) as real + 1.0
  {
    var n := Truncate(amount * MICROUNIT as real);
    DecimalRoundTrip(n);
  }

  /** The fee tier `ou`. */
  function FeeTier(amount: real): (ou: string)
    ensures ou == "1" <==> amount < 1000.0
    ensures ou == "3" <==> amount >= 1000.0
  {
    if amount < 1000.0 then "1" else "3"
  }

  function HexDigit(d: nat): (c: char)
    requires d < 16
  {
    if d < 10 then (('0' as int) + d) as char else (('a' as int) + d - 10) as char
  }

  /** The six fields that are serialised, hashed and signed, in this order. */
  datatype TxFields = TxFields(sender: Option<string>, to: string, amount: string, nonce: int,
                               ou: string, timestamp: real)

  /** A transaction as posted: the signed fields, then `signature` and `public_key`. The
    * signature is kept as its 64 bytes; its base64 text is not part of this model. */
  datatype Tx = Tx(fields: TxFields, signature: Bytes64, publicKey: Option<string>)

  /** The members of the transaction dict as written at tools/octratx.py:299-306, in that order;
    * `signature` and `public_key` are added only after signing. */
  function TxMembers(f: TxFields): (ms: seq<(string, JsonValue)>)
    ensures |ms| == 6
  {
    [("from", match f.sender case None => JNull case Some(a) => JString(a)),
     ("to_", JString(f.to)), ("amount", JString(f.amount)), ("nonce", JInt(f.nonce)),
     ("ou", JString(f.ou)), ("timestamp", JFloat(f.timestamp))]
  }

  /** `json.dumps(tx, separators=(",", ":"))` of the six fields (tools/octratx.py:308). */
  function Payload(p: Primitives, f: TxFields): string {
    p.jsonDumps(TxMembers(f))
  }

  /** The fields `_create_transaction` fills in (tools/octratx.py:299-306); `timestamp` is the
    * clock reading plus the random jitter. */
  function FieldsFor(sender: Option<string>, to: string, amount: real, nonce: int, timestamp: real): (f: TxFields)
    ensures f.ou == FeeTier(amount) && f.nonce == nonce && f.to == to && f.sender == sender
  {
    TxFields(sender, to, AmountField(amount), nonce, FeeTier(amount), timestamp)
  }

  function Hex(b: seq<Byte>): (s: string)
    ensures |s| == 2 * |b|
  {
    if b == [] then "" else [HexDigit(b[0] / 16), HexDigit(b[0] % 16)] + Hex(b[1..])
  }

  function HexValue(c: char): nat {
    if '0' <= c <= '9' then c as int - '0' as int
    else if 'a' <= c <= 'f' then c as int - 'a' as int + 10
    else 0
  }

  function Unhex(s: string): (b: seq<Byte>)
    requires |s| % 2 == 0
  {
    if s == [] then [] else [(HexValue(s[0]) * 16 + HexValue(s[1])) % 256] + Unhex(s[2..])
  }

  /** `bytes.hexdigest()` loses nothing: the hex text reads back as the bytes. */
  lemma {:induction false} HexRoundTrip(b: seq<Byte>)
    ensures Unhex(Hex(b)) == b
  {
    if b != [] {
      HexRoundTrip(b[1..]);
      var s := Hex(b);
      assert s[2..] == Hex(b[1..]);
      HexByte(b[0]);
      assert (HexValue(s[0]) * 16 + HexValue(s[1])) % 256 == b[0];
    }
  }

  /** The two digits of one byte read back as that byte. */
  lemma HexByte(x: Byte)
    ensures (HexValue(HexDigit(x / 16)) * 16 + HexValue(HexDigit(x % 16))) % 256 == x
  {
    assert HexValue(HexDigit(x / 16)) == x / 16;
    assert HexValue(HexDigit(x % 16)) == x % 16;
  }

  datatype CreateError = NoSigningKey

  datatype Signed = Signed(tx: Tx, hash: string)

  /** `_create_transaction`, tools/octratx.py:287-317. Without a signing key (a wallet that was
    * never loaded) `signing_key.sign` raises. */
  function CreateTransaction(p: Primitives, sender: Option<string>, signingKey: Option<Bytes32>,
                             publicKey: Option<string>, to: string, amount: real, nonce: int,
                             timestamp: real): (r: Result<Signed, CreateError>)
    ensures r.Ok? <==> signingKey.Some?
    ensures r.Ok? ==> (r.value.tx.fields == FieldsFor(sender, to, amount, nonce, timestamp)
      && r.value.tx.publicKey == publicKey && |r.value.hash| == 64)
  {
    match signingKey
    case None => Err(NoSigningKey)
    case Some(key) =>
      var fields := FieldsFor(sender, to, amount, nonce, timestamp);
      var txBytes := TxBytes(p, fields);
      Ok(Signed(Tx(fields, p.ed25519Sign(key, txBytes), publicKey), HashOf(p, fields)))
  }

  /** `json.dumps(...).encode()` */
  function TxBytes(p: Primitives, f: TxFields): (b: seq<Byte>)
  {
    Utf8(Payload(p, f))
  }

  /** The hash text of a transaction: hex of SHA-256 of the serialised fields. */
  function HashOf(p: Primitives, f: TxFields): (h: string)
    ensures |h| == 64 && Unhex(h) == p.sha256(TxBytes(p, f))
  {
    HexDigest(p.sha256(TxBytes(p, f)))
  }

  /** `digest.hexdigest()` */
  function HexDigest(d: Bytes32): (h: string)
    ensures |h| == 64 && Unhex(h) == d
  {
    HexRoundTrip(d);
    Hex(d)
  }

  /** The hash covers the six fields only: whatever the key and the public key, the hash is the
    * same and reads back as SHA-256 of the serialised fields. */
  lemma HashCoversFieldsOnly(p: Primitives, sender: Option<string>, k1: Bytes32, k2: Bytes32,
                             pk1: Option<string>, pk2: Option<string>, to: string, amount: real,
                             nonce: int, timestamp: real)
    ensures CreateTransaction(p, sender, Some(k1), pk1, to, amount, nonce, timestamp).Ok?
    ensures CreateTransaction(p, sender, Some(k1), pk1, to, amount, nonce, timestamp).value.hash
         == CreateTransaction(p, sender, Some(k2), pk2, to, amount, nonce, timestamp).value.hash
         == HashOf(p, FieldsFor(sender, to, amount, nonce, timestamp))
  {
  }

  /** The keys of the signed message, in the order they are written. */
  function Keys(ms: seq<(string, JsonValue)>): seq<string> {
    seq(|ms|, i requires 0 <= i < |ms| => ms[i].0)
  }

  /** With a key, the signature and the hash are both taken over the UTF-8 bytes of the JSON
    * text of exactly the six fields from, to_, amount, nonce, ou and timestamp, in that order;
    * neither `signature` nor `public_key` is part of what is signed. */
  lemma SignedOverSixFields(p: Primitives, sender: Option<string>, key: Bytes32, publicKey: Option<string>,
                            to: string, amount: real, nonce: int, timestamp: real)
    ensures var r := CreateTransaction(p, sender, Some(key), publicKey, to, amount, nonce, timestamp);
      var f := FieldsFor(sender, to, amount, nonce, timestamp);
      var message := Utf8(p.jsonDumps(TxMembers(f)));
      && r.Ok?
      && r.value.tx.signature == p.ed25519Sign(key, message)
      && r.value.hash == HexDigest(p.sha256(message))
      && Keys(TxMembers(f)) == ["from", "to_", "amount", "nonce", "ou", "timestamp"]
      && TxMembers(f)[3].1 == JInt(nonce) && TxMembers(f)[4].1 == JString(FeeTier(amount))
  {
  }

  // Reading the reply of `/send-tx`.

  datatype SendOutcome = Accepted(hash: string) | Rejected(error: ErrorBody<SendJson>)

  /** tools/octratx.py:353-377 and 484-504: accepted when the node says so in JSON or answers
    * with text beginning "ok" (any case); `fallback` is the hash used when the reply carries
    * none (the computed hash in send_transaction, "" in _send_single_tx). */
  function ClassifySend(r: Reply<SendJson>, fallback: string): (o: SendOutcome)
    ensures o.Accepted? ==> r.status == 200
    ensures r.status == 200 && r.json.Some? && r.json.value.status == Some("accepted") ==>
      o == Accepted(r.json.value.txHash.GetOr(fallback))
    ensures o.Rejected? ==> o.error == ErrorOf(r)
  {
    if r.status == 200 && r.json.Some? && r.json.value.status == Some("accepted") then
      Accepted(r.json.value.txHash.GetOr(fallback))
    else if r.status == 200 && StartsWith(Lower(r.text), "ok") then
      assert !IsSpace(r.text[0]) by {
        assert Lower(r.text)[0] == 'o';
      }
      WordsOfUnpadded(r.text);
      var words := Words(r.text);
      Accepted(if ' ' in r.text then words[|words| - 1] else fallback)
    else Rejected(ErrorOf(r))
  }

  /** A plain "ok <hash>" reply is accepted with that hash. */
  lemma OkTextAccepted(hash: string, fallback: string)
    requires IsWord(hash)
    ensures ClassifySend(Reply(200, "ok " + hash, None), fallback) == Accepted(hash)
  {
    var text := "ok " + hash;
    assert text == "ok" + " " + hash;
    TwoWords("ok", hash);
    assert Lower(text)[..2] == "ok";
    assert text[2] == ' ';
  }

  // Recipients and batches of send_multiple_transactions.

  datatype Recipient = Recipient(address: string, amount: real)

  datatype Validation = AllValid | InvalidAddress(address: string) | InvalidAmount(amount: real)

  /** The first failing check of the validation loop (tools/octratx.py:410-416), in order. */
  function FirstInvalid(p: Primitives, rs: seq<Recipient>): (v: Validation)
    ensures v == AllValid <==> forall k :: 0 <= k < |rs| ==>
      MatchesAddressPatternAsWritten(rs[k].address) && AmountAccepted(p, rs[k].amount)
  {
    if rs == [] then AllValid
    else if !MatchesAddressPatternAsWritten(rs[0].address) then InvalidAddress(rs[0].address)
    else if !AmountAccepted(p, rs[0].amount) then InvalidAmount(rs[0].amount)
    else
      var v := FirstInvalid(p, rs[1..]);
      assert forall k :: 1 <= k < |rs| ==> rs[k] == rs[1..][k - 1];
      v
  }

  /** The validation loop stops at the first failing entry: when every entry before k passed,
    * entry k's failure is the one reported. */
  lemma {:induction false} FirstInvalidAt(p: Primitives, rs: seq<Recipient>, k: nat)
    requires k < |rs|
    requires forall j :: 0 <= j < k ==> MatchesAddressPatternAsWritten(rs[j].address) && AmountAccepted(p, rs[j].amount)
    ensures !MatchesAddressPatternAsWritten(rs[k].address) ==> FirstInvalid(p, rs) == InvalidAddress(rs[k].address)
    ensures MatchesAddressPatternAsWritten(rs[k].address) && !AmountAccepted(p, rs[k].amount) ==>
      FirstInvalid(p, rs) == InvalidAmount(rs[k].amount)
  {
    if k > 0 {
      FirstInvalidAt(p, rs[1..], k - 1);
    }
  }

  /** The sum of the amounts, first to last. */
  function Total(rs: seq<Recipient>): real {
    if rs == [] then 0.0 else Total(rs[..|rs| - 1]) + rs[|rs| - 1].amount
  }

  function Min(a: int, b: int): int {
    if a <= b then a else b
  }

  /** How many batches `range(0, n, size)` starts. */
  function NumBatches(n: nat, size: nat): nat
    requires size > 0
  {
    (n + size - 1) / size
  }

  /** A batch starts before the end of the recipients. */
  lemma BatchStart(n: nat, size: nat, b: nat)
    requires size > 0 && b < NumBatches(n, size)
    ensures b * size < n
  {
    var q := NumBatches(n, size);
    MulMonotone(b + 1, q, size);
    DivMulUnique(n + size - 1, size, q, (n + size - 1) % size);
  }

  /** The batches reach the end of the recipients. */
  lemma BatchesCover(n: nat, size: nat)
    requires size > 0
    ensures NumBatches(n, size) * size >= n
  {
    DivMulUnique(n + size - 1, size, NumBatches(n, size), (n + size - 1) % size);
  }

  /** The batch that contains recipient k, and the recipient's place in it. */
  lemma BatchOf(n: nat, size: nat, k: nat)
    requires size > 0 && k < n
    ensures k / size < NumBatches(n, size)
    ensures (k / size) * size <= k < Min((k / size + 1) * size, n)
    ensures k - (k / size) * size == k % size
  {
    var q := NumBatches(n, size);
    DivMulUnique(n + size - 1, size, q, (n + size - 1) % size);
    if k / size >= q {
      MulMonotone(q, k / size, size);
    }
  }

  /** `[rs[i:i+size] for i in range(0, len(rs), size)]` for a positive size. */
  function Batches(rs: seq<Recipient>, size: nat): (bs: seq<seq<Recipient>>)
    requires size > 0
    ensures |bs| == NumBatches(|rs|, size)
  {
    seq(NumBatches(|rs|, size), b requires 0 <= b < NumBatches(|rs|, size) =>
      BatchStart(|rs|, size, b);
      assert (b + 1) * size == b * size + size;
      rs[b * size..Min((b + 1) * size, |rs|)])
  }

  /** Batch b is the slice of the recipients from b * size up to (b + 1) * size or the end. */
  lemma BatchSlice(rs: seq<Recipient>, size: nat, b: nat)
    requires size > 0 && b < NumBatches(|rs|, size)
    ensures b * size < Min((b + 1) * size, |rs|) <= |rs|
    ensures Batches(rs, size)[b] == rs[b * size..Min((b + 1) * size, |rs|)]
  {
    BatchStart(|rs|, size, b);
    assert (b + 1) * size == b * size + size;
  }

  /** Where batch b begins: b * size for the batches `range(0, n, size)` starts, n after the last. */
  function BatchBegin(n: nat, size: nat, b: nat): (start: nat)
    requires size > 0
    ensures start <= n
  {
    if b < NumBatches(n, size) then BatchStart(n, size, b); b * size else n
  }

  /** Batch b is the recipients from its beginning to the next batch's beginning. */
  lemma BatchStep(rs: seq<Recipient>, size: nat, b: nat)
    requires size > 0 && b < NumBatches(|rs|, size)
    ensures var bs := Batches(rs, size); var start := BatchBegin(|rs|, size, b);
      && start + |bs[b]| == BatchBegin(|rs|, size, b + 1) <= |rs|
      && bs[b] == rs[start..start + |bs[b]|]
  {
    BatchSlice(rs, size, b);
    BatchesCover(|rs|, size);
    if b + 1 < NumBatches(|rs|, size) {
      BatchStart(|rs|, size, b + 1);
    }
    assert (b + 1) * size == b * size + size;
  }

  /** Recipient k is item k % size of batch k / size. */
  lemma BatchesIndexAt(rs: seq<Recipient>, size: nat, k: nat)
    requires size > 0 && k < |rs|
    ensures var bs := Batches(rs, size);
      k / size < |bs| && k % size < |bs[k / size]| && bs[k / size][k % size] == rs[k]
  {
    BatchOf(|rs|, size, k);
    BatchSlice(rs, size, k / size);
  }

  /** Item i of batch b is recipient b * size + i. */
  lemma BatchItem(rs: seq<Recipient>, size: nat, b: nat, i: nat)
    requires size > 0 && b < |Batches(rs, size)| && i < |Batches(rs, size)[b]|
    ensures b * size + i < |rs| && Batches(rs, size)[b][i] == rs[b * size + i]
  {
    BatchStep(rs, size, b);
  }

  /** Every batch but the last is full. */
  lemma FullBatch(rs: seq<Recipient>, size: nat, b: nat)
    requires size > 0 && b + 1 < NumBatches(|rs|, size)
    ensures |Batches(rs, size)[b]| == size
  {
    BatchSlice(rs, size, b);
    BatchStart(|rs|, size, b + 1);
    assert (b + 1) * size == b * size + size;
  }

  /** Recipient k is item k % size of batch k / size, and every batch but the last is full. */
  lemma BatchesIndex(rs: seq<Recipient>, size: nat)
    requires size > 0
    ensures var bs := Batches(rs, size);
      && (forall k :: 0 <= k < |rs| ==> k / size < |bs| && k % size < |bs[k / size]| && bs[k / size][k % size] == rs[k])
      && (forall b :: 0 <= b < |bs| - 1 ==> |bs[b]| == size)
  {
    forall k | 0 <= k < |rs| ensures k / size < |Batches(rs, size)| && k % size < |Batches(rs, size)[k / size]|
                                    && Batches(rs, size)[k / size][k % size] == rs[k] {
      BatchesIndexAt(rs, size, k);
    }
    forall b | 0 <= b < |Batches(rs, size)| - 1 ensures |Batches(rs, size)[b]| == size {
      FullBatch(rs, size, b);
    }
  }
}
