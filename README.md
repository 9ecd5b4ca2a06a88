# Octra wallet tools: a verified Dafny model

This project models the three tools of the uzlow web-tools repository that hold real logic.

1. **Key generation** (tools/octrawallets.py). It covers:
   - entropy of a checked strength;
   - the BIP-39-style recovery phrase, with an 8·L/32-bit checksum and 11-bit word indices;
   - the PBKDF2 seed;
   - HMAC-SHA512 master and child keys, hardened from index 2³¹ on, with the master key keyed by "Octra seed";
   - the fixed eight-index network path and its `'`-suffixed text;
   - Base58 with one `1` per leading zero byte;
   - addresses made of `oct` followed by the Base58 text of SHA-256(public key), and their format check;
   - `generate` and `derive`.
2. **The wallet client** (tools/octratx.py). It covers:
   - the `OctraWallet` class with its balance/nonce cache (30 s) and history cache (60 s);
   - the nonce raised to the wallet's own staged transactions;
   - the 404 and plain-text fallbacks;
   - history dedup, merge, newest-first sort and the 50-entry cut;
   - transaction building, hashing and signing;
   - the single and batched send state machines;
   - pending transactions, address validation and wallet info;
   - the `process_transaction` dispatcher.
3. **The password generator** (tools/password_generator.py). It covers:
   - the character set built from four flags, in a fixed order;
   - the empty-set error;
   - the password drawn from the set;
   - the `contains_*` flags.

Cryptography and platform functions are fields of one `Primitives` value. Their result types carry the output lengths: SHA-256 gives 32 bytes, HMAC-SHA512 and PBKDF2 give 64, an Ed25519 public key is 32 bytes and a signature 64. `Primitives` also holds `str(float)` and `json.dumps`.

Everything that comes from outside is a parameter:
- the clock (`now`, per-transaction timestamps);
- the random bytes and `secrets.choice` indices;
- the replies of `_request`, each a `(status, text, json)` triple.

An `asyncio.gather` is a function from position to reply, read in order.

The imperative parts are methods proved against specification functions, and lemmas about those functions state the properties:
- Base58 encoding;
- the mnemonic loop;
- `derive_path`;
- the address scan;
- the character-set build;
- every `OctraWallet` operation.

Modules:
- `Numbers`, `Text` and `Primitives` hold the Python semantics the model relies on;
- `Base58`, `Address`, `Mnemonic`, `KeyDerivation` and `Generation` model tools/octrawallets.py;
- `Replies`, `Status`, `History`, `Transactions`, `Sending`, `Wallet` and `Dispatch` model tools/octratx.py;
- `Password` models tools/password_generator.py.

Where the model departs from the code:
- **Amounts and balances are exact reals.** The model does not round like floats. `int(amount * MICROUNIT)` is modelled as truncation toward zero.
- **`AMOUNT_PATTERN` is matched against the text `str(amount)`.** That text comes from the `floatRepr` primitive.
- **The wallet client's address checks use `ADDRESS_PATTERN` the way Python's `re.match` applies it.** That is `Address.MatchesAddressPatternAsWritten`, which lets one trailing newline through (see Findings). The strict reading is `Address.MatchesAddressPattern`.
- **The batch loop walks the batch starts of `range(0, n, batch_size)`.** It signs recipient k with nonce base + 1 + k. `Sending.BatchedNonces` proves that this is `nonce + 1 + (batch_idx * batch_size) + i` for item i of batch batch_idx.
- **The wallet identity is a constant of the object.** It is set at construction: by the plain constructor (nothing loaded, as `process_transaction` does) or by `Loaded` (what `load_wallet` leaves behind).

## Model

| member | source | states |
|---|---|---|
| Mnemonic.GenerateEntropy | tools/octrawallets.py:53-56 | succeeds exactly for strengths 128, 160, 192, 224 and 256; then returns strength/8 bytes, the first ones the random source gives |
| Mnemonic.ChecksumValue | tools/octrawallets.py:61 | the checksum taken from the first digest byte is below 2^checksum_bits |
| Mnemonic.WordIndex | tools/octrawallets.py:70 | every index masked with 0x7FF is below 2048, so a 2048-word list is never indexed out of range |
| Mnemonic.WordIndices | tools/octrawallets.py:59-71 | there are (8L + 8L/32)/11 indices, each below 2048 |
| Mnemonic.WordCount | tools/octrawallets.py:59-69 | entropy of 16, 20, 24, 28 or 32 bytes fills whole words: 12, 15, 18, 21 or 24 of them |
| Mnemonic.EntropyToMnemonic | tools/octrawallets.py:58-73 | the loop returns the words at the computed indices, in order; it fails (negative shift count) exactly when the checksum is longer than 8 bits |
| Mnemonic.CombinedBound | tools/octrawallets.py:63-64 | `(entropy_int << cs) \| checksum` fits in the total bit count |
| Mnemonic.PrefixValue | tools/octrawallets.py:69-70 | the first k indices read in base 2048 are the combined value shifted right by the bits not yet read |
| Mnemonic.AllIndicesValue | tools/octrawallets.py:69-70 | all the indices read in base 2048 give back the combined value |
| Mnemonic.IndicesValue | tools/octrawallets.py:59-71 | the word indices of any entropy whose bits fill whole words read back as the combined value |
| Mnemonic.CombinedDivMod | tools/octrawallets.py:61-64 | the combined value holds the entropy integer in its high bits and the checksum in its low bits |
| Mnemonic.IndicesRecoverEntropy | tools/octrawallets.py:59-71 | the indices give back both the entropy integer and its checksum |
| Mnemonic.PhraseValid | tools/octrawallets.py:58-73 | the bytes are recovered from the indices and the phrase passes its checksum |
| Mnemonic.GeneratedPhraseValid | tools/octrawallets.py:53-73 | the same for every supported entropy size |
| Mnemonic.ShiftOrDivMod | tools/octrawallets.py:64 | OR-ing a value below 2^cs into a left shift by cs is undone by division and remainder |
| Mnemonic.BytePow | tools/octrawallets.py:63 | 256^n equals 2^(8n), the bit size of an n-byte integer |
| Mnemonic.Pow2Shift | tools/octrawallets.py:70 | shifting 11 more bits multiplies by 2048 |
| Mnemonic.DivBelow | tools/octrawallets.py:70 | a value below a·b shifted down by a is below b |
| Mnemonic.ShiftedBound | tools/octrawallets.py:64 | a shifted value with low bits OR-ed in stays below the shifted limit |
| KeyDerivation.MasterSecretText | tools/octrawallets.py:82 | the master HMAC key is the UTF-8 text "Octra seed" |
| KeyDerivation.DeriveMasterKey | tools/octrawallets.py:81-86 | the key and the chain code are the two halves of HMAC-SHA512("Octra seed", seed) |
| KeyDerivation.SplitMac | tools/octrawallets.py:96-99 | `mac[:32]` and `mac[32:]` together are the whole MAC |
| KeyDerivation.Index4 | tools/octrawallets.py:90-94 | `index.to_bytes(4, 'big')` exists exactly below 2^32 and is the big-endian encoding of index |
| KeyDerivation.ChildMessageShape | tools/octrawallets.py:89-94 | the message is 0x00 followed by the private key for hardened indices and the public key otherwise; it always ends with BE32(index); it exists exactly below 2^32 |
| KeyDerivation.DeriveChild | tools/octrawallets.py:88-100 | the child key and chain are the halves of HMAC-SHA512(chain code, message); derivation fails exactly from 2^32 on |
| KeyDerivation.DeriveFromSnoc | tools/octrawallets.py:104-105 | deriving along path + [i] derives one child from the key of path |
| KeyDerivation.DerivePathFold | tools/octrawallets.py:102-106 | derive_path(seed, []) is the master key, and derive_path(seed, p + [i]) is derive_child(derive_path(seed, p), i) |
| KeyDerivation.DeriveFromDefined | tools/octrawallets.py:102-106 | a path derives exactly when every index fits in 32 bits |
| KeyDerivation.DeriveStep | tools/octrawallets.py:104-105 | one loop step extends the derived prefix by one index |
| KeyDerivation.DeriveStepFails | tools/octrawallets.py:104-105 | one index of 2^32 or more makes the whole path fail |
| KeyDerivation.DerivePath | tools/octrawallets.py:102-106 | the loop that reassigns key and chain computes the fold of child derivations from the master key |
| KeyDerivation.HardenFacts | tools/octrawallets.py:128-133 | `0x80000000 \| x` sets the high bit, keeps the low 31 bits, stays below 2^32 exactly when x does, and is x + 2^31 for x below 2^31 |
| KeyDerivation.RenderIndex | tools/octrawallets.py:279 | the text of one index is non-empty and holds no `/` |
| KeyDerivation.RenderIndexInjective | tools/octrawallets.py:279 | distinct 32-bit indices render differently |
| KeyDerivation.RenderHardened | tools/octrawallets.py:279 | x below 2^31 renders as its decimal text, and with the high bit set as that text plus `'` |
| KeyDerivation.RenderHardenedCons | tools/octrawallets.py:279 | a path beginning with a hardened index renders as `x'/` followed by the rest |
| KeyDerivation.RenderStep | tools/octrawallets.py:279 | the same for the suffix of a path at position k |
| KeyDerivation.CountCharAppend | tools/octrawallets.py:279 | counting a character distributes over concatenation |
| KeyDerivation.CountCharAbsent | tools/octrawallets.py:279 | the count of an absent character is 0 |
| KeyDerivation.RenderPathSegments | tools/octrawallets.py:279 | `'/'.join(...)` of n indices holds exactly n-1 slashes |
| KeyDerivation.KindName | tools/octrawallets.py:108-120 | each kind word is non-empty and has no space |
| KeyDerivation.NetworkTypeName | tools/octrawallets.py:108-120 | 0 is "MainCoin"; every other type is its kind word, a space and its number |
| KeyDerivation.IntStringNoSpace | tools/octrawallets.py:112-120 | `str(n)` has no space |
| KeyDerivation.MainCoinOnlyZero | tools/octrawallets.py:109-110 | the name is "MainCoin" exactly for type 0 |
| KeyDerivation.NetworkTypeNameInjective | tools/octrawallets.py:108-120 | distinct network types have distinct names |
| KeyDerivation.NetworkPathShape | tools/octrawallets.py:125-136 | the path has eight entries: the first seven have the high bit set and carry 345, the coin type (equal to the network type), network, contract, account, token and subnet in their low bits; the last is the plain index |
| KeyDerivation.NetworkPathFits | tools/octrawallets.py:125-136 | every path entry is below 2^32 exactly when every parameter is |
| KeyDerivation.NetworkPathText | tools/octrawallets.py:127-136 | for parameters below 2^31 the rendered path is `345'/t'/n'/c'/a'/tok'/s'/i` |
| KeyDerivation.DeriveForNetwork | tools/octrawallets.py:122-156 | succeeds exactly when every parameter fits in 32 bits; then the path is the eight-entry network path, the private key and chain code are derive_path's result for it, the public key is the private key's, the address is that key's well-formed created address, the type name is get_network_type_name's and network, contract, account and index are echoed |
| KeyDerivation.Derive | tools/octrawallets.py:260-286 | succeeds exactly when network type and index (default 0) fit in 32 bits; the address and path are derive_for_network's for type t, index i and zeros elsewhere, so the address is the one created from the public key of the key derived along that path; the address is well formed, the path text has seven slashes and the type name is get_network_type_name's |
| KeyDerivation.DeriveRendersPath | tools/octrawallets.py:267-279 | derive renders the network path with network, contract and account 0 |
| KeyDerivation.ZeroSegments | tools/octrawallets.py:270-279 | the five zero-valued hardened segments render as `0'/0'/0'/0'/0'/` |
| KeyDerivation.ZeroPathText | tools/octrawallets.py:267-279 | that path is `345'/t'/0'/0'/0'/0'/0'/i` |
| KeyDerivation.DerivePathText | tools/octrawallets.py:260-281 | derive's path text is `345'/t'/0'/0'/0'/0'/0'/i` for t and i below 2^31 |
| Base58.Symbol | tools/octrawallets.py:17 | each alphabet position gives a Base58 character, and `1` is exactly digit 0 |
| Base58.DigitOf | tools/octrawallets.py:17 | every Base58 character is the symbol of exactly one digit below 58 |
| Base58.DigitOfSymbol | tools/octrawallets.py:17 | reading a digit's symbol back gives the digit |
| Base58.AlphabetSymbols | tools/octrawallets.py:17 | BASE58_ALPHABET has 58 characters, position d being digit d's symbol |
| Base58.AlphabetMembership | tools/octrawallets.py:189-191 | `c in BASE58_ALPHABET` exactly for the 58 Base58 characters |
| Base58.InAlphabet | tools/octrawallets.py:190 | the membership test of the scan agrees with the Base58 character class |
| Base58.AllBase58Extend | tools/octrawallets.py:189-191 | a scan that accepted s[..i] and accepts s[i] has accepted s[..i+1] |
| Base58.Digits | tools/octrawallets.py:165-167 | the divmod loop's digit text is all Base58 and, for n > 0, does not start with `1` |
| Base58.ValueOfDigits | tools/octrawallets.py:165-167 | the digits read in base 58 give back n |
| Base58.DigitStep | tools/octrawallets.py:166-167 | one loop step prepends `ALPHABET[n % 58]` to the digits of n / 58 |
| Base58.LeadingZeros | tools/octrawallets.py:169-173 | the count of leading zero bytes: all earlier bytes are 0 and the next is not |
| Base58.LeadingOnes | tools/octrawallets.py:169-173 | the count of leading `1` characters |
| Base58.Ones | tools/octrawallets.py:171 | k copies of `1` |
| Base58.Decode | tools/octrawallets.py:158-175 | the inverse reading is defined exactly on Base58 text |
| Base58.Base58Encode | tools/octrawallets.py:158-175 | the two loops compute one `1` per leading zero byte followed by the base-58 digits of the big-endian integer |
| Base58.PadZeros | tools/octrawallets.py:169-173 | the zero-byte loop prepends exactly one `1` per leading zero byte |
| Base58.EncodeEmpty | tools/octrawallets.py:159-160 | empty input encodes as "" |
| Base58.EncodeAlphabet | tools/octrawallets.py:158-175 | every output character is in BASE58_ALPHABET |
| Base58.EncodeLeadingOnes | tools/octrawallets.py:165-173 | the output has exactly as many leading `1` characters as the input has leading zero bytes |
| Base58.EncodeValue | tools/octrawallets.py:162-167 | what follows the leading `1`s, read in base 58, is the big-endian integer of the input |
| Base58.DecodeEncode | tools/octrawallets.py:158-175 | decoding the encoding gives back the input bytes |
| Base58.DigitsShorterThan | tools/octrawallets.py:165-167 | n < 58^m has at most m digits |
| Base58.DigitsAtLeast | tools/octrawallets.py:165-167 | n ≥ 58^m has more than m digits |
| Base58.PowBounds | tools/octrawallets.py:178-179 | 256^32 ≤ 58^44: a 32-byte digest needs at most 44 Base58 characters |
| Base58.PowRatio | tools/octrawallets.py:178-179 | 256^(32-k) ≤ 58^(44-k) for every count k of leading zero bytes |
| Base58.DigitsOfRest | tools/octrawallets.py:165-173 | after k zero bytes the remaining digits keep the text between 32 and 44 characters |
| Base58.EncodeLength32 | tools/octrawallets.py:178-179 | the encoding of a 32-byte digest has 32 to 44 characters |
| Address.VerifyAddressFormat | tools/octrawallets.py:183-192 | the prefix, length and scanning checks return true exactly for well-formed addresses: `oct`, 20 to 50 characters, Base58 after the prefix |
| Address.DigestAddressWellFormed | tools/octrawallets.py:177-192 | `"oct" + base58_encode(d)` passes verify_address_format for every 32-byte digest d and has 35 to 47 characters |
| Address.CreatedAddressWellFormed | tools/octrawallets.py:177-181 | every created address passes the format check, so the check after creation never raises |
| Address.PatternImpliesWellFormed | tools/octratx.py:82 | what the address pattern accepts with `$` read as end of string, verify_address_format (tools/octrawallets.py:183-192) also accepts |
| Address.PatternIsWellFormed47 | tools/octratx.py:82 | with `$` read as end of string, the pattern accepts exactly the well-formed addresses (tools/octrawallets.py:183-192) of 47 characters |
| Address.PatternAsWrittenAcceptsNewline | tools/octratx.py:82 | the pattern as Python matches it accepts `oct`, 44 `1`s and a newline, which verify_address_format rejects |
| Address.WellFormedNotImpliesPattern | tools/octratx.py:82 | the reverse fails: the well-formed address of 32 zero bytes (35 characters) does not match the pattern |
| Generation.Drawn | tools/octrawallets.py:197 | generate_entropy(128) is the first 16 random bytes |
| Generation.Phrase | tools/octrawallets.py:198 | the phrase is the words at the entropy's indices |
| Generation.Assemble | tools/octrawallets.py:199-234 | on success: the seed is the phrase's PBKDF2 seed, the private key and chain are the master key, the public key is that of the private key, and the address is its created address and well formed |
| Generation.Generate | tools/octrawallets.py:195-234 | generate computes GenerateSpec, raising "Invalid address format generated" only if the address check fails |
| Generation.AssembleSucceeds | tools/octrawallets.py:208-209 | the address check passes for every phrase |
| Generation.GenerateSucceeds | tools/octrawallets.py:208-209 | generate never raises |
| Generation.PhraseRecovers | tools/octrawallets.py:197-198 | the phrase of 16 bytes has 12 words, whose indices give the bytes back and pass the checksum |
| Generation.GeneratedPhraseRecovers | tools/octrawallets.py:196-198 | the returned mnemonic has 12 words and recovers the returned entropy, which consists of the random bytes |
| Numbers.BigEndian | tools/octrawallets.py:162 | `int.from_bytes(s, 'big')` is below 256^len(s) |
| Numbers.BigEndianZeroPrefix | tools/octrawallets.py:169-173 | leading zero bytes do not change the integer |
| Numbers.BigEndianLowerBound | tools/octrawallets.py:162 | a non-zero first byte makes the integer at least 256^(len-1) |
| Numbers.AllZerosIsZero | tools/octrawallets.py:162 | a run of zero bytes is the integer 0 |
| Numbers.NatToBytes | tools/octrawallets.py:162 | the shortest big-endian bytes of n read back as n |
| Numbers.NatToBytesBigEndian | tools/octrawallets.py:162 | bytes without a leading zero are the shortest encoding of their integer |
| Numbers.ToBytes | tools/octrawallets.py:90-94 | `x.to_bytes(width, 'big')` has width bytes and reads back as x |
| Numbers.ToBytesBigEndian | tools/octrawallets.py:63 | a byte string is the fixed-width encoding of its own integer |
| Numbers.Uint32Limit | tools/octrawallets.py:90-94 | four bytes hold exactly the integers below 2^32 |
| Numbers.DecimalString | tools/octrawallets.py:279 | `str(n)` is non-empty ASCII digits without a leading zero |
| Numbers.DecimalRoundTrip | tools/octrawallets.py:279 | `int(str(n)) == n` |
| Numbers.DecimalStringInjective | tools/octrawallets.py:279 | distinct numbers have distinct decimal texts |
| Numbers.IntString | tools/octrawallets.py:112-120 | `str(i)` starts with `-` exactly for negative i |
| Numbers.IntStringInjective | tools/octrawallets.py:112-120 | distinct integers have distinct texts |
| Numbers.RemoveDots | tools/octratx.py:206 | `replace('.', '')` removes exactly the dots |
| Numbers.DotIndex | tools/octratx.py:206 | the first dot of a text that has one |
| Numbers.RemoveDotsAppend | tools/octratx.py:206 | removing dots distributes over concatenation |
| Numbers.NoDotsDigits | tools/octratx.py:206 | a dot-free text is unchanged by the replace |
| Numbers.AllDigitsNoDots | tools/octratx.py:206 | digits contain no dot |
| Numbers.DotFreeParts | tools/octratx.py:206 | on both sides of the single dot of a decimal are digits |
| Numbers.AllDigitsSplit | tools/octratx.py:206 | the parts of a digit string are digit strings |
| Numbers.DivMulUnique | tools/octrawallets.py:166 | `divmod` is determined by x = d·q + r with 0 ≤ r < d |
| Numbers.DivDiv | tools/octrawallets.py:70 | shifting right by a+b bits is shifting by a and then by b |
| Numbers.PowAdd | tools/octrawallets.py:63-64 | b^(e1+e2) = b^e1 · b^e2 |
| Text.Words | tools/octratx.py:204 | `str.split()` yields non-empty words without white space |
| Text.WordsFrom | tools/octratx.py:204 | the splitter keeps the word being read as the prefix of the next word |
| Text.WordsOfUnpadded | tools/octratx.py:364 | a text starting with a non-space has a first word beginning with that character |
| Text.WordsFromWord | tools/octratx.py:204 | reading a space-free run extends the current word |
| Text.TwoWords | tools/octratx.py:204 | `"a b".split()` is `[a, b]` for two words a and b |
| Text.Lower | tools/octratx.py:361 | ASCII `str.lower()`: keeps the length and maps A-Z to a-z, every other character unchanged (non-ASCII lowering is left out) |
| Text.ContainsAt | tools/octratx.py:281 | a text that holds sub at any position contains it |
| Text.Run | tools/password_generator.py:65-71 | n consecutive ASCII characters: exactly those from start to start+n-1 |
| Primitives.Utf8Char | tools/octratx.py:308 | one character encodes to one to four bytes, and ASCII to its own code |
| Primitives.Utf8Ascii | tools/octrawallets.py:75-79 | ASCII text encodes one byte per character, each its code point |
| Replies.ErrorOf | tools/octratx.py:370-376 | a failed send reports the JSON body when there is one, else the text |
| Status.OwnStaged | tools/octratx.py:195 | the filter keeps exactly the staged entries whose `from` is the wallet address |
| Status.MaxNonce | tools/octratx.py:197 | the inner `max` is an upper bound attained by one of the entries |
| Status.AdjustedNonceIsMax | tools/octratx.py:194-197 | the nonce is the largest of the fetched nonce and the wallet's own staged nonces when the staging reply is usable, and the fetched nonce otherwise |
| Status.BalanceToken | tools/octratx.py:206 | with ASCII digits: a token that is not digits once its dots are removed becomes 0.0, and a digit token with more than one dot makes `float` raise (None) |
| Status.NonceToken | tools/octratx.py:207 | with ASCII digits: a token that is not digits becomes 0 |
| Status.ParsePlainStatus | tools/octratx.py:203-212 | fewer than two tokens give no values (the `else` arm of line 209) |
| Status.PlainStatusRoundTrip | tools/octratx.py:204-208 | the text "balance nonce" parses back to those two numbers |
| Status.StatusRefreshConsistent | tools/octratx.py:185-212 | balance and nonce stay cached together; last_update moves only to now, and only when values are stored |
| Status.StatusRefreshCases | tools/octratx.py:188-212 | on 200 with JSON the balance is the fetched one, the nonce at least the fetched one and every own staged nonce, and last_update is now; 404 gives (0, 0.0, now); too few plain-text tokens give (None, None) with last_update unchanged; any other status changes nothing |
| Status.PlainTextMalformedIsZero | tools/octratx.py:205-208 | with ASCII digits: a balance token that is not digits becomes 0.0 and a nonce token that is not digits 0, stamped now |
| History.SentEntry | tools/octratx.py:380-389 | a send appends an outgoing, unconfirmed entry with the hash and the recipient |
| History.Hashes | tools/octratx.py:242 | the set of hashes already in the history |
| History.EntryOf | tools/octratx.py:257-270 | a fetched entry carries its hash, is confirmed, has the reply's timestamp, and is incoming exactly when `to` is the wallet |
| History.NewEntries | tools/octratx.py:242-270 | the fetched entries are at most one per reference, each confirmed, none with a hash already present, each the hash of some reference |
| History.Recent | tools/octratx.py:273-275 | the old entries kept are exactly those newer than the cutoff, in order |
| History.Insert | tools/octratx.py:274-276 | inserting keeps the list newest first and adds exactly one entry |
| History.NotNewerThanHead | tools/octratx.py:274-276 | insertion after the head keeps the order |
| History.SortDesc | tools/octratx.py:274-276 | `sorted(..., reverse=True)` by time is newest first and a permutation |
| History.PrefixShape | tools/octratx.py:277 | the `[:50]` cut stays newest first and drops only entries |
| History.SubMultisetMembers | tools/octratx.py:274-277 | every entry of the merge comes from the new or the old entries |
| History.MergeHistoryShape | tools/octratx.py:272-277 | the merged history has at most 50 entries, newest first, each new or a recent old one |
| History.MergeKeepsAll | tools/octratx.py:274-277 | when at most 50 entries are merged, none is lost |
| History.HistoryRefreshEffects | tools/octratx.py:231-283 | a failed or empty reply changes nothing; a merge stamps now, bounds and orders the list and adds no entry whose hash was already there; a reply without `recent_transactions` (JSON or not) whose text says "no transactions" empties it and stamps now, and any other such reply changes nothing |
| History.NotFoundArmUnreachable | tools/octratx.py:231-233 | a 404 never reaches the clearing branch: the early return leaves the history and its timestamp as they were |
| Transactions.AmountShapeIsDecimal | tools/octratx.py:83 | every text of the amount pattern is a decimal that `float` reads |
| Transactions.AllDigitsJoin | tools/octratx.py:83 | joined digit strings are digits |
| Transactions.Truncate | tools/octratx.py:302 | `int(x)` truncates toward zero |
| Transactions.AmountFieldValue | tools/octratx.py:302 | for a non-negative amount the field is the decimal text of the whole number of micro-units |
| Transactions.FeeTier | tools/octratx.py:304 | `ou` is "1" exactly below 1000 and "3" from 1000 on |
| Transactions.TxMembers | tools/octratx.py:299-306 | the serialised transaction has six members |
| Transactions.FieldsFor | tools/octratx.py:299-306 | the fields carry the sender, the recipient, the nonce and the fee tier |
| Transactions.Hex | tools/octratx.py:316 | `hexdigest()` has two characters per byte |
| Transactions.HexRoundTrip | tools/octratx.py:316 | the hex text reads back as the digest bytes |
| Transactions.HexByte | tools/octratx.py:316 | one byte's two hex digits read back as the byte |
| Transactions.HashOf | tools/octratx.py:316 | the hash is 64 hex characters whose bytes are the SHA-256 of the serialised fields |
| Transactions.HexDigest | tools/octratx.py:316 | the hex text of a digest is 64 characters and decodes to it |
| Transactions.CreateTransaction | tools/octratx.py:287-317 | succeeds exactly with a signing key; the fields are those written at 299-306, the public key is attached and the hash has 64 characters |
| Transactions.HashCoversFieldsOnly | tools/octratx.py:308-316 | the hash depends on the six fields only: not on the key or the public key attached afterwards |
| Transactions.SignedOverSixFields | tools/octratx.py:299-316 | the signature and the hash are over the UTF-8 JSON of exactly from, to_, amount, nonce, ou and timestamp, in that order |
| Transactions.ClassifySend | tools/octratx.py:353-377 | acceptance needs status 200; a JSON "accepted" gives its tx_hash or the fallback; a rejection carries the JSON body or the text |
| Transactions.OkTextAccepted | tools/octratx.py:361-366 | a plain "ok <hash>" reply is accepted with that hash |
| Transactions.FirstInvalid | tools/octratx.py:410-416 | validation passes exactly when every recipient matches the address pattern as `re.match` applies it (one trailing newline let through) and has an accepted amount |
| Transactions.FirstInvalidAt | tools/octratx.py:411-415 | the first failing entry is the one reported, its address check before its amount check |
| Transactions.BatchStart | tools/octratx.py:426 | every batch starts inside the list |
| Transactions.BatchesCover | tools/octratx.py:426 | the batches cover every recipient |
| Transactions.BatchOf | tools/octratx.py:426-433 | recipient k is at position k % size of batch k / size |
| Transactions.Batches | tools/octratx.py:426 | `range(0, n, size)` starts ceil(n/size) batches |
| Transactions.BatchSlice | tools/octratx.py:426 | batch b is `recipients[b*size : b*size+size]` |
| Transactions.BatchBegin | tools/octratx.py:426 | where batch b begins never passes the end of the recipients |
| Transactions.BatchStep | tools/octratx.py:426 | batch b is the recipients from where it begins to where batch b + 1 begins |
| Transactions.BatchItem | tools/octratx.py:426 | item i of batch b is recipient b * size + i |
| Transactions.BatchesIndexAt | tools/octratx.py:426-433 | batch k / size holds recipient k at position k % size |
| Transactions.FullBatch | tools/octratx.py:426 | every batch but the last holds exactly batch_size recipients |
| Transactions.BatchesIndex | tools/octratx.py:426-433 | in-order partition: every recipient is at its place, and all batches but the last are full |
| Sending.SendValidatesFirst | tools/octratx.py:331-335 | an address the pattern rejects as `re.match` applies it, or an invalid amount, raises before any request, changing neither the cache nor the history |
| Sending.SendPostsNextNonce | tools/octratx.py:338-350 | a transaction is posted exactly when the address matches the pattern as `re.match` applies it (one trailing newline included), the amount is accepted, the refresh gave a nonce and enough balance, and the wallet has a key; it carries the fetched nonce + 1, the recipient and the wallet address |
| Sending.SendEffects | tools/octratx.py:380-391 | an accepted send appends exactly one unconfirmed outgoing entry and zeroes last_update, leaving the nonce cache as the refresh set it; otherwise the history is unchanged |
| Sending.UnsignedNeverSends | tools/octratx.py:309-347 | a wallet without a signing key never posts and always raises |
| Sending.SignedSendAccepted | tools/octratx.py:338-360 | a keyed wallet with a recipient the pattern accepts, an accepted amount, a usable balance and an accepting node sends with nonce + 1 and returns the node's hash |
| Sending.ReportedOutcomes | tools/octratx.py:439-466 | every success and every failure reported is the outcome of one recipient, with its address and amount |
| Sending.SuccessesAndFailuresPartition | tools/octratx.py:439-466 | successes and failures together number the recipients |
| Sending.RecordStep | tools/octratx.py:439-466 | one recipient's result extends exactly one of the two lists, and the history only on success |
| Sending.SentHistoryMatchesSuccesses | tools/octratx.py:446-460 | the history grows by one entry per success, in the same order and with the same hash, amount and address |
| Sending.SignedRange | tools/octratx.py:430-435 | the posted list has one transaction per recipient |
| Sending.SignedRangeIndex | tools/octratx.py:430-435 | the k-th posted transaction is the one signed for recipient k |
| Sending.MultiSendValidatesFirst | tools/octratx.py:406-416 | empty recipients, or any entry whose address the pattern rejects as `re.match` applies it or whose amount is invalid, raises before any request |
| Sending.BatchedNonces | tools/octratx.py:426-434 | item i of batch b is recipient b * batch_size + i, and it is posted to that item's address with nonce base + 1 + b * batch_size + i |
| Sending.MultiSendAccounting | tools/octratx.py:419-478 | recipient k is signed with nonce base + 1 + k, so nonces are distinct and contiguous; every recipient is a success or a failure, the total is their number, the history grows by the successes, and last_update is 0 exactly when something succeeded |
| Sending.RefreshedPosts | tools/octratx.py:426-435 | after the refresh, one transaction is posted per recipient, its nonce base + 1 + k and its recipient k's address |
| Sending.RefreshedReports | tools/octratx.py:437-478 | the same accounting, stated after the refresh |
| Sending.NegativeBatchSizeSendsNothing | tools/octratx.py:426 | a negative batch size starts no batch: nothing is posted or recorded |
| Wallet.OctraWallet.constructor | tools/octratx.py:59-83 | a new wallet has no key, no address, no cache, an empty history and both timestamps 0 |
| Wallet.OctraWallet.Loaded | tools/octratx.py:85-108 | the state load_wallet leaves: the address, signing key and public key set, nothing cached |
| Wallet.OctraWallet.GetStatus | tools/octratx.py:164-214 | a request is made exactly when the cache does not answer; the new cache is the status step of the old one, the returned pair is it, and the history is untouched |
| Wallet.OctraWallet.GetHistory | tools/octratx.py:216-285 | a request is made exactly when the cache does not answer; history and timestamp become the history step of the old ones, which is returned; the status cache is untouched, so it stays valid |
| Wallet.OctraWallet.SendTransaction | tools/octratx.py:319-393 | the result, the posted transaction, the new cache and the new history are those of the send specification, whose recipient check is the pattern as `re.match` applies it; a valid cache stays valid |
| Wallet.OctraWallet.SignAndPost | tools/octratx.py:340-393 | the part after the refresh: balance checks, signing, posting and recording, as the send specification says; a valid cache stays valid |
| Wallet.OctraWallet.SendMultiple | tools/octratx.py:395-478 | the result, the posted transactions, the cache and the history are those of the multi-send specification, whose validation loop uses the pattern as `re.match` applies it; a valid cache stays valid |
| Wallet.OctraWallet.SendBatches | tools/octratx.py:426-470 | the loop over the batches posts the transaction signed for each recipient in order, reports the successes and failures, appends one entry per success and zeroes last_update exactly when one succeeded |
| Wallet.OctraWallet.RecordResults | tools/octratx.py:439-466 | recording a batch's results extends the lists and the history as far as that batch |
| Wallet.OctraWallet.BuildBatch | tools/octratx.py:430-434 | building a batch extends the posted list by those recipients' transactions, in order |
| Wallet.OctraWallet.SignFor | tools/octratx.py:432-433 | recipient k is signed with nonce base + 1 + k, which is `nonce + 1 + batch_idx * batch_size + i` for item i of batch batch_idx (Sending.BatchedNonces) |
| Wallet.OctraWallet.GetPending | tools/octratx.py:506-518 | [] on a non-200 or empty reply; otherwise exactly the staged entries from the wallet's address |
| Wallet.OctraWallet.ValidateAddress | tools/octratx.py:520-530 | true exactly for the well-formed addresses of 47 characters and for those followed by one newline, which the `$` of the pattern lets through |
| Wallet.OctraWallet.Info | tools/octratx.py:532-544 | the address, public key and RPC URL, and whether a private key is held |
| Dispatch.Dispatch | tools/octratx.py:576-608 | the dispatcher answers each action with the answer function Respond, on the wallet's state before the call |
| Dispatch.ProcessTransaction | tools/octratx.py:561-611 | process_transaction as written answers as Respond does for an unloaded wallet and a fresh cache, and every "send" fails |
| Dispatch.UnloadedSendFails | tools/octratx.py:572-588 | with no key loaded, "send" fails whatever the request and the node say |
| Dispatch.ProcessLoadedTransaction | tools/octratx.py:561-611 | process_transaction with the wallet loaded first answers as Respond does for the loaded identity |
| Dispatch.LoadedSendAccepted | tools/octratx.py:578-588 | a loaded wallet with a recipient the pattern accepts, an accepted amount, enough balance and an accepting node answers success with the node's hash |
| Dispatch.RejectedSendSucceeds | tools/octratx.py:584-588 | a send the node rejects still answers success, with the rejection inside the data |
| Dispatch.ActionOutcomes | tools/octratx.py:576-608 | a missing action, "send" without both parameters and an unknown action fail; on well-typed replies status, history, pending and wallet_info succeed; wallet_info reports whether a key is held |
| Password.ClassCharsExact | tools/password_generator.py:64-71 | each class string holds exactly its class's characters: A-Z, a-z, 0-9 and the punctuation |
| Password.PunctuationRuns | tools/password_generator.py:71 | `string.punctuation` is the four ASCII runs around the digits and letters |
| Password.ClassesDisjoint | tools/password_generator.py:82-85 | no character is in two classes |
| Password.SelectionOf | tools/password_generator.py:57-60 | every flag defaults to true |
| Password.LengthOf | tools/password_generator.py:56 | the length defaults to 12 |
| Password.BuildCharset | tools/password_generator.py:62-71 | the `+=` sequence builds the concatenation upper, lower, digits, punctuation, each included exactly when its flag is set |
| Password.Extended | tools/password_generator.py:64-71 | one conditional `+=` appends that class exactly when its flag is set |
| Password.CharsetMembers | tools/password_generator.py:62-71 | a character is in the set exactly when its class is selected |
| Password.CharsetExcludes | tools/password_generator.py:62-71 | a character of the set belongs only to selected classes |
| Password.CharsetEmpty | tools/password_generator.py:73-74 | the set is empty exactly when every flag is off |
| Password.DefaultCharset | tools/password_generator.py:56-71 | with the defaults the set is upper, lower, digits and punctuation, 94 characters |
| Password.ChoosePassword | tools/password_generator.py:78 | the password has the requested length (none for a negative one), every character drawn from the set |
| Password.AnyInClass | tools/password_generator.py:82-85 | `any(...)` is true exactly when some character of the password is in the class |
| Password.GeneratePassword | tools/password_generator.py:41-88 | the error is returned exactly when no class is selected; otherwise the password has the requested length, the reported length is its length, each character is the chosen one of the set, each `contains_*` flag is true exactly when some character is in that class, and an excluded class always reports false |
| Password.ExcludedClassAbsent | tools/password_generator.py:78-85 | a password drawn from the set has no character of an unselected class |

## Left out

- I/O is not modelled:
  - `load_wordlist` reads a file; only its 2048-word check is kept, as the word list's precondition;
  - `load_wallet` and both `save_wallet`s read and write files; the loaded state is the `Loaded` constructor;
  - `_request`, `close` and the async context manager do networking.
- `__main__` and `example_usage`: entry scripts with no logic of their own.
- Concurrency: `asyncio.gather` is a sequence of replies read in order, and `return_exceptions` results are replies with a failure status.
- Cryptography: SHA-256, HMAC-SHA512, PBKDF2, Ed25519 signing and public keys, and `str(float)`/`json.dumps` are primitives. Only their output lengths are known, so `json.dumps` escaping and float formatting are not modelled.
- Base64: the text renderings of keys and signatures are not modelled. The model keeps the raw bytes.
- `generate`'s hex renderings and its self-check of the test signature are not modelled. The check asks nacl to verify what it just signed, so the model has no way to state its outcome.
- `derive`:
  - the `bytes.fromhex` decoding of `seed_hex` is not modelled, and neither is its error path;
  - negative `network_type` or `index` values are not modelled; parameters are `nat`, and a negative value takes an unchecked OR in Python.
- Every error message is an enumerated case carrying no message text. This includes the formatted "Insufficient balance (...)" message.
- `timedelta(hours=1)` and `datetime.now()` in `get_history` are not modelled as clock readings. They are the window constant and the `now` argument, and times are real seconds.
- History.SortDesc: `sorted` is stable, but the contract only promises newest-first order and a permutation. It does not promise that entries with equal times keep their order.
- Replies.ParsedTx: the amount conversion of get_history, `float(amount_raw)` when the text has a dot and `int(amount_raw) / MICROUNIT` otherwise (tools/octratx.py:259-260), is not modelled. The reply carries the converted amount as a real, so the dot test, the `amount_raw`/`amount` fallback and the errors `int` and `float` raise are left out.
- History.SentEntry: a send stamps its new history entry with the `now` of the call. The source reads a fresh `datetime.now()` after the POST (tools/octratx.py:383 and 454). Wallet.OctraWallet.SendTransaction, Wallet.OctraWallet.SendMultiple and their specifications use the same single `now`.
- The `limit` argument of `get_history` only shapes a URL, so it is not modelled.
- The `pool_info` and `duration` members of a send result are not modelled: they are measurements and echo.
- Password.GeneratePassword: a non-integer `length` raises a TypeError that is caught as an error dict; this is not modelled, since `length` is an integer here. `isupper`/`islower`/`isdigit` are modelled for the ASCII characters the set contains.
- `DATAFLOW_SCHEMA` bounds (such as 12 to 24 mnemonic words) are documentation and are not enforced.
- Status.BalanceToken: Python's `str.isdigit()` is Unicode-wide, but the model reads only ASCII digits. A token of other Unicode digits (`"١٢"`) reads as its value in Python and as 0.0 here. A token with a digit that `float` cannot read (`"²"`) makes Python store (None, None) and the model 0.0.
- Status.NonceToken: ASCII digits only, as for BalanceToken. `"٣"` is 3 in Python and 0 here, and `"²"` makes `int` raise, so Python stores (None, None).
- Status.ParsePlainStatus: inherits the ASCII reading of the two tokens. `"² 5"` gives (0.0, 5) here, where Python stores (None, None).
- Status.PlainTextMalformedIsZero: "not digits" means not ASCII digits. A token of other Unicode digits is not covered.
- Text.Lower: only A-Z is lowered. Python's `str.lower()` also lowers non-ASCII letters, and can change the length (`"İ"` becomes two characters).
- Transactions.ClassifySend: the "ok" test uses the ASCII Text.Lower. So a reply `"OK abc"` spelled with the Kelvin sign (U+212A), which Python lowers to "ok abc" and accepts, is rejected here. The "no transactions" test of get_history has the same restriction.
- Dispatch.ActionOutcomes: holds for well-typed replies only. A reply is a JSON object whose fields have the types the client converts them to. Bodies on which the client raises are not represented, and for those Python answers `success: False` (tools/octratx.py:610-611). Examples:
  - a non-numeric `nonce`, where `int()` raises;
  - a non-object body, where `.get` raises;
  - a `recent_transactions` entry without `hash`.

## Findings

| source | as written | input that shows it | evidently intended | confidence | as-written member | corrected member |
|---|---|---|---|---|---|---|
| tools/octratx.py:82 | `ADDRESS_PATTERN` ends in `$`, which Python's `re.match` also accepts right before one final newline | `"oct" + "1"*44 + "\n"` is accepted by validate_address and the send checks, yet verify_address_format rejects it | only `oct` and exactly 44 Base58 characters, as `\Z` or `fullmatch` would give | medium, not executed | Address.PatternAsWrittenAcceptsNewline | Address.PatternImpliesWellFormed |
| tools/octratx.py:571-588 | process_transaction constructs an OctraWallet from `wallet_path` but never calls `load_wallet`, so the wallet holds no signing key | any `{"action": "send", "to_address": <valid>, "amount": 1.0}` | load the wallet named by `wallet_path` before dispatching | high, not executed | Dispatch.UnloadedSendFails | Dispatch.LoadedSendAccepted |
