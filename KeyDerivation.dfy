/**
 * HMAC-chained key derivation in the style of SLIP-0010 (tools/octrawallets.py:81-156) and the
 * textual form of derivation paths used by `derive` (tools/octrawallets.py:279).
 */
module KeyDerivation {
  import opened Wrappers
  import opened Numbers
  import opened Primitives
  import opened Address

  /** A private key and its chain code. */
  datatype ExtendedKey = ExtendedKey(key: Bytes32, chain: Bytes32)

  const HARDENED: nat := 0x8000_0000

  /** The bytes of the HMAC key `b"Octra seed"`. */
  const MASTER_SECRET: seq<Byte> := [0x4F, 0x63, 0x74, 0x72, 0x61, 0x20, 0x73, 0x65, 0x65, 0x64]

  lemma MasterSecretText()
    ensures MASTER_SECRET == Utf8("Octra seed")
  {
    var text := "Octra seed";
    Utf8Ascii(text);
  }

  /** `derive_master_key`, tools/octrawallets.py:81-86: the HMAC-SHA512 of the seed keyed by
    * "Octra seed", split into its two halves. */
  function DeriveMasterKey(p: Primitives, seed: seq<Byte>): (k: ExtendedKey)
    ensures k.key + k.chain == p.hmacSha512(MASTER_SECRET, seed)
  {
    SplitMac(p.hmacSha512(MASTER_SECRET, seed))
  }

  function SplitMac(mac: Bytes64): (k: ExtendedKey)
    ensures k.key + k.chain == mac
  {
    ExtendedKey(mac[..32], mac[32..])
  }

  /** `index.to_bytes(4, 'big')`, which raises OverflowError from 2^32 upwards. */
  function Index4(index: nat): (r: Option<seq<Byte>>)
    ensures r.Some? <==> index < UINT32_LIMIT
    ensures r.Some? ==> |r.value| == 4 && BigEndian(r.value) == index
  {
    Uint32Limit();
    if index < UINT32_LIMIT then Some(ToBytes(index, 4)) else None
  }

  /** The message that derive_child_key_ed25519 authenticates (tools/octrawallets.py:89-94). */
  function ChildMessage(p: Primitives, key: Bytes32, index: nat): Option<seq<Byte>> {
    match Index4(index)
    case None => None
    case Some(be) => Some(if index >= HARDENED then [0] + key + be else p.ed25519PublicKey(key) + be)
  }

  /** The message is `0x00 || priv || BE32(index)` for hardened indices and `pub(priv) || BE32(index)`
    * otherwise; it exists exactly for the indices that fit in four bytes, which it ends with. */
  lemma ChildMessageShape(p: Primitives, key: Bytes32, index: nat)
    ensures ChildMessage(p, key, index).Some? <==> index < UINT32_LIMIT
    ensures ChildMessage(p, key, index).Some? ==>
      var m := ChildMessage(p, key, index).value;
      && (index >= HARDENED ==> |m| == 37 && m[0] == 0 && m[1..33] == key)
      && (index < HARDENED ==> |m| == 36 && m[..32] == p.ed25519PublicKey(key))
      && BigEndian(m[|m| - 4..]) == index
  {
    if index < UINT32_LIMIT {
      var be := Index4(index).value;
      var m := ChildMessage(p, key, index).value;
      assert m[|m| - 4..] == be;
      if index >= HARDENED {
        assert m[1..33] == key;
      } else {
        assert m[..32] == p.ed25519PublicKey(key);
      }
    }
  }

  /** `derive_child_key_ed25519`, tools/octrawallets.py:88-100; None stands for the OverflowError. */
  function DeriveChild(p: Primitives, parent: ExtendedKey, index: nat): (r: Option<ExtendedKey>)
    ensures r.Some? <==> index < UINT32_LIMIT
    ensures r.Some? ==> r.value.key + r.value.chain == p.hmacSha512(parent.chain, ChildMessage(p, parent.key, index).value)
  {
    ChildMessageShape(p, parent.key, index);
    match ChildMessage(p, parent.key, index)
    case None => None
    case Some(m) => Some(SplitMac(p.hmacSha512(parent.chain, m)))
  }

  /** Deriving along a path from a given key, first index first. */
  function DeriveFrom(p: Primitives, start: ExtendedKey, path: seq<nat>): Option<ExtendedKey>
    decreases |path|
  {
    if path == [] then Some(start)
    else match DeriveChild(p, start, path[0])
      case None => None
      case Some(k) => DeriveFrom(p, k, path[1..])
  }

  /** `derive_path` as a value: the master key folded through the path. */
  function DerivePathSpec(p: Primitives, seed: seq<Byte>, path: seq<nat>): Option<ExtendedKey> {
    DeriveFrom(p, DeriveMasterKey(p, seed), path)
  }

  /** Extending a path by one index derives one more child from the key of the shorter path. */
  lemma {:induction false} DeriveFromSnoc(p: Primitives, start: ExtendedKey, path: seq<nat>, index: nat)
    ensures DeriveFrom(p, start, path + [index]) ==
      match DeriveFrom(p, start, path)
      case None => None
      case Some(k) => DeriveChild(p, k, index)
    decreases |path|
  {
    if path == [] {
      assert [index][1..] == [];
    } else {
      assert (path + [index])[1..] == path[1..] + [index];
      match DeriveChild(p, start, path[0])
      case None =>
      case Some(k) => DeriveFromSnoc(p, k, path[1..], index);
    }
  }

  /** The fold structure of derive_path: the empty path gives the master key, and each further
    * index one more child step. */
  lemma {:induction false} DerivePathFold(p: Primitives, seed: seq<Byte>, path: seq<nat>, index: nat)
    ensures DerivePathSpec(p, seed, []) == Some(DeriveMasterKey(p, seed))
    ensures DerivePathSpec(p, seed, path + [index]) ==
      match DerivePathSpec(p, seed, path)
      case None => None
      case Some(k) => DeriveChild(p, k, index)
  {
    DeriveFromSnoc(p, DeriveMasterKey(p, seed), path, index);
  }

  /** Derivation fails exactly when some index of the path does not fit in four bytes. */
  lemma {:induction false} DeriveFromDefined(p: Primitives, start: ExtendedKey, path: seq<nat>)
    ensures DeriveFrom(p, start, path).Some? <==> forall i :: 0 <= i < |path| ==> path[i] < UINT32_LIMIT
    decreases |path|
  {
    if path != [] {
      match DeriveChild(p, start, path[0])
      case None =>
      case Some(k) =>
        DeriveFromDefined(p, k, path[1..]);
        assert forall i :: 1 <= i < |path| ==> path[i] == path[1..][i - 1];
    }
  }

  /** One loop step of derive_path: a key derived for a prefix extends by one child. */
  lemma {:induction false} DeriveStep(p: Primitives, start: ExtendedKey, prefix: seq<nat>, index: nat, k: ExtendedKey)
    requires DeriveFrom(p, start, prefix) == Some(k)
    ensures DeriveFrom(p, start, prefix + [index]) == DeriveChild(p, k, index)
  {
    DeriveFromSnoc(p, start, prefix, index);
  }

  /** A failing step makes the whole path fail. */
  lemma {:induction false} DeriveStepFails(p: Primitives, seed: seq<Byte>, path: seq<nat>, i: nat)
    requires i < |path| && path[i] >= UINT32_LIMIT
    ensures DerivePathSpec(p, seed, path) == None
  {
    DeriveFromDefined(p, DeriveMasterKey(p, seed), path);
  }

  /** `derive_path`, tools/octrawallets.py:102-106, reassigning key and chain per index. */
  method DerivePath(p: Primitives, seed: seq<Byte>, path: seq<nat>) returns (r: Option<ExtendedKey>)
    ensures r == DerivePathSpec(p, seed, path)
  {
    var master := DeriveMasterKey(p, seed);
    var key, chain := master.key, master.chain;
    assert path[..0] == [];
    for i := 0 to |path|
      invariant DerivePathSpec(p, seed, path[..i]) == Some(ExtendedKey(key, chain))
    {
      assert path[..i + 1] == path[..i] + [path[i]];
      DeriveStep(p, master, path[..i], path[i], ExtendedKey(key, chain));
      var child := DeriveChild(p, ExtendedKey(key, chain), path[i]);
      if child.None? {
        DeriveStepFails(p, seed, path, i);
        return None;
      }
      key, chain := child.value.key, child.value.chain;
    }
    assert path[..|path|] == path;
    return Some(ExtendedKey(key, chain));
  }

  // Path indices and their `'`-suffixed text.

  /** Whether bit 31 is set (`i & 0x80000000`). */
  predicate HighBit(i: nat) {
    (i / HARDENED) % 2 == 1
  }

  /** `0x80000000 | x` */
  function Harden(x: nat): nat {
    if HighBit(x) then x else x + HARDENED
  }

  /** Setting the hardened bit keeps the low 31 bits and stays within 32 bits iff x does. */
  lemma HardenFacts(x: nat)
    ensures HighBit(Harden(x))
    ensures Harden(x) % HARDENED == x % HARDENED
    ensures Harden(x) < UINT32_LIMIT <==> x < UINT32_LIMIT
    ensures Harden(x) >= HARDENED
    ensures x < HARDENED ==> Harden(x) == x + HARDENED
  {
    if !HighBit(x) {
      DivMulUnique(x + HARDENED, HARDENED, x / HARDENED + 1, x % HARDENED);
    }
  }

  /** One index as derive prints it: `str(i & 0x7FFFFFFF)` and a `'` when bit 31 is set. */
  function RenderIndex(i: nat): (s: string)
    ensures |s| > 0 && '/' !in s
  {
    DecimalString(i % HARDENED) + (if HighBit(i) then "'" else "")
  }

  /** Below 2^32 the rendering determines the index. */
  lemma RenderIndexInjective(i: nat, j: nat)
    requires i < UINT32_LIMIT && j < UINT32_LIMIT
    requires RenderIndex(i) == RenderIndex(j)
    ensures i == j
  {
    var si, sj := RenderIndex(i), RenderIndex(j);
    assert HighBit(i) <==> si[|si| - 1] == '\'';
    assert HighBit(j) <==> sj[|sj| - 1] == '\'';
    if HighBit(i) {
      assert si[..|si| - 1] == DecimalString(i % HARDENED);
      assert sj[..|sj| - 1] == DecimalString(j % HARDENED);
    } else {
      assert si == DecimalString(i % HARDENED);
      assert sj == DecimalString(j % HARDENED);
    }
    DecimalStringInjective(i % HARDENED, j % HARDENED);
    DivMulUnique(i, HARDENED, i / HARDENED, i % HARDENED);
    DivMulUnique(j, HARDENED, j / HARDENED, j % HARDENED);
  }

  /** `'/'.join(...)` over the rendered indices (tools/octrawallets.py:279). */
  function RenderPath(path: seq<nat>): string {
    if path == [] then "" else if |path| == 1 then RenderIndex(path[0])
    else RenderIndex(path[0]) + "/" + RenderPath(path[1..])
  }

  function CountChar(s: string, c: char): nat {
    if s == [] then 0 else (if s[0] == c then 1 else 0) + CountChar(s[1..], c)
  }

  lemma {:induction false} CountCharAppend(a: string, b: string, c: char)
    ensures CountChar(a + b, c) == CountChar(a, c) + CountChar(b, c)
  {
    if a != [] {
      assert (a + b)[0] == a[0];
      assert (a + b)[1..] == a[1..] + b;
      CountCharAppend(a[1..], b, c);
    } else {
      assert a + b == b;
    }
  }

  lemma {:induction false} CountCharAbsent(s: string, c: char)
    requires c !in s
    ensures CountChar(s, c) == 0
  {
    if s != [] {
      CountCharAbsent(s[1..], c);
    }
  }

  /** The rendered path has one segment per index: exactly |path| - 1 separators. */
  lemma {:induction false} RenderPathSegments(path: seq<nat>)
    requires path != []
    ensures CountChar(RenderPath(path), '/') == |path| - 1
  {
    CountCharAbsent(RenderIndex(path[0]), '/');
    if |path| > 1 {
      RenderPathSegments(path[1..]);
      CountCharAppend(RenderIndex(path[0]), "/", '/');
      CountCharAppend(RenderIndex(path[0]) + "/", RenderPath(path[1..]), '/');
    }
  }

  /** An index below 2^31 prints as its decimal text; its hardened form adds a `'`. */
  lemma RenderHardened(x: nat)
    requires x < HARDENED
    ensures RenderIndex(x) == DecimalString(x)
    ensures RenderIndex(Harden(x)) == DecimalString(x) + "'"
  {
    DivMulUnique(x, HARDENED, 0, x);
    DivMulUnique(x + HARDENED, HARDENED, 1, x);
    assert !HighBit(x) && Harden(x) == x + HARDENED && HighBit(x + HARDENED);
  }

  /** Prepending a hardened index below 2^31 prepends its text, a `'` and a separator. */
  lemma RenderHardenedCons(x: nat, tail: seq<nat>)
    requires x < HARDENED && tail != []
    ensures RenderPath([Harden(x)] + tail) == DecimalString(x) + "'/" + RenderPath(tail)
  {
    RenderHardened(x);
    assert ([Harden(x)] + tail)[1..] == tail;
  }

  /** The text of a path from a hardened entry below 2^31 onwards. */
  lemma RenderStep(path: seq<nat>, k: nat, x: nat)
    requires k + 1 < |path| && x < HARDENED && path[k] == Harden(x)
    ensures RenderPath(path[k..]) == DecimalString(x) + "'/" + RenderPath(path[k + 1..])
  {
    assert path[k..] == [Harden(x)] + path[k + 1..];
    RenderHardenedCons(x, path[k + 1..]);
  }

  // Network paths.

  /** The word before the number in the name of a non-zero network type. */
  function KindName(networkType: int): (kind: string)
    ensures |kind| > 0 && ' ' !in kind
  {
    if networkType == 1 then "SubCoin"
    else if networkType == 2 then "Contract"
    else if networkType == 3 then "Subnet"
    else if networkType == 4 then "Account"
    else "Unknown"
  }

  /** `get_network_type_name`, tools/octrawallets.py:108-120. */
  function NetworkTypeName(networkType: int): (name: string)
    ensures networkType == 0 ==> name == "MainCoin"
    ensures networkType != 0 ==> name == KindName(networkType) + " " + IntString(networkType)
  {
    if networkType == 0 then "MainCoin"
    else if networkType == 1 then "SubCoin " + IntString(networkType)
    else if networkType == 2 then "Contract " + IntString(networkType)
    else if networkType == 3 then "Subnet " + IntString(networkType)
    else if networkType == 4 then "Account " + IntString(networkType)
    else "Unknown " + IntString(networkType)
  }

  lemma IntStringNoSpace(i: int)
    ensures ' ' !in IntString(i) && |IntString(i)| > 0
  {
    if i < 0 {
      assert IntString(i) == "-" + DecimalString(-i);
    }
  }

  /** Only network type 0 is called "MainCoin". */
  lemma MainCoinOnlyZero(t: int)
    ensures NetworkTypeName(t) == "MainCoin" <==> t == 0
  {
    if t != 0 {
      var n := NetworkTypeName(t);
      assert n[|KindName(t)|] == ' ';
      assert ' ' !in "MainCoin";
    }
  }

  /** Distinct network types get distinct names. */
  lemma NetworkTypeNameInjective(a: int, b: int)
    requires NetworkTypeName(a) == NetworkTypeName(b)
    ensures a == b
  {
    var na := NetworkTypeName(a);
    MainCoinOnlyZero(a);
    MainCoinOnlyZero(b);
    IntStringNoSpace(a);
    IntStringNoSpace(b);
    if a != 0 && b != 0 {
      var ka, kb := KindName(a), KindName(b);
      assert na[|ka|] == ' ';
      assert |ka| == |kb|;
      assert na[|ka| + 1..] == IntString(a) == IntString(b);
      IntStringInjective(a, b);
    }
  }

  /** The eight-entry path of derive_for_network (tools/octrawallets.py:125-136); the coin
    * type always equals the network type. */
  function NetworkPath(networkType: nat, network: nat, contract: nat, account: nat, index: nat,
                       token: nat, subnet: nat): seq<nat> {
    var coinType := if networkType == 0 then 0 else networkType;
    [Harden(345), Harden(coinType), Harden(network), Harden(contract), Harden(account),
     Harden(token), Harden(subnet), index]
  }

  lemma NetworkPathShape(networkType: nat, network: nat, contract: nat, account: nat, index: nat,
                         token: nat, subnet: nat)
    ensures var path := NetworkPath(networkType, network, contract, account, index, token, subnet);
      && |path| == 8
      && (forall k :: 0 <= k < 7 ==> HighBit(path[k]))
      && path[7] == index
      && path[0] == HARDENED + 345
      && path[1] % HARDENED == networkType % HARDENED
      && path[2] % HARDENED == network % HARDENED
      && path[3] % HARDENED == contract % HARDENED
      && path[4] % HARDENED == account % HARDENED
      && path[5] % HARDENED == token % HARDENED
      && path[6] % HARDENED == subnet % HARDENED
  {
    HardenFacts(345); HardenFacts(networkType); HardenFacts(network); HardenFacts(contract);
    HardenFacts(account); HardenFacts(token); HardenFacts(subnet);
  }

  /** Every parameter fits in 32 bits. */
  predicate ParametersFit(networkType: nat, network: nat, contract: nat, account: nat, index: nat,
                          token: nat, subnet: nat) {
    && networkType < UINT32_LIMIT && network < UINT32_LIMIT && contract < UINT32_LIMIT
    && account < UINT32_LIMIT && index < UINT32_LIMIT && token < UINT32_LIMIT && subnet < UINT32_LIMIT
  }

  /** The path consists of 32-bit indices exactly when every parameter fits in 32 bits. */
  lemma NetworkPathFits(networkType: nat, network: nat, contract: nat, account: nat, index: nat,
                        token: nat, subnet: nat)
    ensures var path := NetworkPath(networkType, network, contract, account, index, token, subnet);
      (forall i :: 0 <= i < |path| ==> path[i] < UINT32_LIMIT) <==>
      ParametersFit(networkType, network, contract, account, index, token, subnet)
  {
    var path := NetworkPath(networkType, network, contract, account, index, token, subnet);
    HardenFacts(345); HardenFacts(networkType); HardenFacts(network); HardenFacts(contract);
    HardenFacts(account); HardenFacts(token); HardenFacts(subnet);
    assert (forall i :: 0 <= i < |path| ==> path[i] < UINT32_LIMIT) <==>
      (path[1] < UINT32_LIMIT && path[2] < UINT32_LIMIT && path[3] < UINT32_LIMIT && path[4] < UINT32_LIMIT
       && path[5] < UINT32_LIMIT && path[6] < UINT32_LIMIT && path[7] < UINT32_LIMIT);
  }

  /** With the parameters below 2^31 the rendered path reads
    * `345'/<type>'/<network>'/<contract>'/<account>'/<token>'/<subnet>'/<index>`. */
  lemma NetworkPathText(networkType: nat, network: nat, contract: nat, account: nat, index: nat,
                        token: nat, subnet: nat)
    requires networkType < HARDENED && network < HARDENED && contract < HARDENED
    requires account < HARDENED && token < HARDENED && subnet < HARDENED && index < HARDENED
    ensures RenderPath(NetworkPath(networkType, network, contract, account, index, token, subnet)) ==
      "345'/" + (DecimalString(networkType) + "'/" + (DecimalString(network) + "'/" +
      (DecimalString(contract) + "'/" + (DecimalString(account) + "'/" + (DecimalString(token) + "'/" +
      (DecimalString(subnet) + "'/" + DecimalString(index)))))))
  {
    var path := NetworkPath(networkType, network, contract, account, index, token, subnet);
    RenderHardened(index);
    assert path[7..] == [index];
    RenderStep(path, 6, subnet);
    RenderStep(path, 5, token);
    RenderStep(path, 4, account);
    RenderStep(path, 3, contract);
    RenderStep(path, 2, network);
    RenderStep(path, 1, networkType);
    RenderStep(path, 0, 345);
    assert path[0..] == path;
    assert DecimalString(345) + "'/" == "345'/";
  }

  /** What derive_for_network returns (tools/octrawallets.py:147-156). */
  datatype Derived = Derived(privateKey: Bytes32, chainCode: Bytes32, publicKey: Bytes32,
                             address: string, path: seq<nat>, networkTypeName: string,
                             network: nat, contract: nat, account: nat, index: nat)

  /** `derive_for_network`, tools/octrawallets.py:122-156; None is the OverflowError of a
    * parameter that does not fit in 32 bits. */
  function DeriveForNetwork(p: Primitives, seed: seq<Byte>, networkType: nat, network: nat,
                            contract: nat, account: nat, index: nat, token: nat, subnet: nat)
    : (r: Option<Derived>)
    ensures r.Some? <==> ParametersFit(networkType, network, contract, account, index, token, subnet)
    ensures r.Some? ==> WellFormedAddress(r.value.address) && |r.value.path| == 8
    ensures r.Some? ==> r.value.address == CreateOctraAddress(p, p.ed25519PublicKey(r.value.privateKey))
    ensures r.Some? ==> var d := r.value;
      && d.path == NetworkPath(networkType, network, contract, account, index, token, subnet)
      && DerivePathSpec(p, seed, d.path) == Some(ExtendedKey(d.privateKey, d.chainCode))
      && d.publicKey == p.ed25519PublicKey(d.privateKey)
      && d.networkTypeName == NetworkTypeName(networkType)
      && d.network == network && d.contract == contract && d.account == account && d.index == index
  {
    var path := NetworkPath(networkType, network, contract, account, index, token, subnet);
    DeriveFromDefined(p, DeriveMasterKey(p, seed), path);
    NetworkPathFits(networkType, network, contract, account, index, token, subnet);
    match DerivePathSpec(p, seed, path)
    case None => None
    case Some(k) =>
      var publicKey := p.ed25519PublicKey(k.key);
      CreatedAddressWellFormed(p, publicKey);
      Some(Derived(k.key, k.chain, publicKey, CreateOctraAddress(p, publicKey), path,
                   NetworkTypeName(networkType), network, contract, account, index))
  }

  /** What `derive` returns (tools/octrawallets.py:260-286). */
  datatype DeriveReply =
    | DeriveOk(address: string, path: string, networkTypeName: string)
    | DeriveFailed

  /** `derive` on an already decoded seed; absent parameters default to 0. */
  function Derive(p: Primitives, seed: seq<Byte>, networkType: Option<nat>, index: Option<nat>): (r: DeriveReply)
    ensures r.DeriveOk? <==> networkType.GetOr(0) < UINT32_LIMIT && index.GetOr(0) < UINT32_LIMIT
    ensures r.DeriveOk? ==> WellFormedAddress(r.address) && CountChar(r.path, '/') == 7
    ensures r.DeriveOk? ==> r.networkTypeName == NetworkTypeName(networkType.GetOr(0))
    ensures r.DeriveOk? ==>
      var d := DeriveForNetwork(p, seed, networkType.GetOr(0), 0, 0, 0, index.GetOr(0), 0, 0);
      d.Some? && r.address == d.value.address && r.path == RenderPath(d.value.path)
    ensures r.DeriveOk? ==>
      var path := NetworkPath(networkType.GetOr(0), 0, 0, 0, index.GetOr(0), 0, 0);
      var k := DerivePathSpec(p, seed, path);
      && k.Some? && r.path == RenderPath(path)
      && r.address == CreateOctraAddress(p, p.ed25519PublicKey(k.value.key))
  {
    var t, i := networkType.GetOr(0), index.GetOr(0);
    match DeriveForNetwork(p, seed, t, 0, 0, 0, i, 0, 0)
    case None => DeriveFailed
    case Some(d) =>
      RenderPathSegments(d.path);
      DeriveOk(d.address, RenderPath(d.path), d.networkTypeName)
  }

  /** `derive` renders the path of network type t and index i, all other parameters 0. */
  lemma DeriveRendersPath(p: Primitives, seed: seq<Byte>, networkType: Option<nat>, index: Option<nat>)
    requires networkType.GetOr(0) < HARDENED && index.GetOr(0) < HARDENED
    ensures Derive(p, seed, networkType, index).DeriveOk?
    ensures Derive(p, seed, networkType, index).path ==
      RenderPath(NetworkPath(networkType.GetOr(0), 0, 0, 0, index.GetOr(0), 0, 0))
  {
  }

  /** Five `0'` segments in front of d. */
  lemma ZeroSegments(d: string)
    ensures var z := DecimalString(0) + "'/";
      z + (z + (z + (z + (z + d)))) == "0'/0'/0'/0'/0'/" + d
  {
    var z := DecimalString(0) + "'/";
    assert z == "0'/";
    var a2 := "0'/" + ("0'/" + d);
    assert a2 == "0'/0'/" + d;
    var a3 := "0'/" + a2;
    assert a3 == "0'/0'/0'/" + d;
    var a4 := "0'/" + a3;
    assert a4 == "0'/0'/0'/0'/" + d;
    assert "0'/" + a4 == "0'/0'/0'/0'/0'/" + d;
  }

  /** The text of that path: five `0'` segments between the type and the index. */
  lemma ZeroPathText(t: nat, i: nat)
    requires t < HARDENED && i < HARDENED
    ensures RenderPath(NetworkPath(t, 0, 0, 0, i, 0, 0)) ==
      "345'/" + (DecimalString(t) + "'/" + ("0'/0'/0'/0'/0'/" + DecimalString(i)))
  {
    NetworkPathText(t, 0, 0, 0, i, 0, 0);
    ZeroSegments(DecimalString(i));
  }

  /** For parameters below 2^31 the path text of `derive` is
    * `345'/<type>'/0'/0'/0'/0'/0'/<index>`. */
  lemma DerivePathText(p: Primitives, seed: seq<Byte>, networkType: Option<nat>, index: Option<nat>)
    requires networkType.GetOr(0) < HARDENED && index.GetOr(0) < HARDENED
    ensures Derive(p, seed, networkType, index).DeriveOk?
    ensures Derive(p, seed, networkType, index).path ==
      "345'/" + (DecimalString(networkType.GetOr(0)) + "'/" + ("0'/0'/0'/0'/0'/" + DecimalString(index.GetOr(0))))
  {
    DeriveRendersPath(p, seed, networkType, index);
    ZeroPathText(networkType.GetOr(0), index.GetOr(0));
  }
}
