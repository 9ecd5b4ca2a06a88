/**
 * The OctraWallet client (tools/octratx.py:54-544): its status and history caches, updated in
 * place by get_status, get_history and the two send methods. Every request is answered by a
 * reply passed in, and `now` stands for the clock.
 */
module Wallet {
  import opened Wrappers
  import opened Numbers
  import opened Primitives
  import Text
  import opened Address
  import opened Replies
  import opened Status
  import opened History
  import opened Transactions
  import opened Sending

  const DEFAULT_RPC_URL: string := "https://octra.network"

  /** get_wallet_info's dictionary. */
  datatype WalletInfo = WalletInfo(address: Option<string>, publicKey: Option<string>, rpcUrl: string,
                                   hasPrivateKey: bool)

  class OctraWallet {
    /** The keys and address; set once, by load_wallet. */
    const id: Identity
    const rpcUrl: string
    var balanceCache: Option<real>
    var nonceCache: Option<int>
    var lastUpdate: real
    var transactionHistory: seq<HistoryEntry>
    var lastHistoryUpdate: real

    function Cache(): StatusCache
      reads this
    {
      StatusCache(balanceCache, nonceCache, lastUpdate)
    }

    /** Balance and nonce are cached together. */
    predicate Valid()
      reads this
    {
      Consistent(Cache())
    }

    /** `OctraWallet(rpc_url=...)` (tools/octratx.py:59-83): nothing loaded, nothing cached. */
    constructor (crypto: Primitives, rpcUrl: string)
      ensures id == Identity(crypto, None, None, None) && this.rpcUrl == rpcUrl
      ensures Cache() == StatusCache(None, None, 0.0)
      ensures transactionHistory == [] && lastHistoryUpdate == 0.0
      ensures Valid()
    {
      this.id := Identity(crypto, None, None, None);
      this.rpcUrl := rpcUrl;
      balanceCache, nonceCache, lastUpdate := None, None, 0.0;
      transactionHistory, lastHistoryUpdate := [], 0.0;
    }

    /** A fresh wallet after a successful load_wallet (tools/octratx.py:85-108): the address,
      * the signing key and its encoded public key are set. */
    constructor Loaded(crypto: Primitives, rpcUrl: string, address: string, signingKey: Bytes32, publicKey: string)
      ensures id == Identity(crypto, Some(address), Some(signingKey), Some(publicKey)) && this.rpcUrl == rpcUrl
      ensures Cache() == StatusCache(None, None, 0.0)
      ensures transactionHistory == [] && lastHistoryUpdate == 0.0
      ensures Valid()
    {
      this.id := Identity(crypto, Some(address), Some(signingKey), Some(publicKey));
      this.rpcUrl := rpcUrl;
      balanceCache, nonceCache, lastUpdate := None, None, 0.0;
      transactionHistory, lastHistoryUpdate := [], 0.0;
    }

    /** get_status (tools/octratx.py:164-214). `requested` tells whether the two requests went
      * out; `balanceReply` and `stagingReply` are their answers. */
    method GetStatus(force: bool, now: real, balanceReply: Reply<AccountJson>, stagingReply: Reply<StagingJson>)
      returns (nonce: Option<int>, balance: Option<real>, requested: bool)
      modifies this
      ensures requested == !StatusCacheHit(old(Cache()), force, now)
      ensures Cache() == StatusStep(old(Cache()), id.address, force, now, balanceReply, stagingReply)
      ensures nonce == nonceCache && balance == balanceCache
      ensures transactionHistory == old(transactionHistory) && lastHistoryUpdate == old(lastHistoryUpdate)
      ensures old(Valid()) ==> Valid()
    {
      ghost var c := Cache();
      if !force && balanceCache.Some? && now - lastUpdate < STATUS_TTL {
        return nonceCache, balanceCache, false;
      }
      requested := true;
      if balanceReply.status == 200 && balanceReply.json.Some? {
        var data := balanceReply.json.value;
        nonceCache := Some(data.nonce);
        balanceCache := Some(data.balance);
        lastUpdate := now;
        if stagingReply.status == 200 && stagingReply.json.Some? {
          var ours := OwnStaged(stagingReply.json.value.staged, id.address);
          if ours != [] {
            var highest := MaxNonce(ours);
            if highest > nonceCache.value {
              nonceCache := Some(highest);
            }
          }
        }
      } else if balanceReply.status == 404 {
        nonceCache, balanceCache, lastUpdate := Some(0), Some(0.0), now;
      } else if balanceReply.status == 200 && balanceReply.text != [] {
        var parts := Text.Words(balanceReply.text);
        if |parts| >= 2 {
          var b := BalanceToken(parts[0]);
          if b.None? {
            // float() raised
            nonceCache, balanceCache := None, None;
          } else {
            balanceCache := b;
            nonceCache := Some(NonceToken(parts[1]));
            lastUpdate := now;
          }
        } else {
          nonceCache, balanceCache := None, None;
        }
      }
      nonce, balance := nonceCache, balanceCache;
      if Consistent(c) {
        StatusRefreshConsistent(c, id.address, now, balanceReply, stagingReply);
      }
    }

    /** get_history (tools/octratx.py:216-285). `addressReply` answers the address request and
      * `txReplies(k)` the request for the k-th referenced transaction. */
    method GetHistory(force: bool, now: real, addressReply: Reply<AddressJson>, txReplies: nat -> Reply<TxJson>)
      returns (history: seq<HistoryEntry>, requested: bool)
      modifies this
      ensures requested == !HistoryCacheHit(old(transactionHistory), old(lastHistoryUpdate), force, now)
      ensures (transactionHistory, lastHistoryUpdate) ==
        HistoryStep(old(transactionHistory), old(lastHistoryUpdate), id.address, force, now, addressReply, txReplies)
      ensures history == transactionHistory
      ensures Cache() == old(Cache())
      ensures old(Valid()) ==> Valid()
    {
      if !force && now - lastHistoryUpdate < HISTORY_TTL && transactionHistory != [] {
        return transactionHistory, false;
      }
      requested := true;
      if addressReply.status != 200 || (addressReply.json.None? && addressReply.text == []) {
        return transactionHistory, true;
      }
      if addressReply.json.Some? && addressReply.json.value.recent.Some? {
        var refs := addressReply.json.value.recent.value;
        var existing := Hashes(transactionHistory);
        var newTransactions: seq<HistoryEntry> := [];
        for k := 0 to |refs|
          invariant newTransactions == NewEntries(refs[..k], txReplies, existing, id.address)
        {
          assert refs[..k + 1][..k] == refs[..k];
          var result := txReplies(k);
          if Usable(result) {
            if refs[k].hash !in existing {
              newTransactions := newTransactions + [EntryOf(refs[k], result.json.value.parsed.value, id.address)];
            }
          }
        }
        assert refs[..|refs|] == refs;
        transactionHistory := MergeHistory(newTransactions, transactionHistory, now);
        lastHistoryUpdate := now;
      } else if addressReply.status == 404
             || (addressReply.status == 200 && addressReply.text != []
                 && Text.Contains(Text.Lower(addressReply.text), "no transactions")) {
        transactionHistory := [];
        lastHistoryUpdate := now;
      }
      history := transactionHistory;
    }

    /** send_transaction (tools/octratx.py:319-393): the forced status refresh, then one signed
      * post answered by `postReply`. `posted` is the transaction that went out, if any. */
    method SendTransaction(to: string, amount: real, now: real, timestamp: real, balanceReply: Reply<AccountJson>,
                           stagingReply: Reply<StagingJson>, postReply: Reply<SendJson>)
      returns (r: Result<SendOutcome, WalletError>, posted: Option<Tx>)
      modifies this
      ensures var s := SendSpec(id, old(Cache()), old(transactionHistory), to, amount, now, timestamp,
                                balanceReply, stagingReply, postReply);
        r == s.result && posted == s.posted && Cache() == s.cache && transactionHistory == s.history
      ensures lastHistoryUpdate == old(lastHistoryUpdate)
      ensures old(Valid()) ==> Valid()
    {
      if !MatchesAddressPatternAsWritten(to) {
        return Err(InvalidRecipient), None;
      }
      if !AmountAccepted(id.crypto, amount) {
        return Err(InvalidAmountError), None;
      }
      var nonce, balance, _ := GetStatus(true, now, balanceReply, stagingReply);
      r, posted := SignAndPost(to, amount, now, timestamp, nonce, balance, postReply);
    }

    /** tools/octratx.py:340-391: after the forced refresh left `nonce` and `balance` cached, the
      * nonce and balance checks, the signed transaction and its post. */
    method SignAndPost(to: string, amount: real, now: real, timestamp: real, nonce: Option<int>,
                       balance: Option<real>, postReply: Reply<SendJson>)
      returns (r: Result<SendOutcome, WalletError>, posted: Option<Tx>)
      requires nonce == nonceCache && balance == balanceCache
      modifies this
      ensures var s := SendRefreshed(id, old(Cache()), old(transactionHistory), to, amount, now, timestamp, postReply);
        r == s.result && posted == s.posted && Cache() == s.cache && transactionHistory == s.history
      ensures lastHistoryUpdate == old(lastHistoryUpdate)
      ensures old(Valid()) ==> Valid()
    {
      ghost var c, h := Cache(), transactionHistory;
      ghost var spec := SendRefreshed(id, c, h, to, amount, now, timestamp, postReply);
      if nonce.None? {
        return Err(NoNonce), None;
      }
      if BalanceTooLow(balance, amount) {
        return Err(InsufficientBalance), None;
      }
      var created := CreateTransaction(id.crypto, id.address, id.signingKey, id.publicKey, to, amount, nonce.value + 1, timestamp);
      if created.Err? {
        return Err(Unsigned), None;
      }
      var outcome := ClassifySend(postReply, created.value.hash);
      assert spec.result == Ok(outcome) && spec.posted == Some(created.value.tx);
      posted := Some(created.value.tx);
      if outcome.Accepted? {
        assert spec.cache == c.(lastUpdate := 0.0) && spec.history == h + [SentEntry(now, outcome.hash, amount, to)];
        transactionHistory := transactionHistory + [SentEntry(now, outcome.hash, amount, to)];
        lastUpdate := 0.0;
      } else {
        assert spec.cache == c && spec.history == h;
      }
      r := Ok(outcome);
    }

    /** send_multiple_transactions (tools/octratx.py:395-478) with _send_single_tx
      * (tools/octratx.py:480-504): validation, the forced status refresh, then the recipients
      * in batches of `batchSize`, signed with consecutive nonces. `replies(k)` answers the post
      * for recipient k and `timestamps(k)` is the timestamp its transaction is built with. */
    method SendMultiple(recipients: seq<Recipient>, batchSize: int, now: real, timestamps: nat -> real,
                        balanceReply: Reply<AccountJson>, stagingReply: Reply<StagingJson>,
                        replies: nat -> Reply<SendJson>)
      returns (r: Result<BatchReport, WalletError>, posted: seq<Tx>)
      modifies this
      ensures var m := MultiSendSpec(id, old(Cache()), old(transactionHistory), recipients, batchSize, now,
                                     timestamps, balanceReply, stagingReply, replies);
        r == m.result && posted == m.posted && Cache() == m.cache && transactionHistory == m.history
      ensures lastHistoryUpdate == old(lastHistoryUpdate)
      ensures old(Valid()) ==> Valid()
    {
      if recipients == [] {
        return Err(NoRecipients), [];
      }
      var totalAmount := 0.0;
      for k := 0 to |recipients|
        invariant forall j :: 0 <= j < k ==>
          MatchesAddressPatternAsWritten(recipients[j].address) && AmountAccepted(id.crypto, recipients[j].amount)
        invariant totalAmount == Total(recipients[..k])
        invariant Cache() == old(Cache()) && transactionHistory == old(transactionHistory)
        invariant lastHistoryUpdate == old(lastHistoryUpdate)
      {
        FirstInvalidAt(id.crypto, recipients, k);
        if !MatchesAddressPatternAsWritten(recipients[k].address) {
          return Err(InvalidEntry(InvalidAddress(recipients[k].address))), [];
        }
        if !AmountAccepted(id.crypto, recipients[k].amount) {
          return Err(InvalidEntry(InvalidAmount(recipients[k].amount))), [];
        }
        assert recipients[..k + 1][..k] == recipients[..k];
        totalAmount := totalAmount + recipients[k].amount;
      }
      assert recipients[..|recipients|] == recipients;
      var nonce, balance, _ := GetStatus(true, now, balanceReply, stagingReply);
      if nonce.None? {
        return Err(NoNonce), [];
      }
      if BalanceTooLow(balance, totalAmount) {
        return Err(InsufficientBalance), [];
      }
      if batchSize == 0 {
        return Err(InvalidBatchSize), [];
      }
      if batchSize < 0 {
        return Ok(BatchReport([], [], |recipients|)), [];
      }
      if id.signingKey.None? {
        // the first _create_transaction raises
        return Err(Unsigned), [];
      }
      r, posted := SendBatches(recipients, batchSize, nonce.value, now, timestamps, replies);
    }

    /** The batch loop of send_multiple_transactions (tools/octratx.py:426-478), after the
      * checks passed and the status gave `base` as the nonce. */
    method SendBatches(recipients: seq<Recipient>, batchSize: nat, base: int, now: real, timestamps: nat -> real,
                       replies: nat -> Reply<SendJson>)
      returns (r: Result<BatchReport, WalletError>, posted: seq<Tx>)
      requires batchSize > 0 && id.signingKey.Some?
      modifies this
      ensures var ss := Successes(recipients, replies, |recipients|);
        && r == Ok(BatchReport(ss, Failures(recipients, replies, |recipients|), |recipients|))
        && posted == SignedRange(id, recipients, base, timestamps, 0, |recipients|)
        && Cache() == (if ss != [] then old(Cache()).(lastUpdate := 0.0) else old(Cache()))
        && transactionHistory == old(transactionHistory) + SentHistory(recipients, replies, now, |recipients|)
      ensures lastHistoryUpdate == old(lastHistoryUpdate)
    {
      var n := |recipients|;
      var successful: seq<SuccessEntry> := [];
      var failed: seq<FailureEntry> := [];
      posted := [];
      // `batches = [recipients[i:i+batch_size] for i in range(0, n, batch_size)]` and
      // `for batch_idx, batch in enumerate(batches)`: the batch with index b is the recipients
      // from `start` = b * batchSize to `end` (Transactions.BatchSlice), and the nonce
      // `nonce + 1 + (batch_idx * batch_size) + i` of its item i is base + 1 + start + i
      // (Sending.BatchedNonces).
      var start := 0;
      while start < n
        invariant start <= n
        invariant successful == Successes(recipients, replies, start)
        invariant failed == Failures(recipients, replies, start)
        invariant posted == SignedRange(id, recipients, base, timestamps, 0, start)
        invariant transactionHistory == old(transactionHistory) + SentHistory(recipients, replies, now, start)
        invariant Cache() == old(Cache()) && lastHistoryUpdate == old(lastHistoryUpdate)
        decreases n - start
      {
        var end := Min(start + batchSize, n);
        posted := BuildBatch(recipients, start, end, base, timestamps, posted);
        successful, failed := RecordResults(recipients, start, end, now, replies, successful, failed,
                                            old(transactionHistory));
        start := end;
      }
      if successful != [] {
        lastUpdate := 0.0;
      }
      r := Ok(BatchReport(successful, failed, n));
    }

    /** The results loop of one batch (tools/octratx.py:437-469): each recipient's outcome is
      * appended to the successes, with a history entry, or to the failures. `h0` is the history
      * before the first batch. */
    method RecordResults(recipients: seq<Recipient>, start: nat, end: nat, now: real,
                         replies: nat -> Reply<SendJson>, successful: seq<SuccessEntry>, failed: seq<FailureEntry>,
                         ghost h0: seq<HistoryEntry>)
      returns (successful': seq<SuccessEntry>, failed': seq<FailureEntry>)
      requires start <= end <= |recipients|
      requires successful == Successes(recipients, replies, start) && failed == Failures(recipients, replies, start)
      requires transactionHistory == h0 + SentHistory(recipients, replies, now, start)
      modifies this
      ensures successful' == Successes(recipients, replies, end)
      ensures failed' == Failures(recipients, replies, end)
      ensures transactionHistory == h0 + SentHistory(recipients, replies, now, end)
      ensures Cache() == old(Cache()) && lastHistoryUpdate == old(lastHistoryUpdate)
    {
      successful', failed' := successful, failed;
      for k := start to end
        invariant successful' == Successes(recipients, replies, k)
        invariant failed' == Failures(recipients, replies, k)
        invariant transactionHistory == h0 + SentHistory(recipients, replies, now, k)
        invariant Cache() == old(Cache()) && lastHistoryUpdate == old(lastHistoryUpdate)
      {
        var to, amount := recipients[k].address, recipients[k].amount;
        RecordStep(recipients, replies, now, k);
        match OutcomeOf(replies, k) {
          case Accepted(hash) =>
            successful' := successful' + [SuccessEntry(to, amount, hash)];
            transactionHistory := transactionHistory + [SentEntry(now, hash, amount, to)];
          case Rejected(error) =>
            failed' := failed' + [FailureEntry(to, amount, error)];
        }
      }
    }

    /** The transactions of one batch, built before any of them is posted
      * (tools/octratx.py:430-434), after those of the earlier batches: recipient k is signed
      * with nonce base + 1 + k. */
    method BuildBatch(recipients: seq<Recipient>, start: nat, end: nat, base: int, timestamps: nat -> real,
                      posted: seq<Tx>)
      returns (posted': seq<Tx>)
      requires id.signingKey.Some? && start <= end <= |recipients|
      requires posted == SignedRange(id, recipients, base, timestamps, 0, start)
      ensures posted' == SignedRange(id, recipients, base, timestamps, 0, end)
    {
      posted' := posted;
      var k := start;
      while k < end
        invariant start <= k <= end
        invariant posted' == SignedRange(id, recipients, base, timestamps, 0, k)
      {
        var tx := SignFor(recipients, base, timestamps, k);
        SignedRangeSnoc(id, recipients, base, timestamps, 0, k);
        posted' := posted' + [tx];
        k := k + 1;
      }
      assert k == end;
    }

    /** One `_create_transaction` call of a batch: recipient k with nonce base + 1 + k. */
    method SignFor(recipients: seq<Recipient>, base: int, timestamps: nat -> real, k: nat) returns (tx: Tx)
      requires id.signingKey.Some? && k < |recipients|
      ensures tx == SignedFor(id, recipients, base, timestamps, k)
    {
      var created := CreateTransaction(id.crypto, id.address, id.signingKey, id.publicKey, recipients[k].address,
                                       recipients[k].amount, base + 1 + k, timestamps(k));
      tx := created.value.tx;
    }

    /** get_pending_transactions (tools/octratx.py:506-518): the wallet's own staged entries, or
      * nothing when the reply is not a 200 with a body. */
    method GetPending(stagingReply: Reply<StagingJson>) returns (pending: seq<StagedTx>)
      ensures stagingReply.status != 200 || stagingReply.json.None? ==> pending == []
      ensures stagingReply.status == 200 && stagingReply.json.Some? ==>
        && pending == OwnStaged(stagingReply.json.value.staged, id.address)
        && forall t :: t in pending <==> t in stagingReply.json.value.staged && t.sender == id.address
    {
      if stagingReply.status != 200 || stagingReply.json.None? {
        return [];
      }
      pending := OwnStaged(stagingReply.json.value.staged, id.address);
    }

    /** validate_address (tools/octratx.py:520-530): `ADDRESS_PATTERN.match`. It accepts the
      * 47-character addresses verify_address_format accepts, and each of them followed by one
      * newline, which `$` lets through. */
    function ValidateAddress(address: string): (ok: bool)
      ensures ok <==> || (|address| == 47 && WellFormedAddress(address))
                      || (|address| == 48 && address[47] == '\n' && WellFormedAddress(address[..47]))
    {
      MatchesAddressPatternAsWritten(address)
    }

    /** get_wallet_info (tools/octratx.py:532-544). */
    function Info(): (info: WalletInfo)
      ensures info.address == id.address && info.publicKey == id.publicKey && info.rpcUrl == rpcUrl
      ensures info.hasPrivateKey <==> id.signingKey.Some?
    {
      WalletInfo(id.address, id.publicKey, rpcUrl, id.signingKey.Some?)
    }
  }
}
