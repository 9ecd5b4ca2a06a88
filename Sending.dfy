/**
 * send_transaction and send_multiple_transactions (tools/octratx.py:319-478) as functions of the
 * wallet's identity, its cache, its history and the replies it gets. The OctraWallet methods
 * are proved to compute exactly these.
 */
module Sending {
  import opened Wrappers
  import opened Numbers
  import opened Primitives
  import opened Address
  import opened Replies
  import opened Status
  import opened History
  import opened Transactions

  /** What a wallet signs with: all None until load_wallet has run. */
  datatype Identity = Identity(crypto: Primitives, address: Option<string>, signingKey: Option<Bytes32>,
                               publicKey: Option<string>)

  /** The exceptions the send methods raise. */
  datatype WalletError =
    | InvalidRecipient            // "Invalid recipient address"
    | InvalidAmountError          // "Invalid amount"
    | NoNonce                     // "Failed to get current nonce"
    | InsufficientBalance         // "Insufficient balance (...)"
    | Unsigned                    // `self.signing_key.sign` on a wallet that holds no key
    | NoRecipients                // "No recipients provided"
    | InvalidEntry(v: Validation) // "Invalid address: ..." / "Invalid amount: ..."
    | InvalidBatchSize            // `range(0, n, 0)` raises ValueError

  /** `not balance or balance < amount` */
  predicate BalanceTooLow(balance: Option<real>, amount: real) {
    balance.None? || balance.value == 0.0 || balance.value < amount
  }

  /** The whole effect of one call: what it returns, the transaction it posted, and the new cache
    * and history. */
  datatype SendResult = SendResult(result: Result<SendOutcome, WalletError>, posted: Option<Tx>,
                                   cache: StatusCache, history: seq<HistoryEntry>)

  /** `send_transaction` (tools/octratx.py:319-393). The status refresh is forced, so it always
    * requests; `timestamp` is what `_create_transaction` reads from the clock and jitter. */
  function SendSpec(id: Identity, c: StatusCache, h: seq<HistoryEntry>, to: string, amount: real,
                    now: real, timestamp: real, balanceReply: Reply<AccountJson>,
                    stagingReply: Reply<StagingJson>, postReply: Reply<SendJson>): SendResult
  {
    if !MatchesAddressPatternAsWritten(to) then SendResult(Err(InvalidRecipient), None, c, h)
    else if !AmountAccepted(id.crypto, amount) then SendResult(Err(InvalidAmountError), None, c, h)
    else SendRefreshed(id, StatusRefresh(c, id.address, now, balanceReply, stagingReply), h, to, amount, now,
                       timestamp, postReply)
  }

  /** The rest of `send_transaction` (tools/octratx.py:340-393), once the forced refresh has
    * left the cache `s`. */
  function SendRefreshed(id: Identity, s: StatusCache, h: seq<HistoryEntry>, to: string, amount: real,
                         now: real, timestamp: real, postReply: Reply<SendJson>): SendResult
  {
    if s.nonce.None? then SendResult(Err(NoNonce), None, s, h)
    else if BalanceTooLow(s.balance, amount) then SendResult(Err(InsufficientBalance), None, s, h)
    else match CreateTransaction(id.crypto, id.address, id.signingKey, id.publicKey, to, amount, s.nonce.value + 1, timestamp)
      case Err(_) => SendResult(Err(Unsigned), None, s, h)
      case Ok(signed) =>
        var outcome := ClassifySend(postReply, signed.hash);
        if outcome.Accepted? then
          SendResult(Ok(outcome), Some(signed.tx), s.(lastUpdate := 0.0), h + [SentEntry(now, outcome.hash, amount, to)])
        else SendResult(Ok(outcome), Some(signed.tx), s, h)
  }

  /** Input checks come first: a bad address or amount raises before any request, leaving the
    * cache and the history as they were. */
  lemma SendValidatesFirst(id: Identity, c: StatusCache, h: seq<HistoryEntry>, to: string, amount: real,
                           now: real, timestamp: real, balanceReply: Reply<AccountJson>,
                           stagingReply: Reply<StagingJson>, postReply: Reply<SendJson>)
    requires !MatchesAddressPatternAsWritten(to) || !AmountAccepted(id.crypto, amount)
    ensures var r := SendSpec(id, c, h, to, amount, now, timestamp, balanceReply, stagingReply, postReply);
      r.result.Err? && r.posted.None? && r.cache == c && r.history == h
  {
  }

  /** Whatever is posted is addressed as asked and carries the refreshed nonce plus one; a
    * transaction is posted exactly when the nonce and balance checks passed and a key signed it. */
  lemma SendPostsNextNonce(id: Identity, c: StatusCache, h: seq<HistoryEntry>, to: string, amount: real,
                           now: real, timestamp: real, balanceReply: Reply<AccountJson>,
                           stagingReply: Reply<StagingJson>, postReply: Reply<SendJson>)
    ensures var r := SendSpec(id, c, h, to, amount, now, timestamp, balanceReply, stagingReply, postReply);
      var s := StatusRefresh(c, id.address, now, balanceReply, stagingReply);
      && (r.posted.Some? <==> (MatchesAddressPatternAsWritten(to) && AmountAccepted(id.crypto, amount)
                                && s.nonce.Some? && !BalanceTooLow(s.balance, amount) && id.signingKey.Some?))
      && (r.posted.Some? ==> (r.posted.value.fields.nonce == s.nonce.value + 1
                              && r.posted.value.fields.to == to && r.posted.value.fields.sender == id.address))
  {
  }

  /** The effect on the wallet: an accepted send appends exactly one unconfirmed outgoing entry
    * and zeroes the timestamp so that the next status call refreshes, keeping the cached nonce;
    * anything else leaves the history as it was. */
  lemma SendEffects(id: Identity, c: StatusCache, h: seq<HistoryEntry>, to: string, amount: real,
                    now: real, timestamp: real, balanceReply: Reply<AccountJson>,
                    stagingReply: Reply<StagingJson>, postReply: Reply<SendJson>)
    ensures var r := SendSpec(id, c, h, to, amount, now, timestamp, balanceReply, stagingReply, postReply);
      var s := StatusRefresh(c, id.address, now, balanceReply, stagingReply);
      && (r.result.Ok? && r.result.value.Accepted? ==>
            && |r.history| == |h| + 1 && r.history[..|h|] == h
            && r.history[|h|] == SentEntry(now, r.result.value.hash, amount, to)
            && r.cache == s.(lastUpdate := 0.0) && r.cache.nonce == s.nonce && r.posted.Some?)
      && (!(r.result.Ok? && r.result.value.Accepted?) ==> r.history == h)
  {
    var r := SendSpec(id, c, h, to, amount, now, timestamp, balanceReply, stagingReply, postReply);
    if r.result.Ok? && r.result.value.Accepted? {
      assert r.history[..|h|] == h;
    }
  }

  /** A wallet without a signing key never gets a transaction out. */
  lemma UnsignedNeverSends(id: Identity, c: StatusCache, h: seq<HistoryEntry>, to: string, amount: real,
                           now: real, timestamp: real, balanceReply: Reply<AccountJson>,
                           stagingReply: Reply<StagingJson>, postReply: Reply<SendJson>)
    requires id.signingKey.None?
    ensures var r := SendSpec(id, c, h, to, amount, now, timestamp, balanceReply, stagingReply, postReply);
      r.result.Err? && r.posted.None? && r.history == h
  {
  }

  /** A wallet with a key sends: with a valid request, a usable status reply and a node that
    * accepts, the result is the accepted hash. */
  lemma SignedSendAccepted(id: Identity, c: StatusCache, h: seq<HistoryEntry>, to: string, amount: real,
                           now: real, timestamp: real, nonce: int, balance: real, txHash: string)
    requires id.signingKey.Some? && MatchesAddressPatternAsWritten(to) && AmountAccepted(id.crypto, amount)
    requires balance >= amount
    ensures var r := SendSpec(id, c, h, to, amount, now, timestamp,
                              Reply(200, "", Some(AccountJson(nonce, balance))), Reply(404, "", None),
                              Reply(200, "", Some(SendJson(Some("accepted"), Some(txHash)))));
      r.result == Ok(Accepted(txHash)) && r.posted.Some? && r.posted.value.fields.nonce == nonce + 1
  {
  }

  // send_multiple_transactions

  datatype SuccessEntry = SuccessEntry(address: string, amount: real, hash: string)
  datatype FailureEntry = FailureEntry(address: string, amount: real, error: ErrorBody<SendJson>)
  datatype BatchReport = BatchReport(successful: seq<SuccessEntry>, failed: seq<FailureEntry>, total: nat)

  /** How `_send_single_tx` reads the reply for recipient k: no fallback hash. */
  function OutcomeOf(replies: nat -> Reply<SendJson>, k: nat): SendOutcome {
    ClassifySend(replies(k), "")
  }

  /** The `successful_transactions` for the first `count` recipients, in order. */
  function Successes(rs: seq<Recipient>, replies: nat -> Reply<SendJson>, count: nat): seq<SuccessEntry>
    requires count <= |rs|
  {
    if count == 0 then []
    else
      var k := count - 1;
      match OutcomeOf(replies, k)
      case Accepted(hash) => Successes(rs, replies, k) + [SuccessEntry(rs[k].address, rs[k].amount, hash)]
      case Rejected(_) => Successes(rs, replies, k)
  }

  /** The `failed_transactions` for the first `count` recipients, in order. */
  function Failures(rs: seq<Recipient>, replies: nat -> Reply<SendJson>, count: nat): seq<FailureEntry>
    requires count <= |rs|
  {
    if count == 0 then []
    else
      var k := count - 1;
      match OutcomeOf(replies, k)
      case Accepted(_) => Failures(rs, replies, k)
      case Rejected(error) => Failures(rs, replies, k) + [FailureEntry(rs[k].address, rs[k].amount, error)]
  }

  /** Each success is a recipient whose post was accepted, with the hash the node gave, and
    * each failure one whose post was rejected, with the node's error. */
  lemma {:induction false} ReportedOutcomes(rs: seq<Recipient>, replies: nat -> Reply<SendJson>, count: nat)
    requires count <= |rs|
    ensures forall e :: e in Successes(rs, replies, count) ==>
      exists k :: (0 <= k < count && OutcomeOf(replies, k).Accepted?
                   && e == SuccessEntry(rs[k].address, rs[k].amount, OutcomeOf(replies, k).hash))
    ensures forall e :: e in Failures(rs, replies, count) ==>
      exists k :: (0 <= k < count && OutcomeOf(replies, k).Rejected?
                   && e == FailureEntry(rs[k].address, rs[k].amount, OutcomeOf(replies, k).error))
  {
    if count > 0 {
      ReportedOutcomes(rs, replies, count - 1);
    }
  }

  /** Every recipient lands in exactly one of the two lists. */
  lemma {:induction false} SuccessesAndFailuresPartition(rs: seq<Recipient>, replies: nat -> Reply<SendJson>, count: nat)
    requires count <= |rs|
    ensures |Successes(rs, replies, count)| + |Failures(rs, replies, count)| == count
  {
    if count > 0 {
      SuccessesAndFailuresPartition(rs, replies, count - 1);
    }
  }

  /** The history entries appended for the first `count` recipients: one per accepted post. */
  function SentHistory(rs: seq<Recipient>, replies: nat -> Reply<SendJson>, now: real, count: nat): seq<HistoryEntry>
    requires count <= |rs|
  {
    if count == 0 then []
    else
      var k := count - 1;
      match OutcomeOf(replies, k)
      case Accepted(hash) => SentHistory(rs, replies, now, k) + [SentEntry(now, hash, rs[k].amount, rs[k].address)]
      case Rejected(_) => SentHistory(rs, replies, now, k)
  }

  /** One more recipient: its outcome extends exactly one of the two reports, and the
    * history exactly when accepted. */
  lemma RecordStep(rs: seq<Recipient>, replies: nat -> Reply<SendJson>, now: real, k: nat)
    requires k < |rs|
    ensures OutcomeOf(replies, k).Accepted? ==>
      var hash := OutcomeOf(replies, k).hash;
      && Successes(rs, replies, k + 1) == Successes(rs, replies, k) + [SuccessEntry(rs[k].address, rs[k].amount, hash)]
      && Failures(rs, replies, k + 1) == Failures(rs, replies, k)
      && (forall h0: seq<HistoryEntry> :: h0 + SentHistory(rs, replies, now, k + 1)
            == (h0 + SentHistory(rs, replies, now, k)) + [SentEntry(now, hash, rs[k].amount, rs[k].address)])
    ensures OutcomeOf(replies, k).Rejected? ==>
      && Successes(rs, replies, k + 1) == Successes(rs, replies, k)
      && Failures(rs, replies, k + 1) == Failures(rs, replies, k) + [FailureEntry(rs[k].address, rs[k].amount, OutcomeOf(replies, k).error)]
      && SentHistory(rs, replies, now, k + 1) == SentHistory(rs, replies, now, k)
  {
  }

  /** History entry k records success k: outgoing, unconfirmed, to its address with its
    * amount and hash. */
  lemma {:induction false} SentHistoryMatchesSuccesses(rs: seq<Recipient>, replies: nat -> Reply<SendJson>, now: real,
                                                       count: nat)
    requires count <= |rs|
    ensures |SentHistory(rs, replies, now, count)| == |Successes(rs, replies, count)|
    ensures forall k :: 0 <= k < |Successes(rs, replies, count)| ==>
      var e := Successes(rs, replies, count)[k];
      SentHistory(rs, replies, now, count)[k] == SentEntry(now, e.hash, e.amount, e.address)
  {
    if count > 0 {
      SentHistoryMatchesSuccesses(rs, replies, now, count - 1);
    }
  }

  /** The transaction signed for recipient k, with nonce base + 1 + k. */
  function SignedFor(id: Identity, rs: seq<Recipient>, base: int, timestamps: nat -> real, k: nat): Tx
    requires id.signingKey.Some? && k < |rs|
  {
    CreateTransaction(id.crypto, id.address, id.signingKey, id.publicKey, rs[k].address, rs[k].amount,
                      base + 1 + k, timestamps(k)).value.tx
  }

  /** The transactions signed for recipients start, ..., start + count - 1, in order. */
  function SignedRange(id: Identity, rs: seq<Recipient>, base: int, timestamps: nat -> real,
                       start: nat, count: nat): (txs: seq<Tx>)
    requires id.signingKey.Some? && start + count <= |rs|
    ensures |txs| == count
  {
    if count == 0 then []
    else SignedRange(id, rs, base, timestamps, start, count - 1)
         + [SignedFor(id, rs, base, timestamps, start + count - 1)]
  }

  /** One more recipient appends its transaction. */
  lemma SignedRangeSnoc(id: Identity, rs: seq<Recipient>, base: int, timestamps: nat -> real,
                        start: nat, count: nat)
    requires id.signingKey.Some? && start + count < |rs|
    ensures SignedRange(id, rs, base, timestamps, start, count + 1)
         == SignedRange(id, rs, base, timestamps, start, count)
            + [SignedFor(id, rs, base, timestamps, start + count)]
  {
    assert start + (count + 1) - 1 == start + count;
  }

  /** Item i of the range is the transaction signed for recipient start + i. */
  lemma {:induction false} SignedRangeIndex(id: Identity, rs: seq<Recipient>, base: int, timestamps: nat -> real,
                                            start: nat, count: nat)
    requires id.signingKey.Some? && start + count <= |rs|
    ensures forall i :: 0 <= i < count ==>
      SignedRange(id, rs, base, timestamps, start, count)[i] == SignedFor(id, rs, base, timestamps, start + i)
  {
    if count > 0 {
      SignedRangeIndex(id, rs, base, timestamps, start, count - 1);
      SignedRangeSnoc(id, rs, base, timestamps, start, count - 1);
    }
  }

  datatype MultiResult = MultiResult(result: Result<BatchReport, WalletError>, posted: seq<Tx>,
                                     cache: StatusCache, history: seq<HistoryEntry>)

  /** `send_multiple_transactions` (tools/octratx.py:395-478); `replies(k)` answers the post for
    * the k-th recipient and `timestamps(k)` is read when its transaction is built. */
  function MultiSendSpec(id: Identity, c: StatusCache, h: seq<HistoryEntry>, rs: seq<Recipient>, batchSize: int,
                         now: real, timestamps: nat -> real, balanceReply: Reply<AccountJson>,
                         stagingReply: Reply<StagingJson>, replies: nat -> Reply<SendJson>): MultiResult
  {
    if rs == [] then MultiResult(Err(NoRecipients), [], c, h)
    else if FirstInvalid(id.crypto, rs) != AllValid then MultiResult(Err(InvalidEntry(FirstInvalid(id.crypto, rs))), [], c, h)
    else MultiSendRefreshed(id, StatusRefresh(c, id.address, now, balanceReply, stagingReply), h, rs, batchSize,
                            now, timestamps, replies)
  }

  /** The rest of `send_multiple_transactions` (tools/octratx.py:418-478), once the forced
    * refresh has left the cache `s`. */
  function MultiSendRefreshed(id: Identity, s: StatusCache, h: seq<HistoryEntry>, rs: seq<Recipient>, batchSize: int,
                              now: real, timestamps: nat -> real, replies: nat -> Reply<SendJson>): MultiResult
  {
    if s.nonce.None? then MultiResult(Err(NoNonce), [], s, h)
    else if BalanceTooLow(s.balance, Total(rs)) then MultiResult(Err(InsufficientBalance), [], s, h)
    else if batchSize == 0 then MultiResult(Err(InvalidBatchSize), [], s, h)
    else if batchSize < 0 then MultiResult(Ok(BatchReport([], [], |rs|)), [], s, h)
    else if id.signingKey.None? then MultiResult(Err(Unsigned), [], s, h)
    else
      var ss := Successes(rs, replies, |rs|);
      MultiResult(Ok(BatchReport(ss, Failures(rs, replies, |rs|), |rs|)),
                  SignedRange(id, rs, s.nonce.value, timestamps, 0, |rs|),
                  if ss != [] then s.(lastUpdate := 0.0) else s,
                  h + SentHistory(rs, replies, now, |rs|))
  }

  /** An empty list or any invalid entry raises before any request. */
  lemma MultiSendValidatesFirst(id: Identity, c: StatusCache, h: seq<HistoryEntry>, rs: seq<Recipient>, batchSize: int,
                                now: real, timestamps: nat -> real, balanceReply: Reply<AccountJson>,
                                stagingReply: Reply<StagingJson>, replies: nat -> Reply<SendJson>)
    requires rs == [] || exists k :: 0 <= k < |rs| && !(MatchesAddressPatternAsWritten(rs[k].address) && AmountAccepted(id.crypto, rs[k].amount))
    ensures var r := MultiSendSpec(id, c, h, rs, batchSize, now, timestamps, balanceReply, stagingReply, replies);
      r.result.Err? && r.posted == [] && r.cache == c && r.history == h
  {
  }

  /** With a positive batch size and a key, every recipient is posted once, the k-th with nonce
    * base + 1 + k (distinct and contiguous), every recipient is reported once as a success or a
    * failure, the history grows by the successes, and the timestamp is zeroed iff one succeeded. */
  lemma MultiSendAccounting(id: Identity, c: StatusCache, h: seq<HistoryEntry>, rs: seq<Recipient>, batchSize: int,
                            now: real, timestamps: nat -> real, balanceReply: Reply<AccountJson>,
                            stagingReply: Reply<StagingJson>, replies: nat -> Reply<SendJson>)
    requires MultiSendSpec(id, c, h, rs, batchSize, now, timestamps, balanceReply, stagingReply, replies).result.Ok?
    requires batchSize > 0
    ensures var r := MultiSendSpec(id, c, h, rs, batchSize, now, timestamps, balanceReply, stagingReply, replies);
      var s := StatusRefresh(c, id.address, now, balanceReply, stagingReply);
      var report := r.result.value;
      && |r.posted| == |rs| && s.nonce.Some?
      && (forall k :: 0 <= k < |rs| ==> (r.posted[k].fields.nonce == s.nonce.value + 1 + k
                                          && r.posted[k].fields.to == rs[k].address))
      && (forall i, j :: 0 <= i < j < |rs| ==> r.posted[i].fields.nonce < r.posted[j].fields.nonce)
      && |report.successful| + |report.failed| == report.total == |rs|
      && |r.history| == |h| + |report.successful| && r.history[..|h|] == h
      && (report.successful != [] ==> r.cache == s.(lastUpdate := 0.0))
      && (report.successful == [] ==> r.cache == s)
  {
    var s := StatusRefresh(c, id.address, now, balanceReply, stagingReply);
    assert MultiSendSpec(id, c, h, rs, batchSize, now, timestamps, balanceReply, stagingReply, replies)
        == MultiSendRefreshed(id, s, h, rs, batchSize, now, timestamps, replies);
    RefreshedPosts(id, s, h, rs, batchSize, now, timestamps, replies);
    RefreshedReports(id, s, h, rs, batchSize, now, timestamps, replies);
  }

  /** Item i of batch b (the batches of `range(0, n, batch_size)`) is recipient k = b * batchSize + i,
    * and it is posted to that item's address with nonce base + 1 + b * batchSize + i, the value the
    * batch loop computes. */
  lemma BatchedNonces(id: Identity, c: StatusCache, h: seq<HistoryEntry>, rs: seq<Recipient>, batchSize: int,
                      now: real, timestamps: nat -> real, balanceReply: Reply<AccountJson>,
                      stagingReply: Reply<StagingJson>, replies: nat -> Reply<SendJson>, b: nat, i: nat)
    requires MultiSendSpec(id, c, h, rs, batchSize, now, timestamps, balanceReply, stagingReply, replies).result.Ok?
    requires batchSize > 0 && b < |Batches(rs, batchSize)| && i < |Batches(rs, batchSize)[b]|
    ensures var r := MultiSendSpec(id, c, h, rs, batchSize, now, timestamps, balanceReply, stagingReply, replies);
      var s := StatusRefresh(c, id.address, now, balanceReply, stagingReply);
      var k := BatchBegin(|rs|, batchSize, b) + i;
      && k == b * batchSize + i && k < |rs| && Batches(rs, batchSize)[b][i] == rs[k]
      && |r.posted| == |rs| && s.nonce.Some?
      && r.posted[k].fields.nonce == s.nonce.value + 1 + k
      && r.posted[k].fields.to == Batches(rs, batchSize)[b][i].address
  {
    BatchItem(rs, batchSize, b, i);
    MultiSendAccounting(id, c, h, rs, batchSize, now, timestamps, balanceReply, stagingReply, replies);
  }

  /** The posting half of MultiSendAccounting, after the refresh left the cache `s`. */
  lemma RefreshedPosts(id: Identity, s: StatusCache, h: seq<HistoryEntry>, rs: seq<Recipient>, batchSize: int,
                       now: real, timestamps: nat -> real, replies: nat -> Reply<SendJson>)
    requires MultiSendRefreshed(id, s, h, rs, batchSize, now, timestamps, replies).result.Ok? && batchSize > 0
    ensures var r := MultiSendRefreshed(id, s, h, rs, batchSize, now, timestamps, replies);
      && |r.posted| == |rs| && s.nonce.Some?
      && (forall k :: 0 <= k < |rs| ==> (r.posted[k].fields.nonce == s.nonce.value + 1 + k
                                          && r.posted[k].fields.to == rs[k].address))
  {
    var r := MultiSendRefreshed(id, s, h, rs, batchSize, now, timestamps, replies);
    assert r.posted == SignedRange(id, rs, s.nonce.value, timestamps, 0, |rs|);
    SignedRangeIndex(id, rs, s.nonce.value, timestamps, 0, |rs|);
    forall k | 0 <= k < |rs|
      ensures r.posted[k].fields.nonce == s.nonce.value + 1 + k && r.posted[k].fields.to == rs[k].address
    {
      assert r.posted[k] == SignedFor(id, rs, s.nonce.value, timestamps, k);
    }
  }

  /** The reporting half of MultiSendAccounting, after the refresh left the cache `s`. */
  lemma RefreshedReports(id: Identity, s: StatusCache, h: seq<HistoryEntry>, rs: seq<Recipient>, batchSize: int,
                         now: real, timestamps: nat -> real, replies: nat -> Reply<SendJson>)
    requires MultiSendRefreshed(id, s, h, rs, batchSize, now, timestamps, replies).result.Ok? && batchSize > 0
    ensures var r := MultiSendRefreshed(id, s, h, rs, batchSize, now, timestamps, replies);
      var report := r.result.value;
      && |report.successful| + |report.failed| == report.total == |rs|
      && |r.history| == |h| + |report.successful| && r.history[..|h|] == h
      && (report.successful != [] ==> r.cache == s.(lastUpdate := 0.0))
      && (report.successful == [] ==> r.cache == s)
  {
    var r := MultiSendRefreshed(id, s, h, rs, batchSize, now, timestamps, replies);
    SuccessesAndFailuresPartition(rs, replies, |rs|);
    SentHistoryMatchesSuccesses(rs, replies, now, |rs|);
    assert r.history[..|h|] == h;
  }

  /** A negative batch size makes `range` empty: nothing is sent and nothing is reported. */
  lemma NegativeBatchSizeSendsNothing(id: Identity, c: StatusCache, h: seq<HistoryEntry>, rs: seq<Recipient>, batchSize: int,
                                      now: real, timestamps: nat -> real, balanceReply: Reply<AccountJson>,
                                      stagingReply: Reply<StagingJson>, replies: nat -> Reply<SendJson>)
    requires batchSize < 0
    ensures var r := MultiSendSpec(id, c, h, rs, batchSize, now, timestamps, balanceReply, stagingReply, replies);
      r.posted == [] && r.history == h
      && (r.result.Ok? ==> r.result.value.successful == [] && r.result.value.failed == [] && r.result.value.total == |rs|)
  {
  }
}
