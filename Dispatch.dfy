/** The entry point `process_transaction`, tools/octratx.py:561-611: one wallet operation chosen
  * by the `action` key of the input, answered with a success flag and data or an error. */
module Dispatch {
  import opened Wrappers
  import opened Numbers
  import opened Primitives
  import opened Replies
  import opened Status
  import opened History
  import opened Transactions
  import opened Sending
  import opened Wallet
  import opened Address

  /** The keys of `input_data` the dispatcher reads; None is a missing key. `limit` only shapes
    * the URL of the history request, whose answer is `Network.addressReply`. */
  datatype Request = Request(action: Option<string>, toAddress: Option<string>, amount: Option<real>,
                             limit: Option<int>)

  /** The clock and the answers the node gives to whatever requests the chosen action makes. */
  datatype Network = Network(now: real, timestamp: real, balanceReply: Reply<AccountJson>,
                             stagingReply: Reply<StagingJson>, postReply: Reply<SendJson>,
                             addressReply: Reply<AddressJson>, txReplies: nat -> Reply<TxJson>)

  /** The `data` member of a successful answer. */
  datatype Data =
    | SendData(outcome: SendOutcome)
    | StatusData(blockHeight: Option<int>, balance: Option<real>)  // block_height is status[0], the nonce
    | HistoryData(transactions: seq<HistoryEntry>)
    | PendingData(pendingTransactions: seq<StagedTx>)
    | InfoData(info: WalletInfo)

  /** The `error` member of a failed answer. */
  datatype Failure =
    | MissingAction               // the KeyError of `input_data['action']`
    | MissingParameters           // "Missing required parameters: to_address and amount"
    | UnknownAction(action: string) // "Unknown action: <action>"
    | Raised(error: WalletError)  // an exception of send_transaction

  datatype Response = Succeeded(data: Data) | Failed(failure: Failure)

  /** The answer for a wallet with identity `id`, URL `rpcUrl`, status cache `c`, history `h` and
    * history timestamp `hu`. Status and history are asked for without forcing a refresh. */
  function Respond(id: Identity, rpcUrl: string, c: StatusCache, h: seq<HistoryEntry>, hu: real,
                   req: Request, net: Network): Response
  {
    match req.action
    case None => Failed(MissingAction)
    case Some(action) =>
      if action == "send" then
        if req.toAddress.None? || req.amount.None? then Failed(MissingParameters)
        else
          var sent := SendSpec(id, c, h, req.toAddress.value, req.amount.value, net.now, net.timestamp,
                               net.balanceReply, net.stagingReply, net.postReply);
          match sent.result
          case Ok(outcome) => Succeeded(SendData(outcome))
          case Err(e) => Failed(Raised(e))
      else if action == "status" then
        var s := StatusStep(c, id.address, false, net.now, net.balanceReply, net.stagingReply);
        Succeeded(StatusData(s.nonce, s.balance))
      else if action == "history" then
        Succeeded(HistoryData(HistoryStep(h, hu, id.address, false, net.now, net.addressReply, net.txReplies).0))
      else if action == "pending" then
        var r := net.stagingReply;
        Succeeded(PendingData(if r.status != 200 || r.json.None? then [] else OwnStaged(r.json.value.staged, id.address)))
      else if action == "wallet_info" then
        Succeeded(InfoData(WalletInfo(id.address, id.publicKey, rpcUrl, id.signingKey.Some?)))
      else Failed(UnknownAction(action))
  }

  /** The body of process_transaction (tools/octratx.py:570-608) on the wallet it created. */
  method Dispatch(wallet: OctraWallet, req: Request, net: Network) returns (r: Response)
    modifies wallet
    ensures r == Respond(wallet.id, wallet.rpcUrl, old(wallet.Cache()), old(wallet.transactionHistory),
                         old(wallet.lastHistoryUpdate), req, net)
  {
    if req.action.None? {
      return Failed(MissingAction);
    }
    var action := req.action.value;
    if action == "send" {
      if req.toAddress.None? || req.amount.None? {
        return Failed(MissingParameters);
      }
      var result, _ := wallet.SendTransaction(req.toAddress.value, req.amount.value, net.now, net.timestamp,
                                              net.balanceReply, net.stagingReply, net.postReply);
      match result {
        case Ok(outcome) => r := Succeeded(SendData(outcome));
        case Err(e) => r := Failed(Raised(e));
      }
    } else if action == "status" {
      var nonce, balance, _ := wallet.GetStatus(false, net.now, net.balanceReply, net.stagingReply);
      r := Succeeded(StatusData(nonce, balance));
    } else if action == "history" {
      var history, _ := wallet.GetHistory(false, net.now, net.addressReply, net.txReplies);
      r := Succeeded(HistoryData(history));
    } else if action == "pending" {
      var pending := wallet.GetPending(net.stagingReply);
      r := Succeeded(PendingData(pending));
    } else if action == "wallet_info" {
      r := Succeeded(InfoData(wallet.Info()));
    } else {
      r := Failed(UnknownAction(action));
    }
  }

  /** The wallet process_transaction works on: constructed, never loaded. */
  function Unloaded(crypto: Primitives): Identity {
    Identity(crypto, None, None, None)
  }

  const FRESH: StatusCache := StatusCache(None, None, 0.0)

  /** process_transaction as written (tools/octratx.py:561-611): it constructs a wallet but never
    * calls load_wallet, so the wallet holds no key and no "send" can succeed. */
  method ProcessTransaction(crypto: Primitives, req: Request, net: Network) returns (r: Response)
    ensures r == Respond(Unloaded(crypto), DEFAULT_RPC_URL, FRESH, [], 0.0, req, net)
    ensures req.action == Some("send") ==> r.Failed?
  {
    var wallet := new OctraWallet(crypto, DEFAULT_RPC_URL);
    r := Dispatch(wallet, req, net);
    if req.action == Some("send") {
      UnloadedSendFails(crypto, DEFAULT_RPC_URL, FRESH, [], 0.0, req, net);
    }
  }

  /** Without a key, every "send" fails, whatever the request and the node say. */
  lemma UnloadedSendFails(crypto: Primitives, rpcUrl: string, c: StatusCache, h: seq<HistoryEntry>, hu: real,
                          req: Request, net: Network)
    requires req.action == Some("send")
    ensures Respond(Unloaded(crypto), rpcUrl, c, h, hu, req, net).Failed?
  {
    if req.toAddress.Some? && req.amount.Some? {
      UnsignedNeverSends(Unloaded(crypto), c, h, req.toAddress.value, req.amount.value, net.now, net.timestamp,
                         net.balanceReply, net.stagingReply, net.postReply);
    }
  }

  /** process_transaction with the wallet loaded first, as its `wallet_path` argument evidently
    * intends: the wallet holds the address and keys read from the file. */
  method ProcessLoadedTransaction(crypto: Primitives, address: string, signingKey: Bytes32, publicKey: string,
                                  req: Request, net: Network) returns (r: Response)
    ensures r == Respond(Identity(crypto, Some(address), Some(signingKey), Some(publicKey)), DEFAULT_RPC_URL,
                         FRESH, [], 0.0, req, net)
  {
    var wallet := new OctraWallet.Loaded(crypto, DEFAULT_RPC_URL, address, signingKey, publicKey);
    r := Dispatch(wallet, req, net);
  }

  /** A loaded wallet sends: a valid request, a usable status reply and a node that accepts give
    * a successful answer carrying the node's hash. */
  lemma LoadedSendAccepted(crypto: Primitives, address: string, signingKey: Bytes32, publicKey: string,
                           to: string, amount: real, nonce: int, balance: real, txHash: string, net: Network)
    requires MatchesAddressPatternAsWritten(to) && AmountAccepted(crypto, amount) && balance >= amount
    requires net.balanceReply == Reply(200, "", Some(AccountJson(nonce, balance)))
    requires net.stagingReply == Reply(404, "", None)
    requires net.postReply == Reply(200, "", Some(SendJson(Some("accepted"), Some(txHash))))
    ensures Respond(Identity(crypto, Some(address), Some(signingKey), Some(publicKey)), DEFAULT_RPC_URL, FRESH, [],
                    0.0, Request(Some("send"), Some(to), Some(amount), None), net)
         == Succeeded(SendData(Accepted(txHash)))
  {
    SignedSendAccepted(Identity(crypto, Some(address), Some(signingKey), Some(publicKey)), FRESH, [], to, amount,
                       net.now, net.timestamp, nonce, balance, txHash);
  }

  /** A post the node rejects still gives `success: True`: the failure is only inside `data`. */
  lemma RejectedSendSucceeds(id: Identity, rpcUrl: string, c: StatusCache, h: seq<HistoryEntry>, hu: real,
                             req: Request, net: Network)
    requires req.action == Some("send") && req.toAddress.Some? && req.amount.Some?
    requires SendSpec(id, c, h, req.toAddress.value, req.amount.value, net.now, net.timestamp, net.balanceReply,
                      net.stagingReply, net.postReply).result.Ok?
    requires net.postReply.status != 200
    ensures var r := Respond(id, rpcUrl, c, h, hu, req, net);
      r.Succeeded? && r.data.SendData? && r.data.outcome.Rejected?
  {
  }

  /** The actions process_transaction knows. */
  const ACTIONS: set<string> := {"send", "status", "history", "pending", "wallet_info"}

  /** A missing action, "send" without both parameters and an unknown action fail before any
    * request; on well-typed replies (the only ones a `Reply` holds) the four read-only actions
    * succeed. */
  lemma ActionOutcomes(id: Identity, rpcUrl: string, c: StatusCache, h: seq<HistoryEntry>, hu: real,
                       req: Request, net: Network)
    ensures var r := Respond(id, rpcUrl, c, h, hu, req, net);
      && (req.action.None? ==> r == Failed(MissingAction))
      && (req.action == Some("send") && (req.toAddress.None? || req.amount.None?) ==> r == Failed(MissingParameters))
      && (req.action.Some? && req.action.value !in ACTIONS ==> r == Failed(UnknownAction(req.action.value)))
      && (req.action.Some? && req.action.value in ACTIONS - {"send"} ==> r.Succeeded?)
      && (req.action == Some("wallet_info") ==> r.data.InfoData? && r.data.info.hasPrivateKey == id.signingKey.Some?)
  {
  }
}
