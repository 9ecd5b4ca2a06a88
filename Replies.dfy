/**
 * What the wallet client gets back from the RPC node. `_request` (tools/octratx.py:134-162)
 * yields a status code, the body text and the body parsed as JSON, the last being None when the
 * body is empty or not JSON. Each reply kind below keeps the JSON fields the client reads, with
 * the defaults of its `.get(...)` calls already applied; `json == None` stands for every falsy
 * JSON value (`None` or an empty object). Every non-empty body is taken to be a JSON object
 * whose fields have the types the client converts them to: bodies on which the client itself
 * raises (a non-numeric `nonce`, a list where an object is expected, an entry without `hash`)
 * have no representation here.
 */
module Replies {
  import opened Wrappers

  datatype Reply<J> = Reply(status: int, text: string, json: Option<J>)

  /** `json_data if json_data else text`: what a failed send reports as its error. */
  datatype ErrorBody<J> = JsonBody(body: J) | TextBody(text: string)

  function ErrorOf<J>(r: Reply<J>): (e: ErrorBody<J>)
    ensures e.JsonBody? <==> r.json.Some?
  {
    if r.json.Some? then JsonBody(r.json.value) else TextBody(r.text)
  }

  /** `/balance/<address>`: `nonce` and `balance`, both defaulting to 0. */
  datatype AccountJson = AccountJson(nonce: int, balance: real)

  /** One entry of `staged_transactions`; `sender` is its `from` field, if any. */
  datatype StagedTx = StagedTx(sender: Option<string>, nonce: int)

  /** `/staging`: the `staged_transactions` list, empty when absent. */
  datatype StagingJson = StagingJson(staged: seq<StagedTx>)

  /** One entry of `recent_transactions`: its hash and `epoch` (default 0). */
  datatype TxRef = TxRef(hash: string, epoch: int)

  /** `/address/<address>`: `recent_transactions` when the key is present. */
  datatype AddressJson = AddressJson(recent: Option<seq<TxRef>>)

  /** `parsed_tx` of `/tx/<hash>`; `amount` is the converted amount, `timestamp` defaults to 0. */
  datatype ParsedTx = ParsedTx(to: Option<string>, sender: Option<string>, amount: real, nonce: int, timestamp: real)

  /** `/tx/<hash>`: `parsed_tx` when the key is present. */
  datatype TxJson = TxJson(parsed: Option<ParsedTx>)

  /** `/send-tx`: the `status` and `tx_hash` fields when present. */
  datatype SendJson = SendJson(status: Option<string>, txHash: Option<string>)
}
