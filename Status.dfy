/**
 * The balance and nonce cache of OctraWallet.get_status (tools/octratx.py:164-214) as a value:
 * when a call is answered from the cache, and how replies change the cache otherwise.
 */
module Status {
  import opened Wrappers
  import opened Numbers
  import opened Text
  import opened Replies

  datatype StatusCache = StatusCache(balance: Option<real>, nonce: Option<int>, lastUpdate: real)

  /** Seconds a cached balance stays fresh. */
  const STATUS_TTL: real := 30.0

  /** The cache answers when the call is not forced, a balance is cached and it is fresh. */
  predicate StatusCacheHit(c: StatusCache, force: bool, now: real) {
    !force && c.balance.Some? && now - c.lastUpdate < STATUS_TTL
  }

  /** Balance and nonce are cached together or not at all. */
  predicate Consistent(c: StatusCache) {
    c.balance.None? <==> c.nonce.None?
  }

  /** `[tx for tx in staged if tx.get('from') == self.address]` */
  function OwnStaged(staged: seq<StagedTx>, address: Option<string>): (own: seq<StagedTx>)
    ensures forall t :: t in own <==> t in staged && t.sender == address
    ensures |own| <= |staged|
  {
    if staged == [] then []
    else (if staged[0].sender == address then [staged[0]] else []) + OwnStaged(staged[1..], address)
  }

  /** `max(int(tx.get('nonce', 0)) for tx in txs)` */
  function MaxNonce(txs: seq<StagedTx>): (m: int)
    requires txs != []
    ensures forall t :: t in txs ==> t.nonce <= m
    ensures exists t :: t in txs && t.nonce == m
  {
    if |txs| == 1 then txs[0].nonce
    else
      var rest := MaxNonce(txs[1..]);
      assert forall t :: t in txs[1..] ==> t in txs;
      if txs[0].nonce >= rest then txs[0].nonce else rest
  }

  /** The nonce after raising the fetched one to the wallet's own staged nonces
    * (tools/octratx.py:193-197). */
  function AdjustedNonce(fetched: int, staging: Reply<StagingJson>, address: Option<string>): int {
    if staging.status == 200 && staging.json.Some? && OwnStaged(staging.json.value.staged, address) != [] then
      var highest := MaxNonce(OwnStaged(staging.json.value.staged, address));
      if fetched >= highest then fetched else highest
    else fetched
  }

  /** The adjusted nonce is the largest of the fetched nonce and the wallet's own staged nonces
    * when the staging reply is usable, and the fetched nonce otherwise. */
  lemma AdjustedNonceIsMax(fetched: int, staging: Reply<StagingJson>, address: Option<string>)
    ensures var n := AdjustedNonce(fetched, staging, address);
      && n >= fetched
      && (staging.status == 200 && staging.json.Some? ==>
            forall t :: t in staging.json.value.staged && t.sender == address ==> t.nonce <= n)
      && (n == fetched || exists t :: t in staging.json.value.staged && t.sender == address && t.nonce == n)
      && (staging.status != 200 || staging.json.None? ==> n == fetched)
  {
  }

  // Plain-text replies: "<balance> <nonce> ...".

  /** What the plain-text branch makes of the balance token: 0.0 unless it passes the digit
    * check, None when `float` raises on it (more than one dot). */
  function BalanceToken(w: string): (b: Option<real>)
    ensures b.None? <==> RemoveDots(w) != [] && AllDigits(RemoveDots(w)) && CountDots(w) > 1
    ensures !(RemoveDots(w) != [] && AllDigits(RemoveDots(w))) ==> b == Some(0.0)
  {
    var digits := RemoveDots(w);
    if digits != [] && AllDigits(digits) then
      if CountDots(w) <= 1 then Some(DecimalReal(w)) else None
    else Some(0.0)
  }

  /** `int(w) if w.isdigit() else 0` */
  function NonceToken(w: string): (n: nat)
    ensures !(w != [] && AllDigits(w)) ==> n == 0
  {
    if w != [] && AllDigits(w) then DecimalValue(w) else 0
  }

  datatype PlainStatus = PlainStatus(balance: real, nonce: int)

  /** tools/octratx.py:201-212: None when there are fewer than two tokens or float() raised. */
  function ParsePlainStatus(text: string): (r: Option<PlainStatus>)
    ensures |Words(text)| < 2 ==> r.None?
  {
    var parts := Words(text);
    if |parts| >= 2 then
      match BalanceToken(parts[0])
      case None => None
      case Some(b) => Some(PlainStatus(b, NonceToken(parts[1])))
    else None
  }

  /** A reply that prints the balance and the nonce in decimal is read back exactly. */
  lemma PlainStatusRoundTrip(balance: nat, nonce: nat)
    ensures ParsePlainStatus(DecimalString(balance) + " " + DecimalString(nonce)) ==
      Some(PlainStatus(balance as real, nonce))
  {
    var b, n := DecimalString(balance), DecimalString(nonce);
    TwoWords(b, n);
    AllDigitsNoDots(b);
    NoDotsDigits(b);
    DecimalRoundTrip(balance);
    DecimalRoundTrip(nonce);
  }

  /** The cache after get_status sent its two requests (tools/octratx.py:178-212). */
  function StatusRefresh(c: StatusCache, address: Option<string>, now: real,
                         balance: Reply<AccountJson>, staging: Reply<StagingJson>): StatusCache
  {
    if balance.status == 200 && balance.json.Some? then
      var j := balance.json.value;
      StatusCache(Some(j.balance), Some(AdjustedNonce(j.nonce, staging, address)), now)
    else if balance.status == 404 then
      StatusCache(Some(0.0), Some(0), now)
    else if balance.status == 200 && balance.text != [] then
      match ParsePlainStatus(balance.text)
      case None => c.(balance := None, nonce := None)
      case Some(v) => StatusCache(Some(v.balance), Some(v.nonce), now)
    else c
  }

  /** What one get_status call does to the cache. */
  function StatusStep(c: StatusCache, address: Option<string>, force: bool, now: real,
                      balance: Reply<AccountJson>, staging: Reply<StagingJson>): StatusCache
  {
    if StatusCacheHit(c, force, now) then c else StatusRefresh(c, address, now, balance, staging)
  }

  /** Every refresh keeps balance and nonce cached together, and only a refresh that stores
    * values moves the timestamp (to `now`). */
  lemma StatusRefreshConsistent(c: StatusCache, address: Option<string>, now: real,
                                balance: Reply<AccountJson>, staging: Reply<StagingJson>)
    requires Consistent(c)
    ensures var d := StatusRefresh(c, address, now, balance, staging);
      && Consistent(d)
      && (d.lastUpdate == now || d.lastUpdate == c.lastUpdate)
      && (d.lastUpdate != c.lastUpdate ==> d.balance.Some?)
  {
  }

  /** The reply cases of tools/octratx.py:185-212. */
  lemma StatusRefreshCases(c: StatusCache, address: Option<string>, now: real,
                           balance: Reply<AccountJson>, staging: Reply<StagingJson>)
    ensures var d := StatusRefresh(c, address, now, balance, staging);
      && (balance.status == 200 && balance.json.Some? ==>
            && d.balance == Some(balance.json.value.balance) && d.lastUpdate == now
            && d.nonce.Some? && d.nonce.value >= balance.json.value.nonce
            && (staging.status == 200 && staging.json.Some? ==>
                  forall t :: t in staging.json.value.staged && t.sender == address ==> t.nonce <= d.nonce.value))
      && (balance.status == 404 ==> d == StatusCache(Some(0.0), Some(0), now))
      && (balance.status == 200 && balance.json.None? && balance.text != [] && |Words(balance.text)| < 2 ==>
            d == StatusCache(None, None, c.lastUpdate))
      && (balance.status != 200 && balance.status != 404 ==> d == c)
  {
    if balance.status == 200 && balance.json.Some? {
      AdjustedNonceIsMax(balance.json.value.nonce, staging, address);
    }
  }

  /** A plain-text reply with a malformed balance or nonce token stores 0, not None. */
  lemma PlainTextMalformedIsZero(c: StatusCache, address: Option<string>, now: real,
                                 balance: Reply<AccountJson>, staging: Reply<StagingJson>)
    requires balance.status == 200 && balance.json.None? && |Words(balance.text)| >= 2
    ensures var parts := Words(balance.text);
      var d := StatusRefresh(c, address, now, balance, staging);
      && (!(RemoveDots(parts[0]) != [] && AllDigits(RemoveDots(parts[0]))) ==>
            d.balance == Some(0.0) && d.lastUpdate == now)
      && (!(parts[1] != [] && AllDigits(parts[1])) && BalanceToken(parts[0]).Some? ==>
            d.nonce == Some(0) && d.lastUpdate == now)
  {
  }
}
