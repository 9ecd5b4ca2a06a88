/**
 * The transaction history of OctraWallet.get_history (tools/octratx.py:216-285) as a value:
 * when the cached list answers, how fetched transactions are turned into entries, and how they
 * are merged with the recent part of the old list, newest first, at most 50 of them.
 */
module History {
  import opened Wrappers
  import opened Text
  import opened Replies

  datatype Direction = Incoming | Outgoing

  /** One history entry. Entries added by a send have no nonce and no epoch. */
  datatype HistoryEntry = HistoryEntry(time: real, hash: string, amount: real, counterparty: Option<string>,
                                       direction: Direction, confirmed: bool, nonce: Option<int>, epoch: Option<int>)

  /** The entry a successful send appends (tools/octratx.py:380-388, 451-459): outgoing, not yet
    * confirmed, with no nonce and no epoch. */
  function SentEntry(now: real, hash: string, amount: real, to: string): (e: HistoryEntry)
    ensures e.direction == Outgoing && !e.confirmed && e.hash == hash && e.counterparty == Some(to)
  {
    HistoryEntry(now, hash, amount, Some(to), Outgoing, false, None, None)
  }

  /** Seconds a non-empty cached history stays fetched. */
  const HISTORY_TTL: real := 60.0
  /** Old entries are kept when they are younger than an hour. */
  const HISTORY_WINDOW: real := 3600.0
  const HISTORY_LIMIT: nat := 50

  predicate HistoryCacheHit(history: seq<HistoryEntry>, lastHistoryUpdate: real, force: bool, now: real) {
    !force && now - lastHistoryUpdate < HISTORY_TTL && history != []
  }

  function Hashes(history: seq<HistoryEntry>): (hs: set<string>)
    ensures forall h :: h in hs <==> exists e :: e in history && e.hash == h
  {
    if history == [] then {} else {history[0].hash} + Hashes(history[1..])
  }

  /** Whether the reply for one referenced transaction yields an entry (tools/octratx.py:250). */
  predicate Usable(r: Reply<TxJson>) {
    r.status == 200 && r.json.Some? && r.json.value.parsed.Some?
  }

  /** The entry made from a fetched transaction (tools/octratx.py:257-270). */
  function EntryOf(ref: TxRef, parsed: ParsedTx, address: Option<string>): (e: HistoryEntry)
    ensures e.hash == ref.hash && e.confirmed && e.time == parsed.timestamp
    ensures e.direction == Incoming <==> parsed.to == address
  {
    var incoming := parsed.to == address;
    HistoryEntry(parsed.timestamp, ref.hash, parsed.amount,
                 if incoming then parsed.sender else parsed.to,
                 if incoming then Incoming else Outgoing,
                 true, Some(parsed.nonce), Some(ref.epoch))
  }

  /** The entries the loop at tools/octratx.py:245-270 collects for the first |refs| references;
    * `replies(k)` answers the k-th reference. */
  function NewEntries(refs: seq<TxRef>, replies: nat -> Reply<TxJson>, existing: set<string>,
                      address: Option<string>): (fetched: seq<HistoryEntry>)
    ensures |fetched| <= |refs|
    ensures forall e :: e in fetched ==> e.hash !in existing && e.confirmed
    ensures forall e :: e in fetched ==> exists k :: 0 <= k < |refs| && refs[k].hash == e.hash
  {
    if refs == [] then []
    else
      var k := |refs| - 1;
      var prefix := NewEntries(refs[..k], replies, existing, address);
      assert forall e :: e in prefix ==> exists j :: 0 <= j < k && refs[..k][j].hash == e.hash;
      if Usable(replies(k)) && refs[k].hash !in existing then
        prefix + [EntryOf(refs[k], replies(k).json.value.parsed.value, address)]
      else prefix
  }

  /** `[tx for tx in history if tx['time'] > cutoff]` */
  function Recent(history: seq<HistoryEntry>, cutoff: real): (r: seq<HistoryEntry>)
    ensures forall e :: e in r <==> e in history && e.time > cutoff
    ensures multiset(r) <= multiset(history)
  {
    if history == [] then []
    else
      var rest := Recent(history[1..], cutoff);
      assert history == [history[0]] + history[1..];
      if history[0].time > cutoff then [history[0]] + rest else rest
  }

  predicate SortedDesc(s: seq<HistoryEntry>) {
    forall i, j :: 0 <= i < j < |s| ==> s[i].time >= s[j].time
  }

  /** Inserting into a newest-first list, before the first entry that is not newer. */
  function Insert(e: HistoryEntry, s: seq<HistoryEntry>): (r: seq<HistoryEntry>)
    requires SortedDesc(s)
    ensures SortedDesc(r) && multiset(r) == multiset(s) + multiset{e}
    ensures forall x :: x in r ==> x == e || x in s
  {
    if s == [] || s[0].time <= e.time then [e] + s
    else
      var rest := Insert(e, s[1..]);
      assert s == [s[0]] + s[1..];
      NotNewerThanHead(e, s, rest);
      [s[0]] + rest
  }

  lemma NotNewerThanHead(e: HistoryEntry, s: seq<HistoryEntry>, rest: seq<HistoryEntry>)
    requires s != [] && SortedDesc(s) && SortedDesc(rest) && e.time < s[0].time
    requires forall x :: x in rest ==> x == e || x in s[1..]
    ensures SortedDesc([s[0]] + rest)
  {
    forall x | x in rest ensures x.time <= s[0].time {
      if x != e {
        var j :| 0 <= j < |s[1..]| && s[1..][j] == x;
        assert s[j + 1] == x;
      }
    }
    var r := [s[0]] + rest;
    forall i, j | 0 <= i < j < |r| ensures r[i].time >= r[j].time {
      if i == 0 {
        assert r[j] == rest[j - 1];
        assert r[j] in rest;
      } else {
        assert r[i] == rest[i - 1] && r[j] == rest[j - 1];
      }
    }
  }

  /** `sorted(entries, key=time, reverse=True)` */
  function SortDesc(s: seq<HistoryEntry>): (r: seq<HistoryEntry>)
    ensures SortedDesc(r) && multiset(r) == multiset(s)
  {
    if s == [] then []
    else
      assert s == [s[0]] + s[1..];
      Insert(s[0], SortDesc(s[1..]))
  }

  /** The list kept after a successful fetch (tools/octratx.py:273-277). */
  function MergeHistory(fetched: seq<HistoryEntry>, history: seq<HistoryEntry>, now: real): seq<HistoryEntry> {
    var all := SortDesc(fetched + Recent(history, now - HISTORY_WINDOW));
    if |all| <= HISTORY_LIMIT then all else all[..HISTORY_LIMIT]
  }

  /** A prefix of a newest-first list is newest first and takes nothing that is not there. */
  lemma PrefixShape(s: seq<HistoryEntry>, n: nat)
    requires SortedDesc(s) && n <= |s|
    ensures SortedDesc(s[..n]) && multiset(s[..n]) <= multiset(s)
  {
    assert s == s[..n] + s[n..];
  }

  /** What a sub-multiset of a + b holds comes from a or from b. */
  lemma SubMultisetMembers(m: seq<HistoryEntry>, a: seq<HistoryEntry>, b: seq<HistoryEntry>)
    requires multiset(m) <= multiset(a) + multiset(b)
    ensures forall e :: e in m ==> e in a || e in b
  {
    forall e | e in m ensures e in a || e in b {
      assert e in multiset(m);
    }
  }

  /** The merged list has at most 50 entries, newest first, each of them a fetched entry or an
    * old one younger than an hour, and not one of them more often than there. */
  lemma MergeHistoryShape(fetched: seq<HistoryEntry>, history: seq<HistoryEntry>, now: real)
    ensures var m := MergeHistory(fetched, history, now);
      && |m| <= HISTORY_LIMIT
      && SortedDesc(m)
      && multiset(m) <= multiset(fetched) + multiset(Recent(history, now - HISTORY_WINDOW))
      && (forall e :: e in m ==> e in fetched || (e in history && e.time > now - HISTORY_WINDOW))
  {
    var recent := Recent(history, now - HISTORY_WINDOW);
    var all := SortDesc(fetched + recent);
    var m := MergeHistory(fetched, history, now);
    var n := if |all| <= HISTORY_LIMIT then |all| else HISTORY_LIMIT;
    assert all[..|all|] == all;
    assert m == all[..n];
    PrefixShape(all, n);
    assert multiset(all) == multiset(fetched) + multiset(recent);
    SubMultisetMembers(m, fetched, recent);
  }

  /** When nothing is cut, the merge keeps every fetched entry and every recent old one. */
  lemma MergeKeepsAll(fetched: seq<HistoryEntry>, history: seq<HistoryEntry>, now: real)
    requires |fetched| + |Recent(history, now - HISTORY_WINDOW)| <= HISTORY_LIMIT
    ensures multiset(MergeHistory(fetched, history, now)) == multiset(fetched) + multiset(Recent(history, now - HISTORY_WINDOW))
  {
    var all := SortDesc(fetched + Recent(history, now - HISTORY_WINDOW));
    assert |all| == |multiset(all)| == |fetched + Recent(history, now - HISTORY_WINDOW)|;
  }

  /** The history and its timestamp after the request of a non-cached get_history call
    * (tools/octratx.py:231-283). */
  function HistoryRefresh(history: seq<HistoryEntry>, lastHistoryUpdate: real, address: Option<string>, now: real,
                          addressReply: Reply<AddressJson>, replies: nat -> Reply<TxJson>)
    : (seq<HistoryEntry>, real)
  {
    if addressReply.status != 200 || (addressReply.json.None? && addressReply.text == []) then
      (history, lastHistoryUpdate)
    else if addressReply.json.Some? && addressReply.json.value.recent.Some? then
      var fetched := NewEntries(addressReply.json.value.recent.value, replies, Hashes(history), address);
      (MergeHistory(fetched, history, now), now)
    else if addressReply.status == 404
         || (addressReply.status == 200 && addressReply.text != []
             && Contains(Lower(addressReply.text), "no transactions")) then
      ([], now)
    else (history, lastHistoryUpdate)
  }

  /** What one get_history call does. */
  function HistoryStep(history: seq<HistoryEntry>, lastHistoryUpdate: real, address: Option<string>, force: bool,
                       now: real, addressReply: Reply<AddressJson>, replies: nat -> Reply<TxJson>)
    : (seq<HistoryEntry>, real)
  {
    if HistoryCacheHit(history, lastHistoryUpdate, force, now) then (history, lastHistoryUpdate)
    else HistoryRefresh(history, lastHistoryUpdate, address, now, addressReply, replies)
  }

  /** The effects of one refresh: a failed or empty reply changes nothing, a merge bounds and
    * orders the list and adds no entry whose hash was already there, and a reply without
    * `recent_transactions` empties it when its text says "no transactions" and otherwise changes
    * nothing. */
  lemma HistoryRefreshEffects(history: seq<HistoryEntry>, lastHistoryUpdate: real, address: Option<string>,
                              now: real, addressReply: Reply<AddressJson>, replies: nat -> Reply<TxJson>)
    ensures var (h, t) := HistoryRefresh(history, lastHistoryUpdate, address, now, addressReply, replies);
      && (addressReply.status != 200 || (addressReply.json.None? && addressReply.text == []) ==>
            h == history && t == lastHistoryUpdate)
      && (addressReply.status == 200 && addressReply.json.Some? && addressReply.json.value.recent.Some? ==>
            && t == now && |h| <= HISTORY_LIMIT && SortedDesc(h)
            && forall e :: e in h ==> (e.hash !in Hashes(history) && e.confirmed) || e in history)
      && ((addressReply.status == 200 && (addressReply.json.None? || addressReply.json.value.recent.None?)
           && addressReply.text != [] && Contains(Lower(addressReply.text), "no transactions")) ==> h == [] && t == now)
      && ((addressReply.status == 200 && (addressReply.json.None? || addressReply.json.value.recent.None?)
           && !(addressReply.text != [] && Contains(Lower(addressReply.text), "no transactions"))) ==>
            h == history && t == lastHistoryUpdate)
  {
    if addressReply.status == 200 && addressReply.json.Some? && addressReply.json.value.recent.Some? {
      var fetched := NewEntries(addressReply.json.value.recent.value, replies, Hashes(history), address);
      MergeHistoryShape(fetched, history, now);
    }
  }

  /** The `status == 404` arm is dead: a 404 has already returned the history unchanged. */
  lemma NotFoundArmUnreachable(history: seq<HistoryEntry>, lastHistoryUpdate: real, address: Option<string>,
                               now: real, addressReply: Reply<AddressJson>, replies: nat -> Reply<TxJson>)
    requires addressReply.status == 404
    ensures HistoryRefresh(history, lastHistoryUpdate, address, now, addressReply, replies) == (history, lastHistoryUpdate)
  {
  }
}
