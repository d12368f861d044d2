/** The list of broadcast transactions that wait for Bitcoin confirmations: MonitorConfirmedTx,
    MonitorBlocksForConfirmation and BlockSyncMonitor of anchor/bitcoin/bitcoinanchor.go. */
module Confirmations {
  import opened Merkle
  import opened ProofOps
  import opened ChainTypes
  import opened KeyValue
  import opened BitcoinBlock

  type Entries = seq<Stored<TxID>>

  /** The blocks LND can deliver, by height. */
  type Chain = nat -> Option<BlockDetails>

  // ---- the scan of new blocks ----------------------------------------------

  predicate IsWaiting(e: Stored<TxID>)
  {
    e.Text? && e.value.blockHeight == 0
  }

  /** The entries not yet seen in a block, in list order. */
  function Waiting(list: Entries): seq<TxID>
  {
    if list == [] then []
    else Waiting(list[..|list| - 1]) + if IsWaiting(list[|list| - 1]) then [list[|list| - 1].value] else []
  }

  function TxIds(txs: seq<TxID>): (ids: seq<string>)
    ensures |ids| == |txs|
  {
    seq(|txs|, i requires 0 <= i < |txs| => txs[i].txId)
  }

  /** The first position of a string, or -1. */
  function FirstIndex(arr: seq<string>, item: string): (i: int)
    ensures -1 <= i < |arr|
    ensures i >= 0 ==> arr[i] == item && item !in arr[..i]
    ensures i < 0 <==> item !in arr
  {
    if arr == [] then -1
    else if arr[0] == item then 0
    else
      var i := FirstIndex(arr[1..], item);
      assert i >= 0 ==> arr[..i + 1] == [arr[0]] + arr[1..][..i];
      if i < 0 then -1 else i + 1
  }

  lemma {:induction false} FirstIndexIs(arr: seq<string>, item: string, i: nat)
    requires i < |arr| && arr[i] == item && item !in arr[..i]
    ensures FirstIndex(arr, item) == i
  {
    if i > 0 {
      assert arr[0] == arr[..i][0];
      assert arr[1..][..i - 1] == arr[..i][1..];
      FirstIndexIs(arr[1..], item, i - 1);
    }
  }

  method ArrayContainsIndex(arr: seq<string>, item: string) returns (contains: bool, index: int)
    ensures index == FirstIndex(arr, item) && contains == (index >= 0)
  {
    for i := 0 to |arr|
      invariant item !in arr[..i]
    {
      if arr[i] == item {
        FirstIndexIs(arr, item, i);
        return true, i;
      }
    }
    assert arr[..|arr|] == arr;
    return false, -1;
  }

  /** A transaction met in a block at a height. */
  datatype Sighting = Sighting(txId: string, height: nat)

  /** What a sighting does to the list: the entry of the first waiting transaction of that ID
      is taken out and written back, at the end, with the height. */
  function Marked(list: Entries, waiting: seq<TxID>, seen: Sighting): Entries
  {
    var k := FirstIndex(TxIds(waiting), seen.txId);
    if k < 0 then list
    else DelFirst(list, Text(waiting[k])) + [Text(waiting[k].(blockHeight := seen.height))]
  }

  function MarkedAll(list: Entries, waiting: seq<TxID>, seen: seq<Sighting>): Entries
  {
    if seen == [] then list
    else Marked(MarkedAll(list, waiting, seen[..|seen| - 1]), waiting, seen[|seen| - 1])
  }

  function SightingsIn(txs: seq<string>, height: nat): seq<Sighting>
  {
    seq(|txs|, i requires 0 <= i < |txs| => Sighting(txs[i], height))
  }

  function SightingsAt(chain: Chain, height: nat): seq<Sighting>
  {
    if chain(height).None? then [] else SightingsIn(chain(height).value.transactions, height)
  }

  /** The first height from start on that LND does not deliver, or the one after the end. */
  function Reach(chain: Chain, start: nat, end: nat): (stop: nat)
    ensures stop >= start && (stop <= end ==> chain(stop).None?) && (stop > end ==> stop == start || stop == end + 1)
    ensures forall h :: start <= h < stop ==> chain(h).Some?
    decreases end + 1 - start
  {
    if start > end || chain(start).None? then start else Reach(chain, start + 1, end)
  }

  /** All transactions of the delivered blocks start .. stop - 1, in order. */
  function Sightings(chain: Chain, start: nat, stop: nat): seq<Sighting>
    decreases stop
  {
    if stop <= start then []
    else Sightings(chain, start, stop - 1) + SightingsAt(chain, stop - 1)
  }

  function Scanned(list: Entries, chain: Chain, start: nat, end: nat): Entries
  {
    MarkedAll(list, Waiting(list), Sightings(chain, start, Reach(chain, start, end)))
  }

  // ---- confirmation --------------------------------------------------------

  predicate IsRipe(e: Stored<TxID>, btcHeight: nat)
  {
    e.Text? && e.value.blockHeight != 0 && btcHeight - e.value.blockHeight + 1 >= 6
  }

  function Unripe(list: Entries, btcHeight: nat): Entries
  {
    if list == [] then []
    else (if IsRipe(list[0], btcHeight) then [] else [list[0]]) + Unripe(list[1..], btcHeight)
  }

  function Ripe(list: Entries, btcHeight: nat): seq<TxID>
  {
    if list == [] then []
    else Ripe(list[..|list| - 1], btcHeight) + if IsRipe(list[|list| - 1], btcHeight) then [list[|list| - 1].value] else []
  }

  /** A confirmation handed to ConfirmAnchor: the entry, and the message made for it. */
  datatype Confirmation = Confirmation(tx: TxID, msg: Option<BtcMonMsg>)

  function BlockAt(chain: Chain, height: int): Option<BlockDetails>
  {
    if height < 0 then None else chain(height)
  }

  function Confirming(h: Hash, chain: Chain, tx: TxID): Confirmation
  {
    Confirmation(tx, HeaderProof(h, BlockAt(chain, tx.blockHeight), tx))
  }

  function Confirmations(h: Hash, chain: Chain, txs: seq<TxID>): seq<Confirmation>
  {
    if txs == [] then [] else Confirmations(h, chain, txs[..|txs| - 1]) + [Confirming(h, chain, txs[|txs| - 1])]
  }

  // ---- the monitor ---------------------------------------------------------

  /** Whether a sync looks at the blocks up to LND's height at all. */
  predicate Looks(btcHeight: nat, lndHeight: nat)
  {
    lndHeight != 0 && lndHeight - btcHeight < 36
  }

  /** One sync: the list and the height afterwards. */
  function Synced(list: Entries, btcHeight: nat, chain: Chain, lndHeight: nat): (Entries, nat)
  {
    if btcHeight == lndHeight then (list, btcHeight)
    else if !Looks(btcHeight, lndHeight) then (list, lndHeight)
    else
      (Scanned(list, chain, btcHeight, lndHeight),
       if Reach(chain, btcHeight, lndHeight) > lndHeight then lndHeight else btcHeight)
  }

  /** The other lists of the store are as they were. */
  ghost predicate OthersKept(key: string, lists: map<string, Entries>, before: map<string, Entries>)
  {
    forall k :: k != key ==> At(lists, k) == At(before, k)
  }

  class ConfirmationMonitor {
    const h: Hash
    const cache: KVStore<Stored<TxID>>
    const key: string
    var btcHeight: nat

    constructor (h: Hash, cache: KVStore<Stored<TxID>>)
      ensures this.h == h && this.cache == cache && key == "BTC_Mon:ConfirmedBTCTxIds" && btcHeight == 0
    {
      this.h, this.cache, key, btcHeight := h, cache, "BTC_Mon:ConfirmedBTCTxIds", 0;
    }

    function Listed(): Entries
      reads cache
    {
      At(cache.lists, key)
    }

    method MonitorBlocksForConfirmation(chain: Chain, startHeight: nat, endHeight: nat) returns (ok: bool)
      modifies cache
      ensures Listed() == Scanned(old(Listed()), chain, startHeight, endHeight)
      ensures ok <==> Reach(chain, startHeight, endHeight) > endHeight
      ensures OthersKept(key, cache.lists, old(cache.lists))
    {
      var results := cache.GetArray(key);
      var confirmationTxs, txsIdStrings := CollectWaiting(results);
      var i := startHeight;
      while i < endHeight + 1
        invariant startHeight <= i
        invariant Reach(chain, startHeight, endHeight) == Reach(chain, i, endHeight)
        invariant Listed() == MarkedAll(results, confirmationTxs, Sightings(chain, startHeight, i))
        invariant OthersKept(key, cache.lists, old(cache.lists))
      {
        var block := chain(i);
        if block.None? {
          return false;
        }
        ScanTransactions(results, confirmationTxs, txsIdStrings, Sightings(chain, startHeight, i), block.value.transactions, i);
        i := i + 1;
      }
      ok := true;
    }

    /** The loop over one block's transactions, `before` being the sightings already dealt with. */
    method ScanTransactions(ghost results: Entries, confirmationTxs: seq<TxID>, txsIdStrings: seq<string>,
                            ghost before: seq<Sighting>, transactions: seq<string>, height: nat)
      requires txsIdStrings == TxIds(confirmationTxs)
      requires Listed() == MarkedAll(results, confirmationTxs, before)
      modifies cache
      ensures Listed() == MarkedAll(results, confirmationTxs, before + SightingsIn(transactions, height))
      ensures OthersKept(key, cache.lists, old(cache.lists))
    {
      assert before + SightingsIn(transactions[..0], height) == before;
      for j := 0 to |transactions|
        invariant Listed() == MarkedAll(results, confirmationTxs, before + SightingsIn(transactions[..j], height))
        invariant OthersKept(key, cache.lists, old(cache.lists))
      {
        MarkedStep(results, confirmationTxs, before, transactions, height, j);
        var contains, index := ArrayContainsIndex(txsIdStrings, transactions[j]);
        if contains {
          WriteBack(confirmationTxs[index], height);
        }
      }
      assert transactions[..|transactions|] == transactions;
    }

    /** Takes an entry out and writes it back with a height. */
    method WriteBack(tx: TxID, height: nat)
      modifies cache
      ensures Listed() == DelFirst(old(Listed()), Text(tx)) + [Text(tx.(blockHeight := height))]
      ensures OthersKept(key, cache.lists, old(cache.lists))
    {
      cache.Del(key, Some(Text(tx)));
      cache.Append(key, Text(tx.(blockHeight := height)));
    }

    method CollectWaiting(results: Entries) returns (confirmationTxs: seq<TxID>, txsIdStrings: seq<string>)
      ensures confirmationTxs == Waiting(results) && txsIdStrings == TxIds(confirmationTxs)
    {
      confirmationTxs, txsIdStrings := [], [];
      for i := 0 to |results|
        invariant confirmationTxs == Waiting(results[..i]) && txsIdStrings == TxIds(confirmationTxs)
      {
        assert results[..i + 1][..i] == results[..i];
        if results[i].Unparsable? || results[i].value.blockHeight != 0 {
          continue;
        }
        confirmationTxs := confirmationTxs + [results[i].value];
        txsIdStrings := txsIdStrings + [results[i].value.txId];
      }
      assert results[..|results|] == results;
    }

    /** lndHeight is None when LND does not answer. */
    method BlockSyncMonitor(chain: Chain, lndHeight: Option<nat>)
      modifies this`btcHeight, cache
      ensures (Listed(), btcHeight) == if lndHeight.None? then (old(Listed()), old(btcHeight))
                                       else Synced(old(Listed()), old(btcHeight), chain, lndHeight.value)
    {
      if lndHeight.None? {
        return;
      }
      if btcHeight != lndHeight.value {
        var isSynced := lndHeight.value - btcHeight < 36;
        if lndHeight.value != 0 && isSynced {
          var ok := MonitorBlocksForConfirmation(chain, btcHeight, lndHeight.value);
          if !ok {
            return;
          }
        }
        btcHeight := lndHeight.value;
      }
    }

    /** Takes every ripe entry off the list, and returns what is handed on, in order. */
    method MonitorConfirmedTx(chain: Chain) returns (confirmed: seq<Confirmation>)
      modifies cache
      ensures Listed() == Unripe(old(Listed()), btcHeight)
      ensures confirmed == Confirmations(h, chain, Ripe(old(Listed()), btcHeight))
    {
      var results := cache.GetArray(key);
      confirmed := [];
      for i := 0 to |results|
        invariant Unripe(Listed(), btcHeight) == Unripe(results, btcHeight)
        invariant RipeWithin(Listed(), results[i..], btcHeight)
        invariant confirmed == Confirmations(h, chain, Ripe(results[..i], btcHeight))
      {
        ConfirmationsStep(h, chain, results, i, btcHeight);
        assert results[i..] == [results[i]] + results[i + 1..];
        var more := ConfirmEntry(chain, results[i], results[i + 1..]);
        confirmed := confirmed + more;
      }
      assert results[..|results|] == results;
      NoRipeLeft(Listed(), btcHeight);
    }

    /** The body of that loop, `rest` being the entries still to come. */
    method ConfirmEntry(chain: Chain, s: Stored<TxID>, ghost rest: Entries) returns (confirmed: seq<Confirmation>)
      requires RipeWithin(Listed(), [s] + rest, btcHeight)
      modifies cache
      ensures Unripe(Listed(), btcHeight) == Unripe(old(Listed()), btcHeight)
      ensures RipeWithin(Listed(), rest, btcHeight)
      ensures confirmed == if IsRipe(s, btcHeight) then [Confirming(h, chain, s.value)] else []
    {
      PassedWithin(Listed(), s, rest, btcHeight);
      if s.Unparsable? || s.value.blockHeight == 0 {
        return [];
      }
      var confirmCount := btcHeight - s.value.blockHeight + 1;
      if confirmCount < 6 {
        return [];
      }
      var confirmation, notFound := MakeConfirmation(chain, s.value);
      confirmed := [confirmation];
      if notFound {
        DelRipe(Listed(), s, btcHeight);
        cache.Del(key, Some(s));
        DelRipe(Listed(), s, btcHeight);
      }
      DelRipe(Listed(), s, btcHeight);
      cache.Del(key, Some(s));
    }

    /** The message for a ripe entry, and whether its block turned out not to hold it. */
    method MakeConfirmation(chain: Chain, tx: TxID) returns (confirmation: Confirmation, notFound: bool)
      ensures confirmation == Confirming(h, chain, tx)
      ensures notFound <==> BlockTreeOf(h, BlockAt(chain, tx.blockHeight), tx.txId).NotInBlock?
    {
      var block := BlockAt(chain, tx.blockHeight);
      var tree := GetBlockTree(h, block, tx);
      var btcmsg := GenerateBtcHeaderProof(h, block, tx);
      confirmation, notFound := Confirmation(tx, btcmsg), tree.NotInBlock?;
    }
  }

  lemma MarkedStep(results: Entries, waiting: seq<TxID>, before: seq<Sighting>, txs: seq<string>, height: nat, j: nat)
    requires j < |txs|
    ensures MarkedAll(results, waiting, before + SightingsIn(txs[..j + 1], height))
            == Marked(MarkedAll(results, waiting, before + SightingsIn(txs[..j], height)), waiting, Sighting(txs[j], height))
  {
    var seen := before + SightingsIn(txs[..j + 1], height);
    assert seen[..|seen| - 1] == before + SightingsIn(txs[..j], height);
  }

  lemma ConfirmationsStep(h: Hash, chain: Chain, list: Entries, i: nat, btcHeight: nat)
    requires i < |list|
    ensures Confirmations(h, chain, Ripe(list[..i + 1], btcHeight))
            == Confirmations(h, chain, Ripe(list[..i], btcHeight)) + if IsRipe(list[i], btcHeight) then [Confirming(h, chain, list[i].value)] else []
  {
    assert list[..i + 1][..i] == list[..i];
    var ripe := Ripe(list[..i + 1], btcHeight);
    if IsRipe(list[i], btcHeight) {
      assert ripe[..|ripe| - 1] == Ripe(list[..i], btcHeight);
    } else {
      assert ripe == Ripe(list[..i], btcHeight);
    }
  }

  lemma PassedWithin(list: Entries, s: Stored<TxID>, rest: Entries, btcHeight: nat)
    requires RipeWithin(list, [s] + rest, btcHeight)
    ensures !IsRipe(s, btcHeight) ==> RipeWithin(list, rest, btcHeight)
    ensures IsRipe(s, btcHeight) ==> RipeWithin(DelFirst(list, s), rest, btcHeight)
  {
    assert multiset([s] + rest) == multiset{s} + multiset(rest);
    DelFirstMultiset(list, s);
  }

  /** No ripe entry is listed more often than in the given entries. */
  ghost predicate RipeWithin(list: Entries, among: Entries, btcHeight: nat)
  {
    forall e :: IsRipe(e, btcHeight) ==> multiset(list)[e] <= multiset(among)[e]
  }

  lemma {:induction false} UnripeDelFirst(list: Entries, v: Stored<TxID>, btcHeight: nat)
    requires IsRipe(v, btcHeight)
    ensures Unripe(DelFirst(list, v), btcHeight) == Unripe(list, btcHeight)
  {
    if list != [] && list[0] != v {
      UnripeDelFirst(list[1..], v, btcHeight);
    }
  }

  /** Deleting a ripe entry, once more than it needs even, keeps what the loop relies on. */
  lemma DelRipe(list: Entries, v: Stored<TxID>, btcHeight: nat)
    requires IsRipe(v, btcHeight)
    ensures Unripe(DelFirst(list, v), btcHeight) == Unripe(list, btcHeight)
    ensures forall rest :: RipeWithin(list, rest, btcHeight) ==> RipeWithin(DelFirst(list, v), rest, btcHeight)
  {
    UnripeDelFirst(list, v, btcHeight);
    DelFirstMultiset(list, v);
  }

  lemma {:induction false} NoRipeLeft(list: Entries, btcHeight: nat)
    requires forall e :: IsRipe(e, btcHeight) ==> multiset(list)[e] == 0
    ensures Unripe(list, btcHeight) == list
  {
    if list != [] {
      assert list == [list[0]] + list[1..];
      assert list[0] in multiset(list);
      NoRipeLeft(list[1..], btcHeight);
    }
  }
}
