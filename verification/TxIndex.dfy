/** The transaction index (tendermintrpc/rpc.go) over the log of delivered transactions. */
module TxIndex {
  import opened ByteStrings
  import opened ChainTypes
  import opened ChainState

  function FirstIndex(tags: seq<Tag>): Option<int>
  {
    if tags == [] then None else if tags[0].TxInt? then Some(tags[0].index) else FirstIndex(tags[1..])
  }

  /** The TxInt a transaction was given, if it was counted. */
  function Index(e: LogEntry): Option<int>
  {
    FirstIndex(e.tags)
  }

  predicate HasIndex(e: LogEntry, n: int)
  {
    Index(e) == Some(n)
  }

  /** What DeliverTx adds to the log. */
  function Logged(log: seq<LogEntry>, s: AnchorState, hash: Bytes, tx: Tx, synced: bool): seq<LogEntry>
  {
    log + [LogEntry(hash, tx, Delivered(s, tx, synced).tags)]
  }

  /** The indexes given out since `base` are increasing along the log and leave no gap. */
  ghost predicate Indexed(log: seq<LogEntry>, base: int, top: int)
  {
    && base <= top
    && (forall i :: 0 <= i < |log| && Index(log[i]).Some? ==> base < Index(log[i]).value <= top)
    && (forall i, j :: 0 <= i < j < |log| && Index(log[i]).Some? && Index(log[j]).Some? ==> Index(log[i]).value < Index(log[j]).value)
    && (forall n :: base < n <= top ==> Holds(log, n))
  }

  ghost predicate Holds(log: seq<LogEntry>, n: int)
  {
    exists e :: e in log && HasIndex(e, n)
  }

  /** A delivered transaction is given the next index or none. */
  lemma NextIndex(s: AnchorState, tx: Tx, synced: bool)
    ensures var d := Delivered(s, tx, synced);
            || (d.state.txInt == s.txInt && FirstIndex(d.tags).None?)
            || (d.state.txInt == s.txInt + 1 && FirstIndex(d.tags) == Some(s.txInt + 1))
  {
    var n := TxInt(s.txInt + 1);
    match tx
    case BtcC(version, data, mon, _) =>
      if version == 3 && mon.Text? {
        var a, b, c := BtccRoot(mon.value.btcHeadRoot), BtccTx(mon.value.btcTxId), BtccHeight(mon.value.btcHeadHeight);
        assert ([a, b, c] + [n])[1..] == [b, c, n] && [b, c, n][1..] == [c, n] && [c, n][1..] == [n];
        assert [a, b, c] + [n] == [a, b, c, n];
        assert FirstIndex([c, n]) == FirstIndex([n]);
        assert FirstIndex([b, c, n]) == FirstIndex([c, n]);
      } else if version == 2 {
        assert ([BtccRoot(data)] + [n])[1..] == [n];
      }
    case _ =>
  }

  /** Each delivery keeps the indexes unique, increasing along the log and without gaps. */
  lemma DeliverKeepsIndexed(log: seq<LogEntry>, base: int, s: AnchorState, hash: Bytes, tx: Tx, synced: bool)
    requires Indexed(log, base, s.txInt)
    ensures Indexed(Logged(log, s, hash, tx, synced), base, Delivered(s, tx, synced).state.txInt)
  {
    NextIndex(s, tx, synced);
    var after, top := Logged(log, s, hash, tx, synced), Delivered(s, tx, synced).state.txInt;
    forall n | base < n <= top ensures Holds(after, n) {
      if n <= s.txInt {
        assert Holds(log, n);
        var e :| e in log && HasIndex(e, n);
        assert e in after;
      } else {
        assert after[|log|] in after && HasIndex(after[|log|], n);
      }
    }
  }

  // ---- GetCalTxRange -------------------------------------------------------

  predicate InRange(e: LogEntry, min: int, max: int)
  {
    e.tx.Cal? && Index(e).Some? && min <= Index(e).value < max
  }

  /** The CAL transactions of the log with an index in [min, max), in log order. */
  function CalRange(log: seq<LogEntry>, min: int, max: int): seq<LogEntry>
  {
    if log == [] then []
    else
      var front, last := log[..|log| - 1], log[|log| - 1];
      CalRange(front, min, max) + (if InRange(last, min, max) then [last] else [])
  }

  /** TxSearch for CAL.TxInt = n, one result per page. */
  function SearchCal(log: seq<LogEntry>, n: int): seq<LogEntry>
  {
    if log == [] then [] else if log[0].tx.Cal? && HasIndex(log[0], n) then [log[0]] else SearchCal(log[1..], n)
  }

  lemma {:induction false} RangeMembers(log: seq<LogEntry>, min: int, max: int, e: LogEntry)
    ensures e in CalRange(log, min, max) <==> e in log && InRange(e, min, max)
  {
    if log == [] {
    } else {
      RangeMembers(log[..|log| - 1], min, max, e);
      assert log == log[..|log| - 1] + [log[|log| - 1]];
    }
  }

  lemma {:induction false} OutsideRange(log: seq<LogEntry>, min: int, max: int)
    requires forall e :: e in log ==> !InRange(e, min, max)
    ensures CalRange(log, min, max) == []
  {
    if log != [] {
      OutsideRange(log[..|log| - 1], min, max);
    }
  }

  ghost predicate Increasing(log: seq<LogEntry>)
  {
    forall i, j :: 0 <= i < j < |log| && Index(log[i]).Some? && Index(log[j]).Some? ==> Index(log[i]).value < Index(log[j]).value
  }

  /** Adjacent ranges concatenate. */
  lemma {:induction false} RangesConcatenate(log: seq<LogEntry>, a: int, b: int, c: int)
    requires Increasing(log) && a <= b <= c
    ensures CalRange(log, a, b) + CalRange(log, b, c) == CalRange(log, a, c)
  {
    if log == [] {
    } else {
      var front, last := log[..|log| - 1], log[|log| - 1];
      RangesConcatenate(front, a, b, c);
      if InRange(last, a, b) {
        OutsideRange(front, b, c);
      }
    }
  }

  /** A one-index range is what one search finds. */
  lemma {:induction false} SearchIsRange(log: seq<LogEntry>, n: int)
    requires Increasing(log)
    ensures SearchCal(log, n) == CalRange(log, n, n + 1)
  {
    if log == [] {
    } else {
      var first, rest := log[0], log[1..];
      assert log == [first] + rest;
      RangeSplit([first], rest, n, n + 1);
      assert [first][..0] == [];
      assert CalRange([first], n, n + 1) == if InRange(first, n, n + 1) then [first] else [];
      SearchIsRange(rest, n);
      if InRange(first, n, n + 1) {
        OutsideRange(rest, n, n + 1);
      }
    }
  }

  lemma {:induction false} RangeSplit(a: seq<LogEntry>, b: seq<LogEntry>, min: int, max: int)
    ensures CalRange(a + b, min, max) == CalRange(a, min, max) + CalRange(b, min, max)
  {
    if b == [] {
      assert a + b == a;
    } else {
      assert (a + b)[..|a + b| - 1] == a + b[..|b| - 1];
      RangeSplit(a, b[..|b| - 1], min, max);
    }
  }

  /** GetCalTxRange, one search per index, returns exactly the CAL subsequence of the log;
      an empty range is an error. */
  method GetCalTxRange(log: seq<LogEntry>, minTxInt: int, maxTxInt: int) returns (txs: Option<seq<LogEntry>>)
    requires Increasing(log)
    ensures txs == if maxTxInt <= minTxInt then None else Some(CalRange(log, minTxInt, maxTxInt))
  {
    if maxTxInt <= minTxInt {
      return None;
    }
    var found: seq<LogEntry> := [];
    OutsideRange(log, minTxInt, minTxInt);
    for i := minTxInt to maxTxInt
      invariant found == CalRange(log, minTxInt, i)
    {
      SearchIsRange(log, i);
      RangesConcatenate(log, minTxInt, i, i + 1);
      found := found + SearchCal(log, i);
    }
    txs := Some(found);
  }

  /** A range that ends at or below the counter reads the same for ever: what is delivered
      later has a higher index. */
  lemma RangeIsStable(log: seq<LogEntry>, base: int, s: AnchorState, hash: Bytes, tx: Tx, synced: bool, min: int, max: int)
    requires Indexed(log, base, s.txInt) && max <= s.txInt + 1
    ensures CalRange(Logged(log, s, hash, tx, synced), min, max) == CalRange(log, min, max)
  {
    NextIndex(s, tx, synced);
    var after := Logged(log, s, hash, tx, synced);
    assert after[..|after| - 1] == log;
  }

  // ---- GetBtcaForCalTx -----------------------------------------------------

  predicate IsBtca(e: LogEntry)
  {
    e.tx.BtcA? && e.tx.msg.Text? && Index(e).Some?
  }

  /** The messages of the BTC-A transactions with an index above n, in log order. */
  function BtcasAfter(log: seq<LogEntry>, n: int): seq<BtcTxMsg>
  {
    if log == [] then []
    else (if IsBtca(log[0]) && Index(log[0]).value > n then [log[0].tx.msg.value] else []) + BtcasAfter(log[1..], n)
  }

  predicate Covers(m: BtcTxMsg, n: int)
  {
    m.beginCalTxInt <= n < m.endCalTxInt
  }

  const PAGE: nat := 5

  /** The first page of the search. */
  function FirstPage(found: seq<BtcTxMsg>): seq<BtcTxMsg>
  {
    if |found| <= PAGE then found else found[..PAGE]
  }

  /** GetIndexForCalTx: the index of the transaction with a hash. */
  function IndexOfTx(log: seq<LogEntry>, hash: Bytes): Option<int>
  {
    if log == [] then None else if log[0].hash == hash then Index(log[0]) else IndexOfTx(log[1..], hash)
  }

  /** The first message of a page that covers an index. */
  function FindCover(page: seq<BtcTxMsg>, n: int): Option<BtcTxMsg>
  {
    if page == [] then None else if Covers(page[0], n) then Some(page[0]) else FindCover(page[1..], n)
  }

  function BtcaForCalTx(log: seq<LogEntry>, txid: string): Option<BtcTxMsg>
  {
    var hash := HexDecode(txid);
    if !hash.ok || IndexOfTx(log, hash.bytes).None? then None
    else
      var index := IndexOfTx(log, hash.bytes).value;
      FindCover(FirstPage(BtcasAfter(log, index)), index)
  }

  method GetBtcaForCalTx(log: seq<LogEntry>, txid: string) returns (btca: Option<BtcTxMsg>)
    ensures btca == BtcaForCalTx(log, txid)
  {
    var hash := HexDecode(txid);
    if !hash.ok {
      return None;
    }
    var index := IndexOfTx(log, hash.bytes);
    if index.None? {
      return None;
    }
    var page := FirstPage(BtcasAfter(log, index.value));
    for i := 0 to |page|
      invariant FindCover(page, index.value) == FindCover(page[i..], index.value)
    {
      if index.value >= page[i].beginCalTxInt && index.value < page[i].endCalTxInt {
        return Some(page[i]);
      }
    }
    btca := None;
  }

  /** A covering message is found exactly when the page holds one. */
  lemma {:induction false} FoundCovers(page: seq<BtcTxMsg>, n: int)
    ensures FindCover(page, n).Some? <==> exists k :: 0 <= k < |page| && Covers(page[k], n)
    ensures FindCover(page, n).Some? ==> FindCover(page, n).value in page && Covers(FindCover(page, n).value, n)
  {
    if page == [] {
    } else {
      FoundCovers(page[1..], n);
      if exists k :: 0 <= k < |page| && Covers(page[k], n) {
        var k :| 0 <= k < |page| && Covers(page[k], n);
        assert k > 0 ==> page[1..][k - 1] == page[k];
      }
      if exists k :: 0 <= k < |page[1..]| && Covers(page[1..][k], n) {
        var k :| 0 <= k < |page[1..]| && Covers(page[1..][k], n);
        assert Covers(page[k + 1], n);
      }
    }
  }

  /** The search returns messages of BTC-As delivered with a higher index. */
  lemma {:induction false} BtcasAfterMembers(log: seq<LogEntry>, n: int, m: BtcTxMsg)
    ensures m in BtcasAfter(log, n) <==> exists e :: e in log && IsBtca(e) && Index(e).value > n && e.tx.msg.value == m
  {
    if log != [] {
      BtcasAfterMembers(log[1..], n, m);
      assert log == [log[0]] + log[1..];
    }
  }

  /** What the lookup returns is a BTC-A delivered after the transaction, and its range holds
      the transaction's index. */
  lemma LookupFindsLaterCover(log: seq<LogEntry>, txid: string)
    requires BtcaForCalTx(log, txid).Some?
    ensures var m, index := BtcaForCalTx(log, txid).value, IndexOfTx(log, HexDecode(txid).bytes);
            && index.Some? && Covers(m, index.value)
            && exists e :: e in log && IsBtca(e) && Index(e).value > index.value && e.tx.msg.value == m
  {
    var n := IndexOfTx(log, HexDecode(txid).bytes).value;
    var all := BtcasAfter(log, n);
    FoundCovers(FirstPage(all), n);
    BtcasAfterMembers(log, n, BtcaForCalTx(log, txid).value);
  }

  /** The index of a transaction is that of the entry with its hash, if no other has it. */
  lemma {:induction false} IndexOfEntry(log: seq<LogEntry>, e: LogEntry)
    requires e in log && forall d :: d in log && d.hash == e.hash ==> d == e
    ensures IndexOfTx(log, e.hash) == Index(e)
  {
    if log[0].hash != e.hash {
      assert log == [log[0]] + log[1..];
      IndexOfEntry(log[1..], e);
    } else {
      assert log[0] in log;
    }
  }

  lemma {:induction false} BtcasAfterConcat(a: seq<LogEntry>, b: seq<LogEntry>, n: int)
    ensures BtcasAfter(a + b, n) == BtcasAfter(a, n) + BtcasAfter(b, n)
  {
    if a == [] {
      assert a + b == b;
    } else {
      assert (a + b)[1..] == a[1..] + b;
      BtcasAfterConcat(a[1..], b, n);
    }
  }

  lemma {:induction false} FindCoverStays(page: seq<BtcTxMsg>, more: seq<BtcTxMsg>, n: int)
    requires FindCover(page, n).Some?
    ensures FindCover(page + more, n) == FindCover(page, n)
  {
    assert (page + more)[1..] == page[1..] + more;
    if !Covers(page[0], n) {
      FindCoverStays(page[1..], more, n);
    }
  }

  lemma {:induction false} IndexOfTxStays(log: seq<LogEntry>, more: seq<LogEntry>, hash: Bytes)
    requires IndexOfTx(log, hash).Some?
    ensures IndexOfTx(log + more, hash) == IndexOfTx(log, hash)
  {
    assert (log + more)[1..] == log[1..] + more;
    if log[0].hash != hash {
      IndexOfTxStays(log[1..], more, hash);
    }
  }

  /** A BTC-A once found is found for ever. */
  lemma LookupStays(log: seq<LogEntry>, more: seq<LogEntry>, txid: string)
    requires BtcaForCalTx(log, txid).Some?
    ensures BtcaForCalTx(log + more, txid) == BtcaForCalTx(log, txid)
  {
    var n := IndexOfTx(log, HexDecode(txid).bytes).value;
    IndexOfTxStays(log, more, HexDecode(txid).bytes);
    BtcasAfterConcat(log, more, n);
    var page := FirstPage(BtcasAfter(log, n));
    var longer := FirstPage(BtcasAfter(log + more, n));
    assert longer == page + longer[|page|..];
    FindCoverStays(page, longer[|page|..], n);
  }

  /** The ranges announced are equal or disjoint; a range may be announced again. */
  ghost predicate RangesApart(btcas: seq<BtcTxMsg>)
  {
    forall a, b :: a in btcas && b in btcas ==>
      EqualOrDisjoint(Range(a.beginCalTxInt, a.endCalTxInt), Range(b.beginCalTxInt, b.endCalTxInt))
  }

  /** The BTC-As delivered after a transaction. */
  function LaterBtcas(log: seq<LogEntry>, txid: string): seq<BtcTxMsg>
    requires IndexOfTx(log, HexDecode(txid).bytes).Some?
  {
    BtcasAfter(log, IndexOfTx(log, HexDecode(txid).bytes).value)
  }

  /** With ranges equal or disjoint, all later BTC-As that cover a CAL announce one range, and
      the lookup returns the first of them exactly when at most four others come before it. */
  lemma LookupFindsOwnAnchor(log: seq<LogEntry>, txid: string, own: nat)
    requires HexDecode(txid).ok && IndexOfTx(log, HexDecode(txid).bytes).Some? && RangesApart(LaterBtcas(log, txid))
    requires own < |LaterBtcas(log, txid)| && Covers(LaterBtcas(log, txid)[own], IndexOfTx(log, HexDecode(txid).bytes).value)
    requires forall k :: 0 <= k < own ==> !Covers(LaterBtcas(log, txid)[k], IndexOfTx(log, HexDecode(txid).bytes).value)
    ensures var all, n := LaterBtcas(log, txid), IndexOfTx(log, HexDecode(txid).bytes).value;
            forall m :: m in all && Covers(m, n) ==> m.beginCalTxInt == all[own].beginCalTxInt && m.endCalTxInt == all[own].endCalTxInt
    ensures BtcaForCalTx(log, txid) == if own < PAGE then Some(LaterBtcas(log, txid)[own]) else None
  {
    var n, all := IndexOfTx(log, HexDecode(txid).bytes).value, LaterBtcas(log, txid);
    assert all[own] in all;
    var page := FirstPage(all);
    assert forall k :: 0 <= k < |page| ==> page[k] == all[k];
    if own < PAGE {
      FirstCover(page, n, own);
    } else {
      FoundCovers(page, n);
    }
  }

  lemma {:induction false} FirstCover(page: seq<BtcTxMsg>, n: int, own: nat)
    requires own < |page| && Covers(page[own], n) && forall k :: 0 <= k < own ==> !Covers(page[k], n)
    ensures FindCover(page, n) == Some(page[own])
  {
    if own > 0 {
      assert !Covers(page[0], n);
      FirstCover(page[1..], n, own - 1);
    }
  }

  // ---- the range end and the current block ---------------------------------

  /** The state after a block's deliveries. */
  function AfterBlock(s: AnchorState, block: seq<(Bytes, Tx)>, synced: bool): AnchorState
  {
    if block == [] then s
    else Delivered(AfterBlock(s, block[..|block| - 1], synced), block[|block| - 1].1, synced).state
  }

  /** What the block's deliveries put into the log. */
  function BlockLog(s: AnchorState, block: seq<(Bytes, Tx)>, synced: bool): seq<LogEntry>
  {
    if block == [] then []
    else
      var front := block[..|block| - 1];
      Logged(BlockLog(s, front, synced), AfterBlock(s, front, synced), block[|block| - 1].0, block[|block| - 1].1, synced)
  }

  /** The index of the block's first CAL transaction. */
  function FirstCal(entries: seq<LogEntry>): Option<int>
  {
    if entries == [] then None
    else
      var first := FirstCal(entries[..|entries| - 1]);
      if first.Some? then first else if entries[|entries| - 1].tx.Cal? then Index(entries[|entries| - 1]) else None
  }

  /** How many counted transactions other than CAL have an index strictly between two others. */
  function OthersBetween(entries: seq<LogEntry>, lo: int, hi: int): nat
  {
    if entries == [] then 0
    else
      var e := entries[|entries| - 1];
      OthersBetween(entries[..|entries| - 1], lo, hi)
      + (if !e.tx.Cal? && Index(e).Some? && lo < Index(e).value < hi then 1 else 0)
  }

  lemma {:induction false} OthersUpTo(entries: seq<LogEntry>, lo: int, hi: int, hi': int)
    requires hi <= hi' && forall e :: e in entries && Index(e).Some? ==> Index(e).value < hi
    ensures OthersBetween(entries, lo, hi) == OthersBetween(entries, lo, hi')
  {
    if entries != [] {
      assert entries[|entries| - 1] in entries;
      OthersUpTo(entries[..|entries| - 1], lo, hi, hi');
    }
  }

  /** The first CAL is one of the block's, and none has a smaller index. */
  ghost predicate LeastCal(entries: seq<LogEntry>, first: Option<int>)
  {
    && (first.None? ==> forall e :: e in entries ==> !e.tx.Cal?)
    && (first.Some? ==> (exists e :: e in entries && e.tx.Cal? && HasIndex(e, first.value))
                        && forall e :: e in entries && e.tx.Cal? ==> Index(e).Some? && Index(e).value >= first.value)
  }

  /** The counters in terms of what the block has delivered so far, started from s. */
  ghost predicate CountersHold(s: AnchorState, now: AnchorState, entries: seq<LogEntry>)
  {
    var first := FirstCal(entries);
    && s.txInt <= now.txInt && now.latestCalTxInt <= now.txInt
    && (forall e :: e in entries && Index(e).Some? ==> s.txInt < Index(e).value <= now.txInt)
    && LeastCal(entries, first)
    && (first.None? ==> now.currentCalInts == 0 && now.latestCalTxInt == s.latestCalTxInt)
    && (first.Some? ==>
          && s.txInt < first.value <= now.latestCalTxInt
          && now.txInt - first.value + 1 == now.currentCalInts + OthersBetween(entries, first.value, now.txInt + 1)
          && now.latestCalTxInt - first.value + 1 == now.currentCalInts + OthersBetween(entries, first.value, now.latestCalTxInt))
  }

  /** What a delivery does to the counters: it takes the next index or none, and a CAL takes
      one and is counted. */
  ghost predicate Counts(now: AnchorState, after: AnchorState, e: LogEntry)
  {
    && Index(e) == (if after.txInt == now.txInt then None else Some(after.txInt))
    && now.txInt <= after.txInt <= now.txInt + 1
    && (e.tx.Cal? ==> after.txInt == now.txInt + 1 && after.latestCalTxInt == after.txInt && after.currentCalInts == now.currentCalInts + 1)
    && (!e.tx.Cal? ==> after.latestCalTxInt == now.latestCalTxInt && after.currentCalInts == now.currentCalInts)
  }

  lemma DeliveryCounts(now: AnchorState, hash: Bytes, tx: Tx, synced: bool)
    ensures Counts(now, Delivered(now, tx, synced).state, LogEntry(hash, tx, Delivered(now, tx, synced).tags))
  {
    NextIndex(now, tx, synced);
  }

  lemma {:induction false} BlockCounters(s: AnchorState, block: seq<(Bytes, Tx)>, synced: bool)
    requires s.currentCalInts == 0 && s.latestCalTxInt <= s.txInt
    ensures CountersHold(s, AfterBlock(s, block, synced), BlockLog(s, block, synced))
  {
    if block == [] {
    } else {
      var front, last := block[..|block| - 1], block[|block| - 1];
      var now := AfterBlock(s, front, synced);
      BlockCounters(s, front, synced);
      DeliveryCounts(now, last.0, last.1, synced);
      CountersStep(s, now, AfterBlock(s, block, synced), BlockLog(s, front, synced), LogEntry(last.0, last.1, Delivered(now, last.1, synced).tags));
    }
  }

  lemma CountersStep(s: AnchorState, now: AnchorState, after: AnchorState, entries: seq<LogEntry>, e: LogEntry)
    requires s.latestCalTxInt <= s.txInt && CountersHold(s, now, entries) && Counts(now, after, e)
    ensures CountersHold(s, after, entries + [e])
  {
    LeastCalStep(now, after, entries, e);
    var f := if FirstCal(entries).Some? then FirstCal(entries).value else now.txInt + 1;
    OneMoreDelivery(now, after, entries, e, f);
    if FirstCal(entries).None? {
      NoneBetween(entries + [e], f, f);
      NoneBetween(entries + [e], f, f + 1);
    }
  }

  lemma LeastCalStep(now: AnchorState, after: AnchorState, entries: seq<LogEntry>, e: LogEntry)
    requires forall d :: d in entries && Index(d).Some? ==> Index(d).value <= now.txInt
    requires LeastCal(entries, FirstCal(entries)) && Counts(now, after, e)
    ensures LeastCal(entries + [e], FirstCal(entries + [e]))
  {
    assert (entries + [e])[..|entries|] == entries;
    assert e in entries + [e];
    if FirstCal(entries).Some? {
      var d :| d in entries && d.tx.Cal? && HasIndex(d, FirstCal(entries).value);
      assert d in entries + [e];
    } else if e.tx.Cal? {
      assert HasIndex(e, after.txInt);
    }
  }

  /** How one delivery changes the counts above an index f of the block. */
  lemma OneMoreDelivery(now: AnchorState, after: AnchorState, entries: seq<LogEntry>, e: LogEntry, f: int)
    requires forall d :: d in entries && Index(d).Some? ==> Index(d).value <= now.txInt
    requires now.latestCalTxInt <= now.txInt && Counts(now, after, e)
    ensures var logged := entries + [e];
            var here := if !e.tx.Cal? && now.txInt < after.txInt && f < after.txInt then 1 else 0;
            && FirstCal(logged) == (if FirstCal(entries).Some? then FirstCal(entries) else if e.tx.Cal? then Some(now.txInt + 1) else None)
            && OthersBetween(logged, f, after.txInt + 1) == OthersBetween(entries, f, now.txInt + 1) + here
            && OthersBetween(logged, f, after.latestCalTxInt) ==
               if e.tx.Cal? then OthersBetween(entries, f, now.txInt + 1) else OthersBetween(entries, f, now.latestCalTxInt)
  {
    assert (entries + [e])[..|entries|] == entries;
    OthersUpTo(entries, f, now.txInt + 1, after.txInt + 1);
  }

  lemma {:induction false} NoneBetween(entries: seq<LogEntry>, f: int, hi: int)
    requires hi <= f + 1
    ensures OthersBetween(entries, f, hi) == 0
  {
    if entries != [] {
      NoneBetween(entries[..|entries| - 1], f, hi);
    }
  }

  /** Every CAL delivered by the block has an index outside the half-open range. */
  ghost predicate AllCalsFrom(entries: seq<LogEntry>, end: int)
  {
    forall e :: e in entries && e.tx.Cal? ==> Index(e).Some? && Index(e).value >= end
  }

  /** The range end offered at EndBlock is no earlier than the last CAL of the blocks before,
      and the range leaves every CAL of the current block out exactly when at most one other
      counted transaction lies between the block's first and last CAL. */
  ghost predicate RangeEndIsRight(s: AnchorState, now: AnchorState, entries: seq<LogEntry>)
  {
    var end := now.latestCalTxInt - now.currentCalInts;
    var first := FirstCal(entries);
    && end >= s.latestCalTxInt
    && (first.None? ==> end == s.latestCalTxInt)
    && (first.Some? ==> (AllCalsFrom(entries, end) <==> OthersBetween(entries, first.value, now.latestCalTxInt) <= 1))
  }

  lemma RangeEndFromCounters(s: AnchorState, now: AnchorState, entries: seq<LogEntry>)
    requires s.latestCalTxInt <= s.txInt && CountersHold(s, now, entries)
    ensures RangeEndIsRight(s, now, entries)
  {
    if FirstCal(entries).Some? {
      var first :| first in entries && first.tx.Cal? && HasIndex(first, FirstCal(entries).value);
    }
  }

  lemma RangeEndRespectsBlock(s: AnchorState, block: seq<(Bytes, Tx)>, synced: bool)
    requires s.currentCalInts == 0 && s.latestCalTxInt <= s.txInt
    ensures RangeEndIsRight(s, AfterBlock(s, block, synced), BlockLog(s, block, synced))
  {
    BlockCounters(s, block, synced);
    RangeEndFromCounters(s, AfterBlock(s, block, synced), BlockLog(s, block, synced));
  }
}
