/** One input for each promise that holds only under a condition: where it fails. */
module FailingInputs {
  import opened ByteStrings
  import opened Merkle
  import opened ProofOps
  import opened ChainTypes
  import opened ChainState
  import opened Calendar
  import opened BitcoinBlock
  import opened TxIndex
  import KeyValue
  import Confirmations
  import ConfirmationRuns
  import TokenBucket
  import RateLimiter
  import CoreActivity
  import Election

  // ---- the end of a range (TxIndex.RangeEndRespectsBlock) -------------------

  const CAL_TX: Tx := Cal("")
  const COUNTED_TX: Tx := Val(true)

  function AfterCal(s: AnchorState): AnchorState
  {
    s.(txInt := s.txInt + 1, latestCalTxInt := s.txInt + 1, currentCalInts := s.currentCalInts + 1)
  }

  lemma CalStep(s: AnchorState, front: seq<(Bytes, Tx)>, hash: Bytes)
    ensures AfterBlock(s, front + [(hash, CAL_TX)], true) == AfterCal(AfterBlock(s, front, true))
    ensures BlockLog(s, front + [(hash, CAL_TX)], true)
            == BlockLog(s, front, true) + [LogEntry(hash, CAL_TX, [TxInt(AfterBlock(s, front, true).txInt + 1)])]
  {
    assert (front + [(hash, CAL_TX)])[..|front|] == front;
  }

  lemma CountedStep(s: AnchorState, front: seq<(Bytes, Tx)>, hash: Bytes)
    ensures AfterBlock(s, front + [(hash, COUNTED_TX)], true) == Counted(AfterBlock(s, front, true))
    ensures BlockLog(s, front, true) <= BlockLog(s, front + [(hash, COUNTED_TX)], true)
  {
    assert (front + [(hash, COUNTED_TX)])[..|front|] == front;
  }

  lemma LastCal(s: AnchorState, front: seq<(Bytes, Tx)>, e: LogEntry)
    requires AfterBlock(s, front, true) == Counted(Counted(AfterCal(s))) && e in BlockLog(s, front, true)
    ensures AfterBlock(s, front + [([4], CAL_TX)], true) == AfterCal(Counted(Counted(AfterCal(s))))
    ensures e in BlockLog(s, front + [([4], CAL_TX)], true)
  {
    CalStep(s, front, [4]);
  }

  /** Two counted transactions between a block's two CALs: the range offered at its end takes
      the first of them in. */
  lemma TwoOthersBetween(s: AnchorState) returns (block: seq<(Bytes, Tx)>, e: LogEntry)
    requires s.currentCalInts == 0
    ensures |block| == 4 && block[0].1 == block[3].1 == CAL_TX && block[1].1 == block[2].1 == COUNTED_TX
    ensures e in BlockLog(s, block, true) && e.tx.Cal? && HasIndex(e, s.txInt + 1)
    ensures s.txInt + 1 < AfterBlock(s, block, true).latestCalTxInt - AfterBlock(s, block, true).currentCalInts
  {
    CalStep(s, [], [1]);
    block := [] + [([1], CAL_TX)];
    e := LogEntry([1], CAL_TX, [TxInt(s.txInt + 1)]);
    assert e in BlockLog(s, block, true);
    CountedStep(s, block, [2]);
    block := block + [([2], COUNTED_TX)];
    CountedStep(s, block, [3]);
    block := block + [([3], COUNTED_TX)];
    LastCal(s, block, e);
    block := block + [([4], CAL_TX)];
  }

  // ---- the sixth BTC-A (TxIndex.LookupFindsOwnAnchor) -----------------------

  function MsgOf(k: int): BtcTxMsg
  {
    BtcTxMsg("", "", "", "", k, k + 1)
  }

  /** The BTC-As of the ranges [k, k + 1) to [6, 7), delivered with the indexes 6 + k to 12. */
  function BtcasFrom(k: nat): seq<LogEntry>
    decreases 7 - k
  {
    if k > 6 then [] else [LogEntry([6 + k], BtcA(Text(MsgOf(k))), [TxInt(6 + k)])] + BtcasFrom(k + 1)
  }

  lemma {:induction false} BtcasFromAre(k: nat)
    requires 1 <= k <= 7
    ensures |BtcasAfter(BtcasFrom(k), 6)| == 7 - k
    ensures forall i :: 0 <= i < 7 - k ==> BtcasAfter(BtcasFrom(k), 6)[i] == MsgOf(k + i)
    decreases 7 - k
  {
    if k <= 6 {
      BtcasFromAre(k + 1);
      assert BtcasFrom(k)[1..] == BtcasFrom(k + 1);
      assert BtcasAfter(BtcasFrom(k), 6) == [MsgOf(k)] + BtcasAfter(BtcasFrom(k + 1), 6);
    }
  }

  /** A CAL with index 6, and the BTC-As of the ranges [k, k + 1) to [6, 7): the lookup finds
      the last, which is the CAL's own, unless there are six of them. */
  lemma SixthIsNotFound(k: nat)
    requires 1 <= k <= 6
    ensures BtcaForCalTx([LogEntry([6], CAL_TX, [TxInt(6)])] + BtcasFrom(k), HexEncode([6])) == if k == 1 then None else Some(MsgOf(6))
  {
    var cal := LogEntry([6], CAL_TX, [TxInt(6)]);
    var log := [cal] + BtcasFrom(k);
    HexRoundTrip([6]);
    BtcasFromAre(k);
    assert log[1..] == BtcasFrom(k) && Index(cal) == Some(6);
    assert BtcasAfter(log, 6) == [] + BtcasAfter(BtcasFrom(k), 6);
    assert LaterBtcas(log, HexEncode([6])) == BtcasAfter(BtcasFrom(k), 6);
    LookupFindsOwnAnchor(log, HexEncode([6]), 6 - k);
  }

  // ---- calendar proofs (Calendar.CalendarAlignment) -------------------------

  /** Behind an aggregation whose root does not decode, GenerateCalendarTree gives an aggregation
      the proof of the next one. The aggregator hands out no such root
      (AggregatorThreads.DrainedAlign). */
  lemma ProofOfTheNext(h: Hash, a: Bytes, b: Bytes)
    requires |a| == |b| == 32
    ensures var aggs := [Aggregation("0", "z", []), Aggregation("1", HexEncode(a), []), Aggregation("2", HexEncode(b), [])];
            CalendarTree(h, aggs).proofData[1].proof == PathItems(Path(h, Promote, [a, b], 1), SHA)
            && PathItems(Path(h, Promote, [a, b], 1), SHA) == [LeftItem(HexEncode(a)), OpItem(SHA)]
  {
    DecodedOfThree(a, b);
    SecondOfTwo(h, a, b);
  }

  lemma DecodedOfThree(a: Bytes, b: Bytes)
    ensures DecodedRoots([Aggregation("0", "z", []), Aggregation("1", HexEncode(a), []), Aggregation("2", HexEncode(b), [])]) == [a, b]
  {
    var bad, x, y := Aggregation("0", "z", []), Aggregation("1", HexEncode(a), []), Aggregation("2", HexEncode(b), []);
    HexRoundTrip(a);
    HexRoundTrip(b);
    DecodedRootsConcat([bad], [x, y]);
    DecodedRootsConcat([x], [y]);
    OneDecoded(bad);
    OneDecoded(x);
    OneDecoded(y);
    assert [bad] + [x, y] == [bad, x, y] && [x] + [y] == [x, y];
  }

  lemma OneDecoded(g: Aggregation)
    ensures DecodedRoots([g]) == if HexDecode(g.aggRoot).ok then [HexDecode(g.aggRoot).bytes] else []
  {
    assert [g][1..] == [];
  }

  lemma SecondOfTwo(h: Hash, a: Bytes, b: Bytes)
    ensures Path(h, Promote, [a, b], 1) == [ProofStep(true, a)]
    ensures PathItems(Path(h, Promote, [a, b], 1), SHA) == [LeftItem(HexEncode(a)), OpItem(SHA)]
  {
    assert |NextLevel(h, Promote, [a, b])| == 1;
    assert Path(h, Promote, NextLevel(h, Promote, [a, b]), 0) == [];
    var path := Path(h, Promote, [a, b], 1);
    assert path == [ProofStep(true, a)] + [];
    assert path[1..] == [];
  }

  // ---- the tree of a range (Calendar.AggregateFailsExactly) ------------------

  /** A range whose one CAL carries no hexadecimal data has no tree. */
  lemma NothingDecodes(h: Hash, uuid: Bytes -> string, txHash: Bytes)
    ensures BtcAggregate(h, uuid, [LogEntry(txHash, Cal("z"), [TxInt(1)])]).None?
  {
    var e := LogEntry(txHash, Cal("z"), [TxInt(1)]);
    assert [e][1..] == [];
    assert CalLeaves([e]) == CalLeafOf(e) + CalLeaves([]);
    assert !HexDecode("z").ok;
  }

  // ---- the BTC transaction state (Calendar.RejoinedIsBody) ------------------

  ghost predicate AllAre(bytes: Bytes, b: byte)
  {
    forall i :: 0 <= i < |bytes| ==> bytes[i] == b
  }

  lemma {:induction false} SameEncode(bytes: Bytes, b: byte, c: char)
    requires AllAre(bytes, b) && HexDigit(b / 16) == HexDigit(b % 16) == c
    ensures forall i :: 0 <= i < 2 * |bytes| ==> HexEncode(bytes)[i] == c
  {
    if bytes != [] {
      SameEncode(bytes[1..], b, c);
      assert HexEncode(bytes) == [c, c] + HexEncode(bytes[1..]);
    }
  }

  predicate IsHex(s: string)
  {
    forall i :: 0 <= i < |s| ==> HexValue(s[i]) >= 0
  }

  lemma {:induction false} DigitsDecode(s: string)
    requires |s| % 2 == 0 && IsHex(s)
    ensures HexDecode(s).ok
  {
    if s != "" {
      DigitsDecode(s[2..]);
    }
  }

  /** The code that pushes 32 bytes in an OP_RETURN output. */
  const PUSH: string := "6a20"

  lemma HexConcat(a: string, b: string)
    requires IsHex(a) && IsHex(b)
    ensures IsHex(a + b)
  {
  }

  /** A push of 32 bytes decodes between other digits. */
  lemma PushDecodes(hex: string, end: string)
    requires |hex| == 64 && |end| % 2 == 0 && IsHex(hex) && IsHex(end)
    ensures HexDecode(PUSH + hex + end).ok
  {
    HexConcat(PUSH, hex);
    HexConcat(PUSH + hex, end);
    DigitsDecode(PUSH + hex + end);
  }

  /** Where the first occurrence of a run of one digit is: the front of the push may end in it. */
  lemma FirstRun(hex: string, end: string, c: char, at: nat)
    requires |hex| == 64 && (forall i :: 0 <= i < |hex| ==> hex[i] == c)
    requires at <= 4 && (forall k :: 0 <= k < at ==> PUSH[k] != c) && forall k :: at <= k < 4 ==> PUSH[k] == c
    ensures IndexOf(PUSH + hex + end, hex) == at
  {
    var body := PUSH + hex + end;
    assert forall k :: 0 <= k < 4 ==> body[k] == PUSH[k];
    assert forall k :: 4 <= k < 68 ==> body[k] == hex[k - 4];
    assert body[at..at + 64] == hex;
    assert ContainsAt(body, hex, at) && Contains(body, hex);
    forall k: nat | k < at ensures !ContainsAt(body, hex, k) {
      assert body[k..k + 64][0] == body[k];
    }
  }

  /** A root of zero bytes, pushed between two bytes: its first occurrence is one digit earlier, and
      what is hashed is not the body. */
  lemma RootAfterDigit(root: Bytes, msg: BtcTxMsg, end: string)
    requires |root| == 32 && AllAre(root, 0) && msg.anchorBtcAggRoot == HexEncode(root)
    requires msg.btcTxBody == PUSH + msg.anchorBtcAggRoot + end && |end| % 2 == 0 && IsHex(end)
    ensures ContainsAt(msg.btcTxBody, msg.anchorBtcAggRoot, 4) && IndexOf(msg.btcTxBody, msg.anchorBtcAggRoot) == 3
    ensures HexDecode(msg.btcTxBody).ok && Rejoined(msg) != HexDecode(msg.btcTxBody).bytes
  {
    ZerosEncode(root);
    FirstRun(msg.anchorBtcAggRoot, end, '0', 3);
    PushDecodes(msg.anchorBtcAggRoot, end);
    assert msg.btcTxBody[4..68] == msg.anchorBtcAggRoot;
    RejoinedIsBody(msg);
  }

  lemma ZerosEncode(root: Bytes)
    requires AllAre(root, 0)
    ensures HexDecode(HexEncode(root)).ok && forall i :: 0 <= i < 2 * |root| ==> HexEncode(root)[i] == '0'
  {
    HexRoundTrip(root);
    SameEncode(root, 0, '0');
  }

  // ---- the confirmation list ------------------------------------------------

  const WAITING: TxID := TxID("t", 0, "")

  /** A transaction met in two blocks leaves two entries for it. On one chain no ID is mined twice,
      so LND delivers such blocks only across a reorganisation. */
  lemma DoubledEntry()
    ensures Confirmations.MarkedAll([Text(WAITING)], [WAITING], [Confirmations.Sighting("t", 7), Confirmations.Sighting("t", 8)])
            == [Text(TxID("t", 7, "")), Text(TxID("t", 8, ""))]
    ensures Confirmations.Waiting([Text(WAITING)]) == [WAITING]
  {
    var list, waiting, seen, again := [Text(WAITING)], [WAITING], Confirmations.Sighting("t", 7), Confirmations.Sighting("t", 8);
    assert list[..0] == [];
    assert Confirmations.TxIds(waiting) == ["t"];
    assert Confirmations.FirstIndex(["t"], "t") == 0;
    var once := Confirmations.Marked(list, waiting, seen);
    assert list[1..] == [];
    assert once == [Text(TxID("t", 7, ""))];
    KeyValue.DelAbsent(once, Text(WAITING));
    assert Confirmations.Marked(once, waiting, again) == once + [Text(TxID("t", 8, ""))];
    assert [seen, again][..1] == [seen] && [seen][..0] == [];
    assert Confirmations.MarkedAll(list, waiting, [seen]) == once;
  }

  /** An entry with six confirmations goes though no block answers, and no message is made. */
  lemma GoneWithoutProof(h: Hash)
    ensures var e := TxID("t", 100, "");
            && Confirmations.Unripe([Text(e)], 105) == []
            && Confirmations.Confirmations(h, _ => None, Confirmations.Ripe([Text(e)], 105)) == [Confirmations.Confirmation(e, None)]
  {
    var e := TxID("t", 100, "");
    assert [Text(e)][..0] == [] && [Text(e)][1..] == [] && [e][..0] == [];
    assert Confirmations.Ripe([Text(e)], 105) == [e];
  }

  /** A sync from height 100 to 136 passes the block 110 that holds a waiting transaction. */
  lemma JumpedOver(view: Confirmations.Chain)
    ensures var m := ConfirmationRuns.Monitor([Text(WAITING)], 100, [Text(WAITING)], []);
            var after := ConfirmationRuns.After(m, ConfirmationRuns.Sync(view, Some(136)));
            after.list == [Text(WAITING)] && after.btcHeight > 110
  {
    ConfirmationRuns.JumpPasses(ConfirmationRuns.Monitor([Text(WAITING)], 100, [Text(WAITING)], []), view, 136, WAITING, 110);
  }

  // ---- the rate limiter -----------------------------------------------------

  const LN_ID: RateLimiter.LnIdentity := RateLimiter.LnIdentity("peer", 0)

  /** A core has just declared its key and identity. */
  const DECLARED: RateLimiter.Limiter :=
    RateLimiter.Limiter(map["core" := "key"], map["key" := RateLimiter.NEW_TX_VALIDATION], map["core" := LN_ID], 0, [])

  lemma DeclaredIsReached()
    ensures RateLimiter.AfterAll(RateLimiter.START, [RateLimiter.Declare("core", Some("key"), Some(LN_ID))]) == DECLARED
  {
    var events := [RateLimiter.Declare("core", Some("key"), Some(LN_ID))];
    assert events[..0] == [];
    assert RateLimiter.AfterAll(RateLimiter.START, events[..0]) == RateLimiter.START;
  }

  function TxOf(txType: string): RateLimiter.Incoming
  {
    RateLimiter.Incoming(txType, "core", None, RateLimiter.LnIdentity("", 0), false)
  }

  /** The core's CAL bucket is empty, and still its CAL and BTC-C pass. */
  lemma NotEnforced()
    ensures TokenBucket.IsHabitualViolator(TokenBucket.Refilled(DECLARED.records["key"].calAllowedRate, DECLARED.height))
    ensures RateLimiter.Accepts(DECLARED, Some(TxOf("CAL"))) && RateLimiter.Accepts(DECLARED, Some(TxOf("BTC-C")))
  {
    var events := [RateLimiter.Declare("core", Some("key"), Some(LN_ID))];
    DeclaredIsReached();
    RateLimiter.CalNeverLimited(events, TxOf("CAL"));
    RateLimiter.CalNeverLimited(events, TxOf("BTC-C"));
  }

  /** A core that has sent nothing but its key counts as active at the start of the chain. */
  lemma ActiveWithoutTransactions(blockHash: string)
    ensures var events := [RateLimiter.Declare("core", Some("key"), Some(LN_ID))];
            && RateLimiter.AfterAll(RateLimiter.START, events) == DECLARED && CoreActivity.EntriesOf(events, "key") == []
            && Election.IsActive(CoreActivity.ViewOf(DECLARED, blockHash), 128, "core")
  {
    var events := [RateLimiter.Declare("core", Some("key"), Some(LN_ID))];
    DeclaredIsReached();
    assert events[..0] == [];
    assert CoreActivity.EntriesOf(events[..0], "key") == [];
    CoreActivity.ActiveExactly(events, "core", blockHash);
  }
}
