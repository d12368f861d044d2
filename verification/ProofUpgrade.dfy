/** What a confirmation leaves in the store, and that ConstructProof recomputes the branch
    it left there. */
module ProofUpgrade {
  import opened ByteStrings
  import opened Merkle
  import opened ProofOps
  import opened ChainTypes
  import opened KeyValue
  import opened Store
  import opened Calendar
  import opened BitcoinBlock
  import opened TxIndex
  import opened ProofAssembly
  import opened ProofSoundness
  import opened ProofRuns

  // ---- a confirmation completes its proofs ---------------------------------

  /** A proof found under a BTC transaction has a row that the batch joins. */
  lemma FoundIsJoined(db: Db, txId: string, p: string) returns (row: AggState)
    requires DoubleIndexed(db) && p in ProofIdsOfTx(db, txId)
    ensures row in JoinRows(db, ProofIdsOfTx(db, txId)).rows && row.proofId == p
  {
    var ids := ProofIdsOfTx(db, txId);
    ForwardIsBackward(db, txId, p);
    var a, c, b :| Walk(db, p, a, c, b) && b.anchorBtcAggId == AggIdOfTx(db, txId);
    GatherFinds(db.aggByProof, ids, a);
    AgreeKeys(db.aggByAgg, db.aggByProof, AggIdOf, ProofIdOf, a, "", p);
    row := a;
  }

  lemma SelectedFromSome(row: AggState, cals: seq<CalStateObject>, anchors: seq<AnchorBtcAggState>)
    requires Selected(row, cals, anchors).Some?
    ensures anchors != []
  {
    AnchorLookupFinds(anchors, CalLookup(cals)[row.aggId].calId);
  }

  /** The document of a joined row. */
  function RowDoc(db: Db, network: string, head: AnchorBtcHeadState, row: AggState): ProofDoc
    requires head.btcTxId in db.txByTx
    requires var j := JoinRows(db, ProofIdsOfTx(db, head.btcTxId)); Selected(row, j.cals, j.anchors).Some?
  {
    var j := JoinRows(db, ProofIdsOfTx(db, head.btcTxId));
    BtcDoc(row, CalStateOf(CalLookup(j.cals), row.aggId), Selected(row, j.cals, j.anchors).value, db.txByTx[head.btcTxId], head, network)
  }

  ghost predicate AllSelected(db: Db, txId: string)
  {
    var j := JoinRows(db, ProofIdsOfTx(db, txId));
    forall row :: row in j.rows ==> Selected(row, j.cals, j.anchors).Some?
  }

  lemma AllAreSelected(db: Db, txId: string)
    requires DoubleIndexed(db) && OneWalk(db) && OneAnchor(db)
    ensures AllSelected(db, txId)
  {
    var j := JoinRows(db, ProofIdsOfTx(db, txId));
    forall row | row in j.rows ensures Selected(row, j.cals, j.anchors).Some? {
      JoinSelects(db, txId, row);
    }
  }

  /** With a joined row the batch is written, and its documents are those of the joined rows. */
  lemma BatchIsRowDocs(db: Db, network: string, head: AnchorBtcHeadState, row: AggState)
    requires AllSelected(db, head.btcTxId) && head.btcTxId in db.txByTx && db.txByTx[head.btcTxId].btcTxId != ""
    requires row in JoinRows(db, ProofIdsOfTx(db, head.btcTxId)).rows
    ensures var batch, rows := BtcBatch(db, network, ProofIdsOfTx(db, head.btcTxId), head), JoinRows(db, ProofIdsOfTx(db, head.btcTxId)).rows;
            && batch.Some? && |batch.value| == |rows|
            && forall i :: 0 <= i < |rows| ==> rows[i] in rows && batch.value[i] == RowDoc(db, network, head, rows[i])
  {
    var j := JoinRows(db, ProofIdsOfTx(db, head.btcTxId));
    SelectedFromSome(row, j.cals, j.anchors);
    BtcDocsAt(j.rows, j.cals, j.anchors, db.txByTx[head.btcTxId], head, network);
  }

  /** A proof under a monitored BTC transaction is joined: the batch writes a document for it. */
  lemma ConfirmWrites(db: Db, network: string, head: AnchorBtcHeadState, p: string)
    requires DoubleIndexed(db) && OneWalk(db) && OneAnchor(db) && p in ProofIdsOfTx(db, head.btcTxId)
    requires head.btcTxId in db.txByTx && head.btcTxId != ""
    ensures var batch := BtcBatch(db, network, ProofIdsOfTx(db, head.btcTxId), head);
            batch.Some? && exists d :: d in batch.value && d.proofId == p
  {
    var row := FoundIsJoined(db, head.btcTxId, p);
    AllAreSelected(db, head.btcTxId);
    BatchIsRowDocs(db, network, head, row);
    var rows := JoinRows(db, ProofIdsOfTx(db, head.btcTxId)).rows;
    var docs := BtcBatch(db, network, ProofIdsOfTx(db, head.btcTxId), head).value;
    var i :| 0 <= i < |rows| && rows[i] == row;
    assert docs[i] in docs && docs[i].proofId == p;
  }

  lemma BatchMentionsBtc(env: Env, w: World, db: Db, head: AnchorBtcHeadState, height: int)
    requires BatchReady(env, w, db, head, height)
    ensures var batch := BtcBatch(db, env.network, ProofIdsOfTx(db, head.btcTxId), head);
            batch.Some? ==> forall d :: d in batch.value ==> MentionsBtc(d.branches)
  {
    DocsAreOfRows(env, w, db, head, height);
  }

  /** What the store's steps keep, over a log whose anchored ranges lie apart. */
  ghost predicate Kept(env: Env, log: seq<LogEntry>, w: World, ranges: set<Range>, db: Db)
  {
    Inv(env, log, w, ranges, db) && GoodLog(w, log) && Disjoint(ranges)
  }

  /** A confirmation with a header proof runs the batch of its transaction, on sound records. */
  lemma ConfirmIsBatch(env: Env, log: seq<LogEntry>, w: World, ranges: set<Range>, db: Db, tx: TxID, block: Option<BlockDetails>, btccHash: Bytes)
    returns (head: AnchorBtcHeadState)
    requires Kept(env, log, w, ranges, db) && HonestBlock(w, tx, block) && HoldsTx(env.h, block, tx.txId)
    ensures HeadFromBlock(env, block, tx, btccHash) == Some(head) && head.btcTxId == tx.txId
    ensures BatchReady(env, w, db, head, tx.blockHeight)
    ensures AfterConfirm(env, db, tx, block, btccHash) == AfterBtcBatch(db, env.network, ProofIdsOfTx(db, tx.txId), head)
  {
    ConfirmedHead(env, w, tx, block, btccHash);
    DisjointRangesJustifyJoin(env, log, w, ranges, db);
    head := HeadFromBlock(env, block, tx, btccHash).value;
  }

  /** A batch leaves every proof found under its transaction with a BTC branch. */
  lemma BatchCompletes(env: Env, w: World, db: Db, head: AnchorBtcHeadState, height: int, p: string)
    requires BatchReady(env, w, db, head, height) && head.btcTxId in db.txByTx && head.btcTxId != ""
    requires p in ProofIdsOfTx(db, head.btcTxId)
    ensures !Unconfirmed(AfterBtcBatch(db, env.network, ProofIdsOfTx(db, head.btcTxId), head), p)
  {
    ConfirmWrites(db, env.network, head, p);
    BatchMentionsBtc(env, w, db, head, height);
    InsertProofsFills(db.proofs, BtcBatch(db, env.network, ProofIdsOfTx(db, head.btcTxId), head).value, p);
  }

  /** After a confirmation every proof found under its transaction has a BTC branch. */
  lemma ConfirmCompletes(env: Env, log: seq<LogEntry>, w: World, ranges: set<Range>, db: Db, tx: TxID, block: Option<BlockDetails>,
                         btccHash: Bytes, p: string)
    requires Kept(env, log, w, ranges, db) && HonestBlock(w, tx, block) && HoldsTx(env.h, block, tx.txId)
    requires tx.txId in db.txByTx && tx.txId != "" && p in ProofIdsOfTx(db, tx.txId)
    ensures !Unconfirmed(AfterConfirm(env, db, tx, block, btccHash), p)
  {
    var head := ConfirmIsBatch(env, log, w, ranges, db, tx, block, btccHash);
    BatchCompletes(env, w, db, head, tx.blockHeight, p);
  }

  /** There is no proof with a BTC branch yet. */
  predicate Unconfirmed(db: Db, p: string)
  {
    p in db.proofs ==> !MentionsBtc(db.proofs[p].branches)
  }

  // ---- the lookup and the store speak of the same anchor --------------------

  /** Every BTC-A in the log is of one of the ranges, or of an anchor below all of them. */
  ghost predicate KnownBtcas(log: seq<LogEntry>, ranges: set<Range>)
  {
    forall e, r :: e in log && IsBtca(e) && r in ranges ==>
      Range(e.tx.msg.value.beginCalTxInt, e.tx.msg.value.endCalTxInt) in ranges || e.tx.msg.value.endCalTxInt <= r.begin
  }

  /** A Bitcoin transaction is announced by one BTC-A, however often that is delivered. */
  ghost predicate OneBtcaPerTx(log: seq<LogEntry>)
  {
    forall d, e :: d in log && e in log && IsBtca(d) && IsBtca(e) && d.tx.msg.value.btcTxId == e.tx.msg.value.btcTxId ==>
      d.tx.msg.value == e.tx.msg.value
  }

  /** A stored anchor state of a calendar transaction comes from the tree of the BTC-A that
      the lookup finds for it. */
  lemma StoredFromFound(env: Env, log: seq<LogEntry>, w: World, ranges: set<Range>, db: Db, txid: string, b: AnchorBtcAggState)
    requires GoodLog(w, log) && Disjoint(ranges) && DoubleIndexed(db) && AnchorsFromRanges(env, log, ranges, db) && KnownBtcas(log, ranges)
    requires BtcaForCalTx(log, txid).Some? && b in At(db.anchorByCal, txid)
    ensures var m := BtcaForCalTx(log, txid).value;
            Range(m.beginCalTxInt, m.endCalTxInt) in ranges && FromRange(env, log, Range(m.beginCalTxInt, m.endCalTxInt), b) && b.calId == txid
  {
    AgreeKeys(db.anchorByAgg, db.anchorByCal, AnchorAggIdOf, AnchorCalIdOf, b, "", txid);
    var r :| r in ranges && FromRange(env, log, r, b);
    var e, _ := AnchorEntry(env, log, r, b);
    HexRoundTrip(e.hash);
    IndexOfEntry(log, e);
    LookupFindsLaterCover(log, txid);
    var m := BtcaForCalTx(log, txid).value;
    var d :| d in log && IsBtca(d) && d.tx.msg.value == m;
    var s := Range(m.beginCalTxInt, m.endCalTxInt);
    assert Covers(m, Index(e).value) && r.begin <= Index(e).value < r.end;
    assert s in ranges;
    assert EqualOrDisjoint(r, s);
  }

  ghost predicate DistinctHashes(txs: seq<LogEntry>)
  {
    forall i, j :: 0 <= i < j < |txs| ==> txs[i].hash != txs[j].hash
  }

  lemma {:induction false} RangeIsDistinct(log: seq<LogEntry>, min: int, max: int)
    requires Increasing(log) && forall d, e :: d in log && e in log && d.hash == e.hash ==> d == e
    ensures DistinctHashes(CalRange(log, min, max))
  {
    if log != [] {
      var front, last := log[..|log| - 1], log[|log| - 1];
      assert log == front + [last];
      RangeIsDistinct(front, min, max);
      if InRange(last, min, max) {
        forall e | e in CalRange(front, min, max) ensures e.hash != last.hash {
          RangeMembers(front, min, max, e);
          EarlierDiffers(log, e);
        }
      }
    }
  }

  lemma EarlierDiffers(log: seq<LogEntry>, e: LogEntry)
    requires Increasing(log) && log != [] && e in log[..|log| - 1] && Index(e).Some?
    ensures e != log[|log| - 1]
  {
    var k :| 0 <= k < |log| - 1 && log[..|log| - 1][k] == e;
    assert log[k] == e;
  }

  lemma {:induction false} LeavesAreDistinct(txs: seq<LogEntry>)
    requires DistinctHashes(txs)
    ensures forall i, j :: 0 <= i < j < |CalLeaves(txs)| ==> CalLeaves(txs)[i].hash != CalLeaves(txs)[j].hash
  {
    if txs != [] {
      var rest := txs[1..];
      LeavesAreDistinct(rest);
      forall leaf | leaf in CalLeaves(rest) ensures leaf.hash != txs[0].hash {
        LeafFromEntry(rest, leaf);
        var e :| e in rest && e.hash == leaf.hash;
        var k :| 0 <= k < |rest| && rest[k] == e;
        assert txs[k + 1] == e;
      }
    }
  }

  /** A tree has one anchor state for a calendar transaction. */
  lemma OneStatePerCal(env: Env, log: seq<LogEntry>, w: World, r: Range, a: AnchorBtcAggState, b: AnchorBtcAggState)
    requires GoodLog(w, log) && FromRange(env, log, r, a) && FromRange(env, log, r, b) && a.calId == b.calId
    ensures a == b
  {
    var txs := CalRange(log, r.begin, r.end);
    var agg := TreeFromCalRange(env, log, r.begin, r.end).value;
    var i :| 0 <= i < |BtcaStates(agg)| && BtcaStates(agg)[i] == a;
    var j :| 0 <= j < |BtcaStates(agg)| && BtcaStates(agg)[j] == b;
    BtcAggregateSound(env.h, env.uuid, txs, i);
    BtcAggregateSound(env.h, env.uuid, txs, j);
    HexEncodeInjective(CalLeaves(txs)[i].hash, CalLeaves(txs)[j].hash);
    RangeIsDistinct(log, r.begin, r.end);
    LeavesAreDistinct(txs);
  }

  // ---- what a confirmation nests -------------------------------------------

  /** The proof of a row under the calendar transaction is found under the BTC transaction. */
  lemma FoundUnderTx(db: Db, txId: string, p: string, a: AggState, c: CalStateObject, b: AnchorBtcAggState)
    requires DoubleIndexed(db) && Walk(db, p, a, c, b) && b.anchorBtcAggId == AggIdOfTx(db, txId)
    ensures p in ProofIdsOfTx(db, txId)
  {
    assert WalkReaches(db, p, AggIdOfTx(db, txId));
    ForwardIsBackward(db, txId, p);
  }

  lemma BtcBatchHasRow(db: Db, network: string, head: AnchorBtcHeadState)
    requires AllSelected(db, head.btcTxId) && BtcBatch(db, network, ProofIdsOfTx(db, head.btcTxId), head).Some?
    ensures JoinRows(db, ProofIdsOfTx(db, head.btcTxId)).rows != []
  {
  }

  /** The document nests the chain branch of an anchor state that is stored under a calendar
      transaction and belongs to the aggregation of the BTC transaction. */
  ghost predicate NestsAnchor(db: Db, network: string, head: AnchorBtcHeadState, d: ProofDoc, calId: string)
    requires head.btcTxId in db.txByTx
  {
    var tx := db.txByTx[head.btcTxId];
    exists b :: b in At(db.anchorByCal, calId) && b.calId == calId && b.anchorBtcAggId == tx.anchorBtcAggId
                && b.anchorBtcAggState.Text? && tx.btcTxState.Text? && head.btcHeadState.Text?
                && NestedBranch(d) == Some(ChainBranch(b.anchorBtcAggState.value, tx.btcTxState.value, head.btcHeadState.value, SetProofType(network, "btc")))
  }

  /** A document built from given parts nests the chain branch of its anchor state. */
  lemma PickedNests(env: Env, w: World, db: Db, head: AnchorBtcHeadState, row: AggState, cal: CalStateObject, b: AnchorBtcAggState)
    requires RecordsSound(env.h, w, db) && head.btcHeadState.Text? && head.btcTxId in db.txByTx && b.anchorBtcAggId == AggIdOfTx(db, head.btcTxId)
    requires row in At(db.aggByProof, row.proofId) && cal in At(db.calByAgg, row.aggId) && b in At(db.anchorByCal, cal.calId) && b.calId == cal.calId
    ensures NestsAnchor(db, env.network, head, BtcDoc(row, cal.calState, b, db.txByTx[head.btcTxId], head, env.network), cal.calId)
  {
    assert AggRowSound(env.h, w, row) && CalRowSound(env.h, w, cal) && AnchorRowSound(env.h, w, b);
    assert TxRowSound(env.h, w, db.txByTx[head.btcTxId]);
    NestedInDoc(row, cal.calState, b, db.txByTx[head.btcTxId], head, env.network);
  }

  /** Each document a batch writes for a calendar transaction nests the chain branch of one
      anchor state stored under it. */
  lemma BatchNests(env: Env, w: World, db: Db, head: AnchorBtcHeadState, height: int, d: ProofDoc, a: AggState, c: CalStateObject)
    requires BatchReady(env, w, db, head, height) && Anchored(db, d.proofId, a, c)
    ensures var batch := BtcBatch(db, env.network, ProofIdsOfTx(db, head.btcTxId), head);
            batch.Some? && d in batch.value ==> NestsAnchor(db, env.network, head, d, c.calId)
  {
    var batch := BtcBatch(db, env.network, ProofIdsOfTx(db, head.btcTxId), head);
    if batch.Some? && d in batch.value {
      AllAreSelected(db, head.btcTxId);
      var row := RowOfDoc(db, env.network, head, d);
      JoinedRow(db, ProofIdsOfTx(db, head.btcTxId), row);
      JoinSelects(db, head.btcTxId, row);
      var j := JoinRows(db, ProofIdsOfTx(db, head.btcTxId));
      var cal := CalLookup(j.cals)[row.aggId];
      assert row.aggId == a.aggId && cal.calId == c.calId;
      PickedNests(env, w, db, head, row, cal, Selected(row, j.cals, j.anchors).value);
    }
  }

  lemma RowOfDoc(db: Db, network: string, head: AnchorBtcHeadState, d: ProofDoc) returns (row: AggState)
    requires AllSelected(db, head.btcTxId) && BtcBatch(db, network, ProofIdsOfTx(db, head.btcTxId), head).Some?
    requires d in BtcBatch(db, network, ProofIdsOfTx(db, head.btcTxId), head).value
    ensures row in JoinRows(db, ProofIdsOfTx(db, head.btcTxId)).rows && row.proofId == d.proofId && d == RowDoc(db, network, head, row)
  {
    var rows, docs := JoinRows(db, ProofIdsOfTx(db, head.btcTxId)).rows, BtcBatch(db, network, ProofIdsOfTx(db, head.btcTxId), head).value;
    BtcBatchHasRow(db, network, head);
    BatchIsRowDocs(db, network, head, rows[0]);
    var i :| 0 <= i < |docs| && docs[i] == d;
    row := rows[i];
  }

  lemma NestedInDoc(row: AggState, calState: Stored<AnchorOpsState>, b: AnchorBtcAggState, tx: AnchorBtcTxState, head: AnchorBtcHeadState, network: string)
    requires row.aggState.Text? && calState.Text? && b.anchorBtcAggState.Text? && tx.btcTxState.Text? && head.btcHeadState.Text?
    ensures NestedBranch(BtcDoc(row, calState, b, tx, head, network))
            == Some(ChainBranch(b.anchorBtcAggState.value, tx.btcTxState.value, head.btcHeadState.value, SetProofType(network, "btc")))
  {
  }

  /** The chain branch from an anchor state through the transaction of a BTC-A to a head. */
  function ChainTo(network: string, state: Stored<OpsState>, m: BtcTxMsg, head: Option<AnchorBtcHeadState>): Option<Branch>
  {
    var tx := GenerateAnchorBtcTxState(m);
    if state.Unparsable? || tx.None? || tx.value.btcTxState.Unparsable? || head.None? || head.value.btcHeadState.Unparsable? then None
    else Some(ChainBranch(state.value, tx.value.btcTxState.value, head.value.btcHeadState.value, SetProofType(network, "btc")))
  }

  /** ... to the block at a height, as confirmed by a BTC-C. */
  function ChainOf(env: Env, state: Stored<OpsState>, m: BtcTxMsg, block: Option<BlockDetails>, height: int, btccHash: Bytes): Option<Branch>
  {
    ChainTo(env.network, state, m, HeadFromBlock(env, block, TxID(m.btcTxId, height, ""), btccHash))
  }

  /** The document nests the chain branch of a BTC-A, from an anchor state of the BTC-A's
      aggregation that is stored under the calendar transaction. */
  ghost predicate NestsTo(network: string, db: Db, txid: string, d: ProofDoc, m: BtcTxMsg, head: Option<AnchorBtcHeadState>)
  {
    exists b :: b in At(db.anchorByCal, txid) && b.anchorBtcAggId == m.anchorBtcAggId
                && NestedBranch(d).Some? && NestedBranch(d) == ChainTo(network, b.anchorBtcAggState, m, head)
  }

  ghost predicate Nests(env: Env, db: Db, txid: string, d: ProofDoc, m: BtcTxMsg, block: Option<BlockDetails>, height: int, btccHash: Bytes)
  {
    NestsTo(env.network, db, txid, d, m, HeadFromBlock(env, block, TxID(m.btcTxId, height, ""), btccHash))
  }

  /** More rows leave what a proof nests as it is. */
  lemma NestsStays(env: Env, db: Db, after: Db, txid: string, d: ProofDoc, m: BtcTxMsg, block: Option<BlockDetails>, height: int, btccHash: Bytes)
    requires Grows(db, after) && Nests(env, db, txid, d, m, block, height, btccHash)
    ensures Nests(env, after, txid, d, m, block, height, btccHash)
  {
  }

  /** A head state depends on the transaction and the height only. */
  lemma HeadOfTx(env: Env, block: Option<BlockDetails>, a: TxID, b: TxID, btccHash: Bytes)
    requires a.txId == b.txId && a.blockHeight == b.blockHeight
    ensures HeadFromBlock(env, block, a, btccHash) == HeadFromBlock(env, block, b, btccHash)
  {
  }

  /** The BTC-A that a stored transaction state is of. */
  lemma MonitorOf(env: Env, log: seq<LogEntry>, w: World, ranges: set<Range>, db: Db, t: string) returns (m: BtcTxMsg)
    requires TxsMonitored(env, log, w, ranges, db) && t in db.txByTx
    ensures Announced(log, m) && m.btcTxId == t && GenerateAnchorBtcTxState(m) == Some(db.txByTx[t])
    ensures GoodBtca(env, w, m) && AnchorsIn(env, log, db, m)
  {
    m :| MonitoredBy(env, log, w, ranges, db, t, m);
  }

  lemma AnchorNests(network: string, db: Db, head: AnchorBtcHeadState, d: ProofDoc, txid: string, m: BtcTxMsg)
    requires head.btcTxId in db.txByTx && GenerateAnchorBtcTxState(m) == Some(db.txByTx[head.btcTxId])
    requires NestsAnchor(db, network, head, d, txid)
    ensures NestsTo(network, db, txid, d, m, Some(head))
  {
  }

  /** A proof that a batch gives its first BTC branch is a document of the batch. */
  lemma NewIsOfBatch(db: Db, network: string, ids: seq<string>, head: AnchorBtcHeadState, p: string)
    requires Unconfirmed(db, p) && !Unconfirmed(AfterBtcBatch(db, network, ids, head), p)
    ensures BtcBatch(db, network, ids, head).Some?
    ensures var d := AfterBtcBatch(db, network, ids, head).proofs[p]; d in BtcBatch(db, network, ids, head).value && d.proofId == p
  {
    InsertProofsMembers(db.proofs, BtcBatch(db, network, ids, head).value, p);
  }

  /** A batch that gives a proof its first BTC branch nests an anchor state of its transaction. */
  lemma FirstBranchNests(env: Env, w: World, db: Db, head: AnchorBtcHeadState, height: int, p: string, a: AggState, c: CalStateObject)
    requires BatchReady(env, w, db, head, height) && Anchored(db, p, a, c) && Unconfirmed(db, p)
    ensures var after := AfterBtcBatch(db, env.network, ProofIdsOfTx(db, head.btcTxId), head);
            !Unconfirmed(after, p) ==> head.btcTxId in db.txByTx && NestsAnchor(db, env.network, head, after.proofs[p], c.calId)
  {
    var ids := ProofIdsOfTx(db, head.btcTxId);
    if !Unconfirmed(AfterBtcBatch(db, env.network, ids, head), p) {
      NewIsOfBatch(db, env.network, ids, head, p);
      BatchNests(env, w, db, head, height, AfterBtcBatch(db, env.network, ids, head).proofs[p], a, c);
    }
  }

  /** A confirmation that gives a proof its first BTC branch nests the chain branch of the BTC-A
      of its own transaction. */
  lemma FirstBranchIsOwn(env: Env, log: seq<LogEntry>, w: World, ranges: set<Range>, db: Db, tx: TxID, block: Option<BlockDetails>,
                         btccHash: Bytes, p: string, a: AggState, c: CalStateObject) returns (m: BtcTxMsg)
    requires Kept(env, log, w, ranges, db) && HonestBlock(w, tx, block) && Anchored(db, p, a, c)
    requires Unconfirmed(db, p) && !Unconfirmed(AfterConfirm(env, db, tx, block, btccHash), p)
    ensures Announced(log, m) && m.btcTxId == tx.txId
    ensures Nests(env, db, c.calId, AfterConfirm(env, db, tx, block, btccHash).proofs[p], m, block, tx.blockHeight, btccHash)
  {
    HeaderProofExists(env.h, block, tx);
    var head := ConfirmIsBatch(env, log, w, ranges, db, tx, block, btccHash);
    FirstBranchNests(env, w, db, head, tx.blockHeight, p, a, c);
    m := MonitorOf(env, log, w, ranges, db, tx.txId);
    HeadOfTx(env, block, tx, TxID(m.btcTxId, tx.blockHeight, ""), btccHash);
    AnchorNests(env.network, db, head, AfterConfirm(env, db, tx, block, btccHash).proofs[p], c.calId, m);
  }

  // ---- the upgrade ---------------------------------------------------------

  /** The branch an upgrade of a calendar transaction makes. */
  function UpgradedBranch(env: Env, log: seq<LogEntry>, txid: string, block: Option<BlockDetails>, height: int, btccHash: Bytes): Option<Branch>
  {
    var doc := UpgradedProof(env, log, txid, block, height, btccHash);
    if doc.None? then None else Some(doc.value.branches[0])
  }

  /** ... is the chain branch of the BTC-A found for it, if the recomputed root is the announced
      one. */
  lemma UpgradeIsChain(env: Env, log: seq<LogEntry>, txid: string, block: Option<BlockDetails>, height: int, btccHash: Bytes)
    ensures BtcaForCalTx(log, txid).None? ==> UpgradedBranch(env, log, txid, block, height, btccHash) == None
    ensures BtcaForCalTx(log, txid).Some? ==>
              var m := BtcaForCalTx(log, txid).value;
              var agg := TreeFromCalRange(env, log, m.beginCalTxInt, m.endCalTxInt);
              UpgradedBranch(env, log, txid, block, height, btccHash)
              == if agg.None? || agg.value.anchorBtcAggRoot != m.anchorBtcAggRoot then None
                 else ChainOf(env, AnchorStateOf(agg.value, txid), m, block, height, btccHash)
  {
  }

  /** BTC-As as honest leaders broadcast them: a Bitcoin transaction is announced by one message,
      under its ID as Bitcoin displays it. */
  ghost predicate HonestBtcas(env: Env, w: World, log: seq<LogEntry>)
  {
    OneBtcaPerTx(log) && forall e :: e in log && IsBtca(e) ==> HonestBtca(env, w, e.tx.msg.value)
  }

  ghost predicate HonestBtca(env: Env, w: World, m: BtcTxMsg)
  {
    GoodBtca(env, w, m) && m.btcTxId == Displayed(TxLeaf(m.btcTxId))
  }

  /** The text of a transaction ID: the bytes in reverse. */
  function Displayed(leaf: Bytes): string
  {
    HexEncode(Reversed(leaf))
  }

  /** The lookup finds a BTC-A of the given transaction. */
  predicate FindsTx(log: seq<LogEntry>, txid: string, btcTxId: string)
  {
    BtcaForCalTx(log, txid).Some? && BtcaForCalTx(log, txid).value.btcTxId == btcTxId
  }

  /** Whatever block and BTC-C an upgrade is given, it makes another branch. */
  ghost predicate NeverUpgraded(env: Env, log: seq<LogEntry>, txid: string, branch: Option<Branch>)
  {
    forall block, height, btccHash :: branch != UpgradedBranch(env, log, txid, block, height, btccHash)
  }

  /** A stored branch is what ConstructProof makes for the block and BTC-C it was made of exactly
      when the lookup finds its transaction; when it finds another or none, ConstructProof makes
      that branch for no block and BTC-C. */
  ghost predicate UpgradedExactly(env: Env, log: seq<LogEntry>, txid: string, branch: Option<Branch>, btcTxId: string,
                                  block: Option<BlockDetails>, height: int, btccHash: Bytes)
  {
    && (branch == UpgradedBranch(env, log, txid, block, height, btccHash) <==> FindsTx(log, txid, btcTxId))
    && (!FindsTx(log, txid, btcTxId) ==> NeverUpgraded(env, log, txid, branch))
  }

  /** A stored anchor state is the one that ConstructProof recomputes from the range of the BTC-A
      it finds, and the recomputed root is the one its aggregation ID stands for. */
  lemma StoredIsRecomputed(env: Env, log: seq<LogEntry>, w: World, ranges: set<Range>, db: Db, txid: string, b: AnchorBtcAggState)
    requires Kept(env, log, w, ranges, db) && KnownBtcas(log, ranges) && BtcaForCalTx(log, txid).Some? && b in At(db.anchorByCal, txid)
    ensures var m := BtcaForCalTx(log, txid).value;
            var agg := TreeFromCalRange(env, log, m.beginCalTxInt, m.endCalTxInt);
            && agg.Some? && agg.value.anchorBtcAggId == b.anchorBtcAggId && AnchorStateOf(agg.value, txid) == b.anchorBtcAggState
            && agg.value.anchorBtcAggRoot == HexEncode(w.btcRoot(b.anchorBtcAggId))
  {
    StoredFromFound(env, log, w, ranges, db, txid, b);
    var m := BtcaForCalTx(log, txid).value;
    var r := Range(m.beginCalTxInt, m.endCalTxInt);
    StateOfRange(env, log, w, r, b);
    RootOfRange(env, log, w, r, b);
  }

  lemma StateOfRange(env: Env, log: seq<LogEntry>, w: World, r: Range, b: AnchorBtcAggState)
    requires GoodLog(w, log) && FromRange(env, log, r, b)
    ensures AnchorStateOf(TreeFromCalRange(env, log, r.begin, r.end).value, b.calId) == b.anchorBtcAggState
  {
    var agg := TreeFromCalRange(env, log, r.begin, r.end).value;
    AnchorLookupFinds(BtcaStates(agg), b.calId);
    OneStatePerCal(env, log, w, r, b, AnchorLookup(BtcaStates(agg))[b.calId]);
  }

  lemma RootOfRange(env: Env, log: seq<LogEntry>, w: World, r: Range, b: AnchorBtcAggState)
    requires GoodLog(w, log) && FromRange(env, log, r, b) && AnchorRowSound(env.h, w, b)
    ensures var agg := TreeFromCalRange(env, log, r.begin, r.end).value;
            agg.anchorBtcAggId == b.anchorBtcAggId && agg.anchorBtcAggRoot == HexEncode(w.btcRoot(b.anchorBtcAggId))
  {
    var e, leaf := AnchorEntry(env, log, r, b);
    HexRoundTrip(MerkleRoot(env.h, Promote, Roots(CalLeaves(CalRange(log, r.begin, r.end)))));
  }

  /** The text of a root tells which aggregation it is of, and so which BTC-A root that is. */
  lemma RootNamesAggregation(env: Env, w: World, txs: seq<LogEntry>, agg: BtcAgg, m: BtcTxMsg)
    requires BtcAggregate(env.h, env.uuid, txs) == Some(agg) && agg.anchorBtcAggRoot == m.anchorBtcAggRoot && GoodBtca(env, w, m)
    ensures agg.anchorBtcAggId == m.anchorBtcAggId
  {
    HexEncodeInjective(MerkleRoot(env.h, Promote, Roots(CalLeaves(txs))), HexDecode(m.anchorBtcAggRoot).bytes);
  }

  /** An empty end leaves no operation. */
  function Ends(l: string, r: string): seq<JsonOp>
  {
    (if l != "" then [Sibling(l, "")] else []) + (if r != "" then [Sibling("", r)] else []) + [Operation(SHA_TWICE)]
  }

  lemma EndsConvert(l: string, r: string)
    ensures Convert(TxOps(l, r)) == Ends(l, r)
  {
    var a, b, c := LeftItem(l), RightItem(r), OpItem(SHA_TWICE);
    assert [c][1..] == [] && [b, c][1..] == [c] && [a, b, c][1..] == [b, c];
    assert Convert([c]) == ConvertItem(c) + Convert([]);
    assert Convert([b, c]) == ConvertItem(b) + Convert([c]);
  }

  lemma ChainBranchOps(agg: OpsState, l: string, r: string, head: AnchorOpsState, kind: string)
    ensures ChainBranch(agg, OpsState(TxOps(l, r)), head, kind).ops
            == Convert(agg.ops) + (Ends(l, r) + (Convert(head.ops) + [Anchors(kind, head.anchor)]))
  {
    ConvertThree(agg.ops, TxOps(l, r), head.ops);
    EndsConvert(l, r);
  }

  lemma SameFront<T>(front: seq<T>, a: seq<T>, b: seq<T>)
    requires front + a == front + b
    ensures a == b
  {
    assert a == (front + a)[|front|..] && b == (front + b)[|front|..];
  }

  lemma EndsShown(l: string, r: string, rest: seq<JsonOp>, l': string, r': string, rest': seq<JsonOp>)
    requires Ends(l, r) + rest == Ends(l', r') + rest'
    ensures l == l' && r == r'
  {
    var ops, ops' := Ends(l, r) + rest, Ends(l', r') + rest';
    assert ops[0] == ops'[0];
    if l != "" {
      assert ops[1] == ops'[1];
    }
  }

  /** Chain branches from one anchor state show which ends of a transaction they hold. */
  lemma BranchShowsEnds(agg: OpsState, l: string, r: string, head: AnchorOpsState, l': string, r': string, head': AnchorOpsState, kind: string)
    requires ChainBranch(agg, OpsState(TxOps(l, r)), head, kind) == ChainBranch(agg, OpsState(TxOps(l', r')), head', kind)
    ensures l == l' && r == r'
  {
    var rest, rest' := Convert(head.ops) + [Anchors(kind, head.anchor)], Convert(head'.ops) + [Anchors(kind, head'.anchor)];
    ChainBranchOps(agg, l, r, head, kind);
    ChainBranchOps(agg, l', r', head', kind);
    SameFront(Convert(agg.ops), Ends(l, r) + rest, Ends(l', r') + rest');
    EndsShown(l, r, rest, l', r', rest');
  }

  /** A chain branch and the ends of the transaction in it. */
  lemma ChainHoldsEnds(network: string, state: Stored<OpsState>, m: BtcTxMsg, head: Option<AnchorBtcHeadState>)
    returns (l: string, r: string, top: AnchorOpsState)
    requires ChainTo(network, state, m, head).Some?
    ensures state.Text? && m.btcTxBody == l + m.anchorBtcAggRoot + r
    ensures ChainTo(network, state, m, head).value == ChainBranch(state.value, OpsState(TxOps(l, r)), top, SetProofType(network, "btc"))
  {
    var at := IndexOf(m.btcTxBody, m.anchorBtcAggRoot);
    l, r, top := m.btcTxBody[..at], m.btcTxBody[at + |m.anchorBtcAggRoot|..], head.value.btcHeadState.value;
    CutOut(m.btcTxBody, m.anchorBtcAggRoot, at);
  }

  /** Two BTC-As of one root that give one anchor state the same chain branch, whatever the
      heads, hold the same transaction. */
  lemma BranchShowsBody(network: string, state: Stored<OpsState>, m: BtcTxMsg, head: Option<AnchorBtcHeadState>,
                        m': BtcTxMsg, head': Option<AnchorBtcHeadState>)
    requires m.anchorBtcAggRoot == m'.anchorBtcAggRoot && ChainTo(network, state, m, head).Some?
    requires ChainTo(network, state, m, head) == ChainTo(network, state, m', head')
    ensures m.btcTxBody == m'.btcTxBody
  {
    var l, r, top := ChainHoldsEnds(network, state, m, head);
    var l', r', top' := ChainHoldsEnds(network, state, m', head');
    BranchShowsEnds(state.value, l, r, top, l', r', top', SetProofType(network, "btc"));
  }

  /** A proof that nests the chain branch of a BTC-A nests an upgrade exactly when the lookup
      finds the BTC-A's transaction. */
  lemma NestedExactly(env: Env, log: seq<LogEntry>, w: World, ranges: set<Range>, db: Db, txid: string, d: ProofDoc, m: BtcTxMsg,
                      block: Option<BlockDetails>, height: int, btccHash: Bytes)
    requires Kept(env, log, w, ranges, db) && KnownBtcas(log, ranges) && HonestBtcas(env, w, log)
    requires Announced(log, m) && Nests(env, db, txid, d, m, block, height, btccHash)
    ensures UpgradedExactly(env, log, txid, NestedBranch(d), m.btcTxId, block, height, btccHash)
  {
    var b :| b in At(db.anchorByCal, txid) && b.anchorBtcAggId == m.anchorBtcAggId
             && NestedBranch(d) == ChainOf(env, b.anchorBtcAggState, m, block, height, btccHash);
    UpgradeIsChain(env, log, txid, block, height, btccHash);
    if BtcaForCalTx(log, txid).Some? {
      StoredIsRecomputed(env, log, w, ranges, db, txid, b);
      LookupFindsLaterCover(log, txid);
    }
    if !FindsTx(log, txid, m.btcTxId) {
      forall block', height', btccHash' ensures NestedBranch(d) != UpgradedBranch(env, log, txid, block', height', btccHash') {
        OtherIsNever(env, log, w, ranges, db, txid, b, m, block, height, btccHash, block', height', btccHash');
      }
    }
  }

  lemma OtherIsNever(env: Env, log: seq<LogEntry>, w: World, ranges: set<Range>, db: Db, txid: string, b: AnchorBtcAggState, m: BtcTxMsg,
                     block: Option<BlockDetails>, height: int, btccHash: Bytes, block': Option<BlockDetails>, height': int, btccHash': Bytes)
    requires Kept(env, log, w, ranges, db) && KnownBtcas(log, ranges) && HonestBtcas(env, w, log) && Announced(log, m)
    requires b in At(db.anchorByCal, txid) && b.anchorBtcAggId == m.anchorBtcAggId && !FindsTx(log, txid, m.btcTxId)
    ensures var branch := ChainOf(env, b.anchorBtcAggState, m, block, height, btccHash);
            branch.Some? ==> branch != UpgradedBranch(env, log, txid, block', height', btccHash')
  {
    UpgradeIsChain(env, log, txid, block', height', btccHash');
    var branch := ChainOf(env, b.anchorBtcAggState, m, block, height, btccHash);
    if branch.Some? && branch == UpgradedBranch(env, log, txid, block', height', btccHash') {
      var found := BtcaForCalTx(log, txid).value;
      StoredIsRecomputed(env, log, w, ranges, db, txid, b);
      LookupFindsLaterCover(log, txid);
      RootNamesAggregation(env, w, CalRange(log, found.beginCalTxInt, found.endCalTxInt),
                           TreeFromCalRange(env, log, found.beginCalTxInt, found.endCalTxInt).value, found);
      BranchShowsBody(env.network, b.anchorBtcAggState, m, HeadFromBlock(env, block, TxID(m.btcTxId, height, ""), btccHash),
                      found, HeadFromBlock(env, block', TxID(found.btcTxId, height', ""), btccHash'));
    }
  }

  /** What the confirmation of a BTC transaction leaves in a proof found under it that had no BTC
      branch is the branch that ConstructProof makes for the same block and BTC-C if and only
      if the BTC-A found for the calendar transaction is of that BTC transaction. If it is not,
      the two differ whatever block and BTC-C ConstructProof is given. */
  lemma UpgradeEqualsStored(env: Env, log: seq<LogEntry>, w: World, ranges: set<Range>, db: Db, tx: TxID, block: Option<BlockDetails>,
                            btccHash: Bytes, p: string, a: AggState, c: CalStateObject)
    requires Kept(env, log, w, ranges, db) && KnownBtcas(log, ranges) && HonestBtcas(env, w, log)
    requires HonestBlock(w, tx, block) && HoldsTx(env.h, block, tx.txId) && tx.txId in db.txByTx && tx.txId != ""
    requires p in ProofIdsOfTx(db, tx.txId) && Anchored(db, p, a, c) && Unconfirmed(db, p)
    ensures var after := AfterConfirm(env, db, tx, block, btccHash);
            && p in after.proofs && NestedBranch(after.proofs[p]).Some?
            && UpgradedExactly(env, log, c.calId, NestedBranch(after.proofs[p]), tx.txId, block, tx.blockHeight, btccHash)
  {
    ConfirmCompletes(env, log, w, ranges, db, tx, block, btccHash, p);
    var m := FirstBranchIsOwn(env, log, w, ranges, db, tx, block, btccHash, p, a, c);
    NestedExactly(env, log, w, ranges, db, c.calId, AfterConfirm(env, db, tx, block, btccHash).proofs[p], m, block, tx.blockHeight, btccHash);
  }

  /** Once the BTC-A found for a calendar transaction is monitored and gives an upgrade, every
      proof under the calendar transaction is found under the BTC transaction. */
  lemma UpgradeFindsProof(env: Env, log: seq<LogEntry>, w: World, ranges: set<Range>, db: Db, txid: string, block: Option<BlockDetails>,
                          height: int, btccHash: Bytes, p: string, a: AggState, c: CalStateObject)
    requires Kept(env, log, w, ranges, db) && OneBtcaPerTx(log) && UpgradedBranch(env, log, txid, block, height, btccHash).Some?
    requires BtcaForCalTx(log, txid).value.btcTxId in db.txByTx && Anchored(db, p, a, c) && c.calId == txid
    ensures p in ProofIdsOfTx(db, BtcaForCalTx(log, txid).value.btcTxId)
  {
    var found := BtcaForCalTx(log, txid).value;
    UpgradeIsChain(env, log, txid, block, height, btccHash);
    LookupFindsLaterCover(log, txid);
    var b := RecomputedIsStored(env, log, w, ranges, db, txid, found);
    FoundUnderTx(db, found.btcTxId, p, a, c, b);
  }

  /** The anchor state that a monitored BTC-A's tree gives a calendar transaction is stored. */
  lemma RecomputedIsStored(env: Env, log: seq<LogEntry>, w: World, ranges: set<Range>, db: Db, txid: string, m: BtcTxMsg) returns (b: AnchorBtcAggState)
    requires TxsMonitored(env, log, w, ranges, db) && OneBtcaPerTx(log) && Announced(log, m) && m.btcTxId in db.txByTx
    requires var agg := TreeFromCalRange(env, log, m.beginCalTxInt, m.endCalTxInt);
             agg.Some? && agg.value.anchorBtcAggRoot == m.anchorBtcAggRoot && AnchorStateOf(agg.value, txid).Text?
    ensures b in At(db.anchorByCal, txid) && b.calId == txid && b.anchorBtcAggId == AggIdOfTx(db, m.btcTxId)
  {
    var agg := TreeFromCalRange(env, log, m.beginCalTxInt, m.endCalTxInt).value;
    var monitored := MonitorOf(env, log, w, ranges, db, m.btcTxId);
    assert monitored == m;
    RootNamesAggregation(env, w, CalRange(log, m.beginCalTxInt, m.endCalTxInt), agg, m);
    AnchorLookupFinds(BtcaStates(agg), txid);
    b := AnchorLookup(BtcaStates(agg))[txid];
  }
}
