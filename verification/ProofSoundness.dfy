/** AnchorCalendar, BeginTxMonitor and ConfirmAnchor as steps on the proof store, what its
    records mean, and that the segments a batch joins make proofs. */
module ProofSoundness {
  import opened ByteStrings
  import opened Merkle
  import opened ProofOps
  import opened ChainTypes
  import opened KeyValue
  import opened Store
  import opened Calendar
  import opened BitcoinBlock
  import opened TxIndex
  import opened ProofAssembly

  // ---- the steps -----------------------------------------------------------

  datatype Event =
    | CalendarStep(aggs: seq<Aggregation>, txHash: Option<Bytes>)      // None: the broadcast failed
    | MonitorStep(msg: BtcTxMsg)
    | ConfirmStep(tx: TxID, block: Option<BlockDetails>, btccHash: Bytes)

  function AllRows(aggs: seq<Aggregation>): seq<AggState>
  {
    if aggs == [] then [] else AllRows(aggs[..|aggs| - 1]) + aggs[|aggs| - 1].aggStates
  }

  function AfterCalendar(env: Env, db: Db, aggs: seq<Aggregation>, txHash: Option<Bytes>): Db
  {
    var rows := AllRows(aggs);
    var stored := InsertAggs(db, rows);
    var cal := CalendarTree(env.h, aggs);
    if cal.calRoot == "" || txHash.None? then stored
    else
      var states := CalStates(env.coreUri, txHash.value, cal);
      var withCals := InsertCals(stored, states);
      withCals.(proofs := InsertProofs(withCals.proofs, CalDocs(rows, states, env.network)))
  }

  /** The part of BeginTxMonitor that writes the store. */
  function AfterMonitor(env: Env, log: seq<LogEntry>, db: Db, msg: BtcTxMsg): Db
  {
    var tx := GenerateAnchorBtcTxState(msg);
    if tx.None? then db else AfterRecompute(env, log, InsertTx(db, tx.value), msg)
  }

  /** The anchor states are stored only if the node's own tree has the announced root. */
  function AfterRecompute(env: Env, log: seq<LogEntry>, db: Db, msg: BtcTxMsg): Db
  {
    var agg := TreeFromCalRange(env, log, msg.beginCalTxInt, msg.endCalTxInt);
    if agg.None? || agg.value.anchorBtcAggRoot != msg.anchorBtcAggRoot then db else InsertAnchors(db, BtcaStates(agg.value))
  }

  function AfterConfirm(env: Env, db: Db, tx: TxID, block: Option<BlockDetails>, btccHash: Bytes): Db
  {
    var mon := HeaderProof(env.h, block, tx);
    if mon.None? then db
    else AfterBtcBatch(db, env.network, ProofIdsOfTx(db, mon.value.btcTxId), HeadState(env.lower, env.coreUri, btccHash, mon.value, env.decimal))
  }

  function AfterEvent(env: Env, log: seq<LogEntry>, db: Db, e: Event): Db
  {
    match e
    case CalendarStep(aggs, txHash) => AfterCalendar(env, db, aggs, txHash)
    case MonitorStep(msg) => AfterMonitor(env, log, db, msg)
    case ConfirmStep(tx, block, btccHash) => AfterConfirm(env, db, tx, block, btccHash)
  }

  function AfterEvents(env: Env, log: seq<LogEntry>, db: Db, events: seq<Event>): Db
  {
    if events == [] then db
    else AfterEvent(env, log, AfterEvents(env, log, db, events[..|events| - 1]), events[|events| - 1])
  }

  class ProofService {
    const store: ChainpointDb
    const env: Env

    constructor (store: ChainpointDb, env: Env)
      ensures this.store == store && this.env == env
    {
      this.store, this.env := store, env;
    }

    /** AnchorCalendar, after the aggregations have been taken from the aggregator. */
    method AnchorCalendar(aggs: seq<Aggregation>, broadcast: Option<Bytes>)
      modifies store
      ensures store.db == AfterCalendar(env, old(store.db), aggs, broadcast)
    {
      var aggStates: seq<AggState> := [];
      for i := 0 to |aggs|
        invariant aggStates == AllRows(aggs[..i])
        invariant store.db == InsertAggs(old(store.db), AllRows(aggs[..i]))
      {
        assert aggs[..i + 1][..i] == aggs[..i];
        InsertAggsConcat(old(store.db), AllRows(aggs[..i]), aggs[i].aggStates);
        aggStates := aggStates + aggs[i].aggStates;
        store.BulkInsertAggState(aggs[i].aggStates);
      }
      assert aggs[..|aggs|] == aggs;
      var calAgg := GenerateCalendarTree(env.h, aggs);
      if calAgg.calRoot != "" && broadcast.Some? {
        var calStates := CreateCalStateMessage(env.coreUri, broadcast.value, calAgg);
        store.BulkInsertCalState(calStates);
        GenerateCalBatch(store, env.network, aggStates, calStates);
      }
    }

    method BeginTxMonitor(log: seq<LogEntry>, msg: BtcTxMsg)
      requires Increasing(log)
      modifies store
      ensures store.db == AfterMonitor(env, log, old(store.db), msg)
    {
      var stateObj := GenerateAnchorBtcTxState(msg);
      if stateObj.None? {
        return;
      }
      store.InsertBtcTxState(stateObj.value);
      var btcAgg := GetTreeFromCalRange(env, log, msg.beginCalTxInt, msg.endCalTxInt);
      if btcAgg.None? || btcAgg.value.anchorBtcAggRoot != msg.anchorBtcAggRoot {
        return;
      }
      var states := PrepareBtcaStateData(btcAgg.value);
      store.BulkInsertBtcAggState(states);
    }

    /** ConfirmAnchor, once the header proof is made and the BTC-C is found. */
    method ConfirmAnchor(tx: TxID, block: Option<BlockDetails>, btccHash: Bytes)
      modifies store
      ensures store.db == AfterConfirm(env, old(store.db), tx, block, btccHash)
    {
      var btcMonObj := GenerateBtcHeaderProof(env.h, block, tx);
      if btcMonObj.None? {
        return;
      }
      var headStateObj := GenerateHeadStateObject(env.lower, env.coreUri, btccHash, btcMonObj.value, env.decimal);
      var proofIds := store.GetProofIdsByBtcTxId(btcMonObj.value.btcTxId);
      var _ := GenerateBtcBatch(store, env.network, proofIds, headStateObj);
    }
  }

  lemma {:induction false} InsertAggsConcat(db: Db, a: seq<AggState>, b: seq<AggState>)
    ensures InsertAggs(db, a + b) == InsertAggs(InsertAggs(db, a), b)
  {
    if b == [] {
      assert a + b == a;
    } else {
      assert (a + b)[..|a + b| - 1] == a + b[..|b| - 1];
      InsertAggsConcat(db, a, b[..|b| - 1]);
    }
  }

  // ---- what the records mean -----------------------------------------------

  /** What each ID stands for: the root of an aggregation, the root a calendar transaction
      carries, the root of a BTC aggregation, the Merkle root of the block at a height. */
  datatype World = World(aggRoot: string -> Bytes, calRoot: string -> Bytes, btcRoot: string -> Bytes, blockRoot: int -> Bytes)

  ghost predicate AggRowSound(h: Hash, w: World, a: AggState)
  {
    HexDecode(a.hash).ok && a.aggState.Text? && Leads(h, a.aggState.value.ops, HexDecode(a.hash).bytes, w.aggRoot(a.aggId))
  }

  ghost predicate CalRowSound(h: Hash, w: World, c: CalStateObject)
  {
    && c.calState.Text? && c.calState.value.anchor.anchorId == c.calId
    && Leads(h, c.calState.value.ops, w.aggRoot(c.aggId), w.calRoot(c.calId))
  }

  ghost predicate AnchorRowSound(h: Hash, w: World, b: AnchorBtcAggState)
  {
    b.anchorBtcAggState.Text? && Leads(h, b.anchorBtcAggState.value.ops, w.calRoot(b.calId), w.btcRoot(b.anchorBtcAggId))
  }

  ghost predicate TxRowSound(h: Hash, w: World, t: AnchorBtcTxState)
  {
    t.btcTxState.Text? && Leads(h, t.btcTxState.value.ops, w.btcRoot(t.anchorBtcAggId), TxLeaf(t.btcTxId))
  }

  ghost predicate HeadSound(h: Hash, w: World, env: Env, head: AnchorBtcHeadState, height: int)
  {
    && head.btcHeadState.Text? && head.btcHeadState.value.anchor.anchorId == env.decimal(height)
    && Leads(h, head.btcHeadState.value.ops, TxLeaf(head.btcTxId), w.blockRoot(height))
  }

  ghost predicate RecordsSound(h: Hash, w: World, db: Db)
  {
    && (forall p, a :: a in At(db.aggByProof, p) ==> AggRowSound(h, w, a))
    && (forall k, c :: c in At(db.calByAgg, k) ==> CalRowSound(h, w, c))
    && (forall k, b :: b in At(db.anchorByCal, k) ==> AnchorRowSound(h, w, b))
    && (forall t :: t in db.txByTx ==> TxRowSound(h, w, db.txByTx[t]))
  }

  /** One aggregation per proof ID and one calendar transaction per aggregation. */
  ghost predicate OneWalk(db: Db)
  {
    && (forall p, a, b :: a in At(db.aggByProof, p) && b in At(db.aggByProof, p) ==> a.aggId == b.aggId)
    && (forall k, c, d :: c in At(db.calByAgg, k) && d in At(db.calByAgg, k) ==> c.calId == d.calId)
  }

  /** One BTC aggregation per calendar transaction: whichever anchor state the last-wins map
      selects, it leads to the same root. */
  ghost predicate OneAnchor(db: Db)
  {
    forall k, a, b :: a in At(db.anchorByCal, k) && b in At(db.anchorByCal, k) ==> a.anchorBtcAggId == b.anchorBtcAggId
  }

  function CalClaim(env: Env, w: World, calId: string): Claim
  {
    Claim(SetProofType(env.network, "cal"), calId, w.calRoot(calId))
  }

  function BtcClaim(env: Env, w: World, height: int): Claim
  {
    Claim(SetProofType(env.network, "btc"), env.decimal(height), w.blockRoot(height))
  }

  /** A document that verifies from its hash, claims the root of a calendar transaction and,
      once it has a BTC branch, the Merkle root of a block, and claims nothing else. */
  ghost predicate Claims(env: Env, w: World, doc: ProofDoc, calId: string)
  {
    var hash := HexDecode(doc.hash).bytes;
    || (!MentionsBtc(doc.branches) && Verify(env.h, doc) == Reached(hash, [CalClaim(env, w, calId)]))
    || (MentionsBtc(doc.branches)
        && exists height :: Verify(env.h, doc) == Reached(hash, [CalClaim(env, w, calId), BtcClaim(env, w, height)]))
  }

  /** In words: on the test network claims are of the kinds "tcal" and "tbtc", elsewhere "cal" and
      "btc". */
  lemma ClaimKinds(env: Env, w: World, doc: ProofDoc, calId: string)
    requires Claims(env, w, doc, calId)
    ensures var claims, test := Verify(env.h, doc).claims, env.network == "testnet";
            && 1 <= |claims| <= 2 && claims[0].anchorId == calId && claims[0].kind == (if test then "tcal" else "cal")
            && (|claims| == 2 <==> MentionsBtc(doc.branches)) && (|claims| == 2 ==> claims[1].kind == if test then "tbtc" else "btc")
  {
  }

  /** A row stored under a proof ID, and a calendar state of its aggregation. */
  ghost predicate Anchored(db: Db, p: string, a: AggState, c: CalStateObject)
  {
    a in At(db.aggByProof, p) && c in At(db.calByAgg, a.aggId)
  }

  /** The document is that of its proof ID: it carries a hash submitted under the ID and claims
      the calendar transaction that the hash was aggregated into. */
  ghost predicate DocSound(env: Env, w: World, db: Db, p: string, doc: ProofDoc)
  {
    doc.proofId == p && exists a, c :: Anchored(db, p, a, c) && doc.hash == a.hash && Claims(env, w, doc, c.calId)
  }

  ghost predicate ProofsSound(env: Env, w: World, db: Db)
  {
    forall p :: p in db.proofs ==> DocSound(env, w, db, p, db.proofs[p])
  }

  /** Every hash that reached the calendar has a proof. */
  ghost predicate Written(db: Db)
  {
    forall p, a, c :: Anchored(db, p, a, c) ==> p in db.proofs
  }

  // ---- a proof from sound segments -----------------------------------------

  lemma CalDocSound(env: Env, w: World, row: AggState, c: CalStateObject)
    requires AggRowSound(env.h, w, row) && CalRowSound(env.h, w, c) && row.aggId == c.aggId
    ensures Claims(env, w, CalDoc(row, c.calState, env.network), c.calId)
  {
    var doc := CalDoc(row, c.calState, env.network);
    var x := HexDecode(row.hash).bytes;
    var kind := SetProofType(env.network, "cal");
    CalendarBranchVerifies(env.h, row.aggState.value, c.calState.value, kind, x, w.aggRoot(row.aggId), w.calRoot(c.calId));
    var b := CalendarBranch(row.aggState.value, c.calState.value, kind);
    assert doc.branches == [b];
    SingleBranch(env.h, b, x);
    assert VerifyBranches(env.h, [], w.calRoot(c.calId)) == Reached(w.calRoot(c.calId), []);
    assert [CalClaim(env, w, c.calId)] + [] == [CalClaim(env, w, c.calId)];
    assert Verify(env.h, doc) == Reached(x, [CalClaim(env, w, c.calId)]);
  }

  /** Segments that fit together make a proof of the block. */
  lemma BtcDocSound(env: Env, w: World, row: AggState, c: CalStateObject, b: AnchorBtcAggState, tx: AnchorBtcTxState,
                    head: AnchorBtcHeadState, height: int)
    requires AggRowSound(env.h, w, row) && CalRowSound(env.h, w, c) && AnchorRowSound(env.h, w, b) && TxRowSound(env.h, w, tx)
    requires HeadSound(env.h, w, env, head, height)
    requires row.aggId == c.aggId && c.calId == b.calId && b.anchorBtcAggId == tx.anchorBtcAggId && tx.btcTxId == head.btcTxId
    ensures var doc := BtcDoc(row, c.calState, b, tx, head, env.network);
            && MentionsBtc(doc.branches)
            && Verify(env.h, doc) == Reached(HexDecode(row.hash).bytes, [CalClaim(env, w, c.calId), BtcClaim(env, w, height)])
  {
    var doc := BtcDoc(row, c.calState, b, tx, head, env.network);
    NestedProofVerifies(env.h, doc, row.aggState.value, c.calState.value, SetProofType(env.network, "cal"),
                        b.anchorBtcAggState.value, tx.btcTxState.value, head.btcHeadState.value, SetProofType(env.network, "btc"),
                        w.aggRoot(row.aggId), w.calRoot(c.calId), w.btcRoot(tx.anchorBtcAggId), TxLeaf(tx.btcTxId), w.blockRoot(height));
    assert doc.branches[0].branches[0].name == BTC_BRANCH;
    assert MentionsBtc(doc.branches[0].branches);
  }

  // ---- the join ------------------------------------------------------------

  /** For a proof found under a BTC transaction the join selects an anchor state of that
      transaction's aggregation. */
  lemma JoinSelects(db: Db, btcTxId: string, row: AggState)
    requires DoubleIndexed(db) && OneWalk(db) && OneAnchor(db)
    requires row in JoinRows(db, ProofIdsOfTx(db, btcTxId)).rows
    ensures var j := JoinRows(db, ProofIdsOfTx(db, btcTxId));
            && Selected(row, j.cals, j.anchors).Some?
            && CalLookup(j.cals)[row.aggId] in At(db.calByAgg, row.aggId) && CalLookup(j.cals)[row.aggId].aggId == row.aggId
            && Selected(row, j.cals, j.anchors).value in At(db.anchorByCal, CalLookup(j.cals)[row.aggId].calId)
            && Selected(row, j.cals, j.anchors).value.calId == CalLookup(j.cals)[row.aggId].calId
            && Selected(row, j.cals, j.anchors).value.anchorBtcAggId == AggIdOfTx(db, btcTxId)
  {
    var ids := ProofIdsOfTx(db, btcTxId);
    var j := JoinRows(db, ids);
    GatherFinds(db.aggByProof, ids, row);
    var p :| p in ids && row in At(db.aggByProof, p);
    ForwardIsBackward(db, btcTxId, p);
    var a, c, b :| Walk(db, p, a, c, b) && b.anchorBtcAggId == AggIdOfTx(db, btcTxId);
    assert a.aggId == row.aggId;
    JoinedCal(db, ids, row, c);
    var c' := CalLookup(j.cals)[row.aggId];
    JoinedAnchor(db, ids, c', b);
    SelectedIsThere(db, ids, row, c'.calId);
  }

  lemma JoinedCal(db: Db, ids: seq<string>, row: AggState, c: CalStateObject)
    requires DoubleIndexed(db) && OneWalk(db) && row in JoinRows(db, ids).rows && c in At(db.calByAgg, row.aggId)
    ensures var lookup := CalLookup(JoinRows(db, ids).cals);
            && row.aggId in lookup && lookup[row.aggId].aggId == row.aggId && lookup[row.aggId].calId == c.calId
            && lookup[row.aggId] in At(db.calByAgg, row.aggId) && lookup[row.aggId] in JoinRows(db, ids).cals
  {
    var j := JoinRows(db, ids);
    GatherFinds(db.calByAgg, AggIds(j.rows), c);
    RowsUnderKeys(db, "", row, c, AnchorBtcAggState("", "", Unparsable), row.aggId, "", "");
    CalLookupFinds(j.cals, row.aggId);
    var c' := CalLookup(j.cals)[row.aggId];
    GatherFinds(db.calByAgg, AggIds(j.rows), c');
    var k :| k in AggIds(j.rows) && c' in At(db.calByAgg, k);
    RowsUnderKeys(db, "", row, c', AnchorBtcAggState("", "", Unparsable), k, "", "");
  }

  lemma JoinedAnchor(db: Db, ids: seq<string>, c: CalStateObject, b: AnchorBtcAggState)
    requires DoubleIndexed(db) && c in JoinRows(db, ids).cals && b in At(db.anchorByCal, c.calId)
    ensures c.calId in AnchorLookup(JoinRows(db, ids).anchors)
  {
    var j := JoinRows(db, ids);
    GatherFinds(db.anchorByCal, CalIds(j.cals), b);
    AgreeKeys(db.anchorByAgg, db.anchorByCal, AnchorAggIdOf, AnchorCalIdOf, b, "", c.calId);
    AnchorLookupFinds(j.anchors, c.calId);
  }

  /** A batch writes the proofs of its rows, one each and in order, when every row has an
      anchor state selected. */
  lemma {:induction false} BtcDocsAt(rows: seq<AggState>, cals: seq<CalStateObject>, anchors: seq<AnchorBtcAggState>,
                                     tx: AnchorBtcTxState, head: AnchorBtcHeadState, network: string)
    requires forall row :: row in rows ==> Selected(row, cals, anchors).Some?
    ensures var docs := BtcDocs(rows, cals, anchors, tx, head, network);
            && |docs| == |rows|
            && forall i :: 0 <= i < |rows| ==>
                 docs[i] == BtcDoc(rows[i], CalStateOf(CalLookup(cals), rows[i].aggId), Selected(rows[i], cals, anchors).value, tx, head, network)
  {
    if rows != [] {
      var front, last := rows[..|rows| - 1], rows[|rows| - 1];
      assert rows == front + [last] && last in rows && forall row :: row in front ==> row in rows;
      BtcDocsAt(front, cals, anchors, tx, head, network);
      OneMoreDoc(front, cals, anchors, tx, head, network, last);
    }
  }

  /** In general a batch writes the documents of exactly those rows that have an anchor state. */
  lemma {:induction false} BtcDocsMembers(rows: seq<AggState>, cals: seq<CalStateObject>, anchors: seq<AnchorBtcAggState>,
                                          tx: AnchorBtcTxState, head: AnchorBtcHeadState, network: string, d: ProofDoc)
    ensures d in BtcDocs(rows, cals, anchors, tx, head, network) <==>
            exists row :: row in rows && Selected(row, cals, anchors).Some?
              && d == BtcDoc(row, CalStateOf(CalLookup(cals), row.aggId), Selected(row, cals, anchors).value, tx, head, network)
  {
    if rows != [] {
      var front, last := rows[..|rows| - 1], rows[|rows| - 1];
      assert rows == front + [last];
      BtcDocsMembers(front, cals, anchors, tx, head, network, d);
    }
  }

  lemma OneMoreDoc(front: seq<AggState>, cals: seq<CalStateObject>, anchors: seq<AnchorBtcAggState>,
                   tx: AnchorBtcTxState, head: AnchorBtcHeadState, network: string, last: AggState)
    requires Selected(last, cals, anchors).Some?
    ensures BtcDocs(front + [last], cals, anchors, tx, head, network)
            == BtcDocs(front, cals, anchors, tx, head, network)
               + [BtcDoc(last, CalStateOf(CalLookup(cals), last.aggId), Selected(last, cals, anchors).value, tx, head, network)]
  {
    assert (front + [last])[..|front|] == front;
  }

  /** The document of a row leads its hash to the calendar root and on to the block's Merkle
      root, and claims nothing else. */
  ghost predicate BtcDocOf(env: Env, w: World, db: Db, row: AggState, doc: ProofDoc, height: int)
  {
    && doc.proofId == row.proofId && doc.hash == row.hash && MentionsBtc(doc.branches)
    && exists c :: c in At(db.calByAgg, row.aggId)
                   && Verify(env.h, doc) == Reached(HexDecode(row.hash).bytes, [CalClaim(env, w, c.calId), BtcClaim(env, w, height)])
  }

  /** What a batch relies on: the store's records, and the head state it is given. */
  ghost predicate BatchReady(env: Env, w: World, db: Db, head: AnchorBtcHeadState, height: int)
  {
    DoubleIndexed(db) && OneWalk(db) && OneAnchor(db) && RecordsSound(env.h, w, db) && HeadSound(env.h, w, env, head, height)
  }

  lemma RowDocSound(env: Env, w: World, db: Db, head: AnchorBtcHeadState, height: int, row: AggState)
    requires BatchReady(env, w, db, head, height) && head.btcTxId in db.txByTx
    ensures var j := JoinRows(db, ProofIdsOfTx(db, head.btcTxId));
            row in j.rows ==>
              && Selected(row, j.cals, j.anchors).Some?
              && BtcDocOf(env, w, db, row, BtcDoc(row, CalStateOf(CalLookup(j.cals), row.aggId), Selected(row, j.cals, j.anchors).value,
                                                  db.txByTx[head.btcTxId], head, env.network), height)
  {
    var ids := ProofIdsOfTx(db, head.btcTxId);
    var j := JoinRows(db, ids);
    if row in j.rows {
      JoinSelects(db, head.btcTxId, row);
      GatherFinds(db.aggByProof, ids, row);
      BtcDocSound(env, w, row, CalLookup(j.cals)[row.aggId], Selected(row, j.cals, j.anchors).value, db.txByTx[head.btcTxId], head, height);
    }
  }

  /** End-to-end soundness of a batch: for the proofs found under a BTC transaction,
      GenerateBtcBatch writes in order the proof of each aggregation record, under its ID and
      with its hash, and it verifies from that hash to the calendar root and on to the block's
      Merkle root. */
  lemma BatchSound(env: Env, w: World, db: Db, head: AnchorBtcHeadState, height: int)
    requires BatchReady(env, w, db, head, height)
    ensures var batch, rows := BtcBatch(db, env.network, ProofIdsOfTx(db, head.btcTxId), head), JoinRows(db, ProofIdsOfTx(db, head.btcTxId)).rows;
            batch.Some? ==>
              && |batch.value| == |rows|
              && forall i :: 0 <= i < |rows| ==> BtcDocOf(env, w, db, rows[i], batch.value[i], height)
  {
    var j := JoinRows(db, ProofIdsOfTx(db, head.btcTxId));
    if BtcBatch(db, env.network, ProofIdsOfTx(db, head.btcTxId), head).Some? {
      var tx := db.txByTx[head.btcTxId];
      forall row | row in j.rows ensures Selected(row, j.cals, j.anchors).Some? {
        JoinSelects(db, head.btcTxId, row);
      }
      BtcDocsAt(j.rows, j.cals, j.anchors, tx, head, env.network);
      var docs := BtcDocs(j.rows, j.cals, j.anchors, tx, head, env.network);
      forall i | 0 <= i < |j.rows| ensures BtcDocOf(env, w, db, j.rows[i], docs[i], height) {
        RowDocSound(env, w, db, head, height, j.rows[i]);
      }
    }
  }
}
