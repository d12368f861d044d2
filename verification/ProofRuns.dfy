/** Every proof a node ever stores verifies: what every run of the store's steps keeps. */
module ProofRuns {
  import opened ByteStrings
  import opened Merkle
  import opened ProofOps
  import opened ChainTypes
  import opened KeyValue
  import opened Store
  import opened Aggregations
  import opened Calendar
  import opened BitcoinBlock
  import opened TxIndex
  import opened ProofAssembly
  import opened ProofSoundness

  // ---- runs ----------------------------------------------------------------

  /** An aggregation as ProcessAggregation makes it: every row leads its hash to the root. */
  ghost predicate GoodAggregation(h: Hash, agg: Aggregation)
  {
    && HexDecode(agg.aggRoot).ok
    && forall a :: a in agg.aggStates ==>
         && a.aggId == agg.aggId && HexDecode(a.hash).ok && a.aggState.Text?
         && Leads(h, a.aggState.value.ops, HexDecode(a.hash).bytes, HexDecode(agg.aggRoot).bytes)
  }

  lemma ProcessedIsGood(h: Hash, items: seq<HashItem>, drand: string, ulid: string)
    requires items != []
    requires forall i :: 0 <= i < |items| ==>
               && HexDecode(items[i].hash).ok && (drand != "" || |HexDecode(items[i].hash).bytes| == 32)
               && AllReadable(Path(h, Promote, Leaves(h, items, drand), i))
    ensures GoodAggregation(h, Aggregated(h, items, drand, Some(ulid)))
  {
    var agg := Aggregated(h, items, drand, Some(ulid));
    HexRoundTrip(Root(h, Promote, Leaves(h, items, drand)));
    forall a | a in agg.aggStates
      ensures a.aggId == agg.aggId && HexDecode(a.hash).ok && a.aggState.Text?
      ensures Leads(h, a.aggState.value.ops, HexDecode(a.hash).bytes, HexDecode(agg.aggRoot).bytes)
    {
      var i :| 0 <= i < |agg.aggStates| && agg.aggStates[i] == a;
      AggregationSound(h, items, drand, ulid, i);
    }
  }

  /** No two logged transactions share a hash, and calendar transactions carry the roots
      that the world gives them. */
  ghost predicate GoodLog(w: World, log: seq<LogEntry>)
  {
    && Increasing(log)
    && (forall d, e :: d in log && e in log && d.hash == e.hash ==> d == e)
    && (forall e :: e in log && e.tx.Cal? && HexDecode(e.tx.data).ok ==> w.calRoot(HexEncode(e.hash)) == HexDecode(e.tx.data).bytes)
  }

  /** New aggregations: fresh IDs, whose meaning the world fixes. */
  ghost predicate FreshAggregations(env: Env, w: World, db: Db, aggs: seq<Aggregation>)
  {
    && (forall g :: g in aggs ==> GoodAggregation(env.h, g) && w.aggRoot(g.aggId) == HexDecode(g.aggRoot).bytes
                                  && At(db.calByAgg, g.aggId) == [] && At(db.aggByAgg, g.aggId) == [])
    && (forall g, a :: g in aggs && a in g.aggStates ==> At(db.aggByProof, a.proofId) == [])
    && (forall g, k, a, b :: g in aggs && k in aggs && a in g.aggStates && b in k.aggStates && a.proofId == b.proofId ==> g.aggId == k.aggId)
  }

  /** A BTC-A as an honest leader broadcasts it: the root is pushed between two bytes of a
      transaction whose double hash is its ID. */
  ghost predicate GoodBtca(env: Env, w: World, msg: BtcTxMsg)
  {
    var root := HexDecode(msg.anchorBtcAggRoot).bytes;
    && |root| >= 16 && msg.anchorBtcAggRoot == HexEncode(root) && w.btcRoot(msg.anchorBtcAggId) == root
    && msg.anchorBtcAggId == env.uuid(root[..16])
    && HexDecode(msg.btcTxBody).ok && IndexOf(msg.btcTxBody, msg.anchorBtcAggRoot) >= 0
    && IndexOf(msg.btcTxBody, msg.anchorBtcAggRoot) % 2 == 0
    && env.h(env.h(HexDecode(msg.btcTxBody).bytes)) == TxLeaf(msg.btcTxId)
  }

  /** The block LND answers with is the one whose Merkle root the world knows. */
  ghost predicate HonestBlock(w: World, tx: TxID, block: Option<BlockDetails>)
  {
    block.Some? ==> block.value.merkleRoot == w.blockRoot(tx.blockHeight)
  }

  /** The calendar transaction carries the root of the tree. */
  ghost predicate HonestHash(env: Env, w: World, aggs: seq<Aggregation>, txHash: Option<Bytes>)
  {
    txHash.Some? ==> w.calRoot(HexEncode(txHash.value)) == HexDecode(CalendarTree(env.h, aggs).calRoot).bytes
  }

  /** The BTC-A has been delivered. */
  ghost predicate Announced(log: seq<LogEntry>, msg: BtcTxMsg)
  {
    exists e :: e in log && IsBtca(e) && e.tx.msg.value == msg
  }

  /** What the surroundings owe an event. */
  ghost predicate Fair(env: Env, log: seq<LogEntry>, w: World, ranges: set<Range>, db: Db, e: Event)
  {
    match e
    case CalendarStep(aggs, txHash) =>
      FreshAggregations(env, w, db, aggs) && HonestHash(env, w, aggs, txHash)
    case MonitorStep(msg) => GoodBtca(env, w, msg) && Announced(log, msg) && Range(msg.beginCalTxInt, msg.endCalTxInt) in ranges
    case ConfirmStep(tx, block, _) => HonestBlock(w, tx, block)
  }

  ghost predicate FairRun(env: Env, log: seq<LogEntry>, w: World, ranges: set<Range>, events: seq<Event>)
  {
    events == [] || (var front := events[..|events| - 1];
                     FairRun(env, log, w, ranges, front)
                     && Fair(env, log, w, ranges, AfterEvents(env, log, EMPTY, front), events[|events| - 1]))
  }

  /** An anchor state comes out of the tree of a range. */
  ghost predicate FromRange(env: Env, log: seq<LogEntry>, r: Range, b: AnchorBtcAggState)
  {
    var agg := TreeFromCalRange(env, log, r.begin, r.end);
    agg.Some? && b in BtcaStates(agg.value)
  }

  ghost predicate AnchorsFromRanges(env: Env, log: seq<LogEntry>, ranges: set<Range>, db: Db)
  {
    forall k, b :: b in At(db.anchorByCal, k) ==> exists r :: r in ranges && FromRange(env, log, r, b)
  }

  /** The anchor states of a BTC-A are stored if the node's own tree has the announced root. */
  ghost predicate AnchorsIn(env: Env, log: seq<LogEntry>, db: Db, msg: BtcTxMsg)
  {
    var agg := TreeFromCalRange(env, log, msg.beginCalTxInt, msg.endCalTxInt);
    agg.Some? && agg.value.anchorBtcAggRoot == msg.anchorBtcAggRoot ==>
      forall b :: b in BtcaStates(agg.value) ==> b in At(db.anchorByCal, b.calId)
  }

  /** The transaction state is that of a BTC-A that was delivered and monitored. */
  ghost predicate MonitoredBy(env: Env, log: seq<LogEntry>, w: World, ranges: set<Range>, db: Db, t: string, msg: BtcTxMsg)
    requires t in db.txByTx
  {
    && Announced(log, msg) && GoodBtca(env, w, msg) && Range(msg.beginCalTxInt, msg.endCalTxInt) in ranges
    && msg.btcTxId == t && GenerateAnchorBtcTxState(msg) == Some(db.txByTx[t]) && AnchorsIn(env, log, db, msg)
  }

  ghost predicate TxsMonitored(env: Env, log: seq<LogEntry>, w: World, ranges: set<Range>, db: Db)
  {
    forall t :: t in db.txByTx ==> exists msg :: MonitoredBy(env, log, w, ranges, db, t, msg)
  }

  /** What every step keeps, also between two writes of the calendar step. */
  ghost predicate Base(env: Env, log: seq<LogEntry>, w: World, ranges: set<Range>, db: Db)
  {
    && DoubleIndexed(db) && OneWalk(db) && RecordsSound(env.h, w, db)
    && AnchorsFromRanges(env, log, ranges, db) && ProofsSound(env, w, db) && TxsMonitored(env, log, w, ranges, db)
  }

  ghost predicate Inv(env: Env, log: seq<LogEntry>, w: World, ranges: set<Range>, db: Db)
  {
    Base(env, log, w, ranges, db) && Written(db)
  }

  // ---- disjoint ranges justify the join ------------------------------------

  lemma {:induction false} LeafFromEntry(txs: seq<LogEntry>, leaf: CalLeaf)
    requires leaf in CalLeaves(txs)
    ensures exists e :: e in txs && e.tx.Cal? && HexDecode(e.tx.data).ok && leaf == CalLeaf(e.hash, HexDecode(e.tx.data).bytes)
  {
    if leaf !in CalLeafOf(txs[0]) {
      LeafFromEntry(txs[1..], leaf);
      var e :| e in txs[1..] && e.tx.Cal? && HexDecode(e.tx.data).ok && leaf == CalLeaf(e.hash, HexDecode(e.tx.data).bytes);
      assert e in txs;
    } else {
      assert txs[0] in txs;
    }
  }

  /** The calendar transaction of an anchor state lies in the range it comes from. */
  lemma AnchorEntry(env: Env, log: seq<LogEntry>, r: Range, b: AnchorBtcAggState) returns (e: LogEntry, leaf: CalLeaf)
    requires FromRange(env, log, r, b)
    ensures e in log && InRange(e, r.begin, r.end) && HexEncode(e.hash) == b.calId
    ensures HexDecode(e.tx.data).ok && leaf == CalLeaf(e.hash, HexDecode(e.tx.data).bytes)
    ensures b.anchorBtcAggId == TreeFromCalRange(env, log, r.begin, r.end).value.anchorBtcAggId
    ensures b.anchorBtcAggState.Text?
            && Leads(env.h, b.anchorBtcAggState.value.ops, leaf.root,
                     HexDecode(TreeFromCalRange(env, log, r.begin, r.end).value.anchorBtcAggRoot).bytes)
  {
    var txs := CalRange(log, r.begin, r.end);
    var agg := TreeFromCalRange(env, log, r.begin, r.end).value;
    var i :| 0 <= i < |agg.proofData| && BtcaStates(agg)[i] == b;
    BtcAggregateSound(env.h, env.uuid, txs, i);
    leaf := CalLeaves(txs)[i];
    LeafFromEntry(txs, leaf);
    e :| e in txs && e.tx.Cal? && HexDecode(e.tx.data).ok && leaf == CalLeaf(e.hash, HexDecode(e.tx.data).bytes);
    RangeMembers(log, r.begin, r.end, e);
  }

  /** Ranges that are equal or disjoint leave every calendar transaction one aggregation. */
  lemma DisjointRangesJustifyJoin(env: Env, log: seq<LogEntry>, w: World, ranges: set<Range>, db: Db)
    requires GoodLog(w, log) && Disjoint(ranges) && DoubleIndexed(db) && AnchorsFromRanges(env, log, ranges, db)
    ensures OneAnchor(db)
  {
    forall k, a, b | a in At(db.anchorByCal, k) && b in At(db.anchorByCal, k) ensures a.anchorBtcAggId == b.anchorBtcAggId {
      AgreeKeys(db.anchorByAgg, db.anchorByCal, AnchorAggIdOf, AnchorCalIdOf, a, "", k);
      AgreeKeys(db.anchorByAgg, db.anchorByCal, AnchorAggIdOf, AnchorCalIdOf, b, "", k);
      var r :| r in ranges && FromRange(env, log, r, a);
      var s :| s in ranges && FromRange(env, log, s, b);
      assert EqualOrDisjoint(r, s);
      OneAggregationPerCal(env, log, w, r, s, a, b);
    }
  }

  lemma OneAggregationPerCal(env: Env, log: seq<LogEntry>, w: World, r: Range, s: Range, a: AnchorBtcAggState, b: AnchorBtcAggState)
    requires GoodLog(w, log) && EqualOrDisjoint(r, s) && FromRange(env, log, r, a) && FromRange(env, log, s, b) && a.calId == b.calId
    ensures a.anchorBtcAggId == b.anchorBtcAggId
  {
    var d, _ := AnchorEntry(env, log, r, a);
    var e, _ := AnchorEntry(env, log, s, b);
    HexEncodeInjective(d.hash, e.hash);
    assert d == e;
  }

  // ---- each event keeps the invariant --------------------------------------

  lemma {:induction false} InsertAggsMembers(db: Db, rows: seq<AggState>, p: string, x: AggState)
    ensures x in At(InsertAggs(db, rows).aggByProof, p) <==> x in At(db.aggByProof, p) || (x in rows && x.proofId == p)
  {
    if rows == [] {
    } else {
      InsertAggsMembers(db, rows[..|rows| - 1], p, x);
      assert rows == rows[..|rows| - 1] + [rows[|rows| - 1]];
    }
  }

  lemma {:induction false} InsertCalsMembers(db: Db, rows: seq<CalStateObject>, k: string, x: CalStateObject)
    ensures x in At(InsertCals(db, rows).calByAgg, k) <==> x in At(db.calByAgg, k) || (x in rows && x.aggId == k)
  {
    if rows == [] {
    } else {
      InsertCalsMembers(db, rows[..|rows| - 1], k, x);
      assert rows == rows[..|rows| - 1] + [rows[|rows| - 1]];
    }
  }

  lemma {:induction false} InsertAnchorsMembers(db: Db, rows: seq<AnchorBtcAggState>, k: string, x: AnchorBtcAggState)
    ensures x in At(InsertAnchors(db, rows).anchorByCal, k) <==> x in At(db.anchorByCal, k) || (x in rows && x.calId == k)
  {
    if rows == [] {
    } else {
      InsertAnchorsMembers(db, rows[..|rows| - 1], k, x);
      assert rows == rows[..|rows| - 1] + [rows[|rows| - 1]];
    }
  }

  lemma {:induction false} InsertProofsMembers(proofs: map<string, ProofDoc>, docs: seq<ProofDoc>, p: string)
    requires p in InsertProofs(proofs, docs)
    ensures (InsertProofs(proofs, docs)[p] in docs && InsertProofs(proofs, docs)[p].proofId == p)
            || (p in proofs && InsertProofs(proofs, docs)[p] == proofs[p])
  {
    if docs != [] {
      var front, last := docs[..|docs| - 1], docs[|docs| - 1];
      var before := InsertProofs(proofs, front);
      assert last in docs && forall d :: d in front ==> d in docs;
      assert InsertProofs(proofs, docs) == InsertProof(before, last);
      if p in before {
        InsertProofsMembers(proofs, front, p);
      }
    }
  }

  /** Every inserted document leaves its ID with a proof, and with a BTC proof if it is one. */
  lemma {:induction false} InsertProofsFills(proofs: map<string, ProofDoc>, docs: seq<ProofDoc>, p: string)
    requires p in proofs || exists d :: d in docs && d.proofId == p
    ensures p in InsertProofs(proofs, docs)
    ensures (exists d :: d in docs && d.proofId == p && MentionsBtc(d.branches)) ==> MentionsBtc(InsertProofs(proofs, docs)[p].branches)
  {
    if docs != [] {
      var front, last := docs[..|docs| - 1], docs[|docs| - 1];
      assert docs == front + [last];
      if p in proofs || exists d :: d in front && d.proofId == p {
        InsertProofsFills(proofs, front, p);
      }
    }
  }

  lemma InsertedProofsSound(env: Env, w: World, db: Db, docs: seq<ProofDoc>)
    requires ProofsSound(env, w, db) && forall d :: d in docs ==> DocSound(env, w, db, d.proofId, d)
    ensures ProofsSound(env, w, db.(proofs := InsertProofs(db.proofs, docs)))
  {
    var after := db.(proofs := InsertProofs(db.proofs, docs));
    forall p | p in after.proofs ensures DocSound(env, w, after, p, after.proofs[p]) {
      InsertProofsMembers(db.proofs, docs, p);
      assert DocSound(env, w, db, p, after.proofs[p]);
      var a, c :| Anchored(db, p, a, c) && after.proofs[p].hash == a.hash && Claims(env, w, after.proofs[p], c.calId);
      assert Anchored(after, p, a, c);
    }
  }

  lemma InsertedProofsKeep(env: Env, log: seq<LogEntry>, w: World, ranges: set<Range>, db: Db, docs: seq<ProofDoc>)
    requires Base(env, log, w, ranges, db) && forall d :: d in docs ==> DocSound(env, w, db, d.proofId, d)
    ensures Base(env, log, w, ranges, db.(proofs := InsertProofs(db.proofs, docs)))
  {
    InsertedProofsSound(env, w, db, docs);
    RowsStay(env, log, w, ranges, db, InsertProofs(db.proofs, docs));
  }

  lemma RowsStay(env: Env, log: seq<LogEntry>, w: World, ranges: set<Range>, db: Db, proofs: map<string, ProofDoc>)
    requires DoubleIndexed(db) && OneWalk(db) && RecordsSound(env.h, w, db)
    requires AnchorsFromRanges(env, log, ranges, db) && TxsMonitored(env, log, w, ranges, db)
    ensures DoubleIndexed(db.(proofs := proofs)) && OneWalk(db.(proofs := proofs)) && RecordsSound(env.h, w, db.(proofs := proofs))
    ensures AnchorsFromRanges(env, log, ranges, db.(proofs := proofs)) && TxsMonitored(env, log, w, ranges, db.(proofs := proofs))
  {
    var after := db.(proofs := proofs);
    assert DoubleIndexed(after) && OneWalk(after);
    assert RecordsSound(env.h, w, after);
    MonitoredStay(env, log, w, ranges, db, after);
  }

  /** Rows are only ever added. */
  ghost predicate Grows(db: Db, after: Db)
  {
    && (forall p, a :: a in At(db.aggByProof, p) ==> a in At(after.aggByProof, p))
    && (forall k, c :: c in At(db.calByAgg, k) ==> c in At(after.calByAgg, k))
    && (forall k, b :: b in At(db.anchorByCal, k) ==> b in At(after.anchorByCal, k))
  }

  lemma ProofsStay(env: Env, w: World, db: Db, after: Db)
    requires ProofsSound(env, w, db) && Grows(db, after) && after.proofs == db.proofs
    ensures ProofsSound(env, w, after)
  {
    forall p | p in after.proofs ensures DocSound(env, w, after, p, after.proofs[p]) {
      assert DocSound(env, w, db, p, db.proofs[p]);
      var a, c :| Anchored(db, p, a, c) && db.proofs[p].hash == a.hash && Claims(env, w, db.proofs[p], c.calId);
      assert Anchored(after, p, a, c);
    }
  }

  lemma MonitoredStay(env: Env, log: seq<LogEntry>, w: World, ranges: set<Range>, db: Db, after: Db)
    requires TxsMonitored(env, log, w, ranges, db) && Grows(db, after) && after.txByTx == db.txByTx
    ensures TxsMonitored(env, log, w, ranges, after)
  {
    forall t | t in after.txByTx ensures exists msg :: MonitoredBy(env, log, w, ranges, after, t, msg) {
      var msg :| MonitoredBy(env, log, w, ranges, db, t, msg);
      assert MonitoredBy(env, log, w, ranges, after, t, msg);
    }
  }

  /** A longer log with the same tree for the BTC-A's range, and more ranges, change nothing. */
  lemma MonitoredOverLonger(env: Env, log: seq<LogEntry>, longer: seq<LogEntry>, w: World, ranges: set<Range>, more: set<Range>,
                            db: Db, t: string, msg: BtcTxMsg)
    requires t in db.txByTx && MonitoredBy(env, log, w, ranges, db, t, msg) && log <= longer && ranges <= more
    requires TreeFromCalRange(env, longer, msg.beginCalTxInt, msg.endCalTxInt) == TreeFromCalRange(env, log, msg.beginCalTxInt, msg.endCalTxInt)
    ensures MonitoredBy(env, longer, w, more, db, t, msg)
  {
    var e :| e in log && IsBtca(e) && e.tx.msg.value == msg;
    assert e in longer;
  }

  lemma TxsMonitoredOverLonger(env: Env, log: seq<LogEntry>, longer: seq<LogEntry>, w: World, ranges: set<Range>, more: set<Range>, db: Db)
    requires TxsMonitored(env, log, w, ranges, db) && log <= longer && ranges <= more
    requires forall r :: r in ranges ==> TreeFromCalRange(env, longer, r.begin, r.end) == TreeFromCalRange(env, log, r.begin, r.end)
    ensures TxsMonitored(env, longer, w, more, db)
  {
    forall t | t in db.txByTx ensures exists msg :: MonitoredBy(env, longer, w, more, db, t, msg) {
      var msg :| MonitoredBy(env, log, w, ranges, db, t, msg);
      var r := Range(msg.beginCalTxInt, msg.endCalTxInt);
      assert r in ranges;
      MonitoredOverLonger(env, log, longer, w, ranges, more, db, t, msg);
    }
  }

  lemma AggsGrow(db: Db, rows: seq<AggState>)
    ensures Grows(db, InsertAggs(db, rows))
  {
    InsertAggsProofs(db, rows);
    forall p, a | a in At(db.aggByProof, p) ensures a in At(InsertAggs(db, rows).aggByProof, p) {
      InsertAggsMembers(db, rows, p, a);
    }
  }

  lemma CalsGrow(db: Db, rows: seq<CalStateObject>)
    ensures Grows(db, InsertCals(db, rows))
  {
    InsertCalsProofs(db, rows);
    forall k, c | c in At(db.calByAgg, k) ensures c in At(InsertCals(db, rows).calByAgg, k) {
      InsertCalsMembers(db, rows, k, c);
    }
  }

  lemma AnchorsGrow(db: Db, rows: seq<AnchorBtcAggState>)
    ensures Grows(db, InsertAnchors(db, rows))
  {
    InsertAnchorsProofs(db, rows);
    forall k, b | b in At(db.anchorByCal, k) ensures b in At(InsertAnchors(db, rows).anchorByCal, k) {
      InsertAnchorsMembers(db, rows, k, b);
    }
  }

  lemma {:induction false} AllRowsMembers(aggs: seq<Aggregation>, a: AggState)
    requires a in AllRows(aggs)
    ensures exists g :: g in aggs && a in g.aggStates
  {
    var front, last := aggs[..|aggs| - 1], aggs[|aggs| - 1];
    assert last in aggs;
    if a in AllRows(front) {
      AllRowsMembers(front, a);
      var g :| g in front && a in g.aggStates;
      assert g in aggs;
    }
  }

  lemma NewRowsKeep(env: Env, log: seq<LogEntry>, w: World, ranges: set<Range>, db: Db, aggs: seq<Aggregation>)
    requires Base(env, log, w, ranges, db) && FreshAggregations(env, w, db, aggs)
    ensures Base(env, log, w, ranges, InsertAggs(db, AllRows(aggs)))
  {
    var rows := AllRows(aggs);
    var after := InsertAggs(db, rows);
    InsertAggsKeep(db, rows);
    InsertAggsProofs(db, rows);
    AggsGrow(db, rows);
    ProofsStay(env, w, db, after);
    MonitoredStay(env, log, w, ranges, db, after);
    forall p, a | a in At(after.aggByProof, p) ensures AggRowSound(env.h, w, a) {
      InsertAggsMembers(db, rows, p, a);
      if a !in At(db.aggByProof, p) {
        AllRowsMembers(aggs, a);
      }
    }
    forall p, a, b | a in At(after.aggByProof, p) && b in At(after.aggByProof, p) ensures a.aggId == b.aggId {
      InsertAggsMembers(db, rows, p, a);
      InsertAggsMembers(db, rows, p, b);
      if a in rows && a.proofId == p { AllRowsMembers(aggs, a); }
      if b in rows && b.proofId == p { AllRowsMembers(aggs, b); }
    }
  }

  /** New rows have no calendar state yet. */
  lemma NewRowsWritten(env: Env, w: World, db: Db, aggs: seq<Aggregation>)
    requires Written(db) && FreshAggregations(env, w, db, aggs)
    ensures Written(InsertAggs(db, AllRows(aggs)))
  {
    var rows := AllRows(aggs);
    var after := InsertAggs(db, rows);
    InsertAggsProofs(db, rows);
    forall p, a, c | Anchored(after, p, a, c) ensures p in after.proofs {
      InsertAggsMembers(db, rows, p, a);
      if a in At(db.aggByProof, p) {
        assert Anchored(db, p, a, c);
      } else {
        AllRowsMembers(aggs, a);
      }
    }
  }

  /** The calendar states of a tree lead their aggregations to its root. */
  lemma CalStatesSound(env: Env, w: World, db: Db, aggs: seq<Aggregation>, txHash: Bytes, c: CalStateObject)
    requires FreshAggregations(env, w, db, aggs)
    requires w.calRoot(HexEncode(txHash)) == HexDecode(CalendarTree(env.h, aggs).calRoot).bytes
    requires c in CalStates(env.coreUri, txHash, CalendarTree(env.h, aggs))
    ensures CalRowSound(env.h, w, c) && c.calId == HexEncode(txHash) && exists g :: g in aggs && g.aggId == c.aggId
  {
    var cal := CalendarTree(env.h, aggs);
    var states := CalStates(env.coreUri, txHash, cal);
    var i :| 0 <= i < |states| && states[i] == c;
    assert aggs[i] in aggs;
    RootsDecode(env, w, db, aggs, i + 1);
    CalendarSound(env.h, aggs, i);
    assert c == CalState(env.coreUri, txHash, cal.proofData[i]);
  }

  lemma RootsDecode(env: Env, w: World, db: Db, aggs: seq<Aggregation>, n: nat)
    requires FreshAggregations(env, w, db, aggs) && n <= |aggs|
    ensures AllDecode(aggs[..n])
  {
    forall g | g in aggs[..n] ensures HexDecode(g.aggRoot).ok {
      assert g in aggs;
    }
  }

  lemma NewCalsKeep(env: Env, log: seq<LogEntry>, w: World, ranges: set<Range>, db: Db, aggs: seq<Aggregation>, txHash: Bytes)
    requires Base(env, log, w, ranges, db) && FreshAggregations(env, w, db, aggs)
    requires w.calRoot(HexEncode(txHash)) == HexDecode(CalendarTree(env.h, aggs).calRoot).bytes
    ensures Base(env, log, w, ranges, InsertCals(InsertAggs(db, AllRows(aggs)), CalStates(env.coreUri, txHash, CalendarTree(env.h, aggs))))
  {
    var stored := InsertAggs(db, AllRows(aggs));
    var states := CalStates(env.coreUri, txHash, CalendarTree(env.h, aggs));
    var after := InsertCals(stored, states);
    NewRowsKeep(env, log, w, ranges, db, aggs);
    InsertAggsProofs(db, AllRows(aggs));
    InsertCalsKeep(stored, states);
    InsertCalsProofs(stored, states);
    CalsGrow(stored, states);
    ProofsStay(env, w, stored, after);
    MonitoredStay(env, log, w, ranges, stored, after);
    forall k, c | c in At(after.calByAgg, k) ensures CalRowSound(env.h, w, c) {
      InsertCalsMembers(stored, states, k, c);
      if c in states { CalStatesSound(env, w, db, aggs, txHash, c); }
    }
    forall k, c, d | c in At(after.calByAgg, k) && d in At(after.calByAgg, k) ensures c.calId == d.calId {
      InsertCalsMembers(stored, states, k, c);
      InsertCalsMembers(stored, states, k, d);
      if c in states { CalStatesSound(env, w, db, aggs, txHash, c); }
      if d in states { CalStatesSound(env, w, db, aggs, txHash, d); }
    }
  }

  lemma {:induction false} CalDocsFind(rows: seq<AggState>, cals: seq<CalStateObject>, network: string, d: ProofDoc)
    requires d in CalDocs(rows, cals, network)
    ensures exists row :: row in rows && d == CalDoc(row, CalStateOf(CalLookup(cals), row.aggId), network)
  {
    var front, last := rows[..|rows| - 1], rows[|rows| - 1];
    assert last in rows;
    if d in CalDocs(front, cals, network) {
      CalDocsFind(front, cals, network, d);
      var row :| row in front && d == CalDoc(row, CalStateOf(CalLookup(cals), row.aggId), network);
      assert row in rows;
    }
  }

  lemma {:induction false} CalDocsHold(rows: seq<AggState>, cals: seq<CalStateObject>, network: string, row: AggState)
    requires row in rows
    ensures CalDoc(row, CalStateOf(CalLookup(cals), row.aggId), network) in CalDocs(rows, cals, network)
  {
    var front, last := rows[..|rows| - 1], rows[|rows| - 1];
    assert rows == front + [last];
    if row != last {
      CalDocsHold(front, cals, network, row);
    }
  }

  lemma {:induction false} AllRowsHold(aggs: seq<Aggregation>, g: Aggregation, a: AggState)
    requires g in aggs && a in g.aggStates
    ensures a in AllRows(aggs)
  {
    var front, last := aggs[..|aggs| - 1], aggs[|aggs| - 1];
    assert aggs == front + [last];
    if g != last {
      AllRowsHold(front, g, a);
    }
  }

  /** The store before the proofs of a calendar step are written. */
  function WithCals(env: Env, db: Db, aggs: seq<Aggregation>, txHash: Bytes): Db
  {
    InsertCals(InsertAggs(db, AllRows(aggs)), CalStates(env.coreUri, txHash, CalendarTree(env.h, aggs)))
  }

  /** A row of an aggregation finds a calendar state of its own among the new ones. */
  lemma RowFindsCal(env: Env, w: World, db: Db, aggs: seq<Aggregation>, txHash: Bytes, row: AggState)
    requires FreshAggregations(env, w, db, aggs) && row in AllRows(aggs)
    ensures var lookup := CalLookup(CalStates(env.coreUri, txHash, CalendarTree(env.h, aggs)));
            && row.aggId in lookup && lookup[row.aggId].aggId == row.aggId
            && lookup[row.aggId] in CalStates(env.coreUri, txHash, CalendarTree(env.h, aggs))
            && Anchored(WithCals(env, db, aggs, txHash), row.proofId, row, lookup[row.aggId])
  {
    var stored := InsertAggs(db, AllRows(aggs));
    var states := CalStates(env.coreUri, txHash, CalendarTree(env.h, aggs));
    AllRowsMembers(aggs, row);
    var g :| g in aggs && row in g.aggStates;
    var i :| 0 <= i < |aggs| && aggs[i] == g;
    assert states[i] in states && states[i].aggId == row.aggId;
    CalLookupFinds(states, row.aggId);
    InsertAggsMembers(db, AllRows(aggs), row.proofId, row);
    InsertCalsProofs(stored, states);
    InsertCalsMembers(stored, states, row.aggId, CalLookup(states)[row.aggId]);
  }

  lemma CalBatchSound(env: Env, w: World, db: Db, aggs: seq<Aggregation>, txHash: Bytes, d: ProofDoc)
    requires FreshAggregations(env, w, db, aggs) && HonestHash(env, w, aggs, Some(txHash))
    ensures d in CalDocs(AllRows(aggs), CalStates(env.coreUri, txHash, CalendarTree(env.h, aggs)), env.network) ==>
              DocSound(env, w, WithCals(env, db, aggs, txHash), d.proofId, d)
  {
    var states := CalStates(env.coreUri, txHash, CalendarTree(env.h, aggs));
    if d in CalDocs(AllRows(aggs), states, env.network) {
      CalDocsFind(AllRows(aggs), states, env.network, d);
      var row :| row in AllRows(aggs) && d == CalDoc(row, CalStateOf(CalLookup(states), row.aggId), env.network);
      RowFindsCal(env, w, db, aggs, txHash, row);
      AllRowsMembers(aggs, row);
      var c := CalLookup(states)[row.aggId];
      CalStatesSound(env, w, db, aggs, txHash, c);
      CalDocSound(env, w, row, c);
      assert Anchored(WithCals(env, db, aggs, txHash), d.proofId, row, c);
    }
  }

  /** After a broadcast every row of the step has a proof. */
  lemma CalendarWrites(env: Env, w: World, db: Db, aggs: seq<Aggregation>, txHash: Bytes)
    requires DoubleIndexed(db) && Written(db) && FreshAggregations(env, w, db, aggs)
    ensures var docs := CalDocs(AllRows(aggs), CalStates(env.coreUri, txHash, CalendarTree(env.h, aggs)), env.network);
            var withCals := WithCals(env, db, aggs, txHash);
            && Written(withCals.(proofs := InsertProofs(withCals.proofs, docs)))
            && forall g, a :: g in aggs && a in g.aggStates ==> a.proofId in InsertProofs(withCals.proofs, docs)
  {
    var rows, states := AllRows(aggs), CalStates(env.coreUri, txHash, CalendarTree(env.h, aggs));
    var docs, withCals := CalDocs(rows, states, env.network), WithCals(env, db, aggs, txHash);
    var stored := InsertAggs(db, rows);
    var after := withCals.(proofs := InsertProofs(withCals.proofs, docs));
    InsertAggsProofs(db, rows);
    InsertCalsProofs(stored, states);
    forall a | a in rows ensures a.proofId in after.proofs {
      CalDocsHold(rows, states, env.network, a);
      InsertProofsFills(withCals.proofs, docs, a.proofId);
    }
    forall g, a | g in aggs && a in g.aggStates ensures a.proofId in after.proofs {
      AllRowsHold(aggs, g, a);
    }
    forall p, a, c | Anchored(after, p, a, c) ensures p in after.proofs {
      InsertAggsMembers(db, rows, p, a);
      InsertCalsMembers(stored, states, a.aggId, c);
      if a in At(db.aggByProof, p) {
        OldRowOldCal(env, db, aggs, w, txHash, p, a, c);
        InsertProofsFills(withCals.proofs, docs, p);
      }
    }
  }

  /** A row stored before the step is given no calendar state by it. */
  lemma OldRowOldCal(env: Env, db: Db, aggs: seq<Aggregation>, w: World, txHash: Bytes, p: string, a: AggState, c: CalStateObject)
    requires DoubleIndexed(db) && Written(db) && FreshAggregations(env, w, db, aggs)
    requires a in At(db.aggByProof, p) && c in At(WithCals(env, db, aggs, txHash).calByAgg, a.aggId)
    ensures p in db.proofs
  {
    var stored, states := InsertAggs(db, AllRows(aggs)), CalStates(env.coreUri, txHash, CalendarTree(env.h, aggs));
    InsertAggsProofs(db, AllRows(aggs));
    InsertCalsMembers(stored, states, a.aggId, c);
    if c in At(db.calByAgg, a.aggId) {
      assert Anchored(db, p, a, c);
    } else {
      var i :| 0 <= i < |states| && states[i] == c;
      assert aggs[i] in aggs && aggs[i].aggId == a.aggId;
      AgreeKeys(db.aggByAgg, db.aggByProof, AggIdOf, ProofIdOf, a, "", p);
      AgreeMembers(db.aggByAgg, db.aggByProof, AggIdOf, ProofIdOf, a);
      assert false;
    }
  }

  lemma CalendarKeeps(env: Env, log: seq<LogEntry>, w: World, ranges: set<Range>, db: Db, aggs: seq<Aggregation>, txHash: Option<Bytes>)
    requires Inv(env, log, w, ranges, db) && FreshAggregations(env, w, db, aggs) && HonestHash(env, w, aggs, txHash)
    ensures Inv(env, log, w, ranges, AfterCalendar(env, db, aggs, txHash))
  {
    NewRowsKeep(env, log, w, ranges, db, aggs);
    NewRowsWritten(env, w, db, aggs);
    if txHash.Some? {
      BroadcastKeeps(env, log, w, ranges, db, aggs, txHash.value);
    }
  }

  lemma BroadcastKeeps(env: Env, log: seq<LogEntry>, w: World, ranges: set<Range>, db: Db, aggs: seq<Aggregation>, txHash: Bytes)
    requires Inv(env, log, w, ranges, db) && FreshAggregations(env, w, db, aggs) && HonestHash(env, w, aggs, Some(txHash))
    ensures var withCals := WithCals(env, db, aggs, txHash);
            Inv(env, log, w, ranges, withCals.(proofs := InsertProofs(withCals.proofs,
              CalDocs(AllRows(aggs), CalStates(env.coreUri, txHash, CalendarTree(env.h, aggs)), env.network))))
  {
    NewCalsKeep(env, log, w, ranges, db, aggs, txHash);
    var docs := CalDocs(AllRows(aggs), CalStates(env.coreUri, txHash, CalendarTree(env.h, aggs)), env.network);
    var withCals := WithCals(env, db, aggs, txHash);
    forall d | d in docs ensures DocSound(env, w, withCals, d.proofId, d) {
      CalBatchSound(env, w, db, aggs, txHash, d);
    }
    InsertedProofsKeep(env, log, w, ranges, withCals, docs);
    CalendarWrites(env, w, db, aggs, txHash);
  }

  lemma BtcaTxSound(env: Env, w: World, msg: BtcTxMsg)
    requires GoodBtca(env, w, msg)
    ensures GenerateAnchorBtcTxState(msg).Some? && TxRowSound(env.h, w, GenerateAnchorBtcTxState(msg).value)
  {
    TxStateLeads(env.h, msg);
    HexRoundTrip(HexDecode(msg.anchorBtcAggRoot).bytes);
    RejoinedIsBody(msg);
  }

  lemma TxRecordsSound(h: Hash, w: World, db: Db, t: AnchorBtcTxState)
    requires RecordsSound(h, w, db) && TxRowSound(h, w, t)
    ensures RecordsSound(h, w, InsertTx(db, t))
  {
    var after := InsertTx(db, t);
    forall k | k in after.txByTx ensures TxRowSound(h, w, after.txByTx[k]) {
      assert after.txByTx[k] == t || k in db.txByTx;
    }
  }

  lemma AnchorRecordsSound(h: Hash, w: World, db: Db, states: seq<AnchorBtcAggState>)
    requires RecordsSound(h, w, db) && forall b :: b in states ==> AnchorRowSound(h, w, b)
    ensures RecordsSound(h, w, InsertAnchors(db, states))
  {
    var after := InsertAnchors(db, states);
    InsertAnchorsProofs(db, states);
    forall k, b | b in At(after.anchorByCal, k) ensures AnchorRowSound(h, w, b) {
      InsertAnchorsMembers(db, states, k, b);
    }
  }

  lemma AnchorsStayInRanges(env: Env, log: seq<LogEntry>, ranges: set<Range>, db: Db, states: seq<AnchorBtcAggState>, range: Range)
    requires AnchorsFromRanges(env, log, ranges, db) && range in ranges && forall b :: b in states ==> FromRange(env, log, range, b)
    ensures AnchorsFromRanges(env, log, ranges, InsertAnchors(db, states))
  {
    var after := InsertAnchors(db, states);
    forall k, b | b in At(after.anchorByCal, k) ensures exists r :: r in ranges && FromRange(env, log, r, b) {
      InsertAnchorsMembers(db, states, k, b);
      if b in states {
        assert range in ranges && FromRange(env, log, range, b);
      }
    }
  }

  /** The states that the recomputation stores: none unless the roots agree. */
  function Recomputed(env: Env, log: seq<LogEntry>, msg: BtcTxMsg): seq<AnchorBtcAggState>
  {
    var agg := TreeFromCalRange(env, log, msg.beginCalTxInt, msg.endCalTxInt);
    if agg.None? || agg.value.anchorBtcAggRoot != msg.anchorBtcAggRoot then [] else BtcaStates(agg.value)
  }

  lemma MonitorStores(env: Env, log: seq<LogEntry>, w: World, ranges: set<Range>, db: Db, msg: BtcTxMsg)
    requires TxsMonitored(env, log, w, ranges, db) && GenerateAnchorBtcTxState(msg).Some?
    requires GoodBtca(env, w, msg) && Announced(log, msg) && Range(msg.beginCalTxInt, msg.endCalTxInt) in ranges
    ensures TxsMonitored(env, log, w, ranges, InsertAnchors(InsertTx(db, GenerateAnchorBtcTxState(msg).value), Recomputed(env, log, msg)))
  {
    var withTx, states := InsertTx(db, GenerateAnchorBtcTxState(msg).value), Recomputed(env, log, msg);
    var after := InsertAnchors(withTx, states);
    InsertAnchorsProofs(withTx, states);
    AnchorsGrow(withTx, states);
    assert GenerateAnchorBtcTxState(msg).value.btcTxId == msg.btcTxId;
    forall t | t in after.txByTx ensures exists m :: MonitoredBy(env, log, w, ranges, after, t, m) {
      if t == msg.btcTxId {
        forall b | b in states ensures b in At(after.anchorByCal, b.calId) {
          InsertAnchorsMembers(withTx, states, b.calId, b);
        }
        assert MonitoredBy(env, log, w, ranges, after, t, msg);
      } else {
        var m :| MonitoredBy(env, log, w, ranges, db, t, m);
        assert MonitoredBy(env, log, w, ranges, after, t, m);
      }
    }
  }

  lemma MonitorKeeps(env: Env, log: seq<LogEntry>, w: World, ranges: set<Range>, db: Db, msg: BtcTxMsg)
    requires Inv(env, log, w, ranges, db) && GoodLog(w, log)
    requires GoodBtca(env, w, msg) && Announced(log, msg) && Range(msg.beginCalTxInt, msg.endCalTxInt) in ranges
    ensures Inv(env, log, w, ranges, AfterMonitor(env, log, db, msg))
  {
    BtcaTxSound(env, w, msg);
    var t, states := GenerateAnchorBtcTxState(msg).value, Recomputed(env, log, msg);
    RecomputedSound(env, log, w, msg);
    MonitorRecords(env, log, w, ranges, db, t, states, Range(msg.beginCalTxInt, msg.endCalTxInt));
    MonitorLeavesProofs(env, w, db, t, states);
    MonitorStores(env, log, w, ranges, db, msg);
    assert AfterMonitor(env, log, db, msg) == InsertAnchors(InsertTx(db, t), states);
  }

  lemma RecomputedSound(env: Env, log: seq<LogEntry>, w: World, msg: BtcTxMsg)
    requires GoodLog(w, log) && GoodBtca(env, w, msg)
    ensures forall b :: b in Recomputed(env, log, msg) ==>
              FromRange(env, log, Range(msg.beginCalTxInt, msg.endCalTxInt), b) && AnchorRowSound(env.h, w, b)
  {
    forall b | b in Recomputed(env, log, msg)
      ensures FromRange(env, log, Range(msg.beginCalTxInt, msg.endCalTxInt), b) && AnchorRowSound(env.h, w, b) {
      NewAnchorSound(env, log, w, msg, b);
    }
  }

  lemma MonitorRecords(env: Env, log: seq<LogEntry>, w: World, ranges: set<Range>, db: Db, t: AnchorBtcTxState,
                       states: seq<AnchorBtcAggState>, range: Range)
    requires DoubleIndexed(db) && OneWalk(db) && RecordsSound(env.h, w, db) && AnchorsFromRanges(env, log, ranges, db)
    requires TxRowSound(env.h, w, t) && range in ranges
    requires forall b :: b in states ==> FromRange(env, log, range, b) && AnchorRowSound(env.h, w, b)
    ensures var after := InsertAnchors(InsertTx(db, t), states);
            DoubleIndexed(after) && OneWalk(after) && RecordsSound(env.h, w, after) && AnchorsFromRanges(env, log, ranges, after)
  {
    var withTx := InsertTx(db, t);
    TxRecordsSound(env.h, w, db, t);
    AnchorRecordsSound(env.h, w, withTx, states);
    InsertAnchorsKeep(withTx, states);
    InsertAnchorsProofs(withTx, states);
    AnchorsStayInRanges(env, log, ranges, withTx, states, range);
  }

  lemma MonitorLeavesProofs(env: Env, w: World, db: Db, t: AnchorBtcTxState, states: seq<AnchorBtcAggState>)
    requires ProofsSound(env, w, db) && Written(db)
    ensures ProofsSound(env, w, InsertAnchors(InsertTx(db, t), states)) && Written(InsertAnchors(InsertTx(db, t), states))
  {
    var withTx := InsertTx(db, t);
    var after := InsertAnchors(withTx, states);
    InsertAnchorsProofs(withTx, states);
    AnchorsGrow(withTx, states);
    ProofsStay(env, w, db, after);
    assert forall p, a, c :: Anchored(after, p, a, c) ==> Anchored(db, p, a, c);
  }

  lemma NewAnchorSound(env: Env, log: seq<LogEntry>, w: World, msg: BtcTxMsg, b: AnchorBtcAggState)
    requires GoodLog(w, log) && GoodBtca(env, w, msg)
    requires FromRange(env, log, Range(msg.beginCalTxInt, msg.endCalTxInt), b)
    requires TreeFromCalRange(env, log, msg.beginCalTxInt, msg.endCalTxInt).value.anchorBtcAggRoot == msg.anchorBtcAggRoot
    ensures AnchorRowSound(env.h, w, b)
  {
    var e, leaf := AnchorEntry(env, log, Range(msg.beginCalTxInt, msg.endCalTxInt), b);
    var root := MerkleRoot(env.h, Promote, Roots(CalLeaves(CalRange(log, msg.beginCalTxInt, msg.endCalTxInt))));
    HexRoundTrip(root);
  }

  /** The head state of a confirmation is sound. */
  lemma ConfirmedHead(env: Env, w: World, tx: TxID, block: Option<BlockDetails>, btccHash: Bytes)
    requires HoldsTx(env.h, block, tx.txId) && HonestBlock(w, tx, block)
    ensures HeaderProof(env.h, block, tx).Some?
    ensures var head := HeadState(env.lower, env.coreUri, btccHash, HeaderProof(env.h, block, tx).value, env.decimal);
            head.btcTxId == tx.txId && HeadSound(env.h, w, env, head, tx.blockHeight)
  {
    HeaderProofSound(env.h, block, tx);
  }

  lemma ConfirmKeeps(env: Env, log: seq<LogEntry>, w: World, ranges: set<Range>, db: Db, tx: TxID, block: Option<BlockDetails>, btccHash: Bytes)
    requires Inv(env, log, w, ranges, db) && GoodLog(w, log) && Disjoint(ranges) && HonestBlock(w, tx, block)
    ensures Inv(env, log, w, ranges, AfterConfirm(env, db, tx, block, btccHash))
  {
    var mon := HeaderProof(env.h, block, tx);
    if mon.Some? {
      HeaderProofExists(env.h, block, tx);
      ConfirmedHead(env, w, tx, block, btccHash);
      DisjointRangesJustifyJoin(env, log, w, ranges, db);
      var head := HeadState(env.lower, env.coreUri, btccHash, mon.value, env.decimal);
      BatchKeeps(env, log, w, ranges, db, head, tx.blockHeight);
    }
  }

  lemma BatchKeeps(env: Env, log: seq<LogEntry>, w: World, ranges: set<Range>, db: Db, head: AnchorBtcHeadState, height: int)
    requires Inv(env, log, w, ranges, db) && OneAnchor(db) && HeadSound(env.h, w, env, head, height)
    ensures Inv(env, log, w, ranges, AfterBtcBatch(db, env.network, ProofIdsOfTx(db, head.btcTxId), head))
  {
    var batch := BtcBatch(db, env.network, ProofIdsOfTx(db, head.btcTxId), head);
    if batch.Some? {
      BatchDocsSound(env, w, db, head, height);
      InsertedProofsKeep(env, log, w, ranges, db, batch.value);
      BatchLeavesWritten(db, batch.value);
    }
  }

  lemma BatchDocsSound(env: Env, w: World, db: Db, head: AnchorBtcHeadState, height: int)
    requires BatchReady(env, w, db, head, height)
    ensures var batch := BtcBatch(db, env.network, ProofIdsOfTx(db, head.btcTxId), head);
            batch.Some? ==> forall d :: d in batch.value ==> DocSound(env, w, db, d.proofId, d)
  {
    var ids := ProofIdsOfTx(db, head.btcTxId);
    var batch, rows := BtcBatch(db, env.network, ids, head), JoinRows(db, ids).rows;
    DocsAreOfRows(env, w, db, head, height);
    if batch.Some? {
      forall d | d in batch.value ensures DocSound(env, w, db, d.proofId, d) {
        var row :| row in rows && BtcDocOf(env, w, db, row, d, height);
        JoinedRow(db, ids, row);
        RowDocIsSound(env, w, db, row, d, height);
      }
    }
  }

  /** Each document of a batch is that of a joined row. */
  lemma DocsAreOfRows(env: Env, w: World, db: Db, head: AnchorBtcHeadState, height: int)
    requires BatchReady(env, w, db, head, height)
    ensures var batch, rows := BtcBatch(db, env.network, ProofIdsOfTx(db, head.btcTxId), head), JoinRows(db, ProofIdsOfTx(db, head.btcTxId)).rows;
            batch.Some? ==> forall d :: d in batch.value ==> exists row :: row in rows && BtcDocOf(env, w, db, row, d, height)
  {
    BatchSound(env, w, db, head, height);
    var batch, rows := BtcBatch(db, env.network, ProofIdsOfTx(db, head.btcTxId), head), JoinRows(db, ProofIdsOfTx(db, head.btcTxId)).rows;
    if batch.Some? {
      PairedDocs(env, w, db, rows, batch.value, height);
    }
  }

  lemma PairedDocs(env: Env, w: World, db: Db, rows: seq<AggState>, docs: seq<ProofDoc>, height: int)
    requires |docs| == |rows| && forall i :: 0 <= i < |rows| ==> BtcDocOf(env, w, db, rows[i], docs[i], height)
    ensures forall d :: d in docs ==> exists row :: row in rows && BtcDocOf(env, w, db, row, d, height)
  {
    forall d | d in docs ensures exists row :: row in rows && BtcDocOf(env, w, db, row, d, height) {
      var i :| 0 <= i < |docs| && docs[i] == d;
      assert rows[i] in rows && BtcDocOf(env, w, db, rows[i], d, height);
    }
  }

  lemma RowDocIsSound(env: Env, w: World, db: Db, row: AggState, d: ProofDoc, height: int)
    requires BtcDocOf(env, w, db, row, d, height) && row in At(db.aggByProof, row.proofId)
    ensures DocSound(env, w, db, d.proofId, d)
  {
    var c :| c in At(db.calByAgg, row.aggId)
             && Verify(env.h, d) == Reached(HexDecode(row.hash).bytes, [CalClaim(env, w, c.calId), BtcClaim(env, w, height)]);
    assert Anchored(db, d.proofId, row, c);
  }

  lemma BatchLeavesWritten(db: Db, docs: seq<ProofDoc>)
    requires Written(db)
    ensures Written(db.(proofs := InsertProofs(db.proofs, docs)))
  {
    var after := db.(proofs := InsertProofs(db.proofs, docs));
    forall p, a, c | Anchored(after, p, a, c) ensures p in after.proofs {
      assert Anchored(db, p, a, c);
      InsertProofsFills(db.proofs, docs, p);
    }
  }

  /** A joined row is stored under its own proof ID, which is one of those joined. */
  lemma JoinedRow(db: Db, ids: seq<string>, row: AggState)
    requires DoubleIndexed(db) && row in JoinRows(db, ids).rows
    ensures row in At(db.aggByProof, row.proofId) && row.proofId in ids
  {
    GatherFinds(db.aggByProof, ids, row);
    var p :| p in ids && row in At(db.aggByProof, p);
    AgreeKeys(db.aggByAgg, db.aggByProof, AggIdOf, ProofIdOf, row, "", p);
  }

  // ---- whole runs ----------------------------------------------------------

  lemma {:induction false} EmptyIsSound(env: Env, log: seq<LogEntry>, w: World, ranges: set<Range>)
    ensures Inv(env, log, w, ranges, EMPTY)
  {
  }

  /** Over every run of calendar, monitor and confirmation steps, in any order, every proof in
      the store is that of its ID: it carries a hash submitted under the ID and verifies to the
      root of the calendar transaction the hash went into and, from its first BTC batch on, to
      the Merkle root of the confirming block. And every hash that reached the calendar has one. */
  lemma {:induction false} EveryStoredProofVerifies(env: Env, log: seq<LogEntry>, w: World, ranges: set<Range>, events: seq<Event>)
    requires GoodLog(w, log) && Disjoint(ranges) && FairRun(env, log, w, ranges, events)
    ensures Inv(env, log, w, ranges, AfterEvents(env, log, EMPTY, events))
    ensures ProofsSound(env, w, AfterEvents(env, log, EMPTY, events)) && Written(AfterEvents(env, log, EMPTY, events))
  {
    if events == [] {
      EmptyIsSound(env, log, w, ranges);
    } else {
      var front, last := events[..|events| - 1], events[|events| - 1];
      EveryStoredProofVerifies(env, log, w, ranges, front);
      StepKeeps(env, log, w, ranges, AfterEvents(env, log, EMPTY, front), last);
    }
  }

  /** No step touches a proof that has a BTC branch. */
  lemma EventLeavesBtcProof(env: Env, log: seq<LogEntry>, db: Db, e: Event, p: string)
    requires p in db.proofs && MentionsBtc(db.proofs[p].branches)
    ensures p in AfterEvent(env, log, db, e).proofs && AfterEvent(env, log, db, e).proofs[p] == db.proofs[p]
  {
    match e
    case CalendarStep(aggs, txHash) =>
      InsertAggsProofs(db, AllRows(aggs));
      if txHash.Some? {
        var states := CalStates(env.coreUri, txHash.value, CalendarTree(env.h, aggs));
        InsertCalsProofs(InsertAggs(db, AllRows(aggs)), states);
        BtcProofsStay(db.proofs, CalDocs(AllRows(aggs), states, env.network), p);
      }
    case MonitorStep(msg) =>
      var tx := GenerateAnchorBtcTxState(msg);
      if tx.Some? {
        InsertAnchorsProofs(InsertTx(db, tx.value), Recomputed(env, log, msg));
      }
    case ConfirmStep(tx, block, btccHash) =>
      var mon := HeaderProof(env.h, block, tx);
      if mon.Some? {
        var batch := BtcBatch(db, env.network, ProofIdsOfTx(db, mon.value.btcTxId), HeadState(env.lower, env.coreUri, btccHash, mon.value, env.decimal));
        if batch.Some? {
          BtcProofsStay(db.proofs, batch.value, p);
        }
      }
  }

  lemma CalendarGrows(env: Env, db: Db, aggs: seq<Aggregation>, txHash: Option<Bytes>)
    ensures Grows(db, AfterCalendar(env, db, aggs, txHash))
  {
    var stored := InsertAggs(db, AllRows(aggs));
    AggsGrow(db, AllRows(aggs));
    if txHash.Some? {
      var withCals := WithCals(env, db, aggs, txHash.value);
      CalsGrow(stored, CalStates(env.coreUri, txHash.value, CalendarTree(env.h, aggs)));
      GrowsTwice(db, stored, withCals);
      assert AfterCalendar(env, db, aggs, txHash) in {stored, withCals.(proofs := AfterCalendar(env, db, aggs, txHash).proofs)};
    }
  }

  lemma GrowsTwice(a: Db, b: Db, c: Db)
    requires Grows(a, b) && Grows(b, c)
    ensures Grows(a, c)
  {
  }

  lemma MonitorGrows(env: Env, log: seq<LogEntry>, db: Db, msg: BtcTxMsg)
    ensures Grows(db, AfterMonitor(env, log, db, msg))
  {
    var tx := GenerateAnchorBtcTxState(msg);
    if tx.Some? {
      AnchorsGrow(InsertTx(db, tx.value), Recomputed(env, log, msg));
    }
  }

  /** No step takes a row away. */
  lemma EventGrows(env: Env, log: seq<LogEntry>, db: Db, e: Event)
    ensures Grows(db, AfterEvent(env, log, db, e))
  {
    match e
    case CalendarStep(aggs, txHash) => CalendarGrows(env, db, aggs, txHash);
    case MonitorStep(msg) => MonitorGrows(env, log, db, msg);
    case ConfirmStep(_, _, _) =>
  }

  /** ... nor the state of a transaction. */
  lemma TxsGrow(env: Env, log: seq<LogEntry>, db: Db, e: Event)
    ensures db.txByTx.Keys <= AfterEvent(env, log, db, e).txByTx.Keys
  {
    match e
    case CalendarStep(aggs, txHash) =>
      InsertAggsProofs(db, AllRows(aggs));
      if txHash.Some? {
        InsertCalsProofs(InsertAggs(db, AllRows(aggs)), CalStates(env.coreUri, txHash.value, CalendarTree(env.h, aggs)));
      }
    case MonitorStep(msg) =>
      var tx := GenerateAnchorBtcTxState(msg);
      if tx.Some? {
        InsertAnchorsProofs(InsertTx(db, tx.value), Recomputed(env, log, msg));
      }
    case ConfirmStep(_, _, _) =>
  }

  lemma MonitorStoresTx(env: Env, log: seq<LogEntry>, w: World, db: Db, msg: BtcTxMsg)
    requires GoodBtca(env, w, msg)
    ensures msg.btcTxId in AfterMonitor(env, log, db, msg).txByTx
  {
    InsertAnchorsProofs(InsertTx(db, GenerateAnchorBtcTxState(msg).value), Recomputed(env, log, msg));
  }

  /** Only a confirmation gives a proof a BTC branch. */
  lemma OnlyConfirmationsConfirm(env: Env, log: seq<LogEntry>, db: Db, e: Event, p: string)
    requires p in db.proofs ==> !MentionsBtc(db.proofs[p].branches)
    ensures var after := AfterEvent(env, log, db, e).proofs; p in after && MentionsBtc(after[p].branches) ==> e.ConfirmStep?
  {
    match e
    case CalendarStep(aggs, txHash) =>
      InsertAggsProofs(db, AllRows(aggs));
      if txHash.Some? {
        var states := CalStates(env.coreUri, txHash.value, CalendarTree(env.h, aggs));
        InsertCalsProofs(InsertAggs(db, AllRows(aggs)), states);
        CalDocsLackBtc(db.proofs, AllRows(aggs), states, env.network, p);
      }
    case MonitorStep(msg) =>
      var tx := GenerateAnchorBtcTxState(msg);
      if tx.Some? {
        InsertAnchorsProofs(InsertTx(db, tx.value), Recomputed(env, log, msg));
      }
    case ConfirmStep(_, _, _) =>
  }

  lemma CalDocsLackBtc(proofs: map<string, ProofDoc>, rows: seq<AggState>, cals: seq<CalStateObject>, network: string, p: string)
    requires p in proofs ==> !MentionsBtc(proofs[p].branches)
    ensures var after := InsertProofs(proofs, CalDocs(rows, cals, network)); p in after ==> !MentionsBtc(after[p].branches)
  {
    var docs := CalDocs(rows, cals, network);
    if p in InsertProofs(proofs, docs) {
      InsertProofsMembers(proofs, docs, p);
      if InsertProofs(proofs, docs)[p] in docs {
        CalDocsFind(rows, cals, network, InsertProofs(proofs, docs)[p]);
        var row :| row in rows && InsertProofs(proofs, docs)[p] == CalDoc(row, CalStateOf(CalLookup(cals), row.aggId), network);
        CalDocLacksBtc(row, CalStateOf(CalLookup(cals), row.aggId), network);
      }
    }
  }

  lemma CalDocLacksBtc(row: AggState, calState: Stored<AnchorOpsState>, network: string)
    ensures !MentionsBtc(CalDoc(row, calState, network).branches)
  {
    assert CAL_BRANCH[0] != BTC_BRANCH[0];
    assert !MentionsBtc([]);
  }

  /** A proof stored after a confirmation is that of a row that had reached the calendar before. */
  lemma ConfirmedRow(env: Env, log: seq<LogEntry>, w: World, ranges: set<Range>, db: Db, e: Event, p: string) returns (a: AggState, c: CalStateObject)
    requires ProofsSound(env, w, AfterEvent(env, log, db, e)) && e.ConfirmStep? && p in AfterEvent(env, log, db, e).proofs
    ensures Anchored(db, p, a, c)
  {
    var after := AfterEvent(env, log, db, e);
    assert DocSound(env, w, after, p, after.proofs[p]);
    a, c :| Anchored(after, p, a, c);
  }

  lemma StepKeeps(env: Env, log: seq<LogEntry>, w: World, ranges: set<Range>, db: Db, e: Event)
    requires Inv(env, log, w, ranges, db) && GoodLog(w, log) && Disjoint(ranges) && Fair(env, log, w, ranges, db, e)
    ensures Inv(env, log, w, ranges, AfterEvent(env, log, db, e))
  {
    match e
    case CalendarStep(aggs, txHash) => CalendarKeeps(env, log, w, ranges, db, aggs, txHash);
    case MonitorStep(msg) => MonitorKeeps(env, log, w, ranges, db, msg);
    case ConfirmStep(tx, block, btccHash) => ConfirmKeeps(env, log, w, ranges, db, tx, block, btccHash);
  }
}
