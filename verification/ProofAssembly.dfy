/** GenerateCalBatch (abci/anchor.go), GenerateBtcBatch and ConstructProof
    (anchor/bitcoin/bitcoinanchor.go): joining the stored segments into proofs. */
module ProofAssembly {
  import opened ByteStrings
  import opened Merkle
  import opened ProofOps
  import opened ChainTypes
  import opened KeyValue
  import opened Store
  import opened Calendar
  import opened BitcoinBlock
  import opened TxIndex

  // ---- lookups -------------------------------------------------------------

  /** The last calendar state of each aggregation. */
  function CalLookup(cals: seq<CalStateObject>): map<string, CalStateObject>
  {
    if cals == [] then map[] else CalLookup(cals[..|cals| - 1])[cals[|cals| - 1].aggId := cals[|cals| - 1]]
  }

  /** The last anchor state of each calendar transaction. */
  function AnchorLookup(anchors: seq<AnchorBtcAggState>): map<string, AnchorBtcAggState>
  {
    if anchors == [] then map[] else AnchorLookup(anchors[..|anchors| - 1])[anchors[|anchors| - 1].calId := anchors[|anchors| - 1]]
  }

  lemma {:induction false} CalLookupFinds(cals: seq<CalStateObject>, k: string)
    ensures k in CalLookup(cals) <==> exists c :: c in cals && c.aggId == k
    ensures k in CalLookup(cals) ==> CalLookup(cals)[k] in cals && CalLookup(cals)[k].aggId == k
  {
    if cals == [] {
    } else {
      CalLookupFinds(cals[..|cals| - 1], k);
      assert cals == cals[..|cals| - 1] + [cals[|cals| - 1]];
    }
  }

  lemma {:induction false} AnchorLookupFinds(anchors: seq<AnchorBtcAggState>, k: string)
    ensures k in AnchorLookup(anchors) <==> exists b :: b in anchors && b.calId == k
    ensures k in AnchorLookup(anchors) ==> AnchorLookup(anchors)[k] in anchors && AnchorLookup(anchors)[k].calId == k
  {
    if anchors == [] {
    } else {
      AnchorLookupFinds(anchors[..|anchors| - 1], k);
      assert anchors == anchors[..|anchors| - 1] + [anchors[|anchors| - 1]];
    }
  }

  method BuildCalLookup(cals: seq<CalStateObject>) returns (lookup: map<string, CalStateObject>)
    ensures lookup == CalLookup(cals)
  {
    lookup := map[];
    for i := 0 to |cals|
      invariant lookup == CalLookup(cals[..i])
    {
      assert cals[..i + 1][..i] == cals[..i];
      lookup := lookup[cals[i].aggId := cals[i]];
    }
    assert cals[..|cals|] == cals;
  }

  method BuildAnchorLookup(anchors: seq<AnchorBtcAggState>) returns (lookup: map<string, AnchorBtcAggState>)
    ensures lookup == AnchorLookup(anchors)
  {
    lookup := map[];
    for i := 0 to |anchors|
      invariant lookup == AnchorLookup(anchors[..i])
    {
      assert anchors[..i + 1][..i] == anchors[..i];
      lookup := lookup[anchors[i].calId := anchors[i]];
    }
    assert anchors[..|anchors|] == anchors;
  }

  // ---- calendar proofs -----------------------------------------------------

  /** The calendar state found for an aggregation; a missing one does not parse. */
  function CalStateOf(lookup: map<string, CalStateObject>, aggId: string): Stored<AnchorOpsState>
  {
    if aggId in lookup then lookup[aggId].calState else Unparsable
  }

  /** A proof with its header and, if both states parse, its calendar branch. */
  function CalDoc(row: AggState, calState: Stored<AnchorOpsState>, network: string): ProofDoc
  {
    ProofDoc(row.hash, row.proofId,
             if row.aggState.Text? && calState.Text?
             then [CalendarBranch(row.aggState.value, calState.value, SetProofType(network, "cal"))] else [])
  }

  function CalDocs(rows: seq<AggState>, cals: seq<CalStateObject>, network: string): seq<ProofDoc>
  {
    if rows == [] then []
    else
      var last := rows[|rows| - 1];
      CalDocs(rows[..|rows| - 1], cals, network) + [CalDoc(last, CalStateOf(CalLookup(cals), last.aggId), network)]
  }

  method GenerateCalBatch(store: ChainpointDb, network: string, aggStates: seq<AggState>, calStates: seq<CalStateObject>)
    modifies store
    ensures store.db == old(store.db).(proofs := InsertProofs(old(store.db).proofs, CalDocs(aggStates, calStates, network)))
  {
    var lookup := BuildCalLookup(calStates);
    var proofs: seq<ProofDoc> := [];
    for i := 0 to |aggStates|
      invariant proofs == CalDocs(aggStates[..i], calStates, network) && store.db == old(store.db)
    {
      assert aggStates[..i + 1][..i] == aggStates[..i];
      var row := aggStates[i];
      var proof := new Proof();
      proof.AddChainpointHeader(row.hash, row.proofId);
      var _ := proof.AddCalendarBranch(row.aggState, CalStateOf(lookup, row.aggId), SetProofType(network, "cal"));
      proofs := proofs + [proof.Marshal()];
    }
    assert aggStates[..|aggStates|] == aggStates;
    store.BulkInsertProofs(proofs);
  }

  // ---- BTC proofs ----------------------------------------------------------

  function AggIds(rows: seq<AggState>): (ids: seq<string>)
    ensures forall k :: k in ids <==> exists a :: a in rows && a.aggId == k
  {
    if rows == [] then [] else AggIds(rows[..|rows| - 1]) + [rows[|rows| - 1].aggId]
  }

  function CalIds(cals: seq<CalStateObject>): (ids: seq<string>)
    ensures forall k :: k in ids <==> exists c :: c in cals && c.calId == k
  {
    if cals == [] then [] else CalIds(cals[..|cals| - 1]) + [cals[|cals| - 1].calId]
  }

  /** The anchor state selected for a row, if its calendar state and an anchor state are found. */
  function Selected(row: AggState, cals: seq<CalStateObject>, anchors: seq<AnchorBtcAggState>): Option<AnchorBtcAggState>
  {
    if row.aggId !in CalLookup(cals) then None
    else
      var calId := CalLookup(cals)[row.aggId].calId;
      if calId !in AnchorLookup(anchors) then None else Some(AnchorLookup(anchors)[calId])
  }

  /** The finished proof of a row. */
  function BtcDoc(row: AggState, calState: Stored<AnchorOpsState>, anchor: AnchorBtcAggState, tx: AnchorBtcTxState,
                  head: AnchorBtcHeadState, network: string): ProofDoc
  {
    var doc := CalDoc(row, calState, network);
    if anchor.anchorBtcAggState.Text? && tx.btcTxState.Text? && head.btcHeadState.Text?
    then doc.(branches := Nested(doc.branches, ChainBranch(anchor.anchorBtcAggState.value, tx.btcTxState.value,
                                                            head.btcHeadState.value, SetProofType(network, "btc"))))
    else doc
  }

  function BtcDocs(rows: seq<AggState>, cals: seq<CalStateObject>, anchors: seq<AnchorBtcAggState>, tx: AnchorBtcTxState,
                   head: AnchorBtcHeadState, network: string): seq<ProofDoc>
  {
    if rows == [] then []
    else
      var last := rows[|rows| - 1];
      var selected := Selected(last, cals, anchors);
      BtcDocs(rows[..|rows| - 1], cals, anchors, tx, head, network)
      + (if selected.None? then [] else [BtcDoc(last, CalStateOf(CalLookup(cals), last.aggId), selected.value, tx, head, network)])
  }

  /** The rows a batch joins. */
  datatype Join = Join(rows: seq<AggState>, cals: seq<CalStateObject>, anchors: seq<AnchorBtcAggState>)

  function JoinRows(db: Db, proofIds: seq<string>): Join
  {
    var rows := Gather(db.aggByProof, proofIds);
    var cals := Gather(db.calByAgg, AggIds(rows));
    Join(rows, cals, Gather(db.anchorByCal, CalIds(cals)))
  }

  /** The proofs of a batch; None where the code returns an error and writes nothing. */
  function BtcBatch(db: Db, network: string, proofIds: seq<string>, head: AnchorBtcHeadState): Option<seq<ProofDoc>>
  {
    var j := JoinRows(db, proofIds);
    if j.anchors == [] || head.btcTxId !in db.txByTx || db.txByTx[head.btcTxId].btcTxId == "" then None
    else Some(BtcDocs(j.rows, j.cals, j.anchors, db.txByTx[head.btcTxId], head, network))
  }

  /** What GenerateBtcBatch leaves in the store. */
  function AfterBtcBatch(db: Db, network: string, proofIds: seq<string>, head: AnchorBtcHeadState): Db
  {
    var batch := BtcBatch(db, network, proofIds, head);
    if batch.None? then db else db.(proofs := InsertProofs(db.proofs, batch.value))
  }

  method GenerateBtcBatch(store: ChainpointDb, network: string, proofIds: seq<string>, btcHeadState: AnchorBtcHeadState)
    returns (ok: bool)
    modifies store
    ensures ok <==> BtcBatch(old(store.db), network, proofIds, btcHeadState).Some?
    ensures store.db == AfterBtcBatch(old(store.db), network, proofIds, btcHeadState)
  {
    var aggStates := store.GetAggStateObjectsByProofIds(proofIds);
    var aggIds := CollectAggIds(aggStates);
    var calStates := store.GetCalStateObjectsByAggIds(aggIds);
    var calIds := CollectCalIds(calStates);
    var anchorBtcAggStates := store.GetAnchorBTCAggStateObjectsByCalIds(calIds);
    if |anchorBtcAggStates| == 0 {
      return false;
    }
    if btcHeadState.btcTxId !in store.db.txByTx || store.db.txByTx[btcHeadState.btcTxId].btcTxId == "" {
      return false;
    }
    var btcTxState := store.db.txByTx[btcHeadState.btcTxId];
    var proofs := BuildBtcDocs(aggStates, calStates, anchorBtcAggStates, btcTxState, btcHeadState, network);
    store.BulkInsertProofs(proofs);
    ok := true;
  }

  method CollectAggIds(rows: seq<AggState>) returns (ids: seq<string>)
    ensures ids == AggIds(rows)
  {
    ids := [];
    for i := 0 to |rows|
      invariant ids == AggIds(rows[..i])
    {
      assert rows[..i + 1][..i] == rows[..i];
      ids := ids + [rows[i].aggId];
    }
    assert rows[..|rows|] == rows;
  }

  method CollectCalIds(cals: seq<CalStateObject>) returns (ids: seq<string>)
    ensures ids == CalIds(cals)
  {
    ids := [];
    for i := 0 to |cals|
      invariant ids == CalIds(cals[..i])
    {
      assert cals[..i + 1][..i] == cals[..i];
      ids := ids + [cals[i].calId];
    }
    assert cals[..|cals|] == cals;
  }

  method BuildBtcDocs(rows: seq<AggState>, cals: seq<CalStateObject>, anchors: seq<AnchorBtcAggState>, tx: AnchorBtcTxState,
                      head: AnchorBtcHeadState, network: string)
    returns (proofs: seq<ProofDoc>)
    ensures proofs == BtcDocs(rows, cals, anchors, tx, head, network)
  {
    var calLookup := BuildCalLookup(cals);
    var anchorLookup := BuildAnchorLookup(anchors);
    proofs := [];
    for i := 0 to |rows|
      invariant proofs == BtcDocs(rows[..i], cals, anchors, tx, head, network)
    {
      assert rows[..i + 1][..i] == rows[..i];
      var row := rows[i];
      var proof := new Proof();
      proof.AddChainpointHeader(row.hash, row.proofId);
      var _ := proof.AddCalendarBranch(row.aggState, CalStateOf(calLookup, row.aggId), SetProofType(network, "cal"));
      if row.aggId !in calLookup || calLookup[row.aggId].calId !in anchorLookup {
        continue;
      }
      var anchor := anchorLookup[calLookup[row.aggId].calId];
      var _ := proof.AddChainBranch(anchor.anchorBtcAggState, tx.btcTxState, head.btcHeadState, SetProofType(network, "btc"));
      proofs := proofs + [proof.Marshal()];
    }
    assert rows[..|rows|] == rows;
  }

  /** What a finished proof looks like: the calendar branch by its name, the Bitcoin branch by its name
      in it, each ending in the anchor of its state. */
  lemma FinishedProof(row: AggState, calState: Stored<AnchorOpsState>, anchor: AnchorBtcAggState, tx: AnchorBtcTxState,
                      head: AnchorBtcHeadState, network: string)
    requires row.aggState.Text? && calState.Text? && anchor.anchorBtcAggState.Text? && tx.btcTxState.Text? && head.btcHeadState.Text?
    ensures var doc := BtcDoc(row, calState, anchor, tx, head, network);
            && doc.hash == row.hash && doc.proofId == row.proofId && |doc.branches| == 1 && |doc.branches[0].branches| == 1
            && doc.branches[0].name == "cal_anchor_branch" && doc.branches[0].branches[0].name == "btc_anchor_branch"
            && EndsIn(doc.branches[0], calState.value.anchor) && EndsIn(doc.branches[0].branches[0], head.btcHeadState.value.anchor)
            && doc.branches[0].branches[0].branches == []
  {
  }

  predicate EndsIn(branch: Branch, anchor: AnchorObj)
  {
    branch.ops != [] && branch.ops[|branch.ops| - 1].Anchors? && branch.ops[|branch.ops| - 1].anchor == anchor
  }

  // ---- ConstructProof ------------------------------------------------------

  /** The surroundings of a node that its proofs depend on. */
  datatype Env = Env(h: Hash, uuid: Bytes -> string, lower: string -> string, decimal: int -> string, network: string, coreUri: string)

  /** GetTreeFromCalRange: the aggregation of an index range; None on an error. */
  function TreeFromCalRange(env: Env, log: seq<LogEntry>, min: int, max: int): Option<BtcAgg>
  {
    if max <= min then None else BtcAggregate(env.h, env.uuid, CalRange(log, min, max))
  }

  /** A range without indexes has no tree, and one without CAL transactions an empty tree. */
  lemma EmptyTrees(env: Env, log: seq<LogEntry>, min: int, max: int)
    ensures max <= min ==> TreeFromCalRange(env, log, min, max).None?
    ensures min < max && (forall e :: e in log ==> !InRange(e, min, max)) ==>
              TreeFromCalRange(env, log, min, max) == Some(BtcAgg("", "", []))
  {
    if forall e :: e in log ==> !InRange(e, min, max) {
      OutsideRange(log, min, max);
    }
  }

  method GetTreeFromCalRange(env: Env, log: seq<LogEntry>, min: int, max: int) returns (treeData: Option<BtcAgg>)
    requires Increasing(log)
    ensures treeData == TreeFromCalRange(env, log, min, max)
  {
    var txLeaves := GetCalTxRange(log, min, max);
    if txLeaves.None? {
      return None;
    }
    treeData := AggregateAnchorTx(env.h, env.uuid, txLeaves.value);
  }

  /** The head state built from a block and the BTC-C that confirmed it. */
  function HeadFromBlock(env: Env, block: Option<BlockDetails>, tx: TxID, btccHash: Bytes): Option<AnchorBtcHeadState>
  {
    var mon := HeaderProof(env.h, block, tx);
    if mon.None? then None else Some(HeadState(env.lower, env.coreUri, btccHash, mon.value, env.decimal))
  }

  /** The anchor state that an aggregation gives a calendar transaction. */
  function AnchorStateOf(agg: BtcAgg, calId: string): Stored<OpsState>
  {
    var lookup := AnchorLookup(BtcaStates(agg));
    if calId in lookup then lookup[calId].anchorBtcAggState else Unparsable
  }

  /** What an upgrade puts together for a calendar transaction. */
  datatype Upgrade = Upgrade(btca: BtcTxMsg, agg: BtcAgg, tx: AnchorBtcTxState, head: AnchorBtcHeadState)

  /** The parts recomputed from the log alone, given where and by which BTC-C the anchoring
      transaction was confirmed; None where the code returns an error. */
  function UpgradeOf(env: Env, log: seq<LogEntry>, txid: string, block: Option<BlockDetails>, height: int, btccHash: Bytes): Option<Upgrade>
  {
    var btca := BtcaForCalTx(log, txid);
    if btca.None? then None
    else
      var agg := TreeFromCalRange(env, log, btca.value.beginCalTxInt, btca.value.endCalTxInt);
      if agg.None? || agg.value.anchorBtcAggRoot != btca.value.anchorBtcAggRoot then None
      else
        var tx := GenerateAnchorBtcTxState(btca.value);
        var head := HeadFromBlock(env, block, TxID(btca.value.btcTxId, height, ""), btccHash);
        if tx.None? || head.None? then None else Some(Upgrade(btca.value, agg.value, tx.value, head.value))
  }

  /** The chain branch of an anchor state, as a proof without a calendar part. */
  function UpgradeDoc(state: Stored<OpsState>, up: Upgrade, network: string): Option<ProofDoc>
  {
    if state.Unparsable? || up.tx.btcTxState.Unparsable? || up.head.btcHeadState.Unparsable? then None
    else Some(ProofDoc("", "", [ChainBranch(state.value, up.tx.btcTxState.value, up.head.btcHeadState.value, SetProofType(network, "btc"))]))
  }

  function UpgradedProof(env: Env, log: seq<LogEntry>, txid: string, block: Option<BlockDetails>, height: int, btccHash: Bytes): Option<ProofDoc>
  {
    var up := UpgradeOf(env, log, txid, block, height, btccHash);
    if up.None? then None else UpgradeDoc(AnchorStateOf(up.value.agg, txid), up.value, env.network)
  }

  method CollectUpgrade(env: Env, log: seq<LogEntry>, txid: string, block: Option<BlockDetails>, height: int, btccHash: Bytes)
    returns (up: Option<Upgrade>)
    requires Increasing(log)
    ensures up == UpgradeOf(env, log, txid, block, height, btccHash)
  {
    var btca := GetBtcaForCalTx(log, txid);
    if btca.None? {
      return None;
    }
    var btcAgg := GetTreeFromCalRange(env, log, btca.value.beginCalTxInt, btca.value.endCalTxInt);
    if btcAgg.None? || btcAgg.value.anchorBtcAggRoot != btca.value.anchorBtcAggRoot {
      return None;
    }
    var anchorBtcTxState := GenerateAnchorBtcTxState(btca.value);
    if anchorBtcTxState.None? {
      return None;
    }
    var btcProofMsg := GenerateBtcHeaderProof(env.h, block, TxID(btca.value.btcTxId, height, ""));
    if btcProofMsg.None? {
      return None;
    }
    var headStateObj := GenerateHeadStateObject(env.lower, env.coreUri, btccHash, btcProofMsg.value, env.decimal);
    up := Some(Upgrade(btca.value, btcAgg.value, anchorBtcTxState.value, headStateObj));
  }

  method ConstructProof(env: Env, log: seq<LogEntry>, txid: string, block: Option<BlockDetails>, height: int, btccHash: Bytes)
    returns (doc: Option<ProofDoc>)
    requires Increasing(log)
    ensures doc == UpgradedProof(env, log, txid, block, height, btccHash)
  {
    var up := CollectUpgrade(env, log, txid, block, height, btccHash);
    if up.None? {
      return None;
    }
    var states := PrepareBtcaStateData(up.value.agg);
    var lookup := BuildAnchorLookup(states);
    doc := BuildUpgrade(if txid in lookup then lookup[txid].anchorBtcAggState else Unparsable, up.value, env.network);
  }

  method BuildUpgrade(state: Stored<OpsState>, up: Upgrade, network: string) returns (doc: Option<ProofDoc>)
    ensures doc == UpgradeDoc(state, up, network)
  {
    var btcProof := new Proof();
    var ok := btcProof.AddChainBranch(state, up.tx.btcTxState, up.head.btcHeadState, SetProofType(network, "btc"));
    if !ok {
      return None;
    }
    doc := Some(btcProof.Marshal());
  }

  /** The branch nested in a stored BTC proof. */
  function NestedBranch(doc: ProofDoc): Option<Branch>
  {
    if |doc.branches| == 1 && |doc.branches[0].branches| == 1 then Some(doc.branches[0].branches[0]) else None
  }

  /** A selected anchor state is stored under the calendar transaction it is selected for. */
  lemma SelectedIsThere(db: Db, proofIds: seq<string>, row: AggState, txid: string)
    requires DoubleIndexed(db)
    requires var j := JoinRows(db, proofIds); Selected(row, j.cals, j.anchors).Some? && CalLookup(j.cals)[row.aggId].calId == txid
    ensures var b := Selected(row, JoinRows(db, proofIds).cals, JoinRows(db, proofIds).anchors).value;
            b in At(db.anchorByCal, txid) && b.calId == txid
  {
    var j := JoinRows(db, proofIds);
    AnchorLookupFinds(j.anchors, txid);
    var b := Selected(row, j.cals, j.anchors).value;
    GatherFinds(db.anchorByCal, CalIds(j.cals), b);
    var k :| k in CalIds(j.cals) && b in At(db.anchorByCal, k);
    AgreeKeys(db.anchorByAgg, db.anchorByCal, AnchorAggIdOf, AnchorCalIdOf, b, "", k);
  }
}
