/** database/level/chainpointdb.go: the proof store, every record under two keys. */
module Store {
  import opened ProofOps
  import opened ChainTypes
  import opened KeyValue

  /** The prefixes of the key space as typed tables. */
  datatype Db = Db(
    aggByAgg: map<string, seq<AggState>>,
    aggByProof: map<string, seq<AggState>>,
    calByCal: map<string, seq<CalStateObject>>,
    calByAgg: map<string, seq<CalStateObject>>,
    anchorByAgg: map<string, seq<AnchorBtcAggState>>,
    anchorByCal: map<string, seq<AnchorBtcAggState>>,
    txByTx: map<string, AnchorBtcTxState>,
    txByAgg: map<string, AnchorBtcTxState>,
    proofs: map<string, ProofDoc>)

  const EMPTY: Db := Db(map[], map[], map[], map[], map[], map[], map[], map[], map[])

  // ---- inserts -------------------------------------------------------------

  function AppendTo<T>(lists: map<string, seq<T>>, key: string, value: T): map<string, seq<T>>
  {
    lists[key := At(lists, key) + [value]]
  }

  function InsertAgg(db: Db, a: AggState): Db
  {
    db.(aggByAgg := AppendTo(db.aggByAgg, a.aggId, a), aggByProof := AppendTo(db.aggByProof, a.proofId, a))
  }

  function InsertCal(db: Db, c: CalStateObject): Db
  {
    db.(calByCal := AppendTo(db.calByCal, c.calId, c), calByAgg := AppendTo(db.calByAgg, c.aggId, c))
  }

  function InsertAnchor(db: Db, b: AnchorBtcAggState): Db
  {
    db.(anchorByAgg := AppendTo(db.anchorByAgg, b.anchorBtcAggId, b), anchorByCal := AppendTo(db.anchorByCal, b.calId, b))
  }

  function InsertTx(db: Db, t: AnchorBtcTxState): Db
  {
    db.(txByTx := db.txByTx[t.btcTxId := t], txByAgg := db.txByAgg[t.anchorBtcAggId := t])
  }

  function InsertAggs(db: Db, rows: seq<AggState>): Db
  {
    if rows == [] then db else InsertAgg(InsertAggs(db, rows[..|rows| - 1]), rows[|rows| - 1])
  }

  function InsertCals(db: Db, rows: seq<CalStateObject>): Db
  {
    if rows == [] then db else InsertCal(InsertCals(db, rows[..|rows| - 1]), rows[|rows| - 1])
  }

  function InsertAnchors(db: Db, rows: seq<AnchorBtcAggState>): Db
  {
    if rows == [] then db else InsertAnchor(InsertAnchors(db, rows[..|rows| - 1]), rows[|rows| - 1])
  }

  /** Whether the stored text of a proof contains "btc_anchor_branch". */
  predicate MentionsBtc(branches: seq<Branch>)
  {
    exists i :: 0 <= i < |branches| && (branches[i].name == BTC_BRANCH || MentionsBtc(branches[i].branches))
  }

  function InsertProof(proofs: map<string, ProofDoc>, doc: ProofDoc): map<string, ProofDoc>
  {
    if doc.proofId in proofs && MentionsBtc(proofs[doc.proofId].branches) then proofs
    else proofs[doc.proofId := doc]
  }

  function InsertProofs(proofs: map<string, ProofDoc>, docs: seq<ProofDoc>): map<string, ProofDoc>
  {
    if docs == [] then proofs else InsertProof(InsertProofs(proofs, docs[..|docs| - 1]), docs[|docs| - 1])
  }

  /** A transaction state is under both of its keys, and no other record is touched. */
  lemma TxUnderBothKeys(db: Db, t: AnchorBtcTxState, k: string)
    ensures var after := InsertTx(db, t);
            && t.btcTxId in after.txByTx && after.txByTx[t.btcTxId] == t && t.anchorBtcAggId in after.txByAgg && after.txByAgg[t.anchorBtcAggId] == t
            && (k != t.btcTxId ==> (k in after.txByTx <==> k in db.txByTx) && (k in db.txByTx ==> after.txByTx[k] == db.txByTx[k]))
            && (k != t.anchorBtcAggId ==> (k in after.txByAgg <==> k in db.txByAgg) && (k in db.txByAgg ==> after.txByAgg[k] == db.txByAgg[k]))
            && after.proofs == db.proofs && after.aggByProof == db.aggByProof && after.calByAgg == db.calByAgg && after.anchorByCal == db.anchorByCal
  {
  }

  // ---- lookups -------------------------------------------------------------

  function ProofIdsOf(rows: seq<AggState>): (ids: seq<string>)
    ensures forall p :: p in ids <==> exists a :: a in rows && a.proofId == p
  {
    if rows == [] then [] else ProofIdsOf(rows[..|rows| - 1]) + [rows[|rows| - 1].proofId]
  }

  function ProofIdsOfCals(db: Db, cals: seq<CalStateObject>): seq<string>
  {
    if cals == [] then []
    else ProofIdsOfCals(db, cals[..|cals| - 1]) + ProofIdsOf(At(db.aggByAgg, cals[|cals| - 1].aggId))
  }

  function ProofIdsOfAnchors(db: Db, anchors: seq<AnchorBtcAggState>): seq<string>
  {
    if anchors == [] then []
    else ProofIdsOfAnchors(db, anchors[..|anchors| - 1]) + ProofIdsOfCals(db, At(db.calByCal, anchors[|anchors| - 1].calId))
  }

  /** The aggregation of a BTC transaction; an unknown transaction reads as the empty ID. */
  function AggIdOfTx(db: Db, btcTxId: string): string
  {
    if btcTxId in db.txByTx then db.txByTx[btcTxId].anchorBtcAggId else ""
  }

  function ProofIdsOfTx(db: Db, btcTxId: string): seq<string>
  {
    ProofIdsOfAnchors(db, At(db.anchorByAgg, AggIdOfTx(db, btcTxId)))
  }

  /** The rows found under a list of keys, key by key. */
  function Gather<T>(lists: map<string, seq<T>>, keys: seq<string>): seq<T>
  {
    if keys == [] then [] else Gather(lists, keys[..|keys| - 1]) + At(lists, keys[|keys| - 1])
  }

  lemma {:induction false} GatherFinds<T>(lists: map<string, seq<T>>, keys: seq<string>, x: T)
    ensures x in Gather(lists, keys) <==> exists k :: k in keys && x in At(lists, k)
  {
    if keys == [] {
    } else {
      var front, last := keys[..|keys| - 1], keys[|keys| - 1];
      GatherFinds(lists, front, x);
      assert keys == front + [last];
    }
  }

  class ChainpointDb {
    var db: Db

    constructor ()
      ensures db == EMPTY
    {
      db := EMPTY;
    }

    method BulkInsertAggState(aggStates: seq<AggState>)
      modifies this
      ensures db == InsertAggs(old(db), aggStates)
    {
      for i := 0 to |aggStates|
        invariant db == InsertAggs(old(db), aggStates[..i])
      {
        assert aggStates[..i + 1][..i] == aggStates[..i];
        var agg := aggStates[i];
        db := db.(aggByAgg := AppendTo(db.aggByAgg, agg.aggId, agg));
        db := db.(aggByProof := AppendTo(db.aggByProof, agg.proofId, agg));
      }
      assert aggStates[..|aggStates|] == aggStates;
    }

    method BulkInsertCalState(calStates: seq<CalStateObject>)
      modifies this
      ensures db == InsertCals(old(db), calStates)
    {
      for i := 0 to |calStates|
        invariant db == InsertCals(old(db), calStates[..i])
      {
        assert calStates[..i + 1][..i] == calStates[..i];
        var cal := calStates[i];
        db := db.(calByCal := AppendTo(db.calByCal, cal.calId, cal));
        db := db.(calByAgg := AppendTo(db.calByAgg, cal.aggId, cal));
      }
      assert calStates[..|calStates|] == calStates;
    }

    method BulkInsertBtcAggState(aggStates: seq<AnchorBtcAggState>)
      modifies this
      ensures db == InsertAnchors(old(db), aggStates)
    {
      for i := 0 to |aggStates|
        invariant db == InsertAnchors(old(db), aggStates[..i])
      {
        assert aggStates[..i + 1][..i] == aggStates[..i];
        var agg := aggStates[i];
        db := db.(anchorByAgg := AppendTo(db.anchorByAgg, agg.anchorBtcAggId, agg));
        db := db.(anchorByCal := AppendTo(db.anchorByCal, agg.calId, agg));
      }
      assert aggStates[..|aggStates|] == aggStates;
    }

    /** The callers insert one state at a time. */
    method InsertBtcTxState(state: AnchorBtcTxState)
      modifies this
      ensures db == InsertTx(old(db), state)
    {
      db := db.(txByTx := db.txByTx[state.btcTxId := state]);
      db := db.(txByAgg := db.txByAgg[state.anchorBtcAggId := state]);
    }

    method BulkInsertProofs(docs: seq<ProofDoc>)
      modifies this
      ensures db == old(db).(proofs := InsertProofs(old(db).proofs, docs))
    {
      for i := 0 to |docs|
        invariant db == old(db).(proofs := InsertProofs(old(db).proofs, docs[..i]))
      {
        assert docs[..i + 1][..i] == docs[..i];
        var proof := docs[i];
        if !(proof.proofId in db.proofs && MentionsBtc(db.proofs[proof.proofId].branches)) {
          db := db.(proofs := db.proofs[proof.proofId := proof]);
        }
      }
      assert docs[..|docs|] == docs;
    }

    method GetProofIdsByBtcTxId(btcTxId: string) returns (proofIds: seq<string>)
      ensures proofIds == ProofIdsOfTx(db, btcTxId)
    {
      var anchoraggs := At(db.anchorByAgg, AggIdOfTx(db, btcTxId));
      proofIds := [];
      for i := 0 to |anchoraggs|
        invariant proofIds == ProofIdsOfAnchors(db, anchoraggs[..i])
      {
        assert anchoraggs[..i + 1][..i] == anchoraggs[..i];
        var ids := CollectCalProofIds(anchoraggs[i].calId);
        proofIds := proofIds + ids;
      }
      assert anchoraggs[..|anchoraggs|] == anchoraggs;
    }

    /** The middle loop of the join. */
    method CollectCalProofIds(calId: string) returns (proofIds: seq<string>)
      ensures proofIds == ProofIdsOfCals(db, At(db.calByCal, calId))
    {
      var calstates := At(db.calByCal, calId);
      proofIds := [];
      for j := 0 to |calstates|
        invariant proofIds == ProofIdsOfCals(db, calstates[..j])
      {
        assert calstates[..j + 1][..j] == calstates[..j];
        var ids := CollectProofIds(calstates[j].aggId);
        proofIds := proofIds + ids;
      }
      assert calstates[..|calstates|] == calstates;
    }

    /** The innermost loop of the join. */
    method CollectProofIds(aggId: string) returns (ids: seq<string>)
      ensures ids == ProofIdsOf(At(db.aggByAgg, aggId))
    {
      var aggstates := At(db.aggByAgg, aggId);
      ids := [];
      for k := 0 to |aggstates|
        invariant ids == ProofIdsOf(aggstates[..k])
      {
        assert aggstates[..k + 1][..k] == aggstates[..k];
        ids := ids + [aggstates[k].proofId];
      }
      assert aggstates[..|aggstates|] == aggstates;
    }

    method GetAggStateObjectsByProofIds(proofIds: seq<string>) returns (results: seq<AggState>)
      ensures results == Gather(db.aggByProof, proofIds)
    {
      results := [];
      for i := 0 to |proofIds|
        invariant results == Gather(db.aggByProof, proofIds[..i])
      {
        assert proofIds[..i + 1][..i] == proofIds[..i];
        results := results + At(db.aggByProof, proofIds[i]);
      }
      assert proofIds[..|proofIds|] == proofIds;
    }

    method GetCalStateObjectsByAggIds(aggIds: seq<string>) returns (results: seq<CalStateObject>)
      ensures results == Gather(db.calByAgg, aggIds)
    {
      results := [];
      for i := 0 to |aggIds|
        invariant results == Gather(db.calByAgg, aggIds[..i])
      {
        assert aggIds[..i + 1][..i] == aggIds[..i];
        results := results + At(db.calByAgg, aggIds[i]);
      }
      assert aggIds[..|aggIds|] == aggIds;
    }

    method GetAnchorBTCAggStateObjectsByCalIds(calIds: seq<string>) returns (results: seq<AnchorBtcAggState>)
      ensures results == Gather(db.anchorByCal, calIds)
    {
      results := [];
      for i := 0 to |calIds|
        invariant results == Gather(db.anchorByCal, calIds[..i])
      {
        assert calIds[..i + 1][..i] == calIds[..i];
        results := results + At(db.anchorByCal, calIds[i]);
      }
      assert calIds[..|calIds|] == calIds;
    }
  }

  // ---- the two indexes agree -----------------------------------------------

  /** Records sit under their own keys, and each is held as often in one index as in the other. */
  ghost predicate Agree<T(!new)>(m1: map<string, seq<T>>, m2: map<string, seq<T>>, k1: T -> string, k2: T -> string)
  {
    && (forall k, r :: r in At(m1, k) ==> k1(r) == k)
    && (forall k, r :: r in At(m2, k) ==> k2(r) == k)
    && (forall r :: multiset(At(m1, k1(r)))[r] == multiset(At(m2, k2(r)))[r])
  }

  lemma AppendAgrees<T(!new)>(m1: map<string, seq<T>>, m2: map<string, seq<T>>, k1: T -> string, k2: T -> string, r: T)
    requires Agree(m1, m2, k1, k2)
    ensures Agree(AppendTo(m1, k1(r), r), AppendTo(m2, k2(r), r), k1, k2)
  {
    var n1, n2 := AppendTo(m1, k1(r), r), AppendTo(m2, k2(r), r);
    AppendKeeps(m1, k1, r);
    AppendKeeps(m2, k2, r);
    forall x ensures multiset(At(n1, k1(x)))[x] == multiset(At(n2, k2(x)))[x] {
      assert multiset(At(m1, k1(x)))[x] == multiset(At(m2, k2(x)))[x];
    }
  }

  lemma AppendKeeps<T(!new)>(m: map<string, seq<T>>, key: T -> string, r: T)
    requires forall k, x :: x in At(m, k) ==> key(x) == k
    ensures forall k, x :: x in At(AppendTo(m, key(r), r), k) ==> key(x) == k
    ensures forall x :: multiset(At(AppendTo(m, key(r), r), key(x)))[x] == multiset(At(m, key(x)))[x] + (if x == r then 1 else 0)
  {
    var n := AppendTo(m, key(r), r);
    forall k, x | x in At(n, k) ensures key(x) == k {
      if k == key(r) {
        assert x in At(m, k) || x == r;
      } else {
        assert x in At(m, k);
      }
    }
  }

  function AggIdOf(a: AggState): string { a.aggId }
  function ProofIdOf(a: AggState): string { a.proofId }
  function CalIdOf(c: CalStateObject): string { c.calId }
  function CalAggIdOf(c: CalStateObject): string { c.aggId }
  function AnchorAggIdOf(b: AnchorBtcAggState): string { b.anchorBtcAggId }
  function AnchorCalIdOf(b: AnchorBtcAggState): string { b.calId }

  ghost predicate DoubleIndexed(db: Db)
  {
    && Agree(db.aggByAgg, db.aggByProof, AggIdOf, ProofIdOf)
    && Agree(db.calByCal, db.calByAgg, CalIdOf, CalAggIdOf)
    && Agree(db.anchorByAgg, db.anchorByCal, AnchorAggIdOf, AnchorCalIdOf)
    && (forall t :: t in db.txByTx ==> db.txByTx[t].btcTxId == t)
  }

  datatype Insert =
    | AggRows(aggs: seq<AggState>)
    | CalRows(cals: seq<CalStateObject>)
    | AnchorRows(anchors: seq<AnchorBtcAggState>)
    | TxRow(tx: AnchorBtcTxState)
    | ProofRows(docs: seq<ProofDoc>)

  function Inserted(db: Db, op: Insert): Db
  {
    match op
    case AggRows(rows) => InsertAggs(db, rows)
    case CalRows(rows) => InsertCals(db, rows)
    case AnchorRows(rows) => InsertAnchors(db, rows)
    case TxRow(t) => InsertTx(db, t)
    case ProofRows(docs) => db.(proofs := InsertProofs(db.proofs, docs))
  }

  function AfterInserts(db: Db, ops: seq<Insert>): Db
  {
    if ops == [] then db else Inserted(AfterInserts(db, ops[..|ops| - 1]), ops[|ops| - 1])
  }

  lemma {:induction false} InsertAggsKeep(db: Db, rows: seq<AggState>)
    requires DoubleIndexed(db)
    ensures DoubleIndexed(InsertAggs(db, rows))
  {
    if rows == [] {
    } else {
      InsertAggsKeep(db, rows[..|rows| - 1]);
      var before := InsertAggs(db, rows[..|rows| - 1]);
      AppendAgrees(before.aggByAgg, before.aggByProof, AggIdOf, ProofIdOf, rows[|rows| - 1]);
    }
  }

  lemma {:induction false} InsertCalsKeep(db: Db, rows: seq<CalStateObject>)
    requires DoubleIndexed(db)
    ensures DoubleIndexed(InsertCals(db, rows))
  {
    if rows == [] {
    } else {
      InsertCalsKeep(db, rows[..|rows| - 1]);
      var before := InsertCals(db, rows[..|rows| - 1]);
      AppendAgrees(before.calByCal, before.calByAgg, CalIdOf, CalAggIdOf, rows[|rows| - 1]);
    }
  }

  lemma {:induction false} InsertAnchorsKeep(db: Db, rows: seq<AnchorBtcAggState>)
    requires DoubleIndexed(db)
    ensures DoubleIndexed(InsertAnchors(db, rows))
  {
    if rows == [] {
    } else {
      InsertAnchorsKeep(db, rows[..|rows| - 1]);
      var before := InsertAnchors(db, rows[..|rows| - 1]);
      AppendAgrees(before.anchorByAgg, before.anchorByCal, AnchorAggIdOf, AnchorCalIdOf, rows[|rows| - 1]);
    }
  }

  /** The two indexes agree after any sequence of inserts. */
  lemma {:induction false} IndexesAgree(ops: seq<Insert>)
    ensures DoubleIndexed(AfterInserts(EMPTY, ops))
  {
    if ops == [] {
    } else {
      IndexesAgree(ops[..|ops| - 1]);
      InsertAgrees(AfterInserts(EMPTY, ops[..|ops| - 1]), ops[|ops| - 1]);
    }
  }

  lemma InsertAgrees(db: Db, op: Insert)
    requires DoubleIndexed(db)
    ensures DoubleIndexed(Inserted(db, op))
  {
    match op
    case AggRows(rows) => InsertAggsKeep(db, rows);
    case CalRows(rows) => InsertCalsKeep(db, rows);
    case AnchorRows(rows) => InsertAnchorsKeep(db, rows);
    case TxRow(_) =>
    case ProofRows(_) =>
  }

  // ---- the forward join is the backward walk -------------------------------

  /** A backward walk from a proof ID through its aggregation, calendar and anchor records. */
  ghost predicate WalkReaches(db: Db, p: string, aggId: string)
  {
    exists a, c, b :: Walk(db, p, a, c, b) && b.anchorBtcAggId == aggId
  }

  ghost predicate Walk(db: Db, p: string, a: AggState, c: CalStateObject, b: AnchorBtcAggState)
  {
    a in At(db.aggByProof, p) && c in At(db.calByAgg, a.aggId) && b in At(db.anchorByCal, c.calId)
  }

  lemma AgreeMembers<T(!new)>(m1: map<string, seq<T>>, m2: map<string, seq<T>>, k1: T -> string, k2: T -> string, r: T)
    requires Agree(m1, m2, k1, k2)
    ensures r in At(m1, k1(r)) <==> r in At(m2, k2(r))
  {
    assert multiset(At(m1, k1(r)))[r] == multiset(At(m2, k2(r)))[r];
    assert r in At(m1, k1(r)) <==> r in multiset(At(m1, k1(r)));
    assert r in At(m2, k2(r)) <==> r in multiset(At(m2, k2(r)));
  }

  lemma {:induction false} CalsFind(db: Db, cals: seq<CalStateObject>, p: string)
    ensures p in ProofIdsOfCals(db, cals) <==> exists c, a :: c in cals && a in At(db.aggByAgg, c.aggId) && a.proofId == p
  {
    if cals == [] {
    } else {
      var front, last := cals[..|cals| - 1], cals[|cals| - 1];
      CalsFind(db, front, p);
      assert cals == front + [last];
    }
  }

  lemma {:induction false} AnchorsFind(db: Db, anchors: seq<AnchorBtcAggState>, p: string)
    ensures p in ProofIdsOfAnchors(db, anchors) <==>
            exists b, c, a :: b in anchors && c in At(db.calByCal, b.calId) && a in At(db.aggByAgg, c.aggId) && a.proofId == p
  {
    if anchors == [] {
    } else {
      var front, last := anchors[..|anchors| - 1], anchors[|anchors| - 1];
      AnchorsFind(db, front, p);
      CalsFind(db, At(db.calByCal, last.calId), p);
      assert anchors == front + [last];
    }
  }

  /** GetProofIdsByBtcTxId returns exactly the proofs that walk back to the transaction's
      aggregation. */
  lemma ForwardIsBackward(db: Db, btcTxId: string, p: string)
    requires DoubleIndexed(db)
    ensures p in ProofIdsOfTx(db, btcTxId) <==> WalkReaches(db, p, AggIdOfTx(db, btcTxId))
  {
    var id := AggIdOfTx(db, btcTxId);
    AnchorsFind(db, At(db.anchorByAgg, id), p);
    if p in ProofIdsOfTx(db, btcTxId) {
      var b, c, a :| b in At(db.anchorByAgg, id) && c in At(db.calByCal, b.calId) && a in At(db.aggByAgg, c.aggId) && a.proofId == p;
      RowsAgree(db, a, c, b);
      RowsUnderKeys(db, p, a, c, b, c.aggId, b.calId, id);
      assert Walk(db, p, a, c, b);
    }
    if WalkReaches(db, p, id) {
      var a, c, b :| Walk(db, p, a, c, b) && b.anchorBtcAggId == id;
      RowsAgree(db, a, c, b);
      RowsUnderKeys(db, p, a, c, b, a.aggId, c.calId, id);
      assert b in At(db.anchorByAgg, id) && c in At(db.calByCal, b.calId) && a in At(db.aggByAgg, c.aggId) && a.proofId == p;
    }
  }

  lemma RowsUnderKeys(db: Db, p: string, a: AggState, c: CalStateObject, b: AnchorBtcAggState, aggKey: string, calKey: string, id: string)
    requires DoubleIndexed(db)
    ensures a in At(db.aggByAgg, aggKey) ==> a.aggId == aggKey
    ensures a in At(db.aggByProof, p) ==> a.proofId == p
    ensures c in At(db.calByCal, calKey) ==> c.calId == calKey
    ensures c in At(db.calByAgg, aggKey) ==> c.aggId == aggKey
    ensures b in At(db.anchorByAgg, id) ==> b.anchorBtcAggId == id
    ensures b in At(db.anchorByCal, calKey) ==> b.calId == calKey
  {
    AgreeKeys(db.aggByAgg, db.aggByProof, AggIdOf, ProofIdOf, a, aggKey, p);
    AgreeKeys(db.calByCal, db.calByAgg, CalIdOf, CalAggIdOf, c, calKey, aggKey);
    AgreeKeys(db.anchorByAgg, db.anchorByCal, AnchorAggIdOf, AnchorCalIdOf, b, id, calKey);
  }

  lemma AgreeKeys<T(!new)>(m1: map<string, seq<T>>, m2: map<string, seq<T>>, k1: T -> string, k2: T -> string, r: T,
                           key1: string, key2: string)
    requires Agree(m1, m2, k1, k2)
    ensures r in At(m1, key1) ==> k1(r) == key1
    ensures r in At(m2, key2) ==> k2(r) == key2
  {
  }

  lemma RowsAgree(db: Db, a: AggState, c: CalStateObject, b: AnchorBtcAggState)
    requires DoubleIndexed(db)
    ensures a in At(db.aggByAgg, a.aggId) <==> a in At(db.aggByProof, a.proofId)
    ensures c in At(db.calByCal, c.calId) <==> c in At(db.calByAgg, c.aggId)
    ensures b in At(db.anchorByAgg, b.anchorBtcAggId) <==> b in At(db.anchorByCal, b.calId)
  {
    AgreeMembers(db.aggByAgg, db.aggByProof, AggIdOf, ProofIdOf, a);
    AgreeMembers(db.calByCal, db.calByAgg, CalIdOf, CalAggIdOf, c);
    AgreeMembers(db.anchorByAgg, db.anchorByCal, AnchorAggIdOf, AnchorCalIdOf, b);
  }

  // ---- stored proofs -------------------------------------------------------

  /** The proof a sequence of inserts leaves under an ID: the first that mentions a BTC
      branch, or else the last. */
  function Winner(docs: seq<ProofDoc>, id: string): Option<ProofDoc>
  {
    if docs == [] then None
    else
      var before, last := Winner(docs[..|docs| - 1], id), docs[|docs| - 1];
      if last.proofId != id || (before.Some? && MentionsBtc(before.value.branches)) then before else Some(last)
  }

  /** ... as a description rather than a computation. */
  ghost predicate IsWinner(docs: seq<ProofDoc>, id: string, i: nat)
  {
    && i < |docs| && docs[i].proofId == id
    && (forall k :: 0 <= k < i && docs[k].proofId == id ==> !MentionsBtc(docs[k].branches))
    && (MentionsBtc(docs[i].branches) || forall k :: i < k < |docs| ==> docs[k].proofId != id)
  }

  lemma {:induction false} WinnerIsFirstBtcOrLast(docs: seq<ProofDoc>, id: string)
    ensures Winner(docs, id).None? <==> forall k :: 0 <= k < |docs| ==> docs[k].proofId != id
    ensures Winner(docs, id).Some? ==> exists i: nat :: IsWinner(docs, id, i) && Winner(docs, id).value == docs[i]
  {
    if docs == [] {
    } else {
      var n := |docs| - 1;
      var front := docs[..n];
      WinnerIsFirstBtcOrLast(front, id);
      assert forall k :: 0 <= k < n ==> front[k] == docs[k];
      if Winner(front, id).Some? {
        var i: nat :| IsWinner(front, id, i) && Winner(front, id).value == front[i];
        if docs[n].proofId != id || MentionsBtc(docs[i].branches) {
          assert IsWinner(docs, id, i);
        } else {
          assert forall k :: 0 <= k < n && docs[k].proofId == id ==> !MentionsBtc(front[k].branches);
          assert IsWinner(docs, id, n);
        }
      } else if docs[n].proofId == id {
        assert forall k :: 0 <= k < n ==> front[k].proofId != id;
        assert IsWinner(docs, id, n);
      }
    }
  }

  lemma {:induction false} StoredIsWinner(docs: seq<ProofDoc>, id: string)
    ensures id in InsertProofs(map[], docs) <==> Winner(docs, id).Some?
    ensures id in InsertProofs(map[], docs) ==> InsertProofs(map[], docs)[id] == Winner(docs, id).value
  {
    if docs == [] {
    } else {
      StoredIsWinner(docs[..|docs| - 1], id);
    }
  }

  /** The proofs of a run, batch after batch. */
  function AllDocs(ops: seq<Insert>): seq<ProofDoc>
  {
    if ops == [] then []
    else AllDocs(ops[..|ops| - 1]) + (if ops[|ops| - 1].ProofRows? then ops[|ops| - 1].docs else [])
  }

  lemma {:induction false} InsertProofsConcat(proofs: map<string, ProofDoc>, a: seq<ProofDoc>, b: seq<ProofDoc>)
    ensures InsertProofs(proofs, a + b) == InsertProofs(InsertProofs(proofs, a), b)
  {
    if b == [] {
      assert a + b == a;
    } else {
      assert (a + b)[..|a + b| - 1] == a + b[..|b| - 1];
      InsertProofsConcat(proofs, a, b[..|b| - 1]);
    }
  }

  /** Only proof batches touch the stored proofs. */
  lemma {:induction false} ProofsOfRun(ops: seq<Insert>)
    ensures AfterInserts(EMPTY, ops).proofs == InsertProofs(map[], AllDocs(ops))
  {
    if ops == [] {
    } else {
      var front, last := ops[..|ops| - 1], ops[|ops| - 1];
      ProofsOfRun(front);
      var before := AfterInserts(EMPTY, front);
      assert !last.ProofRows? ==> AllDocs(ops) == AllDocs(front);
      match last
      case AggRows(rows) => InsertAggsProofs(before, rows);
      case CalRows(rows) => InsertCalsProofs(before, rows);
      case AnchorRows(rows) => InsertAnchorsProofs(before, rows);
      case TxRow(_) =>
      case ProofRows(docs) => InsertProofsConcat(map[], AllDocs(front), docs);
    }
  }

  lemma {:induction false} InsertAggsProofs(db: Db, rows: seq<AggState>)
    ensures var after := InsertAggs(db, rows);
            after == db.(aggByAgg := after.aggByAgg, aggByProof := after.aggByProof)
  {
    if rows != [] { InsertAggsProofs(db, rows[..|rows| - 1]); }
  }

  lemma {:induction false} InsertCalsProofs(db: Db, rows: seq<CalStateObject>)
    ensures var after := InsertCals(db, rows);
            after == db.(calByCal := after.calByCal, calByAgg := after.calByAgg)
  {
    if rows != [] { InsertCalsProofs(db, rows[..|rows| - 1]); }
  }

  lemma {:induction false} InsertAnchorsProofs(db: Db, rows: seq<AnchorBtcAggState>)
    ensures var after := InsertAnchors(db, rows);
            after == db.(anchorByAgg := after.anchorByAgg, anchorByCal := after.anchorByCal)
  {
    if rows != [] { InsertAnchorsProofs(db, rows[..|rows| - 1]); }
  }

  /** Under any interleaving of batches, the stored proof is the first one inserted with a
      BTC branch, or while there is none the latest one. */
  lemma StoredProofOfRun(ops: seq<Insert>, id: string)
    ensures var proofs, docs := AfterInserts(EMPTY, ops).proofs, AllDocs(ops);
            && (id in proofs <==> exists k :: 0 <= k < |docs| && docs[k].proofId == id)
            && (id in proofs ==> exists i: nat :: IsWinner(docs, id, i) && proofs[id] == docs[i])
  {
    ProofsOfRun(ops);
    StoredIsWinner(AllDocs(ops), id);
    WinnerIsFirstBtcOrLast(AllDocs(ops), id);
  }

  /** A stored BTC proof is never changed again. */
  lemma {:induction false} BtcProofsStay(proofs: map<string, ProofDoc>, docs: seq<ProofDoc>, id: string)
    requires id in proofs && MentionsBtc(proofs[id].branches)
    ensures id in InsertProofs(proofs, docs) && InsertProofs(proofs, docs)[id] == proofs[id]
  {
    if docs == [] {
    } else {
      BtcProofsStay(proofs, docs[..|docs| - 1], id);
    }
  }
}
