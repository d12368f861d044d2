/** A run from a start in which a range is announced in two Bitcoin transactions, as a re-anchoring
    or a second leader does, and the second is confirmed first: the stored proof nests a branch that
    ConstructProof makes for no block. */
module SecondAnnouncement {
  import opened ByteStrings
  import opened Merkle
  import opened ProofOps
  import opened ChainTypes
  import opened Store
  import opened Calendar
  import opened BitcoinBlock
  import opened TxIndex
  import opened ProofAssembly
  import opened ProofSoundness
  import opened ProofRuns
  import opened ProofUpgrade
  import AnchorEngine
  import AnchorRuns
  import AnchorInterval
  import AnchorLosses
  import FailingInputs
  import NodeRuns

  // ---- runs of a node ------------------------------------------------------

  ghost predicate Reaches(cfg: AnchorEngine.Config, w: World, n: NodeRuns.NodeState, n': NodeRuns.NodeState)
  {
    exists steps :: NodeRuns.IsNodeRun(cfg, w, n, steps) && NodeRuns.AfterAll(cfg, n, steps) == n'
  }

  lemma {:induction false} RunConcat(cfg: AnchorEngine.Config, w: World, n: NodeRuns.NodeState, a: seq<NodeRuns.Step>, b: seq<NodeRuns.Step>)
    requires NodeRuns.IsNodeRun(cfg, w, n, a) && NodeRuns.IsNodeRun(cfg, w, NodeRuns.AfterAll(cfg, n, a), b)
    ensures NodeRuns.IsNodeRun(cfg, w, n, a + b) && NodeRuns.AfterAll(cfg, n, a + b) == NodeRuns.AfterAll(cfg, NodeRuns.AfterAll(cfg, n, a), b)
    decreases |a|
  {
    if a == [] {
      assert a + b == b;
    } else {
      assert (a + b)[0] == a[0] && (a + b)[1..] == a[1..] + b;
      RunConcat(cfg, w, NodeRuns.After(cfg, n, a[0]), a[1..], b);
    }
  }

  lemma ReachStep(cfg: AnchorEngine.Config, w: World, n: NodeRuns.NodeState, n': NodeRuns.NodeState, step: NodeRuns.Step)
    requires Reaches(cfg, w, n, n') && NodeRuns.Possible(cfg, w, n', step)
    ensures Reaches(cfg, w, n, NodeRuns.After(cfg, n', step))
  {
    var steps :| NodeRuns.IsNodeRun(cfg, w, n, steps) && NodeRuns.AfterAll(cfg, n, steps) == n';
    assert [step][0] == step && [step][1..] == [];
    assert NodeRuns.IsNodeRun(cfg, w, NodeRuns.After(cfg, n', step), []);
    RunConcat(cfg, w, n, steps, [step]);
  }

  /** A run of the anchor machine is one of the node, if its log ends as a good one. */
  lemma {:induction false} MachineRuns(cfg: AnchorEngine.Config, w: World, m: AnchorRuns.Machine, events: seq<AnchorRuns.Event>, db: Db)
    requires AnchorRuns.IsRun(cfg, m, events) && GoodLog(w, AnchorRuns.Run(cfg, m, events).log)
    ensures m.log <= AnchorRuns.Run(cfg, m, events).log
    ensures Reaches(cfg, w, NodeRuns.NodeState(m, db), NodeRuns.NodeState(AnchorRuns.Run(cfg, m, events), db))
    decreases |events|
  {
    var n := NodeRuns.NodeState(m, db);
    if events == [] {
      assert NodeRuns.IsNodeRun(cfg, w, n, []) && NodeRuns.AfterAll(cfg, n, []) == n;
    } else {
      var next := AnchorRuns.Next(cfg, m, events[0]);
      MachineRuns(cfg, w, next, events[1..], db);
      NodeRuns.AnchoredStays(cfg, m, events[0]);
      PrefixIsGood(w, next.log, AnchorRuns.Run(cfg, m, events).log);
      var end := NodeRuns.NodeState(AnchorRuns.Run(cfg, m, events), db);
      var rest :| NodeRuns.IsNodeRun(cfg, w, NodeRuns.NodeState(next, db), rest) && NodeRuns.AfterAll(cfg, NodeRuns.NodeState(next, db), rest) == end;
      var steps := [NodeRuns.Chain(events[0])] + rest;
      assert steps[0] == NodeRuns.Chain(events[0]) && steps[1..] == rest;
      assert NodeRuns.IsNodeRun(cfg, w, n, steps) && NodeRuns.AfterAll(cfg, n, steps) == end;
    }
  }

  lemma PrefixIsGood(w: World, log: seq<LogEntry>, longer: seq<LogEntry>)
    requires GoodLog(w, longer) && log <= longer
    ensures GoodLog(w, log)
  {
    assert forall e :: e in log ==> e in longer;
    assert forall i :: 0 <= i < |log| ==> log[i] == longer[i];
  }

  lemma FrontIsGood(w: World, log: seq<LogEntry>, k: nat)
    requires GoodLog(w, log) && k <= |log|
    ensures GoodLog(w, log[..k])
  {
    PrefixIsGood(w, log[..k], log);
  }

  // ---- the two announcements -----------------------------------------------

  /** The root that is anchored, and what follows its push in the two transactions. */
  datatype Pair = Pair(root: Bytes, first: string, second: string)

  ghost predicate IsRoot(root: Bytes)
  {
    |root| == 32 && FailingInputs.AllAre(root, 0x11)
  }

  /** A transaction that pushes the root. */
  function Body(root: Bytes, end: string): string
  {
    FailingInputs.PUSH + HexEncode(root) + end
  }

  function IdOf(h: Hash, body: string): string
  {
    Displayed(h(h(HexDecode(body).bytes)))
  }

  function Msg(env: Env, root: Bytes, end: string): BtcTxMsg
    requires |root| >= 16
  {
    BtcTxMsg(env.uuid(root[..16]), HexEncode(root), IdOf(env.h, Body(root, end)), Body(root, end), 0, 2)
  }

  lemma LeafOfId(h: Hash, body: string)
    ensures TxLeaf(IdOf(h, body)) == h(h(HexDecode(body).bytes))
  {
    var leaf := h(h(HexDecode(body).bytes));
    ReverseTxHexOfEncoding(Reversed(leaf));
    ReversedTwice(leaf);
    HexRoundTrip(leaf);
  }

  lemma MsgIsHonest(env: Env, w: World, root: Bytes, end: string)
    requires IsRoot(root) && IsEnd(end) && w.btcRoot(env.uuid(root[..16])) == root
    ensures HonestBtca(env, w, Msg(env, root, end))
  {
    HexRoundTrip(root);
    FailingInputs.SameEncode(root, 0x11, '1');
    FailingInputs.FirstRun(HexEncode(root), end, '1', 4);
    FailingInputs.PushDecodes(HexEncode(root), end);
    LeafOfId(env.h, Body(root, end));
  }

  predicate IsEnd(end: string)
  {
    |end| % 2 == 0 && FailingInputs.IsHex(end)
  }

  ghost predicate Setting(cfg: AnchorEngine.Config, c: Pair)
  {
    && cfg.doAnchor && cfg.anchorInterval >= 11 && IsRoot(c.root) && (forall x :: |cfg.env.h(x)| == 32)
    && IsEnd(c.first) && IsEnd(c.second) && IdOf(cfg.env.h, Body(c.root, c.first)) != IdOf(cfg.env.h, Body(c.root, c.second))
  }

  /** Every tree of the run has the one root; the second transaction is mined alone. */
  function TheWorld(env: Env, c: Pair): World
  {
    World(_ => c.root, _ => c.root, _ => c.root, _ => TxLeaf(IdOf(env.h, Body(c.root, c.second))))
  }

  function BtcaEntry(env: Env, root: Bytes, end: string, n: byte): LogEntry
    requires |root| >= 16
  {
    LogEntry([n], BtcA(Text(Msg(env, root, end))), [TxInt(n), BtcTxTag(Msg(env, root, end).btcTxId)])
  }

  function TheLog(env: Env, c: Pair): seq<LogEntry>
    requires |c.root| >= 16
  {
    [AnchorInterval.CalEntry(c.root, 1), AnchorInterval.CalEntry(c.root, 2), BtcaEntry(env, c.root, c.first, 3), BtcaEntry(env, c.root, c.second, 4)]
  }

  /** A BTC-A of the range is delivered. */
  lemma BtcaDelivered(cfg: AnchorEngine.Config, c: Pair, m0: AnchorRuns.Machine, m: AnchorRuns.Machine, end: string, n: byte)
    returns (next: AnchorRuns.Machine)
    requires |c.root| == 32 && n > 0 && AnchorInterval.Reaches(cfg, m0, m) && m.inBlock && m.anchored == {Range(0, 2)} && m.completed <= {Range(0, 2)}
    requires m.node.state.txInt == n - 1
    ensures AnchorInterval.Reaches(cfg, m0, next) && next.inBlock && next.anchored == next.completed == {Range(0, 2)}
    ensures next.node.state.txInt == n && next.log == m.log + [BtcaEntry(cfg.env, c.root, end, n)]
  {
    next := AnchorLosses.DeliverStep(cfg, m0, m, [n], BtcA(Text(Msg(cfg.env, c.root, end))));
  }

  /** The range of the first calendar transaction is anchored, and both BTC-As are delivered. */
  lemma BothDelivered(cfg: AnchorEngine.Config, c: Pair) returns (m: AnchorRuns.Machine)
    requires Setting(cfg, c)
    ensures AnchorInterval.Reaches(cfg, AnchorInterval.StartMachine(cfg, c.root, c.root), m)
    ensures m.log == TheLog(cfg.env, c) && m.anchored == m.completed == {Range(0, 2)}
  {
    var m0 := AnchorInterval.StartMachine(cfg, c.root, c.root);
    var m1 := AnchorInterval.FirstRangeAnchored(cfg, c.root, c.root);
    var m2 := AnchorInterval.CommitStep(cfg, m0, m1);
    var m3 := BtcaDelivered(cfg, c, m0, m2, c.first, 3);
    m := BtcaDelivered(cfg, c, m0, m3, c.second, 4);
  }

  lemma EntryAt(env: Env, c: Pair, e: LogEntry)
    requires |c.root| == 32 && e in TheLog(env, c)
    ensures exists i: byte :: 0 <= i < 4 && e == TheLog(env, c)[i] && e.hash == [i + 1] && Index(e) == Some(i + 1)
    ensures e.tx.Cal? ==> e.tx.data == HexEncode(c.root)
    ensures e.tx.BtcA? ==> e.tx.msg.Text? && e.tx.msg.value in {Msg(env, c.root, c.first), Msg(env, c.root, c.second)}
  {
    var i: byte :| 0 <= i < 4 && e == TheLog(env, c)[i];
    IndexAt(env, c, i);
  }

  lemma IndexAt(env: Env, c: Pair, i: byte)
    requires |c.root| == 32 && i < 4
    ensures TheLog(env, c)[i].hash == [i + 1] && Index(TheLog(env, c)[i]) == Some(i + 1)
  {
    AnchorInterval.EntryIndex(c.root, 1);
    AnchorInterval.EntryIndex(c.root, 2);
  }

  lemma LogIsIncreasing(env: Env, c: Pair)
    requires |c.root| == 32
    ensures Increasing(TheLog(env, c))
  {
    var log := TheLog(env, c);
    forall i: nat, j: nat | i < j < |log| ensures Index(log[i]).value < Index(log[j]).value {
      IndexAt(env, c, i);
      IndexAt(env, c, j);
    }
  }

  lemma LogIsGood(cfg: AnchorEngine.Config, c: Pair)
    requires Setting(cfg, c)
    ensures GoodLog(TheWorld(cfg.env, c), TheLog(cfg.env, c))
  {
    var log := TheLog(cfg.env, c);
    LogIsIncreasing(cfg.env, c);
    HexRoundTrip(c.root);
    forall d, e | d in log && e in log && d.hash == e.hash ensures d == e {
      EntryAt(cfg.env, c, d);
      EntryAt(cfg.env, c, e);
    }
    forall e | e in log && e.tx.Cal? ensures HexDecode(e.tx.data).bytes == c.root {
      EntryAt(cfg.env, c, e);
    }
  }

  lemma TwoHonest(env: Env, w: World, log: seq<LogEntry>, first: BtcTxMsg, second: BtcTxMsg)
    requires HonestBtca(env, w, first) && HonestBtca(env, w, second) && first.btcTxId != second.btcTxId
    requires forall e :: e in log && IsBtca(e) ==> e.tx.msg.value in {first, second}
    ensures HonestBtcas(env, w, log)
  {
  }

  lemma LogIsHonest(cfg: AnchorEngine.Config, c: Pair)
    requires Setting(cfg, c)
    ensures HonestBtcas(cfg.env, TheWorld(cfg.env, c), TheLog(cfg.env, c))
  {
    var log, w := TheLog(cfg.env, c), TheWorld(cfg.env, c);
    MsgIsHonest(cfg.env, w, c.root, c.first);
    MsgIsHonest(cfg.env, w, c.root, c.second);
    forall e | e in log && IsBtca(e) ensures e.tx.msg.value in {Msg(cfg.env, c.root, c.first), Msg(cfg.env, c.root, c.second)} {
      EntryAt(cfg.env, c, e);
    }
    TwoHonest(cfg.env, w, log, Msg(cfg.env, c.root, c.first), Msg(cfg.env, c.root, c.second));
  }

  lemma BothAreLater(env: Env, c: Pair)
    requires |c.root| == 32
    ensures IndexOfTx(TheLog(env, c), [1]) == Some(1)
    ensures BtcasAfter(TheLog(env, c), 1) == [Msg(env, c.root, c.first), Msg(env, c.root, c.second)]
  {
    var log := TheLog(env, c);
    AnchorInterval.EntryIndex(c.root, 1);
    AnchorInterval.EntryIndex(c.root, 2);
    var a, b := BtcaEntry(env, c.root, c.first, 3), BtcaEntry(env, c.root, c.second, 4);
    assert log[1..][1..] == [a, b] && [a, b][1..] == [b] && [b][1..] == [];
    assert BtcasAfter([b], 1) == [Msg(env, c.root, c.second)];
    assert BtcasAfter([a, b], 1) == [Msg(env, c.root, c.first)] + BtcasAfter([b], 1);
    assert BtcasAfter(log[1..], 1) == [] + BtcasAfter([a, b], 1);
  }

  /** The lookup for the calendar transaction finds the first announcement. */
  lemma FirstIsFound(env: Env, c: Pair)
    requires |c.root| == 32
    ensures BtcaForCalTx(TheLog(env, c), HexEncode([1])) == Some(Msg(env, c.root, c.first))
  {
    HexRoundTrip([1]);
    BothAreLater(env, c);
    FirstCover([Msg(env, c.root, c.first), Msg(env, c.root, c.second)], 1, 0);
  }

  /** The tree of the range, and the anchor state it gives the calendar transaction. */
  lemma TheTree(env: Env, c: Pair)
    requires |c.root| == 32
    ensures var agg := TreeFromCalRange(env, TheLog(env, c), 0, 2);
            && agg.Some? && agg.value.anchorBtcAggRoot == HexEncode(c.root) && AnchorStateOf(agg.value, HexEncode([1])).Text?
  {
    var log, d := TheLog(env, c), AnchorInterval.CalEntry(c.root, 1);
    AnchorInterval.EntryIndex(c.root, 1);
    AnchorInterval.EntryIndex(c.root, 2);
    assert [d] + log[1..] == log;
    OnlyFirstInRange(d, log[1..], 0, 2);
    HexRoundTrip(c.root);
    assert [d][1..] == [];
    assert CalLeaves([d]) == CalLeafOf(d) + CalLeaves([]);
    assert CalLeaves([d]) == [CalLeaf([1], c.root)];
    assert Roots(CalLeaves([d])) == [c.root];
    var agg := BtcAggregate(env.h, env.uuid, [d]).value;
    assert BtcaStates(agg)[0].calId == HexEncode([1]) && BtcaStates(agg)[0] in BtcaStates(agg);
    AnchorLookupFinds(BtcaStates(agg), HexEncode([1]));
    var b := AnchorLookup(BtcaStates(agg))[HexEncode([1])];
    assert b in BtcaStates(agg);
  }

  lemma OnlyFirstInRange(d: LogEntry, rest: seq<LogEntry>, min: int, max: int)
    requires InRange(d, min, max) && forall e :: e in rest ==> !InRange(e, min, max)
    ensures CalRange([d] + rest, min, max) == [d]
  {
    RangeSplit([d], rest, min, max);
    AnchorInterval.OneEntryRange(d, min, max);
    OutsideRange(rest, min, max);
  }

  // ---- the steps of the store ----------------------------------------------

  function Start(cfg: AnchorEngine.Config, c: Pair): NodeRuns.NodeState
  {
    NodeRuns.NodeState(AnchorInterval.StartMachine(cfg, c.root, c.root), EMPTY)
  }

  lemma StartLogIsGood(cfg: AnchorEngine.Config, c: Pair)
    requires Setting(cfg, c)
    ensures GoodLog(TheWorld(cfg.env, c), TheLog(cfg.env, c)[..2])
  {
    LogIsGood(cfg, c);
    FrontIsGood(TheWorld(cfg.env, c), TheLog(cfg.env, c), 2);
  }

  lemma StartHoldsCals(env: Env, c: Pair)
    requires |c.root| == 32
    ensures TheLog(env, c)[..2] == [AnchorInterval.CalEntry(c.root, 1), AnchorInterval.CalEntry(c.root, 2)]
    ensures forall e :: e in TheLog(env, c)[..2] ==> e.tx.Cal?
  {
  }

  lemma StartIsSound(cfg: AnchorEngine.Config, c: Pair)
    requires Setting(cfg, c)
    ensures NodeRuns.Inv(cfg, TheWorld(cfg.env, c), Start(cfg, c))
  {
    AnchorInterval.StartIsInit(cfg, c.root, c.root);
    StartLogIsGood(cfg, c);
    StartHoldsCals(cfg.env, c);
    NodeRuns.StartIsSound(cfg, TheWorld(cfg.env, c), Start(cfg, c).machine);
  }

  /** The node has been reached, with both announcements in its log. */
  ghost predicate Reached(cfg: AnchorEngine.Config, c: Pair, n: NodeRuns.NodeState)
    requires Setting(cfg, c)
  {
    && Reaches(cfg, TheWorld(cfg.env, c), Start(cfg, c), n) && NodeRuns.Inv(cfg, TheWorld(cfg.env, c), n)
    && n.machine.log == TheLog(cfg.env, c) && n.machine.anchored == n.machine.completed == {Range(0, 2)}
  }

  lemma BothReached(cfg: AnchorEngine.Config, c: Pair) returns (n: NodeRuns.NodeState)
    requires Setting(cfg, c)
    ensures Reached(cfg, c, n) && n.db == EMPTY
  {
    var w, m0 := TheWorld(cfg.env, c), AnchorInterval.StartMachine(cfg, c.root, c.root);
    var m := BothDelivered(cfg, c);
    var events :| AnchorRuns.IsRun(cfg, m0, events) && AnchorRuns.Run(cfg, m0, events) == m;
    LogIsGood(cfg, c);
    MachineRuns(cfg, w, m0, events, EMPTY);
    n := NodeRuns.NodeState(m, EMPTY);
    StartIsSound(cfg, c);
    ReachedIsSound(cfg, w, Start(cfg, c), n);
  }

  lemma ReachedIsSound(cfg: AnchorEngine.Config, w: World, n: NodeRuns.NodeState, n': NodeRuns.NodeState)
    requires NodeRuns.Inv(cfg, w, n) && Reaches(cfg, w, n, n') && cfg.anchorInterval >= 11
    ensures NodeRuns.Inv(cfg, w, n')
  {
    var steps :| NodeRuns.IsNodeRun(cfg, w, n, steps) && NodeRuns.AfterAll(cfg, n, steps) == n';
    NodeRuns.EveryProofOfANodeVerifies(cfg, w, n, steps);
  }

  lemma ProofStep(cfg: AnchorEngine.Config, c: Pair, n: NodeRuns.NodeState, e: Event) returns (next: NodeRuns.NodeState)
    requires Setting(cfg, c) && Reached(cfg, c, n)
    requires Fair(cfg.env, TheLog(cfg.env, c), TheWorld(cfg.env, c), {Range(0, 2)}, n.db, e)
    ensures Reached(cfg, c, next) && next.db == AfterEvent(cfg.env, TheLog(cfg.env, c), n.db, e)
  {
    next := NodeRuns.After(cfg, n, NodeRuns.Proofs(e));
    ReachStep(cfg, TheWorld(cfg.env, c), Start(cfg, c), n, NodeRuns.Proofs(e));
    NodeRuns.ProofsKeep(cfg, TheWorld(cfg.env, c), n, e);
  }

  /** One hash, aggregated alone: it is its aggregation's root and the calendar root. */
  function TheRow(c: Pair): AggState
  {
    AggState("p", HexEncode(c.root), "agg", Text(OpsState([])), HexEncode(c.root))
  }

  function TheAggregation(c: Pair): Aggregation
  {
    Aggregation("agg", HexEncode(c.root), [TheRow(c)])
  }

  lemma AggregationIsFair(env: Env, w: World, c: Pair)
    requires |c.root| == 32 && w.aggRoot("agg") == c.root
    ensures FreshAggregations(env, w, EMPTY, [TheAggregation(c)])
  {
    HexRoundTrip(c.root);
    assert Evaluate(env.h, Convert([]), c.root) == ProofOps.Reached(c.root, []);
    assert GoodAggregation(env.h, TheAggregation(c));
  }

  lemma AggregationIsTree(env: Env, w: World, c: Pair)
    requires |c.root| == 32 && w.calRoot(HexEncode([1])) == c.root
    ensures CalendarTree(env.h, [TheAggregation(c)]).calRoot != "" && HonestHash(env, w, [TheAggregation(c)], Some([1]))
  {
    HexRoundTrip(c.root);
    FailingInputs.OneDecoded(TheAggregation(c));
    assert MerkleRoot(env.h, Promote, [c.root]) == c.root;
  }

  function Aggregating(c: Pair): Event
  {
    CalendarStep([TheAggregation(c)], Some([1]))
  }

  lemma AggregatingIsFair(env: Env, log: seq<LogEntry>, w: World, ranges: set<Range>, c: Pair)
    requires |c.root| == 32 && w.aggRoot("agg") == c.root && w.calRoot(HexEncode([1])) == c.root
    ensures Fair(env, log, w, ranges, EMPTY, Aggregating(c))
  {
    AggregationIsFair(env, w, c);
    AggregationIsTree(env, w, c);
  }

  /** The hash is under the first calendar transaction and its proof has no BTC branch. */
  ghost predicate Open(db: Db, a: AggState, cal: CalStateObject)
  {
    Anchored(db, "p", a, cal) && cal.calId == HexEncode([1]) && Unconfirmed(db, "p")
  }

  lemma CalendarOpens(env: Env, log: seq<LogEntry>, w: World, c: Pair) returns (cal: CalStateObject)
    requires |c.root| == 32 && w.aggRoot("agg") == c.root && w.calRoot(HexEncode([1])) == c.root
    ensures Open(AfterEvent(env, log, EMPTY, Aggregating(c)), TheRow(c), cal)
  {
    var aggs := [TheAggregation(c)];
    AggregationIsFair(env, w, c);
    AggregationIsTree(env, w, c);
    AllRowsHold(aggs, TheAggregation(c), TheRow(c));
    RowFindsCal(env, w, EMPTY, aggs, [1], TheRow(c));
    cal := CalLookup(CalStates(env.coreUri, [1], CalendarTree(env.h, aggs)))["agg"];
    CalStatesSound(env, w, EMPTY, aggs, [1], cal);
    OnlyConfirmationsConfirm(env, log, EMPTY, CalendarStep(aggs, Some([1])), "p");
  }

  lemma CalendarReached(cfg: AnchorEngine.Config, c: Pair, n: NodeRuns.NodeState) returns (next: NodeRuns.NodeState, cal: CalStateObject)
    requires Setting(cfg, c) && Reached(cfg, c, n) && n.db == EMPTY
    ensures Reached(cfg, c, next) && Open(next.db, TheRow(c), cal)
  {
    var w := TheWorld(cfg.env, c);
    AggregatingIsFair(cfg.env, TheLog(cfg.env, c), w, {Range(0, 2)}, c);
    next := ProofStep(cfg, c, n, Aggregating(c));
    cal := CalendarOpens(cfg.env, TheLog(cfg.env, c), w, c);
  }

  lemma MonitorLeavesOpen(env: Env, log: seq<LogEntry>, w: World, db: Db, msg: BtcTxMsg, a: AggState, cal: CalStateObject)
    requires Open(db, a, cal) && GoodBtca(env, w, msg)
    ensures var after := AfterEvent(env, log, db, MonitorStep(msg));
            Open(after, a, cal) && db.txByTx.Keys + {msg.btcTxId} <= after.txByTx.Keys
  {
    OnlyConfirmationsConfirm(env, log, db, MonitorStep(msg), "p");
    EventGrows(env, log, db, MonitorStep(msg));
    TxsGrow(env, log, db, MonitorStep(msg));
    MonitorStoresTx(env, log, w, db, msg);
  }

  lemma MonitorReached(cfg: AnchorEngine.Config, c: Pair, n: NodeRuns.NodeState, msg: BtcTxMsg, a: AggState, cal: CalStateObject)
    returns (next: NodeRuns.NodeState)
    requires Setting(cfg, c) && Reached(cfg, c, n) && Open(n.db, a, cal)
    requires msg in {Msg(cfg.env, c.root, c.first), Msg(cfg.env, c.root, c.second)}
    ensures Reached(cfg, c, next) && Open(next.db, a, cal) && n.db.txByTx.Keys + {msg.btcTxId} <= next.db.txByTx.Keys
  {
    MonitorIsFair(cfg, c, n.db, msg);
    next := ProofStep(cfg, c, n, MonitorStep(msg));
    MonitorLeavesOpen(cfg.env, TheLog(cfg.env, c), TheWorld(cfg.env, c), n.db, msg, a, cal);
  }

  lemma MonitorIsFair(cfg: AnchorEngine.Config, c: Pair, db: Db, msg: BtcTxMsg)
    requires Setting(cfg, c) && msg in {Msg(cfg.env, c.root, c.first), Msg(cfg.env, c.root, c.second)}
    ensures GoodBtca(cfg.env, TheWorld(cfg.env, c), msg) && Announced(TheLog(cfg.env, c), msg)
    ensures Fair(cfg.env, TheLog(cfg.env, c), TheWorld(cfg.env, c), {Range(0, 2)}, db, MonitorStep(msg))
  {
    var log := TheLog(cfg.env, c);
    LogIsHonest(cfg, c);
    IndexAt(cfg.env, c, 2);
    IndexAt(cfg.env, c, 3);
    assert log[2] in log && IsBtca(log[2]) && log[3] in log && IsBtca(log[3]);
  }

  // ---- the second is confirmed first ---------------------------------------

  /** A block of one transaction. */
  function BlockOf(txId: string): Option<BlockDetails>
  {
    Some(BlockDetails([txId], TxLeaf(txId)))
  }

  lemma BlockHolds(h: Hash, txId: string)
    ensures HoldsTx(h, BlockOf(txId), txId)
  {
    assert TxLeaves([txId]) == [TxLeaf(txId)];
  }

  lemma FoundUnderSecond(env: Env, w: World, ranges: set<Range>, c: Pair, db: Db, msg: BtcTxMsg, a: AggState, cal: CalStateObject)
    requires |c.root| == 32 && DoubleIndexed(db) && TxsMonitored(env, TheLog(env, c), w, ranges, db) && OneBtcaPerTx(TheLog(env, c))
    requires msg == Msg(env, c.root, c.second) && Announced(TheLog(env, c), msg) && msg.btcTxId in db.txByTx
    requires Open(db, a, cal)
    ensures "p" in ProofIdsOfTx(db, msg.btcTxId)
  {
    TheTree(env, c);
    var b := RecomputedIsStored(env, TheLog(env, c), w, ranges, db, cal.calId, msg);
    FoundUnderTx(db, msg.btcTxId, "p", a, cal, b);
  }

  lemma IdIsText(h: Hash, body: string)
    requires forall x :: |h(x)| == 32
    ensures IdOf(h, body) != ""
  {
  }

  lemma HeadExists(env: Env, txId: string, height: int, btccHash: Bytes)
    ensures var head := HeadFromBlock(env, BlockOf(txId), TxID(txId, height, ""), btccHash); head.Some? && head.value.btcHeadState.Text?
  {
    BlockHolds(env.h, txId);
    HeaderProofExists(env.h, BlockOf(txId), TxID(txId, height, ""));
  }

  lemma ChainExists(env: Env, w: World, state: Stored<OpsState>, m: BtcTxMsg, height: int, btccHash: Bytes)
    requires state.Text? && GoodBtca(env, w, m)
    ensures ChainOf(env, state, m, BlockOf(m.btcTxId), height, btccHash).Some?
  {
    HeadExists(env, m.btcTxId, height, btccHash);
  }

  /** The upgrade itself succeeds, for a block that holds the first transaction. */
  lemma FirstIsUpgraded(env: Env, c: Pair, w: World, height: int, btccHash: Bytes)
    requires |c.root| == 32 && GoodBtca(env, w, Msg(env, c.root, c.first))
    ensures UpgradedBranch(env, TheLog(env, c), HexEncode([1]), BlockOf(Msg(env, c.root, c.first).btcTxId), height, btccHash).Some?
  {
    var m, agg := Msg(env, c.root, c.first), TreeFromCalRange(env, TheLog(env, c), 0, 2);
    TheTree(env, c);
    FirstIsFound(env, c);
    ChainExists(env, w, AnchorStateOf(agg.value, HexEncode([1])), m, height, btccHash);
    UpgradeIsChain(env, TheLog(env, c), HexEncode([1]), BlockOf(m.btcTxId), height, btccHash);
  }

  /** The second transaction as the confirmation list hands it on. */
  function SecondTx(env: Env, c: Pair, height: int): TxID
    requires |c.root| == 32
  {
    TxID(Msg(env, c.root, c.second).btcTxId, height, "")
  }

  /** What the surroundings owe the confirmation of the second transaction, which is not the first. */
  ghost predicate Fits(env: Env, w: World, c: Pair, height: int)
    requires |c.root| == 32
  {
    var tx := SecondTx(env, c, height);
    && tx.txId != Msg(env, c.root, c.first).btcTxId && tx.txId != "" && HonestBlock(w, tx, BlockOf(tx.txId))
    && HonestBtcas(env, w, TheLog(env, c)) && Announced(TheLog(env, c), Msg(env, c.root, c.second))
  }

  lemma SettingFits(cfg: AnchorEngine.Config, c: Pair, height: int)
    requires Setting(cfg, c)
    ensures Fits(cfg.env, TheWorld(cfg.env, c), c, height)
  {
    MonitorIsFair(cfg, c, EMPTY, Msg(cfg.env, c.root, c.second));
    LogIsHonest(cfg, c);
    IdIsText(cfg.env.h, Body(c.root, c.second));
  }

  lemma SecondDiffers(env: Env, w: World, ranges: set<Range>, c: Pair, db: Db, a: AggState, cal: CalStateObject, height: int, btccHash: Bytes)
    requires |c.root| == 32 && Fits(env, w, c, height) && Kept(env, TheLog(env, c), w, ranges, db) && KnownBtcas(TheLog(env, c), ranges)
    requires Open(db, a, cal) && Msg(env, c.root, c.second).btcTxId in db.txByTx
    ensures var tx := SecondTx(env, c, height);
            var after := AfterConfirm(env, db, tx, BlockOf(tx.txId), btccHash).proofs;
            && "p" in after && NestedBranch(after["p"]).Some?
            && NeverUpgraded(env, TheLog(env, c), HexEncode([1]), NestedBranch(after["p"]))
  {
    var tx := SecondTx(env, c, height);
    BlockHolds(env.h, tx.txId);
    FirstIsFound(env, c);
    FoundUnderSecond(env, w, ranges, c, db, Msg(env, c.root, c.second), a, cal);
    UpgradeEqualsStored(env, TheLog(env, c), w, ranges, db, tx, BlockOf(tx.txId), btccHash, "p", a, cal);
  }

  lemma ReachedIsKept(cfg: AnchorEngine.Config, c: Pair, n: NodeRuns.NodeState)
    requires Setting(cfg, c) && Reached(cfg, c, n)
    ensures Kept(cfg.env, TheLog(cfg.env, c), TheWorld(cfg.env, c), {Range(0, 2)}, n.db) && KnownBtcas(TheLog(cfg.env, c), {Range(0, 2)})
  {
    NodeRuns.KnownOfAccounted(cfg, TheWorld(cfg.env, c), n);
  }

  lemma SecondIsConfirmed(cfg: AnchorEngine.Config, c: Pair, n: NodeRuns.NodeState, height: int, btccHash: Bytes) returns (next: NodeRuns.NodeState)
    requires Setting(cfg, c) && Reached(cfg, c, n)
    ensures Reached(cfg, c, next)
    ensures var tx := SecondTx(cfg.env, c, height); next.db == AfterConfirm(cfg.env, n.db, tx, BlockOf(tx.txId), btccHash)
  {
    var tx := SecondTx(cfg.env, c, height);
    next := ProofStep(cfg, c, n, ConfirmStep(tx, BlockOf(tx.txId), btccHash));
  }

  /** A range announced by two transactions, the second of which is confirmed first, at any height
      and by any BTC-C: a run of the node from its start ends with a stored proof whose branch
      ConstructProof makes for no block and BTC-C, though it succeeds for a block that holds the
      first transaction. */
  lemma SecondConfirmedFirst(cfg: AnchorEngine.Config, c: Pair, height: int, btccHash: Bytes) returns (n: NodeRuns.NodeState)
    requires Setting(cfg, c)
    ensures Reaches(cfg, TheWorld(cfg.env, c), Start(cfg, c), n) && "p" in n.db.proofs && NestedBranch(n.db.proofs["p"]).Some?
    ensures NeverUpgraded(cfg.env, n.machine.log, HexEncode([1]), NestedBranch(n.db.proofs["p"]))
    ensures UpgradedBranch(cfg.env, n.machine.log, HexEncode([1]), BlockOf(Msg(cfg.env, c.root, c.first).btcTxId), height, btccHash).Some?
  {
    var first, second := Msg(cfg.env, c.root, c.first), Msg(cfg.env, c.root, c.second);
    var n1 := BothReached(cfg, c);
    var n2, cal := CalendarReached(cfg, c, n1);
    var n3 := MonitorReached(cfg, c, n2, first, TheRow(c), cal);
    var n4 := MonitorReached(cfg, c, n3, second, TheRow(c), cal);
    ReachedIsKept(cfg, c, n4);
    SettingFits(cfg, c, height);
    SecondDiffers(cfg.env, TheWorld(cfg.env, c), {Range(0, 2)}, c, n4.db, TheRow(c), cal, height, btccHash);
    n := SecondIsConfirmed(cfg, c, n4, height, btccHash);
    MsgIsHonest(cfg.env, TheWorld(cfg.env, c), c.root, c.first);
    FirstIsUpgraded(cfg.env, c, TheWorld(cfg.env, c), height, btccHash);
  }
}
