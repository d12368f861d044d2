/** Runs of the anchor machine that lose a CAL index, one for each way there is, and a run that
    leaves a catching-up node behind. The interval is any that keeps ranges apart. */
module AnchorLosses {
  import opened ByteStrings
  import opened ProofOps
  import opened ChainTypes
  import opened ChainState
  import opened KeyValue
  import opened TxIndex
  import opened AnchorEngine
  import opened AnchorRuns
  import opened AnchorInterval
  import opened Replay

  /** A run from a start reaches m with nothing lost, and event e loses an index there. */
  ghost predicate LossReached(cfg: Config, m: Machine, e: Event)
  {
    && (exists m0 :: Init(m0) && Reaches(cfg, m0, m))
    && NothingLost(m) && Enabled(cfg, m, e) && Loses(cfg, m, e) && !NothingLost(Next(cfg, m, e))
  }

  lemma ReachedIsSafe(cfg: Config, m0: Machine, m: Machine)
    requires cfg.anchorInterval >= 11 && Init(m0) && Reaches(cfg, m0, m)
    ensures Safe(m)
  {
    var events :| IsRun(cfg, m0, events) && Run(cfg, m0, events) == m;
    InitSafe(m0);
    RunsAreSafe(cfg, m0, events);
  }

  lemma LossFound(cfg: Config, m0: Machine, m: Machine, e: Event)
    requires cfg.anchorInterval >= 11 && Init(m0) && Reaches(cfg, m0, m) && NothingLost(m) && Enabled(cfg, m, e) && Loses(cfg, m, e)
    ensures LossReached(cfg, m, e)
  {
    ReachedIsSafe(cfg, m0, m);
    StepKeeps(cfg, m, e);
  }

  /** Nothing is lost while the only range there was is pending. */
  lemma PendingCovers(m: Machine, log: seq<LogEntry>, root: string, height: int, counter: int)
    requires Waiting(m, log, root, height, counter)
    ensures NothingLost(m)
  {
    var c := m.node.checks[0];
    assert c in m.node.checks && RangeOf(c) == Range(0, 2);
    forall n | m.start <= n < m.node.state.beginCalTxInt ensures CoveredBy(m.completed + Pending(m), n) {
      assert Range(0, 2) in m.completed + Pending(m) && Inside(Range(0, 2), n);
    }
  }

  // ---- 144 Bitcoin blocks within ten calendar blocks -----------------------

  lemma StaleLoss(cfg: Config, a: Bytes, b: Bytes)
    requires cfg.doAnchor && cfg.anchorInterval >= 11 && |a| == 32
    ensures exists m, lnHeight :: LossReached(cfg, m, MonitorFailed(lnHeight))
  {
    var m0 := StartMachine(cfg, a, b);
    StartIsInit(cfg, a, b);
    var m := FirstRangeAnchored(cfg, a, b);
    PendingCovers(m, m0.log, HexEncode(a), HEIGHT, 2);
    assert m.node.checks[0] in m.node.checks && Stale(145, m.node.checks[0]);
    LossFound(cfg, m0, m, MonitorFailed(145));
  }

  // ---- a re-anchoring that does not return nil -----------------------------

  /** The monitor of the eleventh block spawns the re-anchoring. */
  lemma TimedOutStep(cfg: Config, m0: Machine, m: Machine, log: seq<LogEntry>, root: string) returns (next: Machine)
    requires Reaches(cfg, m0, m) && Waiting(m, log, root, HEIGHT + 11, 2)
    ensures Reaches(cfg, m0, next) && next.tasks == [Task(Range(0, 2), true)] && next.node.checks == []
    ensures next.log == log && next.completed == {} && next.start == 0 && next.node.state.beginCalTxInt == 2
  {
    var n := m.node.(lnHeight := 1);
    var c := n.checks[0];
    assert [c][..0] == [];
    assert CheckedAll(n, []) == (n, []);
    assert DelFirst([c], c) == [];
    assert CheckedOne(n, c) == (n.(checks := []), [Range(0, 2)]);
    assert CheckedAll(n, [c]) == (CheckedOne(n, c).0, [] + CheckedOne(n, c).1);
    assert m.tasks + AgainTasks([Range(0, 2)]) == [Task(Range(0, 2), true)];
    ReachStep(cfg, m0, m, MonitorFailed(1));
    next := Next(cfg, m, MonitorFailed(1));
  }

  lemma TaskCovers(m: Machine)
    requires m.tasks == [Task(Range(0, 2), true)] && m.start == 0 && m.node.state.beginCalTxInt == 2
    ensures NothingLost(m)
  {
    assert m.tasks[0] in m.tasks;
    forall n | m.start <= n < m.node.state.beginCalTxInt ensures CoveredBy(m.completed + Pending(m), n) {
      assert Range(0, 2) in m.completed + Pending(m) && Inside(Range(0, 2), n);
    }
  }

  /** No leader is elected when the range is to be anchored again. */
  const NO_LEADER: AnchorInput := AnchorInput([], false, true, true, true, true, true)

  lemma ReanchoringLoss(cfg: Config, a: Bytes, b: Bytes)
    requires cfg.doAnchor && cfg.anchorInterval >= 11 && |a| == 32
    ensures exists m :: LossReached(cfg, m, RunAnchor(NO_LEADER))
  {
    var m0 := StartMachine(cfg, a, b);
    StartIsInit(cfg, a, b);
    var m := FirstRangeAnchored(cfg, a, b);
    var w := Wait(cfg, m0, m, m0.log, HexEncode(a), HEIGHT, HEIGHT + 10);
    var monitored := MonitorStep(cfg, m0, w, m0.log, HexEncode(a), HEIGHT + 10, 2);
    var committed := CommitStep(cfg, m0, monitored);
    var ended := EndStep(cfg, m0, committed);
    var last := TimedOutStep(cfg, m0, ended, m0.log, HexEncode(a));
    TaskCovers(last);
    FirstRoot(cfg, a, b);
    LossFound(cfg, m0, last, RunAnchor(NO_LEADER));
  }

  // ---- an announcement that is not anchored --------------------------------

  /** The node is the leader, and writes its check in vain. */
  const NO_CACHE: AnchorInput := AnchorInput(["core"], true, true, false, true, true, true)

  lemma FirstOffered(cfg: Config, a: Bytes, b: Bytes) returns (m: Machine)
    requires cfg.doAnchor
    ensures Reaches(cfg, StartMachine(cfg, a, b), m) && m.tasks == [Task(Range(0, 2), false)] && m.anchored == {}
    ensures m.log == [CalEntry(a, 1), CalEntry(b, 2)]
  {
    var m0 := StartMachine(cfg, a, b);
    assert IsRun(cfg, m0, []) && Run(cfg, m0, []) == m0;
    m := EndStep(cfg, m0, m0);
    assert m.tasks == [Task(Range(0, 2), false)];
  }

  lemma LeaderAnnounces(cfg: Config, log: seq<LogEntry>, r: Range, root: string)
    requires RangeRoot(cfg, log, r) == root != ""
    ensures Broadcasts(cfg, log, r, NO_CACHE) == [AnchorFor(root, r)] && !Panics(cfg, log, r, NO_CACHE) && !AnchorSucceeds(cfg, log, r, NO_CACHE)
  {
  }

  /** A run from a start reaches a call that announces a range and does not anchor it. */
  lemma AnnouncedUnanchored(cfg: Config, a: Bytes, b: Bytes)
    requires cfg.doAnchor && |a| == 32
    ensures exists m :: Reaches(cfg, StartMachine(cfg, a, b), m) && Enabled(cfg, m, RunAnchor(NO_CACHE))
                        && AnchorFor(HexEncode(a), Range(0, 2)) in Broadcasts(cfg, m.log, m.tasks[0].range, NO_CACHE)
                        && Range(0, 2) !in AfterRun(cfg, m, NO_CACHE).anchored
  {
    var m := FirstOffered(cfg, a, b);
    FirstRoot(cfg, a, b);
    LeaderAnnounces(cfg, m.log, Range(0, 2), HexEncode(a));
  }

  // ---- two ranges with one root --------------------------------------------

  function FirstMsg(a: Bytes): BtcTxMsg
  {
    BtcTxMsg("", HexEncode(a), "", "", 0, 2)
  }

  function BtcaEntry(a: Bytes): LogEntry
  {
    LogEntry([3], BtcA(Text(FirstMsg(a))), [TxInt(3), BtcTxTag("")])
  }

  /** Two CALs with one root, the BTC-A of the range of the first, and a third CAL. */
  function TwinLog(a: Bytes): seq<LogEntry>
  {
    [CalEntry(a, 1), CalEntry(a, 2), BtcaEntry(a), CalEntry(a, 4)]
  }

  /** In the block of `height`, its monitor done: the first range completed, nothing pending. */
  ghost predicate Idle(m: Machine, a: Bytes, height: int)
  {
    var s := m.node.state;
    && m.node.checks == [] && m.tasks == [] && m.inBlock && m.monitored && m.start == 0
    && m.anchored == {Range(0, 2)} && m.completed == {Range(0, 2)} && s.lastErrorCoreId == ""
    && m.log == TwinLog(a) && s.height == height && s.txInt == 4 && s.beginCalTxInt == 2
    && s.latestCalTxInt == 4 && s.currentCalInts == 0 && s.latestBtcaHeight == HEIGHT + 2
  }

  /** The monitor has nothing to look at. */
  lemma QuietMonitorStep(cfg: Config, m0: Machine, m: Machine) returns (next: Machine)
    requires Reaches(cfg, m0, m) && m.node.checks == [] && !m.monitored
    ensures Reaches(cfg, m0, next) && next == m.(node := m.node.(lnHeight := 1), monitored := true)
  {
    assert CheckedAll(m.node.(lnHeight := 1), []) == (m.node.(lnHeight := 1), []);
    assert m.tasks + AgainTasks([]) == m.tasks;
    ReachStep(cfg, m0, m, MonitorFailed(1));
    next := Next(cfg, m, MonitorFailed(1));
  }

  lemma DeliverStep(cfg: Config, m0: Machine, m: Machine, hash: Bytes, tx: Tx) returns (next: Machine)
    requires Reaches(cfg, m0, m) && Enabled(cfg, m, DeliverTx(hash, tx))
    ensures Reaches(cfg, m0, next) && next == AfterDelivery(m, hash, tx)
  {
    ReachStep(cfg, m0, m, DeliverTx(hash, tx));
    next := Next(cfg, m, DeliverTx(hash, tx));
  }

  /** The first range's BTC-A is delivered and monitored. */
  lemma FirstAnnounced(cfg: Config, a: Bytes) returns (m: Machine)
    requires cfg.doAnchor && |a| == 32
    ensures Reaches(cfg, StartMachine(cfg, a, a), m) && m.inBlock && m.monitored && m.start == 0
    ensures m.node.checks == [] && m.tasks == [] && m.anchored == {Range(0, 2)} && m.completed == {Range(0, 2)}
    ensures m.log == [CalEntry(a, 1), CalEntry(a, 2), BtcaEntry(a)]
    ensures var s := m.node.state;
            && s.lastErrorCoreId == "" && s.height == HEIGHT + 1 && s.txInt == 3 && s.beginCalTxInt == 2
            && s.latestCalTxInt == 2 && s.currentCalInts == 0 && s.latestBtcaHeight == HEIGHT + 2
  {
    var m0 := StartMachine(cfg, a, a);
    var m1 := FirstRangeAnchored(cfg, a, a);
    var m2 := MonitorStep(cfg, m0, m1, m0.log, HexEncode(a), HEIGHT, 2);
    var m3 := CommitStep(cfg, m0, m2);
    var m4 := DeliverStep(cfg, m0, m3, [3], BtcA(Text(FirstMsg(a))));
    m := MonitorBtcaStep(cfg, m0, m4, FirstMsg(a));
  }

  /** ... and a CAL follows. */
  lemma FirstCompleted(cfg: Config, a: Bytes) returns (m: Machine)
    requires cfg.doAnchor && cfg.anchorInterval >= 11 && |a| == 32
    ensures Reaches(cfg, StartMachine(cfg, a, a), m) && Idle(m, a, HEIGHT + 2)
  {
    var m0 := StartMachine(cfg, a, a);
    var m5 := FirstAnnounced(cfg, a);
    var m6 := DeliverStep(cfg, m0, m5, [4], Cal(HexEncode(a)));
    assert m6.log == TwinLog(a);
    var m7 := EndStep(cfg, m0, m6);
    var m8 := QuietMonitorStep(cfg, m0, m7);
    m := CommitStep(cfg, m0, m8);
  }

  /** BeginTxMonitor takes away the one check there is, whichever range it is of, when the
      roots agree. */
  lemma MonitorBtcaStep(cfg: Config, m0: Machine, m: Machine, msg: BtcTxMsg) returns (next: Machine)
    requires Reaches(cfg, m0, m) && MsgRange(msg) in m.completed
    requires |m.node.checks| == 1 && m.node.checks[0].anchorBtcAggRoot == msg.anchorBtcAggRoot
    ensures Reaches(cfg, m0, next) && next == m.(node := m.node.(checks := []))
  {
    var c := m.node.checks[0];
    assert m.node.checks == [c] && [c][1..] == [];
    assert Without([c], msg.anchorBtcAggRoot) == [] + Without([c][1..], msg.anchorBtcAggRoot);
    ReachStep(cfg, m0, m, MonitorBtca(msg));
    next := Next(cfg, m, MonitorBtca(msg));
  }

  lemma {:induction false} IdleWait(cfg: Config, m0: Machine, m: Machine, a: Bytes, height: int, until: int) returns (next: Machine)
    requires Reaches(cfg, m0, m) && Idle(m, a, height) && height <= until <= HEIGHT + 3 + cfg.anchorInterval
    ensures Reaches(cfg, m0, next) && Idle(next, a, until)
    decreases until - height
  {
    if height == until {
      next := m;
    } else {
      var ended := EndStep(cfg, m0, m);
      var monitored := QuietMonitorStep(cfg, m0, ended);
      var committed := CommitStep(cfg, m0, monitored);
      next := IdleWait(cfg, m0, committed, a, height + 1, until);
    }
  }

  lemma SecondOfFour(d: LogEntry, e: LogEntry, f: LogEntry, g: LogEntry, min: int, max: int)
    requires !InRange(d, min, max) && InRange(e, min, max) && !InRange(f, min, max) && !InRange(g, min, max)
    ensures CalRange([d, e, f, g], min, max) == [e]
  {
    OneEntryRange(d, min, max);
    OneEntryRange(e, min, max);
    OneEntryRange(f, min, max);
    OneEntryRange(g, min, max);
    RangeSplit([d], [e], min, max);
    RangeSplit([d] + [e], [f], min, max);
    RangeSplit([d] + [e] + [f], [g], min, max);
    assert [d] + [e] + [f] + [g] == [d, e, f, g];
  }

  lemma TwinRoot(cfg: Config, a: Bytes)
    requires |a| == 32
    ensures RangeRoot(cfg, TwinLog(a), Range(2, 4)) == HexEncode(a)
  {
    EntryIndex(a, 1);
    EntryIndex(a, 2);
    EntryIndex(a, 4);
    SecondOfFour(CalEntry(a, 1), CalEntry(a, 2), BtcaEntry(a), CalEntry(a, 4), 2, 4);
    SingleLeafRoot(cfg, TwinLog(a), Range(2, 4), a, 2);
  }

  /** The second range pending, the first completed, both with one root. */
  ghost predicate Twins(m: Machine, a: Bytes)
  {
    && |m.node.checks| == 1 && RangeOf(m.node.checks[0]) == Range(2, 4) && m.node.checks[0].anchorBtcAggRoot == HexEncode(a)
    && m.tasks == [] && m.start == 0 && m.anchored == {Range(0, 2), Range(2, 4)} && m.completed == {Range(0, 2)}
    && m.node.state.beginCalTxInt == 4
  }

  lemma TwinsReached(cfg: Config, a: Bytes) returns (m: Machine)
    requires cfg.doAnchor && cfg.anchorInterval >= 11 && |a| == 32
    ensures Reaches(cfg, StartMachine(cfg, a, a), m) && Twins(m, a) && !m.inBlock
  {
    var m0 := StartMachine(cfg, a, a);
    var idle := FirstCompleted(cfg, a);
    var due := IdleWait(cfg, m0, idle, a, HEIGHT + 2, HEIGHT + 3 + cfg.anchorInterval);
    var ended := EndStep(cfg, m0, due);
    assert ended.tasks == [Task(Range(2, 4), false)];
    TwinRoot(cfg, a);
    m := AnchorStep(cfg, m0, ended, Range(2, 4), HexEncode(a));
  }

  lemma TwinsCovered(m: Machine, a: Bytes)
    requires Twins(m, a)
    ensures NothingLost(m)
  {
    assert m.node.checks[0] in m.node.checks;
    forall n | m.start <= n < m.node.state.beginCalTxInt ensures CoveredBy(m.completed + Pending(m), n) {
      assert Range(0, 2) in m.completed + Pending(m) && Range(2, 4) in m.completed + Pending(m);
      assert Inside(Range(0, 2), n) || Inside(Range(2, 4), n);
    }
  }

  /** In the next block the BTC-A of the first range is delivered once more. */
  lemma AnnouncedAgain(cfg: Config, a: Bytes) returns (m: Machine)
    requires cfg.doAnchor && cfg.anchorInterval >= 11 && |a| == 32
    ensures Reaches(cfg, StartMachine(cfg, a, a), m) && Twins(m, a)
    ensures m.log != [] && m.log[|m.log| - 1].hash == [5] && m.log[|m.log| - 1].tx == BtcA(Text(FirstMsg(a)))
  {
    var m0 := StartMachine(cfg, a, a);
    var twins := TwinsReached(cfg, a);
    var committed := CommitStep(cfg, m0, twins);
    m := DeliverStep(cfg, m0, committed, [5], BtcA(Text(FirstMsg(a))));
  }

  /** The BTC-A of the first range, delivered and monitored once more, takes away the check of
      the second. */
  lemma SameRootLoss(cfg: Config, a: Bytes)
    requires cfg.doAnchor && cfg.anchorInterval >= 11 && |a| == 32
    ensures exists m :: LossReached(cfg, m, MonitorBtca(FirstMsg(a))) && m.log != [] && m.log[|m.log| - 1].tx == BtcA(Text(FirstMsg(a)))
  {
    StartIsInit(cfg, a, a);
    var m := AnnouncedAgain(cfg, a);
    TwinsCovered(m, a);
    assert m.node.checks[0] in m.node.checks && RangeOf(m.node.checks[0]) !in m.completed;
    LossFound(cfg, StartMachine(cfg, a, a), m, MonitorBtca(FirstMsg(a)));
  }

  // ---- a late BTC-A and a node that is catching up -------------------------

  ghost predicate SetsBack(cfg: Config, m: Machine, t: AnchorState, tx: Tx)
  {
    && Replicated(m.node.state, t) && Enabled(cfg, m, DeliverTx([5], tx))
    && Delivered(t, tx, false).state.beginCalTxInt < Delivered(m.node.state, tx, true).state.beginCalTxInt
  }

  /** A run of a synced node reaches a state in which the BTC-A of an older range, delivered
      late, sets a catching-up node back behind it. */
  lemma LateBtcaSetsBack(cfg: Config, a: Bytes)
    requires cfg.doAnchor && cfg.anchorInterval >= 11 && |a| == 32
    ensures exists m, t :: Reaches(cfg, StartMachine(cfg, a, a), m) && SetsBack(cfg, m, t, BtcA(Text(FirstMsg(a))))
  {
    var m0 := StartMachine(cfg, a, a);
    var twins := TwinsReached(cfg, a);
    assert twins.node.checks == [twins.node.checks[0]];
    ReachStep(cfg, m0, twins, CommitBlock);
    var m := Next(cfg, twins, CommitBlock);
    assert SetsBack(cfg, m, m.node.state, BtcA(Text(FirstMsg(a))));
  }
}
