/** The anchor interval that keeps pending ranges apart, exactly. */
module AnchorInterval {
  import opened ByteStrings
  import opened ChainTypes
  import opened ChainState
  import opened Calendar
  import opened TxIndex
  import opened AnchorEngine
  import opened AnchorRuns

  /** No run ever has two ranges pending. */
  ghost predicate KeepsRangesApart(cfg: Config)
  {
    forall m, events :: Init(m) && IsRun(cfg, m, events) ==> |Pending(Run(cfg, m, events))| <= 1
  }

  lemma PendingCheck(m: Machine)
    requires |m.node.checks| == 1 && m.tasks == []
    ensures Pending(m) == {RangeOf(m.node.checks[0])}
  {
    assert m.node.checks == [m.node.checks[0]];
  }

  lemma PendingTask(m: Machine)
    requires m.node.checks == [] && |m.tasks| == 1
    ensures Pending(m) == {m.tasks[0].range}
  {
    assert m.tasks == [m.tasks[0]];
  }

  lemma PendingAtMostOne(m: Machine)
    requires Safe(m)
    ensures |Pending(m)| <= 1
  {
    if m.node.checks != [] {
      PendingCheck(m);
    } else if m.tasks != [] {
      PendingTask(m);
    }
  }

  // ---- a run that has two ranges pending -----------------------------------

  ghost predicate Reaches(cfg: Config, m: Machine, m': Machine)
  {
    exists events :: IsRun(cfg, m, events) && Run(cfg, m, events) == m'
  }

  lemma {:induction false} RunConcat(cfg: Config, m: Machine, a: seq<Event>, b: seq<Event>)
    requires IsRun(cfg, m, a) && IsRun(cfg, Run(cfg, m, a), b)
    ensures IsRun(cfg, m, a + b) && Run(cfg, m, a + b) == Run(cfg, Run(cfg, m, a), b)
    decreases |a|
  {
    if a == [] {
      assert a + b == b;
    } else {
      assert (a + b)[0] == a[0] && (a + b)[1..] == a[1..] + b;
      RunConcat(cfg, Next(cfg, m, a[0]), a[1..], b);
    }
  }

  lemma ReachStep(cfg: Config, m: Machine, m': Machine, e: Event)
    requires Reaches(cfg, m, m') && Enabled(cfg, m', e)
    ensures Reaches(cfg, m, Next(cfg, m', e))
  {
    var events :| IsRun(cfg, m, events) && Run(cfg, m, events) == m';
    assert [e][0] == e && [e][1..] == [];
    assert IsRun(cfg, Next(cfg, m', e), []);
    RunConcat(cfg, m, events, [e]);
  }

  /** The CAL transaction with index n. */
  function CalEntry(root: Bytes, n: byte): LogEntry
  {
    LogEntry([n], Cal(HexEncode(root)), [TxInt(n)])
  }

  /** A tree of one calendar root has that root. */
  lemma SingleLeafRoot(cfg: Config, log: seq<LogEntry>, r: Range, root: Bytes, n: byte)
    requires r.begin < r.end && CalRange(log, r.begin, r.end) == [CalEntry(root, n)] && |root| == 32
    ensures RangeRoot(cfg, log, r) == HexEncode(root)
  {
    var e := CalEntry(root, n);
    HexRoundTrip(root);
    CalLeavesConcat([], [e]);
    assert [] + [e] == [e] && [e][1..] == [];
    assert CalLeaves([e]) == CalLeafOf(e) + CalLeaves([]);
    assert CalLeaves([e]) == [CalLeaf([n], root)];
    assert Roots(CalLeaves([e])) == [root];
  }

  const HEIGHT: int := 100

  /** Two CAL transactions, with the roots a and b, delivered and none anchored; the interval is
      over at the end of the block. */
  function StartState(cfg: Config): AnchorState
  {
    AnchorState(2, HEIGHT, 0, 0, 0, 2, 0, Other, 0, HEIGHT - cfg.anchorInterval - 1, "", 0, 0, "", "", "", "", 0, 0)
  }

  function StartMachine(cfg: Config, a: Bytes, b: Bytes): Machine
  {
    Machine(Node(StartState(cfg), [], 1), [CalEntry(a, 1), CalEntry(b, 2)], [], true, true, 0, 0, {}, {})
  }

  lemma EntryIndex(root: Bytes, n: byte)
    ensures Index(CalEntry(root, n)) == Some(n)
  {
  }

  lemma StartIsInit(cfg: Config, a: Bytes, b: Bytes)
    ensures Init(StartMachine(cfg, a, b))
  {
    EntryIndex(a, 1);
    EntryIndex(b, 2);
    var d, e := CalEntry(a, 1), CalEntry(b, 2);
    var log := [d, e];
    assert HasIndex(d, 1) && HasIndex(e, 2) && d in log && e in log;
    assert forall n :: 0 < n <= 2 ==> Holds(log, n);
    assert Indexed(log, 0, 2);
  }

  const NIL_INPUT: AnchorInput := AnchorInput(["core"], false, true, true, true, true, true)

  /** After the block end at `height`: the first range pending, the counters as given. */
  ghost predicate Waiting(m: Machine, log: seq<LogEntry>, root: string, height: int, counter: int)
  {
    var s := m.node.state;
    && m.start == 0 && m.anchored == {Range(0, 2)} && m.completed == {}
    && m.node.checks == [AnchorRange(root, HEIGHT, 1, 0, 2, false)] && root != "" && s.lastErrorCoreId == ""
    && m.tasks == [] && !m.inBlock && !m.monitored
    && m.log == log && s.height == height && s.txInt == counter && s.beginCalTxInt == 2
    && s.latestCalTxInt == counter && s.currentCalInts == 0 && s.latestBtcaHeight == HEIGHT
  }

  lemma FirstRoot(cfg: Config, a: Bytes, b: Bytes)
    requires |a| == 32
    ensures RangeRoot(cfg, [CalEntry(a, 1), CalEntry(b, 2)], Range(0, 2)) == HexEncode(a)
  {
    EntryIndex(a, 1);
    EntryIndex(b, 2);
    var d, e := CalEntry(a, 1), CalEntry(b, 2);
    RangeSplit([d], [e], 0, 2);
    OneEntryRange(d, 0, 2);
    OneEntryRange(e, 0, 2);
    assert [d] + [e] == [d, e] && [d] + [] == [d];
    SingleLeafRoot(cfg, [d, e], Range(0, 2), a, 1);
  }

  lemma OneEntryRange(e: LogEntry, min: int, max: int)
    ensures CalRange([e], min, max) == if InRange(e, min, max) then [e] else []
  {
    assert [e][..0] == [];
    assert CalRange([], min, max) == [];
  }

  lemma SecondRoot(cfg: Config, log: seq<LogEntry>, a: Bytes, b: Bytes, c: Bytes)
    requires |b| == 32 && log == [CalEntry(a, 1), CalEntry(b, 2)] + [CalEntry(c, 3)]
    ensures RangeRoot(cfg, log, Range(2, 3)) == HexEncode(b)
  {
    EntryIndex(a, 1);
    EntryIndex(b, 2);
    EntryIndex(c, 3);
    var d, e, f := CalEntry(a, 1), CalEntry(b, 2), CalEntry(c, 3);
    RangeSplit([d], [e], 2, 3);
    RangeSplit([d, e], [f], 2, 3);
    OneEntryRange(d, 2, 3);
    OneEntryRange(e, 2, 3);
    OneEntryRange(f, 2, 3);
    assert [d] + [e] == [d, e] && [] + [e] == [e] && [e] + [] == [e];
    SingleLeafRoot(cfg, log, Range(2, 3), b, 2);
  }

  /** A goroutine that anchors a range of known root. */
  lemma AnchorStep(cfg: Config, m0: Machine, m: Machine, r: Range, root: string) returns (next: Machine)
    requires Reaches(cfg, m0, m) && m.tasks == [Task(r, false)] && RangeRoot(cfg, m.log, r) == root && |root| == 64
    ensures Reaches(cfg, m0, next)
    ensures next.node.checks == m.node.checks + [AnchorRange(root, m.node.state.height, m.node.lnHeight, r.begin, r.end, false)]
    ensures next.anchored == m.anchored + {r} && next.completed == m.completed && next.start == m.start
    ensures next.tasks == [] && next.log == m.log && next.inBlock == m.inBlock && next.monitored == m.monitored
    ensures next.node.state.height == m.node.state.height && next.node.state.txInt == m.node.state.txInt
    ensures next.node.state.beginCalTxInt == r.end && next.node.state.latestCalTxInt == m.node.state.latestCalTxInt
    ensures next.node.state.currentCalInts == m.node.state.currentCalInts
    ensures next.node.state.latestBtcaHeight == m.node.state.height
    ensures m.node.state.lastErrorCoreId == "" ==> next.node.state.lastErrorCoreId == ""
  {
    ReachStep(cfg, m0, m, RunAnchor(NIL_INPUT));
    next := Next(cfg, m, RunAnchor(NIL_INPUT));
    RunEffect(cfg, m, NIL_INPUT);
  }

  lemma FirstRangeAnchored(cfg: Config, a: Bytes, b: Bytes) returns (m: Machine)
    requires cfg.doAnchor && |a| == 32
    ensures Reaches(cfg, StartMachine(cfg, a, b), m) && Waiting(m, StartMachine(cfg, a, b).log, HexEncode(a), HEIGHT, 2)
  {
    var m0 := StartMachine(cfg, a, b);
    assert IsRun(cfg, m0, []) && Run(cfg, m0, []) == m0;
    ReachStep(cfg, m0, m0, EndBlock);
    var m1 := Next(cfg, m0, EndBlock);
    assert m1.tasks == [Task(Range(0, 2), false)];
    FirstRoot(cfg, a, b);
    m := AnchorStep(cfg, m0, m1, Range(0, 2), HexEncode(a));
  }

  /** The monitor of the block, within ten blocks of the anchor. */
  lemma MonitorStep(cfg: Config, m0: Machine, m: Machine, log: seq<LogEntry>, root: string, height: int, counter: int) returns (next: Machine)
    requires Reaches(cfg, m0, m) && Waiting(m, log, root, height, counter) && height <= HEIGHT + 10
    ensures Reaches(cfg, m0, next)
    ensures next == m.(node := m.node.(lnHeight := 1), monitored := true)
  {
    var n := m.node.(lnHeight := 1);
    var c := n.checks[0];
    assert [c][..0] == [];
    assert CheckedAll(n, []) == (n, []);
    assert CheckedOne(n, c) == (n, []);
    assert CheckedAll(n, [c]) == (CheckedOne(n, c).0, [] + CheckedOne(n, c).1);
    assert m.tasks + AgainTasks([]) == m.tasks;
    ReachStep(cfg, m0, m, MonitorFailed(1));
    next := Next(cfg, m, MonitorFailed(1));
  }

  lemma CommitStep(cfg: Config, m0: Machine, m: Machine) returns (next: Machine)
    requires Reaches(cfg, m0, m) && !m.inBlock
    ensures Reaches(cfg, m0, next)
    ensures next == m.(node := m.node.(state := Committed(m.node.state)), inBlock := true)
  {
    ReachStep(cfg, m0, m, CommitBlock);
    next := Next(cfg, m, CommitBlock);
  }

  /** A block end. */
  lemma EndStep(cfg: Config, m0: Machine, m: Machine) returns (next: Machine)
    requires Reaches(cfg, m0, m) && m.inBlock && m.monitored && m.tasks == []
    ensures Reaches(cfg, m0, next) && next == AfterEndBlock(cfg, m)
  {
    ReachStep(cfg, m0, m, EndBlock);
    next := Next(cfg, m, EndBlock);
  }

  /** Blocks without transactions go by. */
  lemma {:induction false} Wait(cfg: Config, m0: Machine, m: Machine, log: seq<LogEntry>, root: string, height: int, until: int) returns (next: Machine)
    requires Reaches(cfg, m0, m) && Waiting(m, log, root, height, 2) && height <= until <= HEIGHT + 10
    ensures Reaches(cfg, m0, next) && Waiting(next, log, root, until, 2)
    decreases until - height
  {
    if height == until {
      next := m;
    } else {
      var monitored := MonitorStep(cfg, m0, m, log, root, height, 2);
      var committed := CommitStep(cfg, m0, monitored);
      var ended := EndStep(cfg, m0, committed);
      next := Wait(cfg, m0, ended, log, root, height + 1, until);
    }
  }

  /** A CAL delivered in the tenth block: too late for that block's end. */
  lemma ThirdCal(cfg: Config, m0: Machine, m: Machine, log: seq<LogEntry>, root: string, c: Bytes) returns (next: Machine)
    requires Reaches(cfg, m0, m) && Waiting(m, log, root, HEIGHT + 9, 2)
    ensures Reaches(cfg, m0, next) && Waiting(next, log + [CalEntry(c, 3)], root, HEIGHT + 10, 3)
  {
    var monitored := MonitorStep(cfg, m0, m, log, root, HEIGHT + 9, 2);
    var committed := CommitStep(cfg, m0, monitored);
    var tx := Cal(HexEncode(c));
    ReachStep(cfg, m0, committed, DeliverTx([3], tx));
    var delivered := Next(cfg, committed, DeliverTx([3], tx));
    next := EndStep(cfg, m0, delivered);
  }

  /** ... but in time for the next one, which comes before the monitor sees the first range
      time out. */
  lemma SecondRangeAnchored(cfg: Config, m0: Machine, m: Machine, log: seq<LogEntry>, root: string, second: string) returns (last: Machine)
    requires cfg.doAnchor && cfg.anchorInterval <= 10
    requires Reaches(cfg, m0, m) && Waiting(m, log, root, HEIGHT + 10, 3)
    requires RangeRoot(cfg, log, Range(2, 3)) == second && |second| == 64
    ensures Reaches(cfg, m0, last) && |last.node.checks| == 2
    ensures RangeOf(last.node.checks[0]) == Range(0, 2) && RangeOf(last.node.checks[1]) == Range(2, 3)
  {
    var monitored := MonitorStep(cfg, m0, m, log, root, HEIGHT + 10, 3);
    var committed := CommitStep(cfg, m0, monitored);
    var ended := EndStep(cfg, m0, committed);
    assert ended.tasks == [Task(Range(2, 3), false)];
    last := AnchorStep(cfg, m0, ended, Range(2, 3), second);
  }

  lemma TwoPending(cfg: Config, a: Bytes, b: Bytes, c: Bytes)
    requires cfg.doAnchor && cfg.anchorInterval <= 10 && |a| == |b| == 32
    ensures !KeepsRangesApart(cfg)
  {
    var m0 := StartMachine(cfg, a, b);
    StartIsInit(cfg, a, b);
    var m := FirstRangeAnchored(cfg, a, b);
    var w := Wait(cfg, m0, m, m0.log, HexEncode(a), HEIGHT, HEIGHT + 9);
    var t := ThirdCal(cfg, m0, w, m0.log, HexEncode(a), c);
    SecondRoot(cfg, m0.log + [CalEntry(c, 3)], a, b, c);
    var last := SecondRangeAnchored(cfg, m0, t, m0.log + [CalEntry(c, 3)], HexEncode(a), HexEncode(b));
    PendingTwo(last);
    var events :| IsRun(cfg, m0, events) && Run(cfg, m0, events) == last;
  }

  lemma PendingTwo(m: Machine)
    requires |m.node.checks| == 2 && RangeOf(m.node.checks[0]) != RangeOf(m.node.checks[1])
    ensures |Pending(m)| >= 2
  {
    var r, s := RangeOf(m.node.checks[0]), RangeOf(m.node.checks[1]);
    assert m.node.checks[0] in m.node.checks && m.node.checks[1] in m.node.checks;
    assert r in Pending(m) && s in Pending(m);
    assert |{r, s}| == 2;
    assert Pending(m) == {r, s} + (Pending(m) - {r, s});
  }

  /** Pending ranges are kept apart exactly from an interval of 11 blocks on: with 10, a new
      range is anchored in the one block in which the previous one has timed out but the
      monitor has not looked yet. (Re-anchoring the older range would then move
      BeginCalTxInt back below the newer one.) */
  lemma IntervalBound(cfg: Config)
    requires cfg.doAnchor
    ensures KeepsRangesApart(cfg) <==> cfg.anchorInterval >= 11
  {
    if cfg.anchorInterval >= 11 {
      forall m, events | Init(m) && IsRun(cfg, m, events) ensures |Pending(Run(cfg, m, events))| <= 1 {
        InitSafe(m);
        RunsAreSafe(cfg, m, events);
        PendingAtMostOne(Run(cfg, m, events));
      }
    } else {
      var root: Bytes := seq(32, i => 0);
      TwoPending(cfg, root, root, root);
    }
  }
}
