/** Whole runs of the anchor machine. Deliveries, block ends, commits, BTC-A monitors, failure
    monitors and AnchorToChain goroutines interleave freely, except that the failure monitor
    runs once between two block ends and a goroutine spawned before a block end is done by then. */
module AnchorRuns {
  import opened ByteStrings
  import opened ChainTypes
  import opened ChainState
  import opened KeyValue
  import opened TxIndex
  import opened AnchorEngine

  /** A spawned AnchorToChain goroutine: for a new range, or again for a timed-out one. */
  datatype Task = Task(range: Range, again: bool)

  /** A synced node, its log and pending goroutines, where it is within the block cycle, and
      the history of its run: the ranges anchored and those with a BTC-A delivered. */
  datatype Machine = Machine(
    node: Node, log: seq<LogEntry>, tasks: seq<Task>,
    inBlock: bool, monitored: bool,
    base: int, start: int, anchored: set<Range>, completed: set<Range>)

  datatype Event =
    | DeliverTx(hash: Bytes, tx: Tx)
    | EndBlock
    | CommitBlock
    | RunAnchor(input: AnchorInput)
    | MonitorBtca(msg: BtcTxMsg)
    | MonitorFailed(lnHeight: int)

  const ROOT_LENGTH: nat := 64

  function MsgRange(msg: BtcTxMsg): Range
  {
    Range(msg.beginCalTxInt, msg.endCalTxInt)
  }

  function AgainTasks(ranges: seq<Range>): seq<Task>
  {
    seq(|ranges|, i requires 0 <= i < |ranges| => Task(ranges[i], true))
  }

  // ---- steps ---------------------------------------------------------------

  function AfterDelivery(m: Machine, hash: Bytes, tx: Tx): Machine
  {
    m.(node := m.node.(state := Delivered(m.node.state, tx, true).state),
       log := Logged(m.log, m.node.state, hash, tx, true),
       completed := if tx.BtcA? && tx.msg.Text? then m.completed + {MsgRange(tx.msg.value)} else m.completed)
  }

  function AfterEndBlock(cfg: Config, m: Machine): Machine
  {
    var (s, spawn) := Started(cfg, m.node.state, true);
    m.(node := m.node.(state := s),
       tasks := if spawn.Some? then m.tasks + [Task(spawn.value, false)] else m.tasks,
       inBlock := false, monitored := false)
  }

  function AfterRun(cfg: Config, m: Machine, input: AnchorInput): Machine
    requires m.tasks != []
  {
    var r := m.tasks[0].range;
    m.(node := Anchored(cfg, m.log, m.node, r, input), tasks := m.tasks[1..],
       anchored := if AnchorSucceeds(cfg, m.log, r, input) then m.anchored + {r} else m.anchored)
  }

  function AfterMonitorFailed(m: Machine, lnHeight: int): Machine
  {
    var (node, spawned) := Monitored(m.node.(lnHeight := lnHeight));
    m.(node := node, tasks := m.tasks + AgainTasks(spawned), monitored := true)
  }

  function Next(cfg: Config, m: Machine, e: Event): Machine
  {
    match e
    case DeliverTx(hash, tx) => AfterDelivery(m, hash, tx)
    case EndBlock => AfterEndBlock(cfg, m)
    case CommitBlock => m.(node := m.node.(state := Committed(m.node.state)), inBlock := true)
    case RunAnchor(input) => if m.tasks == [] then m else AfterRun(cfg, m, input)
    case MonitorBtca(msg) => m.(node := m.node.(checks := Without(m.node.checks, msg.anchorBtcAggRoot)))
    case MonitorFailed(lnHeight) => AfterMonitorFailed(m, lnHeight)
  }

  /** When an event can happen. A goroutine that panics ends the node. BTC-As come from honest leaders, so they name a range this
      node has anchored; roots are 64 hexadecimal digits and core IDs are not. */
  predicate Enabled(cfg: Config, m: Machine, e: Event)
  {
    match e
    case DeliverTx(_, tx) =>
      && m.inBlock
      && (tx.BtcA? && tx.msg.Text? ==> MsgRange(tx.msg.value) in m.anchored)
      && (tx.BtcE? ==> |tx.coreId| != ROOT_LENGTH)
    case EndBlock => m.inBlock && m.monitored && m.tasks == []
    case CommitBlock => !m.inBlock
    case RunAnchor(input) =>
      && m.tasks != [] && !Panics(cfg, m.log, m.tasks[0].range, input)
      && (RangeRoot(cfg, m.log, m.tasks[0].range) != "" ==> |RangeRoot(cfg, m.log, m.tasks[0].range)| == ROOT_LENGTH)
    case MonitorBtca(msg) => MsgRange(msg) in m.completed
    case MonitorFailed(lnHeight) => !m.monitored && lnHeight != 0
  }

  function Run(cfg: Config, m: Machine, events: seq<Event>): Machine
    decreases |events|
  {
    if events == [] then m else Run(cfg, Next(cfg, m, events[0]), events[1..])
  }

  predicate IsRun(cfg: Config, m: Machine, events: seq<Event>)
    decreases |events|
  {
    events == [] || (Enabled(cfg, m, events[0]) && IsRun(cfg, Next(cfg, m, events[0]), events[1..]))
  }

  /** A synced node in a block, with nothing pending. */
  ghost predicate Init(m: Machine)
  {
    var s := m.node.state;
    && m.node.checks == [] && m.tasks == [] && m.inBlock && m.monitored
    && m.anchored == {} && m.completed == {} && m.start == s.beginCalTxInt
    && Indexed(m.log, m.base, s.txInt) && s.latestCalTxInt <= s.txInt && 0 <= s.currentCalInts
    && |s.lastErrorCoreId| != ROOT_LENGTH
  }

  // ---- the invariant -------------------------------------------------------

  /** A pending check: anchored, ending where the next range begins, and no older than the
      anchor height. */
  ghost predicate GoodCheck(m: Machine, c: AnchorRange)
  {
    var s := m.node.state;
    && RangeOf(c) in m.anchored && c.endCalTxInt == s.beginCalTxInt
    && c.calBlockHeight <= s.height && c.calBlockHeight <= s.latestBtcaHeight
    && |c.anchorBtcAggRoot| == ROOT_LENGTH
    && (m.monitored ==> s.height - c.calBlockHeight <= if m.inBlock then 11 else 10)
  }

  ghost predicate GoodTask(m: Machine, t: Task)
  {
    var s := m.node.state;
    && t.range.begin < t.range.end <= s.txInt
    && (t.again ==> t.range in m.anchored && t.range.end == s.beginCalTxInt)
    && (!t.again ==> t.range.begin == s.beginCalTxInt)
  }

  /** At most one range is pending, as a check or as a goroutine; the ranges ever anchored
      are equal or disjoint and cover everything up to where the next one begins. */
  ghost predicate Safe(m: Machine)
  {
    var s := m.node.state;
    && |m.node.checks| + |m.tasks| <= 1
    && (forall c :: c in m.node.checks ==> GoodCheck(m, c))
    && (forall t :: t in m.tasks ==> GoodTask(m, t))
    && (forall r :: r in m.anchored ==> m.start <= r.begin < r.end <= s.beginCalTxInt)
    && Disjoint(m.anchored)
    && (forall n :: m.start <= n < s.beginCalTxInt ==> CoveredBy(m.anchored, n))
    && (forall r :: r in m.anchored ==> r.end <= s.txInt)
    && m.completed <= m.anchored && m.start <= s.beginCalTxInt
    && s.latestCalTxInt <= s.txInt && 0 <= s.currentCalInts
    && |s.lastErrorCoreId| != ROOT_LENGTH
  }

  ghost predicate CoveredBy(ranges: set<Range>, n: int)
  {
    exists r :: r in ranges && Inside(r, n)
  }

  /** The ranges waiting for a BTC-A. */
  function Pending(m: Machine): set<Range>
  {
    (set c | c in m.node.checks :: RangeOf(c)) + (set t | t in m.tasks :: t.range)
  }

  /** No CAL index is lost: each one below the next range lies in a range whose BTC-A was
      delivered or in one that is still pending. */
  ghost predicate NothingLost(m: Machine)
  {
    forall n :: m.start <= n < m.node.state.beginCalTxInt ==> CoveredBy(m.completed + Pending(m), n)
  }

  // ---- where the code loses a range ----------------------------------------

  /** The three guards behind which a pending range goes away for good: a re-anchoring that
      does not return nil (the check is deleted all the same), a BTC-A of another range with
      the same root, and 144 Bitcoin blocks that pass within ten calendar blocks. */
  predicate Loses(cfg: Config, m: Machine, e: Event)
  {
    match e
    case RunAnchor(input) =>
      m.tasks != [] && m.tasks[0].again && m.tasks[0].range !in m.completed
      && !AnchorSucceeds(cfg, m.log, m.tasks[0].range, input)
    case MonitorBtca(msg) =>
      exists c :: c in m.node.checks && c.anchorBtcAggRoot == msg.anchorBtcAggRoot && RangeOf(c) !in m.completed
    case MonitorFailed(lnHeight) =>
      exists c :: c in m.node.checks && !TimedOut(m.node.state, c) && Stale(lnHeight, c) && RangeOf(c) !in m.completed
    case _ => false
  }

  // ---- every event keeps the invariant -------------------------------------

  lemma InitSafe(m: Machine)
    requires Init(m)
    ensures Safe(m) && NothingLost(m)
  {
  }

  lemma DeliveryKeeps(cfg: Config, m: Machine, hash: Bytes, tx: Tx)
    requires Safe(m) && Enabled(cfg, m, DeliverTx(hash, tx))
    ensures Safe(AfterDelivery(m, hash, tx))
    ensures NothingLost(m) ==> NothingLost(AfterDelivery(m, hash, tx))
  {
    var after := AfterDelivery(m, hash, tx);
    DeliveryEffect(m.node.state, tx);
    forall c | c in after.node.checks ensures GoodCheck(after, c) {
      assert GoodCheck(m, c);
    }
    forall t | t in after.tasks ensures GoodTask(after, t) {
      assert GoodTask(m, t);
    }
    if NothingLost(m) {
      forall n | m.start <= n < after.node.state.beginCalTxInt ensures CoveredBy(after.completed + Pending(after), n) {
        assert CoveredBy(m.completed + Pending(m), n);
      }
    }
  }

  /** What a delivery to a synced node can change of what the invariant speaks about. */
  lemma DeliveryEffect(s: AnchorState, tx: Tx)
    ensures var d := Delivered(s, tx, true).state;
            && d.beginCalTxInt == s.beginCalTxInt && d.height == s.height
            && s.txInt <= d.txInt <= s.txInt + 1
            && d.latestBtcaHeight == (if tx.BtcA? && tx.msg.Text? then s.height + 1 else s.latestBtcaHeight)
            && (d.latestCalTxInt == s.latestCalTxInt || d.latestCalTxInt == d.txInt)
            && s.currentCalInts <= d.currentCalInts <= s.currentCalInts + 1
            && d.lastErrorCoreId == (if tx.BtcE? then tx.coreId else s.lastErrorCoreId)
  {
  }

  /** A new range is offered only when nothing is pending, provided the interval outlasts
      the ten blocks a check may wait and the block the monitor may lag. */
  lemma EndBlockKeeps(cfg: Config, m: Machine)
    requires Safe(m) && Enabled(cfg, m, EndBlock) && cfg.anchorInterval >= 11
    ensures Safe(AfterEndBlock(cfg, m))
    ensures NothingLost(m) ==> NothingLost(AfterEndBlock(cfg, m))
  {
    var after := AfterEndBlock(cfg, m);
    var spawn := Started(cfg, m.node.state, true).1;
    if m.node.checks != [] {
      assert GoodCheck(m, m.node.checks[0]);
      assert spawn.None?;
    }
    forall c | c in after.node.checks ensures GoodCheck(after, c) {
      assert GoodCheck(m, c);
    }
    if NothingLost(m) {
      forall n | m.start <= n < after.node.state.beginCalTxInt ensures CoveredBy(after.completed + Pending(after), n) {
        assert CoveredBy(m.completed + Pending(m), n);
        assert Pending(m) <= Pending(after);
      }
    }
  }

  lemma CommitKeeps(cfg: Config, m: Machine)
    requires Safe(m) && Enabled(cfg, m, CommitBlock)
    ensures Safe(Next(cfg, m, CommitBlock))
    ensures NothingLost(m) ==> NothingLost(Next(cfg, m, CommitBlock))
  {
    var after := Next(cfg, m, CommitBlock);
    forall c | c in after.node.checks ensures GoodCheck(after, c) {
      assert GoodCheck(m, c);
    }
    forall t | t in after.tasks ensures GoodTask(after, t) {
      assert GoodTask(m, t);
    }
    if NothingLost(m) {
      assert Pending(after) == Pending(m);
    }
  }

  /** The effect of a goroutine on what the invariant speaks about. */
  lemma RunEffect(cfg: Config, m: Machine, input: AnchorInput)
    requires m.tasks != []
    ensures var s, after, r := m.node.state, AfterRun(cfg, m, input), m.tasks[0].range;
            var d := after.node.state;
            && d.height == s.height && d.txInt == s.txInt && d.latestCalTxInt == s.latestCalTxInt && d.currentCalInts == s.currentCalInts
            && (d.lastErrorCoreId == s.lastErrorCoreId || d.lastErrorCoreId == "")
            && (if AnchorSucceeds(cfg, m.log, r, input)
                then after.node.checks == m.node.checks
                       + [AnchorRange(RangeRoot(cfg, m.log, r), s.height, m.node.lnHeight, r.begin, r.end, input.amLeader)]
                     && d.beginCalTxInt == r.end && d.latestBtcaHeight == s.height && after.anchored == m.anchored + {r}
                else after.node.checks == m.node.checks && d.beginCalTxInt == s.beginCalTxInt
                     && d.latestBtcaHeight == s.latestBtcaHeight && after.anchored == m.anchored)
  {
  }

  /** A goroutine that succeeds extends or repeats the anchored ranges; one that fails
      changes neither. */
  lemma RunKeeps(cfg: Config, m: Machine, input: AnchorInput)
    requires Safe(m) && Enabled(cfg, m, RunAnchor(input))
    ensures Safe(AfterRun(cfg, m, input))
  {
    RunEffect(cfg, m, input);
    var after, t := AfterRun(cfg, m, input), m.tasks[0];
    assert t in m.tasks && GoodTask(m, t);
    assert m.node.checks == [] && after.tasks == [];
    if AnchorSucceeds(cfg, m.log, t.range, input) {
      forall r, q | r in after.anchored && q in after.anchored ensures EqualOrDisjoint(r, q) {
        assert t.again || forall p :: p in m.anchored ==> p.end <= t.range.begin;
      }
      forall n | m.start <= n < after.node.state.beginCalTxInt ensures CoveredBy(after.anchored, n) {
        if n < m.node.state.beginCalTxInt {
          assert CoveredBy(m.anchored, n);
        } else {
          assert Inside(t.range, n);
        }
      }
    } else {
      assert forall n :: CoveredBy(m.anchored, n) ==> CoveredBy(after.anchored, n);
    }
  }

  lemma RunLoses(cfg: Config, m: Machine, input: AnchorInput)
    requires Safe(m) && NothingLost(m) && Enabled(cfg, m, RunAnchor(input))
    ensures NothingLost(AfterRun(cfg, m, input)) <==> !Loses(cfg, m, RunAnchor(input))
  {
    RunEffect(cfg, m, input);
    RunKeeps(cfg, m, input);
    var after, t := AfterRun(cfg, m, input), m.tasks[0];
    assert t in m.tasks && GoodTask(m, t);
    assert Pending(m) == {t.range};
    if AnchorSucceeds(cfg, m.log, t.range, input) {
      assert after.node.checks[0] in after.node.checks;
      assert t.range in Pending(after);
      forall n | m.start <= n < after.node.state.beginCalTxInt ensures CoveredBy(after.completed + Pending(after), n) {
        if n < m.node.state.beginCalTxInt {
          assert CoveredBy(m.completed + Pending(m), n);
        } else {
          assert Inside(t.range, n);
        }
      }
    } else {
      assert Pending(after) == {};
      RangeGone(m, after, t.range);
    }
  }

  /** When the one pending range goes away, nothing is lost exactly if it was not yet
      anchored or its BTC-A was delivered. */
  lemma RangeGone(m: Machine, after: Machine, r: Range)
    requires Safe(m) && NothingLost(m) && Pending(m) == {r} && Pending(after) == {}
    requires after.start == m.start && after.completed == m.completed
    requires after.node.state.beginCalTxInt == m.node.state.beginCalTxInt
    requires (r in m.anchored && r.end == m.node.state.beginCalTxInt) || m.node.state.beginCalTxInt <= r.begin
    ensures NothingLost(after) <==> (r !in m.anchored || r in m.completed)
  {
    if r !in m.anchored || r in m.completed {
      forall n | m.start <= n < m.node.state.beginCalTxInt ensures CoveredBy(after.completed + Pending(after), n) {
        assert CoveredBy(m.completed + Pending(m), n);
        var q :| q in m.completed + Pending(m) && Inside(q, n);
        assert q in m.completed;
      }
    } else {
      forall q | q in after.completed + Pending(after) ensures !Inside(q, r.begin) {
        assert EqualOrDisjoint(q, r);
      }
      assert !CoveredBy(after.completed + Pending(after), r.begin) && m.start <= r.begin < m.node.state.beginCalTxInt;
    }
  }

  /** BeginTxMonitor takes the check of its root off the list. */
  lemma MonitorBtcaKeeps(cfg: Config, m: Machine, msg: BtcTxMsg)
    requires Safe(m) && Enabled(cfg, m, MonitorBtca(msg))
    ensures Safe(Next(cfg, m, MonitorBtca(msg)))
    ensures NothingLost(m) ==> (NothingLost(Next(cfg, m, MonitorBtca(msg))) <==> !Loses(cfg, m, MonitorBtca(msg)))
  {
    var after := Next(cfg, m, MonitorBtca(msg));
    if m.node.checks == [] {
      assert after == m;
    } else {
      var c := m.node.checks[0];
      assert c in m.node.checks && GoodCheck(m, c);
      assert m.node.checks == [c] && m.tasks == [];
      assert [c][1..] == [];
      assert Without([c], msg.anchorBtcAggRoot) == if c.anchorBtcAggRoot == msg.anchorBtcAggRoot then [] else [c];
      if c.anchorBtcAggRoot == msg.anchorBtcAggRoot {
        if NothingLost(m) {
          assert Pending(m) == {RangeOf(c)} && Pending(after) == {};
          RangeGone(m, after, RangeOf(c));
        }
      } else {
        assert after == m;
      }
    }
  }

  /** What the failure monitor does with the one check there can be. */
  lemma MonitorEffect(cfg: Config, m: Machine, lnHeight: int)
    requires Safe(m) && Enabled(cfg, m, MonitorFailed(lnHeight))
    ensures var after := AfterMonitorFailed(m, lnHeight);
            && after.node.state == m.node.state
            && (m.node.checks == [] ==> after == m.(node := m.node.(lnHeight := lnHeight), monitored := true))
            && (m.node.checks != [] ==>
                  var c := m.node.checks[0];
                  && after.node.checks == (if TimedOut(m.node.state, c) || Stale(lnHeight, c) then [] else [c])
                  && after.tasks == (if TimedOut(m.node.state, c) then [Task(RangeOf(c), true)] else []))
  {
    var n := m.node.(lnHeight := lnHeight);
    if m.node.checks == [] {
      assert Monitored(n) == (n, []);
      assert m.tasks + [] == m.tasks;
    } else {
      var c := m.node.checks[0];
      assert c in m.node.checks && GoodCheck(m, c);
      assert m.node.checks == [c] && m.tasks == [] && [c][..0] == [];
      assert DelFirst([c], c) == [] && DelFirst<AnchorRange>([], c) == [];
      assert CheckedAll(n, []) == (n, []);
      assert CheckedAll(n, [c]) == (CheckedOne(n, c).0, [] + CheckedOne(n, c).1);
    }
  }

  /** In numbers: the pending check is anchored again when more than ten blocks have passed since it was
      made, and goes away for good when they have not but 144 Bitcoin blocks have, counted from a
      known height. */
  lemma MonitorExactly(cfg: Config, m: Machine, lnHeight: int)
    requires Safe(m) && Enabled(cfg, m, MonitorFailed(lnHeight)) && m.node.checks != []
    ensures var after, c, blocks := AfterMonitorFailed(m, lnHeight), m.node.checks[0], m.node.state.height - m.node.checks[0].calBlockHeight;
            && (Task(RangeOf(c), true) in after.tasks <==> blocks > 10)
            && (c in after.node.checks <==> blocks <= 10 && (c.btcBlockHeight == 0 || lnHeight < c.btcBlockHeight + 144))
            && |after.tasks| <= 1 && after.node.state == m.node.state
  {
    MonitorEffect(cfg, m, lnHeight);
    assert m.node.checks[0] in m.node.checks && GoodCheck(m, m.node.checks[0]);
  }

  lemma MonitorFailedKeeps(cfg: Config, m: Machine, lnHeight: int)
    requires Safe(m) && Enabled(cfg, m, MonitorFailed(lnHeight))
    ensures Safe(AfterMonitorFailed(m, lnHeight))
    ensures NothingLost(m) ==> (NothingLost(AfterMonitorFailed(m, lnHeight)) <==> !Loses(cfg, m, MonitorFailed(lnHeight)))
  {
    MonitorEffect(cfg, m, lnHeight);
    if m.node.checks == [] {
      IdleMonitorKeeps(m, AfterMonitorFailed(m, lnHeight));
    } else {
      assert m.node.checks[0] in m.node.checks && GoodCheck(m, m.node.checks[0]);
      CheckedKeeps(m, AfterMonitorFailed(m, lnHeight), lnHeight, m.node.checks[0]);
      assert forall c :: c in m.node.checks ==> c == m.node.checks[0];
    }
  }

  /** What the monitor leaves alone in every case. */
  ghost predicate MonitorFrame(m: Machine, after: Machine)
  {
    && after.node.state == m.node.state && after.inBlock == m.inBlock && after.monitored
    && after.log == m.log && after.base == m.base && after.start == m.start
    && after.anchored == m.anchored && after.completed == m.completed
  }

  lemma IdleMonitorKeeps(m: Machine, after: Machine)
    requires Safe(m) && m.node.checks == [] && MonitorFrame(m, after)
    requires after.node.checks == [] && after.tasks == m.tasks
    ensures Safe(after) && (NothingLost(m) ==> NothingLost(after))
  {
    assert forall t :: t in after.tasks && GoodTask(m, t) ==> GoodTask(after, t);
    assert Pending(after) == Pending(m);
  }

  /** The one check stays or is re-anchored, or goes away because it is stale. */
  lemma CheckedKeeps(m: Machine, after: Machine, lnHeight: int, c: AnchorRange)
    requires Safe(m) && m.node.checks == [c] && GoodCheck(m, c) && !m.monitored && MonitorFrame(m, after)
    requires after.node.checks == if TimedOut(m.node.state, c) || Stale(lnHeight, c) then [] else [c]
    requires after.tasks == if TimedOut(m.node.state, c) then [Task(RangeOf(c), true)] else []
    ensures Safe(after)
    ensures NothingLost(m) ==> (NothingLost(after) <==> !(!TimedOut(m.node.state, c) && Stale(lnHeight, c) && RangeOf(c) !in m.completed))
  {
    assert m.tasks == [] && Pending(m) == {RangeOf(c)};
    if TimedOut(m.node.state, c) {
      assert after.tasks[0] in after.tasks && Pending(after) == {RangeOf(c)};
    } else if Stale(lnHeight, c) {
      assert Pending(after) == {};
      if NothingLost(m) {
        RangeGone(m, after, RangeOf(c));
      }
    } else {
      assert after.node.checks[0] in after.node.checks && Pending(after) == {RangeOf(c)};
    }
  }

  // ---- runs ----------------------------------------------------------------

  lemma StepKeeps(cfg: Config, m: Machine, e: Event)
    requires Safe(m) && Enabled(cfg, m, e) && cfg.anchorInterval >= 11
    ensures Safe(Next(cfg, m, e))
    ensures NothingLost(m) ==> (NothingLost(Next(cfg, m, e)) <==> !Loses(cfg, m, e))
  {
    match e
    case DeliverTx(hash, tx) => DeliveryKeeps(cfg, m, hash, tx);
    case EndBlock => EndBlockKeeps(cfg, m);
    case CommitBlock => CommitKeeps(cfg, m);
    case RunAnchor(input) =>
      RunKeeps(cfg, m, input);
      if NothingLost(m) {
        RunLoses(cfg, m, input);
      }
    case MonitorBtca(msg) => MonitorBtcaKeeps(cfg, m, msg);
    case MonitorFailed(lnHeight) => MonitorFailedKeeps(cfg, m, lnHeight);
  }

  /** Over every run at most one range is pending, and ranges ever anchored are equal or
      disjoint. */
  lemma {:induction false} RunsAreSafe(cfg: Config, m: Machine, events: seq<Event>)
    requires Safe(m) && IsRun(cfg, m, events) && cfg.anchorInterval >= 11
    ensures Safe(Run(cfg, m, events))
    decreases |events|
  {
    if events != [] {
      StepKeeps(cfg, m, events[0]);
      RunsAreSafe(cfg, Next(cfg, m, events[0]), events[1..]);
    }
  }

  /** The branch that resets an epoch is never taken, over any run: neither for a reported
      error, since checks carry roots and errors core IDs, nor for a range that later anchors
      have not passed. */
  lemma ResetIsUnreachable(cfg: Config, m: Machine, events: seq<Event>)
    requires Init(m) && IsRun(cfg, m, events) && cfg.anchorInterval >= 11
    ensures var n := Run(cfg, m, events).node;
            forall c :: c in n.checks ==> c.anchorBtcAggRoot != n.state.lastErrorCoreId && n.state.beginCalTxInt >= c.endCalTxInt
  {
    InitSafe(m);
    RunsAreSafe(cfg, m, events);
    forall c | c in Run(cfg, m, events).node.checks ensures GoodCheck(Run(cfg, m, events), c) {
    }
  }

  /** Whether some step of a run loses a range. */
  predicate SomeLoss(cfg: Config, m: Machine, events: seq<Event>)
    decreases |events|
  {
    events != [] && (Loses(cfg, m, events[0]) || SomeLoss(cfg, Next(cfg, m, events[0]), events[1..]))
  }

  /** No CAL root is lost: over every run without such a step, every index below the next
      range is in a completed or a pending range after each event. */
  lemma {:induction false} NoCalRootIsLost(cfg: Config, m: Machine, events: seq<Event>)
    requires Safe(m) && NothingLost(m) && IsRun(cfg, m, events) && cfg.anchorInterval >= 11
    requires !SomeLoss(cfg, m, events)
    ensures NothingLost(Run(cfg, m, events))
    decreases |events|
  {
    if events != [] {
      StepKeeps(cfg, m, events[0]);
      NoCalRootIsLost(cfg, Next(cfg, m, events[0]), events[1..]);
    }
  }

  /** ... and the first such step does lose one. */
  lemma {:induction false} FirstLossLoses(cfg: Config, m: Machine, events: seq<Event>, e: Event)
    requires Safe(m) && NothingLost(m) && IsRun(cfg, m, events) && cfg.anchorInterval >= 11
    requires !SomeLoss(cfg, m, events) && Enabled(cfg, Run(cfg, m, events), e)
    ensures NothingLost(Next(cfg, Run(cfg, m, events), e)) <==> !Loses(cfg, Run(cfg, m, events), e)
  {
    RunsAreSafe(cfg, m, events);
    NoCalRootIsLost(cfg, m, events);
    StepKeeps(cfg, Run(cfg, m, events), e);
  }

  // ---- the log and the roots -----------------------------------------------

  /** The log is indexed without gaps, and every check carries the root of its range. */
  ghost predicate LogSound(cfg: Config, m: Machine)
  {
    && Indexed(m.log, m.base, m.node.state.txInt)
    && forall c :: c in m.node.checks ==> c.anchorBtcAggRoot == RangeRoot(cfg, m.log, RangeOf(c))
  }

  /** The root of a range that ends at or below the counter never changes. */
  lemma RootStays(cfg: Config, m: Machine, e: Event, r: Range)
    requires Indexed(m.log, m.base, m.node.state.txInt) && r.end <= m.node.state.txInt
    ensures RangeRoot(cfg, Next(cfg, m, e).log, r) == RangeRoot(cfg, m.log, r)
  {
    if e.DeliverTx? {
      RangeIsStable(m.log, m.base, m.node.state, e.hash, e.tx, true, r.begin, r.end);
    }
  }

  lemma LogKeeps(cfg: Config, m: Machine, e: Event)
    requires Safe(m) && LogSound(cfg, m) && Enabled(cfg, m, e)
    ensures LogSound(cfg, Next(cfg, m, e))
  {
    var after := Next(cfg, m, e);
    match e
    case DeliverTx(hash, tx) =>
      DeliverKeepsIndexed(m.log, m.base, m.node.state, hash, tx, true);
      forall c | c in after.node.checks ensures c.anchorBtcAggRoot == RangeRoot(cfg, after.log, RangeOf(c)) {
        assert GoodCheck(m, c);
        RootStays(cfg, m, e, RangeOf(c));
      }
    case RunAnchor(input) => RunEffect(cfg, m, input);
    case MonitorBtca(msg) =>
      forall c | c in after.node.checks ensures c in m.node.checks {
        WithoutMultiset(m.node.checks, msg.anchorBtcAggRoot, c);
        assert c in multiset(after.node.checks);
      }
    case MonitorFailed(lnHeight) => MonitorEffect(cfg, m, lnHeight);
    case _ =>
  }

  /** The counters a log is indexed by: over every run the indexes are unique, increasing and
      gapless, and re-anchoring a range repeats its root, whatever was delivered since. */
  lemma {:induction false} RootsOfRun(cfg: Config, m: Machine, events: seq<Event>)
    requires Safe(m) && LogSound(cfg, m) && IsRun(cfg, m, events) && cfg.anchorInterval >= 11
    ensures LogSound(cfg, Run(cfg, m, events))
    ensures forall r :: r in m.anchored ==> r in Run(cfg, m, events).anchored
                                            && RangeRoot(cfg, Run(cfg, m, events).log, r) == RangeRoot(cfg, m.log, r)
    decreases |events|
  {
    if events != [] {
      var next := Next(cfg, m, events[0]);
      StepKeeps(cfg, m, events[0]);
      LogKeeps(cfg, m, events[0]);
      RootsOfRun(cfg, next, events[1..]);
      forall r | r in m.anchored ensures r in next.anchored && RangeRoot(cfg, next.log, r) == RangeRoot(cfg, m.log, r) {
        RootStays(cfg, m, events[0], r);
      }
    }
  }
}
