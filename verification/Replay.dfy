/** A synced node and one that is catching up process the same blocks: what they agree on. */
module Replay {
  import opened ChainTypes
  import opened ChainState
  import opened AnchorEngine
  import opened AnchorRuns
  import Deliveries

  /** The counters that every node must hold alike. */
  ghost predicate Replicated(s: AnchorState, t: AnchorState)
  {
    && s.txInt == t.txInt && s.height == t.height && s.appHash == t.appHash
    && s.latestCalTxInt == t.latestCalTxInt && s.currentCalInts == t.currentCalInts
    && s.latestBtcaTx == t.latestBtcaTx && s.latestBtcaTxInt == t.latestBtcaTxInt
    && s.latestBtccTx == t.latestBtccTx && s.latestBtccTxInt == t.latestBtccTxInt && s.latestBtccHeight == t.latestBtccHeight
    && s.lastAnchorCoreId == t.lastAnchorCoreId
  }

  /** What the blocks of a run do to a node that is catching up; goroutines do not run there. */
  function CatchUpStep(cfg: Config, s: AnchorState, e: Event): AnchorState
  {
    match e
    case DeliverTx(_, tx) => Delivered(s, tx, false).state
    case EndBlock => Started(cfg, s, false).0
    case CommitBlock => Committed(s)
    case _ => s
  }

  function CatchUp(cfg: Config, s: AnchorState, events: seq<Event>): AnchorState
    decreases |events|
  {
    if events == [] then s else CatchUp(cfg, CatchUpStep(cfg, s, events[0]), events[1..])
  }

  /** The tags a transaction is indexed under are replicated too. */
  lemma DeliveryAgrees(s: AnchorState, t: AnchorState, tx: Tx)
    requires Replicated(s, t)
    ensures Replicated(Delivered(s, tx, true).state, Delivered(t, tx, false).state)
    ensures Delivered(s, tx, true).tags == Delivered(t, tx, false).tags
    ensures Delivered(s, tx, true).accepted == Delivered(t, tx, false).accepted
  {
  }

  /** The failure monitor moves none of the replicated counters, even where it resets. */
  lemma {:induction false} MonitorIsLocal(n: Node, snapshot: seq<AnchorRange>, t: AnchorState)
    requires Replicated(n.state, t)
    ensures Replicated(CheckedAll(n, snapshot).0.state, t)
  {
    if snapshot == [] {
    } else {
      MonitorIsLocal(n, snapshot[..|snapshot| - 1], t);
    }
  }

  lemma StepAgrees(cfg: Config, other: Config, m: Machine, t: AnchorState, e: Event)
    requires Replicated(m.node.state, t)
    ensures Replicated(Next(cfg, m, e).node.state, CatchUpStep(other, t, e))
  {
    match e
    case DeliverTx(_, tx) => DeliveryAgrees(m.node.state, t, tx);
    case MonitorFailed(lnHeight) =>
      MonitorIsLocal(m.node.(lnHeight := lnHeight), m.node.checks, t);
    case _ =>
  }

  /** Over every run a synced node, whatever its goroutines do and however they interleave,
      and a node catching up on the same blocks agree on the replicated counters after each
      event, whatever anchoring configuration each of them has. */
  lemma {:induction false} ReplayAgrees(cfg: Config, other: Config, m: Machine, t: AnchorState, events: seq<Event>)
    requires Replicated(m.node.state, t)
    ensures Replicated(Run(cfg, m, events).node.state, CatchUp(other, t, events))
    decreases |events|
  {
    if events != [] {
      StepAgrees(cfg, other, m, t, events[0]);
      ReplayAgrees(cfg, other, Next(cfg, m, events[0]), CatchUpStep(other, t, events[0]), events[1..]);
    }
  }

  /** A BTC-A brings the anchor height together at once. It brings the beginning of the next
      range together exactly when it is the BTC-A of the newest range anchored: a late BTC-A
      of an older range sets the catching-up node back. */
  lemma BtcaBringsTogether(cfg: Config, m: Machine, t: AnchorState, tx: Tx)
    requires Safe(m) && Replicated(m.node.state, t)
    requires tx.BtcA? && tx.msg.Text? && MsgRange(tx.msg.value) in m.anchored
    ensures var s', t' := Delivered(m.node.state, tx, true).state, Delivered(t, tx, false).state;
            && s'.latestBtcaHeight == t'.latestBtcaHeight
            && (s'.beginCalTxInt == t'.beginCalTxInt <==> forall r :: r in m.anchored ==> r.end <= tx.msg.value.endCalTxInt)
  {
    var q := MsgRange(tx.msg.value);
    var begin := m.node.state.beginCalTxInt;
    if q.end < begin {
      assert CoveredBy(m.anchored, begin - 1);
      var r :| r in m.anchored && Inside(r, begin - 1);
      assert r.end > q.end;
    }
  }

  /** In particular for the BTC-A of the range that is pending. */
  lemma PendingBtcaBringsTogether(cfg: Config, m: Machine, t: AnchorState, tx: Tx, c: AnchorRange)
    requires Safe(m) && Replicated(m.node.state, t) && c in m.node.checks
    requires tx.BtcA? && tx.msg.Text? && MsgRange(tx.msg.value) == RangeOf(c)
    ensures Delivered(m.node.state, tx, true).state.beginCalTxInt == Delivered(t, tx, false).state.beginCalTxInt
  {
    assert GoodCheck(m, c);
  }

  // ---- what a synced node has delivered ------------------------------------

  /** The results of a run's deliveries. */
  function RunResults(cfg: Config, m: Machine, events: seq<Event>): seq<Deliveries.Result>
    decreases |events|
  {
    if events == [] then []
    else
      (if events[0].DeliverTx? then [Deliveries.ResultOf(m.node.state, events[0].tx, true)] else [])
      + RunResults(cfg, Next(cfg, m, events[0]), events[1..])
  }

  ghost predicate Remembers(initial: AnchorState, results: seq<Deliveries.Result>, s: AnchorState)
  {
    Deliveries.AllRight(initial, results) && Deliveries.Recorded(initial, results, s)
  }

  /** No failure monitor moves what deliveries recorded. */
  lemma {:induction false} MonitorLeavesRecord(initial: AnchorState, results: seq<Deliveries.Result>, n: Node, snapshot: seq<AnchorRange>)
    requires Deliveries.Recorded(initial, results, n.state)
    ensures Deliveries.Recorded(initial, results, CheckedAll(n, snapshot).0.state)
  {
    if snapshot != [] {
      MonitorLeavesRecord(initial, results, n, snapshot[..|snapshot| - 1]);
    }
  }

  lemma EventIsRemembered(cfg: Config, initial: AnchorState, results: seq<Deliveries.Result>, m: Machine, e: Event)
    requires Remembers(initial, results, m.node.state)
    ensures var more := if e.DeliverTx? then [Deliveries.ResultOf(m.node.state, e.tx, true)] else [];
            Remembers(initial, results + more, Next(cfg, m, e).node.state)
  {
    match e
    case DeliverTx(_, tx) =>
      Deliveries.DeliveryIsRight(initial, results, m.node.state, tx, true);
      Deliveries.OneMoreRight(initial, results, Deliveries.ResultOf(m.node.state, tx, true));
      Deliveries.DeliveryIsRecorded(initial, results, m.node.state, tx, true);
    case MonitorFailed(lnHeight) =>
      assert results + [] == results;
      MonitorLeavesRecord(initial, results, m.node.(lnHeight := lnHeight), m.node.checks);
    case _ => assert results + [] == results;
  }

  lemma {:induction false} RunIsRememberedSince(cfg: Config, initial: AnchorState, results: seq<Deliveries.Result>, m: Machine, events: seq<Event>)
    requires Remembers(initial, results, m.node.state)
    ensures Remembers(initial, results + RunResults(cfg, m, events), Run(cfg, m, events).node.state)
    decreases |events|
  {
    if events == [] {
      assert results + [] == results;
    } else {
      var more := if events[0].DeliverTx? then [Deliveries.ResultOf(m.node.state, events[0].tx, true)] else [];
      EventIsRemembered(cfg, initial, results, m, events[0]);
      RunIsRememberedSince(cfg, initial, results + more, Next(cfg, m, events[0]), events[1..]);
      assert results + more + RunResults(cfg, Next(cfg, m, events[0]), events[1..]) == results + RunResults(cfg, m, events);
    }
  }

  /** Over every run of a synced node, whatever its goroutines and monitors do in between, each
      transaction is accepted, counted and tagged as what was delivered before it says, and the
      counters of the deliveries hold what the last transaction of each kind left. */
  lemma RunIsRemembered(cfg: Config, m: Machine, events: seq<Event>)
    ensures Remembers(m.node.state, RunResults(cfg, m, events), Run(cfg, m, events).node.state)
  {
    RunIsRememberedSince(cfg, m.node.state, [], m, events);
    assert [] + RunResults(cfg, m, events) == RunResults(cfg, m, events);
  }
}
