/** The ranges that StartAnchoring offers, against the CAL transactions of the block that ends: over
    every run of the anchor machine a range takes in what earlier blocks delivered and, under an
    exact condition, nothing of the current one. */
module OfferedRanges {
  import opened ByteStrings
  import opened ChainTypes
  import opened ChainState
  import opened TxIndex
  import opened AnchorEngine
  import opened AnchorRuns
  import Replay

  /** A range offered at the end of a block that began in state s and delivered the entries: it
      begins where the last one ended, takes in every CAL index before the last CAL of earlier
      blocks, and leaves out every CAL of this block exactly when at most one other counted
      transaction lies between the first and the last of them. */
  ghost predicate FitsBlock(s: AnchorState, now: AnchorState, entries: seq<LogEntry>, r: Range)
  {
    var first := FirstCal(entries);
    && r.begin == now.beginCalTxInt && r.begin < r.end && s.latestCalTxInt <= r.end <= now.latestCalTxInt
    && (first.None? ==> r.end == s.latestCalTxInt)
    && (first.Some? ==> (AllCalsFrom(entries, r.end) <==> OthersBetween(entries, first.value, now.latestCalTxInt) <= 1))
  }

  predicate Due(cfg: Config, s: AnchorState)
  {
    cfg.doAnchor && s.height > s.latestBtcaHeight + cfg.anchorInterval
  }

  /** At the end of a block a synced node offers a range only when it is due, and one that fits the
      block; when it is due and offers none, no CAL of an earlier block lies beyond the beginning. */
  lemma OfferFitsBlock(cfg: Config, s: AnchorState, now: AnchorState, entries: seq<LogEntry>)
    requires s.latestCalTxInt <= s.txInt && CountersHold(s, now, entries) && 0 <= now.currentCalInts
    ensures var spawn := Started(cfg, now, true).1;
            && (spawn.Some? ==> Due(cfg, now) && FitsBlock(s, now, entries, spawn.value))
            && (spawn.None? && Due(cfg, now) ==> s.latestCalTxInt <= now.beginCalTxInt)
  {
    RangeEndFromCounters(s, now, entries);
  }

  /** A node that is catching up offers nothing. */
  lemma NoOfferWhileCatchingUp(cfg: Config, s: AnchorState)
    ensures Started(cfg, s, false).1.None?
    ensures Started(cfg, s, false).0.endCalTxInt == if Due(cfg, s) then s.latestCalTxInt else s.endCalTxInt
    ensures Started(cfg, s, true).0.currentCalInts == Started(cfg, s, false).0.currentCalInts == 0
  {
  }

  /** What the reset of the failure monitor is for: at the next block end the range is offered again
      from its beginning, however recent the last anchor. */
  lemma ResetOffersAgain(cfg: Config, s: AnchorState, start: int)
    requires cfg.doAnchor && s.height >= cfg.anchorInterval && s.latestCalTxInt - s.currentCalInts > start
    ensures Started(cfg, Reset(s, start), true).1 == Some(Range(start, s.latestCalTxInt - s.currentCalInts))
  {
  }

  /** While LND's height is unknown the failure monitor leaves every check alone. */
  lemma BlindMonitorWaits(n: Node)
    requires n.lnHeight == 0
    ensures Monitored(n).0.checks == n.checks && Monitored(n).0.state == n.state && Monitored(n).1 == []
  {
  }

  lemma {:induction false} BlockLeavesBeginning(s: AnchorState, block: seq<(Bytes, Tx)>)
    ensures AfterBlock(s, block, true).beginCalTxInt == s.beginCalTxInt
    ensures s.currentCalInts <= AfterBlock(s, block, true).currentCalInts
  {
    if block != [] {
      BlockLeavesBeginning(s, block[..|block| - 1]);
      DeliveryEffect(AfterBlock(s, block[..|block| - 1], true), block[|block| - 1].1);
    }
  }

  /** A block delivered at once, as Tendermint does. */
  lemma OfferAfterBlock(cfg: Config, s: AnchorState, block: seq<(Bytes, Tx)>)
    requires s.currentCalInts == 0 && s.latestCalTxInt <= s.txInt
    ensures var now, spawn := AfterBlock(s, block, true), Started(cfg, AfterBlock(s, block, true), true).1;
            && now.beginCalTxInt == s.beginCalTxInt
            && (spawn.Some? ==> Due(cfg, now) && FitsBlock(s, now, BlockLog(s, block, true), spawn.value))
            && (spawn.None? && Due(cfg, now) ==> s.latestCalTxInt <= s.beginCalTxInt)
  {
    BlockCounters(s, block, true);
    BlockLeavesBeginning(s, block);
    OfferFitsBlock(cfg, s, AfterBlock(s, block, true), BlockLog(s, block, true));
  }

  // ---- over runs of the machine --------------------------------------------

  ghost predicate NoBlockEnds(events: seq<Event>)
  {
    forall e :: e in events ==> !e.EndBlock?
  }

  /** What the block has delivered so far, and the counters it began with. */
  ghost predicate InBlock(s: AnchorState, base: seq<LogEntry>, m: Machine)
  {
    base <= m.log && CountersHold(s, m.node.state, m.log[|base|..])
  }

  lemma DeliveryInBlock(cfg: Config, s: AnchorState, base: seq<LogEntry>, m: Machine, hash: Bytes, tx: Tx)
    requires s.latestCalTxInt <= s.txInt && InBlock(s, base, m)
    ensures InBlock(s, base, Next(cfg, m, DeliverTx(hash, tx)))
  {
    var now, e := m.node.state, LogEntry(hash, tx, Delivered(m.node.state, tx, true).tags);
    DeliveryCounts(now, hash, tx, true);
    CountersStep(s, now, Delivered(now, tx, true).state, m.log[|base|..], e);
    assert (m.log + [e])[|base|..] == m.log[|base|..] + [e];
  }

  lemma EventInBlock(cfg: Config, s: AnchorState, base: seq<LogEntry>, m: Machine, e: Event)
    requires s.latestCalTxInt <= s.txInt && InBlock(s, base, m) && !e.EndBlock?
    ensures InBlock(s, base, Next(cfg, m, e))
  {
    match e
    case DeliverTx(hash, tx) => DeliveryInBlock(cfg, s, base, m, hash, tx);
    case RunAnchor(input) => if m.tasks != [] { AnchorInBlock(cfg, s, base, m, input); }
    case MonitorFailed(lnHeight) => MonitorInBlock(s, base, m, lnHeight);
    case _ =>
  }

  lemma AnchorInBlock(cfg: Config, s: AnchorState, base: seq<LogEntry>, m: Machine, input: AnchorInput)
    requires InBlock(s, base, m) && m.tasks != []
    ensures InBlock(s, base, AfterRun(cfg, m, input))
  {
    RunEffect(cfg, m, input);
  }

  lemma MonitorInBlock(s: AnchorState, base: seq<LogEntry>, m: Machine, lnHeight: int)
    requires InBlock(s, base, m)
    ensures InBlock(s, base, AfterMonitorFailed(m, lnHeight))
  {
    Replay.MonitorIsLocal(m.node.(lnHeight := lnHeight), m.node.checks, m.node.state);
  }

  lemma {:induction false} RunInBlock(cfg: Config, s: AnchorState, base: seq<LogEntry>, m: Machine, events: seq<Event>)
    requires s.latestCalTxInt <= s.txInt && InBlock(s, base, m) && NoBlockEnds(events)
    ensures InBlock(s, base, Run(cfg, m, events))
    decreases |events|
  {
    if events != [] {
      assert events[0] in events;
      EventInBlock(cfg, s, base, m, events[0]);
      RunInBlock(cfg, s, base, Next(cfg, m, events[0]), events[1..]);
    }
  }

  /** What the end of a block offers, given the machine after the last block end. */
  ghost predicate OffersRight(cfg: Config, m: Machine, now: Machine)
  {
    var after := AfterEndBlock(cfg, now);
    && |after.tasks| <= 1 && after.node.state.currentCalInts == 0
    && (forall t :: t in after.tasks ==>
          && !t.again && Due(cfg, now.node.state) && m.log <= now.log
          && FitsBlock(m.node.state, now.node.state, now.log[|m.log|..], t.range))
    && (after.tasks == [] && Due(cfg, now.node.state) ==> m.node.state.latestCalTxInt <= now.node.state.beginCalTxInt)
  }

  lemma BlockOffers(cfg: Config, m: Machine, events: seq<Event>)
    requires Safe(m) && m.node.state.currentCalInts == 0 && IsRun(cfg, m, events) && NoBlockEnds(events) && cfg.anchorInterval >= 11
    requires Enabled(cfg, Run(cfg, m, events), EndBlock)
    ensures OffersRight(cfg, m, Run(cfg, m, events))
  {
    var now := Run(cfg, m, events);
    assert m.log[|m.log|..] == [];
    assert InBlock(m.node.state, m.log, m);
    RunInBlock(cfg, m.node.state, m.log, m, events);
    RunsAreSafe(cfg, m, events);
    OfferFitsBlock(cfg, m.node.state, now.node.state, now.log[|m.log|..]);
  }

  lemma {:induction false} RunSplits(cfg: Config, m: Machine, a: seq<Event>, b: seq<Event>)
    requires IsRun(cfg, m, a + b)
    ensures IsRun(cfg, m, a) && IsRun(cfg, Run(cfg, m, a), b) && Run(cfg, m, a + b) == Run(cfg, Run(cfg, m, a), b)
    decreases |a|
  {
    if a == [] {
      assert a + b == b;
    } else {
      assert (a + b)[0] == a[0] && (a + b)[1..] == a[1..] + b;
      RunSplits(cfg, Next(cfg, m, a[0]), a[1..], b);
    }
  }

  /** Over every run: between any two block ends, whatever goroutines and monitors do meanwhile, the
      second of them offers what fits the block between them. */
  lemma EveryOfferFitsItsBlock(cfg: Config, m: Machine, before: seq<Event>, events: seq<Event>)
    requires Init(m) && IsRun(cfg, m, before + [EndBlock] + events) && NoBlockEnds(events) && cfg.anchorInterval >= 11
    requires Enabled(cfg, Run(cfg, m, before + [EndBlock] + events), EndBlock)
    ensures OffersRight(cfg, Run(cfg, m, before + [EndBlock]), Run(cfg, m, before + [EndBlock] + events))
  {
    RunSplits(cfg, m, before + [EndBlock], events);
    RunSplits(cfg, m, before, [EndBlock]);
    var start := Run(cfg, m, before);
    assert [EndBlock][0] == EndBlock && [EndBlock][1..] == [];
    assert Run(cfg, start, [EndBlock]) == Run(cfg, Next(cfg, start, EndBlock), []);
    InitSafe(m);
    RunsAreSafe(cfg, m, before + [EndBlock]);
    BlockOffers(cfg, Run(cfg, m, before + [EndBlock]), events);
  }

  /** A node that is configured not to anchor has no range pending at any time. */
  lemma {:induction false} NothingWithoutAnchoring(cfg: Config, m: Machine, events: seq<Event>)
    requires !cfg.doAnchor && m.tasks == [] && m.node.checks == []
    ensures Run(cfg, m, events).tasks == [] && Run(cfg, m, events).node.checks == [] && Run(cfg, m, events).anchored == m.anchored
    decreases |events|
  {
    if events != [] {
      assert CheckedAll(m.node, []) == (m.node, []);
      NothingWithoutAnchoring(cfg, Next(cfg, m, events[0]), events[1..]);
    }
  }
}
