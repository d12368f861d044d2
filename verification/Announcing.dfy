/** Who announces a range, and what: AnchorToChain of one node and of all nodes that share a view of
    the chain, and that what is announced is what its leader anchored. */
module Announcing {
  import opened ByteStrings
  import opened ChainTypes
  import ProofOps
  import opened ChainState
  import opened TxIndex
  import opened AnchorEngine
  import opened AnchorRuns
  import Election

  // ---- one node ------------------------------------------------------------

  /** The node is elected, and finds a root to anchor. */
  predicate TakesLead(cfg: Config, log: seq<LogEntry>, r: Range, input: AnchorInput)
  {
    input.amLeader && input.leaderIds != [] && input.rpcOk && RangeRoot(cfg, log, r) != ""
  }

  /** Only an elected node broadcasts. It announces the root of its own tree for the range, once, if
      the Bitcoin transaction was sent, and reports an error about that root if it was not. */
  lemma OnlyLeadersBroadcast(cfg: Config, log: seq<LogEntry>, r: Range, input: AnchorInput, root: string, q: Range)
    ensures var sent := Broadcasts(cfg, log, r, input);
            && (sent != [] <==> TakesLead(cfg, log, r, input))
            && (AnchorFor(root, q) in sent <==> TakesLead(cfg, log, r, input) && input.sendOk && root == RangeRoot(cfg, log, r) && q == r)
            && (ErrorFor(root) in sent <==> TakesLead(cfg, log, r, input) && !input.sendOk && root == RangeRoot(cfg, log, r))
            && (TakesLead(cfg, log, r, input) && input.sendOk ==> |sent| == 1)
            && (EmptyAnchor in sent <==> TakesLead(cfg, log, r, input) && !input.sendOk && input.btceOk)
            && (Panics(cfg, log, r, input) <==> TakesLead(cfg, log, r, input) && (!input.btcaOk || (!input.sendOk && !input.btceOk)))
  {
  }

  /** What a call leaves that finds leaders and a root and does not panic: who was elected is on
      record, an error reported for the root is forgotten, no other is, and the check that it puts
      on the list says whether the node broadcast. */
  lemma CallLeaves(cfg: Config, log: seq<LogEntry>, n: Node, r: Range, input: AnchorInput)
    requires input.leaderIds != [] && input.rpcOk && RangeRoot(cfg, log, r) != ""
    ensures var after, root := Anchored(cfg, log, n, r, input), RangeRoot(cfg, log, r);
            && after.state.lastElectedCoreId == input.leaderIds[0] && after.state.latestErrRoot != root
            && (n.state.latestErrRoot != root ==> after.state.latestErrRoot == n.state.latestErrRoot)
            && after.state.lastErrorCoreId == (if cfg.testMode then "" else n.state.lastErrorCoreId)
            && (AnchorSucceeds(cfg, log, r, input) <==> |after.checks| > |n.checks|)
            && (AnchorSucceeds(cfg, log, r, input) ==>
                  var c := after.checks[|n.checks|];
                  && c.anchorBtcAggRoot == root && RangeOf(c) == r && (c.amLeader <==> Broadcasts(cfg, log, r, input) != [])
                  && after.state.beginCalTxInt == after.state.endCalTxInt == r.end && after.state.latestBtcaHeight == after.state.height == n.state.height)
  {
  }

  // ---- all nodes -----------------------------------------------------------

  /** The election library returns no more leaders than it is asked for. */
  ghost predicate PicksAtMost(elect: Election.Elect<string>, number: int)
  {
    forall list, seed :: elect(list, number, seed).Some? ==> |elect(list, number, seed).value| <= number
  }

  lemma OneLeader(v: Election.ChainView, blacklist: set<string>, elect: Election.Elect<string>, leaders: seq<string>)
    requires Election.AreLeaders(v, blacklist, 1, elect, leaders) && PicksAtMost(elect, 1)
    ensures |leaders| <= 1
  {
  }

  /** An elected leader has been active in the last 128 blocks and is not the core that reported an
      error last, unless the node runs in test mode. */
  lemma LeaderIsFit(cfg: Config, s: AnchorState, v: Election.ChainView, id: string, catchingUp: bool, elect: Election.Elect<string>,
                    input: AnchorInput)
    requires Elects(cfg, s, v, id, catchingUp, elect, input) && Election.Picks(elect, 1) && input.amLeader
    ensures Election.IsActive(v, 128, id) && (cfg.testMode || id != s.lastErrorCoreId) && !catchingUp
  {
    Election.LeadersAreActive(v, {Blamed(cfg, s)}, 1, elect, input.leaderIds);
  }

  /** Of all nodes that elect from the same view of the chain and blame the same core, at most one ID
      announces anything, whatever ranges and logs the nodes have. */
  lemma AtMostOneAnnounces(cfg: Config, other: Config, log: seq<LogEntry>, log': seq<LogEntry>, r: Range, r': Range,
                           s: AnchorState, s': AnchorState, v: Election.ChainView, elect: Election.Elect<string>,
                           id: string, id': string, catchingUp: bool, catchingUp': bool, input: AnchorInput, input': AnchorInput)
    requires Elects(cfg, s, v, id, catchingUp, elect, input) && Elects(other, s', v, id', catchingUp', elect, input')
    requires Blamed(cfg, s) == Blamed(other, s') && PicksAtMost(elect, 1)
    ensures Broadcasts(cfg, log, r, input) != [] && Broadcasts(other, log', r', input') != [] ==> id == id'
  {
    OnlyLeadersBroadcast(cfg, log, r, input, "", r);
    OnlyLeadersBroadcast(other, log', r', input', "", r');
    if input.amLeader && input'.amLeader {
      assert Election.Ids([Blamed(cfg, s)]) == {Blamed(cfg, s)};
      OneLeader(v, {Blamed(cfg, s)}, elect, input.leaderIds);
      Election.AtMostOneLeads(v, [Blamed(cfg, s)], [Blamed(other, s')], 1, elect, input.leaderIds, input'.leaderIds, id, id');
    }
  }

  /** The leader, if it has an ID, is synced and its calls succeed, announces its range. */
  lemma ElectedAnnounces(cfg: Config, log: seq<LogEntry>, r: Range, s: AnchorState, v: Election.ChainView, id: string,
                         elect: Election.Elect<string>, leaders: seq<string>, input: AnchorInput)
    requires Election.AreLeaders(v, {Blamed(cfg, s)}, 1, elect, leaders) && id != "" && id in leaders
    requires Elects(cfg, s, v, id, false, elect, input) && input.rpcOk && input.sendOk && RangeRoot(cfg, log, r) != ""
    ensures Broadcasts(cfg, log, r, input) == [AnchorFor(RangeRoot(cfg, log, r), r)]
  {
    Election.LeadersAreUnique(v, {Blamed(cfg, s)}, 1, elect, leaders, input.leaderIds);
    OnlyLeadersBroadcast(cfg, log, r, input, RangeRoot(cfg, log, r), r);
  }

  /** There is such a leader exactly when some core has been active and is not the blamed one. */
  lemma SomeoneIsElected(cfg: Config, s: AnchorState, v: Election.ChainView, elect: Election.Elect<string>, leaders: seq<string>)
    requires Election.AreLeaders(v, {Blamed(cfg, s)}, 1, elect, leaders) && Election.Picks(elect, 1)
    ensures leaders != [] <==> exists id :: Election.IsActive(v, 128, id) && id != Blamed(cfg, s)
  {
    Election.LeadersAreActive(v, {Blamed(cfg, s)}, 1, elect, leaders);
  }

  // ---- what is announced is anchored ---------------------------------------

  /** The announcement names the range of the goroutine and the root that the range keeps; the range
      is anchored by the call exactly when it returns nil. A leader whose cache write fails has
      announced a range that it does not hold as anchored. */
  lemma AnnouncedIsAnchored(cfg: Config, m: Machine, input: AnchorInput, root: string, q: Range)
    requires m.tasks != [] && AnchorFor(root, q) in Broadcasts(cfg, m.log, m.tasks[0].range, input)
    ensures var after := AfterRun(cfg, m, input);
            && root == RangeRoot(cfg, after.log, q)
            && (q in after.anchored <==> q in m.anchored || AnchorSucceeds(cfg, m.log, m.tasks[0].range, input))
            && (AnchorSucceeds(cfg, m.log, m.tasks[0].range, input) <==> input.cacheOk)
  {
    OnlyLeadersBroadcast(cfg, m.log, m.tasks[0].range, input, root, q);
  }

  lemma {:induction false} AnchoredForGood(cfg: Config, m: Machine, events: seq<Event>, r: Range)
    requires r in m.anchored
    ensures r in Run(cfg, m, events).anchored
    decreases |events|
  {
    if events != [] {
      AnchoredForGood(cfg, Next(cfg, m, events[0]), events[1..], r);
    }
  }

  /** So the BTC-A of a call that returned nil can be delivered in any later block, with the root the
      node's own tree has by then. */
  lemma AnnouncedIsDeliverable(cfg: Config, m: Machine, input: AnchorInput, events: seq<Event>, hash: Bytes, msg: BtcTxMsg)
    requires Safe(m) && LogSound(cfg, m) && cfg.anchorInterval >= 11 && Enabled(cfg, m, RunAnchor(input)) && IsRun(cfg, AfterRun(cfg, m, input), events)
    requires AnchorFor(msg.anchorBtcAggRoot, MsgRange(msg)) in Broadcasts(cfg, m.log, m.tasks[0].range, input) && input.cacheOk
    ensures var later := Run(cfg, AfterRun(cfg, m, input), events);
            && (later.inBlock ==> Enabled(cfg, later, DeliverTx(hash, BtcA(ProofOps.Text(msg)))))
            && RangeRoot(cfg, later.log, MsgRange(msg)) == msg.anchorBtcAggRoot
  {
    var after := AfterRun(cfg, m, input);
    AnnouncedIsAnchored(cfg, m, input, msg.anchorBtcAggRoot, MsgRange(msg));
    AnchoredForGood(cfg, after, events, MsgRange(msg));
    StepKeeps(cfg, m, RunAnchor(input));
    LogKeeps(cfg, m, RunAnchor(input));
    RootsOfRun(cfg, after, events);
  }
}
