/** A synced node as a whole: the anchor machine and the proof store side by side, their
    steps interleaved freely, the store reading the log as far as it has been delivered. */
module NodeRuns {
  import opened ByteStrings
  import opened ChainTypes
  import opened Store
  import opened BitcoinBlock
  import opened TxIndex
  import opened ProofAssembly
  import AnchorEngine
  import AnchorRuns
  import opened ProofUpgrade

  datatype NodeState = NodeState(machine: AnchorRuns.Machine, db: Db)

  datatype Step = Chain(event: AnchorRuns.Event) | Proofs(action: ProofSoundness.Event)

  function After(cfg: AnchorEngine.Config, n: NodeState, step: Step): NodeState
  {
    match step
    case Chain(e) => n.(machine := AnchorRuns.Next(cfg, n.machine, e))
    case Proofs(e) => n.(db := ProofSoundness.AfterEvent(cfg.env, n.machine.log, n.db, e))
  }

  function AfterAll(cfg: AnchorEngine.Config, n: NodeState, steps: seq<Step>): NodeState
    decreases |steps|
  {
    if steps == [] then n else AfterAll(cfg, After(cfg, n, steps[0]), steps[1..])
  }

  /** A chain step is one the anchor machine can make, after which calendar transactions
      still carry the roots they stand for. A proof step gets what its surroundings owe it; a
      BTC-A is monitored once it is delivered. */
  ghost predicate Possible(cfg: AnchorEngine.Config, w: ProofSoundness.World, n: NodeState, step: Step)
  {
    match step
    case Chain(e) => AnchorRuns.Enabled(cfg, n.machine, e) && ProofRuns.GoodLog(w, AnchorRuns.Next(cfg, n.machine, e).log)
    case Proofs(e) => ProofRuns.Fair(cfg.env, n.machine.log, w, n.machine.completed, n.db, e)
  }

  ghost predicate IsNodeRun(cfg: AnchorEngine.Config, w: ProofSoundness.World, n: NodeState, steps: seq<Step>)
    decreases |steps|
  {
    steps == [] || (Possible(cfg, w, n, steps[0]) && IsNodeRun(cfg, w, After(cfg, n, steps[0]), steps[1..]))
  }

  /** Every BTC-A in the log completed a range, or is of an anchor from before the start. */
  ghost predicate BtcasAccounted(m: AnchorRuns.Machine)
  {
    forall e :: e in m.log && IsBtca(e) ==>
      AnchorRuns.MsgRange(e.tx.msg.value) in m.completed || e.tx.msg.value.endCalTxInt <= m.start
  }

  ghost predicate Inv(cfg: AnchorEngine.Config, w: ProofSoundness.World, n: NodeState)
  {
    && AnchorRuns.Safe(n.machine) && AnchorRuns.LogSound(cfg, n.machine) && ProofRuns.GoodLog(w, n.machine.log)
    && BtcasAccounted(n.machine)
    && ProofRuns.Inv(cfg.env, n.machine.log, w, n.machine.anchored, n.db)
  }

  // ---- chain steps ---------------------------------------------------------

  /** The tree of an anchored range is the same over the longer log. */
  lemma TreeStays(cfg: AnchorEngine.Config, m: AnchorRuns.Machine, e: AnchorRuns.Event, r: Range)
    requires Indexed(m.log, m.base, m.node.state.txInt) && r.end <= m.node.state.txInt
    ensures TreeFromCalRange(cfg.env, AnchorRuns.Next(cfg, m, e).log, r.begin, r.end) == TreeFromCalRange(cfg.env, m.log, r.begin, r.end)
  {
    if e.DeliverTx? {
      RangeIsStable(m.log, m.base, m.node.state, e.hash, e.tx, true, r.begin, r.end);
    }
  }

  lemma AnchoredStays(cfg: AnchorEngine.Config, m: AnchorRuns.Machine, e: AnchorRuns.Event)
    ensures m.anchored <= AnchorRuns.Next(cfg, m, e).anchored
    ensures m.log <= AnchorRuns.Next(cfg, m, e).log
  {
  }

  lemma ChainKeepsAnchors(cfg: AnchorEngine.Config, m: AnchorRuns.Machine, e: AnchorRuns.Event, db: Db)
    requires AnchorRuns.Safe(m) && AnchorRuns.LogSound(cfg, m)
    requires ProofRuns.AnchorsFromRanges(cfg.env, m.log, m.anchored, db)
    ensures ProofRuns.AnchorsFromRanges(cfg.env, AnchorRuns.Next(cfg, m, e).log, AnchorRuns.Next(cfg, m, e).anchored, db)
  {
    var after := AnchorRuns.Next(cfg, m, e);
    AnchoredStays(cfg, m, e);
    forall k, b | b in KeyValue.At(db.anchorByCal, k)
      ensures exists r :: r in after.anchored && ProofRuns.FromRange(cfg.env, after.log, r, b) {
      var r :| r in m.anchored && ProofRuns.FromRange(cfg.env, m.log, r, b);
      TreeStays(cfg, m, e, r);
      assert r in after.anchored && ProofRuns.FromRange(cfg.env, after.log, r, b);
    }
  }

  lemma ChainKeepsMonitored(cfg: AnchorEngine.Config, m: AnchorRuns.Machine, e: AnchorRuns.Event, w: ProofSoundness.World, db: Db)
    requires AnchorRuns.Safe(m) && AnchorRuns.LogSound(cfg, m)
    requires ProofRuns.TxsMonitored(cfg.env, m.log, w, m.anchored, db)
    ensures ProofRuns.TxsMonitored(cfg.env, AnchorRuns.Next(cfg, m, e).log, w, AnchorRuns.Next(cfg, m, e).anchored, db)
  {
    var after := AnchorRuns.Next(cfg, m, e);
    AnchoredStays(cfg, m, e);
    forall r | r in m.anchored
      ensures TreeFromCalRange(cfg.env, after.log, r.begin, r.end) == TreeFromCalRange(cfg.env, m.log, r.begin, r.end) {
      TreeStays(cfg, m, e, r);
    }
    ProofRuns.TxsMonitoredOverLonger(cfg.env, m.log, after.log, w, m.anchored, after.anchored, db);
  }

  lemma ChainKeepsBtcas(cfg: AnchorEngine.Config, m: AnchorRuns.Machine, e: AnchorRuns.Event)
    requires BtcasAccounted(m)
    ensures BtcasAccounted(AnchorRuns.Next(cfg, m, e))
  {
  }

  lemma ChainKeeps(cfg: AnchorEngine.Config, w: ProofSoundness.World, n: NodeState, e: AnchorRuns.Event)
    requires Inv(cfg, w, n) && Possible(cfg, w, n, Chain(e)) && cfg.anchorInterval >= 11
    ensures Inv(cfg, w, After(cfg, n, Chain(e)))
  {
    AnchorRuns.StepKeeps(cfg, n.machine, e);
    AnchorRuns.LogKeeps(cfg, n.machine, e);
    ChainKeepsAnchors(cfg, n.machine, e, n.db);
    ChainKeepsMonitored(cfg, n.machine, e, w, n.db);
    ChainKeepsBtcas(cfg, n.machine, e);
  }

  // ---- proof steps ---------------------------------------------------------

  /** What is owed over the completed ranges is owed over the anchored ones. */
  lemma FairOverAnchored(cfg: AnchorEngine.Config, w: ProofSoundness.World, n: NodeState, e: ProofSoundness.Event)
    requires AnchorRuns.Safe(n.machine)
    ensures Possible(cfg, w, n, Proofs(e)) ==> ProofRuns.Fair(cfg.env, n.machine.log, w, n.machine.anchored, n.db, e)
  {
  }

  lemma ProofsKeep(cfg: AnchorEngine.Config, w: ProofSoundness.World, n: NodeState, e: ProofSoundness.Event)
    requires Inv(cfg, w, n)
    ensures Possible(cfg, w, n, Proofs(e)) ==> Inv(cfg, w, After(cfg, n, Proofs(e)))
  {
    FairOverAnchored(cfg, w, n, e);
    if Possible(cfg, w, n, Proofs(e)) {
      ProofRuns.StepKeeps(cfg.env, n.machine.log, w, n.machine.anchored, n.db, e);
    }
  }

  lemma StepKeeps(cfg: AnchorEngine.Config, w: ProofSoundness.World, n: NodeState, step: Step)
    requires Inv(cfg, w, n) && Possible(cfg, w, n, step) && cfg.anchorInterval >= 11
    ensures Inv(cfg, w, After(cfg, n, step))
  {
    match step
    case Chain(e) => ChainKeeps(cfg, w, n, e);
    case Proofs(e) => ProofsKeep(cfg, w, n, e);
  }

  // ---- whole runs ----------------------------------------------------------

  /** Over every run of a node, however anchoring, re-anchoring and proof writing interleave,
      every proof in its store is that of its ID and verifies, and every hash that reached the
      calendar has one: the anchor machine itself keeps the ranges apart that the join of the
      proof batch relies on. */
  lemma {:induction false} EveryProofOfANodeVerifies(cfg: AnchorEngine.Config, w: ProofSoundness.World, n: NodeState, steps: seq<Step>)
    requires Inv(cfg, w, n) && IsNodeRun(cfg, w, n, steps) && cfg.anchorInterval >= 11
    ensures Inv(cfg, w, AfterAll(cfg, n, steps))
    ensures ProofSoundness.ProofsSound(cfg.env, w, AfterAll(cfg, n, steps).db) && ProofSoundness.Written(AfterAll(cfg, n, steps).db)
    decreases |steps|
  {
    if steps != [] {
      StepKeeps(cfg, w, n, steps[0]);
      EveryProofOfANodeVerifies(cfg, w, After(cfg, n, steps[0]), steps[1..]);
    }
  }

  /** ... from any start with nothing pending, an empty store and no BTC-A beyond the start. */
  lemma StartIsSound(cfg: AnchorEngine.Config, w: ProofSoundness.World, m: AnchorRuns.Machine)
    requires AnchorRuns.Init(m) && ProofRuns.GoodLog(w, m.log)
    requires forall e :: e in m.log && IsBtca(e) ==> e.tx.msg.value.endCalTxInt <= m.start
    ensures Inv(cfg, w, NodeState(m, EMPTY))
  {
    AnchorRuns.InitSafe(m);
    ProofRuns.EmptyIsSound(cfg.env, m.log, w, m.anchored);
  }

  /** No step of the store touches a proof that has a BTC branch. */
  lemma StepLeavesBtcProof(cfg: AnchorEngine.Config, n: NodeState, step: Step, p: string)
    requires p in n.db.proofs && MentionsBtc(n.db.proofs[p].branches)
    ensures p in After(cfg, n, step).db.proofs && After(cfg, n, step).db.proofs[p] == n.db.proofs[p]
  {
    if step.Proofs? {
      ProofRuns.EventLeavesBtcProof(cfg.env, n.machine.log, n.db, step.action, p);
    }
  }

  /** A hash that is confirmed stays confirmed, by the same proof. */
  lemma {:induction false} ConfirmedForGood(cfg: AnchorEngine.Config, n: NodeState, steps: seq<Step>, p: string)
    requires p in n.db.proofs && MentionsBtc(n.db.proofs[p].branches)
    ensures p in AfterAll(cfg, n, steps).db.proofs && AfterAll(cfg, n, steps).db.proofs[p] == n.db.proofs[p]
    decreases |steps|
  {
    if steps != [] {
      StepLeavesBtcProof(cfg, n, steps[0], p);
      ConfirmedForGood(cfg, After(cfg, n, steps[0]), steps[1..], p);
    }
  }

  /** What an upgrade gives once its BTC-A is found it gives ever after. */
  lemma {:induction false} UpgradeStays(cfg: AnchorEngine.Config, w: ProofSoundness.World, n: NodeState, steps: seq<Step>, txid: string,
                                        block: Option<BlockDetails>, height: int, btccHash: Bytes)
    requires Inv(cfg, w, n) && IsNodeRun(cfg, w, n, steps) && cfg.anchorInterval >= 11 && AnchoredLookup(n, txid)
    ensures UpgradedBranch(cfg.env, AfterAll(cfg, n, steps).machine.log, txid, block, height, btccHash)
            == UpgradedBranch(cfg.env, n.machine.log, txid, block, height, btccHash)
    decreases |steps|
  {
    if steps != [] {
      StepKeeps(cfg, w, n, steps[0]);
      StepLeavesUpgrade(cfg, w, n, steps[0], txid, block, height, btccHash);
      UpgradeStays(cfg, w, After(cfg, n, steps[0]), steps[1..], txid, block, height, btccHash);
    }
  }

  /** The BTC-A found for a calendar transaction is of an anchored range. */
  ghost predicate AnchoredLookup(n: NodeState, txid: string)
  {
    BtcaForCalTx(n.machine.log, txid).Some? && AnchorRuns.MsgRange(BtcaForCalTx(n.machine.log, txid).value) in n.machine.anchored
  }

  lemma StepLeavesUpgrade(cfg: AnchorEngine.Config, w: ProofSoundness.World, n: NodeState, step: Step, txid: string,
                          block: Option<BlockDetails>, height: int, btccHash: Bytes)
    requires Inv(cfg, w, n) && AnchoredLookup(n, txid)
    ensures AnchoredLookup(After(cfg, n, step), txid)
    ensures UpgradedBranch(cfg.env, After(cfg, n, step).machine.log, txid, block, height, btccHash)
            == UpgradedBranch(cfg.env, n.machine.log, txid, block, height, btccHash)
  {
    if step.Chain? {
      var after := AnchorRuns.Next(cfg, n.machine, step.event);
      AnchoredStays(cfg, n.machine, step.event);
      assert after.log == n.machine.log + after.log[|n.machine.log|..];
      LookupStays(n.machine.log, after.log[|n.machine.log|..], txid);
      TreeStays(cfg, n.machine, step.event, AnchorRuns.MsgRange(BtcaForCalTx(n.machine.log, txid).value));
      UpgradeOfSameParts(cfg.env, n.machine.log, after.log, txid, block, height, btccHash);
    }
  }

  lemma UpgradeOfSameParts(env: Env, log: seq<LogEntry>, longer: seq<LogEntry>, txid: string, block: Option<BlockDetails>, height: int, btccHash: Bytes)
    requires BtcaForCalTx(log, txid).Some? && BtcaForCalTx(longer, txid) == BtcaForCalTx(log, txid)
    requires var r := AnchorRuns.MsgRange(BtcaForCalTx(log, txid).value);
             TreeFromCalRange(env, longer, r.begin, r.end) == TreeFromCalRange(env, log, r.begin, r.end)
    ensures UpgradedBranch(env, longer, txid, block, height, btccHash) == UpgradedBranch(env, log, txid, block, height, btccHash)
  {
  }

  // ---- the upgrade and what is stored --------------------------------------

  lemma KnownOfAccounted(cfg: AnchorEngine.Config, w: ProofSoundness.World, n: NodeState)
    requires Inv(cfg, w, n)
    ensures KnownBtcas(n.machine.log, n.machine.anchored)
  {
  }

  /** The proof has a BTC branch and nests the chain branch of a delivered BTC-A of the confirmed
      transaction, under a calendar transaction its hash went into. */
  ghost predicate ConfirmedBy(cfg: AnchorEngine.Config, n: NodeState, p: string, txid: string, e: ProofSoundness.Event)
    requires e.ConfirmStep?
  {
    && !Unconfirmed(n.db, p) && (exists a, c :: ProofSoundness.Anchored(n.db, p, a, c) && c.calId == txid)
    && exists m :: ProofRuns.Announced(n.machine.log, m) && m.btcTxId == e.tx.txId
                   && Nests(cfg.env, n.db, txid, n.db.proofs[p], m, e.block, e.tx.blockHeight, e.btccHash)
  }

  lemma StepGrows(cfg: AnchorEngine.Config, n: NodeState, step: Step)
    ensures ProofRuns.Grows(n.db, After(cfg, n, step).db) && n.machine.log <= After(cfg, n, step).machine.log
  {
    match step
    case Chain(e) => AnchoredStays(cfg, n.machine, e);
    case Proofs(e) => ProofRuns.EventGrows(cfg.env, n.machine.log, n.db, e);
  }

  lemma StepLeavesConfirmed(cfg: AnchorEngine.Config, n: NodeState, step: Step, p: string, txid: string, e: ProofSoundness.Event)
    requires e.ConfirmStep? && ConfirmedBy(cfg, n, p, txid, e)
    ensures ConfirmedBy(cfg, After(cfg, n, step), p, txid, e)
  {
    var next := After(cfg, n, step);
    StepLeavesBtcProof(cfg, n, step, p);
    StepGrows(cfg, n, step);
    var a, c :| ProofSoundness.Anchored(n.db, p, a, c) && c.calId == txid;
    assert ProofSoundness.Anchored(next.db, p, a, c);
    var m :| ProofRuns.Announced(n.machine.log, m) && m.btcTxId == e.tx.txId
             && Nests(cfg.env, n.db, txid, n.db.proofs[p], m, e.block, e.tx.blockHeight, e.btccHash);
    NestsStays(cfg.env, n.db, next.db, txid, n.db.proofs[p], m, e.block, e.tx.blockHeight, e.btccHash);
    AnnouncedStays(n.machine.log, next.machine.log, m);
  }

  lemma AnnouncedStays(log: seq<LogEntry>, longer: seq<LogEntry>, m: BtcTxMsg)
    requires ProofRuns.Announced(log, m) && log <= longer
    ensures ProofRuns.Announced(longer, m)
  {
    var e :| e in log && IsBtca(e) && e.tx.msg.value == m;
    assert e in longer;
  }

  lemma {:induction false} RunLeavesConfirmed(cfg: AnchorEngine.Config, n: NodeState, steps: seq<Step>, p: string, txid: string, e: ProofSoundness.Event)
    requires e.ConfirmStep? && ConfirmedBy(cfg, n, p, txid, e)
    ensures ConfirmedBy(cfg, AfterAll(cfg, n, steps), p, txid, e)
    decreases |steps|
  {
    if steps != [] {
      StepLeavesConfirmed(cfg, n, steps[0], p, txid, e);
      RunLeavesConfirmed(cfg, After(cfg, n, steps[0]), steps[1..], p, txid, e);
    }
  }

  predicate IsConfirm(step: Step)
  {
    step.Proofs? && step.action.ConfirmStep?
  }

  /** Only a confirmation gives a proof its first BTC branch, and that is the branch of its own
      transaction. */
  lemma FirstConfirmation(cfg: AnchorEngine.Config, w: ProofSoundness.World, n: NodeState, step: Step, p: string) returns (txid: string)
    requires Inv(cfg, w, n) && Possible(cfg, w, n, step) && cfg.anchorInterval >= 11
    requires Unconfirmed(n.db, p) && !Unconfirmed(After(cfg, n, step).db, p)
    ensures IsConfirm(step) && ConfirmedBy(cfg, After(cfg, n, step), p, txid, step.action)
  {
    ProofRuns.OnlyConfirmationsConfirm(cfg.env, n.machine.log, n.db, step.action, p);
    txid := OwnConfirmation(cfg, w, n, step.action, p);
  }

  lemma OwnConfirmation(cfg: AnchorEngine.Config, w: ProofSoundness.World, n: NodeState, e: ProofSoundness.Event, p: string) returns (txid: string)
    requires Inv(cfg, w, n) && Possible(cfg, w, n, Proofs(e)) && e.ConfirmStep?
    requires Unconfirmed(n.db, p) && !Unconfirmed(After(cfg, n, Proofs(e)).db, p)
    ensures ConfirmedBy(cfg, After(cfg, n, Proofs(e)), p, txid, e)
  {
    var next := After(cfg, n, Proofs(e));
    ProofsKeep(cfg, w, n, e);
    StepGrows(cfg, n, Proofs(e));
    var a, c := ProofRuns.ConfirmedRow(cfg.env, n.machine.log, w, n.machine.anchored, n.db, e, p);
    txid := c.calId;
    var m := FirstBranchIsOwn(cfg.env, n.machine.log, w, n.machine.anchored, n.db, e.tx, e.block, e.btccHash, p, a, c);
    NestsStays(cfg.env, n.db, next.db, txid, next.db.proofs[p], m, e.block, e.tx.blockHeight, e.btccHash);
    assert ProofSoundness.Anchored(next.db, p, a, c);
  }

  /** A proof that has got a BTC branch in a run got it from one of its confirmations, and nests
      the branch of that confirmation ever after. */
  lemma {:induction false} ConfirmedInRun(cfg: AnchorEngine.Config, w: ProofSoundness.World, n: NodeState, steps: seq<Step>, p: string)
    returns (step: Step, txid: string)
    requires Inv(cfg, w, n) && IsNodeRun(cfg, w, n, steps) && cfg.anchorInterval >= 11
    requires Unconfirmed(n.db, p) && !Unconfirmed(AfterAll(cfg, n, steps).db, p)
    ensures step in steps && IsConfirm(step) && ConfirmedBy(cfg, AfterAll(cfg, n, steps), p, txid, step.action)
    decreases |steps|
  {
    step := steps[0];
    var next := After(cfg, n, step);
    StepKeeps(cfg, w, n, step);
    if Unconfirmed(next.db, p) {
      step, txid := ConfirmedInRun(cfg, w, next, steps[1..], p);
    } else {
      txid := FirstConfirmation(cfg, w, n, step, p);
      RunLeavesConfirmed(cfg, next, steps[1..], p, txid, step.action);
    }
  }

  /** What a proof nests is an upgrade of its calendar transaction, for the block and the BTC-C of
      the confirmation, exactly when the lookup finds the transaction confirmed. */
  ghost predicate StoredExactly(cfg: AnchorEngine.Config, n: NodeState, p: string, e: ProofSoundness.Event)
    requires e.ConfirmStep?
  {
    && p in n.db.proofs && NestedBranch(n.db.proofs[p]).Some? && (exists a, c :: ProofSoundness.Anchored(n.db, p, a, c))
    && forall a, c :: ProofSoundness.Anchored(n.db, p, a, c) ==>
         UpgradedExactly(cfg.env, n.machine.log, c.calId, NestedBranch(n.db.proofs[p]), e.tx.txId, e.block, e.tx.blockHeight, e.btccHash)
  }

  lemma ConfirmedIsExact(cfg: AnchorEngine.Config, w: ProofSoundness.World, n: NodeState, p: string, txid: string, e: ProofSoundness.Event)
    requires Inv(cfg, w, n) && HonestBtcas(cfg.env, w, n.machine.log) && e.ConfirmStep? && ConfirmedBy(cfg, n, p, txid, e)
    ensures StoredExactly(cfg, n, p, e)
  {
    KnownOfAccounted(cfg, w, n);
    var m :| ProofRuns.Announced(n.machine.log, m) && m.btcTxId == e.tx.txId
             && Nests(cfg.env, n.db, txid, n.db.proofs[p], m, e.block, e.tx.blockHeight, e.btccHash);
    NestedExactly(cfg.env, n.machine.log, w, n.machine.anchored, n.db, txid, n.db.proofs[p], m, e.block, e.tx.blockHeight, e.btccHash);
    OneCalPerProof(n.db, p, txid);
  }

  lemma OneCalPerProof(db: Db, p: string, txid: string)
    requires ProofSoundness.OneWalk(db) && exists a, c :: ProofSoundness.Anchored(db, p, a, c) && c.calId == txid
    ensures forall a, c :: ProofSoundness.Anchored(db, p, a, c) ==> c.calId == txid
  {
  }

  /** Upgrading against what is stored, over every run: each proof that got a BTC branch in the
      run got it by one confirmation of the run, and at the end it nests the branch that
      ConstructProof makes for that confirmation's block and BTC-C if and only if the BTC-A
      found for the calendar transaction is of the transaction that was confirmed. If it is not,
      ConstructProof makes that branch for no block and BTC-C. */
  lemma UpgradeEqualsStoredForGood(cfg: AnchorEngine.Config, w: ProofSoundness.World, n: NodeState, steps: seq<Step>, p: string) returns (step: Step)
    requires Inv(cfg, w, n) && IsNodeRun(cfg, w, n, steps) && cfg.anchorInterval >= 11
    requires HonestBtcas(cfg.env, w, AfterAll(cfg, n, steps).machine.log)
    requires Unconfirmed(n.db, p) && !Unconfirmed(AfterAll(cfg, n, steps).db, p)
    ensures step in steps && IsConfirm(step) && StoredExactly(cfg, AfterAll(cfg, n, steps), p, step.action)
  {
    var txid;
    step, txid := ConfirmedInRun(cfg, w, n, steps, p);
    EveryProofOfANodeVerifies(cfg, w, n, steps);
    ConfirmedIsExact(cfg, w, AfterAll(cfg, n, steps), p, txid, step.action);
  }

  // ---- confirmations -------------------------------------------------------

  /** The node after a confirmation. */
  function Confirmed(cfg: AnchorEngine.Config, n: NodeState, tx: TxID, block: Option<BlockDetails>, btccHash: Bytes): NodeState
  {
    n.(db := ProofSoundness.AfterConfirm(cfg.env, n.db, tx, block, btccHash))
  }

  /** Every proof found under a transaction when it is confirmed has a BTC branch from then on. */
  lemma ConfirmationCompletesForGood(cfg: AnchorEngine.Config, w: ProofSoundness.World, n: NodeState, steps: seq<Step>, tx: TxID,
                                     block: Option<BlockDetails>, btccHash: Bytes, p: string)
    requires Inv(cfg, w, n) && ProofRuns.HonestBlock(w, tx, block) && HoldsTx(cfg.env.h, block, tx.txId)
    requires tx.txId in n.db.txByTx && tx.txId != "" && p in ProofIdsOfTx(n.db, tx.txId)
    ensures !Unconfirmed(AfterAll(cfg, Confirmed(cfg, n, tx, block, btccHash), steps).db, p)
  {
    ConfirmCompletes(cfg.env, n.machine.log, w, n.machine.anchored, n.db, tx, block, btccHash, p);
    ConfirmedForGood(cfg, Confirmed(cfg, n, tx, block, btccHash), steps, p);
  }
}
