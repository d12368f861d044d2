/** A node with its list of transactions that wait for confirmations: what BeginTxMonitor puts on
    the list and MonitorConfirmedTx takes off it completes proofs in the store. */
module HandedOn {
  import opened ByteStrings
  import opened ChainTypes
  import opened ProofOps
  import opened Store
  import opened BitcoinBlock
  import Confirmations
  import ConfirmationRuns
  import AnchorEngine
  import NodeRuns
  import opened ProofUpgrade

  datatype Core = Core(node: NodeRuns.NodeState, monitor: ConfirmationRuns.Monitor)

  /** BeginTxMonitor writes the store and the list; the other steps touch one of the two. */
  datatype Step = Begin(msg: BtcTxMsg) | OnNode(step: NodeRuns.Step) | OnList(event: ConfirmationRuns.Event)

  function After(cfg: AnchorEngine.Config, s: Core, step: Step): Core
  {
    match step
    case Begin(msg) =>
      Core(NodeRuns.After(cfg, s.node, NodeRuns.Proofs(ProofSoundness.MonitorStep(msg))),
           ConfirmationRuns.After(s.monitor, ConfirmationRuns.Broadcast(msg.btcTxId, msg.anchorBtcAggRoot)))
    case OnNode(e) => s.(node := NodeRuns.After(cfg, s.node, e))
    case OnList(e) => s.(monitor := ConfirmationRuns.After(s.monitor, e))
  }

  function AfterAll(cfg: AnchorEngine.Config, s: Core, steps: seq<Step>): Core
    decreases |steps|
  {
    if steps == [] then s else AfterAll(cfg, After(cfg, s, steps[0]), steps[1..])
  }

  ghost predicate Possible(cfg: AnchorEngine.Config, w: ProofSoundness.World, c: ConfirmationRuns.Blocks, s: Core, step: Step)
  {
    match step
    case Begin(msg) => NodeRuns.Possible(cfg, w, s.node, NodeRuns.Proofs(ProofSoundness.MonitorStep(msg)))
    case OnNode(e) => NodeRuns.Possible(cfg, w, s.node, e)
    case OnList(e) => !e.Broadcast? && ConfirmationRuns.Honest(e, c)
  }

  ghost predicate IsRun(cfg: AnchorEngine.Config, w: ProofSoundness.World, c: ConfirmationRuns.Blocks, s: Core, steps: seq<Step>)
    decreases |steps|
  {
    steps == [] || (Possible(cfg, w, c, s, steps[0]) && IsRun(cfg, w, c, After(cfg, s, steps[0]), steps[1..]))
  }

  /** Every transaction that was ever put on the list has its state in the store. */
  ghost predicate ListedAreStored(s: Core)
  {
    forall e :: e in s.monitor.added ==> e.Text? && e.value.txId in s.node.db.txByTx
  }

  ghost predicate Inv(cfg: AnchorEngine.Config, w: ProofSoundness.World, c: ConfirmationRuns.Blocks, s: Core)
  {
    NodeRuns.Inv(cfg, w, s.node) && ConfirmationRuns.Tracked(s.monitor, c) && ListedAreStored(s)
  }

  lemma TxsGrow(cfg: AnchorEngine.Config, n: NodeRuns.NodeState, step: NodeRuns.Step)
    ensures n.db.txByTx.Keys <= NodeRuns.After(cfg, n, step).db.txByTx.Keys
  {
    if step.Proofs? {
      ProofRuns.TxsGrow(cfg.env, n.machine.log, n.db, step.action);
    }
  }

  lemma BeginLists(cfg: AnchorEngine.Config, w: ProofSoundness.World, s: Core, msg: BtcTxMsg)
    requires ListedAreStored(s) && ProofRuns.GoodBtca(cfg.env, w, msg)
    ensures ListedAreStored(After(cfg, s, Begin(msg)))
  {
    TxsGrow(cfg, s.node, NodeRuns.Proofs(ProofSoundness.MonitorStep(msg)));
    ProofRuns.MonitorStoresTx(cfg.env, s.node.machine.log, w, s.node.db, msg);
  }

  lemma ListedStay(cfg: AnchorEngine.Config, w: ProofSoundness.World, c: ConfirmationRuns.Blocks, s: Core, step: Step)
    requires ListedAreStored(s) && Possible(cfg, w, c, s, step)
    ensures ListedAreStored(After(cfg, s, step))
  {
    match step
    case Begin(msg) => BeginLists(cfg, w, s, msg);
    case OnNode(e) => TxsGrow(cfg, s.node, e);
    case OnList(e) => ConfirmationRuns.NoneAdded(s.monitor, e);
  }

  lemma StepKeeps(cfg: AnchorEngine.Config, w: ProofSoundness.World, c: ConfirmationRuns.Blocks, s: Core, step: Step)
    requires Inv(cfg, w, c, s) && Possible(cfg, w, c, s, step) && cfg.anchorInterval >= 11 && ConfirmationRuns.NoneMinedTwice(c)
    ensures Inv(cfg, w, c, After(cfg, s, step))
  {
    ListedStay(cfg, w, c, s, step);
    match step
    case Begin(msg) =>
      NodeRuns.StepKeeps(cfg, w, s.node, NodeRuns.Proofs(ProofSoundness.MonitorStep(msg)));
      ConfirmationRuns.StepTracks(s.monitor, ConfirmationRuns.Broadcast(msg.btcTxId, msg.anchorBtcAggRoot), c);
    case OnNode(e) => NodeRuns.StepKeeps(cfg, w, s.node, e);
    case OnList(e) => ConfirmationRuns.StepTracks(s.monitor, e, c);
  }

  lemma {:induction false} RunKeeps(cfg: AnchorEngine.Config, w: ProofSoundness.World, c: ConfirmationRuns.Blocks, s: Core, steps: seq<Step>)
    requires Inv(cfg, w, c, s) && IsRun(cfg, w, c, s, steps) && cfg.anchorInterval >= 11 && ConfirmationRuns.NoneMinedTwice(c)
    ensures Inv(cfg, w, c, AfterAll(cfg, s, steps))
    decreases |steps|
  {
    if steps != [] {
      StepKeeps(cfg, w, c, s, steps[0]);
      RunKeeps(cfg, w, c, After(cfg, s, steps[0]), steps[1..]);
    }
  }

  /** What was handed on is in the store, and in the block of its height. */
  lemma HandedOnIsStored(s: Core, c: ConfirmationRuns.Blocks, x: TxID)
    requires ConfirmationRuns.Tracked(s.monitor, c) && ListedAreStored(s) && Text(x) in s.monitor.confirmed
    ensures x.txId in s.node.db.txByTx && x.blockHeight > 0 && x.txId in c(x.blockHeight)
  {
    ConfirmationRuns.HandedOnWasAdded(s.monitor, x);
  }

  /** With a block, a confirmation leaves the proof with a BTC branch, for good; without, it
      changes nothing. */
  ghost predicate Completes(cfg: AnchorEngine.Config, n: NodeRuns.NodeState, x: TxID, block: Option<BlockDetails>,
                            btccHash: Bytes, later: seq<NodeRuns.Step>, p: string)
  {
    var next := NodeRuns.Confirmed(cfg, n, x, block, btccHash);
    if block.Some? then !Unconfirmed(NodeRuns.AfterAll(cfg, next, later).db, p) else next == n
  }

  /** ConfirmAnchor of a transaction is a step that the node can take. */
  lemma ConfirmIsPossible(cfg: AnchorEngine.Config, w: ProofSoundness.World, n: NodeRuns.NodeState, x: TxID, block: Option<BlockDetails>, btccHash: Bytes)
    requires ProofRuns.HonestBlock(w, x, block)
    ensures NodeRuns.Possible(cfg, w, n, NodeRuns.Proofs(ProofSoundness.ConfirmStep(x, block, btccHash)))
    ensures NodeRuns.Confirmed(cfg, n, x, block, btccHash) == NodeRuns.After(cfg, n, NodeRuns.Proofs(ProofSoundness.ConfirmStep(x, block, btccHash)))
  {
  }

  lemma NoBlockNoChange(cfg: AnchorEngine.Config, n: NodeRuns.NodeState, x: TxID, btccHash: Bytes)
    ensures NodeRuns.Confirmed(cfg, n, x, None, btccHash) == n
  {
  }

  lemma ConfirmStepCompletes(cfg: AnchorEngine.Config, w: ProofSoundness.World, n: NodeRuns.NodeState, x: TxID, block: Option<BlockDetails>,
                             btccHash: Bytes, later: seq<NodeRuns.Step>, p: string)
    requires NodeRuns.Inv(cfg, w, n) && ProofRuns.HonestBlock(w, x, block) && (block.Some? ==> HoldsTx(cfg.env.h, block, x.txId))
    requires x.txId in n.db.txByTx && x.txId != "" && p in ProofIdsOfTx(n.db, x.txId)
    ensures Completes(cfg, n, x, block, btccHash, later, p)
  {
    if block.Some? {
      NodeRuns.ConfirmationCompletesForGood(cfg, w, n, later, x, block, btccHash, p);
    } else {
      NoBlockNoChange(cfg, n, x, btccHash);
    }
  }

  /** Over every run of a node and its list, a transaction handed on leads to a confirmation of the
      node that completes every proof found under the transaction, if its block is at hand. */
  lemma HandedOnCompletes(cfg: AnchorEngine.Config, w: ProofSoundness.World, c: ConfirmationRuns.Blocks, s: Core, steps: seq<Step>,
                          x: TxID, view: Confirmations.Chain, btccHash: Bytes, later: seq<NodeRuns.Step>, p: string)
    requires Inv(cfg, w, c, s) && IsRun(cfg, w, c, s, steps) && cfg.anchorInterval >= 11 && ConfirmationRuns.NoneMinedTwice(c)
    requires Text(x) in AfterAll(cfg, s, steps).monitor.confirmed && x.txId != ""
    requires ConfirmationRuns.Agrees(view, c) && ConfirmationRuns.RootsHold(cfg.env.h, view)
    requires ProofRuns.HonestBlock(w, x, Confirmations.BlockAt(view, x.blockHeight))
    requires p in ProofIdsOfTx(AfterAll(cfg, s, steps).node.db, x.txId)
    ensures NodeRuns.Possible(cfg, w, AfterAll(cfg, s, steps).node,
                              NodeRuns.Proofs(ProofSoundness.ConfirmStep(x, Confirmations.BlockAt(view, x.blockHeight), btccHash)))
    ensures Completes(cfg, AfterAll(cfg, s, steps).node, x, Confirmations.BlockAt(view, x.blockHeight), btccHash, later, p)
  {
    RunKeeps(cfg, w, c, s, steps);
    HandedOnIsStored(AfterAll(cfg, s, steps), c, x);
    ConfirmIsPossible(cfg, w, AfterAll(cfg, s, steps).node, x, Confirmations.BlockAt(view, x.blockHeight), btccHash);
    ConfirmStepCompletes(cfg, w, AfterAll(cfg, s, steps).node, x, Confirmations.BlockAt(view, x.blockHeight), btccHash, later, p);
  }
}
