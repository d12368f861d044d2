/** What updateStateFromTx does over whole runs: which transactions are accepted and counted, what
    they are indexed under, and what the counters hold, in terms of what was delivered before. */
module Deliveries {
  import opened ChainTypes
  import opened ChainState
  import opened TxIndex

  /** A delivered transaction: the height of its block, its tags and whether it was accepted. */
  datatype Result = Result(tx: Tx, height: int, tags: seq<Tag>, accepted: bool)

  // ---- histories -----------------------------------------------------------

  /** What the last of the results with a property gives, or the initial value. */
  function LastOf<T>(results: seq<Result>, p: Result -> bool, f: Result -> T, initial: T): T
  {
    if results == [] then initial
    else
      var last := results[|results| - 1];
      if p(last) then f(last) else LastOf(results[..|results| - 1], p, f, initial)
  }

  function CountOf(results: seq<Result>, p: Result -> bool): nat
  {
    if results == [] then 0 else CountOf(results[..|results| - 1], p) + if p(results[|results| - 1]) then 1 else 0
  }

  predicate IsCal(r: Result) { r.tx.Cal? }
  predicate IsBtca(r: Result) { r.tx.BtcA? && r.accepted }
  predicate IsBtcc(r: Result) { r.tx.BtcC? && r.accepted }
  predicate IsRooted(r: Result) { r.tx.BtcC? && r.accepted && (r.tx.version == 2 || r.tx.version == 3) }
  predicate IsError(r: Result) { r.tx.BtcE? }
  predicate IsFee(r: Result) { r.tx.Fee? && r.accepted }

  /** Whose transactions take an index: a VAL always, others when accepted. */
  predicate TakesIndex(r: Result)
  {
    r.tx.Val? || (r.accepted && (r.tx.ChangeStake? || r.tx.Cal? || r.tx.BtcA? || r.tx.BtcC? || r.tx.Jwk?))
  }

  function IndexOf(r: Result): int
  {
    var index := FirstIndex(r.tags);
    if index.Some? then index.value else 0
  }

  function HeightOf(r: Result): int { r.height }
  function TxOf(r: Result): Tx { r.tx }
  function EndOf(r: Result): int { if r.tx.BtcA? && r.tx.msg.Text? then r.tx.msg.value.endCalTxInt else 0 }
  function MetaOf(r: Result): string { if r.tx.BtcC? then r.tx.metaCoreId else "" }
  function FeeOf(r: Result): int { if r.tx.Fee? && r.tx.amount.Some? then r.tx.amount.value else 0 }
  function ErrRootOf(r: Result): string { if r.tx.BtcE? then r.tx.aggRoot else "" }
  function ErrCoreOf(r: Result): string { if r.tx.BtcE? then r.tx.coreId else "" }

  /** The root that a BTC-C confirms: in version 3 that of its message, in version 2 its data. */
  function RootOf(r: Result): string
  {
    if r.tx.BtcC? && r.tx.version == 3 then (if r.tx.mon.Text? then r.tx.mon.value.btcHeadRoot else "")
    else if r.tx.BtcC? then r.tx.data else ""
  }

  /** The root confirmed last. */
  function RootBefore(results: seq<Result>, initial: AnchorState): string
  {
    LastOf(results, IsRooted, RootOf, initial.latestBtccTx)
  }

  // ---- what a result is, given those before it -----------------------------

  /** Whether a transaction is accepted: malformed ones are not, and a BTC-C of version 2 or 3 only
      if it does not confirm the root confirmed last. */
  predicate ToBeAccepted(initial: AnchorState, before: seq<Result>, r: Result)
  {
    match r.tx
    case Val(accepted) => accepted
    case ChangeStake(stake) => stake.Some?
    case Cal(_) => true
    case BtcE(_, _) => true
    case BtcA(msg) => msg.Text?
    case BtcC(version, _, mon, _) =>
      && (version == 3 ==> mon.Text?)
      && (version == 2 || version == 3 ==> RootOf(r) != RootBefore(before, initial))
    case Nist => true
    case Drand => true
    case Fee(amount) => amount.Some?
    case Jwk(saved) => saved
    case Other => false
  }

  /** The tags a result is indexed under. */
  predicate Carries(r: Result, tag: Tag, index: int)
  {
    match tag
    case TxInt(n) => TakesIndex(r) && n == index
    case StakeChange => r.tx.ChangeStake? && r.accepted
    case BtcTxTag(btcTxId) => IsBtca(r) && r.tx.msg.Text? && btcTxId == r.tx.msg.value.btcTxId
    case BtccRoot(root) => IsRooted(r) && root == RootOf(r)
    case BtccTx(btcTxId) => IsRooted(r) && r.tx.version == 3 && r.tx.mon.Text? && btcTxId == r.tx.mon.value.btcTxId
    case BtccHeight(height) => IsRooted(r) && r.tx.version == 3 && r.tx.mon.Text? && height == r.tx.mon.value.btcHeadHeight
    case NewCore => r.tx.Jwk? && r.accepted
  }

  ghost predicate IsRight(initial: AnchorState, before: seq<Result>, r: Result)
  {
    var index := initial.txInt + CountOf(before, TakesIndex) + 1;
    && (r.accepted <==> ToBeAccepted(initial, before, r))
    && FirstIndex(r.tags) == (if TakesIndex(r) then Some(index) else None)
    && forall tag :: tag in r.tags <==> Carries(r, tag, index)
  }

  ghost predicate AllRight(initial: AnchorState, results: seq<Result>)
  {
    forall k :: 0 <= k < |results| ==> IsRight(initial, results[..k], results[k])
  }

  // ---- what the counters hold ----------------------------------------------

  /** The counters that only deliveries move. */
  ghost predicate Recorded(initial: AnchorState, results: seq<Result>, s: AnchorState)
  {
    && s.txInt == initial.txInt + CountOf(results, TakesIndex)
    && s.latestCalTxInt == LastOf(results, IsCal, IndexOf, initial.latestCalTxInt)
    && s.latestBtcaTx == LastOf(results, IsBtca, TxOf, initial.latestBtcaTx)
    && s.latestBtcaTxInt == LastOf(results, IsBtca, IndexOf, initial.latestBtcaTxInt)
    && s.latestBtccTx == RootBefore(results, initial)
    && s.latestBtccTxInt == LastOf(results, IsBtcc, IndexOf, initial.latestBtccTxInt)
    && s.latestBtccHeight == LastOf(results, IsBtcc, HeightOf, initial.latestBtccHeight)
    && s.lastAnchorCoreId == LastOf(results, IsBtcc, MetaOf, initial.lastAnchorCoreId)
    && s.latestBtcFee == LastOf(results, IsFee, FeeOf, initial.latestBtcFee)
    && s.lastBtcFeeHeight == LastOf(results, IsFee, HeightOf, initial.lastBtcFeeHeight + 1) - 1
  }

  /** The counters that the anchor engine of a synced node moves as well. */
  ghost predicate RecordedAlone(initial: AnchorState, results: seq<Result>, s: AnchorState, synced: bool)
  {
    && s.latestErrRoot == LastOf(results, IsError, ErrRootOf, initial.latestErrRoot)
    && s.lastErrorCoreId == LastOf(results, IsError, ErrCoreOf, initial.lastErrorCoreId)
    && s.latestBtcaHeight == LastOf(results, IsBtca, HeightOf, initial.latestBtcaHeight)
    && s.beginCalTxInt == (if synced then initial.beginCalTxInt else LastOf(results, IsBtca, EndOf, initial.beginCalTxInt))
    && s.endCalTxInt == initial.endCalTxInt && s.lastElectedCoreId == initial.lastElectedCoreId
    && s.currentCalInts == initial.currentCalInts + CountOf(results, IsCal)
  }

  function ResultOf(s: AnchorState, tx: Tx, synced: bool): Result
  {
    var d := Delivered(s, tx, synced);
    Result(tx, s.height + 1, d.tags, d.accepted)
  }

  lemma TagsAreRight(s: AnchorState, tx: Tx, synced: bool, tag: Tag)
    ensures tag in ResultOf(s, tx, synced).tags <==> Carries(ResultOf(s, tx, synced), tag, s.txInt + 1)
  {
  }

  /** One delivery, after any history. */
  lemma DeliveryIsRight(initial: AnchorState, before: seq<Result>, s: AnchorState, tx: Tx, synced: bool)
    requires Recorded(initial, before, s)
    ensures IsRight(initial, before, ResultOf(s, tx, synced))
  {
    NextIndex(s, tx, synced);
    forall tag ensures tag in ResultOf(s, tx, synced).tags <==> Carries(ResultOf(s, tx, synced), tag, s.txInt + 1) {
      TagsAreRight(s, tx, synced, tag);
    }
  }

  lemma LastOfOneMore<T>(results: seq<Result>, r: Result, p: Result -> bool, f: Result -> T, initial: T)
    ensures LastOf(results + [r], p, f, initial) == if p(r) then f(r) else LastOf(results, p, f, initial)
    ensures CountOf(results + [r], p) == CountOf(results, p) + if p(r) then 1 else 0
  {
    assert (results + [r])[..|results|] == results;
  }

  lemma DeliveryIsRecorded(initial: AnchorState, before: seq<Result>, s: AnchorState, tx: Tx, synced: bool)
    requires Recorded(initial, before, s)
    ensures Recorded(initial, before + [ResultOf(s, tx, synced)], Delivered(s, tx, synced).state)
  {
    var r := ResultOf(s, tx, synced);
    NextIndex(s, tx, synced);
    LastOfOneMore(before, r, TakesIndex, IndexOf, 0);
    LastOfOneMore(before, r, IsCal, IndexOf, initial.latestCalTxInt);
    LastOfOneMore(before, r, IsBtca, TxOf, initial.latestBtcaTx);
    LastOfOneMore(before, r, IsBtca, IndexOf, initial.latestBtcaTxInt);
    LastOfOneMore(before, r, IsRooted, RootOf, initial.latestBtccTx);
    LastOfOneMore(before, r, IsBtcc, IndexOf, initial.latestBtccTxInt);
    LastOfOneMore(before, r, IsBtcc, HeightOf, initial.latestBtccHeight);
    LastOfOneMore(before, r, IsBtcc, MetaOf, initial.lastAnchorCoreId);
    LastOfOneMore(before, r, IsFee, FeeOf, initial.latestBtcFee);
    LastOfOneMore(before, r, IsFee, HeightOf, initial.lastBtcFeeHeight + 1);
  }

  lemma DeliveryIsRecordedAlone(initial: AnchorState, before: seq<Result>, s: AnchorState, tx: Tx, synced: bool)
    requires RecordedAlone(initial, before, s, synced)
    ensures RecordedAlone(initial, before + [ResultOf(s, tx, synced)], Delivered(s, tx, synced).state, synced)
  {
    var r := ResultOf(s, tx, synced);
    LastOfOneMore(before, r, IsError, ErrRootOf, initial.latestErrRoot);
    LastOfOneMore(before, r, IsError, ErrCoreOf, initial.lastErrorCoreId);
    LastOfOneMore(before, r, IsBtca, HeightOf, initial.latestBtcaHeight);
    LastOfOneMore(before, r, IsBtca, EndOf, initial.beginCalTxInt);
    LastOfOneMore(before, r, IsCal, IndexOf, 0);
  }

  // ---- runs ----------------------------------------------------------------

  datatype Step = Deliver(tx: Tx) | Commit

  function After(s: AnchorState, steps: seq<Step>, synced: bool): AnchorState
  {
    if steps == [] then s
    else
      var before := After(s, steps[..|steps| - 1], synced);
      match steps[|steps| - 1]
      case Deliver(tx) => Delivered(before, tx, synced).state
      case Commit => Committed(before)
  }

  function Results(s: AnchorState, steps: seq<Step>, synced: bool): seq<Result>
  {
    if steps == [] then []
    else
      var front := steps[..|steps| - 1];
      match steps[|steps| - 1]
      case Deliver(tx) => Results(s, front, synced) + [ResultOf(After(s, front, synced), tx, synced)]
      case Commit => Results(s, front, synced)
  }

  function Commits(steps: seq<Step>): nat
  {
    if steps == [] then 0 else Commits(steps[..|steps| - 1]) + if steps[|steps| - 1].Commit? then 1 else 0
  }

  lemma OneMoreRight(initial: AnchorState, results: seq<Result>, r: Result)
    requires AllRight(initial, results) && IsRight(initial, results, r)
    ensures AllRight(initial, results + [r])
  {
    var all := results + [r];
    forall k | 0 <= k < |all| ensures IsRight(initial, all[..k], all[k]) {
      if k < |results| {
        assert all[..k] == results[..k];
      } else {
        assert all[..k] == results;
      }
    }
  }

  /** Every result is right, and the counters hold what the results left. */
  ghost predicate History(initial: AnchorState, results: seq<Result>, s: AnchorState, synced: bool)
  {
    AllRight(initial, results) && Recorded(initial, results, s) && RecordedAlone(initial, results, s, synced)
  }

  lemma OneMoreDelivery(initial: AnchorState, results: seq<Result>, s: AnchorState, tx: Tx, synced: bool)
    requires History(initial, results, s, synced)
    ensures History(initial, results + [ResultOf(s, tx, synced)], Delivered(s, tx, synced).state, synced)
  {
    DeliveryIsRight(initial, results, s, tx, synced);
    OneMoreRight(initial, results, ResultOf(s, tx, synced));
    DeliveryIsRecorded(initial, results, s, tx, synced);
    DeliveryIsRecordedAlone(initial, results, s, tx, synced);
  }

  lemma CommitLeavesHistory(initial: AnchorState, results: seq<Result>, s: AnchorState, synced: bool)
    requires History(initial, results, s, synced)
    ensures History(initial, results, Committed(s), synced)
  {
  }

  /** Over every run of deliveries and commits each transaction is accepted, counted and tagged as
      what was delivered before it says, and the counters hold what the last transaction of each
      kind left. */
  lemma {:induction false} DeliveriesAreRecorded(s: AnchorState, steps: seq<Step>, synced: bool)
    ensures History(s, Results(s, steps, synced), After(s, steps, synced), synced)
  {
    if steps != [] {
      var front, last := steps[..|steps| - 1], steps[|steps| - 1];
      DeliveriesAreRecorded(s, front, synced);
      match last
      case Deliver(tx) => OneMoreDelivery(s, Results(s, front, synced), After(s, front, synced), tx, synced);
      case Commit => CommitLeavesHistory(s, Results(s, front, synced), After(s, front, synced), synced);
    }
  }

  /** Deliveries leave the height alone, which each commit raises by one. */
  lemma DeliveryLeavesHeight(s: AnchorState, tx: Tx, synced: bool)
    ensures Delivered(s, tx, synced).state.height == s.height && Delivered(s, tx, synced).state.appHash == s.appHash
  {
  }

  lemma {:induction false} HeightOfRun(s: AnchorState, steps: seq<Step>, synced: bool)
    ensures After(s, steps, synced).height == s.height + Commits(steps)
    ensures Commits(steps) > 0 ==> After(s, steps, synced).appHash == s.height + Commits(steps) - 1
  {
    if steps != [] {
      var front, last := steps[..|steps| - 1], steps[|steps| - 1];
      HeightOfRun(s, front, synced);
      if last.Deliver? {
        DeliveryLeavesHeight(After(s, front, synced), last.tx, synced);
      }
    }
  }

  lemma {:induction false} LastRooted(results: seq<Result>, i: nat, initial: AnchorState)
    requires i < |results| && IsRooted(results[i]) && forall k :: i < k < |results| ==> !IsRooted(results[k])
    ensures RootBefore(results, initial) == RootOf(results[i])
  {
    if i < |results| - 1 {
      LastRooted(results[..|results| - 1], i, initial);
    }
  }

  /** No confirmation is accepted twice in a row. */
  lemma ConsecutiveRootsDiffer(initial: AnchorState, results: seq<Result>, i: nat, j: nat)
    requires AllRight(initial, results) && i < j < |results| && IsRooted(results[i]) && IsRooted(results[j])
    requires forall k :: i < k < j ==> !IsRooted(results[k])
    ensures RootOf(results[i]) != RootOf(results[j])
  {
    assert IsRight(initial, results[..j], results[j]);
    LastRooted(results[..j], i, initial);
  }
}
