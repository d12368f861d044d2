/** The replicated counters: updateStateFromTx and incrementTxInt of abci/transactions.go,
    Commit of abci/abci.go. */
module ChainState {
  import opened ChainTypes

  /** The part of AnchorState that transactions and blocks move. */
  datatype AnchorState = AnchorState(
    txInt: int,
    height: int,
    appHash: int,           // the height that the block's hash bytes encode
    beginCalTxInt: int,
    endCalTxInt: int,
    latestCalTxInt: int,
    currentCalInts: int,
    latestBtcaTx: Tx,
    latestBtcaTxInt: int,
    latestBtcaHeight: int,
    latestBtccTx: string,
    latestBtccTxInt: int,
    latestBtccHeight: int,
    latestErrRoot: string,
    lastElectedCoreId: string,
    lastErrorCoreId: string,
    lastAnchorCoreId: string,
    latestBtcFee: int,
    lastBtcFeeHeight: int)

  datatype Delivery = Delivery(state: AnchorState, tags: seq<Tag>, accepted: bool)

  function Counted(s: AnchorState): AnchorState
  {
    s.(txInt := s.txInt + 1)
  }

  /** Whether a BTC-C transaction repeats the confirmation seen last. */
  predicate RepeatsBtcc(s: AnchorState, tx: Tx)
    requires tx.BtcC?
  {
    if tx.version == 3 then tx.mon.Text? && tx.mon.value.btcHeadRoot == s.latestBtccTx
    else tx.version == 2 && tx.data == s.latestBtccTx
  }

  function DeliverBtcc(s: AnchorState, tx: Tx): Delivery
    requires tx.BtcC?
  {
    if (tx.version == 3 && tx.mon.Unparsable?) || RepeatsBtcc(s, tx) then Delivery(s, [], false)
    else
      var root := if tx.version == 3 then tx.mon.value.btcHeadRoot else if tx.version == 2 then tx.data else s.latestBtccTx;
      var tags := if tx.version == 3
                  then [BtccRoot(root), BtccTx(tx.mon.value.btcTxId), BtccHeight(tx.mon.value.btcHeadHeight)]
                  else if tx.version == 2 then [BtccRoot(root)] else [];
      Delivery(Counted(s).(latestBtccTx := root, latestBtccTxInt := s.txInt + 1, latestBtccHeight := s.height + 1,
                           lastAnchorCoreId := tx.metaCoreId),
               tags + [TxInt(s.txInt + 1)], true)
  }

  /** One transaction delivered to a node that is synced or catching up. */
  function Delivered(s: AnchorState, tx: Tx, synced: bool): Delivery
  {
    var n := s.txInt + 1;
    match tx
    case Val(accepted) => Delivery(Counted(s), [TxInt(n)], accepted)
    case ChangeStake(stake) =>
      if stake.None? then Delivery(s, [], false) else Delivery(Counted(s), [TxInt(n), StakeChange], true)
    case Cal(_) =>
      Delivery(Counted(s).(latestCalTxInt := n, currentCalInts := s.currentCalInts + 1), [TxInt(n)], true)
    case BtcE(root, coreId) => Delivery(s.(latestErrRoot := root, lastErrorCoreId := coreId), [], true)
    case BtcA(msg) =>
      if msg.Unparsable? then Delivery(s, [], false)
      else
        var begun := if synced then s else s.(beginCalTxInt := msg.value.endCalTxInt);
        Delivery(Counted(begun).(latestBtcaTx := tx, latestBtcaHeight := s.height + 1, latestBtcaTxInt := n),
                 [TxInt(n), BtcTxTag(msg.value.btcTxId)], true)
    case BtcC(_, _, _, _) => DeliverBtcc(s, tx)
    case Nist => Delivery(s, [], true)
    case Drand => Delivery(s, [], true)
    case Fee(amount) =>
      if amount.None? then Delivery(s, [], false)
      else Delivery(s.(latestBtcFee := amount.value, lastBtcFeeHeight := s.height), [], true)
    case Jwk(saved) =>
      if saved then Delivery(Counted(s), [TxInt(n), NewCore], true) else Delivery(s, [], false)
    case Other => Delivery(s, [], false)
  }

  function Committed(s: AnchorState): AnchorState
  {
    s.(appHash := s.height, height := s.height + 1)
  }

  class AnchorApplication {
    var state: AnchorState
    var chainSynced: bool

    constructor (state: AnchorState, chainSynced: bool)
      ensures this.state == state && this.chainSynced == chainSynced
    {
      this.state, this.chainSynced := state, chainSynced;
    }

    method IncrementTxInt(tags: seq<Tag>) returns (more: seq<Tag>)
      modifies this`state
      ensures state == old(state).(txInt := old(state).txInt + 1)
      ensures more == tags + [TxInt(state.txInt)]
    {
      state := state.(txInt := state.txInt + 1);
      more := tags + [TxInt(state.txInt)];
    }

    method UpdateStateFromTx(tx: Tx) returns (tags: seq<Tag>, accepted: bool)
      modifies this`state
      ensures Delivery(state, tags, accepted) == Delivered(old(state), tx, chainSynced)
    {
      tags, accepted := [], false;
      match tx
      case Val(ok) =>
        tags := IncrementTxInt(tags);
        accepted := ok;
      case ChangeStake(stake) =>
        if stake.Some? {
          tags := IncrementTxInt(tags);
          tags := tags + [StakeChange];
          accepted := true;
        }
      case Cal(_) =>
        tags := IncrementTxInt(tags);
        state := state.(latestCalTxInt := state.txInt);
        state := state.(currentCalInts := state.currentCalInts + 1);
        accepted := true;
      case BtcE(root, coreId) =>
        state := state.(latestErrRoot := root);
        state := state.(lastErrorCoreId := coreId);
        accepted := true;
      case BtcA(msg) =>
        if msg.Text? {
          if !chainSynced {
            state := state.(beginCalTxInt := msg.value.endCalTxInt);
          }
          state := state.(latestBtcaTx := tx);
          state := state.(latestBtcaHeight := state.height + 1);
          tags := IncrementTxInt(tags);
          state := state.(latestBtcaTxInt := state.txInt);
          tags := tags + [BtcTxTag(msg.value.btcTxId)];
          accepted := true;
        }
      case BtcC(_, _, _, _) =>
        tags, accepted := UpdateStateFromBtcc(tx);
      case Nist => accepted := true;
      case Drand => accepted := true;
      case Fee(amount) =>
        if amount.Some? {
          state := state.(latestBtcFee := amount.value);
          state := state.(lastBtcFeeHeight := state.height);
          accepted := true;
        }
      case Jwk(saved) =>
        if saved {
          tags := IncrementTxInt(tags);
          tags := tags + [NewCore];
          accepted := true;
        }
      case Other =>
    }

    /** The BTC-C case. */
    method UpdateStateFromBtcc(tx: Tx) returns (tags: seq<Tag>, accepted: bool)
      requires tx.BtcC?
      modifies this`state
      ensures Delivery(state, tags, accepted) == DeliverBtcc(old(state), tx)
    {
      tags, accepted := [], false;
      if tx.version == 3 {
        if tx.mon.Unparsable? || tx.mon.value.btcHeadRoot == state.latestBtccTx {
          return;
        }
        state := state.(latestBtccTx := tx.mon.value.btcHeadRoot);
        tags := [BtccRoot(tx.mon.value.btcHeadRoot), BtccTx(tx.mon.value.btcTxId), BtccHeight(tx.mon.value.btcHeadHeight)];
      } else if tx.version == 2 {
        if tx.data == state.latestBtccTx {
          return;
        }
        state := state.(latestBtccTx := tx.data);
        tags := [BtccRoot(tx.data)];
      }
      tags := IncrementTxInt(tags);
      state := state.(latestBtccTxInt := state.txInt);
      state := state.(latestBtccHeight := state.height + 1);
      state := state.(lastAnchorCoreId := tx.metaCoreId);
      accepted := true;
    }

    method Commit() returns (appHash: int)
      modifies this`state
      ensures state == Committed(old(state)) && appHash == old(state).height
    {
      appHash := state.height;
      state := state.(appHash := appHash);
      state := state.(height := state.height + 1);
    }
  }
}
