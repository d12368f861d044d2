/** The records of types/types.go that several components share. */
module ChainTypes {
  import opened ByteStrings
  import opened ProofOps

  datatype Option<+T> = None | Some(value: T)

  // ---- records of the proof pipeline ---------------------------------------

  datatype HashItem = HashItem(proofId: string, hash: string)

  datatype AggState = AggState(proofId: string, hash: string, aggId: string, aggState: Stored<OpsState>, aggRoot: string)

  datatype Aggregation = Aggregation(aggId: string, aggRoot: string, aggStates: seq<AggState>)

  datatype CalProofData = CalProofData(aggId: string, proof: seq<ProofLineItem>)

  datatype CalAgg = CalAgg(calRoot: string, proofData: seq<CalProofData>)

  datatype CalStateObject = CalStateObject(aggId: string, calId: string, calState: Stored<AnchorOpsState>)

  datatype BtcProofData = BtcProofData(calId: string, proof: seq<ProofLineItem>)

  datatype BtcAgg = BtcAgg(anchorBtcAggId: string, anchorBtcAggRoot: string, proofData: seq<BtcProofData>)

  datatype AnchorBtcAggState = AnchorBtcAggState(calId: string, anchorBtcAggId: string, anchorBtcAggState: Stored<OpsState>)

  datatype AnchorBtcTxState = AnchorBtcTxState(anchorBtcAggId: string, btcTxId: string, btcTxState: Stored<OpsState>)

  datatype AnchorBtcHeadState = AnchorBtcHeadState(btcTxId: string, btcHeadHeight: int, btcHeadState: Stored<AnchorOpsState>)

  // ---- transactions --------------------------------------------------------

  datatype BtcTxMsg = BtcTxMsg(
    anchorBtcAggId: string, anchorBtcAggRoot: string, btcTxId: string, btcTxBody: string,
    beginCalTxInt: int, endCalTxInt: int)

  datatype JSProof = JSProof(left: string, right: string)

  datatype BtcMonMsg = BtcMonMsg(btcTxId: string, btcHeadHeight: int, btcHeadRoot: string, path: seq<JSProof>)

  /** A delivered transaction by type, its data parsed where updateStateFromTx parses it. */
  datatype Tx =
    | Val(accepted: bool)
    | ChangeStake(stake: Option<int>)
    | Cal(data: string)
    | BtcE(aggRoot: string, coreId: string)
    | BtcA(msg: Stored<BtcTxMsg>)
    | BtcC(version: int, data: string, mon: Stored<BtcMonMsg>, metaCoreId: string)
    | Nist
    | Drand
    | Fee(amount: Option<int>)
    | Jwk(saved: bool)
    | Other

  /** The event attributes updateStateFromTx attaches. */
  datatype Tag =
    | TxInt(index: int)
    | StakeChange
    | BtcTxTag(btcTxId: string)
    | BtccRoot(root: string)
    | BtccTx(btcTxId: string)
    | BtccHeight(height: int)
    | NewCore

  /** A transaction as Tendermint indexes it. */
  datatype LogEntry = LogEntry(hash: Bytes, tx: Tx, tags: seq<Tag>)

  // ---- ranges of transaction indexes ---------------------------------------

  /** A half-open range of CAL indexes that one BTC transaction anchors. */
  datatype Range = Range(begin: int, end: int)

  predicate Inside(r: Range, n: int)
  {
    r.begin <= n < r.end
  }

  predicate EqualOrDisjoint(a: Range, b: Range)
  {
    a == b || a.end <= b.begin || b.end <= a.begin
  }

  ghost predicate Disjoint(ranges: set<Range>)
  {
    forall r, s :: r in ranges && s in ranges ==> EqualOrDisjoint(r, s)
  }
}
