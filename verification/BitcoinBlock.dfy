/** GetBlockTree and GenerateBtcHeaderProof of anchor/bitcoin/bitcoinanchor.go. */
module BitcoinBlock {
  import opened ByteStrings
  import opened Merkle
  import opened ProofOps
  import opened ChainTypes
  import opened Calendar

  /** Transactions by display ID (reversed hex), the Merkle root in internal byte order. */
  datatype BlockDetails = BlockDetails(transactions: seq<string>, merkleRoot: Bytes)

  datatype TxID = TxID(txId: string, blockHeight: int, anchorBtcAggRoot: string)

  datatype BlockTree =
    | BlockUnavailable
    | NotInBlock
    | RootMismatch
    | Tree(block: BlockDetails, leaves: seq<Bytes>, txIndex: nat)

  /** The leaf of a displayed transaction ID: its bytes in internal order. */
  function TxLeaf(txId: string): Bytes
  {
    HexDecode(ReverseTxHex(txId)).bytes
  }

  function TxLeaves(txs: seq<string>): (leaves: seq<Bytes>)
    ensures |leaves| == |txs|
  {
    seq(|txs|, i requires 0 <= i < |txs| => TxLeaf(txs[i]))
  }

  /** The last position of a transaction in a block, or -1. */
  function LastIndex(txs: seq<string>, txId: string): (i: int)
    ensures -1 <= i < |txs|
    ensures i >= 0 ==> txs[i] == txId
    ensures i < 0 <==> txId !in txs
  {
    if txs == [] then -1
    else if txs[|txs| - 1] == txId then |txs| - 1
    else
      assert txs == txs[..|txs| - 1] + [txs[|txs| - 1]];
      LastIndex(txs[..|txs| - 1], txId)
  }

  lemma LastIndexStep(txs: seq<string>, txId: string, i: nat)
    requires i < |txs|
    ensures LastIndex(txs[..i + 1], txId) == if txs[i] == txId then i else LastIndex(txs[..i], txId)
  {
    assert txs[..i + 1][..i] == txs[..i];
  }

  /** The comparison the code makes, on doubly reversed hex. */
  predicate SameReversed(root: Bytes, merkleRoot: Bytes)
  {
    HexDecode(ReverseTxHex(HexEncode(root))).bytes == HexDecode(ReverseTxHex(HexEncode(merkleRoot))).bytes
  }

  /** ... is equality of the two roots. */
  lemma SameReversedIsEquality(root: Bytes, merkleRoot: Bytes)
    ensures SameReversed(root, merkleRoot) <==> root == merkleRoot
  {
    ReverseTxHexOfEncoding(root);
    ReverseTxHexOfEncoding(merkleRoot);
    HexRoundTrip(Reversed(root));
    HexRoundTrip(Reversed(merkleRoot));
    ReversedTwice(root);
    ReversedTwice(merkleRoot);
  }

  function BlockTreeOf(h: Hash, block: Option<BlockDetails>, txId: string): BlockTree
  {
    if block.None? then BlockUnavailable
    else
      var txs := block.value.transactions;
      if LastIndex(txs, txId) < 0 then NotInBlock
      else if !SameReversed(MerkleRoot(Twice(h), Duplicate, TxLeaves(txs)), block.value.merkleRoot) then RootMismatch
      else Tree(block.value, TxLeaves(txs), LastIndex(txs, txId))
  }

  lemma OneMore<T>(s: seq<T>, i: nat)
    requires i < |s|
    ensures s[..i + 1] == s[..i] + [s[i]]
  {
  }

  lemma TxLeavesStep(txs: seq<string>, i: nat)
    requires i < |txs|
    ensures TxLeaves(txs)[..i + 1] == TxLeaves(txs)[..i] + [TxLeaf(txs[i])]
  {
    OneMore(TxLeaves(txs), i);
  }

  method DecodeReversed(t: string) returns (leaf: Bytes)
    ensures leaf == TxLeaf(t)
  {
    var tx := ReverseTxHexInPlace(t);
    leaf := HexDecode(tx).bytes;
  }

  /** The scan of the block: a leaf per transaction, and where the wanted one was last seen. */
  method ScanBlock(txs: seq<string>, txId: string) returns (leaves: seq<Bytes>, txIndex: int)
    ensures leaves == TxLeaves(txs) && txIndex == LastIndex(txs, txId)
  {
    txIndex, leaves := -1, [];
    for i := 0 to |txs|
      invariant txIndex == LastIndex(txs[..i], txId)
      invariant leaves == TxLeaves(txs)[..i]
    {
      LastIndexStep(txs, txId, i);
      TxLeavesStep(txs, i);
      if txs[i] == txId {
        txIndex := i;
      }
      var leaf := DecodeReversed(txs[i]);
      leaves := leaves + [leaf];
    }
    assert txs[..|txs|] == txs;
  }

  method GetBlockTree(h: Hash, block: Option<BlockDetails>, btcTx: TxID) returns (tree: BlockTree)
    ensures tree == BlockTreeOf(h, block, btcTx.txId)
  {
    if block.None? {
      return BlockUnavailable;
    }
    var leaves, txIndex := ScanBlock(block.value.transactions, btcTx.txId);
    if txIndex == -1 {
      return NotInBlock;
    }
    var root := MerkleRoot(Twice(h), Duplicate, leaves);
    var reversedRoot := ReverseTxHexInPlace(HexEncode(root));
    var reversedMerkleRoot := ReverseTxHexInPlace(HexEncode(block.value.merkleRoot));
    if HexDecode(reversedRoot).bytes != HexDecode(reversedMerkleRoot).bytes {
      return RootMismatch;
    }
    tree := Tree(block.value, leaves, txIndex);
  }

  function HeaderProof(h: Hash, block: Option<BlockDetails>, tx: TxID): Option<BtcMonMsg>
  {
    match BlockTreeOf(h, block, tx.txId)
    case Tree(b, leaves, txIndex) =>
      Some(BtcMonMsg(tx.txId, tx.blockHeight, ReverseTxHex(HexEncode(b.merkleRoot)),
                     JsPath(GetProof(Twice(h), Duplicate, leaves, txIndex))))
    case _ => None
  }

  method GenerateBtcHeaderProof(h: Hash, block: Option<BlockDetails>, tx: TxID) returns (btcmsg: Option<BtcMonMsg>)
    ensures btcmsg == HeaderProof(h, block, tx)
  {
    var tree := GetBlockTree(h, block, tx);
    if !tree.Tree? {
      return None;
    }
    var path := WriteJsPath(GetProof(Twice(h), Duplicate, tree.leaves, tree.txIndex));
    var headRoot := ReverseTxHexInPlace(HexEncode(tree.block.merkleRoot));
    btcmsg := Some(BtcMonMsg(tx.txId, tx.blockHeight, headRoot, path));
  }

  method WriteJsPath(proofs: seq<ProofStep>) returns (jsproofs: seq<JSProof>)
    ensures jsproofs == JsPath(proofs)
  {
    jsproofs := [];
    for i := 0 to |proofs|
      invariant jsproofs == JsPath(proofs)[..i]
    {
      if proofs[i].left {
        jsproofs := jsproofs + [JSProof(HexEncode(proofs[i].value), "")];
      } else {
        jsproofs := jsproofs + [JSProof("", HexEncode(proofs[i].value))];
      }
    }
  }

  /** The block is there, holds the transaction, and its transactions hash to its root. */
  ghost predicate HoldsTx(h: Hash, block: Option<BlockDetails>, txId: string)
  {
    && block.Some? && txId in block.value.transactions
    && Root(Twice(h), Duplicate, TxLeaves(block.value.transactions)) == block.value.merkleRoot
  }

  /** A header proof exists exactly for a transaction of an available block whose
      transactions hash to its Merkle root. */
  lemma HeaderProofExists(h: Hash, block: Option<BlockDetails>, tx: TxID)
    ensures HeaderProof(h, block, tx).Some? <==> HoldsTx(h, block, tx.txId)
  {
    if block.Some? && tx.txId in block.value.transactions {
      SameReversedIsEquality(Root(Twice(h), Duplicate, TxLeaves(block.value.transactions)), block.value.merkleRoot);
    }
  }

  /** Its path carries the transaction, in internal byte order, to the block's Merkle root,
      and its head root displays in reverse where the path arrives. */
  lemma HeaderProofSound(h: Hash, block: Option<BlockDetails>, tx: TxID)
    requires HoldsTx(h, block, tx.txId)
    ensures HeaderProof(h, block, tx).Some?
    ensures Leads(h, HeadItems(HeaderProof(h, block, tx).value.path), TxLeaf(tx.txId), block.value.merkleRoot)
    ensures HeaderProof(h, block, tx).value.btcHeadRoot == HexEncode(Reversed(block.value.merkleRoot))
    ensures HeaderProof(h, block, tx).value.btcTxId == tx.txId
    ensures HeaderProof(h, block, tx).value.btcHeadHeight == tx.blockHeight
  {
    HeaderProofExists(h, block, tx);
    var txs := block.value.transactions;
    var i := LastIndex(txs, tx.txId);
    var leaves := TxLeaves(txs);
    PathCompleteness(Twice(h), Duplicate, leaves, i);
    HeadLeads(h, Path(Twice(h), Duplicate, leaves, i), leaves[i]);
    ReverseTxHexOfEncoding(block.value.merkleRoot);
  }
}
