/** The tree and state builders of calendar/calendar.go. */
module Calendar {
  import opened ByteStrings
  import opened Merkle
  import opened ProofOps
  import opened ChainTypes

  // ---- GenerateCalendarTree ------------------------------------------------

  /** The leaves of the calendar tree: the roots that decode, in order. */
  function DecodedRoots(aggs: seq<Aggregation>): seq<Bytes>
  {
    if aggs == [] then []
    else
      var root := HexDecode(aggs[0].aggRoot);
      (if root.ok then [root.bytes] else []) + DecodedRoots(aggs[1..])
  }

  lemma {:induction false} DecodedRootsConcat(a: seq<Aggregation>, b: seq<Aggregation>)
    ensures DecodedRoots(a + b) == DecodedRoots(a) + DecodedRoots(b)
  {
    if a == [] {
      assert a + b == b;
    } else {
      assert (a + b)[1..] == a[1..] + b;
      DecodedRootsConcat(a[1..], b);
    }
  }

  lemma DecodedRootsStep(aggs: seq<Aggregation>, i: nat)
    requires i < |aggs|
    ensures DecodedRoots(aggs[..i + 1])
            == DecodedRoots(aggs[..i]) + if HexDecode(aggs[i].aggRoot).ok then [HexDecode(aggs[i].aggRoot).bytes] else []
  {
    assert aggs[..i + 1] == aggs[..i] + [aggs[i]];
    DecodedRootsConcat(aggs[..i], [aggs[i]]);
    assert [aggs[i]][1..] == [];
  }

  function CalProofs(h: Hash, aggs: seq<Aggregation>, leaves: seq<Bytes>): (proofs: seq<CalProofData>)
    ensures |proofs| == |aggs|
  {
    seq(|aggs|, i requires 0 <= i < |aggs| => CalProofData(aggs[i].aggId, PathItems(GetProof(h, Promote, leaves, i), SHA)))
  }

  function CalendarTree(h: Hash, aggs: seq<Aggregation>): CalAgg
  {
    var leaves := DecodedRoots(aggs);
    CalAgg(HexEncode(MerkleRoot(h, Promote, leaves)), CalProofs(h, aggs, leaves))
  }

  lemma CalProofsStep(h: Hash, aggs: seq<Aggregation>, leaves: seq<Bytes>, i: nat)
    requires i < |aggs|
    ensures CalProofs(h, aggs, leaves)[..i + 1]
            == CalProofs(h, aggs, leaves)[..i] + [CalProofData(aggs[i].aggId, PathItems(GetProof(h, Promote, leaves, i), SHA))]
  {
  }

  method GenerateCalendarTree(h: Hash, aggs: seq<Aggregation>) returns (treeDataObj: CalAgg)
    ensures treeDataObj == CalendarTree(h, aggs)
  {
    var leaves: seq<Bytes> := [];
    for i := 0 to |aggs|
      invariant leaves == DecodedRoots(aggs[..i])
    {
      DecodedRootsStep(aggs, i);
      var root := HexDecode(aggs[i].aggRoot);
      if root.ok {
        leaves := leaves + [root.bytes];
      }
    }
    assert aggs[..|aggs|] == aggs;
    var proofData: seq<CalProofData> := [];
    for i := 0 to |aggs|
      invariant proofData == CalProofs(h, aggs, leaves)[..i]
    {
      var proof := WritePath(GetProof(h, Promote, leaves, i), SHA);
      CalProofsStep(h, aggs, leaves, i);
      proofData := proofData + [CalProofData(aggs[i].aggId, proof)];
    }
    treeDataObj := CalAgg(HexEncode(MerkleRoot(h, Promote, leaves)), proofData);
  }

  predicate AllDecode(aggs: seq<Aggregation>)
  {
    forall i :: 0 <= i < |aggs| ==> HexDecode(aggs[i].aggRoot).ok
  }

  lemma {:induction false} DecodedRootsCount(aggs: seq<Aggregation>)
    ensures |DecodedRoots(aggs)| <= |aggs|
    ensures |DecodedRoots(aggs)| == |aggs| <==> AllDecode(aggs)
  {
    if aggs == [] {
    } else {
      DecodedRootsCount(aggs[1..]);
      assert forall i :: 1 <= i < |aggs| ==> aggs[i] == aggs[1..][i - 1];
      assert AllDecode(aggs) ==> AllDecode(aggs[1..]);
    }
  }

  /** Aggregation i, when its root decodes, sits in the tree behind the roots that decode
      before it. Proof i is the path of leaf i, so it is the proof of aggregation i exactly
      when every root before it decodes. */
  lemma CalendarAlignment(aggs: seq<Aggregation>, i: nat)
    requires i < |aggs| && HexDecode(aggs[i].aggRoot).ok
    ensures var at := |DecodedRoots(aggs[..i])|;
            && at < |DecodedRoots(aggs)| && DecodedRoots(aggs)[at] == HexDecode(aggs[i].aggRoot).bytes
            && (at == i <==> AllDecode(aggs[..i]))
  {
    assert aggs[..i] + aggs[i..] == aggs;
    DecodedRootsConcat(aggs[..i], aggs[i..]);
    DecodedRootsCount(aggs[..i]);
  }

  /** Each aggregation root is led to the calendar root by its own proof. */
  lemma CalendarSound(h: Hash, aggs: seq<Aggregation>, i: nat)
    requires i < |aggs| && AllDecode(aggs[..i + 1])
    ensures var cal := CalendarTree(h, aggs);
            && cal.proofData[i].aggId == aggs[i].aggId
            && Leads(h, cal.proofData[i].proof, HexDecode(aggs[i].aggRoot).bytes, HexDecode(cal.calRoot).bytes)
  {
    assert aggs[..i + 1][i] == aggs[i];
    assert forall k :: 0 <= k < i ==> aggs[..i][k] == aggs[..i + 1][k];
    CalendarAlignment(aggs, i);
    var leaves := DecodedRoots(aggs);
    PathItemsLead(h, Path(h, Promote, leaves, i), SHA, leaves[i]);
    PathCompleteness(h, Promote, leaves, i);
    HexRoundTrip(Root(h, Promote, leaves));
  }

  // ---- CreateCalStateMessage -----------------------------------------------

  function CalendarUri(baseUri: string, hash: Bytes): string
  {
    baseUri + "/calendar/" + HexEncode(hash) + "/data"
  }

  function CalState(baseUri: string, txHash: Bytes, data: CalProofData): CalStateObject
  {
    CalStateObject(data.aggId, HexEncode(txHash),
                   Text(AnchorOpsState(data.proof, AnchorObj(HexEncode(txHash), [CalendarUri(baseUri, txHash)]))))
  }

  function CalStates(baseUri: string, txHash: Bytes, cal: CalAgg): (states: seq<CalStateObject>)
    ensures |states| == |cal.proofData|
  {
    seq(|cal.proofData|, i requires 0 <= i < |cal.proofData| => CalState(baseUri, txHash, cal.proofData[i]))
  }

  method CreateCalStateMessage(baseUri: string, txHash: Bytes, treeDataObj: CalAgg) returns (calStates: seq<CalStateObject>)
    ensures calStates == CalStates(baseUri, txHash, treeDataObj)
  {
    calStates := [];
    for i := 0 to |treeDataObj.proofData|
      invariant calStates == CalStates(baseUri, txHash, treeDataObj)[..i]
    {
      calStates := calStates + [CalState(baseUri, txHash, treeDataObj.proofData[i])];
    }
  }

  /** Each state points to the calendar transaction that its anchor names. */
  lemma CalStatePointsToAnchor(baseUri: string, txHash: Bytes, cal: CalAgg, c: CalStateObject)
    requires c in CalStates(baseUri, txHash, cal)
    ensures c.calState.Text? && c.calState.value.anchor.anchorId == c.calId
    ensures c.calState.value.anchor.uris == [baseUri + "/calendar/" + c.calId + "/data"]
  {
    var i :| 0 <= i < |cal.proofData| && CalStates(baseUri, txHash, cal)[i] == c;
  }

  // ---- AggregateAnchorTx ---------------------------------------------------

  /** A CAL transaction that becomes a leaf of the BTC aggregation tree. */
  datatype CalLeaf = CalLeaf(hash: Bytes, root: Bytes)

  function CalLeaves(txs: seq<LogEntry>): seq<CalLeaf>
  {
    if txs == [] then [] else CalLeafOf(txs[0]) + CalLeaves(txs[1..])
  }

  function CalLeafOf(t: LogEntry): seq<CalLeaf>
  {
    if t.tx.Cal? && HexDecode(t.tx.data).ok then [CalLeaf(t.hash, HexDecode(t.tx.data).bytes)] else []
  }

  lemma {:induction false} CalLeavesConcat(a: seq<LogEntry>, b: seq<LogEntry>)
    ensures CalLeaves(a + b) == CalLeaves(a) + CalLeaves(b)
  {
    if a == [] {
      assert a + b == b;
    } else {
      assert (a + b)[1..] == a[1..] + b;
      CalLeavesConcat(a[1..], b);
    }
  }

  function Roots(leaves: seq<CalLeaf>): (roots: seq<Bytes>)
    ensures |roots| == |leaves|
  {
    seq(|leaves|, i requires 0 <= i < |leaves| => leaves[i].root)
  }

  const NO_BTC_AGG: BtcAgg := BtcAgg("", "", [])

  /** The BTC aggregation of a range of CAL transactions; None where the code's slice of the
      first 16 root bytes, which become the aggregation ID, is out of range. */
  function BtcAggregate(h: Hash, uuid: Bytes -> string, txs: seq<LogEntry>): Option<BtcAgg>
  {
    if txs == [] then Some(NO_BTC_AGG)
    else
      var leaves := CalLeaves(txs);
      var root := MerkleRoot(h, Promote, Roots(leaves));
      if |root| < 16 then None
      else Some(BtcAgg(uuid(root[..16]), HexEncode(root), BtcProofs(h, Hashes(leaves), Roots(leaves))))
  }

  function Hashes(leaves: seq<CalLeaf>): (hashes: seq<Bytes>)
    ensures |hashes| == |leaves|
  {
    seq(|leaves|, i requires 0 <= i < |leaves| => leaves[i].hash)
  }

  lemma CalLeavesStep(txs: seq<LogEntry>, i: nat)
    requires i < |txs|
    ensures CalLeaves(txs[..i + 1]) == CalLeaves(txs[..i]) + CalLeafOf(txs[i])
  {
    assert txs[..i + 1] == txs[..i] + [txs[i]];
    CalLeavesConcat(txs[..i], [txs[i]]);
    assert [txs[i]][1..] == [];
    assert CalLeaves([txs[i]]) == CalLeafOf(txs[i]) + CalLeaves([]);
  }

  /** The two slices the code fills side by side. */
  method CollectCalLeaves(txLeaves: seq<LogEntry>) returns (calBytes: seq<Bytes>, calLeaves: seq<Bytes>)
    ensures calBytes == Roots(CalLeaves(txLeaves)) && calLeaves == Hashes(CalLeaves(txLeaves))
  {
    calBytes, calLeaves := [], [];
    for i := 0 to |txLeaves|
      invariant calBytes == Roots(CalLeaves(txLeaves[..i])) && calLeaves == Hashes(CalLeaves(txLeaves[..i]))
    {
      var t := txLeaves[i];
      CalLeavesStep(txLeaves, i);
      if t.tx.Cal? {
        var decoded := HexDecode(t.tx.data);
        if decoded.ok {
          calBytes := calBytes + [decoded.bytes];
          calLeaves := calLeaves + [t.hash];
        }
      }
    }
    assert txLeaves[..|txLeaves|] == txLeaves;
  }

  function BtcProofs(h: Hash, hashes: seq<Bytes>, roots: seq<Bytes>): (proofs: seq<BtcProofData>)
    ensures |proofs| == |hashes|
  {
    seq(|hashes|, i requires 0 <= i < |hashes| => BtcProofData(HexEncode(hashes[i]), PathItems(GetProof(h, Promote, roots, i), SHA)))
  }

  lemma BtcProofsStep(h: Hash, hashes: seq<Bytes>, roots: seq<Bytes>, i: nat)
    requires i < |hashes|
    ensures BtcProofs(h, hashes, roots)[..i + 1]
            == BtcProofs(h, hashes, roots)[..i] + [BtcProofData(HexEncode(hashes[i]), PathItems(GetProof(h, Promote, roots, i), SHA))]
  {
  }

  method AggregateAnchorTx(h: Hash, uuid: Bytes -> string, txLeaves: seq<LogEntry>) returns (treeData: Option<BtcAgg>)
    ensures treeData == BtcAggregate(h, uuid, txLeaves)
  {
    if |txLeaves| == 0 {
      return Some(NO_BTC_AGG);
    }
    var calBytes, calLeaves := CollectCalLeaves(txLeaves);
    var root := MerkleRoot(h, Promote, calBytes);
    if |root| < 16 {
      return None;
    }
    var proofData: seq<BtcProofData> := [];
    for i := 0 to |calLeaves|
      invariant proofData == BtcProofs(h, calLeaves, calBytes)[..i]
    {
      var proof := WritePath(GetProof(h, Promote, calBytes, i), SHA);
      BtcProofsStep(h, calLeaves, calBytes, i);
      proofData := proofData + [BtcProofData(HexEncode(calLeaves[i]), proof)];
    }
    assert proofData == BtcProofs(h, calLeaves, calBytes);
    treeData := Some(BtcAgg(uuid(root[..16]), HexEncode(root), proofData));
  }

  /** Proof i belongs to leaf i whatever was skipped before it, and leads its CAL root to
      the aggregation root. */
  lemma BtcAggregateSound(h: Hash, uuid: Bytes -> string, txs: seq<LogEntry>, i: nat)
    requires BtcAggregate(h, uuid, txs).Some? && i < |BtcAggregate(h, uuid, txs).value.proofData|
    ensures var agg := BtcAggregate(h, uuid, txs).value;
            var leaves := CalLeaves(txs);
            && |leaves| == |agg.proofData|
            && agg.proofData[i].calId == HexEncode(leaves[i].hash)
            && Leads(h, agg.proofData[i].proof, leaves[i].root, HexDecode(agg.anchorBtcAggRoot).bytes)
  {
    var roots := Roots(CalLeaves(txs));
    PathItemsLead(h, Path(h, Promote, roots, i), SHA, roots[i]);
    PathCompleteness(h, Promote, roots, i);
    HexRoundTrip(Root(h, Promote, roots));
  }

  /** With roots of 32 bytes there is no aggregation, but a slice out of range and a panic, exactly
      for a range that is not empty and none of whose data decodes. */
  lemma AggregateFailsExactly(h: Hash, uuid: Bytes -> string, txs: seq<LogEntry>)
    requires (forall x :: |h(x)| == 32) && forall leaf :: leaf in CalLeaves(txs) ==> |leaf.root| == 32
    ensures BtcAggregate(h, uuid, txs).None? <==> txs != [] && CalLeaves(txs) == []
  {
    var leaves := CalLeaves(txs);
    if leaves != [] {
      assert forall i :: 0 <= i < |leaves| ==> leaves[i] in leaves;
      RootSized(h, Promote, Roots(leaves), 32);
    }
  }

  // ---- PrepareBtcaStateData ------------------------------------------------

  function BtcaStates(agg: BtcAgg): (states: seq<AnchorBtcAggState>)
    ensures |states| == |agg.proofData|
  {
    seq(|agg.proofData|, i requires 0 <= i < |agg.proofData| =>
      AnchorBtcAggState(agg.proofData[i].calId, agg.anchorBtcAggId, Text(OpsState(agg.proofData[i].proof))))
  }

  method PrepareBtcaStateData(anchorDataObj: BtcAgg) returns (anchorObjects: seq<AnchorBtcAggState>)
    ensures anchorObjects == BtcaStates(anchorDataObj)
  {
    anchorObjects := [];
    for i := 0 to |anchorDataObj.proofData|
      invariant anchorObjects == BtcaStates(anchorDataObj)[..i]
    {
      var item := anchorDataObj.proofData[i];
      anchorObjects := anchorObjects + [AnchorBtcAggState(item.calId, anchorDataObj.anchorBtcAggId, Text(OpsState(item.proof)))];
    }
  }

  // ---- GenerateAnchorBtcTxState --------------------------------------------

  function TxOps(l: string, r: string): seq<ProofLineItem>
  {
    [LeftItem(l), RightItem(r), OpItem(SHA_TWICE)]
  }

  /** The transaction body with the aggregation root cut out at its first occurrence; None
      where the root does not occur and the code's slice is out of range. */
  function GenerateAnchorBtcTxState(msg: BtcTxMsg): Option<AnchorBtcTxState>
  {
    var at := IndexOf(msg.btcTxBody, msg.anchorBtcAggRoot);
    if at < 0 then None
    else Some(AnchorBtcTxState(msg.anchorBtcAggId, msg.btcTxId,
                               Text(OpsState(TxOps(msg.btcTxBody[..at], msg.btcTxBody[at + |msg.anchorBtcAggRoot|..])))))
  }

  /** The bytes hashed when the root is put back between the stored ends of the body. */
  function Rejoined(msg: BtcTxMsg): Bytes
    requires IndexOf(msg.btcTxBody, msg.anchorBtcAggRoot) >= 0
  {
    var at := IndexOf(msg.btcTxBody, msg.anchorBtcAggRoot);
    TokenBytes(msg.btcTxBody[..at]) + HexDecode(msg.anchorBtcAggRoot).bytes
    + TokenBytes(msg.btcTxBody[at + |msg.anchorBtcAggRoot|..])
  }

  /** The stored front of the body, nothing when it is empty. */
  lemma FrontLeads(h: Hash, l: string, x: Bytes)
    ensures Leads(h, [LeftItem(l)], x, TokenBytes(l) + x)
  {
    var items := [LeftItem(l)];
    assert items[1..] == [];
    var ops := Convert(items);
    assert ops == ConvertItem(LeftItem(l)) + Convert([]);
    var y := TokenBytes(l) + x;
    assert Evaluate(h, [], y) == Reached(y, []);
    if l == "" {
      assert ops == [] && y == x;
    } else {
      assert ops == [Sibling(l, "")] && ops[1..] == [];
      assert y + TokenBytes("") == y;
    }
  }

  lemma TxStateLeads(h: Hash, msg: BtcTxMsg)
    requires GenerateAnchorBtcTxState(msg).Some?
    ensures Leads(h, GenerateAnchorBtcTxState(msg).value.btcTxState.value.ops, HexDecode(msg.anchorBtcAggRoot).bytes,
                  h(h(Rejoined(msg))))
  {
    var at := IndexOf(msg.btcTxBody, msg.anchorBtcAggRoot);
    assert GenerateAnchorBtcTxState(msg).value.btcTxState.value.ops
           == TxOps(msg.btcTxBody[..at], msg.btcTxBody[at + |msg.anchorBtcAggRoot|..]);
    EndsLead(h, msg.btcTxBody[..at], msg.btcTxBody[at + |msg.anchorBtcAggRoot|..], HexDecode(msg.anchorBtcAggRoot).bytes);
  }

  lemma EndsLead(h: Hash, l: string, r: string, x: Bytes)
    ensures Leads(h, TxOps(l, r), x, h(h(TokenBytes(l) + x + TokenBytes(r))))
  {
    var y := TokenBytes(l) + x;
    FrontLeads(h, l, x);
    LinesLead(h, RightItem(r), SHA_TWICE, y);
    assert TokenBytes("") + y == y;
    LeadsConcat(h, [LeftItem(l)], [RightItem(r), OpItem(SHA_TWICE)], x, y, h(h(y + TokenBytes(r))));
    assert [LeftItem(l)] + [RightItem(r), OpItem(SHA_TWICE)] == TxOps(l, r);
  }

  /** Putting the root back gives the body again exactly when it was cut out at an even
      offset, that is, between two bytes. At an odd offset the ends do not read as hex, and
      what is hashed has another length than the body. */
  lemma RejoinedIsBody(msg: BtcTxMsg)
    requires IndexOf(msg.btcTxBody, msg.anchorBtcAggRoot) >= 0 && msg.anchorBtcAggRoot != ""
    requires HexDecode(msg.btcTxBody).ok && HexDecode(msg.anchorBtcAggRoot).ok
    ensures Rejoined(msg) == HexDecode(msg.btcTxBody).bytes <==> IndexOf(msg.btcTxBody, msg.anchorBtcAggRoot) % 2 == 0
  {
    HexDecodeLength(msg.anchorBtcAggRoot);
    var body, hex := msg.btcTxBody, msg.anchorBtcAggRoot;
    var at := IndexOf(body, hex);
    CutOut(body, hex, at);
    RejoinedEnds(body[..at], hex, body[at + |hex|..]);
  }

  lemma CutOut(body: string, hex: string, at: nat)
    requires ContainsAt(body, hex, at)
    ensures body == body[..at] + hex + body[at + |hex|..]
  {
  }

  lemma RejoinedEnds(l: string, hex: string, r: string)
    requires |hex| % 2 == 0 && hex != "" && HexDecode(hex).ok && HexDecode(l + hex + r).ok
    ensures TokenBytes(l) + HexDecode(hex).bytes + TokenBytes(r) == HexDecode(l + hex + r).bytes <==> |l| % 2 == 0
  {
    HexDecodeLength(hex);
    if |l| % 2 == 0 {
      EvenParts(l, hex, r);
    } else {
      OddLengths(l, hex, r);
    }
  }

  lemma EvenParts(l: string, hex: string, r: string)
    requires |l| % 2 == 0 && |hex| % 2 == 0 && HexDecode(l + hex + r).ok
    ensures TokenBytes(l) + HexDecode(hex).bytes + TokenBytes(r) == HexDecode(l + hex + r).bytes
  {
    ThreeParts(l, hex, r);
  }

  lemma ThreeParts(l: string, hex: string, r: string)
    requires |l| % 2 == 0 && |hex| % 2 == 0 && HexDecode(l + hex + r).ok
    ensures HexDecode(l).ok && HexDecode(hex).ok && HexDecode(r).ok
    ensures HexDecode(l + hex + r).bytes == HexDecode(l).bytes + HexDecode(hex).bytes + HexDecode(r).bytes
  {
    EvenSum(|l|, |hex|);
    HexDecodeSplit(l + hex, r);
    HexDecodeSplit(l, hex);
  }

  lemma EvenSum(a: nat, b: nat)
    requires a % 2 == 0 && b % 2 == 0
    ensures (a + b) % 2 == 0
  {
  }

  lemma OddLengths(l: string, hex: string, r: string)
    requires |l| % 2 == 1 && |hex| % 2 == 0 && HexDecode(l + hex + r).ok
    ensures |TokenBytes(l)| >= |l| && |TokenBytes(r)| >= |r| && |l| + |hex| + |r| == 2 * |HexDecode(l + hex + r).bytes|
  {
    HexDecodeLength(l + hex + r);
    OddRest(|l|, |hex|, |r|, |HexDecode(l + hex + r).bytes|);
    OddIsText(l);
    OddIsText(r);
  }

  lemma OddRest(l: nat, hex: nat, r: nat, n: nat)
    requires l % 2 == 1 && hex % 2 == 0 && l + hex + r == 2 * n
    ensures r % 2 == 1
  {
    assert l == 2 * (l / 2) + 1 && hex == 2 * (hex / 2);
    assert r == 2 * (n - l / 2 - hex / 2 - 1) + 1;
  }

  lemma OddIsText(s: string)
    requires |s| % 2 == 1
    ensures |TokenBytes(s)| >= |s|
  {
    if HexDecode(s).ok {
      HexDecodeLength(s);
    }
  }

  // ---- GenerateHeadStateObject ---------------------------------------------

  /** The lines of one sibling, as the head state and as a tree path write it. */
  function Siblings(p: JSProof): seq<ProofLineItem>
  {
    (if p.left != "" then [LeftItem(p.left)] else []) + (if p.right != "" then [RightItem(p.right)] else [])
  }

  function HeadItems(path: seq<JSProof>): seq<ProofLineItem>
  {
    if path == [] then []
    else
      Siblings(path[0]) + [OpItem(SHA_TWICE)] + HeadItems(path[1..])
  }

  lemma {:induction false} HeadItemsConcat(a: seq<JSProof>, b: seq<JSProof>)
    ensures HeadItems(a + b) == HeadItems(a) + HeadItems(b)
  {
    if a == [] {
      assert a + b == b;
    } else {
      assert (a + b)[1..] == a[1..] + b;
      HeadItemsConcat(a[1..], b);
    }
  }

  lemma HeadItemsStep(path: seq<JSProof>, i: nat)
    requires i < |path|
    ensures HeadItems(path[..i + 1]) == HeadItems(path[..i]) + Siblings(path[i]) + [OpItem(SHA_TWICE)]
  {
    assert path[..i + 1] == path[..i] + [path[i]];
    HeadItemsConcat(path[..i], [path[i]]);
    assert [path[i]][1..] == [];
  }

  /** The code lower-cases the URI; lowering is a parameter. */
  function HeadState(lower: string -> string, uri: string, hash: Bytes, mon: BtcMonMsg, decimal: int -> string): AnchorBtcHeadState
  {
    AnchorBtcHeadState(mon.btcTxId, mon.btcHeadHeight,
                       Text(AnchorOpsState(HeadItems(mon.path),
                                           AnchorObj(decimal(mon.btcHeadHeight), [lower(CalendarUri(uri, hash))]))))
  }

  /** The head state points to the BTC-C by its hash, in lower case, and names the block's height. */
  lemma HeadStatePointsToBtcc(lower: string -> string, uri: string, hash: Bytes, mon: BtcMonMsg, decimal: int -> string)
    ensures var head := HeadState(lower, uri, hash, mon, decimal);
            && head.btcTxId == mon.btcTxId && head.btcHeadHeight == mon.btcHeadHeight && head.btcHeadState.Text?
            && head.btcHeadState.value.anchor == AnchorObj(decimal(mon.btcHeadHeight), [lower(uri + "/calendar/" + HexEncode(hash) + "/data")])
  {
  }

  method GenerateHeadStateObject(lower: string -> string, uri: string, hash: Bytes, btcMonObj: BtcMonMsg, decimal: int -> string)
    returns (headStateObj: AnchorBtcHeadState)
    ensures headStateObj == HeadState(lower, uri, hash, btcMonObj, decimal)
  {
    var ops: seq<ProofLineItem> := [];
    for i := 0 to |btcMonObj.path|
      invariant ops == HeadItems(btcMonObj.path[..i])
    {
      var p := btcMonObj.path[i];
      HeadItemsStep(btcMonObj.path, i);
      if p.left != "" {
        ops := ops + [LeftItem(p.left)];
      }
      if p.right != "" {
        ops := ops + [RightItem(p.right)];
      }
      ops := ops + [OpItem(SHA_TWICE)];
    }
    assert btcMonObj.path[..|btcMonObj.path|] == btcMonObj.path;
    headStateObj := AnchorBtcHeadState(
      btcMonObj.btcTxId, btcMonObj.btcHeadHeight,
      Text(AnchorOpsState(ops, AnchorObj(decimal(btcMonObj.btcHeadHeight), [lower(CalendarUri(uri, hash))]))));
  }

  function JsStep(step: ProofStep): JSProof
  {
    if step.left then JSProof(HexEncode(step.value), "") else JSProof("", HexEncode(step.value))
  }

  function JsPath(steps: seq<ProofStep>): (path: seq<JSProof>)
    ensures |path| == |steps|
  {
    seq(|steps|, i requires 0 <= i < |steps| => JsStep(steps[i]))
  }

  lemma SiblingsConvert(step: ProofStep)
    ensures Convert(Siblings(JsStep(step))) == Convert([StepItem(step)])
  {
    var line := [StepItem(step)];
    assert line[1..] == [];
    assert Convert(line) == ConvertItem(line[0]) + Convert([]);
    assert Siblings(JsStep(step)) == [] || Siblings(JsStep(step)) == line;
  }

  lemma ConvertThree(a: seq<ProofLineItem>, b: seq<ProofLineItem>, c: seq<ProofLineItem>)
    ensures Convert(a + b + c) == Convert(a) + Convert(b) + Convert(c)
  {
    ConvertConcat(a + b, c);
    ConvertConcat(a, b);
  }

  /** The head state's lines mean the same as the path written line by line. */
  lemma {:induction false} HeadItemsOfPath(steps: seq<ProofStep>)
    ensures Convert(HeadItems(JsPath(steps))) == Convert(PathItems(steps, SHA_TWICE))
  {
    if steps != [] {
      HeadItemsOfPath(steps[1..]);
      assert JsPath(steps)[1..] == JsPath(steps[1..]);
      var op, head, tail := [OpItem(SHA_TWICE)], HeadItems(JsPath(steps[1..])), PathItems(steps[1..], SHA_TWICE);
      assert HeadItems(JsPath(steps)) == Siblings(JsStep(steps[0])) + op + head;
      assert PathItems(steps, SHA_TWICE) == [StepItem(steps[0])] + op + tail;
      ConvertThree(Siblings(JsStep(steps[0])), op, head);
      ConvertThree([StepItem(steps[0])], op, tail);
      SiblingsConvert(steps[0]);
    }
  }

  lemma HeadLeads(h: Hash, steps: seq<ProofStep>, x: Bytes)
    ensures Leads(h, HeadItems(JsPath(steps)), x, Fold(Twice(h), steps, x))
  {
    HeadItemsOfPath(steps);
    PathItemsLead(h, steps, SHA_TWICE, x);
  }
}
