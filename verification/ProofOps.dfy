/** Proof documents (proof/proof.go) and what a Chainpoint verifier makes of them:
    "l" puts bytes in front, "r" puts bytes behind, "op" hashes, an "anchors" entry
    claims the value reached so far, and nested branches go on from that value. */
module ProofOps {
  import opened ByteStrings
  import opened Utf8
  import opened Merkle

  /** One line of a stored state; an empty field is absent. */
  datatype ProofLineItem = ProofLineItem(left: string, right: string, op: string)

  datatype AnchorObj = AnchorObj(anchorId: string, uris: seq<string>)
  datatype OpsState = OpsState(ops: seq<ProofLineItem>)
  datatype AnchorOpsState = AnchorOpsState(ops: seq<ProofLineItem>, anchor: AnchorObj)

  /** A stored state is JSON text; the text that no record was marshalled into fails to parse. */
  datatype Stored<T> = Text(value: T) | Unparsable

  datatype JsonOp =
    | Sibling(l: string, r: string)
    | Operation(op: string)
    | Anchors(kind: string, anchor: AnchorObj)

  datatype Branch = Branch(name: string, ops: seq<JsonOp>, branches: seq<Branch>)

  /** The proof as written to the database. */
  datatype ProofDoc = ProofDoc(hash: string, proofId: string, branches: seq<Branch>)

  function LeftItem(s: string): ProofLineItem { ProofLineItem(s, "", "") }
  function RightItem(s: string): ProofLineItem { ProofLineItem("", s, "") }
  function OpItem(s: string): ProofLineItem { ProofLineItem("", "", s) }

  const SHA: string := "sha-256"
  const SHA_TWICE: string := "sha-256-x2"
  const CAL_BRANCH: string := "cal_anchor_branch"
  const BTC_BRANCH: string := "btc_anchor_branch"

  // ---- ConvertGoOpsToJsonMap -----------------------------------------------

  function ConvertItem(item: ProofLineItem): seq<JsonOp>
  {
    (if item.left != "" || item.right != "" then [Sibling(item.left, item.right)] else [])
    + (if item.op != "" then [Operation(item.op)] else [])
  }

  function Convert(items: seq<ProofLineItem>): seq<JsonOp>
  {
    if items == [] then [] else ConvertItem(items[0]) + Convert(items[1..])
  }

  lemma {:induction false} ConvertConcat(a: seq<ProofLineItem>, b: seq<ProofLineItem>)
    ensures Convert(a + b) == Convert(a) + Convert(b)
  {
    if a == [] {
      assert a + b == b;
    } else {
      assert (a + b)[1..] == a[1..] + b;
      ConvertConcat(a[1..], b);
    }
  }

  method ConvertGoOpsToJsonMap(ops: seq<ProofLineItem>) returns (json: seq<JsonOp>)
    ensures json == Convert(ops)
  {
    json := [];
    for i := 0 to |ops|
      invariant json == Convert(ops[..i])
    {
      var op := ops[i];
      assert ops[..i + 1] == ops[..i] + [op];
      ConvertConcat(ops[..i], [op]);
      if |op.left| > 0 || |op.right| > 0 {
        json := json + [Sibling(op.left, op.right)];
      }
      if |op.op| > 0 {
        json := json + [Operation(op.op)];
      }
    }
    assert ops[..|ops|] == ops;
  }

  // ---- the verifier --------------------------------------------------------

  /** A sibling that reads as hexadecimal is hexadecimal, any other is text. */
  function TokenBytes(s: string): Bytes
  {
    if HexDecode(s).ok then HexDecode(s).bytes else TextBytes(s)
  }

  datatype Claim = Claim(kind: string, anchorId: string, value: Bytes)

  /** Where a list of operations arrives, and what its anchors claim on the way. */
  datatype Outcome = Rejected | Reached(value: Bytes, claims: seq<Claim>)

  function Evaluate(h: Hash, ops: seq<JsonOp>, x: Bytes): Outcome
  {
    if ops == [] then Reached(x, [])
    else match ops[0]
      case Sibling(l, r) => Evaluate(h, ops[1..], TokenBytes(l) + x + TokenBytes(r))
      case Operation(op) =>
        if op == SHA then Evaluate(h, ops[1..], h(x))
        else if op == SHA_TWICE then Evaluate(h, ops[1..], h(h(x)))
        else Rejected
      case Anchors(kind, anchor) =>
        WithClaims([Claim(kind, anchor.anchorId, x)], Evaluate(h, ops[1..], x))
  }

  function WithClaims(claims: seq<Claim>, o: Outcome): Outcome
  {
    if o.Rejected? then Rejected else Reached(o.value, claims + o.claims)
  }

  /** Go on from an outcome. */
  function AndThen(h: Hash, o: Outcome, ops: seq<JsonOp>): Outcome
  {
    if o.Rejected? then Rejected else WithClaims(o.claims, Evaluate(h, ops, o.value))
  }

  function VerifyBranch(h: Hash, branch: Branch, x: Bytes): Outcome
    decreases branch, 1
  {
    var o := Evaluate(h, branch.ops, x);
    if o.Rejected? then Rejected else WithClaims(o.claims, VerifyBranches(h, branch.branches, o.value))
  }

  function VerifyBranches(h: Hash, branches: seq<Branch>, x: Bytes): Outcome
    decreases branches, 0
  {
    if branches == [] then Reached(x, [])
    else
      var o := VerifyBranch(h, branches[0], x);
      if o.Rejected? then Rejected else WithClaims(o.claims, VerifyBranches(h, branches[1..], x))
  }

  /** The claims of a whole proof, checked from its submitted hash. */
  function Verify(h: Hash, doc: ProofDoc): Outcome
  {
    if HexDecode(doc.hash).ok then VerifyBranches(h, doc.branches, HexDecode(doc.hash).bytes) else Rejected
  }

  /** The operations by their names: "sha-256" hashes, "sha-256-x2" hashes twice. */
  lemma OperationNames(h: Hash, x: Bytes)
    ensures Evaluate(h, [Operation("sha-256")], x) == Reached(h(x), [])
    ensures Evaluate(h, [Operation("sha-256-x2")], x) == Reached(h(h(x)), [])
  {
    assert [Operation("sha-256")][1..] == [] && [Operation("sha-256-x2")][1..] == [];
  }

  // ---- segments ------------------------------------------------------------

  /** The stored operations carry x to y and claim nothing. */
  ghost predicate Leads(h: Hash, items: seq<ProofLineItem>, x: Bytes, y: Bytes)
  {
    Evaluate(h, Convert(items), x) == Reached(y, [])
  }

  lemma {:induction false} EvaluateConcat(h: Hash, a: seq<JsonOp>, b: seq<JsonOp>, x: Bytes)
    ensures Evaluate(h, a + b, x) == AndThen(h, Evaluate(h, a, x), b)
  {
    if a == [] {
      assert a + b == b;
      WithNoClaims(Evaluate(h, b, x));
    } else {
      assert (a + b)[0] == a[0] && (a + b)[1..] == a[1..] + b;
      match a[0]
      case Sibling(l, r) => EvaluateConcat(h, a[1..], b, TokenBytes(l) + x + TokenBytes(r));
      case Operation(op) =>
        EvaluateConcat(h, a[1..], b, h(x));
        EvaluateConcat(h, a[1..], b, h(h(x)));
      case Anchors(kind, anchor) =>
        EvaluateConcat(h, a[1..], b, x);
        var o := Evaluate(h, a[1..], x);
        if o.Reached? {
          WithClaimsTwice([Claim(kind, anchor.anchorId, x)], o.claims, Evaluate(h, b, o.value));
        }
    }
  }

  lemma WithNoClaims(o: Outcome)
    ensures WithClaims([], o) == o
  {
    if o.Reached? {
      assert [] + o.claims == o.claims;
    }
  }

  lemma WithClaimsTwice(a: seq<Claim>, b: seq<Claim>, o: Outcome)
    ensures WithClaims(a, WithClaims(b, o)) == WithClaims(a + b, o)
  {
    if o.Reached? {
      assert a + (b + o.claims) == (a + b) + o.claims;
    }
  }

  /** Segments compose. */
  lemma LeadsConcat(h: Hash, a: seq<ProofLineItem>, b: seq<ProofLineItem>, x: Bytes, y: Bytes, z: Bytes)
    requires Leads(h, a, x, y)
    ensures Leads(h, a + b, x, z) <==> Leads(h, b, y, z)
  {
    ConvertConcat(a, b);
    EvaluateConcat(h, Convert(a), Convert(b), x);
    WithNoClaims(Evaluate(h, Convert(b), y));
  }

  function StepItem(step: ProofStep): ProofLineItem
  {
    if step.left then LeftItem(HexEncode(step.value)) else RightItem(HexEncode(step.value))
  }

  /** A Merkle path as stored: a sibling line and a hashing line per step. */
  function PathItems(steps: seq<ProofStep>, op: string): seq<ProofLineItem>
  {
    if steps == [] then [] else [StepItem(steps[0]), OpItem(op)] + PathItems(steps[1..], op)
  }

  lemma {:induction false} PathItemsConcat(a: seq<ProofStep>, b: seq<ProofStep>, op: string)
    ensures PathItems(a + b, op) == PathItems(a, op) + PathItems(b, op)
  {
    if a == [] {
      assert a + b == b;
    } else {
      assert (a + b)[1..] == a[1..] + b;
      PathItemsConcat(a[1..], b, op);
    }
  }

  function HashNamed(h: Hash, op: string): Hash
  {
    if op == SHA_TWICE then Twice(h) else h
  }

  /** One sibling line and one hashing line. */
  lemma LinesLead(h: Hash, sibling: ProofLineItem, op: string, x: Bytes)
    requires sibling.op == "" && (op == SHA || op == SHA_TWICE)
    ensures Leads(h, [sibling, OpItem(op)], x, HashNamed(h, op)(TokenBytes(sibling.left) + x + TokenBytes(sibling.right)))
  {
    var items := [sibling, OpItem(op)];
    assert items[1..] == [OpItem(op)] && items[1..][1..] == [];
    var first, hashing := ConvertItem(sibling), [Operation(op)];
    assert Convert([OpItem(op)]) == hashing;
    assert Convert(items) == first + hashing;
    EvaluateConcat(h, first, hashing, x);
    var joined := TokenBytes(sibling.left) + x + TokenBytes(sibling.right);
    if first == [] {
      assert [] + x + [] == x;
    } else {
      assert first[1..] == [];
    }
    assert Evaluate(h, first, x) == Reached(joined, []);
    assert hashing[1..] == [];
    assert Evaluate(h, hashing, joined) == Reached(HashNamed(h, op)(joined), []);
  }

  /** A step as stored is one step up the tree. */
  lemma StepLeads(h: Hash, step: ProofStep, op: string, x: Bytes)
    requires op == SHA || op == SHA_TWICE
    ensures Leads(h, [StepItem(step), OpItem(op)], x, Merkle.Apply(HashNamed(h, op), step, x))
  {
    HexRoundTrip(step.value);
    LinesLead(h, StepItem(step), op, x);
    assert [] + x == x && x + [] == x;
    assert [] + x + step.value == x + step.value && step.value + x + [] == step.value + x;
  }

  /** A stored path carries a node to where folding the path carries it. */
  lemma {:induction false} PathItemsLead(h: Hash, steps: seq<ProofStep>, op: string, x: Bytes)
    requires op == SHA || op == SHA_TWICE
    ensures Leads(h, PathItems(steps, op), x, Fold(HashNamed(h, op), steps, x))
  {
    if steps == [] {
    } else {
      var next := Merkle.Apply(HashNamed(h, op), steps[0], x);
      StepLeads(h, steps[0], op, x);
      PathItemsLead(h, steps[1..], op, next);
      LeadsConcat(h, [StepItem(steps[0]), OpItem(op)], PathItems(steps[1..], op), x, next, Fold(HashNamed(h, op), steps, x));
    }
  }

  /** Writing a path line by line, as every proof writer does. */
  method WritePath(steps: seq<ProofStep>, op: string) returns (items: seq<ProofLineItem>)
    ensures items == PathItems(steps, op)
  {
    items := [];
    for i := 0 to |steps|
      invariant items == PathItems(steps[..i], op)
    {
      var p := steps[i];
      assert steps[..i + 1] == steps[..i] + [p];
      PathItemsConcat(steps[..i], [p], op);
      if p.left {
        items := items + [LeftItem(HexEncode(p.value))];
      } else {
        items := items + [RightItem(HexEncode(p.value))];
      }
      items := items + [OpItem(op)];
    }
    assert steps[..|steps|] == steps;
  }

  // ---- the proof document --------------------------------------------------

  function CalendarBranch(agg: OpsState, cal: AnchorOpsState, kind: string): Branch
  {
    Branch(CAL_BRANCH, Convert(agg.ops + cal.ops) + [Anchors(kind, cal.anchor)], [])
  }

  function ChainBranch(agg: OpsState, tx: OpsState, head: AnchorOpsState, kind: string): Branch
  {
    Branch(BTC_BRANCH, Convert(agg.ops + tx.ops + head.ops) + [Anchors(kind, head.anchor)], [])
  }

  /** The branch list with the chain branch nested under the first branch, if there is one. */
  function Nested(branches: seq<Branch>, chain: Branch): seq<Branch>
  {
    if branches == [] then [chain] else branches[0 := branches[0].(branches := [chain])]
  }

  function SetProofType(network: string, chainType: string): string
  {
    if network == "testnet" then "t" + chainType else chainType
  }

  class Proof {
    var hash: string
    var proofId: string
    var branches: seq<Branch>

    constructor ()
      ensures hash == "" && proofId == "" && branches == []
    {
      hash, proofId, branches := "", "", [];
    }

    function Marshal(): ProofDoc
      reads this
    {
      ProofDoc(hash, proofId, branches)
    }

    method AddChainpointHeader(hash: string, proofId: string)
      modifies this
      ensures Marshal() == old(Marshal()).(hash := hash, proofId := proofId)
    {
      this.hash, this.proofId := hash, proofId;
    }

    method AddCalendarBranch(aggState: Stored<OpsState>, calState: Stored<AnchorOpsState>, kind: string) returns (ok: bool)
      modifies this
      ensures ok <==> aggState.Text? && calState.Text?
      ensures Marshal() == if ok then old(Marshal()).(branches := [CalendarBranch(aggState.value, calState.value, kind)]) else old(Marshal())
    {
      if aggState.Unparsable? || calState.Unparsable? {
        return false;
      }
      var opsJson := ConvertGoOpsToJsonMap(aggState.value.ops + calState.value.ops);
      opsJson := opsJson + [Anchors(kind, calState.value.anchor)];
      branches := [Branch(CAL_BRANCH, opsJson, [])];
      ok := true;
    }

    method AddChainBranch(aggState: Stored<OpsState>, txState: Stored<OpsState>, headState: Stored<AnchorOpsState>, kind: string)
      returns (ok: bool)
      modifies this
      ensures ok <==> aggState.Text? && txState.Text? && headState.Text?
      ensures Marshal() == if ok
                           then old(Marshal()).(branches := Nested(old(branches), ChainBranch(aggState.value, txState.value, headState.value, kind)))
                           else old(Marshal())
    {
      if aggState.Unparsable? || txState.Unparsable? || headState.Unparsable? {
        return false;
      }
      var opsJson := ConvertGoOpsToJsonMap(aggState.value.ops + txState.value.ops + headState.value.ops);
      opsJson := opsJson + [Anchors(kind, headState.value.anchor)];
      var btcBranch := Branch(BTC_BRANCH, opsJson, []);
      if |branches| > 0 {
        branches := branches[0 := branches[0].(branches := [btcBranch])];
      } else {
        branches := [btcBranch];
      }
      ok := true;
    }
  }

  /** A calendar branch verifies to the claim of its anchor. */
  lemma CalendarBranchVerifies(h: Hash, agg: OpsState, cal: AnchorOpsState, kind: string, x: Bytes, y: Bytes, z: Bytes)
    requires Leads(h, agg.ops, x, y) && Leads(h, cal.ops, y, z)
    ensures Evaluate(h, CalendarBranch(agg, cal, kind).ops, x) == Reached(z, [Claim(kind, cal.anchor.anchorId, z)])
  {
    LeadsConcat(h, agg.ops, cal.ops, x, y, z);
    AnchoredOps(h, agg.ops + cal.ops, kind, cal.anchor, x, z);
  }

  lemma AnchoredOps(h: Hash, items: seq<ProofLineItem>, kind: string, anchor: AnchorObj, x: Bytes, y: Bytes)
    requires Leads(h, items, x, y)
    ensures Evaluate(h, Convert(items) + [Anchors(kind, anchor)], x) == Reached(y, [Claim(kind, anchor.anchorId, y)])
  {
    var last := [Anchors(kind, anchor)];
    EvaluateConcat(h, Convert(items), last, x);
    assert last[1..] == [];
    var claims := [Claim(kind, anchor.anchorId, y)];
    assert claims + [] == claims && [] + claims == claims;
    assert Evaluate(h, [], y) == Reached(y, []);
    assert Evaluate(h, last, y) == Reached(y, claims);
  }

  /** A document of one calendar branch with one chain branch nested in it claims exactly
      the calendar value and the chain value. */
  lemma NestedProofVerifies(h: Hash, doc: ProofDoc,
                            agg: OpsState, cal: AnchorOpsState, calKind: string,
                            btc: OpsState, tx: OpsState, head: AnchorOpsState, btcKind: string,
                            aggRoot: Bytes, calRoot: Bytes, btcRoot: Bytes, txid: Bytes, top: Bytes)
    requires HexDecode(doc.hash).ok
    requires doc.branches == Nested([CalendarBranch(agg, cal, calKind)], ChainBranch(btc, tx, head, btcKind))
    requires Leads(h, agg.ops, HexDecode(doc.hash).bytes, aggRoot) && Leads(h, cal.ops, aggRoot, calRoot)
    requires Leads(h, btc.ops, calRoot, btcRoot) && Leads(h, tx.ops, btcRoot, txid) && Leads(h, head.ops, txid, top)
    ensures Verify(h, doc) == Reached(HexDecode(doc.hash).bytes,
                                      [Claim(calKind, cal.anchor.anchorId, calRoot), Claim(btcKind, head.anchor.anchorId, top)])
  {
    var x := HexDecode(doc.hash).bytes;
    CalendarBranchVerifies(h, agg, cal, calKind, x, aggRoot, calRoot);
    ChainBranchVerifies(h, btc, tx, head, btcKind, calRoot, btcRoot, txid, top);
    var chain := ChainBranch(btc, tx, head, btcKind);
    SingleBranch(h, chain, calRoot);
    SingleBranch(h, doc.branches[0], x);
    assert doc.branches == [doc.branches[0]];
  }

  lemma ChainBranchVerifies(h: Hash, btc: OpsState, tx: OpsState, head: AnchorOpsState, kind: string,
                            calRoot: Bytes, btcRoot: Bytes, txid: Bytes, top: Bytes)
    requires Leads(h, btc.ops, calRoot, btcRoot) && Leads(h, tx.ops, btcRoot, txid) && Leads(h, head.ops, txid, top)
    ensures Evaluate(h, ChainBranch(btc, tx, head, kind).ops, calRoot) == Reached(top, [Claim(kind, head.anchor.anchorId, top)])
  {
    LeadsConcat(h, btc.ops, tx.ops, calRoot, btcRoot, txid);
    LeadsConcat(h, btc.ops + tx.ops, head.ops, calRoot, txid, top);
    AnchoredOps(h, btc.ops + tx.ops + head.ops, kind, head.anchor, calRoot, top);
  }

  lemma SingleBranch(h: Hash, b: Branch, x: Bytes)
    ensures VerifyBranches(h, [b], x) == Restarted(VerifyBranch(h, b, x), x)
  {
    assert [b][1..] == [];
    var o := VerifyBranch(h, b, x);
    if o.Reached? {
      assert o.claims + [] == o.claims;
    }
  }

  function Restarted(o: Outcome, x: Bytes): Outcome
  {
    if o.Rejected? then Rejected else Reached(x, o.claims)
  }
}
