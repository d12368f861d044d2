/** ProcessAggregation of aggregator/aggregator.go: leaf hashing and per-hash proof paths. */
module Aggregations {
  import opened ByteStrings
  import opened Utf8
  import opened Merkle
  import opened ProofOps
  import opened ChainTypes

  const DRAND: string := "drand"

  function BeaconText(drand: string): string
  {
    "drand:" + drand
  }

  /** copy into a [32]byte: cut off or padded with zeros. */
  function Sized32(b: Bytes): (r: Bytes)
    ensures |r| == 32
    ensures r == b <==> |b| == 32
    ensures if |b| >= 32 then r == b[..32] else b <= r && forall i :: |b| <= i < 32 ==> r[i] == 0
  {
    if |b| == 32 then b else seq(32, i requires 0 <= i < 32 => if i < |b| then b[i] else 0)
  }

  /** The leaf made of a submitted hash. */
  function Leaf(h: Hash, hash: string, drand: string): Bytes
  {
    var b := HexDecode(hash).bytes;
    if drand != "" then h(TextBytes(BeaconText(drand)) + b) else Sized32(b)
  }

  function Leaves(h: Hash, items: seq<HashItem>, drand: string): (leaves: seq<Bytes>)
    ensures |leaves| == |items|
  {
    seq(|items|, i requires 0 <= i < |items| => Leaf(h, items[i].hash, drand))
  }

  predicate IsBeaconNode(v: Bytes)
  {
    Contains(v, TextBytes(DRAND))
  }

  /** A left sibling that contains "drand" is written as text, every other one as hex. */
  function AggItem(step: ProofStep): ProofLineItem
  {
    if step.left && IsBeaconNode(step.value) then LeftItem(RawText(step.value)) else StepItem(step)
  }

  function AggItems(steps: seq<ProofStep>): seq<ProofLineItem>
  {
    if steps == [] then [] else [AggItem(steps[0]), OpItem(SHA)] + AggItems(steps[1..])
  }

  lemma {:induction false} AggItemsConcat(a: seq<ProofStep>, b: seq<ProofStep>)
    ensures AggItems(a + b) == AggItems(a) + AggItems(b)
  {
    if a == [] {
      assert a + b == b;
    } else {
      assert (a + b)[1..] == a[1..] + b;
      AggItemsConcat(a[1..], b);
    }
  }

  /** The steps of item i: the beacon first, then the tree path. */
  function Steps(h: Hash, items: seq<HashItem>, drand: string, i: nat): seq<ProofStep>
    requires i < |items|
  {
    (if drand != "" then [ProofStep(true, TextBytes(BeaconText(drand)))] else [])
    + Path(h, Promote, Leaves(h, items, drand), i)
  }

  function Row(h: Hash, items: seq<HashItem>, drand: string, aggId: string, aggRoot: string, i: nat): AggState
    requires i < |items|
  {
    AggState(items[i].proofId, items[i].hash, aggId, Text(OpsState(AggItems(Steps(h, items, drand, i)))), aggRoot)
  }

  function Rows(h: Hash, items: seq<HashItem>, drand: string, aggId: string, aggRoot: string): (rows: seq<AggState>)
    ensures |rows| == |items|
  {
    seq(|items|, i requires 0 <= i < |items| => Row(h, items, drand, aggId, aggRoot, i))
  }

  const NO_AGGREGATION: Aggregation := Aggregation("", "", [])

  /** What ProcessAggregation computes, given what the ULID generator returned. */
  function Aggregated(h: Hash, items: seq<HashItem>, drand: string, ulid: Option<string>): Aggregation
  {
    if items == [] || ulid.None? then NO_AGGREGATION
    else
      var aggRoot := HexEncode(Root(h, Promote, Leaves(h, items, drand)));
      Aggregation(ulid.value, aggRoot, Rows(h, items, drand, ulid.value, aggRoot))
  }

  method ProcessAggregation(h: Hash, msgStructSlice: seq<HashItem>, drand: string, ulid: Option<string>) returns (agg: Aggregation)
    ensures agg == Aggregated(h, msgStructSlice, drand, ulid)
  {
    var hashSlice: seq<Bytes> := [];
    for i := 0 to |msgStructSlice|
      invariant hashSlice == Leaves(h, msgStructSlice, drand)[..i]
    {
      var hashBytes := HexDecode(msgStructSlice[i].hash).bytes;
      var newHash: Bytes;
      if drand != "" {
        newHash := h(TextBytes(BeaconText(drand)) + hashBytes);
      } else {
        newHash := Sized32(hashBytes);
      }
      LeavesStep(h, msgStructSlice, drand, i);
      hashSlice := hashSlice + [newHash];
    }
    if |msgStructSlice| == 0 || |hashSlice| == 0 {
      return NO_AGGREGATION;
    }
    if ulid.None? {
      return NO_AGGREGATION;
    }
    assert hashSlice == Leaves(h, msgStructSlice, drand);
    var aggRoot := HexEncode(MerkleRoot(h, Promote, hashSlice));
    var aggStates: seq<AggState> := [];
    for i := 0 to |msgStructSlice|
      invariant aggStates == Rows(h, msgStructSlice, drand, ulid.value, aggRoot)[..i]
    {
      var proofs := GetProof(h, Promote, hashSlice, i);
      if drand != "" {
        proofs := [ProofStep(true, TextBytes(BeaconText(drand)))] + proofs;
      }
      assert proofs == Steps(h, msgStructSlice, drand, i);
      var proofOps := WriteAggPath(proofs);
      RowsStep(h, msgStructSlice, drand, ulid.value, aggRoot, i);
      aggStates := aggStates + [AggState(msgStructSlice[i].proofId, msgStructSlice[i].hash, ulid.value, Text(OpsState(proofOps)), aggRoot)];
    }
    agg := Aggregation(ulid.value, aggRoot, aggStates);
  }

  lemma LeavesStep(h: Hash, items: seq<HashItem>, drand: string, i: nat)
    requires i < |items|
    ensures Leaves(h, items, drand)[..i + 1] == Leaves(h, items, drand)[..i] + [Leaf(h, items[i].hash, drand)]
  {
  }

  lemma RowsStep(h: Hash, items: seq<HashItem>, drand: string, aggId: string, aggRoot: string, i: nat)
    requires i < |items|
    ensures Rows(h, items, drand, aggId, aggRoot)[..i + 1]
            == Rows(h, items, drand, aggId, aggRoot)[..i] + [Row(h, items, drand, aggId, aggRoot, i)]
  {
    OneMore(Rows(h, items, drand, aggId, aggRoot), i);
  }

  lemma OneMore<T>(s: seq<T>, i: nat)
    requires i < |s|
    ensures s[..i + 1] == s[..i] + [s[i]]
  {
  }

  method WriteAggPath(proofs: seq<ProofStep>) returns (proofOps: seq<ProofLineItem>)
    ensures proofOps == AggItems(proofs)
  {
    proofOps := [];
    for j := 0 to |proofs|
      invariant proofOps == AggItems(proofs[..j])
    {
      var p := proofs[j];
      AggItemsStep(proofs, j);
      var line: ProofLineItem;
      if p.left {
        if IndexOf(p.value, TextBytes(DRAND)) >= 0 {
          BeaconFound(p.value);
          line := LeftItem(RawText(p.value));
        } else {
          line := LeftItem(HexEncode(p.value));
        }
      } else {
        line := RightItem(HexEncode(p.value));
      }
      assert line == AggItem(p);
      proofOps := proofOps + [line];
      proofOps := proofOps + [OpItem(SHA)];
    }
    assert proofs[..|proofs|] == proofs;
  }

  lemma AggItemsStep(steps: seq<ProofStep>, j: nat)
    requires j < |steps|
    ensures AggItems(steps[..j + 1]) == AggItems(steps[..j]) + [AggItem(steps[j])] + [OpItem(SHA)]
  {
    assert steps[..j + 1] == steps[..j] + [steps[j]];
    AggItemsConcat(steps[..j], [steps[j]]);
    assert [steps[j]][1..] == [];
  }

  lemma BeaconFound(v: Bytes)
    requires IndexOf(v, TextBytes(DRAND)) >= 0
    ensures IsBeaconNode(v)
  {
    var i: nat := IndexOf(v, TextBytes(DRAND));
    assert ContainsAt(v, TextBytes(DRAND), i);
  }

  // ---- what the stored steps read back as ----------------------------------

  /** The step a verifier reads: a left node written as text comes back as the text's bytes. */
  function ReadBack(step: ProofStep): ProofStep
  {
    if step.left && IsBeaconNode(step.value) then ProofStep(true, TextBytes(RawText(step.value))) else step
  }

  function ReadAll(steps: seq<ProofStep>): seq<ProofStep>
  {
    if steps == [] then [] else [ReadBack(steps[0])] + ReadAll(steps[1..])
  }

  /** A left node that contains "drand" is read back as it was only if it is UTF-8. */
  predicate IsReadable(step: ProofStep)
  {
    step.left && IsBeaconNode(step.value) ==> IsText(step.value)
  }

  predicate AllReadable(steps: seq<ProofStep>)
  {
    forall k :: 0 <= k < |steps| ==> IsReadable(steps[k])
  }

  /** A node with "drand" in it is not taken for hexadecimal. */
  lemma BeaconIsNotHex(v: Bytes)
    requires IsBeaconNode(v)
    ensures !HexDecode(RawText(v)).ok
  {
    var i: nat :| i <= |v| && ContainsAt(v, TextBytes(DRAND), i);
    OneRune('r');
    TextBytesConcat("d", "rand");
    TextBytesConcat("r", "and");
    OneRune('d');
    assert DRAND == "d" + "rand" && "rand" == "r" + "and";
    assert TextBytes(DRAND)[1] == 114;
    assert v[i..i + |TextBytes(DRAND)|][1] == v[i + 1];
    assert v[i + 1] == 114 && v[i + 1] in v;
    AsciiKept(v, 114);
    NotHex(RawText(v), 'r');
  }

  lemma StoredStepLeads(h: Hash, step: ProofStep, x: Bytes)
    ensures Leads(h, [AggItem(step), OpItem(SHA)], x, Apply(h, ReadBack(step), x))
  {
    if step.left && IsBeaconNode(step.value) {
      var text := RawText(step.value);
      BeaconIsNotHex(step.value);
      LinesLead(h, LeftItem(text), SHA, x);
      assert TokenBytes(text) + x + TokenBytes("") == TextBytes(text) + x;
    } else {
      StepLeads(h, step, SHA, x);
    }
  }

  /** The stored steps carry a node to where the steps read back carry it. */
  lemma {:induction false} AggItemsLead(h: Hash, steps: seq<ProofStep>, x: Bytes)
    ensures Leads(h, AggItems(steps), x, Fold(h, ReadAll(steps), x))
  {
    if steps != [] {
      var next := Apply(h, ReadBack(steps[0]), x);
      StoredStepLeads(h, steps[0], x);
      AggItemsLead(h, steps[1..], next);
      assert ReadAll(steps)[1..] == ReadAll(steps[1..]);
      LeadsConcat(h, [AggItem(steps[0]), OpItem(SHA)], AggItems(steps[1..]), x, next, Fold(h, ReadAll(steps), x));
    }
  }

  /** A beacon is UTF-8, and is read back. */
  lemma BeaconReadBack(drand: string)
    ensures ReadBack(ProofStep(true, TextBytes(BeaconText(drand)))) == ProofStep(true, TextBytes(BeaconText(drand)))
  {
    EncodedIsText(BeaconText(drand));
    ReadBackExactly(TextBytes(BeaconText(drand)));
  }

  /** Read back or not, a step makes the same input of x and y only if they are equal and the
      step is readable; y may be x cut or padded to 32 bytes. */
  lemma SameInput(step: ProofStep, x: Bytes, y: Bytes)
    requires |x| == |y| || y == Sized32(x)
    ensures Paired(ReadBack(step), x) == Paired(step, y) <==> x == y && IsReadable(step)
  {
    ReadBackExactly(step.value);
    if Paired(ReadBack(step), x) == Paired(step, y) {
      if !step.left {
        assert x == Paired(step, x)[..|x|] && |Paired(step, x)| == |x| + |step.value|;
        assert |Paired(step, y)| == |y| + |step.value|;
        assert y == Paired(step, y)[..|y|];
      } else if IsBeaconNode(step.value) {
        SameText(step.value, x, y);
      } else {
        PairedCommits(step, x, y);
      }
    }
  }

  lemma SameText(v: Bytes, x: Bytes, y: Bytes)
    requires |x| == |y| || y == Sized32(x)
    requires TextBytes(RawText(v)) + x == v + y
    ensures x == y && IsText(v)
  {
    ReadBackExactly(v);
    var text := TextBytes(RawText(v));
    assert |text + x| == |text| + |x| && |v + y| == |v| + |y|;
    if |x| < |y| {
      assert y == x + seq(32 - |x|, i => 0);
      PaddingShows(v, x, 32 - |x|);
    }
    assert x == (text + x)[|text|..] && y == (v + y)[|v|..];
  }

  lemma {:induction false} ReadableFold(h: Hash, steps: seq<ProofStep>, x: Bytes, y: Bytes)
    requires (forall z :: |h(z)| == 32) && |x| == |y|
    requires CollisionFreeOn(h, PathInputs(h, ReadAll(steps), x) + PathInputs(h, steps, y))
    ensures Fold(h, ReadAll(steps), x) == Fold(h, steps, y) <==> x == y && AllReadable(steps)
  {
    if steps != [] {
      FirstInput(h, steps, x, y);
      ReadableFold(h, steps[1..], Apply(h, ReadBack(steps[0]), x), Apply(h, steps[0], y));
      AllReadableSplits(steps);
    }
  }

  lemma AllReadableSplits(steps: seq<ProofStep>)
    requires steps != []
    ensures AllReadable(steps) <==> IsReadable(steps[0]) && AllReadable(steps[1..])
  {
    if IsReadable(steps[0]) && AllReadable(steps[1..]) {
      forall k | 0 <= k < |steps| ensures IsReadable(steps[k]) {
        assert k > 0 ==> steps[k] == steps[1..][k - 1];
      }
    }
  }

  /** The first hashes of the two folds agree exactly when x and y do and the step is readable. */
  lemma FirstInput(h: Hash, steps: seq<ProofStep>, x: Bytes, y: Bytes)
    requires steps != [] && (|x| == |y| || y == Sized32(x))
    requires CollisionFreeOn(h, PathInputs(h, ReadAll(steps), x) + PathInputs(h, steps, y))
    ensures Apply(h, ReadBack(steps[0]), x) == Apply(h, steps[0], y) <==> x == y && IsReadable(steps[0])
    ensures ReadAll(steps)[1..] == ReadAll(steps[1..]) && ReadAll(steps)[0] == ReadBack(steps[0])
    ensures CollisionFreeOn(h, PathInputs(h, ReadAll(steps[1..]), Apply(h, ReadBack(steps[0]), x)) + PathInputs(h, steps[1..], Apply(h, steps[0], y)))
  {
    assert ReadAll(steps)[1..] == ReadAll(steps[1..]);
    SameInput(steps[0], x, y);
    assert Paired(ReadBack(steps[0]), x) in PathInputs(h, ReadAll(steps), x) && Paired(steps[0], y) in PathInputs(h, steps, y);
  }

  /** Without a beacon the fold starts at the hash, the tree at the hash cut or padded. */
  lemma ReadableFoldSized(h: Hash, steps: seq<ProofStep>, x: Bytes)
    requires forall z :: |h(z)| == 32
    requires CollisionFreeOn(h, PathInputs(h, ReadAll(steps), x) + PathInputs(h, steps, Sized32(x)))
    ensures Fold(h, ReadAll(steps), x) == Fold(h, steps, Sized32(x)) <==> |x| == 32 && AllReadable(steps)
  {
    if steps != [] {
      FirstInput(h, steps, x, Sized32(x));
      ReadableFold(h, steps[1..], Apply(h, ReadBack(steps[0]), x), Apply(h, steps[0], Sized32(x)));
      AllReadableSplits(steps);
    }
  }

  // ---- soundness -----------------------------------------------------------

  /** Where the tree starts for item i, and where its stored operations do. */
  function Start(h: Hash, items: seq<HashItem>, drand: string, i: nat): Bytes
    requires i < |items|
  {
    if drand != "" then Leaf(h, items[i].hash, drand) else HexDecode(items[i].hash).bytes
  }

  /** Where the stored operations of item i carry its submitted hash: up the tree as read back,
      from the hash itself when there is no beacon, from the leaf when there is one. */
  lemma RowLeads(h: Hash, items: seq<HashItem>, drand: string, i: nat)
    requires i < |items|
    ensures Leads(h, AggItems(Steps(h, items, drand, i)), HexDecode(items[i].hash).bytes,
                  Fold(h, ReadAll(Path(h, Promote, Leaves(h, items, drand), i)), Start(h, items, drand, i)))
  {
    var x := HexDecode(items[i].hash).bytes;
    var path, start := Path(h, Promote, Leaves(h, items, drand), i), Start(h, items, drand, i);
    AggItemsLead(h, path, start);
    if drand != "" {
      var beacon := ProofStep(true, TextBytes(BeaconText(drand)));
      BeaconReadBack(drand);
      StoredStepLeads(h, beacon, x);
      AggItemsConcat([beacon], path);
      assert [beacon][1..] == [];
      assert AggItems([beacon]) == [AggItem(beacon), OpItem(SHA)] + AggItems([]);
      assert AggItems([beacon]) == [AggItem(beacon), OpItem(SHA)];
      LeadsConcat(h, [AggItem(beacon), OpItem(SHA)], AggItems(path), x, start, Fold(h, ReadAll(path), start));
    } else {
      assert [] + path == path;
    }
  }

  /** The inputs hashed on the way up, by the stored operations and by the tree. */
  function RowInputs(h: Hash, items: seq<HashItem>, drand: string, i: nat): set<Bytes>
    requires i < |items|
  {
    var path := Path(h, Promote, Leaves(h, items, drand), i);
    PathInputs(h, ReadAll(path), Start(h, items, drand, i)) + PathInputs(h, path, Leaf(h, items[i].hash, drand))
  }

  /** A submitted hash is led to the aggregation root exactly when every left node on its path
      that contains "drand" is UTF-8 and, without a beacon, the hash is 32 bytes long; unless
      two of the inputs hashed on the way collide. */
  lemma AggregationSoundExactly(h: Hash, items: seq<HashItem>, drand: string, ulid: string, i: nat)
    requires i < |items| && (forall z :: |h(z)| == 32) && CollisionFreeOn(h, RowInputs(h, items, drand, i))
    ensures Leads(h, AggItems(Steps(h, items, drand, i)), HexDecode(items[i].hash).bytes,
                  HexDecode(Aggregated(h, items, drand, Some(ulid)).aggRoot).bytes)
            <==> AllReadable(Path(h, Promote, Leaves(h, items, drand), i)) && (drand != "" || |HexDecode(items[i].hash).bytes| == 32)
  {
    var leaves := Leaves(h, items, drand);
    var path, leaf := Path(h, Promote, leaves, i), Leaf(h, items[i].hash, drand);
    RowLeads(h, items, drand, i);
    PathCompleteness(h, Promote, leaves, i);
    HexRoundTrip(Root(h, Promote, leaves));
    if drand != "" {
      ReadableFold(h, path, leaf, leaf);
    } else {
      ReadableFoldSized(h, path, HexDecode(items[i].hash).bytes);
    }
  }

  lemma {:induction false} ReadAllSame(steps: seq<ProofStep>)
    requires AllReadable(steps)
    ensures ReadAll(steps) == steps
  {
    if steps != [] {
      assert IsReadable(steps[0]) && AllReadable(steps[1..]);
      ReadBackExactly(steps[0].value);
      ReadAllSame(steps[1..]);
    }
  }

  /** Then, whatever collides, each row carries its item and leads it to the root. */
  lemma AggregationSound(h: Hash, items: seq<HashItem>, drand: string, ulid: string, i: nat)
    requires i < |items| && AllReadable(Path(h, Promote, Leaves(h, items, drand), i))
    requires drand != "" || |HexDecode(items[i].hash).bytes| == 32
    ensures var agg := Aggregated(h, items, drand, Some(ulid));
            && |agg.aggStates| == |items|
            && agg.aggStates[i].proofId == items[i].proofId && agg.aggStates[i].hash == items[i].hash
            && agg.aggStates[i].aggState.Text?
            && Leads(h, agg.aggStates[i].aggState.value.ops, HexDecode(items[i].hash).bytes, HexDecode(agg.aggRoot).bytes)
  {
    RowLeads(h, items, drand, i);
    ReadAllSame(Path(h, Promote, Leaves(h, items, drand), i));
    PathCompleteness(h, Promote, Leaves(h, items, drand), i);
    HexRoundTrip(Root(h, Promote, Leaves(h, items, drand)));
  }

  const DRAND_BYTES: Bytes := [100, 114, 97, 110, 100]

  lemma DrandBytes()
    ensures TextBytes(DRAND) == DRAND_BYTES
  {
    OneRune('d');
    OneRune('r');
    OneRune('a');
    OneRune('n');
    TextBytesConcat("d", "rand");
    TextBytesConcat("r", "and");
    TextBytesConcat("a", "nd");
    TextBytesConcat("n", "d");
    assert DRAND == "d" + "rand" && "rand" == "r" + "and" && "and" == "a" + "nd" && "nd" == "n" + "d";
  }

  /** A submitted hash of 32 bytes that contains "drand" and is not UTF-8. */
  const BAD_HASH: Bytes := DRAND_BYTES + seq(27, i => 255)

  lemma BadHashUnreadable()
    ensures |BAD_HASH| == 32 && !IsReadable(ProofStep(true, BAD_HASH))
  {
    var rest: Bytes := seq(27, i => 255);
    DrandBytes();
    assert ContainsAt(BAD_HASH, TextBytes(DRAND), 0);
    assert RuneLength(rest) == 0;
    AsciiInFront(DRAND_BYTES, rest);
  }

  /** Why readability is asked for: without a beacon the leaves are the submitted hashes, and
      next to such a hash another one is not led to the root. */
  lemma BadNeighbourMisleads(h: Hash, hash: Bytes, ulid: string)
    requires |hash| == 32 && (forall z :: |h(z)| == 32)
    requires CollisionFreeOn(h, RowInputs(h, [HashItem("a", HexEncode(BAD_HASH)), HashItem("b", HexEncode(hash))], "", 1))
    ensures var items := [HashItem("a", HexEncode(BAD_HASH)), HashItem("b", HexEncode(hash))];
            !Leads(h, AggItems(Steps(h, items, "", 1)), hash, HexDecode(Aggregated(h, items, "", Some(ulid)).aggRoot).bytes)
  {
    var items := [HashItem("a", HexEncode(BAD_HASH)), HashItem("b", HexEncode(hash))];
    HexRoundTrip(BAD_HASH);
    HexRoundTrip(hash);
    BadHashUnreadable();
    var leaves := Leaves(h, items, "");
    assert leaves[0] == BAD_HASH && |NextLevel(h, Promote, leaves)| == 1;
    assert Path(h, Promote, leaves, 1)[0] == ProofStep(true, BAD_HASH);
    AggregationSoundExactly(h, items, "", ulid, 1);
  }

  /** The aggregation carries exactly the items it was given, in order, under a 32-byte root. */
  lemma AggregationItems(h: Hash, items: seq<HashItem>, drand: string, ulid: string)
    requires items != [] && forall x :: |h(x)| == 32
    ensures Items(Aggregated(h, items, drand, Some(ulid))) == items
    ensures |Aggregated(h, items, drand, Some(ulid)).aggRoot| == 64
  {
    RootSized(h, Promote, Leaves(h, items, drand), 32);
  }

  function Items(agg: Aggregation): seq<HashItem>
  {
    seq(|agg.aggStates|, i requires 0 <= i < |agg.aggStates| => HashItem(agg.aggStates[i].proofId, agg.aggStates[i].hash))
  }

  // ---- the beacon is part of the proof -------------------------------------

  lemma BeaconIsNode(drand: string)
    ensures IsBeaconNode(TextBytes(BeaconText(drand)))
  {
    TextBytesConcat(DRAND, ":" + drand);
    assert BeaconText(drand) == DRAND + (":" + drand);
    assert ContainsAt(TextBytes(BeaconText(drand)), TextBytes(DRAND), 0);
  }

  lemma FirstLines(steps: seq<ProofStep>)
    requires steps != [] && steps[0].left && IsBeaconNode(steps[0].value)
    ensures |AggItems(steps)| >= 2 && AggItems(steps)[0] == LeftItem(RawText(steps[0].value)) && AggItems(steps)[1] == OpItem(SHA)
  {
  }

  /** With a beacon each row begins by prepending the text "drand:" and the beacon to the hash, and
      hashing the two. */
  lemma BeaconIsFirstLine(h: Hash, items: seq<HashItem>, drand: string, ulid: string, i: nat)
    requires i < |items| && drand != ""
    ensures var ops := Aggregated(h, items, drand, Some(ulid)).aggStates[i].aggState.value.ops;
            |ops| >= 2 && ops[0] == ProofLineItem("drand:" + drand, "", "") && ops[1] == ProofLineItem("", "", "sha-256")
  {
    BeaconIsNode(drand);
    TextReadBack(BeaconText(drand));
    assert Steps(h, items, drand, i)[0] == ProofStep(true, TextBytes(BeaconText(drand)));
    FirstLines(Steps(h, items, drand, i));
  }

  /** Rows of different beacons differ. */
  lemma RowsShowBeacon(h: Hash, items: seq<HashItem>, a: string, b: string, ulid: string, i: nat)
    requires i < |items| && a != "" && b != ""
    ensures Aggregated(h, items, a, Some(ulid)).aggStates[i].aggState == Aggregated(h, items, b, Some(ulid)).aggStates[i].aggState ==> a == b
  {
    BeaconIsFirstLine(h, items, a, ulid, i);
    BeaconIsFirstLine(h, items, b, ulid, i);
    assert ("drand:" + a)[6..] == a && ("drand:" + b)[6..] == b;
  }

  /** What is hashed for the leaves of a batch with a beacon. */
  function LeafInputs(items: seq<HashItem>, drand: string): set<Bytes>
  {
    set i | 0 <= i < |items| :: TextBytes("drand:" + drand) + HexDecode(items[i].hash).bytes
  }

  /** The root commits to the beacon: the same items have the same root under two beacons only if
      the beacons are equal, unless two inputs hashed for them collide. */
  lemma RootCommitsToBeacon(h: Hash, items: seq<HashItem>, a: string, b: string, ulid: string, ulid': string)
    requires items != [] && a != "" && b != "" && forall x :: |h(x)| == 32
    requires CollisionFreeOn(h, TreeInputs(h, Promote, Leaves(h, items, a)) + TreeInputs(h, Promote, Leaves(h, items, b)))
    requires CollisionFreeOn(h, LeafInputs(items, a) + LeafInputs(items, b))
    ensures Aggregated(h, items, a, Some(ulid)).aggRoot == Aggregated(h, items, b, Some(ulid')).aggRoot <==> a == b
  {
    var la, lb := Leaves(h, items, a), Leaves(h, items, b);
    if Aggregated(h, items, a, Some(ulid)).aggRoot == Aggregated(h, items, b, Some(ulid')).aggRoot {
      HexEncodeInjective(Root(h, Promote, la), Root(h, Promote, lb));
      RootCommits(h, Promote, la, lb, 32);
      LeafCommitsToBeacon(h, items, a, b);
    }
  }

  lemma LeafCommitsToBeacon(h: Hash, items: seq<HashItem>, a: string, b: string)
    requires items != [] && a != "" && b != "" && Leaf(h, items[0].hash, a) == Leaf(h, items[0].hash, b)
    requires CollisionFreeOn(h, LeafInputs(items, a) + LeafInputs(items, b))
    ensures a == b
  {
    var x, p, q := HexDecode(items[0].hash).bytes, TextBytes("drand:" + a), TextBytes("drand:" + b);
    assert p + x in LeafInputs(items, a) && q + x in LeafInputs(items, b);
    assert p == (p + x)[..|p + x| - |x|] && q == (q + x)[..|q + x| - |x|];
    TextReadBack("drand:" + a);
    TextReadBack("drand:" + b);
    assert ("drand:" + a)[6..] == a && ("drand:" + b)[6..] == b;
  }
}
