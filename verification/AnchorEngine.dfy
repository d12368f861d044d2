/** The anchor machine's steps: StartAnchoring (abci/anchor.go), AnchorToChain,
    FindAndRemoveBtcCheck, MonitorFailedAnchor and ResetAnchor
    (anchor/bitcoin/bitcoinanchor.go). */
module AnchorEngine {
  import opened ChainTypes
  import opened ChainState
  import opened KeyValue
  import opened TxIndex
  import opened ProofAssembly
  import Election

  /** An entry of the list of anchors that wait for their BTC-A. */
  datatype AnchorRange = AnchorRange(
    anchorBtcAggRoot: string, calBlockHeight: int, btcBlockHeight: int, beginCalTxInt: int, endCalTxInt: int, amLeader: bool)

  function RangeOf(c: AnchorRange): Range
  {
    Range(c.beginCalTxInt, c.endCalTxInt)
  }

  /** What one node's engine reads and writes: replicated state, waiting list, LND's height. */
  datatype Node = Node(state: AnchorState, checks: seq<AnchorRange>, lnHeight: int)

  datatype Config = Config(env: Env, anchorInterval: int, doAnchor: bool, testMode: bool)

  /** What an AnchorToChain call meets: the elected leaders, whether this node is one, and
      whether the transaction search, the cache write, the sending of the Bitcoin transaction
      and the broadcasts of a BTC-E and of the BTC-A succeed. */
  datatype AnchorInput = AnchorInput(leaderIds: seq<string>, amLeader: bool, rpcOk: bool, cacheOk: bool,
                                     sendOk: bool, btceOk: bool, btcaOk: bool)

  /** The core that the election leaves out: the one that reported an error last. */
  function Blamed(cfg: Config, s: AnchorState): string
  {
    if cfg.testMode then "" else s.lastErrorCoreId
  }

  /** The input carries what the election gives a node with an ID in a view of the chain. */
  ghost predicate Elects(cfg: Config, s: AnchorState, v: Election.ChainView, id: string, catchingUp: bool, elect: Election.Elect<string>,
                         input: AnchorInput)
  {
    && (id == "" ==> input.leaderIds == [] && !input.amLeader)
    && (id != "" ==> Election.AreLeaders(v, {Blamed(cfg, s)}, 1, elect, input.leaderIds)
                     && (input.amLeader <==> id in input.leaderIds && !catchingUp))
  }

  /** A transaction the leader broadcasts; a BTC-A is empty when the sending failed. */
  datatype Broadcast = ErrorFor(root: string) | AnchorFor(root: string, range: Range) | EmptyAnchor

  // ---- specifications ------------------------------------------------------

  /** StartAnchoring: the next state, and the range it spawns AnchorToChain for. */
  function Started(cfg: Config, s: AnchorState, synced: bool): (AnchorState, Option<Range>)
  {
    var due := cfg.doAnchor && s.height - s.latestBtcaHeight > cfg.anchorInterval;
    var spawn := if due && synced && s.latestCalTxInt - s.beginCalTxInt > s.currentCalInts
                 then Some(Range(s.beginCalTxInt, s.latestCalTxInt - s.currentCalInts)) else None;
    var marked := if due && !synced then s.(endCalTxInt := s.latestCalTxInt) else s;
    (marked.(currentCalInts := 0), spawn)
  }

  /** The root of a range's tree, empty when there is nothing to anchor or no tree. */
  function RangeRoot(cfg: Config, log: seq<LogEntry>, r: Range): string
  {
    var tree := TreeFromCalRange(cfg.env, log, r.begin, r.end);
    if tree.None? then "" else tree.value.anchorBtcAggRoot
  }

  /** Whether an AnchorToChain call returns nil. */
  predicate AnchorSucceeds(cfg: Config, log: seq<LogEntry>, r: Range, env: AnchorInput)
  {
    env.leaderIds != [] && env.rpcOk && RangeRoot(cfg, log, r) != "" && env.cacheOk
  }

  /** What the call broadcasts. */
  function Broadcasts(cfg: Config, log: seq<LogEntry>, r: Range, env: AnchorInput): seq<Broadcast>
  {
    var root := RangeRoot(cfg, log, r);
    if env.leaderIds == [] || !env.rpcOk || root == "" || !env.amLeader then []
    else if env.sendOk then [AnchorFor(root, r)]
    else if env.btceOk then [ErrorFor(root), EmptyAnchor]
    else [ErrorFor(root)]
  }

  /** Whether it panics, because a broadcast fails. */
  predicate Panics(cfg: Config, log: seq<LogEntry>, r: Range, env: AnchorInput)
  {
    Broadcasts(cfg, log, r, env) != [] && ((!env.sendOk && !env.btceOk) || !env.btcaOk)
  }

  function Anchored(cfg: Config, log: seq<LogEntry>, n: Node, r: Range, env: AnchorInput): Node
  {
    var s0 := if cfg.testMode then n.state.(lastErrorCoreId := "") else n.state;
    var root := RangeRoot(cfg, log, r);
    if env.leaderIds == [] || !env.rpcOk || root == "" then n.(state := s0)
    else
      var s1 := s0.(lastElectedCoreId := env.leaderIds[0], latestErrRoot := if root == s0.latestErrRoot then "" else s0.latestErrRoot);
      if !env.cacheOk then n.(state := s1)
      else n.(state := s1.(beginCalTxInt := r.end, endCalTxInt := r.end, latestBtcaHeight := s1.height),
              checks := n.checks + [AnchorRange(root, s1.height, n.lnHeight, r.begin, r.end, env.amLeader)])
  }

  /** The entries whose root is not the given one. */
  function Without(checks: seq<AnchorRange>, root: string): seq<AnchorRange>
  {
    if checks == [] then []
    else (if checks[0].anchorBtcAggRoot == root then [] else [checks[0]]) + Without(checks[1..], root)
  }

  function Reset(s: AnchorState, start: int): AnchorState
  {
    s.(beginCalTxInt := start, latestBtcaHeight := -1)
  }

  predicate TimedOut(s: AnchorState, c: AnchorRange)
  {
    s.height - c.calBlockHeight > 10
  }

  predicate Stale(lnHeight: int, c: AnchorRange)
  {
    c.btcBlockHeight != 0 && lnHeight - c.btcBlockHeight >= 144
  }

  /** What the failure monitor does with one entry of its snapshot: the node afterwards and
      the range it spawns a re-anchoring for. */
  function CheckedOne(n: Node, c: AnchorRange): (Node, seq<Range>)
  {
    if c.anchorBtcAggRoot == n.state.lastErrorCoreId then
      (n.(checks := DelFirst(n.checks, c), state := Reset(n.state, c.beginCalTxInt)), [])
    else
      var again := TimedOut(n.state, c) && n.state.beginCalTxInt >= c.endCalTxInt;
      var s := if TimedOut(n.state, c) && !again then Reset(n.state, c.beginCalTxInt) else n.state;
      var once := if TimedOut(n.state, c) then DelFirst(n.checks, c) else n.checks;
      var twice := if Stale(n.lnHeight, c) then DelFirst(once, c) else once;
      (n.(checks := twice, state := s), if again then [RangeOf(c)] else [])
  }

  function CheckedAll(n: Node, snapshot: seq<AnchorRange>): (Node, seq<Range>)
  {
    if snapshot == [] then (n, [])
    else
      var (before, spawned) := CheckedAll(n, snapshot[..|snapshot| - 1]);
      var (after, more) := CheckedOne(before, snapshot[|snapshot| - 1]);
      (after, spawned + more)
  }

  function Monitored(n: Node): (Node, seq<Range>)
  {
    if n.lnHeight == 0 then (n, []) else CheckedAll(n, n.checks)
  }

  // ---- the engine ----------------------------------------------------------

  class AnchorBTC {
    var state: AnchorState
    var checks: seq<AnchorRange>
    var lnHeight: int
    const cfg: Config

    constructor (cfg: Config, state: AnchorState)
      ensures this.cfg == cfg && this.state == state && checks == [] && lnHeight == 0
    {
      this.cfg, this.state, checks, lnHeight := cfg, state, [], 0;
    }

    function View(): Node
      reads this
    {
      Node(state, checks, lnHeight)
    }

    method StartAnchoring(chainSynced: bool) returns (spawn: Option<Range>)
      modifies this`state
      ensures (state, spawn) == Started(cfg, old(state), chainSynced)
    {
      spawn := None;
      if cfg.doAnchor && state.height - state.latestBtcaHeight > cfg.anchorInterval {
        if chainSynced {
          if state.latestCalTxInt - state.beginCalTxInt > state.currentCalInts {
            spawn := Some(Range(state.beginCalTxInt, state.latestCalTxInt - state.currentCalInts));
          }
        } else {
          state := state.(endCalTxInt := state.latestCalTxInt);
        }
      }
      state := state.(currentCalInts := 0);
    }

    /** Elects the leader and goes on as one of the nodes or as the leader. What the calls will
        return is given; `input` adds what the election gave. */
    method AnchorToChain(log: seq<LogEntry>, startTxRange: int, endTxRange: int, v: Election.ChainView, id: string, catchingUp: bool,
                         elect: Election.Elect<string>, calls: AnchorInput)
        returns (ok: bool, sent: seq<Broadcast>, panicked: bool, input: AnchorInput)
      requires Increasing(log)
      modifies this
      ensures Elects(cfg, old(state), v, id, catchingUp, elect, input) && calls == input.(leaderIds := calls.leaderIds, amLeader := calls.amLeader)
      ensures sent == Broadcasts(cfg, log, Range(startTxRange, endTxRange), input)
      ensures panicked <==> Panics(cfg, log, Range(startTxRange, endTxRange), input)
      ensures !panicked ==> View() == Anchored(cfg, log, old(View()), Range(startTxRange, endTxRange), input)
      ensures !panicked ==> (ok <==> AnchorSucceeds(cfg, log, Range(startTxRange, endTxRange), input))
      ensures panicked ==> !ok && View() == Anchored(cfg, log, old(View()), Range(startTxRange, endTxRange), input.(cacheOk := false))
    {
      if cfg.testMode {
        state := state.(lastErrorCoreId := "");
      }
      var blacklist := [state.lastErrorCoreId];
      assert Election.Ids(blacklist) == {Blamed(cfg, old(state))};
      var iAmLeader, leaderIds := Election.ElectChainContributorAsLeader(1, blacklist, v, id, catchingUp, elect);
      input := calls.(leaderIds := leaderIds, amLeader := iAmLeader);
      ok, sent, panicked := AnchorElected(log, startTxRange, endTxRange, input);
    }

    /** The part behind the election. A panic ends the process; nothing has been put on the list by
        then. */
    method AnchorElected(log: seq<LogEntry>, startTxRange: int, endTxRange: int, input: AnchorInput)
        returns (ok: bool, sent: seq<Broadcast>, panicked: bool)
      requires Increasing(log) && (cfg.testMode ==> state.lastErrorCoreId == "")
      modifies this
      ensures sent == Broadcasts(cfg, log, Range(startTxRange, endTxRange), input)
      ensures panicked <==> Panics(cfg, log, Range(startTxRange, endTxRange), input)
      ensures !panicked ==> View() == Anchored(cfg, log, old(View()), Range(startTxRange, endTxRange), input)
      ensures !panicked ==> (ok <==> AnchorSucceeds(cfg, log, Range(startTxRange, endTxRange), input))
      ensures panicked ==> !ok && View() == Anchored(cfg, log, old(View()), Range(startTxRange, endTxRange), input.(cacheOk := false))
    {
      ok, sent, panicked := false, [], false;
      if |input.leaderIds| == 0 || !input.rpcOk {
        return;
      }
      var treeData := GetTreeFromCalRange(cfg.env, log, startTxRange, endTxRange);
      if treeData.None? || treeData.value.anchorBtcAggRoot == "" {
        return;
      }
      var root := treeData.value.anchorBtcAggRoot;
      state := state.(lastElectedCoreId := input.leaderIds[0]);
      if root == state.latestErrRoot {
        state := state.(latestErrRoot := "");
      }
      if input.amLeader {
        if !input.sendOk {
          sent := sent + [ErrorFor(root)];
          if !input.btceOk {
            panicked := true;
            return;
          }
        }
        sent := sent + [if input.sendOk then AnchorFor(root, Range(startTxRange, endTxRange)) else EmptyAnchor];
        if !input.btcaOk {
          panicked := true;
          return;
        }
      }
      var failedAnchorCheck := AnchorRange(root, state.height, lnHeight, startTxRange, endTxRange, input.amLeader);
      if !input.cacheOk {
        return;
      }
      checks := checks + [failedAnchorCheck];
      state := state.(beginCalTxInt := endTxRange);
      state := state.(endCalTxInt := endTxRange);
      state := state.(latestBtcaHeight := state.height);
      ok := true;
    }

    /** Deletes, entry by entry of a snapshot, every check of a root. */
    method FindAndRemoveBtcCheck(aggRoot: string)
      modifies this`checks
      ensures checks == Without(old(checks), aggRoot)
    {
      var checkResults := checks;
      for i := 0 to |checkResults|
        invariant Without(checks, aggRoot) == Without(checkResults, aggRoot)
        invariant SameOfRoot(checks, checkResults[i..], aggRoot)
      {
        var c := checkResults[i];
        assert checkResults[i..] == [c] + checkResults[i + 1..];
        if c.anchorBtcAggRoot != aggRoot {
          continue;
        }
        DeletedWithin(checks, c, checkResults[i + 1..], aggRoot);
        WithoutDeleted(checks, c, aggRoot);
        checks := DelFirst(checks, c);
      }
      assert checkResults[|checkResults|..] == [];
      NothingLeft(checks, aggRoot);
    }

    method ResetAnchor(startTxRange: int)
      modifies this`state
      ensures state == Reset(old(state), startTxRange)
    {
      state := state.(beginCalTxInt := startTxRange);
      state := state.(latestBtcaHeight := -1);
    }

    /** Returns the ranges it spawns re-anchoring goroutines for, in order. */
    method MonitorFailedAnchor() returns (spawned: seq<Range>)
      modifies this
      ensures (View(), spawned) == Monitored(old(View()))
    {
      spawned := [];
      if lnHeight == 0 {
        return;
      }
      var checkResults := checks;
      for i := 0 to |checkResults|
        invariant (View(), spawned) == CheckedAll(old(View()), checkResults[..i])
      {
        assert checkResults[..i + 1][..i] == checkResults[..i];
        var more := CheckAnchorRange(checkResults[i]);
        spawned := spawned + more;
      }
      assert checkResults[..|checkResults|] == checkResults;
    }

    /** The monitor's loop body. */
    method CheckAnchorRange(anchor: AnchorRange) returns (spawned: seq<Range>)
      modifies this
      ensures (View(), spawned) == CheckedOne(old(View()), anchor)
    {
      spawned := [];
      if anchor.anchorBtcAggRoot == state.lastErrorCoreId {
        checks := DelFirst(checks, anchor);
        ResetAnchor(anchor.beginCalTxInt);
        return;
      }
      var hasBeen10CalBlocks := state.height - anchor.calBlockHeight > 10;
      var hasBeen144BtcBlocks := anchor.btcBlockHeight != 0 && lnHeight - anchor.btcBlockHeight >= 144;
      if hasBeen10CalBlocks {
        if state.beginCalTxInt >= anchor.endCalTxInt {
          spawned := [Range(anchor.beginCalTxInt, anchor.endCalTxInt)];
        } else {
          ResetAnchor(anchor.beginCalTxInt);
        }
        checks := DelFirst(checks, anchor);
      }
      if hasBeen144BtcBlocks {
        checks := DelFirst(checks, anchor);
      }
    }
  }

  // ---- deletion by root ----------------------------------------------------

  /** Two lists hold the checks of a root equally often. */
  ghost predicate SameOfRoot(a: seq<AnchorRange>, b: seq<AnchorRange>, root: string)
  {
    forall c: AnchorRange :: c.anchorBtcAggRoot == root ==> multiset(a)[c] == multiset(b)[c]
  }

  lemma DeletedWithin(checks: seq<AnchorRange>, c: AnchorRange, rest: seq<AnchorRange>, root: string)
    requires SameOfRoot(checks, [c] + rest, root)
    ensures SameOfRoot(DelFirst(checks, c), rest, root)
  {
    assert multiset([c] + rest) == multiset{c} + multiset(rest);
    DelFirstMultiset(checks, c);
  }

  lemma {:induction false} WithoutDeleted(checks: seq<AnchorRange>, c: AnchorRange, root: string)
    requires c.anchorBtcAggRoot == root
    ensures Without(DelFirst(checks, c), root) == Without(checks, root)
  {
    if checks == [] {
    } else if checks[0] != c {
      WithoutDeleted(checks[1..], c, root);
    }
  }

  lemma {:induction false} NothingLeft(checks: seq<AnchorRange>, root: string)
    requires forall c: AnchorRange :: c.anchorBtcAggRoot == root ==> multiset(checks)[c] == 0
    ensures Without(checks, root) == checks
  {
    if checks == [] {
    } else {
      assert checks == [checks[0]] + checks[1..];
      assert checks[0] in multiset(checks);
      NothingLeft(checks[1..], root);
    }
  }

  /** FindAndRemoveBtcCheck keeps exactly the entries of other roots, as often as they were there. */
  lemma {:induction false} WithoutMultiset(checks: seq<AnchorRange>, root: string, c: AnchorRange)
    ensures multiset(Without(checks, root))[c] == if c.anchorBtcAggRoot == root then 0 else multiset(checks)[c]
  {
    if checks == [] {
    } else {
      WithoutMultiset(checks[1..], root, c);
      assert checks == [checks[0]] + checks[1..];
    }
  }

  // ---- one entry of the failure monitor ------------------------------------

  /** How often the monitor deletes an entry: once when it is reported; else once for being more than
      ten blocks old and once more for 144 Bitcoin blocks. */
  function Deletions(n: Node, c: AnchorRange): nat
  {
    if c.anchorBtcAggRoot == n.state.lastErrorCoreId then 1
    else (if n.state.height > c.calBlockHeight + 10 then 1 else 0)
         + (if c.btcBlockHeight != 0 && n.lnHeight >= c.btcBlockHeight + 144 then 1 else 0)
  }

  function Deleted(checks: seq<AnchorRange>, c: AnchorRange, times: nat): seq<AnchorRange>
  {
    if times == 0 then checks else DelFirst(Deleted(checks, c, times - 1), c)
  }

  lemma OneDeleted(checks: seq<AnchorRange>, c: AnchorRange, x: AnchorRange)
    ensures multiset(DelFirst(checks, c))[x] == multiset(checks)[x] - if x == c && c in multiset(checks) then 1 else 0
  {
    DelFirstMultiset(checks, c);
  }

  lemma {:induction false} DeletedCount(checks: seq<AnchorRange>, c: AnchorRange, times: nat, other: AnchorRange)
    ensures var listed := multiset(checks)[c];
            && multiset(Deleted(checks, c, times))[c] == (if times <= listed then listed - times else 0)
            && (other != c ==> multiset(Deleted(checks, c, times))[other] == multiset(checks)[other])
  {
    if times > 0 {
      DeletedCount(checks, c, times - 1, other);
      OneDeleted(Deleted(checks, c, times - 1), c, c);
      OneDeleted(Deleted(checks, c, times - 1), c, other);
    }
  }

  lemma EntryChecks(n: Node, c: AnchorRange)
    ensures CheckedOne(n, c).0.checks == Deleted(n.checks, c, Deletions(n, c))
  {
    assert Deleted(n.checks, c, 0) == n.checks;
    assert Deleted(n.checks, c, 1) == DelFirst(n.checks, c);
    assert Deleted(n.checks, c, 2) == DelFirst(DelFirst(n.checks, c), c);
  }

  /** The entry goes as often as that, if it is listed so often, and no other entry goes. */
  lemma EntryIsDeleted(n: Node, c: AnchorRange, other: AnchorRange)
    ensures var after, listed := CheckedOne(n, c).0.checks, multiset(n.checks)[c];
            && multiset(after)[c] == (if Deletions(n, c) <= listed then listed - Deletions(n, c) else 0)
            && (other != c ==> multiset(after)[other] == multiset(n.checks)[other])
  {
    EntryChecks(n, c);
    DeletedCount(n.checks, c, Deletions(n, c), other);
  }

  /** An old entry that is not reported is anchored again if the epoch has passed it; if not, and for a
      reported one, the epoch is reset to its beginning. */
  lemma EntryOutcome(n: Node, c: AnchorRange)
    ensures var reported, aged := c.anchorBtcAggRoot == n.state.lastErrorCoreId, n.state.height > c.calBlockHeight + 10;
            && CheckedOne(n, c).1 == (if !reported && aged && n.state.beginCalTxInt >= c.endCalTxInt then [Range(c.beginCalTxInt, c.endCalTxInt)] else [])
            && CheckedOne(n, c).0.state == (if reported || (aged && n.state.beginCalTxInt < c.endCalTxInt)
                                            then n.state.(beginCalTxInt := c.beginCalTxInt, latestBtcaHeight := -1) else n.state)
  {
    var reported, aged, passed := c.anchorBtcAggRoot == n.state.lastErrorCoreId, TimedOut(n.state, c), n.state.beginCalTxInt >= c.endCalTxInt;
    if reported {
      assert CheckedOne(n, c).0.state == Reset(n.state, c.beginCalTxInt);
    } else if aged && !passed {
      assert CheckedOne(n, c).0.state == Reset(n.state, c.beginCalTxInt);
    }
  }
}
