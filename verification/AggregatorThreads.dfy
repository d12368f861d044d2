/** The concurrent aggregator of aggregator/aggregator.go: N workers, the loop that starts
    them, and any number of AggregateAndReset calls, as interleaved atomic steps. */
module AggregatorThreads {
  import opened Merkle
  import opened ChainTypes
  import opened Aggregations
  import Calendar

  /** Where a worker goroutine is. */
  datatype WorkerPc =
    | Check      // about to test the loop condition
    | Select     // about to look at the stop channel
    | Take       // about to dequeue
    | Hold       // a dequeued item in hand
    | Full       // more items than a batch holds
    | Flush      // out of the loop
    | Done

  datatype Worker = Worker(pc: WorkerPc, slice: seq<HashItem>, hand: Option<HashItem>)

  /** Where the loop of StartAggregation is. */
  datatype MainPc = MainLock | MainMake | MainSpawn(next: nat) | MainWait | MainUnlock

  /** Where an AggregateAndReset call is. */
  datatype CallPc = CallIdle | CallLock | CallDrain(left: nat, taken: seq<Aggregation>)

  datatype Holder = Free | HeldByMain | HeldByCall(id: nat)

  datatype Channel = Missing | Open | Closed

  datatype System = System(
    hashItems: seq<HashItem>, aggregations: seq<Aggregation>,
    workers: seq<Worker>, main: MainPc, calls: seq<CallPc>, mutex: Holder,
    tempStop: Channel, consume: bool,
    added: seq<HashItem>, returned: seq<Aggregation>,
    dropped: seq<HashItem>,     // items dequeued with an empty hash
    unflushed: seq<HashItem>)   // items whose last tree got no ULID

  datatype Config = Config(h: Hash, batchSize: nat)

  /** A step of one thread; a worker that builds a tree meets a beacon value and a ULID or none. */
  datatype Step =
    | AddItem(item: HashItem)
    | MainStep
    | WorkerStep(worker: nat, drand: string, ulid: Option<string>)
    | CallStep(call: nat)

  const IDLE: Worker := Worker(Done, [], None)

  // ---- steps ---------------------------------------------------------------

  function AfterMain(s: System): System
  {
    match s.main
    case MainLock => if s.mutex.Free? then s.(mutex := HeldByMain, main := MainMake) else s
    case MainMake => s.(tempStop := Open, consume := true, main := MainSpawn(0))
    case MainSpawn(i) =>
      if i < |s.workers| then s.(workers := s.workers[i := Worker(Check, [], None)], main := MainSpawn(i + 1))
      else s.(main := MainWait)
    case MainWait => if forall w :: w in s.workers ==> w.pc.Done? then s.(main := MainUnlock) else s
    case MainUnlock => s.(mutex := Free, main := MainLock)
  }

  /** One step of worker i, `built` being the aggregation its slice makes. */
  function AfterWorker(cfg: Config, s: System, i: nat, built: Aggregation): System
    requires i < |s.workers|
  {
    var w := s.workers[i];
    match w.pc
    case Check => s.(workers := s.workers[i := w.(pc := if s.consume then Select else Flush)])
    case Select =>
      if s.tempStop.Closed? then s.(consume := false, workers := s.workers[i := w.(pc := Check)])
      else s.(workers := s.workers[i := w.(pc := Take)])
    case Take =>
      if s.hashItems == [] then s.(workers := s.workers[i := w.(pc := Check)])
      else s.(hashItems := s.hashItems[1..], workers := s.workers[i := w.(pc := Hold, hand := Some(s.hashItems[0]))])
    case Hold =>
      if w.hand.None? then s
      else if w.hand.value.hash == "" then
        s.(dropped := s.dropped + [w.hand.value], workers := s.workers[i := w.(pc := Check, hand := None)])
      else
        var slice := w.slice + [w.hand.value];
        s.(workers := s.workers[i := Worker(if |slice| > cfg.batchSize then Full else Check, slice, None)])
    case Full =>
      if built.aggRoot != "" then s.(aggregations := s.aggregations + [built], workers := s.workers[i := w.(pc := Check, slice := [])])
      else s.(workers := s.workers[i := w.(pc := Check)])
    case Flush =>
      if w.slice == [] then s.(workers := s.workers[i := IDLE])
      else if built.aggRoot != "" then s.(aggregations := s.aggregations + [built], workers := s.workers[i := IDLE])
      else s.(unflushed := s.unflushed + w.slice, workers := s.workers[i := IDLE])
    case Done => s
  }

  /** Closing a missing or closed channel panics; the deferred recover returns nothing. A
      drain that finds the queue short returns with the mutex still locked. */
  function AfterCall(s: System, j: nat): System
    requires j < |s.calls|
  {
    match s.calls[j]
    case CallIdle => if s.tempStop.Open? then s.(tempStop := Closed, calls := s.calls[j := CallLock]) else s
    case CallLock =>
      if s.mutex.Free? then s.(mutex := HeldByCall(j), calls := s.calls[j := CallDrain(|s.aggregations|, [])]) else s
    case CallDrain(left, taken) =>
      if left == 0 then s.(mutex := Free, returned := s.returned + taken, calls := s.calls[j := CallIdle])
      else if s.aggregations == [] then s.(returned := s.returned + taken, calls := s.calls[j := CallIdle])
      else s.(aggregations := s.aggregations[1..], calls := s.calls[j := CallDrain(left - 1, taken + [s.aggregations[0]])])
  }

  function After(cfg: Config, s: System, e: Step): System
  {
    match e
    case AddItem(item) => s.(hashItems := s.hashItems + [item], added := s.added + [item])
    case MainStep => AfterMain(s)
    case WorkerStep(i, drand, ulid) => if i < |s.workers| then AfterWorker(cfg, s, i, Aggregated(cfg.h, s.workers[i].slice, drand, ulid)) else s
    case CallStep(j) => if j < |s.calls| then AfterCall(s, j) else s
  }

  function AfterAll(cfg: Config, s: System, steps: seq<Step>): System
    decreases |steps|
  {
    if steps == [] then s else AfterAll(cfg, After(cfg, s, steps[0]), steps[1..])
  }

  /** The queues made, nothing started. */
  ghost predicate Init(s: System)
  {
    && s.hashItems == [] && s.aggregations == [] && s.returned == []
    && AllIdle(s) && s.main == MainLock && s.mutex == Free && s.tempStop == Missing
    && (forall j :: 0 <= j < |s.calls| ==> s.calls[j] == CallIdle)
    && s.added == [] && s.dropped == [] && s.unflushed == []
  }

  // ---- conservation --------------------------------------------------------

  /** How often an item occurs in a list. */
  function Times(items: seq<HashItem>, x: HashItem): (n: nat)
  {
    multiset(items)[x]
  }

  lemma TimesConcat(a: seq<HashItem>, b: seq<HashItem>, x: HashItem)
    ensures Times(a + b, x) == Times(a, x) + Times(b, x)
  {
    assert multiset(a + b) == multiset(a) + multiset(b);
  }

  function WithWorker(w: Worker, x: HashItem): nat
  {
    Times(w.slice, x) + if w.hand == Some(x) then 1 else 0
  }

  function InWorkers(ws: seq<Worker>, x: HashItem): nat
  {
    if ws == [] then 0 else WithWorker(ws[0], x) + InWorkers(ws[1..], x)
  }

  function InAggregations(aggs: seq<Aggregation>, x: HashItem): nat
  {
    if aggs == [] then 0 else Times(Items(aggs[0]), x) + InAggregations(aggs[1..], x)
  }

  function InCall(c: CallPc, x: HashItem): nat
  {
    if c.CallDrain? then InAggregations(c.taken, x) else 0
  }

  function InCalls(cs: seq<CallPc>, x: HashItem): nat
  {
    if cs == [] then 0 else InCall(cs[0], x) + InCalls(cs[1..], x)
  }

  function Kept(s: System, x: HashItem): nat
  {
    Times(s.hashItems, x) + InWorkers(s.workers, x) + InAggregations(s.aggregations, x)
    + InCalls(s.calls, x) + InAggregations(s.returned, x)
  }

  /** What conservation asks of one item. */
  ghost predicate Balanced(s: System, x: HashItem)
  {
    Times(s.added, x) == Kept(s, x) + Times(s.dropped, x) + Times(s.unflushed, x)
  }

  /** Every item added is, as often as it was added, in exactly one place. */
  ghost predicate Conserved(s: System)
  {
    forall x :: Balanced(s, x)
  }

  lemma {:induction false} InWorkersUpdate(ws: seq<Worker>, i: nat, w: Worker, x: HashItem)
    requires i < |ws|
    ensures InWorkers(ws[i := w], x) + WithWorker(ws[i], x) == InWorkers(ws, x) + WithWorker(w, x)
  {
    if i == 0 {
      assert ws[i := w][1..] == ws[1..];
    } else {
      assert ws[i := w][1..] == ws[1..][i - 1 := w];
      InWorkersUpdate(ws[1..], i - 1, w, x);
    }
  }

  lemma {:induction false} InCallsUpdate(cs: seq<CallPc>, j: nat, c: CallPc, x: HashItem)
    requires j < |cs|
    ensures InCalls(cs[j := c], x) + InCall(cs[j], x) == InCalls(cs, x) + InCall(c, x)
  {
    if j == 0 {
      assert cs[j := c][1..] == cs[1..];
    } else {
      assert cs[j := c][1..] == cs[1..][j - 1 := c];
      InCallsUpdate(cs[1..], j - 1, c, x);
    }
  }

  lemma {:induction false} InAggregationsConcat(a: seq<Aggregation>, b: seq<Aggregation>, x: HashItem)
    ensures InAggregations(a + b, x) == InAggregations(a, x) + InAggregations(b, x)
  {
    if a == [] {
      assert a + b == b;
    } else {
      assert (a + b)[1..] == a[1..] + b;
      InAggregationsConcat(a[1..], b, x);
    }
  }

  lemma OneAggregation(agg: Aggregation, x: HashItem)
    ensures InAggregations([agg], x) == Times(Items(agg), x)
  {
    assert [agg][1..] == [];
  }

  // ---- the invariant -------------------------------------------------------

  ghost predicate WorkerOk(w: Worker)
  {
    && (w.pc.Done? ==> w == IDLE)
    && (w.hand.Some? <==> w.pc.Hold?)
  }

  ghost predicate WorkersOk(s: System)
  {
    forall i :: 0 <= i < |s.workers| ==> WorkerOk(s.workers[i])
  }

  ghost predicate AllIdle(s: System)
  {
    forall i :: 0 <= i < |s.workers| ==> s.workers[i] == IDLE
  }

  /** The main loop holds the mutex exactly while workers may run. */
  ghost predicate MainOk(s: System)
  {
    && (s.main.MainLock? <==> !s.mutex.HeldByMain?)
    && (s.main.MainLock? || s.main.MainMake? || s.main.MainUnlock? ==> AllIdle(s))
    && (s.main.MainSpawn? ==> s.main.next <= |s.workers| && forall i :: s.main.next <= i < |s.workers| ==> s.workers[i] == IDLE)
  }

  /** A call drains exactly while it holds the mutex, and has left what is queued. */
  ghost predicate CallsOk(s: System)
  {
    && (forall j :: 0 <= j < |s.calls| ==> (s.calls[j].CallDrain? <==> s.mutex == HeldByCall(j)))
    && (forall j :: 0 <= j < |s.calls| && s.calls[j].CallDrain? ==> s.calls[j].left == |s.aggregations|)
  }

  ghost predicate Inv(s: System)
  {
    && Conserved(s) && WorkersOk(s) && MainOk(s) && CallsOk(s)
    && (forall x :: x in s.dropped ==> x.hash == "")
  }

  lemma {:induction false} IdleWorkersHoldNothing(ws: seq<Worker>, x: HashItem)
    requires forall i :: 0 <= i < |ws| ==> ws[i] == IDLE
    ensures InWorkers(ws, x) == 0
  {
    if ws != [] {
      IdleWorkersHoldNothing(ws[1..], x);
    }
  }

  lemma {:induction false} IdleCallsHoldNothing(cs: seq<CallPc>, x: HashItem)
    requires forall j :: 0 <= j < |cs| ==> cs[j] == CallIdle
    ensures InCalls(cs, x) == 0
  {
    if cs != [] {
      IdleCallsHoldNothing(cs[1..], x);
    }
  }

  lemma InitInv(s: System)
    requires Init(s)
    ensures Inv(s)
  {
    forall x ensures Balanced(s, x) {
      IdleWorkersHoldNothing(s.workers, x);
      IdleCallsHoldNothing(s.calls, x);
    }
  }

  lemma AddKeeps(cfg: Config, s: System, item: HashItem)
    requires Inv(s)
    ensures Inv(After(cfg, s, AddItem(item)))
  {
    forall x ensures Balanced(After(cfg, s, AddItem(item)), x) {
      assert Balanced(s, x);
      TimesConcat(s.added, [item], x);
      TimesConcat(s.hashItems, [item], x);
    }
  }

  /** What of an item one worker can move: its own share, the two queues and the losses. */
  function Share(s: System, i: nat, x: HashItem): nat
    requires i < |s.workers|
  {
    WithWorker(s.workers[i], x) + Times(s.hashItems, x) + InAggregations(s.aggregations, x)
    + Times(s.dropped, x) + Times(s.unflushed, x)
  }

  /** A step that touches one worker keeps the balance when it keeps that worker's share. */
  lemma ShareKeepsBalance(s: System, t: System, i: nat, x: HashItem)
    requires Balanced(s, x) && i < |s.workers| == |t.workers| && t.workers == s.workers[i := t.workers[i]]
    requires t.added == s.added && t.calls == s.calls && t.returned == s.returned
    requires Share(t, i, x) == Share(s, i, x)
    ensures Balanced(t, x)
  {
    InWorkersUpdate(s.workers, i, t.workers[i], x);
  }

  lemma MainMovesNothing(s: System)
    requires !(s.main.MainSpawn? && s.main.next < |s.workers|)
    ensures var t := AfterMain(s);
            && t.hashItems == s.hashItems && t.workers == s.workers && t.aggregations == s.aggregations && t.calls == s.calls
            && t.returned == s.returned && t.added == s.added && t.dropped == s.dropped && t.unflushed == s.unflushed
  {
  }

  lemma MainConserves(s: System, x: HashItem)
    requires Balanced(s, x) && MainOk(s)
    ensures Balanced(AfterMain(s), x)
  {
    if s.main.MainSpawn? && s.main.next < |s.workers| {
      ShareKeepsBalance(s, AfterMain(s), s.main.next, x);
    } else {
      MainMovesNothing(s);
    }
  }

  lemma MainKeeps(s: System)
    requires Inv(s)
    ensures Inv(AfterMain(s))
  {
    forall x ensures Balanced(AfterMain(s), x) {
      MainConserves(s, x);
    }
    var after := AfterMain(s);
    if s.main.MainWait? && after.main.MainUnlock? {
      forall i | 0 <= i < |s.workers| ensures s.workers[i] == IDLE {
        assert s.workers[i] in s.workers && WorkerOk(s.workers[i]);
      }
    }
    assert MainOk(after);
    assert CallsOk(after);
  }

  /** What ties an aggregation to the slice it was built from. */
  ghost predicate BuiltFrom(built: Aggregation, slice: seq<HashItem>)
  {
    built.aggRoot != "" ==> forall x :: InAggregations([built], x) == Times(slice, x)
  }

  /** Building a tree takes exactly the slice, and fails only for want of items or of a ULID. */
  lemma TreeTakesSlice(h: Hash, slice: seq<HashItem>, drand: string, ulid: Option<string>)
    requires forall x :: |h(x)| == 32
    ensures BuiltFrom(Aggregated(h, slice, drand, ulid), slice)
    ensures Aggregated(h, slice, drand, ulid).aggRoot == "" <==> slice == [] || ulid.None?
  {
    if slice != [] && ulid.Some? {
      AggregationItems(h, slice, drand, ulid.value);
      forall x ensures InAggregations([Aggregated(h, slice, drand, ulid)], x) == Times(slice, x) {
        OneAggregation(Aggregated(h, slice, drand, ulid), x);
      }
    }
  }

  lemma TakeConserves(cfg: Config, s: System, i: nat, built: Aggregation, x: HashItem)
    requires WorkersOk(s) && i < |s.workers| && s.workers[i].pc.Take?
    ensures Share(AfterWorker(cfg, s, i, built), i, x) == Share(s, i, x)
  {
    assert WorkerOk(s.workers[i]);
    if s.hashItems != [] {
      assert s.hashItems == [s.hashItems[0]] + s.hashItems[1..];
      TimesConcat([s.hashItems[0]], s.hashItems[1..], x);
    }
  }

  lemma HoldDrops(cfg: Config, s: System, i: nat, built: Aggregation, item: HashItem, x: HashItem)
    requires i < |s.workers| && s.workers[i].pc.Hold? && s.workers[i].hand == Some(item) && item.hash == ""
    ensures Share(AfterWorker(cfg, s, i, built), i, x) == Share(s, i, x)
  {
    TimesConcat(s.dropped, [item], x);
  }

  lemma HoldKeepsItem(cfg: Config, s: System, i: nat, built: Aggregation, item: HashItem, x: HashItem)
    requires i < |s.workers| && s.workers[i].pc.Hold? && s.workers[i].hand == Some(item) && item.hash != ""
    ensures Share(AfterWorker(cfg, s, i, built), i, x) == Share(s, i, x)
  {
    TimesConcat(s.workers[i].slice, [item], x);
  }

  lemma HoldConserves(cfg: Config, s: System, i: nat, built: Aggregation, x: HashItem)
    requires WorkersOk(s) && i < |s.workers| && s.workers[i].pc.Hold?
    ensures Share(AfterWorker(cfg, s, i, built), i, x) == Share(s, i, x)
  {
    assert WorkerOk(s.workers[i]);
    var item := s.workers[i].hand.value;
    if item.hash == "" {
      HoldDrops(cfg, s, i, built, item, x);
    } else {
      HoldKeepsItem(cfg, s, i, built, item, x);
    }
  }

  lemma FlushConserves(cfg: Config, s: System, i: nat, built: Aggregation, x: HashItem)
    requires WorkersOk(s) && i < |s.workers| && BuiltFrom(built, s.workers[i].slice)
    requires s.workers[i].pc.Full? || s.workers[i].pc.Flush?
    ensures Share(AfterWorker(cfg, s, i, built), i, x) == Share(s, i, x)
  {
    var w := s.workers[i];
    assert WorkerOk(w);
    InAggregationsConcat(s.aggregations, [built], x);
    TimesConcat(s.unflushed, w.slice, x);
  }

  lemma WorkerConserves(cfg: Config, s: System, i: nat, built: Aggregation, x: HashItem)
    requires WorkersOk(s) && i < |s.workers| && BuiltFrom(built, s.workers[i].slice)
    ensures Share(AfterWorker(cfg, s, i, built), i, x) == Share(s, i, x)
  {
    var pc := s.workers[i].pc;
    if pc.Take? {
      TakeConserves(cfg, s, i, built, x);
    } else if pc.Hold? {
      HoldConserves(cfg, s, i, built, x);
    } else if pc.Full? || pc.Flush? {
      FlushConserves(cfg, s, i, built, x);
    } else {
      LoopConserves(cfg, s, i, built, x);
    }
  }

  lemma LoopConserves(cfg: Config, s: System, i: nat, built: Aggregation, x: HashItem)
    requires i < |s.workers| && (s.workers[i].pc.Check? || s.workers[i].pc.Select? || s.workers[i].pc.Done?)
    ensures Share(AfterWorker(cfg, s, i, built), i, x) == Share(s, i, x)
  {
    var t := AfterWorker(cfg, s, i, built);
    assert t.workers[i].slice == s.workers[i].slice && t.workers[i].hand == s.workers[i].hand;
    assert t.hashItems == s.hashItems && t.aggregations == s.aggregations && t.dropped == s.dropped && t.unflushed == s.unflushed;
  }

  /** A worker that is not done runs under the main loop's lock. */
  lemma RunningUnderLock(s: System, i: nat)
    requires MainOk(s) && CallsOk(s) && i < |s.workers| && !s.workers[i].pc.Done?
    ensures s.mutex.HeldByMain? && (s.main.MainWait? || (s.main.MainSpawn? && i < s.main.next))
    ensures forall j :: 0 <= j < |s.calls| ==> !s.calls[j].CallDrain?
  {
    assert s.workers[i] != IDLE;
  }

  /** A worker's step leaves the mutex, the main loop, the calls and the other workers alone. */
  lemma WorkerTouches(cfg: Config, s: System, i: nat, built: Aggregation)
    requires WorkersOk(s) && i < |s.workers|
    ensures var t := AfterWorker(cfg, s, i, built);
            && t.added == s.added && t.returned == s.returned && t.mutex == s.mutex && t.main == s.main && t.calls == s.calls && |t.workers| == |s.workers|
            && t.workers == s.workers[i := t.workers[i]]
            && WorkerOk(t.workers[i]) && (s.workers[i].pc.Done? ==> t == s)
            && (forall x :: x in t.dropped ==> x in s.dropped || x.hash == "")
  {
    assert WorkerOk(s.workers[i]);
  }

  lemma WorkerKeeps(cfg: Config, s: System, i: nat, built: Aggregation)
    requires Inv(s) && i < |s.workers| && BuiltFrom(built, s.workers[i].slice)
    ensures Inv(AfterWorker(cfg, s, i, built))
  {
    WorkerTouches(cfg, s, i, built);
    if !s.workers[i].pc.Done? {
      forall x ensures Balanced(AfterWorker(cfg, s, i, built), x) {
        WorkerConserves(cfg, s, i, built, x);
        ShareKeepsBalance(s, AfterWorker(cfg, s, i, built), i, x);
      }
      RunningUnderLock(s, i);
    }
  }

  lemma CallConserves(s: System, j: nat, x: HashItem)
    requires Balanced(s, x) && CallsOk(s) && j < |s.calls|
    ensures Balanced(AfterCall(s, j), x)
  {
    InCallsUpdate(s.calls, j, AfterCall(s, j).calls[j], x);
    if s.calls[j].CallDrain? {
      var taken := s.calls[j].taken;
      InAggregationsConcat(s.returned, taken, x);
      if s.aggregations != [] {
        OneAggregation(s.aggregations[0], x);
        InAggregationsConcat(taken, [s.aggregations[0]], x);
      }
    }
  }

  lemma CallKeeps(s: System, j: nat)
    requires Inv(s) && j < |s.calls|
    ensures Inv(AfterCall(s, j))
  {
    forall x ensures Balanced(AfterCall(s, j), x) {
      CallConserves(s, j, x);
    }
    assert MainOk(AfterCall(s, j));
    assert CallsOk(AfterCall(s, j));
  }

  lemma StepKeeps(cfg: Config, s: System, e: Step)
    requires Inv(s) && forall x :: |cfg.h(x)| == 32
    ensures Inv(After(cfg, s, e))
  {
    match e
    case AddItem(item) => AddKeeps(cfg, s, item);
    case MainStep => MainKeeps(s);
    case WorkerStep(i, drand, ulid) =>
      if i < |s.workers| {
        TreeTakesSlice(cfg.h, s.workers[i].slice, drand, ulid);
        WorkerKeeps(cfg, s, i, Aggregated(cfg.h, s.workers[i].slice, drand, ulid));
      }
    case CallStep(j) => if j < |s.calls| { CallKeeps(s, j); }
  }

  /** In every interleaving each added item is, as often as it was added, in the input queue,
      with a worker, in a queued or returned aggregation, or on record as lost. */
  lemma {:induction false} EveryInterleavingConserves(cfg: Config, s: System, steps: seq<Step>)
    requires Inv(s) && forall x :: |cfg.h(x)| == 32
    ensures Inv(AfterAll(cfg, s, steps))
    decreases |steps|
  {
    if steps != [] {
      StepKeeps(cfg, s, steps[0]);
      EveryInterleavingConserves(cfg, After(cfg, s, steps[0]), steps[1..]);
    }
  }

  // ---- nothing is lost -----------------------------------------------------

  /** Whether a step throws items away: a worker flushes a non-empty slice and gets no ULID. */
  predicate FailsToFlush(s: System, e: Step)
  {
    e.WorkerStep? && e.worker < |s.workers| && s.workers[e.worker].pc.Flush? && s.workers[e.worker].slice != [] && e.ulid.None?
  }

  /** ... or drops an item whose hash is empty. */
  predicate DropsEmpty(s: System, e: Step)
  {
    e.WorkerStep? && e.worker < |s.workers| && s.workers[e.worker].pc.Hold?
    && s.workers[e.worker].hand.Some? && s.workers[e.worker].hand.value.hash == ""
  }

  function Lost(s: System): nat
  {
    |s.unflushed| + |s.dropped|
  }

  lemma LostByWorker(cfg: Config, s: System, i: nat, built: Aggregation)
    requires i < |s.workers|
    ensures Lost(AfterWorker(cfg, s, i, built)) >= Lost(s)
    ensures Lost(AfterWorker(cfg, s, i, built)) == Lost(s)
            <==> !(s.workers[i].pc.Flush? && s.workers[i].slice != [] && built.aggRoot == "")
                 && !(s.workers[i].pc.Hold? && s.workers[i].hand.Some? && s.workers[i].hand.value.hash == "")
  {
  }

  lemma LostGrows(cfg: Config, s: System, e: Step)
    requires forall x :: |cfg.h(x)| == 32
    ensures Lost(After(cfg, s, e)) >= Lost(s)
    ensures Lost(After(cfg, s, e)) == Lost(s) <==> !FailsToFlush(s, e) && !DropsEmpty(s, e)
  {
    if e.WorkerStep? && e.worker < |s.workers| {
      var w := s.workers[e.worker];
      TreeTakesSlice(cfg.h, w.slice, e.drand, e.ulid);
      LostByWorker(cfg, s, e.worker, Aggregated(cfg.h, w.slice, e.drand, e.ulid));
    }
  }

  predicate SomeStepLoses(cfg: Config, s: System, steps: seq<Step>)
    decreases |steps|
  {
    steps != [] && (FailsToFlush(s, steps[0]) || DropsEmpty(s, steps[0]) || SomeStepLoses(cfg, After(cfg, s, steps[0]), steps[1..]))
  }

  lemma {:induction false} LostOfRun(cfg: Config, s: System, steps: seq<Step>)
    requires forall x :: |cfg.h(x)| == 32
    ensures Lost(AfterAll(cfg, s, steps)) >= Lost(s)
    ensures Lost(AfterAll(cfg, s, steps)) == Lost(s) <==> !SomeStepLoses(cfg, s, steps)
    decreases |steps|
  {
    if steps != [] {
      LostGrows(cfg, s, steps[0]);
      LostOfRun(cfg, After(cfg, s, steps[0]), steps[1..]);
    }
  }

  lemma SomeItemOf(items: seq<HashItem>)
    requires items != []
    ensures Times(items, items[0]) > 0
  {
    assert items[0] in multiset(items);
  }

  /** Every added item is still in the queue, with a worker or in an aggregation exactly when
      every flush of a non-empty slice got its ULID and no worker took up an empty hash. */
  lemma NothingIsLost(cfg: Config, s: System, steps: seq<Step>)
    requires Init(s) && forall x :: |cfg.h(x)| == 32
    ensures var t := AfterAll(cfg, s, steps);
            (forall x :: Times(t.added, x) == Kept(t, x)) <==> !SomeStepLoses(cfg, s, steps)
  {
    InitInv(s);
    EveryInterleavingConserves(cfg, s, steps);
    LostOfRun(cfg, s, steps);
    var t := AfterAll(cfg, s, steps);
    if t.unflushed != [] {
      var x := t.unflushed[0];
      SomeItemOf(t.unflushed);
      assert Balanced(t, x) && Times(t.added, x) > Kept(t, x);
    } else if t.dropped != [] {
      var x := t.dropped[0];
      SomeItemOf(t.dropped);
      assert Balanced(t, x) && Times(t.added, x) > Kept(t, x);
    } else {
      forall x ensures Times(t.added, x) == Kept(t, x) {
        assert Balanced(t, x);
      }
    }
  }

  /** Only items added with an empty hash are ever dropped. */
  lemma DroppedWereEmpty(cfg: Config, s: System, steps: seq<Step>, x: HashItem)
    requires Init(s) && (forall y :: |cfg.h(y)| == 32) && x in AfterAll(cfg, s, steps).dropped
    ensures x.hash == "" && x in AfterAll(cfg, s, steps).added
  {
    InitInv(s);
    EveryInterleavingConserves(cfg, s, steps);
    var t := AfterAll(cfg, s, steps);
    assert Balanced(t, x) && x in multiset(t.dropped);
    assert x in multiset(t.added);
  }

  // ---- quiescence ----------------------------------------------------------

  /** Whenever the restart mutex is free or held by an AggregateAndReset call, no worker holds
      an item. */
  lemma QuietWhenReset(s: System)
    requires Inv(s) && !s.mutex.HeldByMain?
    ensures AllIdle(s) && forall x :: InWorkers(s.workers, x) == 0
  {
    forall x ensures InWorkers(s.workers, x) == 0 {
      IdleWorkersHoldNothing(s.workers, x);
    }
  }

  /** A drain never finds the queue short, ends with the queue empty, and frees the mutex. */
  lemma DrainEmpties(s: System, j: nat)
    requires Inv(s) && j < |s.calls| && s.calls[j].CallDrain?
    ensures s.calls[j].left == 0 <==> s.aggregations == []
    ensures s.calls[j].left == 0 ==> AfterCall(s, j).aggregations == [] && AfterCall(s, j).mutex.Free?
    ensures s.calls[j].left > 0 ==> AfterCall(s, j).aggregations == s.aggregations[1..] && AfterCall(s, j).calls[j].CallDrain?
  {
  }

  /** While a call drains, no step of another thread adds to or takes from the queue. */
  lemma DrainStep(cfg: Config, s: System, e: Step, j: nat)
    requires Inv(s) && j < |s.calls| && s.calls[j].CallDrain?
    ensures var t, all := After(cfg, s, e), s.calls[j].taken + s.aggregations;
            && |t.calls| == |s.calls|
            && (t.calls[j].CallDrain? ==> t.calls[j].taken + t.aggregations == all && t.returned == s.returned)
            && (!t.calls[j].CallDrain? ==> t.calls[j].CallIdle? && t.aggregations == [] && t.returned == s.returned + all)
  {
    if e.WorkerStep? && e.worker < |s.workers| {
      assert WorkerOk(s.workers[e.worker]) && s.workers[e.worker] == IDLE;
    }
  }

  /** Call j drains before each of the steps. */
  ghost predicate DrainsThrough(cfg: Config, s: System, steps: seq<Step>, j: nat)
    decreases |steps|
  {
    steps != [] ==> j < |s.calls| && s.calls[j].CallDrain? && DrainsThrough(cfg, After(cfg, s, steps[0]), steps[1..], j)
  }

  /** Whatever the other threads do meanwhile, a drain takes exactly the queue it found: it
      returns all of it, in order, and leaves the queue empty. */
  lemma {:induction false} DrainTakesTheQueue(cfg: Config, s: System, steps: seq<Step>, j: nat)
    requires Inv(s) && (forall x :: |cfg.h(x)| == 32) && j < |s.calls| && s.calls[j].CallDrain? && DrainsThrough(cfg, s, steps, j)
    ensures var t, all := AfterAll(cfg, s, steps), s.calls[j].taken + s.aggregations;
            && |t.calls| == |s.calls|
            && (t.calls[j].CallDrain? ==> t.calls[j].taken + t.aggregations == all && t.returned == s.returned)
            && (!t.calls[j].CallDrain? ==> t.calls[j].CallIdle? && t.aggregations == [] && t.returned == s.returned + all)
    decreases |steps|
  {
    if steps != [] {
      DrainStep(cfg, s, steps[0], j);
      StepKeeps(cfg, s, steps[0]);
      if |steps| == 1 {
        assert steps[1..] == [];
        assert AfterAll(cfg, s, steps) == After(cfg, s, steps[0]);
      } else {
        DrainTakesTheQueue(cfg, After(cfg, s, steps[0]), steps[1..], j);
      }
    }
  }

  // ---- what is drained fits the calendar tree ------------------------------

  /** Every root that is queued or taken decodes. */
  ghost predicate RootsDecode(s: System)
  {
    && Calendar.AllDecode(s.aggregations)
    && forall j :: 0 <= j < |s.calls| && s.calls[j].CallDrain? ==> Calendar.AllDecode(s.calls[j].taken)
  }

  /** An aggregation's root is the text of bytes, or empty. */
  lemma BuiltDecodes(h: Hash, slice: seq<HashItem>, drand: string, ulid: Option<string>)
    ensures ByteStrings.HexDecode(Aggregated(h, slice, drand, ulid).aggRoot).ok
  {
    if slice != [] && ulid.Some? {
      ByteStrings.HexRoundTrip(Root(h, Promote, Leaves(h, slice, drand)));
    }
  }

  lemma WorkerRoots(cfg: Config, s: System, i: nat, built: Aggregation)
    requires RootsDecode(s) && i < |s.workers| && ByteStrings.HexDecode(built.aggRoot).ok
    ensures RootsDecode(AfterWorker(cfg, s, i, built))
  {
    assert AfterWorker(cfg, s, i, built).calls == s.calls;
    assert AfterWorker(cfg, s, i, built).aggregations in {s.aggregations, s.aggregations + [built]};
  }

  lemma CallRoots(s: System, j: nat)
    requires RootsDecode(s) && j < |s.calls|
    ensures RootsDecode(AfterCall(s, j))
  {
  }

  lemma RootsStep(cfg: Config, s: System, e: Step)
    requires RootsDecode(s)
    ensures RootsDecode(After(cfg, s, e))
  {
    match e
    case AddItem(item) =>
    case MainStep => assert AfterMain(s).calls == s.calls && AfterMain(s).aggregations == s.aggregations;
    case WorkerStep(i, drand, ulid) =>
      if i < |s.workers| {
        var built := Aggregated(cfg.h, s.workers[i].slice, drand, ulid);
        BuiltDecodes(cfg.h, s.workers[i].slice, drand, ulid);
        WorkerRoots(cfg, s, i, built);
      }
    case CallStep(j) => if j < |s.calls| { CallRoots(s, j); }
  }

  lemma {:induction false} RootsOfRun(cfg: Config, s: System, steps: seq<Step>)
    requires RootsDecode(s)
    ensures RootsDecode(AfterAll(cfg, s, steps))
    decreases |steps|
  {
    if steps != [] {
      RootsStep(cfg, s, steps[0]);
      RootsOfRun(cfg, After(cfg, s, steps[0]), steps[1..]);
    }
  }

  /** In every interleaving, what an AggregateAndReset call has taken fits the calendar tree made
      of it: leaf i is the root of aggregation i, and proof i leads it to the calendar root. */
  lemma DrainedAlign(cfg: Config, s: System, steps: seq<Step>, j: nat, i: nat)
    requires Init(s)
    requires var t := AfterAll(cfg, s, steps); j < |t.calls| && t.calls[j].CallDrain? && i < |t.calls[j].taken|
    ensures var aggs := AfterAll(cfg, s, steps).calls[j].taken;
            var root, cal := ByteStrings.HexDecode(aggs[i].aggRoot).bytes, Calendar.CalendarTree(cfg.h, aggs);
            && |Calendar.DecodedRoots(aggs)| == |aggs| && Calendar.DecodedRoots(aggs)[i] == root
            && cal.proofData[i].aggId == aggs[i].aggId
            && ProofOps.Leads(cfg.h, cal.proofData[i].proof, root, ByteStrings.HexDecode(cal.calRoot).bytes)
  {
    RootsOfRun(cfg, s, steps);
    var aggs := AfterAll(cfg, s, steps).calls[j].taken;
    assert Calendar.AllDecode(aggs[..i]) && Calendar.AllDecode(aggs[..i + 1]);
    Calendar.DecodedRootsCount(aggs);
    Calendar.CalendarAlignment(aggs, i);
    Calendar.DecodedRootsCount(aggs[..i]);
    Calendar.CalendarSound(cfg.h, aggs, i);
  }

  // ---- the aggregator ------------------------------------------------------

  /** The aggregator's fields, its goroutines, and for the record what went in and came out.
      Each method is one atomic step of one thread. */
  class Aggregator {
    const cfg: Config
    var hashItems: seq<HashItem>
    var aggregations: seq<Aggregation>
    var workers: seq<Worker>
    var main: MainPc
    var calls: seq<CallPc>
    var restartMutex: Holder
    var tempStop: Channel
    var consume: bool
    ghost var added: seq<HashItem>
    ghost var returned: seq<Aggregation>
    ghost var dropped: seq<HashItem>
    ghost var unflushed: seq<HashItem>

    ghost function View(): System
      reads this
    {
      System(hashItems, aggregations, workers, main, calls, restartMutex, tempStop, consume, added, returned, dropped, unflushed)
    }

    constructor (cfg: Config, aggThreads: nat, callers: nat)
      ensures this.cfg == cfg && |workers| == aggThreads && |calls| == callers
      ensures Init(View()) && Inv(View())
    {
      this.cfg := cfg;
      hashItems, aggregations, main, restartMutex, tempStop, consume := [], [], MainLock, Free, Missing, false;
      workers := seq(aggThreads, i => IDLE);
      calls := seq(callers, j => CallIdle);
      added, returned, dropped, unflushed := [], [], [], [];
      new;
      InitInv(View());
    }

    method AddHashItem(item: HashItem)
      requires Inv(View())
      modifies this
      ensures View() == After(cfg, old(View()), AddItem(item)) && Inv(View())
    {
      AddKeeps(cfg, View(), item);
      hashItems := hashItems + [item];
      added := added + [item];
    }

    /** The oldest item, or one with an empty hash when there is none. */
    method HeadHashItem() returns (item: HashItem)
      modifies this`hashItems
      ensures old(hashItems) == [] ==> item == HashItem("", "") && hashItems == []
      ensures old(hashItems) != [] ==> [item] + hashItems == old(hashItems)
    {
      if |hashItems| == 0 {
        return HashItem("", "");
      }
      item, hashItems := hashItems[0], hashItems[1..];
    }

    /** The loop of StartAggregation: lock, make a channel, start the workers, wait, unlock. */
    method MainTurn()
      requires Inv(View())
      modifies this
      ensures View() == After(cfg, old(View()), MainStep) && Inv(View())
    {
      MainKeeps(View());
      match main {
        case MainLock =>
          if restartMutex == Free {
            restartMutex, main := HeldByMain, MainMake;
          }
        case MainMake =>
          tempStop, consume, main := Open, true, MainSpawn(0);
        case MainSpawn(i) =>
          if i < |workers| {
            workers, main := workers[i := Worker(Check, [], None)], MainSpawn(i + 1);
          } else {
            main := MainWait;
          }
        case MainWait =>
          var done := AllDone();
          if done {
            main := MainUnlock;
          }
        case MainUnlock =>
          restartMutex, main := Free, MainLock;
      }
    }

    /** WaitGroup.Wait: no worker still runs. */
    method AllDone() returns (done: bool)
      ensures done <==> forall w :: w in workers ==> w.pc.Done?
    {
      done := true;
      for i := 0 to |workers|
        invariant done <==> forall w :: w in workers[..i] ==> w.pc.Done?
      {
        assert workers[..i + 1] == workers[..i] + [workers[i]];
        if !workers[i].pc.Done? {
          done := false;
        }
      }
      assert workers[..|workers|] == workers;
    }

    /** One worker goroutine, with the beacon value and the ULID a tree it builds would get. */
    method WorkerTurn(i: nat, drand: string, ulid: Option<string>)
      requires Inv(View()) && i < |workers| && forall x :: |cfg.h(x)| == 32
      modifies this
      ensures View() == After(cfg, old(View()), WorkerStep(i, drand, ulid)) && Inv(View())
    {
      StepKeeps(cfg, View(), WorkerStep(i, drand, ulid));
      var w := workers[i];
      match w.pc {
        case Check =>
          workers := workers[i := w.(pc := if consume then Select else Flush)];
        case Select =>
          if tempStop.Closed? {
            consume := false;
            workers := workers[i := w.(pc := Check)];
          } else {
            workers := workers[i := w.(pc := Take)];
          }
        case Take =>
          if |hashItems| == 0 {
            workers := workers[i := w.(pc := Check)];
          } else {
            var item := HeadHashItem();
            assert item == old(hashItems)[0] && hashItems == old(hashItems)[1..];
            workers := workers[i := w.(pc := Hold, hand := Some(item))];
          }
        case Hold =>
          SortItem(i, w);
        case Full =>
          var agg := ProcessAggregation(cfg.h, w.slice, drand, ulid);
          if agg.aggRoot != "" {
            aggregations := aggregations + [agg];
            workers := workers[i := w.(pc := Check, slice := [])];
          } else {
            workers := workers[i := w.(pc := Check)];
          }
        case Flush =>
          FlushSlice(i, w, drand, ulid);
        case Done =>
      }
    }

    /** What a worker does with a dequeued item. */
    method SortItem(i: nat, w: Worker)
      requires i < |workers| && workers[i] == w && w.pc.Hold?
      modifies this
      ensures View() == AfterWorker(cfg, old(View()), i, NO_AGGREGATION)
    {
      if w.hand.Some? {
        if |w.hand.value.hash| > 0 {
          var slice := w.slice + [w.hand.value];
          workers := workers[i := Worker(if |slice| > cfg.batchSize then Full else Check, slice, None)];
        } else {
          dropped := dropped + [w.hand.value];
          workers := workers[i := w.(pc := Check, hand := None)];
        }
      }
    }

    /** What a worker does when it leaves its loop. */
    method FlushSlice(i: nat, w: Worker, drand: string, ulid: Option<string>)
      requires i < |workers| && workers[i] == w && w.pc.Flush?
      modifies this
      ensures View() == AfterWorker(cfg, old(View()), i, Aggregated(cfg.h, w.slice, drand, ulid))
    {
      if |w.slice| > 0 {
        var agg := ProcessAggregation(cfg.h, w.slice, drand, ulid);
        if agg.aggRoot != "" {
          aggregations := aggregations + [agg];
        } else {
          unflushed := unflushed + w.slice;
        }
      }
      workers := workers[i := IDLE];
    }

    /** AggregateAndReset: close the channel, lock, drain what was counted, unlock. The
        aggregations are handed out as the call ends. */
    method CallTurn(j: nat) returns (ended: bool, out: seq<Aggregation>)
      requires Inv(View()) && j < |calls|
      modifies this
      ensures View() == After(cfg, old(View()), CallStep(j)) && Inv(View())
      ensures ended <==> old(calls)[j].CallDrain? && calls[j].CallIdle?
      ensures ended ==> returned == old(returned) + out && aggregations == []
    {
      CallKeeps(View(), j);
      ended, out := false, [];
      match calls[j] {
        case CallIdle =>
          if tempStop == Open {
            tempStop, calls := Closed, calls[j := CallLock];
          }
        case CallLock =>
          if restartMutex == Free {
            restartMutex, calls := HeldByCall(j), calls[j := CallDrain(|aggregations|, [])];
          }
        case CallDrain(left, taken) =>
          if left == 0 {
            restartMutex, calls := Free, calls[j := CallIdle];
            returned := returned + taken;
            ended, out := true, taken;
          } else if |aggregations| == 0 {
            assert false; // a dequeue never fails: the queue holds what was counted
          } else {
            calls := calls[j := CallDrain(left - 1, taken + [aggregations[0]])];
            aggregations := aggregations[1..];
          }
      }
    }
  }
}
