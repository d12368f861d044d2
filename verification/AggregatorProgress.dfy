/** That AggregateAndReset returns: once it has closed the stop channel, a bounded number of turns of
    each worker and of the loop, in any order, stops the workers and frees the mutex, and its drain
    then ends with everything that is queued. */
module AggregatorProgress {
  import opened ChainTypes
  import opened Aggregations
  import opened AggregatorThreads

  // ---- what is left to do --------------------------------------------------

  /** How many turns of its own a worker needs at most once the channel is closed. */
  function TurnsLeft(w: Worker, consume: bool): nat
  {
    match w.pc
    case Done => 0
    case Flush => 1
    case Check => if consume then 4 else 2
    case Select => 3
    case Full => 5
    case Hold => 6
    case Take => 7
  }

  function AllTurnsLeft(ws: seq<Worker>, consume: bool): nat
  {
    if ws == [] then 0 else TurnsLeft(ws[0], consume) + AllTurnsLeft(ws[1..], consume)
  }

  function MainTurnsLeft(s: System): nat
  {
    match s.main
    case MainSpawn(i) => if i <= |s.workers| then 8 * (|s.workers| - i) + 3 else 3
    case MainWait => 2
    case MainUnlock => 1
    case _ => 0
  }

  function Remaining(s: System): nat
  {
    MainTurnsLeft(s) + AllTurnsLeft(s.workers, s.consume)
  }

  lemma {:induction false} TurnsUpdate(ws: seq<Worker>, i: nat, w: Worker, consume: bool)
    requires i < |ws|
    ensures AllTurnsLeft(ws[i := w], consume) + TurnsLeft(ws[i], consume) == AllTurnsLeft(ws, consume) + TurnsLeft(w, consume)
  {
    if i == 0 {
      assert ws[i := w][1..] == ws[1..];
    } else {
      assert ws[i := w][1..] == ws[1..][i - 1 := w];
      TurnsUpdate(ws[1..], i - 1, w, consume);
    }
  }

  lemma {:induction false} FewerWithoutConsume(ws: seq<Worker>)
    ensures AllTurnsLeft(ws, false) <= AllTurnsLeft(ws, true)
  {
    if ws != [] {
      FewerWithoutConsume(ws[1..]);
    }
  }

  lemma {:induction false} TurnsBounded(ws: seq<Worker>, consume: bool)
    ensures AllTurnsLeft(ws, consume) <= 7 * |ws|
  {
    if ws != [] {
      TurnsBounded(ws[1..], consume);
    }
  }

  lemma {:induction false} IdleTurns(ws: seq<Worker>, consume: bool)
    requires forall i :: 0 <= i < |ws| ==> ws[i] == IDLE
    ensures AllTurnsLeft(ws, consume) == 0
  {
    if ws != [] {
      IdleTurns(ws[1..], consume);
    }
  }

  lemma {:induction false} TurnsSplit(ws: seq<Worker>, n: nat, consume: bool)
    requires n <= |ws|
    ensures AllTurnsLeft(ws, consume) == AllTurnsLeft(ws[..n], consume) + AllTurnsLeft(ws[n..], consume)
  {
    if n > 0 {
      assert ws[..n][1..] == ws[1..][..n - 1] && ws[n..] == ws[1..][n - 1..];
      TurnsSplit(ws[1..], n - 1, consume);
    } else {
      assert ws[n..] == ws;
    }
  }

  /** The channel is closed, and the loop has started its workers or is at it. */
  ghost predicate Closing(s: System)
  {
    s.tempStop.Closed? && s.mutex.HeldByMain? && (s.main.MainSpawn? || s.main.MainWait? || s.main.MainUnlock?)
  }

  lemma RemainingBounded(s: System)
    requires Inv(s) && Closing(s)
    ensures 0 < Remaining(s) <= 8 * |s.workers| + 3
  {
    TurnsBounded(s.workers, s.consume);
    if s.main.MainSpawn? {
      var i := s.main.next;
      TurnsSplit(s.workers, i, s.consume);
      TurnsBounded(s.workers[..i], s.consume);
      IdleTurns(s.workers[i..], s.consume);
    }
  }

  // ---- threads that are not finished ---------------------------------------

  datatype Thread = MainThread | WorkerThread(id: nat)

  /** The thread can go on: a worker that is not done, or the loop unless it waits for one. */
  ghost predicate IsLive(s: System, t: Thread)
  {
    match t
    case MainThread => !s.main.MainWait? || forall w :: w in s.workers ==> w.pc.Done?
    case WorkerThread(i) => i < |s.workers| && !s.workers[i].pc.Done?
  }

  predicate IsOf(e: Step, t: Thread)
  {
    match t
    case MainThread => e.MainStep?
    case WorkerThread(i) => e.WorkerStep? && e.worker == i
  }

  /** A worker's turn takes one off what is left for it, and may tell the others to stop. */
  lemma WorkerAdvances(cfg: Config, s: System, i: nat, built: Aggregation)
    requires Inv(s) && Closing(s) && i < |s.workers|
    ensures var t := AfterWorker(cfg, s, i, built);
            && Closing(t) && t.main == s.main && |t.workers| == |s.workers| && (t.consume ==> s.consume)
            && (forall k :: 0 <= k < |s.workers| && k != i ==> t.workers[k] == s.workers[k])
            && (if s.workers[i].pc.Done? then t == s else TurnsLeft(t.workers[i], t.consume) < TurnsLeft(s.workers[i], s.consume))
  {
    assert WorkerOk(s.workers[i]);
  }

  lemma WorkerLessRemains(cfg: Config, s: System, i: nat, built: Aggregation)
    requires Inv(s) && Closing(s) && i < |s.workers|
    ensures var t := AfterWorker(cfg, s, i, built);
            if s.workers[i].pc.Done? then t == s else Remaining(t) < Remaining(s)
  {
    WorkerAdvances(cfg, s, i, built);
    var t := AfterWorker(cfg, s, i, built);
    if !s.workers[i].pc.Done? {
      assert t.workers == s.workers[i := t.workers[i]];
      TurnsUpdate(s.workers, i, t.workers[i], t.consume);
      if s.consume && !t.consume {
        FewerWithoutConsume(s.workers);
        TurnsLower(s.workers, i);
      }
    }
  }

  /** What is left for the others is not more when they are told to stop. */
  lemma {:induction false} TurnsLower(ws: seq<Worker>, i: nat)
    requires i < |ws|
    ensures AllTurnsLeft(ws, false) - TurnsLeft(ws[i], false) <= AllTurnsLeft(ws, true) - TurnsLeft(ws[i], true)
  {
    if i == 0 {
      FewerWithoutConsume(ws[1..]);
    } else {
      TurnsLower(ws[1..], i - 1);
    }
  }

  lemma MainLessRemains(s: System)
    requires Inv(s) && Closing(s) && IsLive(s, MainThread)
    ensures var t := AfterMain(s);
            if s.main.MainUnlock? then t.mutex.Free? else Closing(t) && Remaining(t) < Remaining(s)
  {
    if s.main.MainSpawn? && s.main.next < |s.workers| {
      TurnsUpdate(s.workers, s.main.next, Worker(Check, [], None), s.consume);
    }
  }

  /** One step of any thread while the workers are being stopped: what is left does not grow, and
      gets less if the thread can go on; or the loop frees the mutex. */
  lemma StepAdvances(cfg: Config, s: System, e: Step)
    requires Inv(s) && Closing(s)
    ensures var t := After(cfg, s, e);
            t.mutex.Free? || (Closing(t) && Remaining(t) <= Remaining(s) && |t.workers| == |s.workers|
                              && forall thread :: IsOf(e, thread) && IsLive(s, thread) ==> Remaining(t) < Remaining(s))
  {
    match e
    case AddItem(item) =>
    case MainStep => if IsLive(s, MainThread) { MainLessRemains(s); }
    case WorkerStep(i, drand, ulid) =>
      if i < |s.workers| {
        WorkerAdvances(cfg, s, i, Aggregated(cfg.h, s.workers[i].slice, drand, ulid));
        WorkerLessRemains(cfg, s, i, Aggregated(cfg.h, s.workers[i].slice, drand, ulid));
      }
    case CallStep(j) =>
  }

  /** No other thread takes a thread's turn from it. */
  lemma LiveStays(cfg: Config, s: System, e: Step, thread: Thread)
    requires Inv(s) && Closing(s) && IsLive(s, thread) && !IsOf(e, thread)
    ensures After(cfg, s, e).mutex.Free? || IsLive(After(cfg, s, e), thread)
  {
    if e.WorkerStep? && e.worker < |s.workers| {
      WorkerAdvances(cfg, s, e.worker, Aggregated(cfg.h, s.workers[e.worker].slice, e.drand, e.ulid));
    }
  }

  // ---- the mutex is freed --------------------------------------------------

  /** At some point of the run the loop has freed the mutex. */
  ghost predicate Releases(cfg: Config, s: System, steps: seq<Step>)
  {
    exists k :: 0 <= k <= |steps| && AfterAll(cfg, s, steps[..k]).mutex.Free?
  }

  lemma ReleasesLater(cfg: Config, s: System, steps: seq<Step>)
    requires steps != [] && Releases(cfg, After(cfg, s, steps[0]), steps[1..])
    ensures Releases(cfg, s, steps)
  {
    var k :| 0 <= k <= |steps[1..]| && AfterAll(cfg, After(cfg, s, steps[0]), steps[1..][..k]).mutex.Free?;
    assert steps[..k + 1][0] == steps[0] && steps[..k + 1][1..] == steps[1..][..k];
    assert AfterAll(cfg, s, steps[..k + 1]).mutex.Free?;
  }

  lemma ReleasedAtOnce(cfg: Config, s: System, steps: seq<Step>)
    requires steps != [] && After(cfg, s, steps[0]).mutex.Free?
    ensures Releases(cfg, s, steps)
  {
    assert steps[1..][..0] == [];
    assert AfterAll(cfg, After(cfg, s, steps[0]), []).mutex.Free?;
    ReleasesLater(cfg, s, steps);
  }

  /** Whatever runs: the mutex is freed, or what is left has not grown. */
  lemma {:induction false} NeverMoreRemains(cfg: Config, s: System, steps: seq<Step>)
    requires Inv(s) && Closing(s) && forall x :: |cfg.h(x)| == 32
    ensures Releases(cfg, s, steps)
            || (Closing(AfterAll(cfg, s, steps)) && Remaining(AfterAll(cfg, s, steps)) <= Remaining(s) && |AfterAll(cfg, s, steps).workers| == |s.workers|)
    decreases |steps|
  {
    if steps != [] {
      var next := After(cfg, s, steps[0]);
      StepKeeps(cfg, s, steps[0]);
      StepAdvances(cfg, s, steps[0]);
      if next.mutex.Free? {
        ReleasedAtOnce(cfg, s, steps);
      } else {
        NeverMoreRemains(cfg, next, steps[1..]);
        if Releases(cfg, next, steps[1..]) {
          ReleasesLater(cfg, s, steps);
        }
      }
    }
  }

  /** A turn of a thread that can go on makes less remain, wherever in the run it comes. */
  lemma {:induction false} TurnAdvances(cfg: Config, s: System, steps: seq<Step>, thread: Thread)
    requires Inv(s) && Closing(s) && (forall x :: |cfg.h(x)| == 32) && IsLive(s, thread) && exists e :: e in steps && IsOf(e, thread)
    ensures Releases(cfg, s, steps)
            || (Closing(AfterAll(cfg, s, steps)) && Remaining(AfterAll(cfg, s, steps)) < Remaining(s) && |AfterAll(cfg, s, steps).workers| == |s.workers|)
    decreases |steps|
  {
    var next := After(cfg, s, steps[0]);
    StepKeeps(cfg, s, steps[0]);
    StepAdvances(cfg, s, steps[0]);
    if next.mutex.Free? {
      ReleasedAtOnce(cfg, s, steps);
    } else {
      if IsOf(steps[0], thread) {
        NeverMoreRemains(cfg, next, steps[1..]);
      } else {
        LiveStays(cfg, s, steps[0], thread);
        TurnAdvances(cfg, next, steps[1..], thread);
      }
      if Releases(cfg, next, steps[1..]) {
        ReleasesLater(cfg, s, steps);
      }
    }
  }

  /** Steps in which the loop and each of n workers have at least one turn, among any others. */
  ghost predicate IsRound(steps: seq<Step>, n: nat)
  {
    (exists e :: e in steps && IsOf(e, MainThread)) && forall i: nat :: i < n ==> exists e :: e in steps && IsOf(e, WorkerThread(i))
  }

  lemma RoundAdvances(cfg: Config, s: System, steps: seq<Step>)
    requires Inv(s) && Closing(s) && (forall x :: |cfg.h(x)| == 32) && IsRound(steps, |s.workers|)
    ensures Releases(cfg, s, steps)
            || (Closing(AfterAll(cfg, s, steps)) && Remaining(AfterAll(cfg, s, steps)) < Remaining(s) && |AfterAll(cfg, s, steps).workers| == |s.workers|)
  {
    if IsLive(s, MainThread) {
      TurnAdvances(cfg, s, steps, MainThread);
    } else {
      var i: nat :| i < |s.workers| && !s.workers[i].pc.Done?;
      TurnAdvances(cfg, s, steps, WorkerThread(i));
    }
  }

  function Joined(rounds: seq<seq<Step>>): seq<Step>
  {
    if rounds == [] then [] else rounds[0] + Joined(rounds[1..])
  }

  lemma {:induction false} AfterConcat(cfg: Config, s: System, a: seq<Step>, b: seq<Step>)
    ensures AfterAll(cfg, s, a + b) == AfterAll(cfg, AfterAll(cfg, s, a), b)
    decreases |a|
  {
    if a == [] {
      assert a + b == b;
    } else {
      assert (a + b)[0] == a[0] && (a + b)[1..] == a[1..] + b;
      AfterConcat(cfg, After(cfg, s, a[0]), a[1..], b);
    }
  }

  lemma ReleasesWithin(cfg: Config, s: System, a: seq<Step>, b: seq<Step>)
    ensures Releases(cfg, s, a) ==> Releases(cfg, s, a + b)
    ensures Releases(cfg, AfterAll(cfg, s, a), b) ==> Releases(cfg, s, a + b)
  {
    if Releases(cfg, s, a) {
      var k :| 0 <= k <= |a| && AfterAll(cfg, s, a[..k]).mutex.Free?;
      assert (a + b)[..k] == a[..k];
    }
    if Releases(cfg, AfterAll(cfg, s, a), b) {
      var k :| 0 <= k <= |b| && AfterAll(cfg, AfterAll(cfg, s, a), b[..k]).mutex.Free?;
      AfterConcat(cfg, s, a, b[..k]);
      assert (a + b)[..|a| + k] == a + b[..k];
    }
  }

  lemma {:induction false} RoundsRelease(cfg: Config, s: System, rounds: seq<seq<Step>>)
    requires Inv(s) && Closing(s) && (forall x :: |cfg.h(x)| == 32) && forall r :: r in rounds ==> IsRound(r, |s.workers|)
    requires |rounds| >= Remaining(s)
    ensures Releases(cfg, s, Joined(rounds))
    decreases |rounds|
  {
    RemainingBounded(s);
    var first, rest := rounds[0], rounds[1..];
    RoundAdvances(cfg, s, first);
    ReleasesWithin(cfg, s, first, Joined(rest));
    if !Releases(cfg, s, first) {
      EveryInterleavingConserves(cfg, s, first);
      RoundsRelease(cfg, AfterAll(cfg, s, first), rest);
    }
  }

  // ---- the call that waits -------------------------------------------------

  /** Nothing is taken from the queue, nothing returned, and no call gets past the mutex. */
  ghost predicate OnlyGrows(s: System, t: System)
  {
    && s.aggregations <= t.aggregations && t.returned == s.returned && |t.calls| == |s.calls|
    && forall j :: 0 <= j < |s.calls| && s.calls[j].CallLock? ==> t.calls[j].CallLock?
  }

  lemma StepOnlyGrows(cfg: Config, s: System, e: Step)
    requires Inv(s) && Closing(s)
    ensures OnlyGrows(s, After(cfg, s, e))
  {
    match e
    case WorkerStep(i, drand, ulid) =>
      if i < |s.workers| {
        WorkerOnlyGrows(cfg, s, i, Aggregated(cfg.h, s.workers[i].slice, drand, ulid));
      }
    case _ =>
  }

  lemma WorkerOnlyGrows(cfg: Config, s: System, i: nat, built: Aggregation)
    requires i < |s.workers|
    ensures OnlyGrows(s, AfterWorker(cfg, s, i, built))
  {
  }

  /** When the loop frees the mutex all workers are idle, the call still waits for it, and everything
      queued since the channel was closed is still queued. */
  lemma {:induction false} FirstRelease(cfg: Config, s: System, steps: seq<Step>) returns (k: nat)
    requires Inv(s) && Closing(s) && (forall x :: |cfg.h(x)| == 32) && Releases(cfg, s, steps)
    ensures k <= |steps| && Inv(AfterAll(cfg, s, steps[..k])) && AfterAll(cfg, s, steps[..k]).mutex.Free?
    ensures AllIdle(AfterAll(cfg, s, steps[..k])) && OnlyGrows(s, AfterAll(cfg, s, steps[..k]))
    decreases |steps|
  {
    var next := After(cfg, s, steps[0]);
    StepKeeps(cfg, s, steps[0]);
    StepOnlyGrows(cfg, s, steps[0]);
    StepAdvances(cfg, s, steps[0]);
    if next.mutex.Free? {
      k := 1;
      assert steps[..1][0] == steps[0] && steps[..1][1..] == [];
      assert AfterAll(cfg, next, []) == next;
      assert AfterAll(cfg, s, steps[..1]) == next;
    } else {
      ReleasesInRest(cfg, s, steps);
      var rest := FirstRelease(cfg, next, steps[1..]);
      k := rest + 1;
      assert steps[..k][0] == steps[0] && steps[..k][1..] == steps[1..][..rest];
    }
  }

  lemma ReleasesInRest(cfg: Config, s: System, steps: seq<Step>)
    requires Releases(cfg, s, steps) && !s.mutex.Free?
    ensures steps != [] && Releases(cfg, After(cfg, s, steps[0]), steps[1..])
  {
    var k :| 0 <= k <= |steps| && AfterAll(cfg, s, steps[..k]).mutex.Free?;
    assert k > 0;
    assert steps[..k][0] == steps[0] && steps[..k][1..] == steps[1..][..k - 1];
  }

  // ---- the drain ends ------------------------------------------------------

  function CallTurns(steps: seq<Step>, j: nat): nat
  {
    if steps == [] then 0 else (if steps[0] == CallStep(j) then 1 else 0) + CallTurns(steps[1..], j)
  }

  /** At some point of the run the call has returned exactly what was given, behind what others
      returned before, and left the queue empty and the mutex free. */
  ghost predicate EndsWith(cfg: Config, s: System, steps: seq<Step>, j: nat, returned: seq<Aggregation>, all: seq<Aggregation>)
    decreases |steps|
  {
    || (j < |s.calls| && s.calls[j].CallIdle? && s.aggregations == [] && s.mutex.Free? && s.returned == returned + all)
    || (steps != [] && EndsWith(cfg, After(cfg, s, steps[0]), steps[1..], j, returned, all))
  }

  /** A drain ends after as many turns of its own as there are aggregations queued, and one more,
      whatever the other threads do. */
  lemma {:induction false} DrainEnds(cfg: Config, s: System, steps: seq<Step>, j: nat)
    requires Inv(s) && (forall x :: |cfg.h(x)| == 32) && j < |s.calls| && s.calls[j].CallDrain?
    requires CallTurns(steps, j) > |s.aggregations|
    ensures EndsWith(cfg, s, steps, j, s.returned, s.calls[j].taken + s.aggregations)
    decreases |steps|
  {
    var next := After(cfg, s, steps[0]);
    StepKeeps(cfg, s, steps[0]);
    DrainStep(cfg, s, steps[0], j);
    DrainTurn(cfg, s, steps[0], j);
    if next.calls[j].CallDrain? {
      DrainEnds(cfg, next, steps[1..], j);
    } else {
      assert next.returned == s.returned + (s.calls[j].taken + s.aggregations);
    }
  }

  lemma DrainTurn(cfg: Config, s: System, e: Step, j: nat)
    requires Inv(s) && j < |s.calls| && s.calls[j].CallDrain?
    ensures var t := After(cfg, s, e);
            && (e == CallStep(j) && s.aggregations == [] ==> t.calls[j].CallIdle? && t.mutex.Free?)
            && (e == CallStep(j) && s.aggregations != [] ==> t.calls[j].CallDrain? && |t.aggregations| == |s.aggregations| - 1)
            && (e != CallStep(j) ==> t.calls[j].CallDrain? && t.aggregations == s.aggregations)
  {
    assert s.calls[j].left == |s.aggregations|;
    if e.WorkerStep? && e.worker < |s.workers| {
      assert WorkerOk(s.workers[e.worker]) && s.workers[e.worker] == IDLE;
    }
  }

  // ---- from the close to the return ----------------------------------------

  /** The channel is open only while the loop has workers running, none of which is on its way out. */
  ghost predicate RunsWhileOpen(s: System)
  {
    s.workers != [] && s.tempStop.Open? ==>
      && s.consume && (s.main.MainSpawn? || s.main.MainWait?)
      && forall i :: 0 <= i < |s.workers| && (s.main.MainSpawn? ==> i < s.main.next) ==> !s.workers[i].pc.Flush? && !s.workers[i].pc.Done?
  }

  lemma RunsWhileOpenKept(cfg: Config, s: System, e: Step)
    requires Inv(s) && RunsWhileOpen(s)
    ensures RunsWhileOpen(After(cfg, s, e)) && |After(cfg, s, e).workers| == |s.workers|
  {
    match e
    case AddItem(item) =>
    case MainStep => MainRunsWhileOpen(s);
    case WorkerStep(i, drand, ulid) =>
      if i < |s.workers| {
        WorkerRunsWhileOpen(cfg, s, i, Aggregated(cfg.h, s.workers[i].slice, drand, ulid));
      }
    case CallStep(j) =>
  }

  lemma MainRunsWhileOpen(s: System)
    requires Inv(s) && RunsWhileOpen(s)
    ensures RunsWhileOpen(AfterMain(s)) && |AfterMain(s).workers| == |s.workers|
  {
    if s.main.MainWait? && s.workers != [] {
      assert s.workers[0] in s.workers;
    }
  }

  lemma WorkerRunsWhileOpen(cfg: Config, s: System, i: nat, built: Aggregation)
    requires Inv(s) && RunsWhileOpen(s) && i < |s.workers|
    ensures RunsWhileOpen(AfterWorker(cfg, s, i, built)) && |AfterWorker(cfg, s, i, built).workers| == |s.workers|
  {
    assert WorkerOk(s.workers[i]);
    var t := AfterWorker(cfg, s, i, built);
    assert t.main == s.main && t.tempStop == s.tempStop;
    assert forall k :: 0 <= k < |s.workers| && k != i ==> t.workers[k] == s.workers[k];
  }

  lemma {:induction false} RunsWhileOpenInRun(cfg: Config, s: System, steps: seq<Step>)
    requires Inv(s) && RunsWhileOpen(s) && forall x :: |cfg.h(x)| == 32
    ensures RunsWhileOpen(AfterAll(cfg, s, steps)) && |AfterAll(cfg, s, steps).workers| == |s.workers|
    decreases |steps|
  {
    if steps != [] {
      StepKeeps(cfg, s, steps[0]);
      RunsWhileOpenKept(cfg, s, steps[0]);
      RunsWhileOpenInRun(cfg, After(cfg, s, steps[0]), steps[1..]);
    }
  }

  /** A call that finds the channel open closes it, and from then on the workers are being stopped. */
  lemma CallCloses(cfg: Config, s: System, j: nat)
    requires Inv(s) && RunsWhileOpen(s) && s.workers != [] && s.tempStop.Open? && j < |s.calls| && s.calls[j].CallIdle?
    ensures Closing(After(cfg, s, CallStep(j))) && After(cfg, s, CallStep(j)).calls[j].CallLock?
    ensures Inv(After(cfg, s, CallStep(j)))
  {
    CallKeeps(s, j);
  }

  /** The states that the loop with its workers and any calls reaches. */
  ghost predicate Reachable(cfg: Config, s: System)
  {
    exists s0, steps :: Init(s0) && AfterAll(cfg, s0, steps) == s
  }

  lemma ReachableKeeps(cfg: Config, s: System)
    requires Reachable(cfg, s) && forall x :: |cfg.h(x)| == 32
    ensures Inv(s) && RunsWhileOpen(s)
  {
    var s0, steps :| Init(s0) && AfterAll(cfg, s0, steps) == s;
    InitInv(s0);
    EveryInterleavingConserves(cfg, s0, steps);
    RunsWhileOpenInRun(cfg, s0, steps);
  }

  /** AggregateAndReset returns. From every reachable state in which it finds the channel open, at most
      8n + 3 rounds, in which the loop and each of the n workers have a turn among any others, stop
      all workers and free the mutex. If the call takes the mutex then, as many turns of its own as
      aggregations are queued, and one more, return all of them, and none was taken since the close. */
  lemma CallReturns(cfg: Config, s: System, j: nat, rounds: seq<seq<Step>>, rest: seq<Step>) returns (k: nat)
    requires Reachable(cfg, s) && (forall x :: |cfg.h(x)| == 32) && s.workers != [] && s.tempStop.Open? && j < |s.calls| && s.calls[j].CallIdle?
    requires |rounds| >= 8 * |s.workers| + 3 && forall r :: r in rounds ==> IsRound(r, |s.workers|)
    ensures k <= |Joined(rounds)|
    ensures var t := AfterAll(cfg, After(cfg, s, CallStep(j)), Joined(rounds)[..k]);
            && AllIdle(t) && t.mutex.Free? && OnlyGrows(After(cfg, s, CallStep(j)), t)
            && (CallTurns(rest, j) > |t.aggregations| ==> EndsWith(cfg, After(cfg, t, CallStep(j)), rest, j, t.returned, t.aggregations))
  {
    ReachableKeeps(cfg, s);
    CallCloses(cfg, s, j);
    var closed := After(cfg, s, CallStep(j));
    RemainingBounded(closed);
    RoundsRelease(cfg, closed, rounds);
    k := FirstRelease(cfg, closed, Joined(rounds));
    var t := AfterAll(cfg, closed, Joined(rounds)[..k]);
    if CallTurns(rest, j) > |t.aggregations| {
      LockDrains(cfg, t, j);
      DrainEnds(cfg, After(cfg, t, CallStep(j)), rest, j);
      assert [] + t.aggregations == t.aggregations;
    }
  }

  lemma LockDrains(cfg: Config, t: System, j: nat)
    requires Inv(t) && t.mutex.Free? && j < |t.calls| && t.calls[j].CallLock?
    ensures var d := After(cfg, t, CallStep(j));
            Inv(d) && d.calls == t.calls[j := CallDrain(|t.aggregations|, [])] && d.aggregations == t.aggregations && d.returned == t.returned
  {
    CallKeeps(t, j);
  }

  lemma FlushAppends(cfg: Config, s: System, i: nat, built: Aggregation)
    requires i < |s.workers| && s.workers[i].pc.Flush? && s.workers[i].slice != [] && built.aggRoot != ""
    ensures AfterWorker(cfg, s, i, built).aggregations == s.aggregations + [built]
  {
  }

  /** A worker on its way out queues the tree of its slice, if it has one and gets a ULID, and the
      queue only grows until a call drains it. */
  lemma FlushQueues(cfg: Config, s: System, i: nat, drand: string, ulid: string)
    requires i < |s.workers| && s.workers[i].pc.Flush? && s.workers[i].slice != [] && forall x :: |cfg.h(x)| == 32
    ensures var t := After(cfg, s, WorkerStep(i, drand, Some(ulid)));
            exists built :: t.aggregations == s.aggregations + [built] && Items(built) == s.workers[i].slice
  {
    var built := Aggregated(cfg.h, s.workers[i].slice, drand, Some(ulid));
    AggregationItems(cfg.h, s.workers[i].slice, drand, ulid);
    FlushAppends(cfg, s, i, built);
  }

  // ---- batches -------------------------------------------------------------

  ghost predicate SmallTrees(cfg: Config, aggs: seq<Aggregation>)
  {
    forall g :: g in aggs ==> |g.aggStates| <= cfg.batchSize + 1
  }

  /** A worker builds a tree as soon as it has one item more than a batch holds, so no tree has more. */
  ghost predicate BatchesFit(cfg: Config, s: System)
  {
    && (forall w :: w in s.workers ==> if w.pc.Full? then |w.slice| == cfg.batchSize + 1 else |w.slice| <= cfg.batchSize)
    && SmallTrees(cfg, s.aggregations) && SmallTrees(cfg, s.returned)
    && forall j :: 0 <= j < |s.calls| && s.calls[j].CallDrain? ==> SmallTrees(cfg, s.calls[j].taken)
  }

  /** Every tree that a worker builds gets a ULID. */
  predicate UlidsMade(e: Step)
  {
    e.WorkerStep? ==> e.ulid.Some?
  }

  lemma WorkerFrame(cfg: Config, s: System, i: nat, built: Aggregation)
    requires i < |s.workers|
    ensures var t := AfterWorker(cfg, s, i, built);
            && t.calls == s.calls && t.returned == s.returned && (t.aggregations == s.aggregations || t.aggregations == s.aggregations + [built])
            && |t.workers| == |s.workers| && t.workers == s.workers[i := t.workers[i]]
  {
  }

  lemma WorkerSliceFits(cfg: Config, s: System, i: nat, built: Aggregation)
    requires BatchesFit(cfg, s) && i < |s.workers| && WorkerOk(s.workers[i]) && (s.workers[i].slice != [] ==> built.aggRoot != "")
    ensures var w := AfterWorker(cfg, s, i, built).workers[i]; if w.pc.Full? then |w.slice| == cfg.batchSize + 1 else |w.slice| <= cfg.batchSize
  {
    assert s.workers[i] in s.workers;
  }

  lemma WorkerBatchFits(cfg: Config, s: System, i: nat, built: Aggregation)
    requires Inv(s) && BatchesFit(cfg, s) && i < |s.workers| && |built.aggStates| == |s.workers[i].slice|
    requires s.workers[i].slice != [] ==> built.aggRoot != ""
    ensures BatchesFit(cfg, AfterWorker(cfg, s, i, built))
  {
    assert WorkerOk(s.workers[i]) && s.workers[i] in s.workers;
    WorkerFrame(cfg, s, i, built);
    WorkerSliceFits(cfg, s, i, built);
  }

  lemma CallBatchFits(cfg: Config, s: System, j: nat)
    requires BatchesFit(cfg, s) && j < |s.calls|
    ensures BatchesFit(cfg, AfterCall(s, j))
  {
  }

  lemma BatchStep(cfg: Config, s: System, e: Step)
    requires Inv(s) && BatchesFit(cfg, s) && UlidsMade(e) && forall x :: |cfg.h(x)| == 32
    ensures BatchesFit(cfg, After(cfg, s, e))
  {
    match e
    case AddItem(item) =>
    case MainStep =>
    case WorkerStep(i, drand, ulid) =>
      if i < |s.workers| {
        TreeTakesSlice(cfg.h, s.workers[i].slice, drand, ulid);
        WorkerBatchFits(cfg, s, i, Aggregated(cfg.h, s.workers[i].slice, drand, ulid));
      }
    case CallStep(j) => if j < |s.calls| { CallBatchFits(cfg, s, j); }
  }

  /** Over every run in which each tree gets a ULID. */
  lemma {:induction false} EveryBatchFits(cfg: Config, s: System, steps: seq<Step>)
    requires Inv(s) && BatchesFit(cfg, s) && (forall e :: e in steps ==> UlidsMade(e)) && forall x :: |cfg.h(x)| == 32
    ensures BatchesFit(cfg, AfterAll(cfg, s, steps))
    decreases |steps|
  {
    if steps != [] {
      assert steps[0] in steps;
      StepKeeps(cfg, s, steps[0]);
      BatchStep(cfg, s, steps[0]);
      EveryBatchFits(cfg, After(cfg, s, steps[0]), steps[1..]);
    }
  }

  // ---- order ---------------------------------------------------------------

  /** What waits in the queue is what was added last, in that order. */
  ghost predicate OldestFirst(s: System)
  {
    |s.hashItems| <= |s.added| && s.hashItems == s.added[|s.added| - |s.hashItems|..]
  }

  /** Over every run items leave the queue in the order in which they were added. */
  lemma {:induction false} QueueIsInOrder(cfg: Config, s: System, steps: seq<Step>)
    requires OldestFirst(s)
    ensures OldestFirst(AfterAll(cfg, s, steps))
    decreases |steps|
  {
    if steps != [] {
      QueueStep(cfg, s, steps[0]);
      QueueIsInOrder(cfg, After(cfg, s, steps[0]), steps[1..]);
    }
  }

  lemma WorkerTakesOldest(cfg: Config, s: System, i: nat, built: Aggregation)
    requires i < |s.workers|
    ensures var t := AfterWorker(cfg, s, i, built);
            t.added == s.added && (t.hashItems == s.hashItems || (s.hashItems != [] && t.hashItems == s.hashItems[1..]))
  {
  }

  lemma AddedBehind(s: System, item: HashItem)
    requires OldestFirst(s)
    ensures OldestFirst(s.(hashItems := s.hashItems + [item], added := s.added + [item]))
  {
    var n := |s.added| - |s.hashItems|;
    assert (s.added + [item])[n..] == s.added[n..] + [item];
  }

  lemma OldestTaken(s: System, t: System)
    requires OldestFirst(s) && t.added == s.added
    requires t.hashItems == s.hashItems || (s.hashItems != [] && t.hashItems == s.hashItems[1..])
    ensures OldestFirst(t)
  {
  }

  lemma QueueStep(cfg: Config, s: System, e: Step)
    requires OldestFirst(s)
    ensures OldestFirst(After(cfg, s, e))
  {
    match e
    case AddItem(item) => AddedBehind(s, item);
    case MainStep => assert AfterMain(s).hashItems == s.hashItems && AfterMain(s).added == s.added;
    case WorkerStep(i, drand, ulid) =>
      if i < |s.workers| {
        var built := Aggregated(cfg.h, s.workers[i].slice, drand, ulid);
        WorkerTakesOldest(cfg, s, i, built);
        OldestTaken(s, AfterWorker(cfg, s, i, built));
      }
    case CallStep(j) => if j < |s.calls| { CallLeavesItems(s, j); }
  }

  lemma CallLeavesItems(s: System, j: nat)
    requires j < |s.calls|
    ensures AfterCall(s, j).hashItems == s.hashItems && AfterCall(s, j).added == s.added
  {
  }

  // ---- while the channel is open -------------------------------------------

  /** The loop makes an open channel and lets its workers consume; only a call closes it, and only a
      worker that finds it closed tells the others to stop. */
  lemma OnlyCallsStop(cfg: Config, s: System, e: Step)
    ensures s.main.MainMake? && e.MainStep? ==> After(cfg, s, e).tempStop.Open? && After(cfg, s, e).consume
    ensures s.tempStop.Open? && !e.CallStep? ==> After(cfg, s, e).tempStop.Open? && After(cfg, s, e).consume == (s.consume || (s.main.MainMake? && e.MainStep?))
  {
    if e.WorkerStep? && e.worker < |s.workers| && s.tempStop.Open? {
      OpenWorkerConsumes(cfg, s, e.worker, Aggregated(cfg.h, s.workers[e.worker].slice, e.drand, e.ulid));
    }
  }

  lemma OpenWorkerConsumes(cfg: Config, s: System, i: nat, built: Aggregation)
    requires i < |s.workers| && s.tempStop.Open?
    ensures AfterWorker(cfg, s, i, built).tempStop.Open? && AfterWorker(cfg, s, i, built).consume == s.consume
  {
  }

  /** Then four turns of a worker at the head of its loop put the oldest item, if it has a hash, behind
      those it has. */
  lemma TurnsTakeOldest(cfg: Config, s: System, i: nat, turn: Step)
    requires i < |s.workers| && s.workers[i].pc.Check? && s.consume && s.tempStop.Open? && s.hashItems != [] && s.hashItems[0].hash != ""
    requires turn.WorkerStep? && turn.worker == i
    ensures var t := After(cfg, After(cfg, After(cfg, After(cfg, s, turn), turn), turn), turn);
            && t.hashItems == s.hashItems[1..] && i < |t.workers| && t.workers[i].slice == s.workers[i].slice + [s.hashItems[0]]
            && t.tempStop.Open? && t.consume
  {
    var w := s.workers[i];
    var a := After(cfg, s, turn);
    assert a == s.(workers := s.workers[i := w.(pc := Select)]);
    var b := After(cfg, a, turn);
    assert b == s.(workers := s.workers[i := w.(pc := Take)]);
    var c := After(cfg, b, turn);
    assert c == s.(hashItems := s.hashItems[1..], workers := s.workers[i := w.(pc := Hold, hand := Some(s.hashItems[0]))]);
  }
}
