/** The token bucket of txratelimiter/validation.go, counted in tokens times PerBlocks, and
    the sliding windows it is exactly. */
module TokenBucket {

  /** scaled is the bucket times perBlocks: a token is perBlocks, a block adds allowedRate. */
  datatype RateLimit = RateLimit(allowedRate: int, perBlocks: int, lastCheck: int, scaled: int)

  /** A transaction that meets the limiter: whether it would be accepted with tokens left, and
      whether it is accepted without. */
  datatype Attempt = Attempt(height: int, qualifies: bool, exempt: bool)

  function Refilled(l: RateLimit, height: int): RateLimit
  {
    var filled := l.scaled + (height - l.lastCheck) * l.allowedRate;
    var full := l.allowedRate * l.perBlocks;
    l.(lastCheck := height, scaled := if filled > full then full else filled)
  }

  predicate IsHabitualViolator(l: RateLimit)
  {
    l.scaled < l.perBlocks
  }

  function Spent(l: RateLimit): RateLimit
  {
    l.(scaled := l.scaled - l.perBlocks)
  }

  predicate Passes(l: RateLimit, a: Attempt)
  {
    a.qualifies && (a.exempt || !IsHabitualViolator(l))
  }

  function AfterAttempt(l: RateLimit, a: Attempt): RateLimit
  {
    var filled := Refilled(l, a.height);
    if Passes(filled, a) then Spent(filled) else filled
  }

  function AfterAttempts(l: RateLimit, attempts: seq<Attempt>): RateLimit
  {
    if attempts == [] then l else AfterAttempt(AfterAttempts(l, attempts[..|attempts| - 1]), attempts[|attempts| - 1])
  }

  /** The bucket as the last attempt finds it. */
  function Before(l: RateLimit, attempts: seq<Attempt>): RateLimit
    requires attempts != []
  {
    Refilled(AfterAttempts(l, attempts[..|attempts| - 1]), attempts[|attempts| - 1].height)
  }

  /** What the bucket decides, attempt by attempt. */
  function Decisions(l: RateLimit, attempts: seq<Attempt>): (d: seq<bool>)
    ensures |d| == |attempts|
  {
    if attempts == [] then []
    else Decisions(l, attempts[..|attempts| - 1]) + [Passes(Before(l, attempts), attempts[|attempts| - 1])]
  }

  // ---- windows -------------------------------------------------------------

  /** How many of the decisions from j on are acceptances. */
  function Accepted(d: seq<bool>, j: nat): nat
  {
    if |d| <= j then 0 else Accepted(d[..|d| - 1], j) + if d[|d| - 1] then 1 else 0
  }

  /** What the window that starts at attempt j leaves at a height: a full allowance plus the
      refill since, less what was accepted. */
  function Room(l: RateLimit, attempts: seq<Attempt>, d: seq<bool>, j: nat, height: int): int
    requires j < |attempts|
  {
    l.allowedRate * l.perBlocks + (height - attempts[j].height) * l.allowedRate - Accepted(d, j) * l.perBlocks
  }

  /** What the initial bucket and all refills leave. */
  function RoomOverall(l: RateLimit, d: seq<bool>, height: int): int
  {
    l.scaled + (height - l.lastCheck) * l.allowedRate - Accepted(d, 0) * l.perBlocks
  }

  /** Whether the last attempt finds at least x in every window and overall. */
  ghost predicate RoomFor(l: RateLimit, attempts: seq<Attempt>, d: seq<bool>, x: int)
    requires attempts != [] && |d| == |attempts| - 1
  {
    var height := attempts[|attempts| - 1].height;
    && RoomOverall(l, d, height) >= x
    && (forall j :: 0 <= j < |attempts| ==> Room(l, attempts, d, j, height) >= x)
  }

  /** The decisions of a limiter that keeps no bucket: accept what leaves no window, from any
      attempt to now or from the start, with more than its allowance. */
  ghost function WindowDecisions(l: RateLimit, attempts: seq<Attempt>): (d: seq<bool>)
    ensures |d| == |attempts|
  {
    if attempts == [] then []
    else
      var d := WindowDecisions(l, attempts[..|attempts| - 1]);
      var a := attempts[|attempts| - 1];
      d + [a.qualifies && (a.exempt || RoomFor(l, attempts, d, l.perBlocks))]
  }

  lemma RoomMoves(l: RateLimit, attempts: seq<Attempt>, d: seq<bool>, last: bool, j: nat, from: int, to: int)
    requires j < |attempts| && j <= |d|
    ensures Room(l, attempts, d + [last], j, to) ==
            Room(l, attempts, d, j, from) + (to - from) * l.allowedRate - (if last then l.perBlocks else 0)
  {
    assert (d + [last])[..|d|] == d;
    calc {
      (to - attempts[j].height) * l.allowedRate;
      ((from - attempts[j].height) + (to - from)) * l.allowedRate;
      (from - attempts[j].height) * l.allowedRate + (to - from) * l.allowedRate;
    }
    assert (Accepted(d, j) + 1) * l.perBlocks == Accepted(d, j) * l.perBlocks + l.perBlocks;
  }

  lemma RoomOverallMoves(l: RateLimit, d: seq<bool>, last: bool, from: int, to: int)
    ensures RoomOverall(l, d + [last], to) ==
            RoomOverall(l, d, from) + (to - from) * l.allowedRate - (if last then l.perBlocks else 0)
  {
    assert (d + [last])[..|d|] == d;
    calc {
      (to - l.lastCheck) * l.allowedRate;
      ((from - l.lastCheck) + (to - from)) * l.allowedRate;
      (from - l.lastCheck) * l.allowedRate + (to - from) * l.allowedRate;
    }
    assert (Accepted(d, 0) + 1) * l.perBlocks == Accepted(d, 0) * l.perBlocks + l.perBlocks;
  }

  lemma {:induction false} LimitStays(l: RateLimit, attempts: seq<Attempt>)
    ensures AfterAttempts(l, attempts).allowedRate == l.allowedRate && AfterAttempts(l, attempts).perBlocks == l.perBlocks
    ensures AfterAttempts(l, attempts).lastCheck == if attempts == [] then l.lastCheck else attempts[|attempts| - 1].height
  {
    if attempts != [] {
      LimitStays(l, attempts[..|attempts| - 1]);
    }
  }

  /** The bucket an attempt finds is the least room of any window and overall. */
  lemma {:induction false} BucketIsLeastRoom(l: RateLimit, attempts: seq<Attempt>, x: int)
    requires attempts != []
    ensures Before(l, attempts).scaled >= x <==> RoomFor(l, attempts, Decisions(l, attempts[..|attempts| - 1]), x)
  {
    var n := |attempts| - 1;
    var front := attempts[..n];
    var d := Decisions(l, front);
    LimitStays(l, front);
    assert Accepted(d, n) == 0;
    assert Room(l, attempts, d, n, attempts[n].height) == l.allowedRate * l.perBlocks;
    if n == 0 {
      assert Accepted(d, 0) == 0;
    } else {
      var was, now := attempts[n - 1].height, attempts[n].height;
      var earlier, last := Decisions(l, front[..n - 1]), d[n - 1];
      assert d == earlier + [last];
      var moved := x - (now - was) * l.allowedRate + (if last then l.perBlocks else 0);
      BucketIsLeastRoom(l, front, moved);
      RoomOverallMoves(l, earlier, last, was, now);
      forall j | 0 <= j < n
        ensures Room(l, attempts, d, j, now) >= x <==> Room(l, front, earlier, j, was) >= moved {
        RoomMoves(l, attempts, earlier, last, j, was, now);
        assert Room(l, attempts, earlier, j, was) == Room(l, front, earlier, j, was);
      }
      assert AfterAttempts(l, front).scaled == Before(l, front).scaled - (if last then l.perBlocks else 0);
    }
  }

  /** The bucket decides exactly what the windows decide. */
  lemma {:induction false} BucketIsWindows(l: RateLimit, attempts: seq<Attempt>)
    ensures Decisions(l, attempts) == WindowDecisions(l, attempts)
  {
    if attempts != [] {
      var front := attempts[..|attempts| - 1];
      BucketIsWindows(l, front);
      LimitStays(l, front);
      BucketIsLeastRoom(l, attempts, l.perBlocks);
    }
  }

  // ---- bounds --------------------------------------------------------------

  ghost predicate Ascending(l: RateLimit, attempts: seq<Attempt>)
  {
    && (forall i, j :: 0 <= i < j < |attempts| ==> attempts[i].height <= attempts[j].height)
    && (forall i :: 0 <= i < |attempts| ==> l.lastCheck <= attempts[i].height)
  }

  ghost predicate Within(l: RateLimit)
  {
    l.allowedRate >= 0 && l.perBlocks > 0 && 0 <= l.scaled <= l.allowedRate * l.perBlocks
  }

  lemma RefillStaysWithin(l: RateLimit, height: int)
    requires height >= l.lastCheck && l.allowedRate >= 0
    ensures Refilled(l, height).scaled <= l.allowedRate * l.perBlocks
    ensures Within(l) ==> Within(Refilled(l, height))
  {
    assert (height - l.lastCheck) * l.allowedRate >= 0;
  }

  lemma AttemptStaysWithin(l: RateLimit, a: Attempt)
    requires a.height >= l.lastCheck && l.allowedRate >= 0 && l.perBlocks > 0
    ensures AfterAttempt(l, a).scaled <= l.allowedRate * l.perBlocks
    ensures Within(l) && !a.exempt ==> Within(AfterAttempt(l, a))
  {
    RefillStaysWithin(l, a.height);
  }

  lemma {:induction false} BucketNeverOverflows(l: RateLimit, attempts: seq<Attempt>)
    requires Ascending(l, attempts) && Within(l)
    ensures AfterAttempts(l, attempts).scaled <= l.allowedRate * l.perBlocks
  {
    if attempts != [] {
      LimitStays(l, attempts[..|attempts| - 1]);
      AttemptStaysWithin(AfterAttempts(l, attempts[..|attempts| - 1]), attempts[|attempts| - 1]);
    }
  }

  /** Over non-decreasing heights and without exempt attempts the bucket stays between empty
      and full. */
  lemma {:induction false} BucketStaysWithin(l: RateLimit, attempts: seq<Attempt>)
    requires Ascending(l, attempts) && Within(l) && forall a :: a in attempts ==> !a.exempt
    ensures Within(AfterAttempts(l, attempts))
  {
    if attempts != [] {
      var n := |attempts| - 1;
      BucketStaysWithin(l, attempts[..n]);
      LimitStays(l, attempts[..n]);
      assert attempts[n] in attempts;
      AttemptStaysWithin(AfterAttempts(l, attempts[..n]), attempts[n]);
    }
  }

  /** No window that ends at the last attempt holds more than its allowance, and neither does
      the whole run. */
  ghost predicate NoneOverruns(l: RateLimit, attempts: seq<Attempt>, d: seq<bool>)
    requires |d| == |attempts|
  {
    attempts != [] ==>
      var height := attempts[|attempts| - 1].height;
      && RoomOverall(l, d, height) >= 0
      && forall j :: 0 <= j < |attempts| ==> Room(l, attempts, d, j, height) >= 0
  }

  /** No window from an attempt to the last one, and not the whole run, holds more acceptances
      than its allowance. */
  lemma NoWindowOverruns(l: RateLimit, attempts: seq<Attempt>)
    requires Ascending(l, attempts) && Within(l) && forall a :: a in attempts ==> !a.exempt
    ensures NoneOverruns(l, attempts, Decisions(l, attempts))
  {
    if attempts != [] {
      var n := |attempts| - 1;
      var d, last := Decisions(l, attempts[..n]), Decisions(l, attempts)[n];
      LeastRoomLeft(l, attempts);
      assert Decisions(l, attempts) == d + [last];
      RoomTaken(l, attempts, d, last);
    }
  }

  /** With room for the last attempt, nothing overruns once it is taken. */
  lemma RoomTaken(l: RateLimit, attempts: seq<Attempt>, d: seq<bool>, last: bool)
    requires attempts != [] && |d| == |attempts| - 1 && RoomFor(l, attempts, d, if last then l.perBlocks else 0)
    ensures NoneOverruns(l, attempts, d + [last])
  {
    var height := attempts[|attempts| - 1].height;
    RoomOverallMoves(l, d, last, height, height);
    forall j | 0 <= j < |attempts| ensures Room(l, attempts, d + [last], j, height) >= 0 {
      RoomMoves(l, attempts, d, last, j, height, height);
      assert Room(l, attempts, d, j, height) >= if last then l.perBlocks else 0;
    }
  }

  /** The last attempt finds room for itself if it is accepted, and no less than none if not. */
  lemma LeastRoomLeft(l: RateLimit, attempts: seq<Attempt>)
    requires attempts != [] && Ascending(l, attempts) && Within(l) && forall a :: a in attempts ==> !a.exempt
    ensures RoomFor(l, attempts, Decisions(l, attempts[..|attempts| - 1]), if Decisions(l, attempts)[|attempts| - 1] then l.perBlocks else 0)
  {
    var n := |attempts| - 1;
    assert attempts[n] in attempts;
    BucketStaysWithin(l, attempts[..n]);
    LimitStays(l, attempts[..n]);
    RefillStaysWithin(AfterAttempts(l, attempts[..n]), attempts[n].height);
    BucketIsLeastRoom(l, attempts, if Decisions(l, attempts)[n] then l.perBlocks else 0);
  }

  /** Both bounds, and the windows: the lower one and the windows for as long as no attempt is
      exempt. */
  lemma AttemptsBounded(l: RateLimit, attempts: seq<Attempt>)
    requires Ascending(l, attempts) && Within(l)
    ensures AfterAttempts(l, attempts).scaled <= l.allowedRate * l.perBlocks
    ensures AfterAttempts(l, attempts).allowedRate == l.allowedRate && AfterAttempts(l, attempts).perBlocks == l.perBlocks
    ensures (forall a :: a in attempts ==> !a.exempt) ==>
              AfterAttempts(l, attempts).scaled >= 0 && NoneOverruns(l, attempts, WindowDecisions(l, attempts))
  {
    LimitStays(l, attempts);
    BucketNeverOverflows(l, attempts);
    if forall a :: a in attempts ==> !a.exempt {
      BucketStaysWithin(l, attempts);
      NoWindowOverruns(l, attempts);
      BucketIsWindows(l, attempts);
    }
  }
}
