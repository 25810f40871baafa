/** Missed-tick scanning over an abstract cron schedule, and how repeated passes catch
    up with a long backlog. */
module CronScan {
  import opened Types

  const MAX_MISSED_SCANS := 80
  const SCAN_LIMIT: nat := MAX_MISSED_SCANS + 1
  const DEFAULT_STARTING_DEADLINE: int := 200 * SECOND

  /** `next(t)` is the first tick after t: later than t, and the answer for every
      instant in between. Holds for schedules that fire again and again. */
  ghost predicate Satisfiable(next: int -> int) {
    && (forall t :: next(t) > t)
    && (forall t, u :: t <= u < next(t) ==> next(u) == next(t))
  }

  /** `next(t)` is later than t, whatever it may be: all that a schedule counted from the
      last tick promises. */
  ghost predicate Increasing(next: int -> int) {
    forall t :: next(t) > t
  }

  ghost predicate IsTick(next: int -> int, x: int) {
    next(x - 1) == x
  }

  /** The k-th tick after `from`. */
  function Tick(next: int -> int, from: int, k: nat): int
    decreases k
  {
    if k == 0 then from else Tick(next, next(from), k - 1)
  }

  /** How many ticks in a row, up to `limit`, are not after `now`. */
  function Missed(next: int -> int, from: int, now: int, limit: nat): nat
    decreases limit
  {
    if limit == 0 || next(from) > now then 0 else 1 + Missed(next, next(from), now, limit - 1)
  }

  datatype Scan = Scan(lastMissed: Option<int>, next: int, tooMany: bool)

  function ScanOf(next: int -> int, earliest: int, now: int): Scan {
    var n := Missed(next, earliest, now, SCAN_LIMIT);
    if n == SCAN_LIMIT then Scan(Some(Tick(next, earliest, n)), next(now), true)
    else Scan(if n == 0 then None else Some(Tick(next, earliest, n)), Tick(next, earliest, n + 1), false)
  }

  lemma {:induction false} TickStep(next: int -> int, from: int, k: nat)
    ensures Tick(next, from, k + 1) == next(Tick(next, from, k))
    decreases k
  {
    if k > 0 { TickStep(next, next(from), k - 1); }
  }

  lemma {:induction false} TickAppend(next: int -> int, from: int, j: nat, k: nat)
    ensures Tick(next, Tick(next, from, j), k) == Tick(next, from, j + k)
    decreases j
  {
    if j > 0 { TickAppend(next, next(from), j - 1, k); }
  }

  /** Missed counts exactly the leading ticks that are not after now. */
  lemma {:induction false} MissedMeaning(next: int -> int, from: int, now: int, limit: nat)
    ensures var n := Missed(next, from, now, limit);
      && n <= limit
      && (forall k :: 1 <= k <= n ==> Tick(next, from, k) <= now)
      && (n < limit ==> Tick(next, from, n + 1) > now)
    decreases limit
  {
    if limit > 0 && next(from) <= now {
      MissedMeaning(next, next(from), now, limit - 1);
      var n := Missed(next, next(from), now, limit - 1);
      forall k | 1 <= k <= n + 1
        ensures Tick(next, from, k) <= now
      {
        if k == 1 {
          assert Tick(next, next(from), 0) == next(from);
        } else {
          assert Tick(next, from, k) == Tick(next, next(from), k - 1);
        }
      }
    }
  }

  lemma {:induction false} MissedUnique(next: int -> int, from: int, now: int, limit: nat, n: nat)
    requires n <= limit
    requires forall k :: 1 <= k <= n ==> Tick(next, from, k) <= now
    requires n < limit ==> Tick(next, from, n + 1) > now
    ensures Missed(next, from, now, limit) == n
    decreases limit
  {
    if n == 0 {
      if limit > 0 { assert Tick(next, from, 1) == Tick(next, next(from), 0); }
    } else {
      assert Tick(next, from, 1) == Tick(next, next(from), 0);
      forall k | 1 <= k <= n - 1
        ensures Tick(next, next(from), k) <= now
      {
        assert Tick(next, from, k + 1) == Tick(next, next(from), k);
      }
      assert Tick(next, from, n + 1) == Tick(next, next(from), n);
      MissedUnique(next, next(from), now, limit - 1, n - 1);
    }
  }

  /** The scan loop; it ends after at most 81 ticks whatever `next` returns. */
  method MostRecentScheduleTime(next: int -> int, earliest: int, now: int)
    returns (lastMissed: Option<int>, nextTick: int, tooMany: bool)
    ensures Scan(lastMissed, nextTick, tooMany) == ScanOf(next, earliest, now)
  {
    lastMissed := None;
    var count: nat := 0;
    var t := next(earliest);
    assert t == Tick(next, earliest, 1);
    while t <= now
      invariant count <= MAX_MISSED_SCANS
      invariant t == Tick(next, earliest, count + 1)
      invariant forall k :: 1 <= k <= count ==> Tick(next, earliest, k) <= now
      invariant lastMissed == if count == 0 then None else Some(Tick(next, earliest, count))
      decreases MAX_MISSED_SCANS - count
    {
      lastMissed := Some(t);
      count := count + 1;
      if count > MAX_MISSED_SCANS {
        MissedUnique(next, earliest, now, SCAN_LIMIT, count);
        return lastMissed, next(now), true;
      }
      TickStep(next, earliest, count);
      t := next(t);
    }
    MissedUnique(next, earliest, now, SCAN_LIMIT, count);
    return lastMissed, t, false;
  }

  // ----------------------------------------------------- ticks of a schedule

  lemma {:induction false} TicksIncrease(next: int -> int, from: int, j: nat, k: nat)
    requires Satisfiable(next) && j < k
    ensures Tick(next, from, j) < Tick(next, from, k)
    decreases k
  {
    TickStep(next, from, k - 1);
    if j < k - 1 { TicksIncrease(next, from, j, k - 1); }
  }

  lemma {:induction false} TickIsLater(next: int -> int, from: int, k: nat)
    requires Increasing(next) && k > 0
    ensures Tick(next, from, k) > from
    decreases k
  {
    TickStep(next, from, k - 1);
    if k > 1 { TickIsLater(next, from, k - 1); }
  }

  /** What a scan finds was missed, and is what `next` gave for some instant. */
  lemma ScanGoesForward(next: int -> int, earliest: int, now: int) returns (t: int)
    requires Increasing(next) && ScanOf(next, earliest, now).lastMissed.Some?
    ensures var tick := ScanOf(next, earliest, now).lastMissed.value; earliest < tick <= now && tick == next(t)
  {
    hide Tick, Missed, Increasing;
    var n := Missed(next, earliest, now, SCAN_LIMIT);
    MissedMeaning(next, earliest, now, SCAN_LIMIT);
    TickIsLater(next, earliest, n);
    TickStep(next, earliest, n - 1);
    t := Tick(next, earliest, n - 1);
  }

  /** Ticks after `from` are exactly the values Tick enumerates, without a gap. */
  lemma {:induction false} NoTickBetween(next: int -> int, from: int, k: nat, x: int)
    requires Satisfiable(next) && IsTick(next, x) && Tick(next, from, k) < x
    ensures Tick(next, from, k + 1) <= x
  {
    TickStep(next, from, k);
    var t := Tick(next, from, k);
    assert x < next(t) ==> next(x - 1) == next(t);
  }

  lemma TickIsTick(next: int -> int, from: int, k: nat)
    requires Satisfiable(next) && k > 0
    ensures IsTick(next, Tick(next, from, k))
  {
    TickStep(next, from, k - 1);
    var t := Tick(next, from, k - 1);
    assert next(next(t) - 1) == next(t);
  }

  /** The first tick after `now`. */
  ghost predicate IsNextTick(next: int -> int, now: int, x: int) {
    IsTick(next, x) && x > now && forall y :: IsTick(next, y) && y > now ==> x <= y
  }

  lemma NextIsNextTick(next: int -> int, now: int)
    requires Satisfiable(next)
    ensures IsNextTick(next, now, next(now))
  {
    TickIsTick(next, now, 1);
    assert Tick(next, next(now), 0) == next(now);
    forall y | IsTick(next, y) && y > now
      ensures next(now) <= y
    {
      NoTickBetween(next, now, 0, y);
    }
  }

  lemma NoneLeft(next: int -> int, from: int, k: nat, now: int)
    requires Satisfiable(next) && Tick(next, from, k + 1) > now
    ensures forall x :: IsTick(next, x) && x > Tick(next, from, k) ==> x > now
  {
    forall x | IsTick(next, x) && x > Tick(next, from, k)
      ensures x > now
    {
      NoTickBetween(next, from, k, x);
    }
  }

  /** Without the cap the scan finds the latest missed tick, if any. */
  lemma ScanFindsLatest(next: int -> int, earliest: int, now: int)
    requires Satisfiable(next) && !ScanOf(next, earliest, now).tooMany
    ensures var s := ScanOf(next, earliest, now);
      && (s.lastMissed.Some? ==> var l := s.lastMissed.value;
            IsTick(next, l) && earliest < l <= now && forall x :: IsTick(next, x) && x > l ==> x > now)
      && (s.lastMissed.None? ==> forall x :: IsTick(next, x) && x > earliest ==> x > now)
      && (earliest <= now ==> IsNextTick(next, now, s.next))
      && s.next > now
  {
    hide Tick, Missed, IsTick, IsNextTick, Satisfiable;
    var n := Missed(next, earliest, now, SCAN_LIMIT);
    MissedMeaning(next, earliest, now, SCAN_LIMIT);
    NoneLeft(next, earliest, n, now);
    if n > 0 {
      TickIsTick(next, earliest, n);
      TicksIncrease(next, earliest, 0, n);
    }
    assert Tick(next, earliest, 0) == earliest by { TickZero(next, earliest); }
    if earliest <= now {
      NextAfterLast(next, earliest, n, now);
    }
  }

  lemma TickZero(next: int -> int, from: int)
    ensures Tick(next, from, 0) == from && Tick(next, from, 1) == next(from)
  {
    assert Tick(next, next(from), 0) == next(from);
  }

  lemma NextAfterLast(next: int -> int, from: int, n: nat, now: int)
    requires Satisfiable(next) && Tick(next, from, n) <= now < Tick(next, from, n + 1)
    ensures IsNextTick(next, now, Tick(next, from, n + 1))
  {
    TickIsTick(next, from, n + 1);
    forall y | IsTick(next, y) && y > now
      ensures Tick(next, from, n + 1) <= y
    {
      NoTickBetween(next, from, n, y);
    }
  }

  /** With the cap it stops at the 81st tick after `earliest`, which is the latest missed
      tick exactly when no 82nd one was missed; the next tick is right all the same. */
  lemma CappedScan(next: int -> int, earliest: int, now: int)
    requires Satisfiable(next) && ScanOf(next, earliest, now).tooMany
    ensures var s := ScanOf(next, earliest, now);
      && s.lastMissed == Some(Tick(next, earliest, 81))
      && IsTick(next, s.lastMissed.value) && earliest < s.lastMissed.value <= now
      && ((forall x :: IsTick(next, x) && x > s.lastMissed.value ==> x > now) <==> Tick(next, earliest, 82) > now)
      && IsNextTick(next, now, s.next)
  {
    MissedMeaning(next, earliest, now, SCAN_LIMIT);
    TickIsTick(next, earliest, SCAN_LIMIT);
    TicksIncrease(next, earliest, 0, SCAN_LIMIT);
    TicksIncrease(next, earliest, SCAN_LIMIT, SCAN_LIMIT + 1);
    TickIsTick(next, earliest, SCAN_LIMIT + 1);
    NextIsNextTick(next, now);
    forall x | IsTick(next, x) && x > Tick(next, earliest, SCAN_LIMIT)
      ensures x >= Tick(next, earliest, SCAN_LIMIT + 1)
    {
      NoTickBetween(next, earliest, SCAN_LIMIT, x);
    }
  }

  /** A schedule that never fires again makes `next` return one fixed instant in the
      past: the scan still ends, reports that instant and asks for no positive delay. */
  lemma UnsatisfiableScan(next: int -> int, never: int, earliest: int, now: int)
    requires never <= now && forall t :: next(t) == never
    ensures ScanOf(next, earliest, now) == Scan(Some(never), never, true)
  {
    forall k: nat | k > 0
      ensures Tick(next, earliest, k) == never
    {
      TickStep(next, earliest, k - 1);
    }
    MissedUnique(next, earliest, now, SCAN_LIMIT, SCAN_LIMIT);
  }

  // ------------------------------------------------------------- catching up

  /** LastScheduleTime after one pass at `now`, whichever way the tick was handled. */
  function Advance(next: int -> int, last: int, now: int): int {
    var s := ScanOf(next, last, now);
    if s.lastMissed.Some? then s.lastMissed.value else last
  }

  function After(next: int -> int, last: int, now: int, passes: nat): int {
    if passes == 0 then last else Advance(next, After(next, last, now, passes - 1), now)
  }

  /** Exactly k ticks have been missed since `last`. */
  ghost predicate Backlog(next: int -> int, last: int, now: int, k: nat) {
    (k > 0 ==> Tick(next, last, k) <= now) && Tick(next, last, k + 1) > now
  }

  function Min(a: int, b: int): int {
    if a <= b then a else b
  }

  lemma BacklogFrom(next: int -> int, last: int, now: int, k: nat, j: nat)
    requires Satisfiable(next) && Backlog(next, last, now, k) && j <= k
    ensures Backlog(next, Tick(next, last, j), now, k - j)
  {
    hide Satisfiable, Tick;
    TickAppend(next, last, j, k - j);
    TickAppend(next, last, j, k - j + 1);
  }

  lemma MissedOfBacklog(next: int -> int, from: int, now: int, k: nat)
    requires Satisfiable(next) && Backlog(next, from, now, k)
    ensures Missed(next, from, now, SCAN_LIMIT) == Min(SCAN_LIMIT, k)
  {
    hide Satisfiable, Tick, Missed;
    var n := Min(SCAN_LIMIT, k);
    forall i | 1 <= i <= n
      ensures Tick(next, from, i) <= now
    {
      if i < k { TicksIncrease(next, from, i, k); }
    }
    MissedUnique(next, from, now, SCAN_LIMIT, n);
  }

  lemma AdvanceByLimit(next: int -> int, last: int, now: int, k: nat, j: nat)
    requires Satisfiable(next) && Backlog(next, last, now, k) && j <= k
    ensures Advance(next, Tick(next, last, j), now) == Tick(next, last, Min(j + SCAN_LIMIT, k))
  {
    hide Satisfiable, Tick, Missed, Backlog;
    var from := Tick(next, last, j);
    BacklogFrom(next, last, now, k, j);
    MissedOfBacklog(next, from, now, k - j);
    TickAppend(next, last, j, Min(SCAN_LIMIT, k - j));
    TickZero(next, from);
  }

  /** Each pass at a fixed time moves LastScheduleTime on by up to 81 ticks, never past
      the last missed one. */
  lemma {:induction false} BacklogDrains(next: int -> int, last: int, now: int, k: nat, passes: nat)
    requires Satisfiable(next) && Backlog(next, last, now, k)
    ensures After(next, last, now, passes) == Tick(next, last, Min(passes * SCAN_LIMIT, k))
    decreases passes
  {
    if passes > 0 {
      BacklogDrains(next, last, now, k, passes - 1);
      AdvanceByLimit(next, last, now, k, Min((passes - 1) * SCAN_LIMIT, k));
    }
  }

  /** Some number of passes covers k ticks exactly from ceil(k / 81) on. */
  lemma PassesNeeded(k: nat, passes: nat)
    ensures passes * SCAN_LIMIT >= k <==> passes >= (k + SCAN_LIMIT - 1) / SCAN_LIMIT
  {
  }

  /** The backlog is gone after exactly ceil(k / 81) passes, at the true last tick. */
  lemma DrainedWhen(next: int -> int, last: int, now: int, k: nat, passes: nat)
    requires Satisfiable(next) && Backlog(next, last, now, k)
    ensures After(next, last, now, passes) == Tick(next, last, k) <==> passes >= (k + SCAN_LIMIT - 1) / SCAN_LIMIT
    ensures forall x :: IsTick(next, x) && x > Tick(next, last, k) ==> x > now
  {
    hide Tick, After, IsTick;
    PassesNeeded(k, passes);
    BacklogDrains(next, last, now, k, passes);
    if passes * SCAN_LIMIT < k {
      TicksIncrease(next, last, passes * SCAN_LIMIT, k);
    }
    NoneLeft(next, last, k, now);
  }

  /** The i-th pass lands on a new tick and finds it recent enough to fire. */
  ghost predicate Fires(next: int -> int, last: int, now: int, deadline: int, i: nat)
    requires i > 0
  {
    var before, after := After(next, last, now, i - 1), After(next, last, now, i);
    after != before && now - after <= deadline
  }

  /** Firing passes among the first `passes`. */
  ghost function FireCount(next: int -> int, last: int, now: int, deadline: int, passes: nat): nat {
    if passes == 0 then 0
    else FireCount(next, last, now, deadline, passes - 1) + if Fires(next, last, now, deadline, passes) then 1 else 0
  }

  lemma FiresMeaning(next: int -> int, last: int, now: int, deadline: int, k: nat, i: nat)
    requires Satisfiable(next) && Backlog(next, last, now, k) && i > 0
    ensures Fires(next, last, now, deadline, i) <==>
      (i - 1) * SCAN_LIMIT < k && now - Tick(next, last, Min(i * SCAN_LIMIT, k)) <= deadline
  {
    hide Satisfiable, Tick, After;
    BacklogDrains(next, last, now, k, i - 1);
    BacklogDrains(next, last, now, k, i);
    if (i - 1) * SCAN_LIMIT < k {
      TicksIncrease(next, last, (i - 1) * SCAN_LIMIT, Min(i * SCAN_LIMIT, k));
    }
  }

  /** Where the last full batch of 81 before the end of the backlog stops. */
  function LastFullBatch(k: nat): nat
    requires k > 0
  {
    (k - 1) / SCAN_LIMIT * SCAN_LIMIT
  }

  /** A pass that stops before the end of the backlog stops no later than the last
      full batch. */
  lemma BatchesBefore(k: nat, i: nat)
    requires k > 0
    ensures i * SCAN_LIMIT < k <==> i <= (k - 1) / SCAN_LIMIT
    ensures i <= (k - 1) / SCAN_LIMIT ==> i * SCAN_LIMIT <= LastFullBatch(k)
    ensures LastFullBatch(k) < k
    ensures k > SCAN_LIMIT <==> (k - 1) / SCAN_LIMIT > 0
  {
  }

  /** Only the final tick of a backlog fires exactly when it fits one scan, or the
      last tick of the batch before the final one is already past the deadline. */
  lemma OnlyFinalTickFires(next: int -> int, last: int, now: int, deadline: int, k: nat)
    requires Satisfiable(next) && Backlog(next, last, now, k) && k > 0
    ensures (forall i: nat :: i > 0 && Fires(next, last, now, deadline, i) ==> After(next, last, now, i) == Tick(next, last, k))
      <==> k <= SCAN_LIMIT || now - Tick(next, last, LastFullBatch(k)) > deadline
  {
    hide Tick, After, Fires, Satisfiable;
    var b := (k - 1) / SCAN_LIMIT;
    BatchesBefore(k, b);
    if k > SCAN_LIMIT && now - Tick(next, last, LastFullBatch(k)) <= deadline {
      FiresMeaning(next, last, now, deadline, k, b);
      BacklogDrains(next, last, now, k, b);
      TicksIncrease(next, last, b * SCAN_LIMIT, k);
    } else {
      forall i: nat | i > 0 && Fires(next, last, now, deadline, i)
        ensures After(next, last, now, i) == Tick(next, last, k)
      {
        FiresMeaning(next, last, now, deadline, k, i);
        BacklogDrains(next, last, now, k, i);
        BatchesBefore(k, i);
        if i < b { TicksIncrease(next, last, i * SCAN_LIMIT, b * SCAN_LIMIT); }
      }
    }
  }

  const MINUTE: int := 60 * SECOND

  /** The schedule "* * * * *". */
  function EveryMinute(t: int): int {
    (t / MINUTE + 1) * MINUTE
  }

  lemma {:induction false} MinuteTick(k: nat)
    ensures Tick(EveryMinute, 0, k) == k * MINUTE
  {
    if k > 0 {
      MinuteTick(k - 1);
      TickStep(EveryMinute, 0, k - 1);
    }
  }

  lemma MinutesAreSatisfiable()
    ensures Satisfiable(EveryMinute)
  {
  }

  /** Unsuspending after 82 missed minutes fires two ticks, one minute apart, under the
      default starting deadline. */
  lemma TwoTicksMayFire()
    ensures Satisfiable(EveryMinute) && Backlog(EveryMinute, 0, 82 * MINUTE, 82)
    ensures Fires(EveryMinute, 0, 82 * MINUTE, DEFAULT_STARTING_DEADLINE, 1)
    ensures Fires(EveryMinute, 0, 82 * MINUTE, DEFAULT_STARTING_DEADLINE, 2)
    ensures Tick(EveryMinute, 0, 81) != Tick(EveryMinute, 0, 82)
  {
    hide Fires, Satisfiable, EveryMinute, Tick;
    MinutesAreSatisfiable();
    MinuteTick(81);
    MinuteTick(82);
    MinuteTick(83);
    FiresMeaning(EveryMinute, 0, 82 * MINUTE, DEFAULT_STARTING_DEADLINE, 82, 1);
    FiresMeaning(EveryMinute, 0, 82 * MINUTE, DEFAULT_STARTING_DEADLINE, 82, 2);
  }

  // ------------------------------------------------- how many passes may fire

  /** Any 81 consecutive ticks of the backlog span at least d. */
  ghost predicate Spaced(next: int -> int, last: int, k: nat, d: int) {
    forall j: nat :: j + SCAN_LIMIT <= k ==> Tick(next, last, j + SCAN_LIMIT) - Tick(next, last, j) >= d
  }

  lemma {:induction false} Spread(next: int -> int, last: int, k: nat, d: int, f: nat, n: nat)
    requires Spaced(next, last, k, d) && (f + n) * SCAN_LIMIT <= k
    ensures Tick(next, last, (f + n) * SCAN_LIMIT) - Tick(next, last, f * SCAN_LIMIT) >= n * d
    decreases n
  {
    hide Tick;
    if n > 0 {
      Spread(next, last, k, d, f, n - 1);
      var j := (f + n - 1) * SCAN_LIMIT;
      assert j + SCAN_LIMIT == (f + n) * SCAN_LIMIT;
      assert (n - 1) * d + d == n * d;
    }
  }

  /** If nothing fires before pass f, at most the passes from f to the last one do. */
  lemma {:induction false} CountFrom(next: int -> int, last: int, now: int, deadline: int, k: nat, f: nat, passes: nat)
    requires Satisfiable(next) && Backlog(next, last, now, k) && f > 0
    requires forall i: nat :: 0 < i < f ==> !Fires(next, last, now, deadline, i)
    ensures FireCount(next, last, now, deadline, passes) <= if passes < f then 0 else passes - f + 1
    ensures passes > k / SCAN_LIMIT + 1 ==>
      FireCount(next, last, now, deadline, passes) == FireCount(next, last, now, deadline, passes - 1)
    decreases passes
  {
    hide Tick, After, Fires, Satisfiable;
    if passes > 0 {
      CountFrom(next, last, now, deadline, k, f, passes - 1);
      FiresMeaning(next, last, now, deadline, k, passes);
    }
  }

  lemma {:induction false} CountSettles(next: int -> int, last: int, now: int, deadline: int, k: nat, passes: nat)
    requires Satisfiable(next) && Backlog(next, last, now, k) && passes >= k / SCAN_LIMIT + 1
    ensures FireCount(next, last, now, deadline, passes) == FireCount(next, last, now, deadline, k / SCAN_LIMIT + 1)
    decreases passes
  {
    hide Tick, After, Fires, Satisfiable;
    if passes > k / SCAN_LIMIT + 1 {
      CountSettles(next, last, now, deadline, k, passes - 1);
      FiresMeaning(next, last, now, deadline, k, passes);
    }
  }

  lemma {:induction false} FirstFiring(next: int -> int, last: int, now: int, deadline: int, passes: nat) returns (f: nat)
    requires FireCount(next, last, now, deadline, passes) > 0
    ensures 0 < f <= passes && Fires(next, last, now, deadline, f)
    ensures forall i: nat :: 0 < i < f ==> !Fires(next, last, now, deadline, i)
    decreases passes
  {
    hide Fires;
    if FireCount(next, last, now, deadline, passes - 1) > 0 {
      f := FirstFiring(next, last, now, deadline, passes - 1);
    } else {
      f := passes;
      NoneFire(next, last, now, deadline, passes - 1);
    }
  }

  lemma {:induction false} NoneFire(next: int -> int, last: int, now: int, deadline: int, passes: nat)
    requires FireCount(next, last, now, deadline, passes) == 0
    ensures forall i: nat :: 0 < i <= passes ==> !Fires(next, last, now, deadline, i)
    decreases passes
  {
    hide Fires;
    if passes > 0 {
      NoneFire(next, last, now, deadline, passes - 1);
    }
  }

  /** From the first pass that fires to the last full batch there are few passes. */
  lemma FiringSpan(next: int -> int, last: int, now: int, deadline: int, k: nat, d: int, f: nat)
    requires Satisfiable(next) && Backlog(next, last, now, k) && deadline >= 0 && d > 0 && Spaced(next, last, k, d)
    requires 0 < f <= k / SCAN_LIMIT && Fires(next, last, now, deadline, f)
    ensures k / SCAN_LIMIT - f <= deadline / d
  {
    hide Tick, Fires, Satisfiable, Spaced;
    var g := k / SCAN_LIMIT;
    FiresMeaning(next, last, now, deadline, k, f);
    Spread(next, last, k, d, f, g - f);
    if g * SCAN_LIMIT < k { TicksIncrease(next, last, g * SCAN_LIMIT, k); }
    QuotientBound(g - f, d, deadline);
  }

  /** However many passes it takes, a backlog fires at most floor(deadline / d) + 2 ticks
      when 81 consecutive ticks span at least d, and at most one when it fits one scan. */
  lemma FewCatchUpRuns(next: int -> int, last: int, now: int, deadline: int, k: nat, d: int, passes: nat)
    requires Satisfiable(next) && Backlog(next, last, now, k) && deadline >= 0 && d > 0 && Spaced(next, last, k, d)
    ensures FireCount(next, last, now, deadline, passes) <= deadline / d + 2
    ensures k <= SCAN_LIMIT ==> FireCount(next, last, now, deadline, passes) <= 1
  {
    hide Tick, After, Fires, FireCount, Satisfiable, Spaced, Backlog;
    var g := k / SCAN_LIMIT;
    var p := Min(passes, g + 1);
    if passes > g + 1 { CountSettles(next, last, now, deadline, k, passes); }
    if FireCount(next, last, now, deadline, p) > 0 {
      var f := FirstFiring(next, last, now, deadline, p);
      CountFrom(next, last, now, deadline, k, f, p);
      if f <= g { FiringSpan(next, last, now, deadline, k, d, f); }
      if k <= SCAN_LIMIT && p == 2 {
        FiresMeaning(next, last, now, deadline, k, 2);
        OnePassCount(next, last, now, deadline, f);
      }
    }
  }

  lemma QuotientBound(n: nat, d: int, deadline: int)
    requires d > 0 && n * d <= deadline
    ensures n <= deadline / d
  {
    var q := deadline / d;
    assert deadline < (q + 1) * d;
    if n > q {
      TimesMonotone(q + 1, n, d);
    }
  }

  lemma TimesMonotone(a: int, b: int, d: int)
    requires a <= b && d > 0
    ensures a * d <= b * d
  {
  }

  lemma OnePassCount(next: int -> int, last: int, now: int, deadline: int, f: nat)
    requires !Fires(next, last, now, deadline, 2)
    ensures FireCount(next, last, now, deadline, 2) <= 1
  {
    assert FireCount(next, last, now, deadline, 2) == FireCount(next, last, now, deadline, 1);
    assert FireCount(next, last, now, deadline, 0) == 0;
  }
}
