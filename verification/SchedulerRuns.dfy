/**
 Whole runs of the scheduler, under any client: every step is one iteration of
 run_until_complete or a slice of host or fiber code.
 */
module SchedulerRuns {
  import opened Scheduler

  ghost predicate Step(a: Sched, b: Sched) {
    || (a.mode == Loop && CursorInRange(a) && b == Iterate(a).1)
    || Slice(a, b)
  }

  ghost predicate StepsAt(ss: seq<Sched>, i: nat)
    requires i < |ss| - 1
  {
    Step(ss[i], ss[i + 1])
  }

  ghost predicate IsRun(ss: seq<Sched>) {
    && |ss| > 0
    && ss[0] == EMPTY
    && forall i :: 0 <= i < |ss| - 1 ==> StepsAt(ss, i)
  }

  lemma StepKeepsInv(a: Sched, b: Sched)
    requires Inv(a) && Step(a, b)
    ensures Inv(b)
  {
    if a.mode == Loop {
      IterateKeepsInv(a);
    } else {
      SliceKeepsInv(a, b);
    }
  }

  lemma StepAt(ss: seq<Sched>, i: nat)
    requires IsRun(ss) && i < |ss| - 1
    ensures Step(ss[i], ss[i + 1])
  {
    assert StepsAt(ss, i);
  }

  lemma {:induction false} RunKeepsInv(ss: seq<Sched>, i: nat)
    requires IsRun(ss) && i < |ss|
    ensures Inv(ss[i])
  {
    if i > 0 {
      RunKeepsInv(ss, i - 1);
      StepAt(ss, i - 1);
      StepKeepsInv(ss[i - 1], ss[i]);
    }
  }

  /** The scheduler's own calls are slices, so the theorems below cover every program built from them. */
  lemma CallsAreSlices(s: Sched, h: nat, ticks: nat, token: Token, target: nat)
    requires Inv(s) && Current(s, h) && DeadlineFits(s, ticks)
    ensures Slice(s, Yield(s, h)) && Slice(s, Sleep(s, h, ticks)) && Slice(s, Block(s, h, token, ticks))
    ensures Slice(s, Finish(s, h)) && Slice(s, Join(s, h, target))
  {
    assert ThreadInv(s, h - 1);
  }

  lemma SignalsAreSlices(s: Sched, token: Token)
    requires Inv(s) && s.mode != Loop
    ensures Slice(s, Spawn(s))
    ensures Slice(s, s.(threads := SignalOne(s.threads, token)))
    ensures Slice(s, s.(threads := SignalAll(s.threads, token)))
  {
    forall i | 0 <= i < |s.threads|
      ensures SliceThread(s, s.(threads := SignalOne(s.threads, token)), i)
      ensures SliceThread(s, s.(threads := SignalAll(s.threads, token)), i)
    {
      assert ThreadInv(s, i);
    }
  }

  // ---------------------------------------------------------------------
  // The verdict of run_until_complete

  predicate WaitsForever(t: Thread) {
    t.state == BlockedWait && t.wakeTick == NO_DEADLINE
  }

  predicate JoinsUnfinished(ts: seq<Thread>, t: Thread) {
    t.state == BlockedJoin && !JoinDone(ts, t.joinTarget)
  }

  /** Nothing but untimed waits and joins on unfinished threads. */
  predicate Hopeless(ts: seq<Thread>) {
    && !AllFinished(ts)
    && forall i :: 0 <= i < |ts| && ts[i].state != Finished ==> WaitsForever(ts[i]) || JoinsUnfinished(ts, ts[i])
  }

  /**
   In every run: true is returned exactly when all threads have finished, deadlock
   is reported exactly when every unfinished thread waits forever or joins an
   unfinished thread, and the function's last return is never reached.
   */
  lemma VerdictIsExact(ss: seq<Sched>, i: nat)
    requires IsRun(ss) && i < |ss| && ss[i].mode == Loop
    ensures Inv(ss[i])
    ensures Iterate(ss[i]).0 == Completed <==> AllFinished(ss[i].threads)
    ensures Iterate(ss[i]).0 == Deadlock <==> Hopeless(ss[i].threads)
    ensures Iterate(ss[i]).0 != FellThrough
    ensures Iterate(ss[i]).0 == Deadlock ==> Iterate(ss[i]).1 == ss[i].(mode := Host, deadlocked := true)
  {
    RunKeepsInv(ss, i);
    var s := ss[i];
    assert forall j :: 0 <= j < |s.threads| ==> ThreadInv(s, j);
    if !AllFinished(s.threads) {
      var ts := Refresh(s.threads, s.tick);
      var k := ScanReady(ts, s.cursor, 0);
      var u :| 0 <= u < |s.threads| && s.threads[u].state != Finished;
      if k == |ts| {
        ScanComplete(ts, s.cursor);
        NothingRefreshed(s.threads, s.tick);
        forall j | 0 <= j < |ts| ensures ts[j].state == Finished || Timed(ts[j]) || Stuck(ts[j]) {
          assert ThreadInv(s, j);
        }
        if AnyTimed(ts) {
          var j :| 0 <= j < |ts| && Timed(ts[j]);
          assert !WaitsForever(s.threads[j]) && !JoinsUnfinished(s.threads, s.threads[j]);
        }
      } else {
        var j := RingIndex(s.cursor, k, |ts|);
        assert ts[j] == RefreshOne(s.threads, s.tick, s.threads[j]);
        assert !WaitsForever(s.threads[j]) && !JoinsUnfinished(s.threads, s.threads[j]);
      }
    }
  }

  // ---------------------------------------------------------------------
  // Join cycles

  /** c[0] joins c[1], c[1] joins c[2], ..., and the last joins c[0]. */
  ghost predicate JoinCycle(ts: seq<Thread>, c: seq<nat>) {
    && |c| > 0
    && forall k :: 0 <= k < |c| ==> JoinLink(ts, c[k], c[if k + 1 < |c| then k + 1 else 0])
  }

  ghost predicate JoinLink(ts: seq<Thread>, i: nat, j: nat) {
    i < |ts| && j < |ts| && ts[i].state == BlockedJoin && ts[i].joinTarget == j + 1
  }

  ghost predicate JoinPath(ts: seq<Thread>, p: seq<nat>) {
    && |p| > 0
    && (forall k :: 0 <= k < |p| ==> p[k] < |ts| && ts[p[k]].state != Finished)
    && (forall k :: 0 <= k < |p| - 1 ==> JoinLink(ts, p[k], p[k + 1]))
    && (forall a, b :: 0 <= a < b < |p| ==> p[a] != p[b])
  }

  lemma {:induction false} DistinctBounded(p: seq<nat>, n: nat)
    requires forall k :: 0 <= k < |p| ==> p[k] < n
    requires forall a, b :: 0 <= a < b < |p| ==> p[a] != p[b]
    ensures |p| <= n
    decreases n
  {
    if p != [] {
      assert p[0] < n;
      if k :| 0 <= k < |p| && p[k] == n - 1 {
        DistinctBounded(p[..k] + p[k + 1..], n - 1);
      } else {
        DistinctBounded(p, n - 1);
      }
    }
  }

  lemma {:induction false} ExtendToCycle(ts: seq<Thread>, p: seq<nat>) returns (c: seq<nat>)
    requires forall i :: 0 <= i < |ts| && ts[i].state != Finished ==> JoinsUnfinished(ts, ts[i])
    requires JoinPath(ts, p)
    ensures JoinCycle(ts, c)
    decreases |ts| - |p|
  {
    var last := p[|p| - 1];
    assert JoinsUnfinished(ts, ts[last]);
    var next := ts[last].joinTarget - 1;
    if k :| 0 <= k < |p| && p[k] == next {
      c := p[k..];
      CloseCycle(ts, p, k);
    } else {
      ExtendPath(ts, p, next);
      c := ExtendToCycle(ts, p + [next]);
    }
  }

  lemma ExtendPath(ts: seq<Thread>, p: seq<nat>, next: nat)
    requires JoinPath(ts, p) && next !in p
    requires JoinLink(ts, p[|p| - 1], next) && ts[next].state != Finished
    ensures JoinPath(ts, p + [next]) && |p| < |ts|
  {
    var q := p + [next];
    forall m | 0 <= m < |q| - 1 ensures JoinLink(ts, q[m], q[m + 1]) {
      if m < |p| - 1 {
        assert JoinLink(ts, p[m], p[m + 1]);
      }
    }
    DistinctBounded(q, |ts|);
  }

  lemma CloseCycle(ts: seq<Thread>, p: seq<nat>, k: nat)
    requires JoinPath(ts, p) && k < |p| && JoinLink(ts, p[|p| - 1], p[k])
    ensures JoinCycle(ts, p[k..])
  {
    var c := p[k..];
    forall m | 0 <= m < |c| ensures JoinLink(ts, c[m], c[if m + 1 < |c| then m + 1 else 0]) {
      if m + 1 < |c| {
        assert JoinLink(ts, p[k + m], p[k + m + 1]);
      }
    }
  }

  /** A deadlock made of joins alone contains a cycle of joins. */
  lemma PureJoinDeadlockHasCycle(ts: seq<Thread>) returns (c: seq<nat>)
    requires Hopeless(ts) && forall j :: 0 <= j < |ts| ==> !WaitsForever(ts[j])
    ensures JoinCycle(ts, c)
  {
    var u :| 0 <= u < |ts| && ts[u].state != Finished;
    c := ExtendToCycle(ts, [u]);
  }

  lemma CyclePersistsOneStep(a: Sched, b: Sched, c: seq<nat>)
    requires Inv(a) && Step(a, b) && JoinCycle(a.threads, c)
    ensures JoinCycle(b.threads, c)
    ensures forall k :: 0 <= k < |c| ==> b.mode != Fiber(c[k] + 1)
  {
    forall k | 0 <= k < |c|
      ensures JoinLink(b.threads, c[k], c[if k + 1 < |c| then k + 1 else 0])
      ensures b.mode != Fiber(c[k] + 1)
    {
      var m := if k + 1 < |c| then k + 1 else 0;
      assert JoinLink(a.threads, c[k], c[m]);
      assert JoinLink(a.threads, c[m], c[if m + 1 < |c| then m + 1 else 0]);
      assert ThreadInv(a, c[k]);
      if a.mode == Loop {
        assert Refresh(a.threads, a.tick)[c[k]] == RefreshOne(a.threads, a.tick, a.threads[c[k]]);
      } else {
        assert SliceThread(a, b, c[k]);
      }
    }
  }

  /** A thread on a join cycle is never Ready and never runs again, whatever the others do. */
  lemma {:induction false} CycleIsForever(ss: seq<Sched>, i: nat, j: nat, c: seq<nat>)
    requires IsRun(ss) && i <= j < |ss| && JoinCycle(ss[i].threads, c)
    ensures JoinCycle(ss[j].threads, c)
    ensures j > i ==> forall k :: 0 <= k < |c| ==> ss[j].mode != Fiber(c[k] + 1)
    decreases j
  {
    if j > i {
      CycleIsForever(ss, i, j - 1, c);
      RunKeepsInv(ss, j - 1);
      StepAt(ss, j - 1);
      CyclePersistsOneStep(ss[j - 1], ss[j], c);
    }
  }

  // ---------------------------------------------------------------------
  // Exact virtual time

  /** The clock does not move while somebody is Ready. */
  lemma ReadyStopsTheClock(s: Sched, i: nat)
    requires Inv(s) && s.mode == Loop && i < |s.threads| && Refresh(s.threads, s.tick)[i].state == Ready
    ensures Iterate(s).0 == Dispatched && Iterate(s).1.tick == s.tick
  {
    var ts := Refresh(s.threads, s.tick);
    assert s.threads[i].state != Finished;
    if ScanReady(ts, s.cursor, 0) == |ts| {
      ScanComplete(ts, s.cursor);
    }
  }

  /** What is known of a thread that was to wait until tick w, when it is Ready again. */
  ghost predicate WokenOnTime(slept: bool, t: Thread, tick: nat, w: nat) {
    if slept || t.timedOut then tick == w else tick < w
  }

  /** Thread i is still as it was left, or Ready and woken on time. */
  ghost predicate OnTime(s: Sched, i: nat, slept: bool, w: nat)
    requires i < |s.threads|
  {
    var t := s.threads[i];
    && t.started
    && if t.state == Ready then WokenOnTime(slept, t, s.tick, w)
       else
         && t.state == (if slept then Sleeping else BlockedWait)
         && t.wakeTick == w && s.tick <= w && s.mode != Fiber(i + 1)
  }

  lemma OnTimeStep(a: Sched, b: Sched, i: nat, slept: bool, w: nat)
    requires Inv(a) && Step(a, b) && i < |a.threads| && a.mode != Fiber(i + 1)
    requires OnTime(a, i, slept, w)
    ensures i < |b.threads| && OnTime(b, i, slept, w)
  {
    assert ThreadInv(a, i);
    if a.mode == Loop {
      var r := Refresh(a.threads, a.tick)[i];
      assert r == RefreshOne(a.threads, a.tick, a.threads[i]);
      if r.state == Ready {
        ReadyStopsTheClock(a, i);
      }
    } else {
      assert SliceThread(a, b, i);
    }
  }

  /**
   Induction over a stretch of a run in which thread i does not run: it never
   misses its deadline, and it wakes at the deadline tick or by an earlier signal.
   */
  lemma {:induction false} OnTimeRun(ss: seq<Sched>, a: nat, b: nat, i: nat, slept: bool, w: nat)
    requires IsRun(ss) && a <= b < |ss|
    requires i < |ss[a].threads| && OnTime(ss[a], i, slept, w)
    requires forall k :: a <= k < b ==> ss[k].mode != Fiber(i + 1)
    ensures i < |ss[b].threads| && OnTime(ss[b], i, slept, w)
    decreases b
  {
    if b > a {
      OnTimeRun(ss, a, b - 1, i, slept, w);
      RunKeepsInv(ss, b - 1);
      StepAt(ss, b - 1);
      OnTimeStep(ss[b - 1], ss[b], i, slept, w);
    }
  }

  /** b is the first moment after a at which fiber h runs. */
  ghost predicate NextRun(ss: seq<Sched>, h: nat, a: nat, b: nat) {
    a < b < |ss| && ss[b].mode == Fiber(h) && forall k :: a < k < b ==> ss[k].mode != Fiber(h)
  }

  /** sleep_ticks(n) returns exactly n ticks later. */
  lemma SleepIsExact(ss: seq<Sched>, a: nat, b: nat, h: nat, n: nat)
    requires IsRun(ss) && NextRun(ss, h, a, b) && n > 0
    requires Current(ss[a], h) && DeadlineFits(ss[a], n) && ss[a + 1] == Sleep(ss[a], h, n)
    ensures ss[b].tick == ss[a].tick + n
  {
    RunKeepsInv(ss, a);
    RunKeepsInv(ss, a + 1);
    assert ThreadInv(ss[a], h - 1) && ThreadInv(ss[a + 1], h - 1);
    OnTimeRun(ss, a + 1, b, h - 1, true, ss[a].tick + n);
    RunKeepsInv(ss, b);
    assert ThreadInv(ss[b], h - 1);
  }

  /**
   block_current(token, n): a timeout is reported exactly n ticks later, a signal
   strictly earlier, so a signal never reaches a waiter whose deadline has passed.
   */
  lemma BlockIsExact(ss: seq<Sched>, a: nat, b: nat, h: nat, token: Token, n: nat)
    requires IsRun(ss) && NextRun(ss, h, a, b) && n > 0
    requires Current(ss[a], h) && DeadlineFits(ss[a], n) && ss[a + 1] == Block(ss[a], h, token, n)
    ensures h <= |ss[b].threads|
    ensures if ss[b].threads[h - 1].timedOut then ss[b].tick == ss[a].tick + n else ss[b].tick < ss[a].tick + n
  {
    RunKeepsInv(ss, a);
    RunKeepsInv(ss, a + 1);
    assert ThreadInv(ss[a], h - 1) && ThreadInv(ss[a + 1], h - 1);
    OnTimeRun(ss, a + 1, b, h - 1, false, ss[a].tick + n);
    RunKeepsInv(ss, b);
    assert ThreadInv(ss[b], h - 1);
  }

  // ---------------------------------------------------------------------
  // Joins

  /** A finished fiber stays finished. */
  lemma FinishedStays(a: Sched, b: Sched, i: nat)
    requires Inv(a) && Step(a, b) && i < |a.threads| && a.threads[i].state == Finished
    ensures i < |b.threads| && b.threads[i].state == Finished
  {
    assert ThreadInv(a, i);
    if a.mode == Loop {
      assert Refresh(a.threads, a.tick)[i] == RefreshOne(a.threads, a.tick, a.threads[i]);
    } else {
      assert SliceThread(a, b, i);
    }
  }

  /** Thread i still waits for thread j, or j has finished. */
  ghost predicate Joins(s: Sched, i: nat, j: nat) {
    && i < |s.threads| && j < |s.threads|
    && (s.threads[j].state == Finished || (s.threads[i].state == BlockedJoin && s.threads[i].joinTarget == j + 1))
  }

  lemma JoinsStep(a: Sched, b: Sched, i: nat, j: nat)
    requires Inv(a) && Step(a, b) && Joins(a, i, j)
    ensures Joins(b, i, j)
  {
    assert ThreadInv(a, i) && ThreadInv(a, j);
    if a.threads[j].state == Finished {
      FinishedStays(a, b, j);
      PlacesStay(a, b);
    } else if a.mode == Loop {
      assert Refresh(a.threads, a.tick)[i] == RefreshOne(a.threads, a.tick, a.threads[i]);
    } else {
      assert SliceThread(a, b, i);
    }
  }

  lemma PlacesStay(a: Sched, b: Sched)
    requires Step(a, b)
    ensures |a.threads| <= |b.threads|
  {
  }

  lemma {:induction false} JoinsRun(ss: seq<Sched>, a: nat, b: nat, i: nat, j: nat)
    requires IsRun(ss) && a <= b < |ss| && Joins(ss[a], i, j)
    ensures Joins(ss[b], i, j)
    decreases b
  {
    if a < b {
      JoinsRun(ss, a, b - 1, i, j);
      RunKeepsInv(ss, b - 1);
      StepAt(ss, b - 1);
      JoinsStep(ss[b - 1], ss[b], i, j);
    }
  }

  /** join() on another thread returns only when that thread has finished. */
  lemma JoinIsExact(ss: seq<Sched>, a: nat, b: nat, h: nat, target: nat)
    requires IsRun(ss) && NextRun(ss, h, a, b) && Current(ss[a], h)
    requires target != h && 1 <= target <= |ss[a].threads| && ss[a + 1] == Join(ss[a], h, target)
    ensures target <= |ss[b].threads| && ss[b].threads[target - 1].state == Finished
  {
    RunKeepsInv(ss, b);
    JoinsRun(ss, a + 1, b, h - 1, target - 1);
    assert ThreadInv(ss[b], h - 1);
  }

  // ---------------------------------------------------------------------
  // Round-robin fairness

  /** The number of dispatches between states a and b of a run. */
  function Dispatches(ss: seq<Sched>, a: nat, b: nat): nat
    requires a <= b < |ss|
    decreases b
  {
    if a == b then 0
    else Dispatches(ss, a, b - 1) + if ss[b - 1].mode == Loop && ss[b].mode.Fiber? then 1 else 0
  }

  ghost predicate PassedOver(ss: seq<Sched>, a: nat, b: nat, i: nat) {
    && a <= b < |ss|
    && i < |ss[a].threads|
    && ss[a].threads[i].state == Ready
    && (forall k :: a <= k <= b ==> |ss[k].threads| == |ss[a].threads|)
    && (forall k :: a <= k <= b ==> ss[k].mode != Fiber(i + 1))
  }

  lemma PickComesCloser(a: Sched, b: Sched, i: nat)
    requires Inv(a) && Step(a, b) && i < |a.threads| == |b.threads|
    requires a.threads[i].state == Ready && a.mode != Fiber(i + 1) && b.mode != Fiber(i + 1)
    ensures b.threads[i].state == Ready && CursorInRange(b)
    ensures Distance(b.cursor, i, |b.threads|) + (if a.mode == Loop && b.mode.Fiber? then 1 else 0)
         <= Distance(a.cursor, i, |a.threads|)
  {
    if a.mode == Loop {
      var ts := Refresh(a.threads, a.tick);
      assert ts[i] == RefreshOne(a.threads, a.tick, a.threads[i]) == a.threads[i];
      ReadyStopsTheClock(a, i);
      var d := Distance(a.cursor, i, |ts|);
      assert ts[RingIndex(a.cursor, d, |ts|)].state == Ready;
    } else {
      assert SliceThread(a, b, i);
    }
  }

  lemma LastOfPassedOver(ss: seq<Sched>, a: nat, b: nat, i: nat)
    requires PassedOver(ss, a, b, i) && a < b
    ensures PassedOver(ss, a, b - 1, i)
    ensures ss[b - 1].mode != Fiber(i + 1) && ss[b].mode != Fiber(i + 1)
    ensures i < |ss[b - 1].threads| == |ss[b].threads| == |ss[a].threads|
  {
  }

  /** Each dispatch that passes a Ready thread over brings the cursor strictly closer to it. */
  lemma {:induction false} EachPickComesCloser(ss: seq<Sched>, a: nat, b: nat, i: nat)
    requires IsRun(ss) && PassedOver(ss, a, b, i)
    ensures ss[b].threads[i].state == Ready
    ensures CursorInRange(ss[a]) && CursorInRange(ss[b])
    ensures Dispatches(ss, a, b) + Distance(ss[b].cursor, i, |ss[b].threads|)
         <= Distance(ss[a].cursor, i, |ss[a].threads|)
    decreases b
  {
    if b == a {
      RunKeepsInv(ss, b);
    } else {
      LastOfPassedOver(ss, a, b, i);
      EachPickComesCloser(ss, a, b - 1, i);
      RunKeepsInv(ss, b - 1);
      StepAt(ss, b - 1);
      PickComesCloser(ss[b - 1], ss[b], i);
    }
  }

  /** With n threads and no new spawns, a Ready thread is passed over by at most n - 1 dispatches. */
  lemma ReadyRunsWithinOneRound(ss: seq<Sched>, a: nat, b: nat, i: nat)
    requires IsRun(ss) && PassedOver(ss, a, b, i)
    ensures Dispatches(ss, a, b) < |ss[a].threads|
  {
    EachPickComesCloser(ss, a, b, i);
  }
}
