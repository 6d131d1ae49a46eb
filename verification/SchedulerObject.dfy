/**
 The scheduler in the form src/cpu_sched.cpp gives it: an object whose methods
 change its thread table step by step. Every method is proved to do to the object
 what the function of the same purpose in module Scheduler does to its view.
 */
module SchedulerObject {
  import opened Scheduler

  // ---------------------------------------------------------------------
  // The three wake-up passes of pick_next, each over the table the previous one left

  function JoinPass(ts: seq<Thread>, t: Thread): Thread {
    if t.state == BlockedJoin && JoinDone(ts, t.joinTarget) then t.(state := Ready) else t
  }

  function SleepPass(tick: nat, t: Thread): Thread {
    if t.state == Sleeping && t.wakeTick <= tick then t.(state := Ready) else t
  }

  function TimeoutPass(tick: nat, t: Thread): Thread {
    if t.state == BlockedWait && t.wakeTick <= tick then t.(state := Ready, timedOut := true) else t
  }

  /** The passes one after the other are the simultaneous `Refresh`: no pass makes or undoes another's work. */
  lemma PassesAreRefresh(ts: seq<Thread>, ts1: seq<Thread>, ts2: seq<Thread>, ts3: seq<Thread>, tick: nat)
    requires |ts| == |ts1| == |ts2| == |ts3|
    requires forall i :: 0 <= i < |ts| ==> ts1[i] == JoinPass(ts, ts[i])
    requires forall i :: 0 <= i < |ts| ==> ts2[i] == SleepPass(tick, ts1[i])
    requires forall i :: 0 <= i < |ts| ==> ts3[i] == TimeoutPass(tick, ts2[i])
    ensures ts3 == Refresh(ts, tick)
  {
    forall i | 0 <= i < |ts| ensures ts3[i] == RefreshOne(ts, tick, ts[i]) {
      assert ts1[i] == JoinPass(ts, ts[i]);
    }
  }

  function CountWaiters(ts: seq<Thread>, token: Token): nat {
    if ts == [] then 0
    else CountWaiters(ts[..|ts| - 1], token) + if WaitsOn(ts[|ts| - 1], token) then 1 else 0
  }

  /** The table when a signal's scan has passed the first n threads and has woken every waiter it met. */
  function WokenUpTo(ts: seq<Thread>, token: Token, n: nat): seq<Thread>
    requires n <= |ts|
  {
    seq(|ts|, i requires 0 <= i < |ts| => if i < n && WaitsOn(ts[i], token) then Woken(ts[i]) else ts[i])
  }

  lemma NoneWokenYet(ts: seq<Thread>, token: Token)
    ensures WokenUpTo(ts, token, 0) == ts && CountWaiters(ts[..0], token) == 0
  {
  }

  lemma WokenNext(ts: seq<Thread>, token: Token, i: nat)
    requires i < |ts|
    ensures |WokenUpTo(ts, token, i)| == |ts| && WokenUpTo(ts, token, i)[i] == ts[i]
    ensures WokenUpTo(ts, token, i + 1)
         == if WaitsOn(ts[i], token) then WokenUpTo(ts, token, i)[i := Woken(ts[i])] else WokenUpTo(ts, token, i)
  {
  }

  lemma CountNext(ts: seq<Thread>, token: Token, i: nat)
    requires i < |ts|
    ensures CountWaiters(ts[..i + 1], token) == CountWaiters(ts[..i], token) + if WaitsOn(ts[i], token) then 1 else 0
  {
    assert ts[..i + 1][..i] == ts[..i];
  }

  lemma {:induction false} NoneCounted(ts: seq<Thread>, token: Token)
    requires CountWaiters(ts, token) == 0
    ensures forall j :: 0 <= j < |ts| ==> !WaitsOn(ts[j], token)
  {
    if ts != [] {
      NoneCounted(ts[..|ts| - 1], token);
    }
  }

  /** A scan that stops at the first waiter it meets has done what SignalOne does. */
  lemma FoundFirst(ts: seq<Thread>, token: Token, i: nat)
    requires i < |ts| && WaitsOn(ts[i], token) && CountWaiters(ts[..i], token) == 0
    ensures WokenUpTo(ts, token, i)[i := Woken(ts[i])] == SignalOne(ts, token)
    ensures HasWaiter(ts, token)
  {
    NoneCounted(ts[..i], token);
    assert forall j :: 0 <= j < i ==> !WaitsOn(ts[..i][j], token);
    assert FirstWaiter(ts, token, 0) == i;
  }

  lemma ScannedAll(ts: seq<Thread>, token: Token)
    ensures WokenUpTo(ts, token, |ts|) == SignalAll(ts, token)
    ensures CountWaiters(ts[..|ts|], token) == CountWaiters(ts, token)
    ensures CountWaiters(ts, token) == 0 ==> !HasWaiter(ts, token) && SignalAll(ts, token) == SignalOne(ts, token) == ts
  {
    assert ts[..|ts|] == ts;
    if CountWaiters(ts, token) == 0 {
      NoneCounted(ts, token);
      assert FirstWaiter(ts, token, 0) == |ts|;
    }
  }

  /** Fiber h has left the processor to the loop, and nothing but its own record has changed. */
  ghost predicate Left(before: Sched, after: Sched, h: nat) {
    && 1 <= h <= |before.threads| == |after.threads| && after.mode == Loop
    && after.tick == before.tick && after.cursor == before.cursor && after.deadlocked == before.deadlocked
    && after.threads[h - 1].started == before.threads[h - 1].started
    && forall i :: 0 <= i < |before.threads| && i != h - 1 ==> after.threads[i] == before.threads[i]
  }

  /** kStackSize, and what of it must stay usable. */
  const STACK_SIZE: nat := 0x4_0000
  const MIN_USABLE: nat := 0x4000

  class GuestScheduler {
    var threads: seq<Thread>
    var tick: nat
    var cursor: nat
    var mode: Mode
    var deadlocked: bool

    function View(): Sched
      reads this
    {
      Sched(threads, tick, cursor, mode, deadlocked)
    }

    constructor ()
      ensures View() == EMPTY
    {
      threads, tick, cursor, mode, deadlocked := [], 0, 0, Host, false;
    }

    /**
     spawn_reserved: the new thread's handle is its place in the table, counted from 1. A
     reserve that leaves less than 16 KiB of the stack is refused with handle 0.
     */
    method SpawnThread(reserve: nat) returns (handle: nat)
      modifies this
      ensures handle == 0 <==> reserve + MIN_USABLE > STACK_SIZE
      ensures handle == 0 ==> View() == old(View())
      ensures handle != 0 ==> View() == Spawn(old(View())) && handle == |threads| && threads[handle - 1] == FRESH
    {
      if reserve > STACK_SIZE - MIN_USABLE {
        return 0;
      }
      threads := threads + [FRESH];
      handle := |threads|;
    }

    /** signal: one scan in spawn order; the result says how many were woken. */
    method Signal(token: Token, wakeAll: bool) returns (woken: nat)
      modifies this
      ensures View() == old(View()).(threads :=
                if wakeAll then SignalAll(old(threads), token) else SignalOne(old(threads), token))
      ensures woken == if wakeAll then CountWaiters(old(threads), token)
                       else if HasWaiter(old(threads), token) then 1 else 0
    {
      hide WokenUpTo, SignalOne, SignalAll, CountWaiters;
      ghost var ts := threads;
      woken := 0;
      NoneWokenYet(ts, token);
      var i := 0;
      while i < |threads|
        invariant 0 <= i <= |threads| == |ts|
        invariant View() == old(View()).(threads := threads)
        invariant threads == WokenUpTo(ts, token, i)
        invariant woken == CountWaiters(ts[..i], token)
        invariant !wakeAll ==> woken == 0
      {
        CountNext(ts, token, i);
        WokenNext(ts, token, i);
        if threads[i].state == BlockedWait && threads[i].token == token {
          threads := threads[i := threads[i].(state := Ready, timedOut := false)];
          woken := woken + 1;
          if !wakeAll {
            FoundFirst(ts, token, i);
            return;
          }
        }
        i := i + 1;
      }
      ScannedAll(ts, token);
    }

    method WakeJoiners()
      modifies this
      ensures View() == old(View()).(threads := threads) && |threads| == |old(threads)|
      ensures forall i :: 0 <= i < |threads| ==> threads[i] == JoinPass(old(threads), old(threads)[i])
    {
      ghost var ts := threads;
      var i := 0;
      while i < |threads|
        invariant 0 <= i <= |threads| == |ts|
        invariant View() == old(View()).(threads := threads)
        invariant forall j :: 0 <= j < i ==> threads[j] == JoinPass(ts, ts[j])
        invariant forall j :: i <= j < |ts| ==> threads[j] == ts[j]
        invariant forall j :: 0 <= j < |ts| ==> (threads[j].state == Finished <==> ts[j].state == Finished)
      {
        var t := threads[i];
        if t.state == BlockedJoin
           && (t.joinTarget == 0 || t.joinTarget > |threads| || threads[t.joinTarget - 1].state == Finished) {
          threads := threads[i := t.(state := Ready)];
        }
        i := i + 1;
      }
    }

    method WakeSleepers()
      modifies this
      ensures View() == old(View()).(threads := threads) && |threads| == |old(threads)|
      ensures forall i :: 0 <= i < |threads| ==> threads[i] == SleepPass(tick, old(threads)[i])
    {
      ghost var ts := threads;
      var i := 0;
      while i < |threads|
        invariant 0 <= i <= |threads| == |ts|
        invariant View() == old(View()).(threads := threads)
        invariant forall j :: 0 <= j < i ==> threads[j] == SleepPass(tick, ts[j])
        invariant forall j :: i <= j < |ts| ==> threads[j] == ts[j]
      {
        if threads[i].state == Sleeping && threads[i].wakeTick <= tick {
          threads := threads[i := threads[i].(state := Ready)];
        }
        i := i + 1;
      }
    }

    method TimeOutWaiters()
      modifies this
      ensures View() == old(View()).(threads := threads) && |threads| == |old(threads)|
      ensures forall i :: 0 <= i < |threads| ==> threads[i] == TimeoutPass(tick, old(threads)[i])
    {
      ghost var ts := threads;
      var i := 0;
      while i < |threads|
        invariant 0 <= i <= |threads| == |ts|
        invariant View() == old(View()).(threads := threads)
        invariant forall j :: 0 <= j < i ==> threads[j] == TimeoutPass(tick, ts[j])
        invariant forall j :: i <= j < |ts| ==> threads[j] == ts[j]
      {
        if threads[i].state == BlockedWait && threads[i].wakeTick <= tick {
          threads := threads[i := threads[i].(state := Ready, timedOut := true)];
        }
        i := i + 1;
      }
    }

    /** pick_next: the index of the chosen thread, or the table's length if nobody is Ready. */
    method PickNext() returns (index: nat)
      requires CursorInRange(View())
      modifies this
      ensures threads == Refresh(old(threads), tick)
      ensures View() == old(View()).(threads := threads, cursor := cursor)
      ensures index <= |threads|
      ensures index < |threads| ==>
        && ScanReady(threads, old(cursor), 0) < |threads|
        && index == RingIndex(old(cursor), ScanReady(threads, old(cursor), 0), |threads|)
        && cursor == NextIndex(index, |threads|)
      ensures index == |threads| ==> cursor == old(cursor)
      ensures index == |threads| && threads != [] ==> ScanReady(threads, old(cursor), 0) == |threads|
    {
      ghost var ts := threads;
      WakeJoiners();
      ghost var ts1 := threads;
      WakeSleepers();
      ghost var ts2 := threads;
      TimeOutWaiters();
      PassesAreRefresh(ts, ts1, ts2, threads, tick);
      index := FindReady();
      if index < |threads| {
        cursor := (index + 1) % |threads|;
        assert cursor == NextIndex(index, |threads|);
      }
    }

    /** The round-robin scan from the cursor. */
    method FindReady() returns (index: nat)
      requires CursorInRange(View())
      ensures index <= |threads|
      ensures index < |threads| ==>
        && ScanReady(threads, cursor, 0) < |threads|
        && index == RingIndex(cursor, ScanReady(threads, cursor, 0), |threads|)
      ensures index == |threads| && threads != [] ==> ScanReady(threads, cursor, 0) == |threads|
    {
      var n := |threads|;
      var k := 0;
      while k < n
        invariant 0 <= k <= n
        invariant n > 0 ==> ScanReady(threads, cursor, 0) == ScanReady(threads, cursor, k)
      {
        index := (cursor + k) % n;
        assert index == RingIndex(cursor, k, n);
        if threads[index].state == Ready {
          return;
        }
        k := k + 1;
      }
      index := n;
    }

    method AllDone() returns (done: bool)
      ensures done <==> AllFinished(threads)
    {
      var i := 0;
      while i < |threads|
        invariant 0 <= i <= |threads|
        invariant forall j :: 0 <= j < i ==> threads[j].state == Finished
      {
        if threads[i].state != Finished {
          return false;
        }
        i := i + 1;
      }
      return true;
    }

    /** What keeps the threads from running when nobody is Ready. */
    method Reasons() returns (anyTimed: bool, anyBlocked: bool)
      ensures anyTimed <==> AnyTimed(threads)
      ensures anyBlocked <==> AnyStuck(threads)
    {
      anyTimed, anyBlocked := false, false;
      var i := 0;
      while i < |threads|
        invariant 0 <= i <= |threads|
        invariant anyTimed <==> exists k :: 0 <= k < i && Timed(threads[k])
        invariant anyBlocked <==> exists k :: 0 <= k < i && Stuck(threads[k])
      {
        var t := threads[i];
        if t.state == Sleeping {
          anyTimed := true;
        }
        if t.state == BlockedWait && t.wakeTick != NO_DEADLINE {
          anyTimed := true;
        }
        if t.state == BlockedJoin || (t.state == BlockedWait && t.wakeTick == NO_DEADLINE) {
          anyBlocked := true;
        }
        assert (Timed(threads[i]) ==> anyTimed) && (Stuck(threads[i]) ==> anyBlocked);
        i := i + 1;
      }
    }

    /**
     One iteration of the loop of run_until_complete, up to the switch into a fiber,
     the advance of the clock or the return.
     */
    method RunOnce() returns (outcome: Outcome)
      requires mode == Loop && CursorInRange(View())
      modifies this
      ensures (outcome, View()) == Iterate(old(View()))
      ensures |threads| == |old(threads)|
      ensures tick == old(tick) + (if outcome == Advanced then 1 else 0)
      ensures outcome == Dispatched <==> mode.Fiber?
      ensures outcome == Dispatched ==>
        && 1 <= mode.handle <= |threads| && threads[mode.handle - 1].started
        && cursor == mode.handle % |threads|
      ensures outcome == Advanced <==> mode == Loop
      ensures outcome == Completed ==> threads == old(threads)
      ensures deadlocked == (old(deadlocked) || outcome == Deadlock)
    {
      var done := AllDone();
      if done {
        mode := Host;
        return Completed;
      }
      var j := PickNext();
      if j < |threads| {
        var t := threads[j];
        threads := threads[j := if t.started then t else t.(started := true, state := Running)];
        mode := Fiber(j + 1);
        return Dispatched;
      }
      var anyTimed, anyBlocked := Reasons();
      if anyTimed {
        tick := tick + 1;
        return Advanced;
      }
      mode := Host;
      if anyBlocked {
        deadlocked := true;
        return Deadlock;
      }
      return FellThrough;
    }

    // Calls of the running fiber. Each ends with the switch to the scheduler.

    method SetThread(h: nat, t: Thread)
      requires 1 <= h <= |threads|
      modifies this
      ensures View() == old(View()).(threads := old(threads)[h - 1 := t])
    {
      threads := threads[h - 1 := t];
    }

    method ThreadYield(h: nat)
      requires Current(View(), h)
      modifies this
      ensures View() == Yield(old(View()), h)
      ensures Left(old(View()), View(), h) && threads[h - 1].state == Ready
    {
      SetThread(h, threads[h - 1].(state := Ready));
      mode := Loop;
    }

    method ThreadSleep(h: nat, ticks: nat)
      requires Current(View(), h)
      modifies this
      ensures View() == Sleep(old(View()), h, ticks)
      ensures Left(old(View()), View(), h)
      ensures ticks == 0 ==> threads[h - 1].state == Ready
      ensures ticks != 0 ==> threads[h - 1].state == Sleeping && threads[h - 1].wakeTick == tick + ticks
    {
      if ticks == 0 {
        ThreadYield(h);
        return;
      }
      SetThread(h, threads[h - 1].(state := Sleeping, wakeTick := tick + ticks));
      mode := Loop;
    }

    method ThreadBlock(h: nat, token: Token, timeout: nat)
      requires Current(View(), h)
      modifies this
      ensures View() == Block(old(View()), h, token, timeout)
      ensures Left(old(View()), View(), h)
      ensures var t := threads[h - 1];
        && t.state == BlockedWait && t.token == token && !t.timedOut
        && t.wakeTick == if timeout == NO_TIMEOUT then NO_DEADLINE else tick + timeout
    {
      SetThread(h, threads[h - 1].(
        state := BlockedWait,
        token := token,
        timedOut := false,
        wakeTick := if timeout == NO_TIMEOUT then NO_DEADLINE else tick + timeout));
      mode := Loop;
    }

    /** join; `done` says whether it returned without blocking, and `ok` what it then returned. */
    method JoinThread(h: nat, target: nat) returns (done: bool, ok: bool)
      requires Current(View(), h)
      modifies this
      ensures View() == Join(old(View()), h, target)
      ensures done <==> target == h || JoinDone(old(threads), target)
      ensures done ==> (ok <==> target != h && 1 <= target <= |threads|) && View() == old(View())
      ensures !done ==> Left(old(View()), View(), h)
      ensures !done ==> threads[h - 1].state == BlockedJoin && threads[h - 1].joinTarget == target
    {
      if target == h || target == 0 || target > |threads| {
        return true, false;
      }
      if threads[target - 1].state == Finished {
        return true, true;
      }
      SetThread(h, threads[h - 1].(state := BlockedJoin, joinTarget := target));
      mode := Loop;
      return false, true;
    }
  }
}
