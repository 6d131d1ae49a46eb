/**
 The cooperative fiber scheduler (src/cpu_sched.cpp) as a value: its thread
 table, its virtual clock, and the primitives that change them.

 A context switch ends an atomic step, so between two switches exactly one of
 three parties is active: the host, the scheduler loop of run_until_complete, or
 one fiber. `Mode` records which.
 */
module Scheduler {

  /** UINT64_MAX, the wake tick of a wait without a deadline. */
  const NO_DEADLINE: nat := 0xFFFF_FFFF_FFFF_FFFF

  /** The timeout argument that means "wait forever". */
  const NO_TIMEOUT: nat := 0

  /** Wait channels. `Tokens.Code` gives the 64-bit numbers they stand for. */
  datatype Token =
    | ObjectToken(obj: nat)
    | SectionToken(va: nat)
    | MultiToken(handle: nat)
    | DelayToken

  datatype RunState = Ready | Running | Sleeping | BlockedJoin | Finished | BlockedWait

  datatype Thread = Thread(
    state: RunState,
    started: bool,
    wakeTick: nat,
    joinTarget: nat,
    token: Token,
    timedOut: bool)

  const FRESH: Thread := Thread(Ready, false, 0, 0, DelayToken, false)

  datatype Mode = Host | Loop | Fiber(handle: nat)

  datatype Sched = Sched(
    threads: seq<Thread>,
    tick: nat,
    cursor: nat,
    mode: Mode,
    deadlocked: bool)

  const EMPTY: Sched := Sched([], 0, 0, Host, false)

  // ---------------------------------------------------------------------
  // signal()

  predicate WaitsOn(t: Thread, token: Token) {
    t.state == BlockedWait && t.token == token
  }

  function Woken(t: Thread): Thread {
    t.(state := Ready, timedOut := false)
  }

  /** The first waiter on `token` at or after `from`, or |ts| if there is none. */
  function FirstWaiter(ts: seq<Thread>, token: Token, from: nat): (i: nat)
    requires from <= |ts|
    ensures from <= i <= |ts|
    ensures i < |ts| ==> WaitsOn(ts[i], token)
    ensures forall j :: from <= j < i ==> !WaitsOn(ts[j], token)
    decreases |ts| - from
  {
    if from == |ts| || WaitsOn(ts[from], token) then from
    else FirstWaiter(ts, token, from + 1)
  }

  predicate HasWaiter(ts: seq<Thread>, token: Token) {
    exists i :: 0 <= i < |ts| && WaitsOn(ts[i], token)
  }

  /** signal(token, false): wakes the waiter that was spawned first. */
  function SignalOne(ts: seq<Thread>, token: Token): (r: seq<Thread>)
    ensures |r| == |ts|
  {
    var i := FirstWaiter(ts, token, 0);
    if i < |ts| then ts[i := Woken(ts[i])] else ts
  }

  /** signal(token, true): wakes every waiter. */
  function SignalAll(ts: seq<Thread>, token: Token): (r: seq<Thread>)
    ensures |r| == |ts|
    ensures !HasWaiter(r, token)
  {
    seq(|ts|, i requires 0 <= i < |ts| => if WaitsOn(ts[i], token) then Woken(ts[i]) else ts[i])
  }

  /** signal(token, false) called `units` times. */
  function SignalMany(ts: seq<Thread>, token: Token, units: nat): (r: seq<Thread>)
    ensures |r| == |ts|
    decreases units
  {
    if units == 0 then ts else SignalMany(SignalOne(ts, token), token, units - 1)
  }

  /** signal(MultiToken(h), false) for each handle of `waiters`, in order. */
  function SignalEach(ts: seq<Thread>, waiters: seq<nat>): (r: seq<Thread>)
    ensures |r| == |ts|
    decreases |waiters|
  {
    if waiters == [] then ts else SignalEach(SignalOne(ts, MultiToken(waiters[0])), waiters[1..])
  }

  /** `after` is `before` with some of the waiters woken by a signal and nothing else changed. */
  ghost predicate Wakes(before: seq<Thread>, after: seq<Thread>) {
    && |before| == |after|
    && forall i :: 0 <= i < |before| ==>
         after[i] == before[i] || (before[i].state == BlockedWait && after[i] == Woken(before[i]))
  }

  lemma WakesTransitive(a: seq<Thread>, b: seq<Thread>, c: seq<Thread>)
    requires Wakes(a, b) && Wakes(b, c)
    ensures Wakes(a, c)
  {
  }

  lemma {:induction false} SignalManyWakes(ts: seq<Thread>, token: Token, units: nat)
    ensures Wakes(ts, SignalMany(ts, token, units))
    ensures forall i :: 0 <= i < |ts| && ts[i].token != token ==> SignalMany(ts, token, units)[i] == ts[i]
    decreases units
  {
    if units != 0 {
      SignalManyWakes(SignalOne(ts, token), token, units - 1);
    }
  }

  lemma {:induction false} SignalEachWakes(ts: seq<Thread>, waiters: seq<nat>)
    ensures Wakes(ts, SignalEach(ts, waiters))
    ensures forall i :: 0 <= i < |ts| && !ts[i].token.MultiToken? ==> SignalEach(ts, waiters)[i] == ts[i]
    decreases |waiters|
  {
    if waiters != [] {
      SignalEachWakes(SignalOne(ts, MultiToken(waiters[0])), waiters[1..]);
    }
  }

  // ---------------------------------------------------------------------
  // Calls made by the running fiber

  predicate Current(s: Sched, h: nat) {
    s.mode == Fiber(h) && 1 <= h <= |s.threads|
  }

  /** Deadlines are computed in 64 bits; the model keeps to those that do not wrap. */
  predicate DeadlineFits(s: Sched, ticks: nat) {
    s.tick + ticks < NO_DEADLINE
  }

  /** Replaces the running fiber's record and switches to the scheduler loop. */
  function Park(s: Sched, h: nat, t: Thread): Sched
    requires Current(s, h)
  {
    s.(threads := s.threads[h - 1 := t], mode := Loop)
  }

  function Yield(s: Sched, h: nat): Sched
    requires Current(s, h)
  {
    Park(s, h, s.threads[h - 1].(state := Ready))
  }

  function Sleep(s: Sched, h: nat, ticks: nat): Sched
    requires Current(s, h)
  {
    if ticks == 0 then Yield(s, h)
    else Park(s, h, s.threads[h - 1].(state := Sleeping, wakeTick := s.tick + ticks))
  }

  function Block(s: Sched, h: nat, token: Token, timeout: nat): Sched
    requires Current(s, h)
  {
    Park(s, h, s.threads[h - 1].(
      state := BlockedWait,
      token := token,
      timedOut := false,
      wakeTick := if timeout == NO_TIMEOUT then NO_DEADLINE else s.tick + timeout))
  }

  /** thread_finish(), without the finish hooks. */
  function Finish(s: Sched, h: nat): Sched
    requires Current(s, h)
  {
    Park(s, h, s.threads[h - 1].(state := Finished))
  }

  predicate JoinDone(ts: seq<Thread>, target: nat) {
    1 <= target <= |ts| ==> ts[target - 1].state == Finished
  }

  /** join(): returns at once on a self-join, a bad handle or a finished target. */
  function Join(s: Sched, h: nat, target: nat): Sched
    requires Current(s, h)
  {
    if target == h || JoinDone(s.threads, target) then s
    else Park(s, h, s.threads[h - 1].(state := BlockedJoin, joinTarget := target))
  }

  /** spawn(): callable by the host and by fibers. */
  function Spawn(s: Sched): Sched {
    s.(threads := s.threads + [FRESH])
  }

  // ---------------------------------------------------------------------
  // pick_next() and one iteration of run_until_complete()

  function RefreshOne(ts: seq<Thread>, tick: nat, t: Thread): Thread {
    match t.state
    case BlockedJoin => if JoinDone(ts, t.joinTarget) then t.(state := Ready) else t
    case Sleeping => if t.wakeTick <= tick then t.(state := Ready) else t
    case BlockedWait => if t.wakeTick <= tick then t.(state := Ready, timedOut := true) else t
    case _ => t
  }

  /** The thread table after the three wake-up passes of pick_next(). */
  function Refresh(ts: seq<Thread>, tick: nat): (r: seq<Thread>)
    ensures |r| == |ts|
  {
    seq(|ts|, i requires 0 <= i < |ts| => RefreshOne(ts, tick, ts[i]))
  }

  /** (cursor + k) mod n, spelled out for the range the scan uses. */
  function RingIndex(cursor: nat, k: nat, n: nat): (i: nat)
    requires cursor < n && k < n
    ensures i == (if cursor + k < n then cursor + k else cursor + k - n)
  {
    RingMod(cursor + k, n);
    (cursor + k) % n
  }

  lemma RingMod(x: nat, n: nat)
    requires x < 2 * n
    ensures x % n == if x < n then x else x - n
  {
    if x < n {
      assert x / n == 0;
    } else {
      assert (x - n) / n == 0;
      assert x == n * 1 + (x - n);
    }
  }

  /** How many places after the cursor thread i comes in the round-robin order. */
  function Distance(cursor: nat, i: nat, n: nat): (k: nat)
    requires cursor < n && i < n
    ensures k < n && RingIndex(cursor, k, n) == i
    ensures forall k' | 0 <= k' < n && RingIndex(cursor, k', n) == i :: k' == k
  {
    if i >= cursor then i - cursor else i + n - cursor
  }

  /** The smallest offset k' >= k at which the round-robin order meets a Ready thread, or n. */
  function ScanReady(ts: seq<Thread>, cursor: nat, k: nat): (r: nat)
    requires cursor < |ts| && k <= |ts|
    ensures k <= r <= |ts|
    ensures r < |ts| ==> ts[RingIndex(cursor, r, |ts|)].state == Ready
    ensures forall j :: k <= j < r ==> ts[RingIndex(cursor, j, |ts|)].state != Ready
    decreases |ts| - k
  {
    if k == |ts| || ts[RingIndex(cursor, k, |ts|)].state == Ready then k
    else ScanReady(ts, cursor, k + 1)
  }

  predicate AllFinished(ts: seq<Thread>) {
    forall i :: 0 <= i < |ts| ==> ts[i].state == Finished
  }

  predicate Timed(t: Thread) {
    t.state == Sleeping || (t.state == BlockedWait && t.wakeTick != NO_DEADLINE)
  }

  predicate Stuck(t: Thread) {
    t.state == BlockedJoin || (t.state == BlockedWait && t.wakeTick == NO_DEADLINE)
  }

  predicate AnyTimed(ts: seq<Thread>) {
    exists i :: 0 <= i < |ts| && Timed(ts[i])
  }

  predicate AnyStuck(ts: seq<Thread>) {
    exists i :: 0 <= i < |ts| && Stuck(ts[i])
  }

  /** Entering a fiber: the trampoline marks a fresh thread Running, a resumed one keeps its state. */
  function SwitchIn(t: Thread): Thread {
    if t.started then t else t.(started := true, state := Running)
  }

  /** (j + 1) mod n. */
  function NextIndex(j: nat, n: nat): (i: nat)
    requires j < n
    ensures i == if j + 1 == n then 0 else j + 1
  {
    RingMod(j + 1, n);
    (j + 1) % n
  }

  predicate CursorInRange(s: Sched) {
    s.cursor < |s.threads| || s.cursor == 0
  }

  /** What one iteration of run_until_complete() ended with. */
  datatype Outcome =
    | Completed       // every thread is Finished: returns true
    | Dispatched      // switched into a fiber
    | Advanced        // nobody is Ready, the virtual clock moved by one tick
    | Deadlock        // returns false with deadlocked() set
    | FellThrough     // the last return of the function

  function Iterate(s: Sched): (r: (Outcome, Sched))
    requires s.mode == Loop && CursorInRange(s)
  {
    if AllFinished(s.threads) then (Completed, s.(mode := Host))
    else
      var ts := Refresh(s.threads, s.tick);
      var k := ScanReady(ts, s.cursor, 0);
      if k < |ts| then
        var j := RingIndex(s.cursor, k, |ts|);
        (Dispatched, s.(threads := ts[j := SwitchIn(ts[j])], cursor := NextIndex(j, |ts|), mode := Fiber(j + 1)))
      else if AnyTimed(ts) then (Advanced, s.(threads := ts, tick := s.tick + 1))
      else if AnyStuck(ts) then (Deadlock, s.(threads := ts, mode := Host, deadlocked := true))
      else (FellThrough, s.(threads := ts, mode := Host))
  }

  // ---------------------------------------------------------------------
  // The invariant of the scheduler, and what a slice of client code may do

  ghost predicate ThreadInv(s: Sched, i: nat)
    requires i < |s.threads|
  {
    var t := s.threads[i];
    && (t.state == Running ==> s.mode == Fiber(i + 1))
    && (s.mode == Fiber(i + 1) ==> t.started && (t.state == Ready || t.state == Running))
    && (t.state == Sleeping || t.state == BlockedWait ==>
          if s.mode == Loop then s.tick <= t.wakeTick else s.tick < t.wakeTick)
    && (t.state == Sleeping ==> t.wakeTick < NO_DEADLINE)
    && (t.state == BlockedWait ==> t.wakeTick <= NO_DEADLINE)
    && (t.state == BlockedJoin ==> 1 <= t.joinTarget <= |s.threads| && t.joinTarget != i + 1)
    && (!t.started ==> t.state == Ready)
  }

  ghost predicate Inv(s: Sched) {
    && s.tick < NO_DEADLINE
    && CursorInRange(s)
    && (s.mode.Fiber? ==> 1 <= s.mode.handle <= |s.threads|)
    && forall i :: 0 <= i < |s.threads| ==> ThreadInv(s, i)
  }

  /** The states in which a fiber may leave the processor. */
  ghost predicate Parked(s: Sched, i: nat, t: Thread) {
    && t.started
    && match t.state
       case Ready => true
       case Finished => true
       case BlockedJoin => 1 <= t.joinTarget <= |s.threads| && t.joinTarget != i + 1
       case Sleeping => s.tick < t.wakeTick < NO_DEADLINE
       case BlockedWait => s.tick < t.wakeTick <= NO_DEADLINE
       case Running => false
  }

  /**
   What a slice of host or fiber code between two switches may do to the
   scheduler, whatever that code is: spawn threads, wake waiters, and finally
   leave the processor in one of the `Parked` states.
   */
  ghost predicate Slice(a: Sched, b: Sched) {
    && a.mode != Loop
    && b.tick == a.tick && b.cursor == a.cursor && b.deadlocked == a.deadlocked
    && |a.threads| <= |b.threads|
    && (b.mode == a.mode || b.mode == Loop)
    && (forall i :: 0 <= i < |a.threads| ==> SliceThread(a, b, i))
    && (forall i :: |a.threads| <= i < |b.threads| ==> b.threads[i] == FRESH)
  }

  ghost predicate SliceThread(a: Sched, b: Sched, i: nat)
    requires i < |a.threads| <= |b.threads|
  {
    if a.mode == Fiber(i + 1) then
      if b.mode == a.mode then b.threads[i] == a.threads[i] else Parked(b, i, b.threads[i])
    else
      || b.threads[i] == a.threads[i]
      || (a.threads[i].state == BlockedWait && b.threads[i] == Woken(a.threads[i]))
  }

  /** Every slice of client code keeps the scheduler's invariant. */
  lemma SliceKeepsInv(a: Sched, b: Sched)
    requires Inv(a) && Slice(a, b)
    ensures Inv(b)
  {
    forall i | 0 <= i < |b.threads| ensures ThreadInv(b, i) {
      if i < |a.threads| {
        assert ThreadInv(a, i) && SliceThread(a, b, i);
      }
    }
  }

  /** A scan that finds nothing has looked at every thread. */
  lemma ScanComplete(ts: seq<Thread>, cursor: nat)
    requires cursor < |ts| && ScanReady(ts, cursor, 0) == |ts|
    ensures forall i :: 0 <= i < |ts| ==> ts[i].state != Ready
  {
    forall i | 0 <= i < |ts| ensures ts[i].state != Ready {
      var k := Distance(cursor, i, |ts|);
      assert RingIndex(cursor, k, |ts|) == i;
    }
  }

  /** One iteration of the loop keeps the invariant. */
  lemma IterateKeepsInv(s: Sched)
    requires Inv(s) && s.mode == Loop
    ensures Inv(Iterate(s).1)
  {
    if AllFinished(s.threads) {
      ModeKeepsInv(s, s.deadlocked);
    } else {
      var ts := Refresh(s.threads, s.tick);
      var k := ScanReady(ts, s.cursor, 0);
      if k < |ts| {
        DispatchKeepsInv(s, RingIndex(s.cursor, k, |ts|));
      } else {
        ScanComplete(ts, s.cursor);
        NothingRefreshed(s.threads, s.tick);
        if AnyTimed(ts) {
          AdvanceKeepsInv(s);
        } else {
          QuietKeepsInv(s);
          ModeKeepsInv(s, true);
          ModeKeepsInv(s, s.deadlocked);
        }
      }
    }
  }

  lemma DispatchKeepsInv(s: Sched, j: nat)
    requires Inv(s) && s.mode == Loop && j < |s.threads| && Refresh(s.threads, s.tick)[j].state == Ready
    ensures var ts := Refresh(s.threads, s.tick);
            Inv(s.(threads := ts[j := SwitchIn(ts[j])], cursor := NextIndex(j, |ts|), mode := Fiber(j + 1)))
  {
    var ts := Refresh(s.threads, s.tick);
    var s' := s.(threads := ts[j := SwitchIn(ts[j])], cursor := NextIndex(j, |ts|), mode := Fiber(j + 1));
    forall i | 0 <= i < |s'.threads| ensures ThreadInv(s', i) {
      assert ThreadInv(s, i);
      assert ts[i] == RefreshOne(s.threads, s.tick, s.threads[i]);
    }
  }

  lemma AdvanceKeepsInv(s: Sched)
    requires Inv(s) && s.mode == Loop && AnyTimed(s.threads)
    requires NoneDue(s)
    ensures Inv(s.(tick := s.tick + 1))
  {
    var s' := s.(tick := s.tick + 1);
    var t :| 0 <= t < |s.threads| && Timed(s.threads[t]);
    assert ThreadInv(s, t);
    forall i | 0 <= i < |s'.threads| ensures ThreadInv(s', i) {
      assert ThreadInv(s, i);
    }
  }

  /** No thread is due. */
  ghost predicate NoneDue(s: Sched) {
    forall i :: 0 <= i < |s.threads| && (s.threads[i].state == Sleeping || s.threads[i].state == BlockedWait) ==>
      s.tick < s.threads[i].wakeTick
  }

  lemma QuietKeepsInv(s: Sched)
    requires Inv(s) && s.mode == Loop && Refresh(s.threads, s.tick) == s.threads
    requires forall i :: 0 <= i < |s.threads| ==> s.threads[i].state != Ready
    ensures NoneDue(s)
  {
    NothingRefreshed(s.threads, s.tick);
  }

  lemma ModeKeepsInv(s: Sched, deadlocked: bool)
    requires Inv(s) && s.mode == Loop && (AllFinished(s.threads) || NoneDue(s))
    ensures Inv(s.(mode := Host, deadlocked := deadlocked))
  {
    var s' := s.(mode := Host, deadlocked := deadlocked);
    forall i | 0 <= i < |s'.threads| ensures ThreadInv(s', i) {
      assert ThreadInv(s, i);
    }
  }

  /** If nobody is Ready after the wake-up passes, they changed nothing. */
  lemma NothingRefreshed(ts: seq<Thread>, tick: nat)
    requires forall i :: 0 <= i < |ts| ==> Refresh(ts, tick)[i].state != Ready
    ensures Refresh(ts, tick) == ts
    ensures forall i :: 0 <= i < |ts| && (ts[i].state == Sleeping || ts[i].state == BlockedWait) ==>
      tick < ts[i].wakeTick
    ensures forall i :: 0 <= i < |ts| && ts[i].state == BlockedJoin ==> !JoinDone(ts, ts[i].joinTarget)
  {
    forall i | 0 <= i < |ts|
      ensures Refresh(ts, tick)[i] == ts[i]
      ensures (ts[i].state == Sleeping || ts[i].state == BlockedWait) ==> tick < ts[i].wakeTick
      ensures ts[i].state == BlockedJoin ==> !JoinDone(ts, ts[i].joinTarget)
    {
      assert Refresh(ts, tick)[i] == RefreshOne(ts, tick, ts[i]);
    }
  }
}
