/**
 Timed waits over whole runs: when a wait ends, and which waits keep their timeout.
 */
module TimedWaits {
  import opened Scheduler
  import opened Kernel
  import opened WaitInvariant
  import opened WaitProofs
  import opened WaitSteps
  import opened KernelRuns
  import SchedulerRuns

  // ---------------------------------------------------------------------
  // One block, from the step that blocks to the fiber's next run

  predicate IsWait(r: Resume) {
    r.InWait? || r.InMulti?
  }

  function Channel(r: Resume, h: nat): Token
    requires IsWait(r)
  {
    if r.InWait? then ObjectToken(r.obj) else MultiToken(h)
  }

  /** Step a of fiber h, a call or an evaluation after a wake-up, ends blocked in the wait r. */
  ghost predicate BlocksAt(ss: seq<State>, ls: seq<Label>, h: nat, a: nat, r: Resume) {
    && a < |ls| < |ss| && ss[a].sched.mode == Fiber(h)
    && 1 <= h <= |ss[a + 1].resume| && ss[a + 1].resume[h - 1] == r && IsWait(r)
  }

  /** b is the next moment after a at which fiber h runs. */
  ghost predicate NextRun(ss: seq<State>, h: nat, a: nat, b: nat) {
    a < b < |ss| && ss[b].sched.mode == Fiber(h) && forall k :: a < k < b ==> ss[k].sched.mode != Fiber(h)
  }

  /** A step that leaves its fiber in a wait blocked it with the wait's timeout, counted from now. */
  lemma BlockStep(s: State, l: Label, s': State, h: nat)
    requires StepsTo(s, l, s') && s.sched.mode == Fiber(h) && 1 <= h <= |s'.resume| && IsWait(s'.resume[h - 1])
    ensures Current(s.sched, h) && DeadlineFits(s.sched, s'.resume[h - 1].timeout)
    ensures s'.sched == Block(s.sched, h, Channel(s'.resume[h - 1], h), s'.resume[h - 1].timeout)
    ensures l == Continue || (l.Call? && (l.call.WaitOne? || l.call.WaitMany?))
  {
    hide Apply, AcquireAll, Register, Deregister;
    if l.Call? {
      BlockingCall(s, l.call, h);
    } else if s.resume[h - 1].InMulti? {
      var targets := s.resume[h - 1].objs;
      AcquireAllLeavesSched(Unwind(s, h).(objs := Deregister(s.objs, h, targets, 0)), h, targets, 0, STATUS_SUCCESS);
    }
  }

  lemma BlockingCall(s: State, c: Call, h: nat)
    requires Caller(s, h) && h != 0 && s.resume[h - 1] == Body && TimesFit(s, c)
    requires h <= |Apply(s, h, c).resume| && IsWait(Apply(s, h, c).resume[h - 1])
    ensures c.WaitOne? || c.WaitMany?
    ensures var s' := Apply(s, h, c);
            DeadlineFits(s.sched, s'.resume[h - 1].timeout)
            && s'.sched == Block(s.sched, h, Channel(s'.resume[h - 1], h), s'.resume[h - 1].timeout)
  {
    if OnObjects(c) {
      ObjectCallResume(s, h, c);
    } else if c.ExitFiber? {
      AbandonFromResume(s.(sched := Finish(s.sched, h)), h, 0);
    } else if c.WaitMany? && forall i :: 0 <= i < |c.objs| ==> Has(s, c.objs[i]) {
      AcquireAllLeavesSched(s, h, c.objs, 0, STATUS_SUCCESS);
    }
  }

  /** What fiber h finds when it runs again settles its wait: it timed out, an event woke it, or it is satisfied now. */
  predicate Settled(s: State, h: nat)
    requires 1 <= h <= |s.resume| == |s.sched.threads| && IsWait(s.resume[h - 1]) && ResumeInTable(s, h)
  {
    || s.sched.threads[h - 1].timedOut
    || (s.resume[h - 1].InWait? && s.objs[s.resume[h - 1].obj].kind.Event?)
    || WouldSucceed(s, h - 1)
  }

  predicate ReturnsLast(s: State, h: nat, status: nat) {
    |s.log| > 0 && s.log[|s.log| - 1] == Returned(h, status)
  }

  /** Step s to s' ends the call with this status, or blocks fiber h again for the whole timeout. */
  ghost predicate EndsOrBlocks(s: State, s': State, h: nat, ends: bool)
    requires 1 <= h <= |s.resume| && IsWait(s.resume[h - 1]) && Current(s.sched, h)
  {
    && |s'.resume| == |s.resume|
    && if ends then
         && s'.resume[h - 1] == Body && s'.sched == s.sched
         && (exists status :: ReturnsLast(s', h, status))
         && (s.sched.threads[h - 1].timedOut ==> ReturnsLast(s', h, STATUS_TIMEOUT))
       else
         && s'.resume[h - 1] == s.resume[h - 1]
         && s'.sched == Block(s.sched, h, Channel(s.resume[h - 1], h), s.resume[h - 1].timeout)
  }

  /** The step that follows ends the call exactly if the wait is settled. */
  lemma ContinueEndsExactly(s: State, s': State, h: nat)
    requires StepsTo(s, Continue, s') && s.sched.mode == Fiber(h) && IsWait(s.resume[h - 1])
    ensures EndsOrBlocks(s, s', h, Settled(s, h))
  {
    hide ResumeOne, ResumeMany, EndsOrBlocks, Settled;
    if s.resume[h - 1].InMulti? {
      ResumeManyEndsExactly(s, h);
    } else {
      ResumeOneEndsExactly(s, h);
    }
  }

  lemma ResumeOneEndsExactly(s: State, h: nat)
    requires Caller(s, h) && h != 0 && s.resume[h - 1].InWait? && s.resume[h - 1].obj < |s.objs|
    ensures EndsOrBlocks(s, ResumeOne(s, h), h, Settled(s, h))
  {
    var s', k := ResumeOne(s, h), s.objs[s.resume[h - 1].obj].kind;
    if Settled(s, h) {
      var status := if s.sched.threads[h - 1].timedOut then STATUS_TIMEOUT
                    else if k.Event? then STATUS_SUCCESS else Acquire(k, h).1;
      assert ReturnsLast(s', h, status);
    }
  }

  lemma ResumeManyEndsExactly(s: State, h: nat)
    requires Caller(s, h) && h != 0 && s.resume[h - 1].InMulti? && InTable(s, s.resume[h - 1].objs)
    ensures EndsOrBlocks(s, ResumeMany(s, h), h, Settled(s, h))
  {
    hide AcquireAll, Register, Deregister, FirstSatisfied;
    var InMulti(targets, all, timeout) := s.resume[h - 1];
    var s', s1 := ResumeMany(s, h), Unwind(s, h).(objs := Deregister(s.objs, h, targets, 0));
    DeregisterLists(s.objs, h, targets, 0);
    AcquireAllLeavesSched(s1, h, targets, 0, STATUS_SUCCESS);
    assert AllSatisfied(s1, h, targets) == AllSatisfied(s, h, targets);
    SameFirst(s, s1, h, targets, 0);
    if Settled(s, h) {
      var status := s'.log[|s'.log| - 1].status;
      assert ReturnsLast(s', h, status);
    }
  }

  lemma {:induction false} SameFirst(s: State, s': State, h: nat, targets: seq<nat>, from: nat)
    requires InTable(s, targets) && InTable(s', targets) && from <= |targets|
    requires forall j :: 0 <= j < |targets| ==> s'.objs[targets[j]].kind == s.objs[targets[j]].kind
    ensures FirstSatisfied(s', h, targets, from) == FirstSatisfied(s, h, targets, from)
    decreases |targets| - from
  {
    if from < |targets| {
      SameFirst(s, s', h, targets, from + 1);
    }
  }

  /**
   In every run: a wait that blocks at step a with a timeout of n ticks finds its fiber
   running again, at b, still in the wait. It timed out exactly at tick a + n; it was
   woken strictly before.
   */
  lemma TimedBlockIsExact(ss: seq<State>, ls: seq<Label>, h: nat, a: nat, b: nat, r: Resume)
    requires IsRun(ss, ls) && BlocksAt(ss, ls, h, a, r) && r.timeout > 0 && NextRun(ss, h, a, b)
    ensures 1 <= h <= |ss[b].resume| == |ss[b].sched.threads| && ss[b].resume[h - 1] == r && ResumeInTable(ss[b], h)
    ensures if ss[b].sched.threads[h - 1].timedOut then ss[b].sched.tick == ss[a].sched.tick + r.timeout
            else ss[b].sched.tick < ss[a].sched.tick + r.timeout
  {
    StepAt(ss, ls, a);
    BlockStep(ss[a], ls[a], ss[a + 1], h);
    KernelRunsAreSchedulerRuns(ss, ls);
    assert SchedulerRuns.NextRun(Scheds(ss), h, a, b);
    SchedulerRuns.BlockIsExact(Scheds(ss), a, b, h, Channel(r, h), r.timeout);
    StillInCall(ss, ls, a + 1, b, h);
    RunKeeps(ss, ls, b);
    assert ResumeOk(ss[b].resume[h - 1], ss[b].objs);
  }

  /**
   And step b ends the call exactly when the wait is settled at b: then the whole wait
   kept within n ticks of step a. Otherwise step b blocks the same wait again, with a
   deadline of n ticks from b on.
   */
  lemma TimedWaitEndsExactly(ss: seq<State>, ls: seq<Label>, h: nat, a: nat, b: nat, r: Resume)
    requires IsRun(ss, ls) && BlocksAt(ss, ls, h, a, r) && r.timeout > 0 && NextRun(ss, h, a, b) && b < |ls|
    ensures 1 <= h <= |ss[b].resume| == |ss[b].sched.threads| && ss[b].resume[h - 1] == r && ResumeInTable(ss[b], h)
    ensures ls[b] == Continue && h <= |ss[b + 1].resume|
    ensures ss[b + 1].resume[h - 1] == Body <==> Settled(ss[b], h)
    ensures Settled(ss[b], h) ==> ss[b].sched.tick <= ss[a].sched.tick + r.timeout
    ensures ss[b].sched.threads[h - 1].timedOut ==> ReturnsLast(ss[b + 1], h, STATUS_TIMEOUT)
    ensures !Settled(ss[b], h) ==>
      && BlocksAt(ss, ls, h, b, r) && h <= |ss[b + 1].sched.threads|
      && ss[b + 1].sched.threads[h - 1].wakeTick == ss[b].sched.tick + r.timeout
  {
    TimedBlockIsExact(ss, ls, h, a, b, r);
    StepAt(ss, ls, b);
    ContinueEndsExactly(ss[b], ss[b + 1], h);
  }

  // ---------------------------------------------------------------------
  // Waits on one event

  lemma {:induction false} AcquireAllKeepsEvent(s: State, h: nat, targets: seq<nat>, from: nat, worst: nat, o: nat)
    requires InTable(s, targets) && from <= |targets| && HasEvent(s, o)
    ensures HasEvent(AcquireAll(s, h, targets, from, worst).0, o)
    decreases |targets| - from
  {
    if from < |targets| {
      var status := Acquire(s.objs[targets[from]].kind, h).1;
      var worst' := if status != STATUS_SUCCESS && worst == STATUS_SUCCESS then STATUS_ABANDONED + from else worst;
      AcquireAllKeepsEvent(AcquireObject(s, h, targets[from]), h, targets, from + 1, worst', o);
    }
  }

  lemma {:induction false} AbandonFromKeepsEvent(s: State, h: nat, from: nat, o: nat)
    requires from <= |s.objs| && HasEvent(s, o)
    ensures HasEvent(AbandonFrom(s, h, from), o)
    decreases |s.objs| - from
  {
    if from < |s.objs| {
      AbandonFromKeepsEvent(AbandonObject(s, h, from), h, from + 1, o);
    }
  }

  lemma EvalManyKeepsEvent(s: State, h: nat, targets: seq<nat>, all: bool, immediate: bool, timeout: nat, o: nat)
    requires Caller(s, h) && InTable(s, targets) && HasEvent(s, o)
    ensures HasEvent(EvalMany(s, h, targets, all, immediate, timeout), o)
  {
    AcquireAllKeepsEvent(s, h, targets, 0, STATUS_SUCCESS, o);
    RegisterLists(s.objs, h, targets, 0);
  }

  /** An event somebody waits on stays an event: only closing it would change that. */
  lemma EventStays(s: State, l: Label, s': State, o: nat)
    requires StepsTo(s, l, s') && HasEvent(s, o) && InUse(s, o)
    ensures HasEvent(s', o)
  {
    hide EvalMany;
    var h := Handle(s.sched.mode);
    if l == Continue {
      if s.resume[h - 1].InMulti? {
        var InMulti(targets, all, timeout) := s.resume[h - 1];
        DeregisterLists(s.objs, h, targets, 0);
        var s1 := Unwind(s, h).(objs := Deregister(s.objs, h, targets, 0));
        EvalManyKeepsEvent(s1, h, targets, all, false, timeout, o);
      }
    } else if l.Call? {
      CallKeepsEvent(s, h, l.call, o);
    }
  }

  lemma CallKeepsEvent(s: State, h: nat, c: Call, o: nat)
    requires Caller(s, h) && HasEvent(s, o) && c != Close(o)
    ensures HasEvent(Apply(s, h, c), o)
  {
    hide Apply;
    if OnObjects(c) {
      ObjectCallKeepsEvent(s, h, c, o);
    } else {
      OtherCallKeepsEvent(s, h, c, o);
    }
  }

  lemma ObjectCallKeepsEvent(s: State, h: nat, c: Call, o: nat)
    requires Caller(s, h) && HasEvent(s, o) && c != Close(o) && OnObjects(c)
    ensures HasEvent(Apply(s, h, c), o)
  {
    hide SignalMany, SignalEach, SignalAll, SignalOne;
  }

  lemma OtherCallKeepsEvent(s: State, h: nat, c: Call, o: nat)
    requires Caller(s, h) && HasEvent(s, o) && !OnObjects(c)
    ensures HasEvent(Apply(s, h, c), o)
  {
    hide EvalMany, AbandonFrom;
    if c.WaitMany? && forall i :: 0 <= i < |c.objs| ==> Has(s, c.objs[i]) {
      EvalManyKeepsEvent(s, h, c.objs, c.all, c.immediate, c.timeout, o);
    } else if c.ExitFiber? && h != 0 {
      AbandonFromKeepsEvent(s.(sched := Finish(s.sched, h)), h, 0, o);
    }
  }

  lemma {:induction false} EventStaysWhileWaiting(ss: seq<State>, ls: seq<Label>, h: nat, a: nat, b: nat,
      o: nat, n: nat)
    requires IsRun(ss, ls) && BlocksAt(ss, ls, h, a, InWait(o, n)) && HasEvent(ss[a + 1], o)
    requires a < b < |ss| && forall k :: a < k < b ==> ss[k].sched.mode != Fiber(h)
    ensures HasEvent(ss[b], o)
    decreases b
  {
    if b > a + 1 {
      EventStaysWhileWaiting(ss, ls, h, a, b - 1, o, n);
      StillInCall(ss, ls, a + 1, b - 1, h);
      assert Mentions(ss[b - 1].resume[h - 1], o);
      StepAt(ss, ls, b - 1);
      EventStays(ss[b - 1], ls[b - 1], ss[b], o);
    }
  }

  /**
   In every run: a wait on one event that blocks with a timeout of n ticks returns when
   its fiber runs next, never later than n ticks after the call, and it reports
   STATUS_TIMEOUT exactly when all n have passed.
   */
  lemma EventWaitsKeepTheirTimeout(ss: seq<State>, ls: seq<Label>, h: nat, a: nat, b: nat, o: nat, n: nat)
    requires IsRun(ss, ls) && a < b < |ls| && n > 0 && HasEvent(ss[a], o)
    requires ss[a].sched.mode == Fiber(h) && ls[a] == Call(WaitOne(o, false, n)) && !ss[a].objs[o].kind.signaled
    requires NextRun(ss, h, a, b)
    ensures ls[b] == Continue && h != 0 && h <= |ss[b + 1].resume| && ss[b + 1].resume[h - 1] == Body
    ensures ss[b].sched.tick <= ss[a].sched.tick + n
    ensures ReturnsLast(ss[b + 1], h,
                        if ss[b].sched.tick == ss[a].sched.tick + n then STATUS_TIMEOUT else STATUS_SUCCESS)
  {
    StepAt(ss, ls, a);
    StepAt(ss, ls, b);
    EventStaysWhileWaiting(ss, ls, h, a, b, o, n);
    TimedBlockIsExact(ss, ls, h, a, b, InWait(o, n));
    TimedWaitEndsExactly(ss, ls, h, a, b, InWait(o, n));
  }

  // ---------------------------------------------------------------------
  // Waits that block several times

  /** How often fiber h runs in the states after a, up to b. */
  function Runs(ss: seq<State>, h: nat, a: nat, b: nat): nat
    requires a <= b < |ss|
    decreases b
  {
    if a == b then 0 else Runs(ss, h, a, b - 1) + if ss[b].sched.mode == Fiber(h) then 1 else 0
  }

  lemma {:induction false} RunsAdd(ss: seq<State>, h: nat, a: nat, c: nat, b: nat)
    requires a <= c < b < |ss| && forall k :: c < k < b ==> ss[k].sched.mode != Fiber(h)
    ensures Runs(ss, h, a, b) == Runs(ss, h, a, c) + if ss[b].sched.mode == Fiber(h) then 1 else 0
    ensures Runs(ss, h, a, a) == 0
    decreases b
  {
    if c + 1 < b {
      RunsAdd(ss, h, a, c, b - 1);
    }
  }

  /** The last run of fiber h before b. */
  lemma {:induction false} LastRun(ss: seq<State>, h: nat, a: nat, b: nat) returns (c: nat)
    requires a < b < |ss| && ss[a].sched.mode == Fiber(h)
    ensures a <= c < b && ss[c].sched.mode == Fiber(h) && forall k :: c < k < b ==> ss[k].sched.mode != Fiber(h)
    decreases b
  {
    c := b - 1;
    if ss[c].sched.mode != Fiber(h) {
      c := LastRun(ss, h, a, b - 1);
    }
  }

  /** Each time fiber h ran after a and before b, it blocked in the wait again. */
  ghost predicate BlocksUntil(ss: seq<State>, ls: seq<Label>, h: nat, a: nat, b: nat, r: Resume) {
    && a < b < |ss| && ss[b].sched.mode == Fiber(h)
    && forall k :: a <= k < b && ss[k].sched.mode == Fiber(h) ==> BlocksAt(ss, ls, h, k, r)
  }

  /**
   In every run: a wait with a timeout of n ticks that has been woken m times since its
   call is at most m * n ticks old. Each lost race costs it at most one more timeout.
   */
  lemma {:induction false} WaitsAreBounded(ss: seq<State>, ls: seq<Label>, h: nat, a: nat, b: nat, r: Resume)
    requires IsRun(ss, ls) && IsWait(r) && r.timeout > 0 && BlocksUntil(ss, ls, h, a, b, r)
    requires ss[a].sched.mode == Fiber(h)
    ensures ss[b].sched.tick <= ss[a].sched.tick + Runs(ss, h, a, b) * r.timeout
    decreases b
  {
    hide IsRun, BlocksAt, Runs;
    var c := LastRun(ss, h, a, b);
    assert BlocksAt(ss, ls, h, c, r);
    TimedBlockIsExact(ss, ls, h, c, b, r);
    RunsAdd(ss, h, a, c, b);
    if c > a {
      WaitsAreBounded(ss, ls, h, a, c, r);
    }
    assert Runs(ss, h, a, b) * r.timeout == Runs(ss, h, a, c) * r.timeout + r.timeout;
  }
}
