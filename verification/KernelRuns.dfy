/**
 Whole runs of the kernel: any program of host and fiber code built from the
 modelled calls, interleaved by the scheduler.
 */
module KernelRuns {
  import opened Scheduler
  import opened Kernel
  import opened WaitInvariant
  import opened WaitProofs
  import opened WaitSteps
  import SchedulerRuns
  import TimeFields

  datatype Label =
    | Call(call: Call)    // the active party makes a call
    | Continue            // a fiber that was blocked in a call runs the rest of it
    | Schedule            // one iteration of run_until_complete
    | Run                 // the host calls run_until_complete

  function Handle(m: Mode): nat {
    if m.Fiber? then m.handle else 0
  }

  /**
   What the kernel asks of its callers and does not check: critical sections are used
   by fibers and only after they were initialised, and an object or section is not
   closed or initialised again while a fiber waits on it.
   */
  predicate Allowed(s: State, h: nat, c: Call) {
    && TimesFit(s, c)
    && match c
       case Close(o) => !InUse(s, o)
       case ReinitializeEvent(o, _, _) => !InUse(s, o)
       case InitSection(va) => InSection(va) !in s.resume
       case Enter(va) => h != 0 && va in s.sections
       case Leave(va) => h != 0 && va in s.sections
       case TryEnter(va) => h != 0 && va in s.sections
       case _ => true
  }

  predicate Enabled(s: State, l: Label) {
    var h := Handle(s.sched.mode);
    match l
    case Call(c) => s.sched.mode != Loop && Caller(s, h) && (h != 0 ==> s.resume[h - 1] == Body) && Allowed(s, h, c)
    case Continue =>
      && Caller(s, h) && h != 0 && s.resume[h - 1] != Body && ResumeInTable(s, h)
      && (s.resume[h - 1].InWait? || s.resume[h - 1].InMulti? ==> DeadlineFits(s.sched, s.resume[h - 1].timeout))
    case Schedule => s.sched.mode == Loop && CursorInRange(s.sched)
    case Run => s.sched.mode == Host
  }

  function Next(s: State, l: Label): State
    requires Enabled(s, l)
  {
    var h := Handle(s.sched.mode);
    match l
    case Call(c) => Apply(s, h, c)
    case Continue => ApplyResume(s, h)
    case Schedule => s.(sched := Iterate(s.sched).1)
    case Run => s.(sched := s.sched.(mode := Loop))
  }

  ghost predicate IsRun(ss: seq<State>, ls: seq<Label>) {
    && |ss| == |ls| + 1
    && ss[0] == BOOT
    && forall i :: 0 <= i < |ls| ==> StepsTo(ss[i], ls[i], ss[i + 1])
  }

  ghost predicate StepsTo(s: State, l: Label, s': State) {
    Enabled(s, l) && s' == Next(s, l)
  }

  lemma EmptyRun()
    ensures IsRun([BOOT], [])
  {
  }

  lemma ExtendRun(ss: seq<State>, ls: seq<Label>, l: Label, s: State)
    requires IsRun(ss, ls) && StepsTo(ss[|ls|], l, s)
    ensures IsRun(ss + [s], ls + [l])
  {
    var ss', ls' := ss + [s], ls + [l];
    forall i | 0 <= i < |ls'| ensures StepsTo(ss'[i], ls'[i], ss'[i + 1]) {
      if i < |ls| {
        assert StepsTo(ss[i], ls[i], ss[i + 1]);
      }
    }
  }

  // ---------------------------------------------------------------------
  // The invariant over runs

  lemma CallKeeps(s: State, h: nat, c: Call)
    requires KernelInv(s) && Caller(s, h) && s.sched.mode != Loop && (h != 0 ==> s.resume[h - 1] == Body)
    requires Allowed(s, h, c)
    ensures KernelInv(Apply(s, h, c))
  {
    match c
    case WaitOne(o, immediate, timeout) => if Has(s, o) { EvalOneKeeps(s, h, o, immediate, timeout); }
    case WaitMany(targets, all, immediate, timeout) =>
      if |targets| > 0 && forall i :: 0 <= i < |targets| ==> Has(s, targets[i]) {
        EvalManyKeeps(s, h, targets, all, immediate, timeout);
      }
    case InitSection(va) => SectionCallKeeps(s, h, c);
    case Enter(va) => SectionCallKeeps(s, h, c);
    case Leave(va) => SectionCallKeeps(s, h, c);
    case TryEnter(va) => SectionCallKeeps(s, h, c);
    case Delay(_) => SchedulingCallKeeps(s, h, c);
    case SpawnFiber => SchedulingCallKeeps(s, h, c);
    case YieldFiber => SchedulingCallKeeps(s, h, c);
    case SleepFiber(_) => SchedulingCallKeeps(s, h, c);
    case JoinFiber(_) => SchedulingCallKeeps(s, h, c);
    case ExitFiber => SchedulingCallKeeps(s, h, c);
    case _ => ObjectCallKeeps(s, h, c);
  }

  lemma SchedulingCallKeeps(s: State, h: nat, c: Call)
    requires KernelInv(s) && Caller(s, h) && s.sched.mode != Loop && (h != 0 ==> s.resume[h - 1] == Body)
    requires Allowed(s, h, c)
    requires c.Delay? || c.SpawnFiber? || c.YieldFiber? || c.SleepFiber? || c.JoinFiber? || c.ExitFiber?
    ensures KernelInv(Apply(s, h, c))
  {
    if h != 0 {
      assert ThreadInv(s.sched, h - 1) && ThreadOk(s.sched.threads[h - 1], s.resume[h - 1], h);
    }
    match c
    case Delay(ticks) => if h != 0 && ticks != 0 { DelayKeeps(s, h, ticks); }
    case SpawnFiber => SpawnKeeps(s);
    case YieldFiber => if h != 0 { LeaveProcessorKeeps(s, h, Yield(s.sched, h)); }
    case SleepFiber(ticks) => if h != 0 { LeaveProcessorKeeps(s, h, Sleep(s.sched, h, ticks)); }
    case JoinFiber(target) =>
      if h != 0 && Join(s.sched, h, target) != s.sched { LeaveProcessorKeeps(s, h, Join(s.sched, h, target)); }
    case ExitFiber => if h != 0 { ExitKeeps(s, h); }
  }

  lemma SectionCallKeeps(s: State, h: nat, c: Call)
    requires KernelInv(s) && Caller(s, h) && (h != 0 ==> s.resume[h - 1] == Body) && Allowed(s, h, c)
    requires c.InitSection? || c.Enter? || c.Leave? || c.TryEnter?
    ensures KernelInv(Apply(s, h, c))
  {
    match c
    case InitSection(va) => InitSectionKeeps(s, va);
    case Enter(va) =>
      assert s.resume[h - 1 := Body] == s.resume;
      EnterKeeps(s, h, va);
    case Leave(va) => LeaveKeeps(s, h, va);
    case TryEnter(va) => TryEnterKeeps(s, h, va);
  }

  /** The calls that create, change or close an object without waiting. */
  predicate OnObjects(c: Call) {
    c.CreateEvent? || c.CreateMutant? || c.NtCreateSemaphore? || c.KeInitializeSemaphore? || c.ReinitializeEvent?
    || c.CallResetEvent? || c.Close? || Signals(c)
  }

  predicate Signals(c: Call) {
    c.CallSetEvent? || c.CallPulseEvent? || c.NtReleaseMutant? || c.KeReleaseMutant? || c.CallReleaseSemaphore?
  }

  lemma ObjectCallKeeps(s: State, h: nat, c: Call)
    requires KernelInv(s) && Caller(s, h) && Allowed(s, h, c) && OnObjects(c)
    ensures KernelInv(Apply(s, h, c))
  {
    match c
    case CreateEvent(notify, signaled) => AddKeeps(s, Event(notify, signaled));
    case CreateMutant(initialOwner) =>
      AddKeeps(s, Mutant(1, 0, false));
      if h != 0 { AddKeeps(s, Mutant(0, h, false)); }
    case NtCreateSemaphore(count, limit) => AddKeeps(s, Semaphore(count, limit));
    case KeInitializeSemaphore(count, limit) => AddKeeps(s, Semaphore(count, limit));
    case ReinitializeEvent(o, notify, signaled) =>
      if HasEvent(s, o) { ReplaceUnusedKeeps(s, o, Event(notify, signaled)); }
    case CallResetEvent(o) => if HasEvent(s, o) { LowerKeeps(s, o, Event(s.objs[o].kind.notify, false)); }
    case Close(o) =>
      if Has(s, o) {
        ReplaceUnusedKeeps(s, o, Closed);
        assert WithKind(s, o, Closed).objs == s.objs[o := Object(Closed, [])];
      }
    case _ => SignalCallKeeps(s, h, c);
  }

  lemma SignalCallKeeps(s: State, h: nat, c: Call)
    requires KernelInv(s) && Caller(s, h) && Signals(c)
    ensures KernelInv(Apply(s, h, c))
  {
    match c
    case CallSetEvent(o) => EventCallsKeep(s, h, o);
    case CallPulseEvent(o) => EventCallsKeep(s, h, o);
    case NtReleaseMutant(o) => MutantCallsKeep(s, h, o);
    case KeReleaseMutant(o) => MutantCallsKeep(s, h, o);
    case CallReleaseSemaphore(o, adjustment) => SemaphoreCallKeeps(s, h, o, adjustment);
  }

  lemma EventCallsKeep(s: State, h: nat, o: nat)
    requires KernelInv(s) && Caller(s, h)
    ensures KernelInv(Apply(s, h, CallSetEvent(o))) && KernelInv(Apply(s, h, CallPulseEvent(o)))
  {
    if HasEvent(s, o) {
      SetEventKeeps(s, o);
      PulseEventKeeps(s, o);
    } else {
      NoteKeeps(s, Returned(h, STATUS_INVALID_PARAMETER));
    }
  }

  lemma MutantCallsKeep(s: State, h: nat, o: nat)
    requires KernelInv(s) && Caller(s, h)
    ensures KernelInv(Apply(s, h, NtReleaseMutant(o))) && KernelInv(Apply(s, h, KeReleaseMutant(o)))
  {
    NoteKeeps(s, Returned(h, STATUS_INVALID_PARAMETER));
    if HasMutant(s, o) {
      ReleaseMutantKeeps(s, o);
    }
  }

  lemma SemaphoreCallKeeps(s: State, h: nat, o: nat, adjustment: int)
    requires KernelInv(s) && Caller(s, h)
    ensures KernelInv(Apply(s, h, CallReleaseSemaphore(o, adjustment)))
  {
    NoteKeeps(s, Returned(h, STATUS_INVALID_PARAMETER));
    if HasSemaphore(s, o) && ReleaseFits(s.objs[o].kind, adjustment) {
      ReleaseSemaphoreKeeps(s, o, adjustment);
    }
  }

  lemma DelayKeeps(s: State, h: nat, ticks: nat)
    requires KernelInv(s) && Caller(s, h) && h != 0 && s.resume[h - 1] == Body && DeadlineFits(s.sched, ticks)
    ensures KernelInv(BlockIn(s, h, DelayToken, ticks, InDelay))
  {
    var s' := BlockIn(s, h, DelayToken, ticks, InDelay);
    BlockKeepsThreads(s, h, DelayToken, ticks, InDelay);
    assert ThreadOk(s'.sched.threads[h - 1], s'.resume[h - 1], h);
    ParkKeeps(s, s', h);
  }

  lemma LeaveProcessorKeeps(s: State, h: nat, sched: Sched)
    requires KernelInv(s) && Caller(s, h) && h != 0 && s.resume[h - 1] == Body
    requires |sched.threads| == |s.sched.threads| && sched == Park(s.sched, h, sched.threads[h - 1])
    requires Parked(s.sched, h - 1, sched.threads[h - 1]) && sched.threads[h - 1].state != BlockedWait
    ensures KernelInv(s.(sched := sched))
  {
    ParkedInv(s.sched, h, sched.threads[h - 1]);
    ParkKeeps(s, s.(sched := sched), h);
  }

  lemma StepKeeps(s: State, l: Label)
    requires KernelInv(s) && Enabled(s, l)
    ensures KernelInv(Next(s, l))
  {
    var h := Handle(s.sched.mode);
    match l
    case Call(c) => CallKeeps(s, h, c);
    case Continue =>
      match s.resume[h - 1] {
        case InWait(_, _) => ResumeOneKeeps(s, h);
        case InMulti(_, _, _) => ResumeManyKeeps(s, h);
        case InSection(va) => EnterKeeps(s, h, va);
        case InDelay => UnwindDelayKeeps(s, h);
      }
    case Schedule => IterateKeeps(s);
    case Run =>
      assert forall i :: 0 <= i < |s.sched.threads| ==> ThreadInv(s.sched, i) ==> ThreadInv(s.sched.(mode := Loop), i);
  }

  lemma UnwindDelayKeeps(s: State, h: nat)
    requires KernelInv(s) && Caller(s, h) && h != 0 && s.resume[h - 1] == InDelay
    ensures KernelInv(Unwind(s, h))
  {
    UnwindKeepsRest(s, h);
    forall o | 0 <= o < |s.objs| ensures ObjectOk(s.sched.threads, Unwind(s, h).resume, o, s.objs[o].kind) {
      ObjectFrame(s.sched.threads, s.sched.threads, s.resume, Unwind(s, h).resume, o, s.objs[o].kind);
    }
  }

  lemma {:induction false} RunKeeps(ss: seq<State>, ls: seq<Label>, i: nat)
    requires IsRun(ss, ls) && i < |ss|
    ensures KernelInv(ss[i])
  {
    if i > 0 {
      RunKeeps(ss, ls, i - 1);
      assert StepsTo(ss[i - 1], ls[i - 1], ss[i - 1 + 1]);
      StepKeeps(ss[i - 1], ls[i - 1]);
    }
  }

  // ---------------------------------------------------------------------
  // No lost wake-ups

  /** Fiber i + 1, blocked in a wait, would get what it waits for if it looked again now. */
  predicate WouldSucceed(s: State, i: nat)
    requires i < |s.resume| && ResumeInTable(s, i + 1)
  {
    match s.resume[i]
    case InWait(o, _) => Satisfied(s.objs[o].kind, i + 1)
    case InMulti(targets, all, _) =>
      if all then AllSatisfied(s, i + 1, targets) else FirstSatisfied(s, i + 1, targets, 0) < |targets|
    case InSection(va) => va in s.sections && (s.sections[va].owner == 0 || s.sections[va].owner == i + 1)
    case _ => false
  }

  /** A fiber blocked in a multi-object wait is never satisfied, in any reachable state. */
  lemma MultiWaitersAreUnsatisfied(s: State, i: nat)
    requires KernelInv(s) && i < |s.resume| && s.resume[i].InMulti? && s.sched.threads[i].state == BlockedWait
    ensures ResumeInTable(s, i + 1) && !WouldSucceed(s, i)
  {
    var ts, rs := s.sched.threads, s.resume;
    var InMulti(targets, all, _) := rs[i];
    assert MultiOk(ts[i], rs[i], s.objs, i + 1) && ResumeOk(rs[i], s.objs);
    if all {
      var o :| o in targets && Registered(s.objs, o, i + 1);
      assert RegisteredOk(ts, rs, o, s.objs[o].kind, i + 1);
      var j :| 0 <= j < |targets| && targets[j] == o;
      assert !Satisfied(s.objs[targets[j]].kind, i + 1);
    } else {
      forall j | 0 <= j < |targets| ensures !Satisfied(s.objs[targets[j]].kind, i + 1) {
        assert Registered(s.objs, targets[j], i + 1);
        assert RegisteredOk(ts, rs, targets[j], s.objs[targets[j]].kind, i + 1);
      }
    }
  }

  /** A blocked event waiter is never satisfied; other single waiters may be only while a woken fiber is on its way. */
  lemma SatisfiedWaiterHasCompetitor(s: State, i: nat)
    requires KernelInv(s) && i < |s.resume| && s.sched.threads[i].state == BlockedWait
    ensures ResumeInTable(s, i + 1)
    ensures WouldSucceed(s, i) ==>
      match s.resume[i]
      case InWait(o, _) => !s.objs[o].kind.Event? && |Pending(s.sched.threads, s.resume, o)| >= 1
      case InSection(va) => exists j :: 0 <= j < |s.resume| && PendingSection(s.sched.threads[j], s.resume[j], va)
      case _ => false
  {
    var ts, rs := s.sched.threads, s.resume;
    assert ThreadOk(ts[i], rs[i], i + 1) && ResumeOk(rs[i], s.objs);
    match rs[i] {
      case InWait(o, _) =>
        assert WaitsOn(ts[i], ObjectToken(o));
        assert ObjectOk(ts, rs, o, s.objs[o].kind);
      case InMulti(_, _, _) => MultiWaitersAreUnsatisfied(s, i);
      case InSection(va) =>
        assert WaitsOn(ts[i], SectionToken(va));
        assert SectionOk(ts, rs, va, s.sections[va]);
      case _ =>
    }
  }

  /**
   No lost wake-ups: in every state of every run in which no fiber is Ready, no
   blocked fiber would succeed if it looked again, whether it waits on an event, a
   mutant, a semaphore, any or all of a set, or a critical section.
   */
  lemma NoLostWakeups(ss: seq<State>, ls: seq<Label>, n: nat, i: nat)
    requires IsRun(ss, ls) && n < |ss| && i < |ss[n].resume| <= |ss[n].sched.threads|
    requires forall j :: 0 <= j < |ss[n].sched.threads| ==> ss[n].sched.threads[j].state != Ready
    requires ss[n].sched.threads[i].state == BlockedWait
    ensures ResumeInTable(ss[n], i + 1) && !WouldSucceed(ss[n], i)
  {
    RunKeeps(ss, ls, n);
    var s := ss[n];
    SatisfiedWaiterHasCompetitor(s, i);
    if s.resume[i].InWait? {
      assert Pending(s.sched.threads, s.resume, s.resume[i].obj) == {};
    }
  }

  // ---------------------------------------------------------------------
  // The kernel as a client of the scheduler

  lemma WakesAreSlices(s: Sched, ts: seq<Thread>)
    requires Scheduler.Inv(s) && s.mode != Loop && Wakes(s.threads, ts)
    ensures Slice(s, s.(threads := ts))
  {
    forall i | 0 <= i < |ts| ensures SliceThread(s, s.(threads := ts), i) {
      assert ThreadInv(s, i);
    }
  }

  lemma ParkThenWake(a: Sched, h: nat, t: Thread, ts: seq<Thread>)
    requires Scheduler.Inv(a) && Current(a, h) && Parked(a, h - 1, t) && t.state != BlockedWait
    requires Wakes(Park(a, h, t).threads, ts)
    ensures Slice(a, Park(a, h, t).(threads := ts))
  {
    var b := Park(a, h, t).(threads := ts);
    forall i | 0 <= i < |ts| ensures SliceThread(a, b, i) {
      assert ThreadInv(a, i);
    }
  }

  lemma WakeObjectWakes(s: State, o: nat, units: nat)
    requires o < |s.objs|
    ensures WakeObject(s, o, units).sched == s.sched.(threads := WakeObject(s, o, units).sched.threads)
    ensures Wakes(s.sched.threads, WakeObject(s, o, units).sched.threads)
  {
    SignalManyWakes(s.sched.threads, ObjectToken(o), units);
    SignalEachWakes(SignalMany(s.sched.threads, ObjectToken(o), units), s.objs[o].waiters);
    WakesTransitive(s.sched.threads, SignalMany(s.sched.threads, ObjectToken(o), units),
                    WakeObject(s, o, units).sched.threads);
  }

  lemma {:induction false} AbandonFromWakes(s: State, h: nat, from: nat)
    requires from <= |s.objs|
    ensures AbandonFrom(s, h, from).sched == s.sched.(threads := AbandonFrom(s, h, from).sched.threads)
    ensures Wakes(s.sched.threads, AbandonFrom(s, h, from).sched.threads)
    decreases |s.objs| - from
  {
    if from < |s.objs| {
      var s' := AbandonObject(s, h, from);
      WakeObjectWakes(WithKind(s, from, Mutant(1, 0, true)), from, 1);
      AbandonFromWakes(s', h, from + 1);
      WakesTransitive(s.sched.threads, s'.sched.threads, AbandonFrom(s, h, from).sched.threads);
    }
  }

  lemma {:induction false} AcquireAllLeavesSched(s: State, h: nat, targets: seq<nat>, from: nat, worst: nat)
    requires InTable(s, targets) && from <= |targets|
    ensures AcquireAll(s, h, targets, from, worst).0.sched == s.sched
    ensures AcquireAll(s, h, targets, from, worst).0.resume == s.resume
    decreases |targets| - from
  {
    if from < |targets| {
      var status := Acquire(s.objs[targets[from]].kind, h).1;
      var worst' := if status != STATUS_SUCCESS && worst == STATUS_SUCCESS then STATUS_ABANDONED + from else worst;
      AcquireAllLeavesSched(AcquireObject(s, h, targets[from]), h, targets, from + 1, worst');
    }
  }

  /** Waits and section entries either leave the scheduler alone or block the caller. */
  lemma WaitsAreSlices(s: State, h: nat, s': State, token: Token, timeout: nat)
    requires Scheduler.Inv(s.sched) && s.sched.mode != Loop && DeadlineFits(s.sched, timeout)
    requires s'.sched == s.sched || (Caller(s, h) && h != 0 && s'.sched == Block(s.sched, h, token, timeout))
    ensures Slice(s.sched, s'.sched)
  {
    if s'.sched == s.sched {
      WakesAreSlices(s.sched, s.sched.threads);
    } else {
      SchedulerRuns.CallsAreSlices(s.sched, h, timeout, token, 0);
    }
  }

  /** What a call does to the scheduler is a slice. */
  lemma CallIsSlice(s: State, h: nat, c: Call)
    requires Scheduler.Inv(s.sched) && Caller(s, h) && s.sched.mode != Loop && Allowed(s, h, c)
    ensures Slice(s.sched, Apply(s, h, c).sched)
  {
    if Signals(c) {
      SignalCallIsSlice(s, h, c);
    } else if c.WaitOne? || c.WaitMany? || c.Enter? || c.Delay? {
      WaitCallIsSlice(s, h, c);
    } else if c.Leave? {
      WakesAreSlices(s.sched, Apply(s, h, c).sched.threads);
    } else {
      OtherCallIsSlice(s, h, c);
    }
  }

  lemma SignalCallIsSlice(s: State, h: nat, c: Call)
    requires Scheduler.Inv(s.sched) && Caller(s, h) && s.sched.mode != Loop && Signals(c)
    ensures Slice(s.sched, Apply(s, h, c).sched)
  {
    SignalCallWakes(s, h, c);
    WakesAreSlices(s.sched, Apply(s, h, c).sched.threads);
  }

  /** Nothing of the scheduler changed but that some waiters were woken. */
  ghost predicate OnlyWakes(a: Sched, b: Sched) {
    b == a.(threads := b.threads) && Wakes(a.threads, b.threads)
  }

  lemma OnlyWakesRefl(a: Sched)
    ensures OnlyWakes(a, a)
  {
  }

  lemma SignalCallWakes(s: State, h: nat, c: Call)
    requires Caller(s, h) && Signals(c)
    ensures OnlyWakes(s.sched, Apply(s, h, c).sched)
  {
    hide SetEvent, PulseEvent, ReleaseMutant, ReleaseSemaphore, OnlyWakes;
    OnlyWakesRefl(s.sched);
    match c {
      case CallSetEvent(o) => if HasEvent(s, o) { EventWakes(s, o); }
      case CallPulseEvent(o) => if HasEvent(s, o) { EventWakes(s, o); }
      case NtReleaseMutant(o) => if HasMutant(s, o) { ReleaseWakes(s, o); }
      case KeReleaseMutant(o) => if HasMutant(s, o) { ReleaseWakes(s, o); }
      case CallReleaseSemaphore(o, adjustment) =>
        if HasSemaphore(s, o) && ReleaseFits(s.objs[o].kind, adjustment) { SemaphoreWakes(s, o, adjustment); }
    }
  }

  lemma WaitCallIsSlice(s: State, h: nat, c: Call)
    requires Scheduler.Inv(s.sched) && Caller(s, h) && s.sched.mode != Loop && Allowed(s, h, c)
    requires c.WaitOne? || c.WaitMany? || c.Enter? || c.Delay?
    ensures Slice(s.sched, Apply(s, h, c).sched)
  {
    hide Slice;
    var s' := Apply(s, h, c);
    match c
    case WaitOne(o, immediate, timeout) => WaitsAreSlices(s, h, s', ObjectToken(o), timeout);
    case WaitMany(targets, all, immediate, timeout) =>
      hide Slice;
      WaitManySched(s, h, targets, all, immediate, timeout);
      WaitsAreSlices(s, h, s', MultiToken(h), timeout);
    case Enter(va) => WaitsAreSlices(s, h, s', SectionToken(va), NO_TIMEOUT);
    case Delay(ticks) => WaitsAreSlices(s, h, s', DelayToken, ticks);
    case _ =>
  }

  lemma WaitManySched(s: State, h: nat, targets: seq<nat>, all: bool, immediate: bool, timeout: nat)
    requires Caller(s, h)
    ensures var s' := Apply(s, h, WaitMany(targets, all, immediate, timeout));
            s'.sched == s.sched || (h != 0 && s'.sched == Block(s.sched, h, MultiToken(h), timeout))
  {
    if forall i :: 0 <= i < |targets| ==> Has(s, targets[i]) {
      AcquireAllLeavesSched(s, h, targets, 0, STATUS_SUCCESS);
    }
  }

  lemma OtherCallIsSlice(s: State, h: nat, c: Call)
    requires Scheduler.Inv(s.sched) && Caller(s, h) && s.sched.mode != Loop && Allowed(s, h, c)
    requires !Signals(c) && !c.WaitOne? && !c.WaitMany? && !c.Enter? && !c.Delay? && !c.Leave?
    ensures Slice(s.sched, Apply(s, h, c).sched)
  {
    WakesAreSlices(s.sched, s.sched.threads);
    match c
    case SpawnFiber => SchedulerRuns.SignalsAreSlices(s.sched, DelayToken);
    case YieldFiber => if h != 0 { SchedulerRuns.CallsAreSlices(s.sched, h, 0, DelayToken, 0); }
    case SleepFiber(ticks) => if h != 0 { SchedulerRuns.CallsAreSlices(s.sched, h, ticks, DelayToken, 0); }
    case JoinFiber(target) => if h != 0 { SchedulerRuns.CallsAreSlices(s.sched, h, 0, DelayToken, target); }
    case ExitFiber =>
      if h != 0 {
        var s1 := s.(sched := Finish(s.sched, h));
        assert ThreadInv(s.sched, h - 1);
        AbandonFromWakes(s1, h, 0);
        ParkThenWake(s.sched, h, s1.sched.threads[h - 1], Exit(s, h).sched.threads);
      }
    case _ =>
  }

  lemma EventWakes(s: State, o: nat)
    requires HasEvent(s, o)
    ensures OnlyWakes(s.sched, SetEvent(s, o).sched) && OnlyWakes(s.sched, PulseEvent(s, o).sched)
  {
    var ts, token := s.sched.threads, ObjectToken(o);
    SignalEachWakes(SignalAll(ts, token), s.objs[o].waiters);
    SignalEachWakes(SignalOne(ts, token), s.objs[o].waiters);
  }

  lemma ReleaseWakes(s: State, o: nat)
    requires HasMutant(s, o)
    ensures OnlyWakes(s.sched, ReleaseMutant(s, o).sched)
  {
    var Mutant(signalState, owner, abandoned) := s.objs[o].kind;
    WakeObjectWakes(WithKind(s, o, Mutant(signalState + 1, 0, abandoned)), o, 1);
  }

  lemma SemaphoreWakes(s: State, o: nat, adjustment: int)
    requires HasSemaphore(s, o) && ReleaseFits(s.objs[o].kind, adjustment)
    ensures OnlyWakes(s.sched, ReleaseSemaphore(s, o, adjustment).sched)
  {
    var Semaphore(count, limit) := s.objs[o].kind;
    WakeObjectWakes(WithKind(s, o, Semaphore(count + adjustment, limit)), o, WakeUnits(adjustment, count + adjustment));
  }

  lemma ContinueIsSlice(s: State, h: nat)
    requires Scheduler.Inv(s.sched) && s.sched.mode == Fiber(h) && Enabled(s, Continue)
    ensures Slice(s.sched, ApplyResume(s, h).sched)
  {
    var s' := ApplyResume(s, h);
    match s.resume[h - 1]
    case InWait(o, timeout) => WaitsAreSlices(s, h, s', ObjectToken(o), timeout);
    case InMulti(targets, all, timeout) =>
      DeregisterLists(s.objs, h, targets, 0);
      AcquireAllLeavesSched(Unwind(s, h).(objs := Deregister(s.objs, h, targets, 0)), h, targets, 0, STATUS_SUCCESS);
      WaitsAreSlices(s, h, s', MultiToken(h), timeout);
    case InSection(va) => WaitsAreSlices(s, h, s', SectionToken(va), NO_TIMEOUT);
    case InDelay => WaitsAreSlices(s, h, s', DelayToken, 0);
  }

  /** The scheduler's part of a kernel run. */
  function Scheds(ss: seq<State>): seq<Sched> {
    seq(|ss|, i requires 0 <= i < |ss| => ss[i].sched)
  }

  /**
   Every kernel run, seen through the scheduler, is a scheduler run: so the deadlock
   verdict, the round-robin bound and exact virtual time hold of it.
   */
  lemma KernelRunsAreSchedulerRuns(ss: seq<State>, ls: seq<Label>)
    requires IsRun(ss, ls)
    ensures SchedulerRuns.IsRun(Scheds(ss))
  {
    forall i | 0 <= i < |ss| - 1 ensures SchedulerRuns.StepsAt(Scheds(ss), i) {
      RunKeeps(ss, ls, i);
      var s, l := ss[i], ls[i];
      assert StepsTo(s, l, ss[i + 1]);
      match l
      case Call(c) => CallIsSlice(s, Handle(s.sched.mode), c);
      case Continue => ContinueIsSlice(s, s.sched.mode.handle);
      case Schedule =>
      case Run =>
        var s' := ss[i + 1].sched;
        assert forall j :: 0 <= j < |s.sched.threads| ==> SliceThread(s.sched, s', j);
    }
  }

  /** At a reported deadlock the wake-up theorem applies: no blocked fiber could have gone on. */
  lemma DeadlocksAreReal(ss: seq<State>, ls: seq<Label>, n: nat, i: nat)
    requires IsRun(ss, ls) && n < |ls| && ls[n] == Schedule && Enabled(ss[n], Schedule)
    requires Iterate(ss[n].sched).0 == Deadlock
    requires i < |ss[n].resume| <= |ss[n].sched.threads| && ss[n].sched.threads[i].state == BlockedWait
    ensures SchedulerRuns.Hopeless(ss[n].sched.threads)
    ensures ResumeInTable(ss[n], i + 1) && !WouldSucceed(ss[n], i)
  {
    KernelRunsAreSchedulerRuns(ss, ls);
    SchedulerRuns.VerdictIsExact(Scheds(ss), n);
    RunKeeps(ss, ls, n);
    assert forall j :: 0 <= j < |ss[n].sched.threads| ==> ss[n].sched.threads[j].state != Ready;
    NoLostWakeups(ss, ls, n, i);
  }

  /** A KeDelayExecutionThread of n ticks resumes exactly n ticks later: nobody signals its token. */
  lemma DelayIsExact(ss: seq<State>, ls: seq<Label>, a: nat, b: nat, h: nat, n: nat)
    requires IsRun(ss, ls) && a < b < |ss| && n > 0
    requires ss[a].sched.mode == Fiber(h) && ls[a] == Call(Delay(n)) && ss[b].sched.mode == Fiber(h)
    requires forall k :: a < k < b ==> ss[k].sched.mode != Fiber(h)
    ensures ss[b].sched.tick == ss[a].sched.tick + n
  {
    KernelRunsAreSchedulerRuns(ss, ls);
    assert StepsTo(ss[a], ls[a], ss[a + 1]);
    SchedulerRuns.BlockIsExact(Scheds(ss), a, b, h, DelayToken, n);
    StillInCall(ss, ls, a + 1, b, h);
    RunKeeps(ss, ls, b);
    assert ThreadOk(ss[b].sched.threads[h - 1], ss[b].resume[h - 1], h) && ThreadInv(ss[b].sched, h - 1);
  }

  /** In every run, a fiber that joins another one runs again only when that one has finished. */
  lemma JoinWaitsForTheEnd(ss: seq<State>, ls: seq<Label>, a: nat, b: nat, h: nat, target: nat)
    requires IsRun(ss, ls) && a < b < |ss| && target != h && 1 <= target <= |ss[a].sched.threads|
    requires ss[a].sched.mode == Fiber(h) && ls[a] == Call(JoinFiber(target)) && ss[b].sched.mode == Fiber(h)
    requires forall k :: a < k < b ==> ss[k].sched.mode != Fiber(h)
    ensures target <= |ss[b].sched.threads| && ss[b].sched.threads[target - 1].state == Finished
  {
    KernelRunsAreSchedulerRuns(ss, ls);
    assert StepsTo(ss[a], ls[a], ss[a + 1]);
    SchedulerRuns.JoinIsExact(Scheds(ss), a, b, h, target);
  }

  /**
   KeDelayExecutionThread with a relative interval of -q units of 100 ns, below 2^32
   milliseconds, resumes exactly the interval later, rounded up to whole milliseconds.
   */
  lemma RelativeDelayIsExact(ss: seq<State>, ls: seq<Label>, a: nat, b: nat, h: nat, q: int)
    requires TimeFields.Int64(q) && q < 0 && TimeFields.Ceiling(-q) < 0x1_0000_0000
    requires IsRun(ss, ls) && a < b < |ss|
    requires ss[a].sched.mode == Fiber(h) && ls[a] == Call(Delay(TimeFields.RelativeTicks(q).1))
    requires ss[b].sched.mode == Fiber(h)
    requires forall k :: a < k < b ==> ss[k].sched.mode != Fiber(h)
    ensures ss[b].sched.tick == ss[a].sched.tick + TimeFields.Ceiling(-q)
  {
    TimeFields.RelativeDelayIsExactBelow32Bits(q);
    DelayIsExact(ss, ls, a, b, h, TimeFields.Ceiling(-q));
  }

  /** A fiber's resume point does not change while others run. */
  lemma {:induction false} StillInCall(ss: seq<State>, ls: seq<Label>, a: nat, b: nat, h: nat)
    requires IsRun(ss, ls) && a <= b < |ss| && 1 <= h <= |ss[a].resume|
    requires forall k :: a <= k < b ==> ss[k].sched.mode != Fiber(h)
    ensures h <= |ss[b].resume| && ss[b].resume[h - 1] == ss[a].resume[h - 1]
    decreases b
  {
    if a < b {
      StillInCall(ss, ls, a, b - 1, h);
      RunKeeps(ss, ls, b - 1);
      StepAt(ss, ls, b - 1);
      OthersResume(ss[b - 1], ls[b - 1], ss[b], h);
    }
  }

  lemma StepAt(ss: seq<State>, ls: seq<Label>, i: nat)
    requires IsRun(ss, ls) && i < |ls|
    ensures StepsTo(ss[i], ls[i], ss[i + 1])
  {
  }

  lemma OthersResume(s: State, l: Label, s': State, h: nat)
    requires StepsTo(s, l, s') && 1 <= h <= |s.resume| && s.sched.mode != Fiber(h)
    ensures h <= |s'.resume| && s'.resume[h - 1] == s.resume[h - 1]
  {
    hide Apply, AcquireAll, Register, Deregister;
    var g := Handle(s.sched.mode);
    match l
    case Call(c) => CallResume(s, g, c);
    case Continue =>
      if s.resume[g - 1].InMulti? {
        var targets := s.resume[g - 1].objs;
        AcquireAllLeavesSched(Unwind(s, g).(objs := Deregister(s.objs, g, targets, 0)), g, targets, 0, STATUS_SUCCESS);
      }
    case _ =>
  }

  /** A call touches no resume point but its caller's. */
  lemma CallResume(s: State, h: nat, c: Call)
    requires Caller(s, h)
    ensures var rs := Apply(s, h, c).resume;
            |s.resume| <= |rs| && forall i :: 0 <= i < |s.resume| && i != h - 1 ==> rs[i] == s.resume[i]
  {
    if OnObjects(c) {
      ObjectCallResume(s, h, c);
    } else {
      OtherCallResume(s, h, c);
    }
  }

  lemma ObjectCallResume(s: State, h: nat, c: Call)
    requires Caller(s, h) && OnObjects(c)
    ensures Apply(s, h, c).resume == s.resume
  {
  }

  lemma OtherCallResume(s: State, h: nat, c: Call)
    requires Caller(s, h) && !OnObjects(c)
    ensures var rs := Apply(s, h, c).resume;
            |s.resume| <= |rs| && forall i :: 0 <= i < |s.resume| && i != h - 1 ==> rs[i] == s.resume[i]
  {
    match c
    case WaitMany(targets, _, _, _) =>
      if forall i :: 0 <= i < |targets| ==> Has(s, targets[i]) {
        AcquireAllLeavesSched(s, h, targets, 0, STATUS_SUCCESS);
      }
    case ExitFiber => if h != 0 { AbandonFromResume(s.(sched := Finish(s.sched, h)), h, 0); }
    case _ =>
  }

  lemma {:induction false} AbandonFromResume(s: State, h: nat, from: nat)
    requires from <= |s.objs|
    ensures AbandonFrom(s, h, from).resume == s.resume
    decreases |s.objs| - from
  {
    if from < |s.objs| {
      AbandonFromResume(AbandonObject(s, h, from), h, from + 1);
    }
  }
}
