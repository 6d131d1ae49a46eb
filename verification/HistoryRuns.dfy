/**
 Ownership, mutual exclusion and conservation over whole runs: in every reachable
 state the objects' fields equal their accounts.
 */
module HistoryRuns {
  import opened Scheduler
  import opened Kernel
  import opened WaitInvariant
  import opened WaitProofs
  import opened KernelRuns
  import opened History

  /**
   What the accounts ask of callers beyond `Allowed`: KeReleaseMutant, which has no
   ownership check, is called on an owned mutant; a wait for all names no object
   twice; KeInitializeSemaphore gets a count within the limit.
   */
  predicate Careful(s: State, c: Call) {
    match c
    case KeReleaseMutant(o) => HasMutant(s, o) ==> s.objs[o].kind.owner != 0
    case WaitMany(targets, all, _, _) => all ==> Distinct(targets)
    case KeInitializeSemaphore(count, limit) => 0 <= count <= limit
    case _ => true
  }

  ghost predicate IsCarefulRun(ss: seq<State>, ls: seq<Label>) {
    && IsRun(ss, ls)
    && forall i :: 0 <= i < |ls| && ls[i].Call? ==> Careful(ss[i], ls[i].call)
  }

  ghost predicate SetsDistinct(rs: seq<Resume>) {
    forall i :: 0 <= i < |rs| && rs[i].InMulti? && rs[i].all ==> Distinct(rs[i].objs)
  }

  // ---------------------------------------------------------------------
  // Steps

  lemma CallBooks(s: State, h: nat, c: Call)
    requires KernelInv(s) && Books(s, 0) && Caller(s, h) && s.sched.mode != Loop
    requires (h != 0 ==> s.resume[h - 1] == Body) && Allowed(s, h, c) && Careful(s, c)
    ensures Books(Apply(s, h, c), 0)
  {
    if Creates(c) {
      CreateBooks(s, h, c);
    } else if Signals(c) || c.CallResetEvent? {
      SignalBooks(s, h, c);
    } else if c.WaitOne? || c.WaitMany? || c.Enter? || c.Leave? || c.TryEnter? || c.InitSection? {
      BlockingCallBooks(s, h, c);
    } else {
      SchedulingCallBooks(s, h, c);
    }
  }

  predicate Creates(c: Call) {
    c.CreateEvent? || c.CreateMutant? || c.NtCreateSemaphore? || c.KeInitializeSemaphore? || c.ReinitializeEvent?
  }

  lemma CreateBooks(s: State, h: nat, c: Call)
    requires KernelInv(s) && Books(s, 0) && Caller(s, h) && s.sched.mode != Loop && Allowed(s, h, c)
    requires Careful(s, c) && Creates(c)
    ensures Books(Apply(s, h, c), 0)
  {
    ReturnKeepsBooks(s, h, STATUS_INVALID_PARAMETER, 0);
    if h != 0 {
      assert ThreadInv(s.sched, h - 1);
    }
    match c
    case CreateEvent(notify, signaled) => AddBooks(s, Event(notify, signaled));
    case CreateMutant(initialOwner) =>
      if !initialOwner { AddBooks(s, Mutant(1, 0, false)); } else if h != 0 { AddBooks(s, Mutant(0, h, false)); }
    case NtCreateSemaphore(count, limit) => if 0 <= count <= limit { AddBooks(s, Semaphore(count, limit)); }
    case KeInitializeSemaphore(count, limit) => AddBooks(s, Semaphore(count, limit));
    case ReinitializeEvent(o, notify, signaled) =>
      if HasEvent(s, o) { ReinitializeBooks(s, o, Event(notify, signaled)); }
    case _ =>
  }

  lemma SignalBooks(s: State, h: nat, c: Call)
    requires KernelInv(s) && Books(s, 0) && Caller(s, h) && Careful(s, c) && (Signals(c) || c.CallResetEvent?)
    ensures Books(Apply(s, h, c), 0)
  {
    ReturnKeepsBooks(s, h, STATUS_INVALID_PARAMETER, 0);
    match c
    case CallSetEvent(o) => if HasEvent(s, o) { SetEventBooks(s, o); }
    case CallResetEvent(o) => if HasEvent(s, o) { ResetEventBooks(s, o); }
    case CallPulseEvent(o) => if HasEvent(s, o) { PulseEventBooks(s, o); }
    case NtReleaseMutant(o) => if HasMutant(s, o) && s.objs[o].kind.owner != 0 { ReleaseMutantBooks(s, o); }
    case KeReleaseMutant(o) => if HasMutant(s, o) { ReleaseMutantBooks(s, o); }
    case CallReleaseSemaphore(o, adjustment) =>
      if HasSemaphore(s, o) && ReleaseFits(s.objs[o].kind, adjustment) { ReleaseSemaphoreBooks(s, o, adjustment); }
    case _ =>
  }

  lemma BlockingCallBooks(s: State, h: nat, c: Call)
    requires KernelInv(s) && Books(s, 0) && Caller(s, h) && (h != 0 ==> s.resume[h - 1] == Body)
    requires Allowed(s, h, c) && Careful(s, c)
    requires c.WaitOne? || c.WaitMany? || c.Enter? || c.Leave? || c.TryEnter? || c.InitSection?
    ensures Books(Apply(s, h, c), 0)
  {
    ReturnKeepsBooks(s, h, STATUS_INVALID_PARAMETER, 0);
    if h != 0 {
      assert s.resume[h - 1 := Body] == s.resume;
    }
    match c
    case WaitOne(o, immediate, timeout) => if Has(s, o) { EvalOneBooks(s, h, o, immediate, timeout); }
    case WaitMany(targets, all, immediate, timeout) =>
      if |targets| > 0 && forall i :: 0 <= i < |targets| ==> Has(s, targets[i]) {
        EvalManyBooks(s, h, targets, all, immediate, timeout);
      }
    case Enter(va) => EnterBooks(s, h, va);
    case Leave(va) => LeaveBooks(s, h, va);
    case TryEnter(va) => TryEnterBooks(s, h, va);
    case InitSection(va) => InitSectionBooks(s, va);
    case _ =>
  }

  predicate Schedules(c: Call) {
    c.Close? || c.Delay? || c.SpawnFiber? || c.YieldFiber? || c.SleepFiber? || c.JoinFiber? || c.ExitFiber?
  }

  lemma SchedulingCallBooks(s: State, h: nat, c: Call)
    requires KernelInv(s) && Books(s, 0) && Caller(s, h) && s.sched.mode != Loop
    requires (h != 0 ==> s.resume[h - 1] == Body) && Allowed(s, h, c) && Schedules(c)
    ensures Books(Apply(s, h, c), 0)
  {
    var s' := Apply(s, h, c);
    CallKeeps(s, h, c);
    ReturnKeepsBooks(s, h, STATUS_INVALID_PARAMETER, 0);
    if h != 0 {
      assert ThreadInv(s.sched, h - 1);
    }
    match c
    case Close(o) => if Has(s, o) { CloseBooks(s, o); }
    case Delay(ticks) =>
      if ticks == 0 { ReturnKeepsBooks(s, h, STATUS_SUCCESS, 0); } else if h != 0 { ParkBooks(s, s', h); }
    case SpawnFiber => SpawnBooks(s, s');
    case YieldFiber => if h != 0 { ParkBooks(s, s', h); }
    case SleepFiber(ticks) => if h != 0 { ParkBooks(s, s', h); }
    case JoinFiber(target) => if h != 0 { ParkBooks(s, s', h); }
    case ExitFiber => if h != 0 { ExitBooks(s, h); }
    case _ =>
  }

  lemma CloseBooks(s: State, o: nat)
    requires Books(s, 0) && o < |s.objs|
    ensures Books(s.(objs := s.objs[o := Object(Closed, [])]), 0)
  {
    var s' := s.(objs := s.objs[o := Object(Closed, [])]);
    forall o' | 0 <= o' < |s'.objs| ensures Agrees(s', o', 0) {
      assert Agrees(s, o', 0);
    }
    forall va | va in s'.sections ensures SectionAgrees(s', va) {
      assert SectionAgrees(s, va);
    }
  }

  lemma SpawnBooks(s: State, s': State)
    requires Books(s, 0) && s' == s.(sched := Spawn(s.sched), resume := s.resume + [Body])
    ensures Books(s', 0)
  {
    forall o | 0 <= o < |s.objs|
      ensures Pending(s'.sched.threads, s'.resume, o) == Pending(s.sched.threads, s.resume, o)
    {
      PendingFrame(s.sched.threads, s'.sched.threads, s.resume, s'.resume, o);
    }
    SilentKeepsBooks(s, s');
  }

  lemma IterateBooks(s: State)
    requires KernelInv(s) && Books(s, 0) && s.sched.mode == Loop
    ensures Books(s.(sched := Iterate(s.sched).1), 0)
  {
    var s' := s.(sched := Iterate(s.sched).1);
    var ts, rs, ts' := s.sched.threads, s.resume, s'.sched.threads;
    forall i | 0 <= i < |ts|
      ensures forall o :: IsPending(ts'[i], rs[i], o) == IsPending(ts[i], rs[i], o)
      ensures ts'[i].state == Finished ==> ts[i].state == Finished
    {
      assert ThreadOk(ts[i], rs[i], i + 1) && ThreadInv(s.sched, i);
      assert Refresh(ts, s.sched.tick)[i] == RefreshOne(ts, s.sched.tick, ts[i]);
    }
    forall o | 0 <= o < |s.objs| ensures Pending(ts', rs, o) == Pending(ts, rs, o) {
      PendingFrame(ts, ts', rs, rs, o);
    }
    SilentKeepsBooks(s, s');
  }

  lemma ContinueBooks(s: State, h: nat)
    requires KernelInv(s) && Books(s, 0) && s.sched.mode == Fiber(h) && Enabled(s, Continue) && SetsDistinct(s.resume)
    ensures Books(ApplyResume(s, h), 0)
  {
    assert ThreadInv(s.sched, h - 1);
    match s.resume[h - 1]
    case InWait(_, _) => ResumeOneBooks(s, h);
    case InMulti(_, _, _) => ResumeManyBooks(s, h);
    case InSection(va) => EnterBooks(s, h, va);
    case InDelay =>
      UnwindDelayKeeps(s, h);
      ParkBooks(s, Unwind(s, h), h);
      ReturnKeepsBooks(Unwind(s, h), h, STATUS_SUCCESS, 0);
  }

  // ---------------------------------------------------------------------
  // The sets of blocked waits stay distinct

  lemma OwnResumeAfterCall(s: State, h: nat, c: Call)
    requires Caller(s, h) && h != 0 && s.resume[h - 1] == Body
    ensures h <= |Apply(s, h, c).resume|
    ensures var r := Apply(s, h, c).resume[h - 1]; r.InMulti? ==> c.WaitMany? && r.objs == c.objs && r.all == c.all
  {
    CallResume(s, h, c);
    match c
    case WaitMany(targets, all, _, _) =>
      if forall i :: 0 <= i < |targets| ==> Has(s, targets[i]) {
        AcquireAllLeavesSched(s, h, targets, 0, STATUS_SUCCESS);
      }
    case ExitFiber => AbandonFromResume(s.(sched := Finish(s.sched, h)), h, 0);
    case _ =>
  }

  lemma OwnResumeAfterContinue(s: State, h: nat)
    requires KernelInv(s) && s.sched.mode == Fiber(h) && Enabled(s, Continue)
    ensures h <= |ApplyResume(s, h).resume|
    ensures var r := ApplyResume(s, h).resume[h - 1];
            r.InMulti? ==> s.resume[h - 1].InMulti? && r.objs == s.resume[h - 1].objs && r.all == s.resume[h - 1].all
  {
    if s.resume[h - 1].InMulti? {
      var targets := s.resume[h - 1].objs;
      AcquireAllLeavesSched(Unwind(s, h).(objs := Deregister(s.objs, h, targets, 0)), h, targets, 0, STATUS_SUCCESS);
    }
  }

  lemma StepKeepsSets(s: State, l: Label, s': State)
    requires KernelInv(s) && StepsTo(s, l, s') && SetsDistinct(s.resume) && (l.Call? ==> Careful(s, l.call))
    ensures SetsDistinct(s'.resume)
  {
    var g := Handle(s.sched.mode);
    forall i | 0 <= i < |s'.resume| && s'.resume[i].InMulti? && s'.resume[i].all ensures Distinct(s'.resume[i].objs) {
      if i + 1 == g {
        if l.Call? {
          OwnResumeAfterCall(s, g, l.call);
        } else if l == Continue {
          OwnResumeAfterContinue(s, g);
        }
      } else if i < |s.resume| {
        OthersResume(s, l, s', i + 1);
      } else {
        NewFibersStartInBody(s, l, s', i);
      }
    }
  }

  lemma NewFibersStartInBody(s: State, l: Label, s': State, i: nat)
    requires KernelInv(s) && StepsTo(s, l, s') && |s.resume| <= i < |s'.resume|
    ensures s'.resume[i] == Body
  {
    var g := Handle(s.sched.mode);
    if l == Continue {
      if s.resume[g - 1].InMulti? {
        var targets := s.resume[g - 1].objs;
        AcquireAllLeavesSched(Unwind(s, g).(objs := Deregister(s.objs, g, targets, 0)), g, targets, 0, STATUS_SUCCESS);
      }
    } else if l.Call? {
      CallGrowth(s, g, l.call, i);
    }
  }

  lemma CallGrowth(s: State, h: nat, c: Call, i: nat)
    requires Caller(s, h) && |s.resume| <= i < |Apply(s, h, c).resume|
    ensures Apply(s, h, c).resume[i] == Body
  {
    match c
    case WaitMany(targets, all, _, _) =>
      if forall i :: 0 <= i < |targets| ==> Has(s, targets[i]) {
        AcquireAllLeavesSched(s, h, targets, 0, STATUS_SUCCESS);
      }
    case ExitFiber => if h != 0 { AbandonFromResume(s.(sched := Finish(s.sched, h)), h, 0); }
    case _ =>
  }

  // ---------------------------------------------------------------------
  // Runs

  lemma StepBooks(s: State, l: Label, s': State)
    requires KernelInv(s) && Books(s, 0) && SetsDistinct(s.resume) && StepsTo(s, l, s')
    requires l.Call? ==> Careful(s, l.call)
    ensures Books(s', 0)
  {
    var h := Handle(s.sched.mode);
    match l
    case Call(c) => CallBooks(s, h, c);
    case Continue => ContinueBooks(s, h);
    case Schedule => IterateBooks(s);
    case Run =>
      assert s'.sched.threads == s.sched.threads;
      SilentKeepsBooks(s, s');
  }

  /** In every state of every careful run, every object and every section agrees with its account. */
  lemma {:induction false} RunBooks(ss: seq<State>, ls: seq<Label>, n: nat)
    requires IsCarefulRun(ss, ls) && n < |ss|
    ensures KernelInv(ss[n]) && Books(ss[n], 0) && SetsDistinct(ss[n].resume)
  {
    RunKeeps(ss, ls, n);
    if n > 0 {
      RunBooks(ss, ls, n - 1);
      StepAt(ss, ls, n - 1);
      StepKeepsSets(ss[n - 1], ls[n - 1], ss[n]);
      StepBooks(ss[n - 1], ls[n - 1], ss[n]);
    }
  }

  /**
   Mutant safety: SignalState is one minus the holder's acquisitions that are not yet
   released, the owner is 0 exactly when it is 1, the owner is the account's holder and
   an unfinished fiber, and no two fibers ever held the mutant at once.
   */
  lemma MutantSafety(ss: seq<State>, ls: seq<Label>, n: nat, o: nat)
    requires IsCarefulRun(ss, ls) && n < |ss| && HasMutant(ss[n], o)
    ensures var Mutant(signalState, owner, _) := ss[n].objs[o].kind;
            var a := AccountOf(ss[n].log, o);
            && signalState == 1 - a.held && a.held >= 0
            && owner == a.holder && (owner == 0 <==> signalState == 1)
            && (owner != 0 ==> Alive(ss[n].sched.threads, owner))
            && a.exclusive
  {
    RunBooks(ss, ls, n);
    assert Agrees(ss[n], o, 0);
  }

  /**
   A satisfied wait on a mutant reports STATUS_ABANDONED exactly when the mutant is
   free and its last change from held to free was the death of its holder; the report
   is made once, because the acquisition clears the flag.
   */
  lemma AbandonedIsReportedOnce(ss: seq<State>, ls: seq<Label>, n: nat, o: nat, h: nat)
    requires IsCarefulRun(ss, ls) && n < |ss| && HasMutant(ss[n], o) && h != 0 && Satisfied(ss[n].objs[o].kind, h)
    ensures var a := AccountOf(ss[n].log, o);
            Acquire(ss[n].objs[o].kind, h).1 == STATUS_ABANDONED <==> a.held == 0 && a.byDeath
    ensures Acquire(Acquire(ss[n].objs[o].kind, h).0, h).1 == STATUS_SUCCESS
  {
    RunBooks(ss, ls, n);
    assert Agrees(ss[n], o, 0);
  }

  /** Semaphores: the count is initial plus released minus acquired, and stays within its bounds. */
  lemma SemaphoreConservation(ss: seq<State>, ls: seq<Label>, n: nat, o: nat)
    requires IsCarefulRun(ss, ls) && n < |ss| && HasSemaphore(ss[n], o)
    ensures ss[n].objs[o].kind.count == AccountOf(ss[n].log, o).units
    ensures 0 <= ss[n].objs[o].kind.count <= ss[n].objs[o].kind.limit
  {
    RunBooks(ss, ls, n);
    assert Agrees(ss[n], o, 0);
  }

  /**
   Synchronization events: the units put in by sets and pulses and not yet taken out by
   a wait are the event's own signal and one for each woken fiber that has not returned
   yet. So no set is lost, and a set and a timeout never claim the same waiter.
   */
  lemma EventConservation(ss: seq<State>, ls: seq<Label>, n: nat, o: nat)
    requires IsCarefulRun(ss, ls) && n < |ss| && HasEvent(ss[n], o) && !ss[n].objs[o].kind.notify
    ensures |ss[n].resume| == |ss[n].sched.threads|
    ensures AccountOf(ss[n].log, o).units
         == Bit(ss[n].objs[o].kind.signaled) + |Pending(ss[n].sched.threads, ss[n].resume, o)|
    ensures (forall i :: 0 <= i < |ss[n].sched.threads| ==> ss[n].sched.threads[i].state != Ready) ==>
              AccountOf(ss[n].log, o).units == Bit(ss[n].objs[o].kind.signaled)
  {
    RunBooks(ss, ls, n);
    assert Agrees(ss[n], o, 0);
    var s := ss[n];
    if forall i :: 0 <= i < |s.sched.threads| ==> s.sched.threads[i].state != Ready {
      assert Pending(s.sched.threads, s.resume, o) == {};
    }
  }

  /**
   Critical sections: RecursionCount is the owner's entries minus leaves, nobody enters
   or leaves while another fiber owns, LockCount + 1 is the number of blocked fibers,
   and a free section with blocked fibers has a woken fiber on its way in.
   */
  lemma SectionSafety(ss: seq<State>, ls: seq<Label>, n: nat, va: nat)
    requires IsCarefulRun(ss, ls) && n < |ss| && va in ss[n].sections
    ensures var c, t := ss[n].sections[va], TenancyOf(ss[n].log, va);
            && c.recursion == t.depth && c.owner == t.tenant && t.exclusive
            && (c.owner == 0 <==> c.recursion == 0)
            && c.lockCount + 1 == |WaiterSet(ss[n].sched.threads, SectionToken(va))|
    ensures |ss[n].resume| == |ss[n].sched.threads|
    ensures ss[n].sections[va].owner == 0 && HasWaiter(ss[n].sched.threads, SectionToken(va)) ==>
              exists i :: 0 <= i < |ss[n].resume| && PendingSection(ss[n].sched.threads[i], ss[n].resume[i], va)
  {
    RunBooks(ss, ls, n);
    assert SectionAgrees(ss[n], va) && SectionOk(ss[n].sched.threads, ss[n].resume, va, ss[n].sections[va]);
  }

  /**
   KeReleaseMutant has no ownership check. From a sound state the mutant stays sound
   exactly when it was owned; released while free it reaches SignalState 2, and two
   fibers can then acquire it.
   */
  lemma KeReleaseNeedsAnOwner(s: State, o: nat)
    requires KernelInv(s) && Books(s, 0) && HasMutant(s, o)
    ensures |ReleaseMutant(s, o).resume| == |ReleaseMutant(s, o).sched.threads| && o < |ReleaseMutant(s, o).objs|
    ensures Agrees(ReleaseMutant(s, o), o, 0) <==> s.objs[o].kind.owner != 0
    ensures s.objs[o].kind.owner == 0 ==> ReleaseMutant(s, o).objs[o].kind.signalState == 2
    ensures s.objs[o].kind.owner == 0 ==>
              forall h, g :: h != 0 ==> Satisfied(Acquire(ReleaseMutant(s, o).objs[o].kind, h).0, g)
  {
    assert Agrees(s, o, 0);
    ReleaseMutantKeeps(s, o);
    if s.objs[o].kind.owner != 0 {
      ReleaseMutantBooks(s, o);
    }
  }

  /** A run in which a free mutant is released: its SignalState reaches 2. */
  lemma FreeMutantReleased() returns (ss: seq<State>, ls: seq<Label>)
    ensures IsRun(ss, ls) && HasMutant(ss[|ls|], 0) && ss[|ls|].objs[0].kind == Mutant(2, 0, false)
  {
    var s1 := Add(BOOT, Mutant(1, 0, false));
    assert StepsTo(BOOT, Call(CreateMutant(false)), s1);
    assert s1.objs == [Object(Mutant(1, 0, false), [])];
    assert StepsTo(s1, Call(KeReleaseMutant(0)), ReleaseMutant(s1, 0));
    EmptyRun();
    ss, ls := [BOOT], [];
    ExtendRun(ss, ls, Call(CreateMutant(false)), s1);
    ss, ls := ss + [s1], ls + [Call(CreateMutant(false))];
    ExtendRun(ss, ls, Call(KeReleaseMutant(0)), ReleaseMutant(s1, 0));
    ss, ls := ss + [ReleaseMutant(s1, 0)], ls + [Call(KeReleaseMutant(0))];
  }
}
