/**
 Critical sections are not abandoned like mutants: a fiber that exits inside one leaves it
 owned, and whoever is blocked on it stays blocked for good.
 */
module OrphanSections {
  import opened Scheduler
  import opened Kernel
  import opened WaitInvariant
  import opened KernelRuns
  import opened LateWaits
  import SchedulerRuns

  /** The section is owned by a fiber that has finished. */
  predicate Orphaned(s: State, va: nat) {
    && va in s.sections && 1 <= s.sections[va].owner <= |s.sched.threads|
    && s.sched.threads[s.sections[va].owner - 1].state == Finished
  }

  /** Fiber h is blocked in RtlEnterCriticalSection on it. */
  predicate BlockedAt(s: State, va: nat, h: nat) {
    && 1 <= h <= |s.resume| == |s.sched.threads|
    && s.resume[h - 1] == InSection(va) && s.sched.threads[h - 1].state == BlockedWait
  }

  // ---------------------------------------------------------------------
  // Only an exit finishes a fiber, only a leave wakes a section's waiter

  /** A fiber that is neither running nor on an object's channel is not touched by waking an object. */
  lemma WakeObjectSpares(s: State, o: nat, units: nat, i: nat)
    requires o < |s.objs| && i < |s.sched.threads| && s.sched.threads[i].token.SectionToken?
    ensures WakeObject(s, o, units).sched.threads[i] == s.sched.threads[i]
  {
    SignalManyWakes(s.sched.threads, ObjectToken(o), units);
    SignalEachWakes(SignalMany(s.sched.threads, ObjectToken(o), units), s.objs[o].waiters);
  }

  lemma {:induction false} AbandonSpares(s: State, h: nat, from: nat, i: nat)
    requires from <= |s.objs| && i < |s.sched.threads| && s.sched.threads[i].token.SectionToken?
    ensures i < |AbandonFrom(s, h, from).sched.threads|
    ensures AbandonFrom(s, h, from).sched.threads[i] == s.sched.threads[i]
    ensures AbandonFrom(s, h, from).sections == s.sections
    decreases |s.objs| - from
  {
    if from < |s.objs| {
      WakeObjectSpares(WithKind(s, from, Mutant(1, 0, true)), from, 1, i);
      AbandonSpares(AbandonObject(s, h, from), h, from + 1, i);
    }
  }

  lemma SignalSpares(s: State, h: nat, c: Call, i: nat)
    requires Caller(s, h) && Signals(c) && i < |s.sched.threads| && s.sched.threads[i].token.SectionToken?
    ensures i < |Apply(s, h, c).sched.threads| && Apply(s, h, c).sched.threads[i] == s.sched.threads[i]
    ensures Apply(s, h, c).sections == s.sections
  {
    hide WakeObject;
    match c
    case CallSetEvent(o) => if HasEvent(s, o) { EventSpares(s, o, i); }
    case CallPulseEvent(o) => if HasEvent(s, o) { EventSpares(s, o, i); }
    case NtReleaseMutant(o) => if HasMutant(s, o) { ReleaseSpares(s, o, i); }
    case KeReleaseMutant(o) => if HasMutant(s, o) { ReleaseSpares(s, o, i); }
    case CallReleaseSemaphore(o, adjustment) =>
      if HasSemaphore(s, o) && ReleaseFits(s.objs[o].kind, adjustment) { UnitsSpare(s, o, adjustment, i); }
  }

  lemma EventSpares(s: State, o: nat, i: nat)
    requires HasEvent(s, o) && i < |s.sched.threads| && s.sched.threads[i].token.SectionToken?
    ensures SetEvent(s, o).sections == s.sections == PulseEvent(s, o).sections
    ensures i < |SetEvent(s, o).sched.threads| && SetEvent(s, o).sched.threads[i] == s.sched.threads[i]
    ensures i < |PulseEvent(s, o).sched.threads| && PulseEvent(s, o).sched.threads[i] == s.sched.threads[i]
  {
    var ts, token := s.sched.threads, ObjectToken(o);
    SignalEachWakes(SignalAll(ts, token), s.objs[o].waiters);
    SignalEachWakes(SignalOne(ts, token), s.objs[o].waiters);
  }

  lemma ReleaseSpares(s: State, o: nat, i: nat)
    requires HasMutant(s, o) && i < |s.sched.threads| && s.sched.threads[i].token.SectionToken?
    ensures ReleaseMutant(s, o).sections == s.sections
    ensures i < |ReleaseMutant(s, o).sched.threads| && ReleaseMutant(s, o).sched.threads[i] == s.sched.threads[i]
  {
    var Mutant(signalState, owner, abandoned) := s.objs[o].kind;
    WakeObjectSpares(WithKind(s, o, Mutant(signalState + 1, 0, abandoned)), o, 1, i);
  }

  lemma UnitsSpare(s: State, o: nat, adjustment: int, i: nat)
    requires HasSemaphore(s, o) && ReleaseFits(s.objs[o].kind, adjustment)
    requires i < |s.sched.threads| && s.sched.threads[i].token.SectionToken?
    ensures ReleaseSemaphore(s, o, adjustment).sections == s.sections
    ensures i < |ReleaseSemaphore(s, o, adjustment).sched.threads|
    ensures ReleaseSemaphore(s, o, adjustment).sched.threads[i] == s.sched.threads[i]
  {
    var Semaphore(count, limit) := s.objs[o].kind;
    var units := WakeUnits(adjustment, count + adjustment);
    WakeObjectSpares(WithKind(s, o, Semaphore(count + adjustment, limit)), o, units, i);
  }

  /** Thread i and the owner of section va are as they were. */
  predicate Spares(s: State, s': State, va: nat, i: nat) {
    && i < |s.sched.threads| && i < |s'.sched.threads| && s'.sched.threads[i] == s.sched.threads[i]
    && va in s.sections && va in s'.sections && s'.sections[va].owner == s.sections[va].owner
  }

  lemma {:induction false} AcquireAllSections(s: State, h: nat, targets: seq<nat>, from: nat, worst: nat)
    requires InTable(s, targets) && from <= |targets|
    ensures AcquireAll(s, h, targets, from, worst).0.sections == s.sections
    decreases |targets| - from
  {
    if from < |targets| {
      var status := Acquire(s.objs[targets[from]].kind, h).1;
      var worst' := if status != STATUS_SUCCESS && worst == STATUS_SUCCESS then STATUS_ABANDONED + from else worst;
      AcquireAllSections(AcquireObject(s, h, targets[from]), h, targets, from + 1, worst');
    }
  }

  lemma EvalManySpares(s: State, h: nat, targets: seq<nat>, all: bool, immediate: bool, timeout: nat, va: nat, i: nat)
    requires Caller(s, h) && InTable(s, targets) && va in s.sections && i < |s.sched.threads| && i + 1 != h
    ensures Spares(s, EvalMany(s, h, targets, all, immediate, timeout), va, i)
  {
    AcquireAllSections(s, h, targets, 0, STATUS_SUCCESS);
    AcquireAllLeavesSched(s, h, targets, 0, STATUS_SUCCESS);
  }

  /** A call by another fiber than the owner, and other than an initialisation, spares the section and its waiters. */
  lemma CallSpares(s: State, h: nat, c: Call, va: nat, i: nat)
    requires Caller(s, h) && va in s.sections && s.sections[va].owner != 0 && s.sections[va].owner != h
    requires c != InitSection(va)
    requires i < |s.sched.threads| && i + 1 != h && s.sched.threads[i].token == SectionToken(va)
    ensures Spares(s, Apply(s, h, c), va, i)
  {
    hide Apply;
    if Signals(c) {
      SignalSpares(s, h, c, i);
    } else if OnObjects(c) {
      ObjectCallSpares(s, h, c, va, i);
    } else {
      OtherCallSpares(s, h, c, va, i);
    }
  }

  lemma ObjectCallSpares(s: State, h: nat, c: Call, va: nat, i: nat)
    requires Caller(s, h) && va in s.sections && i < |s.sched.threads| && OnObjects(c) && !Signals(c)
    ensures Spares(s, Apply(s, h, c), va, i)
  {
  }

  lemma OtherCallSpares(s: State, h: nat, c: Call, va: nat, i: nat)
    requires Caller(s, h) && va in s.sections && s.sections[va].owner != 0 && s.sections[va].owner != h
    requires c != InitSection(va)
    requires i < |s.sched.threads| && i + 1 != h && s.sched.threads[i].token == SectionToken(va) && !OnObjects(c)
    ensures Spares(s, Apply(s, h, c), va, i)
  {
    hide EvalMany, AbandonFrom;
    if c.WaitMany? && forall i :: 0 <= i < |c.objs| ==> Has(s, c.objs[i]) {
      EvalManySpares(s, h, c.objs, c.all, c.immediate, c.timeout, va, i);
    } else if c.ExitFiber? && h != 0 {
      AbandonSpares(s.(sched := Finish(s.sched, h)), h, 0, i);
    }
  }

  lemma ContinueSpares(s: State, h: nat, va: nat, i: nat)
    requires s.sched.mode == Fiber(h) && Enabled(s, Continue) && va in s.sections && s.sections[va].owner != 0
    requires i < |s.sched.threads| && i + 1 != h && s.sections[va].owner != h
    ensures Spares(s, ApplyResume(s, h), va, i)
  {
    hide EvalMany, Deregister;
    match s.resume[h - 1]
    case InMulti(targets, all, timeout) =>
      EvalManySpares(Unwind(s, h).(objs := Deregister(s.objs, h, targets, 0)), h, targets, all, false, timeout, va, i);
    case _ =>
  }

  /** A waiter without a deadline is not made Ready by an iteration of the loop. */
  lemma IterateSpares(s: State, va: nat, i: nat)
    requires Scheduler.Inv(s.sched) && s.sched.mode == Loop && va in s.sections
    requires i < |s.sched.threads| && WaitsOn(s.sched.threads[i], SectionToken(va))
    requires s.sched.threads[i].wakeTick == NO_DEADLINE
    ensures Spares(s, s.(sched := Iterate(s.sched).1), va, i)
  {
    var ts := Refresh(s.sched.threads, s.sched.tick);
    assert ts[i] == RefreshOne(s.sched.threads, s.sched.tick, s.sched.threads[i]);
  }

  // ---------------------------------------------------------------------
  // For good

  /** What the invariant says of the two fibers: neither runs, and the waiter has no deadline. */
  lemma NeitherRuns(s: State, va: nat, h: nat)
    requires KernelInv(s) && Orphaned(s, va) && BlockedAt(s, va, h)
    ensures Scheduler.Inv(s.sched) && s.sched.mode != Fiber(h) && s.sched.mode != Fiber(s.sections[va].owner)
    ensures WaitsOn(s.sched.threads[h - 1], SectionToken(va)) && s.sched.threads[h - 1].wakeTick == NO_DEADLINE
  {
    hide SectionOk, ObjectOk, MultiOk;
    assert ThreadInv(s.sched, h - 1) && ThreadInv(s.sched, s.sections[va].owner - 1);
    assert ThreadOk(s.sched.threads[h - 1], s.resume[h - 1], h);
  }

  lemma WaiterStays(s: State, l: Label, s': State, va: nat, h: nat)
    requires KernelInv(s) && StepsTo(s, l, s') && Orphaned(s, va) && BlockedAt(s, va, h)
    ensures Spares(s, s', va, h - 1) && BlockedAt(s', va, h)
  {
    hide SectionsOk, ObjectsOk, WaitsOk, Scheduler.Inv, Apply, ApplyResume, Iterate;
    var g := Handle(s.sched.mode);
    NeitherRuns(s, va, h);
    StepKeeps(s, l);
    OthersResume(s, l, s', h);
    match l
    case Call(c) =>
      assert InSection(va) in s.resume;
      CallSpares(s, g, c, va, h - 1);
    case Continue => ContinueSpares(s, g, va, h - 1);
    case Schedule => IterateSpares(s, va, h - 1);
    case Run =>
  }

  /**
   In every run: from the moment at which a section is owned by a finished fiber, a fiber
   blocked on it stays blocked and never runs again, and the section keeps its owner.
   */
  lemma {:induction false} OrphanIsForever(ss: seq<State>, ls: seq<Label>, n: nat, m: nat, va: nat, h: nat)
    requires IsRun(ss, ls) && n <= m < |ss| && Orphaned(ss[n], va) && BlockedAt(ss[n], va, h)
    ensures Orphaned(ss[m], va) && ss[m].sections[va].owner == ss[n].sections[va].owner
    ensures BlockedAt(ss[m], va, h) && ss[m].sched.mode != Fiber(h)
    decreases m
  {
    hide StepsTo, SectionOk, ObjectOk, MultiOk;
    RunKeeps(ss, ls, m);
    if n < m {
      OrphanIsForever(ss, ls, n, m - 1, va, h);
      RunKeeps(ss, ls, m - 1);
      StepAt(ss, ls, m - 1);
      WaiterStays(ss[m - 1], ls[m - 1], ss[m], va, h);
      KernelRunsAreSchedulerRuns(ss, ls);
      SchedulerRuns.StepAt(Scheds(ss), m - 1);
      SchedulerRuns.FinishedStays(ss[m - 1].sched, ss[m].sched, ss[n].sections[va].owner - 1);
    }
    assert ThreadInv(ss[m].sched, h - 1);
  }

  // ---------------------------------------------------------------------
  // When a section becomes an orphan

  lemma {:induction false} AbandonKeepsStates(s: State, h: nat, from: nat)
    requires from <= |s.objs|
    ensures var s' := AbandonFrom(s, h, from);
      s'.sections == s.sections && Wakes(s.sched.threads, s'.sched.threads)
    decreases |s.objs| - from
  {
    AbandonFromWakes(s, h, from);
    if from < |s.objs| {
      AbandonKeepsStates(AbandonObject(s, h, from), h, from + 1);
    }
  }

  /** The exit of a fiber orphans exactly the sections it owns, and those that were orphans stay so. */
  lemma ExitOrphansExactly(s: State, h: nat, va: nat)
    requires KernelInv(s) && Caller(s, h) && h != 0 && va in s.sections
    ensures Exit(s, h).sections == s.sections
    ensures Orphaned(Exit(s, h), va) <==> s.sections[va].owner == h || Orphaned(s, va)
  {
    hide SectionOk, ObjectOk, MultiOk;
    assert ThreadInv(s.sched, h - 1);
    AbandonKeepsStates(s.(sched := Finish(s.sched, h)), h, 0);
  }

  // ---------------------------------------------------------------------
  // A run that gets there

  const VA: nat := 0x1000

  function Stage(owner: Thread, waiter: Thread, cursor: nat, mode: Mode, r: Resume, section: Section,
      log: seq<Entry>): State {
    State(Sched([owner, waiter], 0, cursor, mode, false), [Body, r], [], map[VA := section], log)
  }

  const FREE: Section := Section(-1, 0, 0)
  const OWNED: Section := Section(-1, 1, 1)
  const CONTENDED: Section := Section(0, 1, 1)
  const YIELDED: Thread := STARTED.(state := Ready)
  const SHUT_OUT: Thread := Thread(BlockedWait, true, NO_DEADLINE, 0, SectionToken(VA), false)

  function AfterInit(threads: nat, log: seq<Entry>): State {
    State(EMPTY.(threads := seq(threads, i => FRESH)), seq(threads, i => Body), [], map[VA := FREE], log)
  }

  lemma InitSteps(n: nat, log: seq<Entry>)
    ensures Leads(BOOT, Call(InitSection(VA)), AfterInit(0, log))
    ensures Leads(AfterInit(n, log), Call(SpawnFiber), AfterInit(n + 1, log))
    ensures AfterInit(2, log) == Stage(FRESH, FRESH, 0, Host, Body, FREE, log)
  {
    assert AfterInit(n + 1, log).sched.threads == AfterInit(n, log).sched.threads + [FRESH];
    assert AfterInit(n + 1, log).resume == AfterInit(n, log).resume + [Body];
    assert AfterInit(0, log).sched.threads == [] && AfterInit(0, log).resume == [];
  }

  lemma OwnerSteps(log: seq<Entry>)
    ensures Leads(Stage(FRESH, FRESH, 0, Host, Body, FREE, log), Run, Stage(FRESH, FRESH, 0, Loop, Body, FREE, log))
    ensures Leads(Stage(FRESH, FRESH, 0, Loop, Body, FREE, log), Schedule,
                  Stage(STARTED, FRESH, 1, Fiber(1), Body, FREE, log))
    ensures Leads(Stage(STARTED, FRESH, 1, Fiber(1), Body, FREE, log), Call(Enter(VA)),
                  Stage(STARTED, FRESH, 1, Fiber(1), Body, OWNED, log))
    ensures Leads(Stage(STARTED, FRESH, 1, Fiber(1), Body, OWNED, log), Call(YieldFiber),
                  Stage(YIELDED, FRESH, 1, Loop, Body, OWNED, log))
  {
    var s := Stage(FRESH, FRESH, 0, Loop, Body, FREE, log).sched;
    assert Refresh(s.threads, 0) == [FRESH, FRESH];
    Picks(s, 0);
  }

  lemma WaiterSteps(log: seq<Entry>)
    ensures Leads(Stage(YIELDED, FRESH, 1, Loop, Body, OWNED, log), Schedule,
                  Stage(YIELDED, STARTED, 0, Fiber(2), Body, OWNED, log))
    ensures Leads(Stage(YIELDED, STARTED, 0, Fiber(2), Body, OWNED, log), Call(Enter(VA)),
                  Stage(YIELDED, SHUT_OUT, 0, Loop, InSection(VA), CONTENDED, log))
  {
    var s := Stage(YIELDED, FRESH, 1, Loop, Body, OWNED, log).sched;
    assert Refresh(s.threads, 0) == [YIELDED, FRESH];
    Picks(s, 1);
  }

  lemma ExitSteps(log: seq<Entry>)
    ensures Leads(Stage(YIELDED, SHUT_OUT, 0, Loop, InSection(VA), CONTENDED, log), Schedule,
                  Stage(YIELDED, SHUT_OUT, 1, Fiber(1), InSection(VA), CONTENDED, log))
    ensures Leads(Stage(YIELDED, SHUT_OUT, 1, Fiber(1), InSection(VA), CONTENDED, log), Call(ExitFiber),
                  Stage(YIELDED.(state := Finished), SHUT_OUT, 1, Loop, InSection(VA), CONTENDED, log))
  {
    var s := Stage(YIELDED, SHUT_OUT, 0, Loop, InSection(VA), CONTENDED, log).sched;
    assert Refresh(s.threads, 0) == [YIELDED, SHUT_OUT];
    Picks(s, 0);
  }

  lemma InitLog(n: nat, log: seq<Entry>, log': seq<Entry>)
    ensures AfterInit(n, log).(log := log') == AfterInit(n, log')
  {
  }

  lemma InitRun() returns (ss: seq<State>, ls: seq<Label>, log: seq<Entry>)
    ensures EndsIn(ss, ls, Stage(FRESH, FRESH, 0, Host, Body, FREE, log))
  {
    hide EndsIn, Leads, AfterInit;
    StartRun();
    InitSteps(0, []);
    ss, ls, log := Step([BOOT], [], BOOT, Call(InitSection(VA)), AfterInit(0, []));
    InitLog(0, [], log);
    InitSteps(0, log);
    var log0 := log;
    ss, ls, log := Step(ss, ls, AfterInit(0, log), Call(SpawnFiber), AfterInit(1, log));
    InitLog(1, log0, log);
    InitSteps(1, log);
    log0 := log;
    ss, ls, log := Step(ss, ls, AfterInit(1, log), Call(SpawnFiber), AfterInit(2, log));
    InitLog(2, log0, log);
    InitSteps(2, log);
  }

  lemma OwnerRun() returns (ss: seq<State>, ls: seq<Label>, log: seq<Entry>)
    ensures EndsIn(ss, ls, Stage(YIELDED, FRESH, 1, Loop, Body, OWNED, log))
  {
    hide EndsIn, Leads;
    ss, ls, log := InitRun();
    OwnerSteps(log);
    ss, ls, log := Step(ss, ls, Stage(FRESH, FRESH, 0, Host, Body, FREE, log), Run,
                        Stage(FRESH, FRESH, 0, Loop, Body, FREE, log));
    OwnerSteps(log);
    ss, ls, log := Step(ss, ls, Stage(FRESH, FRESH, 0, Loop, Body, FREE, log), Schedule,
                        Stage(STARTED, FRESH, 1, Fiber(1), Body, FREE, log));
    OwnerSteps(log);
    ss, ls, log := Step(ss, ls, Stage(STARTED, FRESH, 1, Fiber(1), Body, FREE, log), Call(Enter(VA)),
                        Stage(STARTED, FRESH, 1, Fiber(1), Body, OWNED, log));
    OwnerSteps(log);
    ss, ls, log := Step(ss, ls, Stage(STARTED, FRESH, 1, Fiber(1), Body, OWNED, log), Call(YieldFiber),
                        Stage(YIELDED, FRESH, 1, Loop, Body, OWNED, log));
  }

  /** A run in which fiber 1 exits inside a section that fiber 2 waits for. */
  lemma OwnerExitsInside() returns (ss: seq<State>, ls: seq<Label>)
    ensures IsRun(ss, ls) && Orphaned(ss[|ls|], VA) && BlockedAt(ss[|ls|], VA, 2)
  {
    hide Leads;
    var log: seq<Entry>;
    ss, ls, log := OwnerRun();
    WaiterSteps(log);
    ss, ls, log := Step(ss, ls, Stage(YIELDED, FRESH, 1, Loop, Body, OWNED, log), Schedule,
                        Stage(YIELDED, STARTED, 0, Fiber(2), Body, OWNED, log));
    WaiterSteps(log);
    ss, ls, log := Step(ss, ls, Stage(YIELDED, STARTED, 0, Fiber(2), Body, OWNED, log), Call(Enter(VA)),
                        Stage(YIELDED, SHUT_OUT, 0, Loop, InSection(VA), CONTENDED, log));
    ExitSteps(log);
    ss, ls, log := Step(ss, ls, Stage(YIELDED, SHUT_OUT, 0, Loop, InSection(VA), CONTENDED, log), Schedule,
                        Stage(YIELDED, SHUT_OUT, 1, Fiber(1), InSection(VA), CONTENDED, log));
    ExitSteps(log);
    ss, ls, log := Step(ss, ls, Stage(YIELDED, SHUT_OUT, 1, Fiber(1), InSection(VA), CONTENDED, log), Call(ExitFiber),
                        Stage(YIELDED.(state := Finished), SHUT_OUT, 1, Loop, InSection(VA), CONTENDED, log));
  }
}
