/** The death of a mutant's owner is reported at most once, counted over the whole log. */
module AbandonReports {
  import opened Scheduler
  import opened Kernel
  import opened WaitInvariant
  import opened WaitProofs
  import opened KernelRuns
  import opened History
  import opened HistoryRuns

  // ---------------------------------------------------------------------
  // Counting

  function Flag(k: Kind): nat {
    if k.Mutant? && k.abandoned then 1 else 0
  }

  /** The mutants whose abandonment has not been reported. */
  function Flags(objs: seq<Object>): nat {
    if objs == [] then 0 else Flags(objs[..|objs| - 1]) + Flag(objs[|objs| - 1].kind)
  }

  /** A wait of a fiber returned STATUS_ABANDONED_WAIT_0 plus a position. */
  predicate IsReport(e: Entry) {
    e.Returned? && e.handle != 0 && STATUS_ABANDONED <= e.status < STATUS_ABANDONED + MAX_WAIT_OBJECTS
  }

  function Reports(log: seq<Entry>): nat {
    if log == [] then 0 else Reports(log[..|log| - 1]) + if IsReport(log[|log| - 1]) then 1 else 0
  }

  /** Mutants abandoned by the death of their owner. */
  function Deaths(log: seq<Entry>): nat {
    if log == [] then 0 else Deaths(log[..|log| - 1]) + if log[|log| - 1].Abandoned? then 1 else 0
  }

  /** Deaths that are neither reported nor waiting to be. */
  function Balance(s: State): int {
    Deaths(s.log) - Reports(s.log) - Flags(s.objs)
  }

  lemma {:induction false} FlagsSet(objs: seq<Object>, o: nat, x: Object)
    requires o < |objs|
    ensures Flags(objs[o := x]) == Flags(objs) - Flag(objs[o].kind) + Flag(x.kind)
  {
    var init, last := objs[..|objs| - 1], |objs| - 1;
    if o < last {
      FlagsSet(init, o, x);
      assert objs[o := x][..last] == init[o := x];
    } else {
      assert objs[o := x][..last] == init;
    }
  }

  lemma {:induction false} FlagsSame(objs: seq<Object>, objs': seq<Object>)
    requires |objs| == |objs'| && forall o :: 0 <= o < |objs| ==> Flag(objs'[o].kind) == Flag(objs[o].kind)
    ensures Flags(objs') == Flags(objs)
  {
    if objs != [] {
      FlagsSame(objs[..|objs| - 1], objs'[..|objs| - 1]);
    }
  }

  lemma NoteBalance(s: State, e: Entry)
    ensures Balance(Note(s, e)) == Balance(s) + (if e.Abandoned? then 1 else 0) - if IsReport(e) then 1 else 0
  {
    assert (s.log + [e])[..|s.log|] == s.log;
  }

  lemma KindBalance(s: State, o: nat, k: Kind)
    requires o < |s.objs|
    ensures Balance(WithKind(s, o, k)) == Balance(s) + Flag(s.objs[o].kind) - Flag(k)
  {
    FlagsSet(s.objs, o, s.objs[o].(kind := k));
  }

  lemma AddBalance(s: State, k: Kind)
    requires Flag(k) == 0
    ensures Balance(Add(s, k)) == Balance(s)
  {
    var objs := s.objs + [Object(k, [])];
    assert objs[..|s.objs|] == s.objs;
    NoteBalance(s.(objs := objs), Created(|s.objs|, k));
  }

  lemma WakeBalance(s: State, o: nat, units: nat)
    requires o < |s.objs|
    ensures Balance(WakeObject(s, o, units)) == Balance(s)
  {
    FlagsSet(s.objs, o, s.objs[o].(waiters := []));
  }

  // ---------------------------------------------------------------------
  // Waits

  /** An acquisition by a fiber takes the flag off and reports it. */
  lemma AcquireBalance(s: State, h: nat, o: nat)
    requires o < |s.objs|
    ensures var status := Acquire(s.objs[o].kind, h).1;
      Balance(AcquireObject(s, h, o)) == Balance(s) + if h != 0 && status == STATUS_ABANDONED then 1 else 0
  {
    var k := Acquire(s.objs[o].kind, h).0;
    KindBalance(s, o, k);
    NoteBalance(WithKind(s, o, k), Acquired(o, h));
  }

  lemma {:induction false} AcquireAllBalance(s: State, h: nat, targets: seq<nat>, from: nat, worst: nat)
    requires InTable(s, targets) && from <= |targets|
    ensures var r := AcquireAll(s, h, targets, from, worst);
      && Balance(r.0) >= Balance(s) + (if h != 0 && worst == STATUS_SUCCESS && r.1 != STATUS_SUCCESS then 1 else 0)
    decreases |targets| - from
  {
    if from < |targets| {
      var o := targets[from];
      var status := Acquire(s.objs[o].kind, h).1;
      var worst' := if status != STATUS_SUCCESS && worst == STATUS_SUCCESS then STATUS_ABANDONED + from else worst;
      AcquireBalance(s, h, o);
      AcquireAllBalance(AcquireObject(s, h, o), h, targets, from + 1, worst');
    }
  }

  lemma EvalOneBalance(s: State, h: nat, o: nat, immediate: bool, timeout: nat)
    requires Caller(s, h) && o < |s.objs|
    ensures Balance(EvalOne(s, h, o, immediate, timeout)) == Balance(s)
  {
    hide Balance, AcquireObject;
    SameKindsBalance(s, EvalOne(s, h, o, immediate, timeout));
    AcquireBalance(s, h, o);
    NoteBalance(AcquireObject(s, h, o), Returned(h, Acquire(s.objs[o].kind, h).1));
    NoteBalance(s, Returned(h, STATUS_TIMEOUT));
    NoteBalance(s, Returned(h, STATUS_INVALID_PARAMETER));
  }

  lemma EvalManyBalance(s: State, h: nat, targets: seq<nat>, all: bool, immediate: bool, timeout: nat)
    requires Caller(s, h) && InTable(s, targets) && |targets| <= MAX_WAIT_OBJECTS
    ensures Balance(EvalMany(s, h, targets, all, immediate, timeout)) >= Balance(s)
    ensures !all ==> Balance(EvalMany(s, h, targets, all, immediate, timeout)) == Balance(s)
  {
    hide Balance, Register, AcquireAll, FirstSatisfied;
    var first := FirstSatisfied(s, h, targets, 0);
    if all && AllSatisfied(s, h, targets) {
      var r := AcquireAll(s, h, targets, 0, STATUS_SUCCESS);
      AcquireAllBalance(s, h, targets, 0, STATUS_SUCCESS);
      NoteBalance(r.0, Returned(h, r.1));
    } else if !all && first < |targets| {
      var s1, status := AcquireObject(s, h, targets[first]), Acquire(s.objs[targets[first]].kind, h).1;
      AcquireBalance(s, h, targets[first]);
      NoteBalance(s1, Returned(h, if status == STATUS_ABANDONED then STATUS_ABANDONED + first else first));
    } else {
      NoteBalance(s, Returned(h, STATUS_TIMEOUT));
      NoteBalance(s, Returned(h, STATUS_INVALID_PARAMETER));
      RegisterLists(s.objs, h, targets, 0);
      SameKindsBalance(s, EvalMany(s, h, targets, all, immediate, timeout));
    }
  }

  lemma SameKindsBalance(s: State, s': State)
    ensures
      && s'.log == s.log && |s'.objs| == |s.objs|
      && (forall o :: 0 <= o < |s.objs| ==> s'.objs[o].kind == s.objs[o].kind)
      ==> Balance(s') == Balance(s)
  {
    if |s'.objs| == |s.objs| && forall o :: 0 <= o < |s.objs| ==> s'.objs[o].kind == s.objs[o].kind {
      FlagsSame(s.objs, s'.objs);
    }
  }

  lemma ResumeManyBalance(s: State, h: nat)
    requires Caller(s, h) && h != 0 && s.resume[h - 1].InMulti? && InTable(s, s.resume[h - 1].objs)
    requires |s.resume[h - 1].objs| <= MAX_WAIT_OBJECTS
    ensures Balance(ResumeMany(s, h)) >= Balance(s)
    ensures !s.resume[h - 1].all ==> Balance(ResumeMany(s, h)) == Balance(s)
  {
    hide Balance, EvalMany, Deregister;
    var InMulti(targets, all, timeout) := s.resume[h - 1];
    var s1 := Unwind(s, h).(objs := Deregister(s.objs, h, targets, 0));
    DeregisterLists(s.objs, h, targets, 0);
    SameKindsBalance(s, s1);
    NoteBalance(s1, Returned(h, STATUS_TIMEOUT));
    EvalManyBalance(s1, h, targets, all, false, timeout);
  }

  lemma ResumeOneBalance(s: State, h: nat)
    requires Caller(s, h) && h != 0 && s.resume[h - 1].InWait? && s.resume[h - 1].obj < |s.objs|
    ensures Balance(ResumeOne(s, h)) == Balance(s)
  {
    hide Balance, EvalOne;
    var InWait(o, timeout) := s.resume[h - 1];
    var s1 := Unwind(s, h);
    SameKindsBalance(s, s1);
    NoteBalance(s1, Returned(h, STATUS_TIMEOUT));
    NoteBalance(s1, Acquired(o, h));
    NoteBalance(Note(s1, Acquired(o, h)), Returned(h, STATUS_SUCCESS));
    EvalOneBalance(s1, h, o, false, timeout);
  }

  // ---------------------------------------------------------------------
  // The other calls

  lemma SignalBalance(s: State, h: nat, c: Call)
    requires Caller(s, h) && Signals(c)
    ensures Balance(Apply(s, h, c)) == Balance(s)
  {
    hide Balance, WakeObject;
    NoteBalance(s, Returned(h, STATUS_INVALID_PARAMETER));
    match c
    case CallSetEvent(o) => if HasEvent(s, o) { EventBalance(s, o); }
    case CallPulseEvent(o) => if HasEvent(s, o) { EventBalance(s, o); }
    case NtReleaseMutant(o) => if HasMutant(s, o) { MutantBalance(s, o); }
    case KeReleaseMutant(o) => if HasMutant(s, o) { MutantBalance(s, o); }
    case CallReleaseSemaphore(o, adjustment) =>
      if HasSemaphore(s, o) && ReleaseFits(s.objs[o].kind, adjustment) { SemaphoreBalance(s, o, adjustment); }
  }

  /** Changing an object without touching its flag, waking its waiters and noting it. */
  lemma PublishBalance(s: State, ts: seq<Thread>, o: nat, k: Kind, units: nat, e: Entry)
    requires o < |s.objs| && Flag(k) == Flag(s.objs[o].kind) && !e.Abandoned? && !IsReport(e)
    ensures Balance(Note(WakeObject(WithKind(WithThreads(s, ts), o, k), o, units), e)) == Balance(s)
    ensures Balance(Note(WithKind(WithThreads(s, ts), o, k), e)) == Balance(s)
  {
    hide Balance, WakeObject;
    var s1 := WithThreads(s, ts);
    SameKindsBalance(s, s1);
    KindBalance(s1, o, k);
    WakeBalance(WithKind(s1, o, k), o, units);
    NoteBalance(WithKind(s1, o, k), e);
    NoteBalance(WakeObject(WithKind(s1, o, k), o, units), e);
  }

  lemma EventBalance(s: State, o: nat)
    requires HasEvent(s, o)
    ensures Balance(SetEvent(s, o)) == Balance(s) == Balance(PulseEvent(s, o))
  {
    hide Balance, WakeObject, SignalOne, SignalAll;
    var Event(notify, found) := s.objs[o].kind;
    var ts, token := s.sched.threads, ObjectToken(o);
    PublishBalance(s, SignalAll(ts, token), o, Event(true, true), 0, WasSet(o, found));
    PublishBalance(s, SignalOne(ts, token), o, Event(false, !HasWaiter(ts, token)), 0, WasSet(o, found));
    PublishBalance(s, if notify then SignalAll(ts, token) else SignalOne(ts, token), o, Event(notify, false), 0,
                   WasPulsed(o, HasWaiter(ts, token), found));
  }

  lemma MutantBalance(s: State, o: nat)
    requires HasMutant(s, o)
    ensures Balance(ReleaseMutant(s, o)) == Balance(s)
  {
    hide Balance, WakeObject;
    var Mutant(signalState, owner, abandoned) := s.objs[o].kind;
    assert WithThreads(s, s.sched.threads) == s;
    PublishBalance(s, s.sched.threads, o, Mutant(signalState + 1, 0, abandoned), 1, Released(o, 1));
    PublishBalance(s, s.sched.threads, o, Mutant(signalState + 1, owner, abandoned), 1, Released(o, 1));
  }

  lemma SemaphoreBalance(s: State, o: nat, adjustment: int)
    requires HasSemaphore(s, o) && ReleaseFits(s.objs[o].kind, adjustment)
    ensures Balance(ReleaseSemaphore(s, o, adjustment)) == Balance(s)
  {
    hide Balance, WakeObject;
    var Semaphore(count, limit) := s.objs[o].kind;
    assert WithThreads(s, s.sched.threads) == s;
    var units := WakeUnits(adjustment, count + adjustment);
    PublishBalance(s, s.sched.threads, o, Semaphore(count + adjustment, limit), units, Released(o, adjustment));
  }

  lemma ObjectCallBalance(s: State, h: nat, c: Call)
    requires Caller(s, h) && OnObjects(c) && !Signals(c)
    ensures Balance(Apply(s, h, c)) >= Balance(s)
    ensures !c.Close? ==> Balance(Apply(s, h, c)) == Balance(s)
  {
    hide Balance, Add;
    NoteBalance(s, Returned(h, STATUS_INVALID_PARAMETER));
    match c
    case CreateEvent(notify, signaled) => AddBalance(s, Event(notify, signaled));
    case CreateMutant(_) =>
      AddBalance(s, Mutant(1, 0, false));
      AddBalance(s, Mutant(0, h, false));
    case NtCreateSemaphore(count, limit) => AddBalance(s, Semaphore(count, limit));
    case KeInitializeSemaphore(count, limit) => AddBalance(s, Semaphore(count, limit));
    case ReinitializeEvent(o, notify, signaled) =>
      if HasEvent(s, o) {
        KindBalance(s, o, Event(notify, signaled));
        NoteBalance(WithKind(s, o, Event(notify, signaled)), Created(o, Event(notify, signaled)));
      }
    case CallResetEvent(o) =>
      if HasEvent(s, o) {
        var Event(notify, found) := s.objs[o].kind;
        KindBalance(s, o, Event(notify, false));
        NoteBalance(WithKind(s, o, Event(notify, false)), WasCleared(o, found));
      }
    case Close(o) => if Has(s, o) { CloseBalance(s, o); }
    case _ =>
  }

  lemma CloseBalance(s: State, o: nat)
    requires o < |s.objs|
    ensures Balance(s.(objs := s.objs[o := Object(Closed, [])])) >= Balance(s)
  {
    FlagsSet(s.objs, o, Object(Closed, []));
  }

  /** No mutant that fiber h owns still has an abandonment to report. */
  ghost predicate OwnedAreReported(objs: seq<Object>, h: nat) {
    forall o :: 0 <= o < |objs| && objs[o].kind.Mutant? && objs[o].kind.owner == h ==> !objs[o].kind.abandoned
  }

  lemma {:induction false} AbandonBalance(s: State, h: nat, from: nat)
    requires from <= |s.objs|
    ensures Balance(AbandonFrom(s, h, from)) >= Balance(s)
    ensures h != 0 && OwnedAreReported(s.objs, h) ==> Balance(AbandonFrom(s, h, from)) == Balance(s)
    decreases |s.objs| - from
  {
    hide Balance, WakeObject;
    if from < |s.objs| {
      var s1 := AbandonObject(s, h, from);
      AbandonOneBalance(s, h, from);
      AbandonBalance(s1, h, from + 1);
    }
  }

  lemma AbandonOneBalance(s: State, h: nat, o: nat)
    requires o < |s.objs|
    ensures Balance(AbandonObject(s, h, o)) >= Balance(s)
    ensures h != 0 && OwnedAreReported(s.objs, h) ==>
      Balance(AbandonObject(s, h, o)) == Balance(s) && OwnedAreReported(AbandonObject(s, h, o).objs, h)
  {
    hide Balance, SignalMany, SignalEach;
    var s1 := WithKind(s, o, Mutant(1, 0, true));
    KindBalance(s, o, Mutant(1, 0, true));
    WakeBalance(s1, o, 1);
    NoteBalance(WakeObject(s1, o, 1), Abandoned(o, h));
  }

  /** Calls after which no report can be lost: anything but closing and waiting for all. */
  predicate Gentle(c: Call) {
    !c.Close? && (c.WaitMany? ==> !c.all)
  }

  lemma WaitCallBalance(s: State, h: nat, c: Call)
    requires Caller(s, h) && !OnObjects(c)
    ensures Balance(Apply(s, h, c)) >= Balance(s)
    ensures Gentle(c) && (h != 0 ==> OwnedAreReported(s.objs, h)) ==> Balance(Apply(s, h, c)) == Balance(s)
  {
    hide Balance, EvalOne, EvalMany, AbandonFrom, Reports, Deaths, Flags;
    NoteBalance(s, Returned(h, STATUS_INVALID_PARAMETER));
    NoteBalance(s, Returned(h, STATUS_SUCCESS));
    match c
    case WaitOne(o, immediate, timeout) => if Has(s, o) { EvalOneBalance(s, h, o, immediate, timeout); }
    case WaitMany(targets, all, immediate, timeout) =>
      if |targets| <= MAX_WAIT_OBJECTS && forall i :: 0 <= i < |targets| ==> Has(s, targets[i]) {
        EvalManyBalance(s, h, targets, all, immediate, timeout);
      }
    case ExitFiber =>
      if h != 0 {
        SameKindsBalance(s, s.(sched := Finish(s.sched, h)));
        AbandonBalance(s.(sched := Finish(s.sched, h)), h, 0);
      }
    case _ => PlainBalance(s, h, c);
  }

  lemma PlainBalance(s: State, h: nat, c: Call)
    requires Caller(s, h) && !OnObjects(c) && !c.WaitOne? && !c.WaitMany? && !c.ExitFiber?
    ensures Balance(Apply(s, h, c)) == Balance(s)
  {
    hide Balance;
    var s' := Apply(s, h, c);
    PlainLog(s, h, c);
    if s'.log != s.log {
      var e := s'.log[|s.log|];
      NoteBalance(s, e);
      SameKindsBalance(Note(s, e), s');
    } else {
      SameKindsBalance(s, s');
    }
  }

  /** These calls log at most one entry, which is neither a death nor a report, and change no object. */
  lemma PlainLog(s: State, h: nat, c: Call)
    requires Caller(s, h) && !OnObjects(c) && !c.WaitOne? && !c.WaitMany? && !c.ExitFiber?
    ensures var s' := Apply(s, h, c);
      && s'.objs == s.objs
      && (s'.log == s.log || (|s'.log| == |s.log| + 1 && s'.log == s.log + [s'.log[|s.log|]]
                              && !s'.log[|s.log|].Abandoned? && !IsReport(s'.log[|s.log|])))
  {
  }

  // ---------------------------------------------------------------------
  // Runs

  /** Every blocked multi-object wait is on at most 64 objects. */
  ghost predicate SetsSmall(rs: seq<Resume>) {
    forall i :: 0 <= i < |rs| && rs[i].InMulti? ==> |rs[i].objs| <= MAX_WAIT_OBJECTS
  }

  lemma OwnSetSmall(s: State, h: nat, c: Call)
    requires Caller(s, h) && h != 0 && s.resume[h - 1] == Body
    ensures h <= |Apply(s, h, c).resume|
    ensures var r := Apply(s, h, c).resume[h - 1]; r.InMulti? ==> |r.objs| <= MAX_WAIT_OBJECTS
  {
    OwnResumeAfterCall(s, h, c);
  }

  lemma StepKeepsSmall(s: State, l: Label, s': State)
    requires KernelInv(s) && StepsTo(s, l, s') && SetsSmall(s.resume)
    ensures SetsSmall(s'.resume)
  {
    hide KernelInv, Apply, ApplyResume;
    var g := Handle(s.sched.mode);
    forall i | 0 <= i < |s'.resume| && s'.resume[i].InMulti? ensures |s'.resume[i].objs| <= MAX_WAIT_OBJECTS {
      if i + 1 == g {
        if l.Call? {
          OwnSetSmall(s, g, l.call);
        } else if l == Continue {
          OwnResumeAfterContinue(s, g);
        }
      } else if i < |s.resume| {
        OthersResume(s, l, s', i + 1);
      } else {
        NewFibersStartInBody(s, l, s', i);
      }
    }
  }

  lemma CallBalance(s: State, h: nat, c: Call)
    requires Caller(s, h)
    ensures Balance(Apply(s, h, c)) >= Balance(s)
    ensures Gentle(c) && (h != 0 ==> OwnedAreReported(s.objs, h)) ==> Balance(Apply(s, h, c)) == Balance(s)
  {
    hide Balance, Apply;
    if Signals(c) {
      SignalBalance(s, h, c);
    } else if OnObjects(c) {
      ObjectCallBalance(s, h, c);
    } else {
      WaitCallBalance(s, h, c);
    }
  }

  lemma ContinueBalance(s: State, h: nat)
    requires s.sched.mode == Fiber(h) && Enabled(s, Continue) && SetsSmall(s.resume)
    ensures Balance(ApplyResume(s, h)) >= Balance(s)
    ensures (s.resume[h - 1].InMulti? ==> !s.resume[h - 1].all) ==> Balance(ApplyResume(s, h)) == Balance(s)
  {
    hide Balance, ResumeOne, ResumeMany, Reports, Deaths, Flags;
    match s.resume[h - 1]
    case InWait(_, _) => ResumeOneBalance(s, h);
    case InMulti(_, _, _) => ResumeManyBalance(s, h);
    case InSection(va) => PlainBalance(Unwind(s, h), h, Enter(va)); SameKindsBalance(s, Unwind(s, h));
    case InDelay => NoteBalance(Unwind(s, h), Returned(h, STATUS_SUCCESS)); SameKindsBalance(s, Unwind(s, h));
  }

  /**
   In every run, whatever the callers do: the waits of fibers that returned with
   STATUS_ABANDONED_WAIT_0, together with the mutants whose abandonment is still to be
   reported, are never more than the mutants abandoned by the death of their owner.
   */
  lemma {:induction false} EachDeathIsReportedOnce(ss: seq<State>, ls: seq<Label>, n: nat)
    requires IsRun(ss, ls) && n < |ss|
    ensures Reports(ss[n].log) + Flags(ss[n].objs) <= Deaths(ss[n].log)
    ensures SetsSmall(ss[n].resume)
  {
    hide KernelInv, Apply, ApplyResume, Reports, Deaths, Flags;
    if n == 0 {
      BootBalance();
    } else {
      EachDeathIsReportedOnce(ss, ls, n - 1);
      RunKeeps(ss, ls, n - 1);
      StepAt(ss, ls, n - 1);
      StepKeepsSmall(ss[n - 1], ls[n - 1], ss[n]);
      StepBalance(ss[n - 1], ls[n - 1], ss[n]);
    }
  }

  lemma BootBalance()
    ensures Reports(BOOT.log) == 0 == Deaths(BOOT.log) && Flags(BOOT.objs) == 0
  {
  }

  lemma StepBalance(s: State, l: Label, s': State)
    requires StepsTo(s, l, s') && SetsSmall(s.resume)
    ensures Balance(s') >= Balance(s)
  {
    hide Balance, Apply, ApplyResume;
    match l
    case Call(c) => CallBalance(s, Handle(s.sched.mode), c);
    case Continue => ContinueBalance(s, s.sched.mode.handle);
    case Schedule => SameKindsBalance(s, s');
    case Run => SameKindsBalance(s, s');
  }

  /** No blocked wait is for all of a set. */
  ghost predicate NoneForAll(rs: seq<Resume>) {
    forall i :: 0 <= i < |rs| && rs[i].InMulti? ==> !rs[i].all
  }

  lemma StepKeepsNone(s: State, l: Label, s': State)
    requires KernelInv(s) && StepsTo(s, l, s') && NoneForAll(s.resume) && (l.Call? ==> Gentle(l.call))
    ensures NoneForAll(s'.resume)
  {
    hide KernelInv, Apply, ApplyResume;
    var g := Handle(s.sched.mode);
    forall i | 0 <= i < |s'.resume| && s'.resume[i].InMulti? ensures !s'.resume[i].all {
      if i + 1 == g {
        if l.Call? {
          OwnResumeAfterCall(s, g, l.call);
        } else if l == Continue {
          OwnResumeAfterContinue(s, g);
        }
      } else if i < |s.resume| {
        OthersResume(s, l, s', i + 1);
      } else {
        NewFibersStartInBody(s, l, s', i);
      }
    }
  }

  ghost predicate IsGentleRun(ss: seq<State>, ls: seq<Label>) {
    IsCarefulRun(ss, ls) && forall i :: 0 <= i < |ls| && ls[i].Call? ==> Gentle(ls[i].call)
  }

  /**
   In every careful run without closing and without waits for all, no death is lost:
   every abandoned mutant has been reported by a wait or still has its flag set.
   */
  lemma {:induction false} EveryDeathIsReported(ss: seq<State>, ls: seq<Label>, n: nat)
    requires IsGentleRun(ss, ls) && n < |ss|
    ensures Reports(ss[n].log) + Flags(ss[n].objs) == Deaths(ss[n].log)
    ensures NoneForAll(ss[n].resume)
  {
    hide KernelInv, Apply, ApplyResume, Reports, Deaths, Flags;
    if n == 0 {
      BootBalance();
    } else {
      EveryDeathIsReported(ss, ls, n - 1);
      EachDeathIsReportedOnce(ss, ls, n - 1);
      RunBooks(ss, ls, n - 1);
      StepAt(ss, ls, n - 1);
      StepKeepsNone(ss[n - 1], ls[n - 1], ss[n]);
      GentleStep(ss[n - 1], ls[n - 1], ss[n]);
    }
  }

  lemma BooksReported(s: State, h: nat)
    requires Books(s, 0) && h != 0
    ensures OwnedAreReported(s.objs, h)
  {
    forall o | 0 <= o < |s.objs| && s.objs[o].kind.Mutant? && s.objs[o].kind.owner == h
      ensures !s.objs[o].kind.abandoned
    {
      assert Agrees(s, o, 0);
    }
  }

  lemma GentleStep(s: State, l: Label, s': State)
    requires StepsTo(s, l, s') && SetsSmall(s.resume) && NoneForAll(s.resume) && Books(s, 0)
    requires l.Call? ==> Gentle(l.call)
    ensures Balance(s') == Balance(s)
  {
    hide Balance, Apply, ApplyResume;
    match l
    case Call(c) => GentleCall(s, Handle(s.sched.mode), c);
    case Continue => ContinueBalance(s, s.sched.mode.handle);
    case Schedule => SameKindsBalance(s, s');
    case Run => SameKindsBalance(s, s');
  }

  lemma GentleCall(s: State, h: nat, c: Call)
    requires Caller(s, h) && Books(s, 0) && Gentle(c)
    ensures Balance(Apply(s, h, c)) == Balance(s)
  {
    hide Balance, Books, Apply;
    if h != 0 {
      BooksReported(s, h);
    }
    CallBalance(s, h, c);
  }
}
