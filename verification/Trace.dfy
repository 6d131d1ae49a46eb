/**
 What every call notes in the log, call by call. Together with the accounts of module
 History, which determine the objects from the log, this ties the objects to the calls.
 */
module Trace {
  import opened Scheduler
  import opened Kernel
  import opened KernelRuns
  import opened MultiWait
  import opened WaitInvariant
  import opened WaitProofs
  import opened TimedWaits

  function Refusal(h: nat): seq<Entry> {
    [Returned(h, STATUS_INVALID_PARAMETER)]
  }

  /** STATUS_ABANDONED for the first wait on a mutant whose owner died. */
  function SingleStatus(k: Kind): nat {
    if k.Mutant? && k.abandoned then STATUS_ABANDONED else STATUS_SUCCESS
  }

  /** An evaluation of a wait on one object. */
  function WaitNotes(s: State, h: nat, o: nat, immediate: bool): seq<Entry>
    requires o < |s.objs|
  {
    var k := s.objs[o].kind;
    if Satisfied(k, h) then
      if Refused(k, h) then Refusal(h) else [Acquired(o, h), Returned(h, SingleStatus(k))]
    else if immediate then [Returned(h, STATUS_TIMEOUT)]
    else if h == 0 then Refusal(h)
    else []
  }

  /** The acquisitions of the claimed objects, in order, without those refused to the host. */
  function TakeNotes(s: State, h: nat, claimed: seq<nat>): seq<Entry>
    requires InTable(s, claimed)
  {
    if claimed == [] then []
    else
      (if Refused(s.objs[claimed[0]].kind, h) then [] else [Acquired(claimed[0], h)]) + TakeNotes(s, h, claimed[1..])
  }

  /** An evaluation of a wait on a set. */
  function SetNotes(s: State, h: nat, targets: seq<nat>, all: bool, immediate: bool): seq<Entry>
    requires InTable(s, targets) && targets != []
  {
    var claimed := Claimed(s, h, targets, all);
    if claimed != [] then TakeNotes(s, h, claimed) + [Returned(h, ClaimStatus(s, h, targets, all))]
    else if immediate then [Returned(h, STATUS_TIMEOUT)]
    else if h == 0 then Refusal(h)
    else []
  }

  /** Entering a section, on the call and on every retry. */
  function EnterNotes(s: State, h: nat, va: nat): seq<Entry> {
    if va !in s.sections then Refusal(h)
    else if s.sections[va].owner == 0 || (s.sections[va].owner == h && h != 0) then [Entered(va, h)]
    else if h == 0 then Refusal(h)
    else []
  }

  /** The mutants that die with fiber h, from object `from` on. */
  function DeathNotes(objs: seq<Object>, h: nat, from: nat): seq<Entry>
    requires from <= |objs|
    decreases |objs| - from
  {
    if from == |objs| then []
    else
      (if objs[from].kind.Mutant? && objs[from].kind.owner == h then [Abandoned(from, h)] else [])
      + DeathNotes(objs, h, from + 1)
  }

  /** What a call notes. */
  function Notes(s: State, h: nat, c: Call): seq<Entry>
    requires Caller(s, h)
  {
    match c
    case CreateEvent(notify, signaled) => [Created(|s.objs|, Event(notify, signaled))]
    case CreateMutant(initialOwner) =>
      if !initialOwner then [Created(|s.objs|, Mutant(1, 0, false))]
      else if h == 0 then Refusal(h)
      else [Created(|s.objs|, Mutant(0, h, false))]
    case NtCreateSemaphore(count, limit) =>
      if 0 <= count <= limit && limit > 0 then [Created(|s.objs|, Semaphore(count, limit))] else Refusal(h)
    case KeInitializeSemaphore(count, limit) => [Created(|s.objs|, Semaphore(count, limit))]
    case ReinitializeEvent(o, notify, signaled) =>
      if HasEvent(s, o) then [Created(o, Event(notify, signaled))] else Refusal(h)
    case CallSetEvent(o) => if HasEvent(s, o) then [WasSet(o, s.objs[o].kind.signaled)] else Refusal(h)
    case CallResetEvent(o) => if HasEvent(s, o) then [WasCleared(o, s.objs[o].kind.signaled)] else Refusal(h)
    case CallPulseEvent(o) =>
      if HasEvent(s, o) then [WasPulsed(o, HasWaiter(s.sched.threads, ObjectToken(o)), s.objs[o].kind.signaled)]
      else Refusal(h)
    case NtReleaseMutant(o) =>
      if HasMutant(s, o) && h != 0 && s.objs[o].kind.owner == h then [Released(o, 1)] else Refusal(h)
    case KeReleaseMutant(o) => if HasMutant(s, o) then [Released(o, 1)] else Refusal(h)
    case CallReleaseSemaphore(o, n) =>
      if HasSemaphore(s, o) && ReleaseFits(s.objs[o].kind, n) then [Released(o, n)] else Refusal(h)
    case WaitOne(o, immediate, _) => if Has(s, o) then WaitNotes(s, h, o, immediate) else Refusal(h)
    case WaitMany(targets, all, immediate, _) =>
      if 0 < |targets| <= MAX_WAIT_OBJECTS && forall i :: 0 <= i < |targets| ==> Has(s, targets[i])
      then SetNotes(s, h, targets, all, immediate) else Refusal(h)
    case Close(o) => if Has(s, o) then [] else Refusal(h)
    case InitSection(va) => [Initialized(va)]
    case Enter(va) => EnterNotes(s, h, va)
    case Leave(va) => if va in s.sections && s.sections[va].owner == h then [Left(va, h)] else Refusal(h)
    case TryEnter(va) =>
      if va in s.sections && (s.sections[va].owner == 0 || (s.sections[va].owner == h && h != 0)) then [Entered(va, h)]
      else [Returned(h, 0)]
    case Delay(ticks) => if ticks == 0 then [Returned(h, STATUS_SUCCESS)] else if h == 0 then Refusal(h) else []
    case ExitFiber => if h == 0 then [] else DeathNotes(s.objs, h, 0)
    case _ => []
  }

  /** What the rest of a blocked call notes. */
  function ResumeNotes(s: State, h: nat): seq<Entry>
    requires Caller(s, h) && h != 0 && s.resume[h - 1] != Body && ResumeInTable(s, h)
    requires s.resume[h - 1].InMulti? ==> s.resume[h - 1].objs != []
  {
    match s.resume[h - 1]
    case InWait(o, _) =>
      if s.sched.threads[h - 1].timedOut then [Returned(h, STATUS_TIMEOUT)]
      else if s.objs[o].kind.Event? then [Acquired(o, h), Returned(h, STATUS_SUCCESS)]
      else WaitNotes(s, h, o, false)
    case InMulti(targets, all, _) =>
      if s.sched.threads[h - 1].timedOut then [Returned(h, STATUS_TIMEOUT)] else SetNotes(s, h, targets, all, false)
    case InSection(va) => EnterNotes(s, h, va)
    case InDelay => [Returned(h, STATUS_SUCCESS)]
  }

  // ---------------------------------------------------------------------
  // Waits

  lemma EvalOneNotes(s: State, h: nat, o: nat, immediate: bool, timeout: nat)
    requires Caller(s, h) && o < |s.objs|
    ensures EvalOne(s, h, o, immediate, timeout).log == s.log + WaitNotes(s, h, o, immediate)
  {
    assert s.log + [Acquired(o, h)] + [Returned(h, SingleStatus(s.objs[o].kind))]
        == s.log + [Acquired(o, h), Returned(h, SingleStatus(s.objs[o].kind))];
  }

  lemma {:induction false} TakeNotesSame(s: State, s': State, h: nat, claimed: seq<nat>)
    requires InTable(s, claimed) && InTable(s', claimed)
    requires forall i :: 0 <= i < |claimed| ==>
      Refused(s'.objs[claimed[i]].kind, h) == Refused(s.objs[claimed[i]].kind, h)
    ensures TakeNotes(s', h, claimed) == TakeNotes(s, h, claimed)
  {
    if claimed != [] {
      TakeNotesSame(s, s', h, claimed[1..]);
    }
  }

  lemma {:induction false} AcquireAllNotes(s: State, h: nat, targets: seq<nat>, from: nat, worst: nat)
    requires InTable(s, targets) && from <= |targets|
    ensures InTable(s, targets[from..])
    ensures AcquireAll(s, h, targets, from, worst).0.log == s.log + TakeNotes(s, h, targets[from..])
    decreases |targets| - from
  {
    if from < |targets| {
      var o := targets[from];
      var s1 := AcquireObject(s, h, o);
      AcquireAllNotes(s1, h, targets, from + 1, Worse(s, h, o, from, worst));
      assert targets[from..][1..] == targets[from + 1..];
      TakeNotesSame(s, s1, h, targets[from + 1..]);
      assert s1.log == s.log + if Refused(s.objs[o].kind, h) then [] else [Acquired(o, h)];
    }
  }

  lemma EvalManyNotes(s: State, h: nat, targets: seq<nat>, all: bool, immediate: bool, timeout: nat)
    requires Caller(s, h) && InTable(s, targets) && targets != []
    ensures EvalMany(s, h, targets, all, immediate, timeout).log == s.log + SetNotes(s, h, targets, all, immediate)
  {
    hide AcquireAll, TakeNotes, FirstSatisfied, FirstFlagged, Register;
    var first := FirstSatisfied(s, h, targets, 0);
    if all && AllSatisfied(s, h, targets) {
      AcquireAllNotes(s, h, targets, 0, STATUS_SUCCESS);
      AcquireAllStatus(s, h, targets, 0, STATUS_SUCCESS);
      assert targets[0..] == targets;
    } else if !all && first < |targets| {
      OneTaken(s, h, targets[first]);
    }
  }

  lemma OneTaken(s: State, h: nat, o: nat)
    requires o < |s.objs|
    ensures AcquireObject(s, h, o).log == s.log + TakeNotes(s, h, [o])
  {
    assert [o][1..] == [];
  }

  lemma {:induction false} SetNotesSame(s: State, s': State, h: nat, targets: seq<nat>, all: bool)
    requires InTable(s, targets) && targets != [] && |s'.objs| == |s.objs|
    requires forall o :: 0 <= o < |s.objs| ==> s'.objs[o].kind == s.objs[o].kind
    ensures InTable(s', targets) && SetNotes(s', h, targets, all, false) == SetNotes(s, h, targets, all, false)
  {
    hide TakeNotes, FirstSatisfied, FirstFlagged;
    SameFirst(s, s', h, targets, 0);
    SameFlagged(s, s', h, targets, 0);
    assert AllSatisfied(s', h, targets) == AllSatisfied(s, h, targets);
    TakeNotesSame(s, s', h, Claimed(s, h, targets, all));
  }

  lemma ResumeManyNotes(s: State, h: nat)
    requires Caller(s, h) && h != 0 && s.resume[h - 1].InMulti? && InTable(s, s.resume[h - 1].objs)
    requires s.resume[h - 1].objs != []
    ensures ResumeMany(s, h).log == s.log + ResumeNotes(s, h)
  {
    hide EvalMany, Deregister, SetNotes;
    var InMulti(targets, all, timeout) := s.resume[h - 1];
    var s1 := Unwind(s, h).(objs := Deregister(s.objs, h, targets, 0));
    DeregisterLists(s.objs, h, targets, 0);
    SetNotesSame(s, s1, h, targets, all);
    EvalManyNotes(s1, h, targets, all, false, timeout);
  }

  lemma ResumeOneNotes(s: State, h: nat)
    requires Caller(s, h) && h != 0 && s.resume[h - 1].InWait? && s.resume[h - 1].obj < |s.objs|
    ensures ResumeOne(s, h).log == s.log + ResumeNotes(s, h)
  {
    var InWait(o, timeout) := s.resume[h - 1];
    EvalOneNotes(Unwind(s, h), h, o, false, timeout);
    assert s.log + [Acquired(o, h)] + [Returned(h, STATUS_SUCCESS)]
        == s.log + [Acquired(o, h), Returned(h, STATUS_SUCCESS)];
  }

  // ---------------------------------------------------------------------
  // Calls

  lemma {:induction false} DeathsSame(objs: seq<Object>, objs': seq<Object>, h: nat, from: nat)
    requires from <= |objs| == |objs'| && forall o :: from <= o < |objs| ==> objs'[o].kind == objs[o].kind
    ensures DeathNotes(objs', h, from) == DeathNotes(objs, h, from)
    decreases |objs| - from
  {
    if from < |objs| {
      DeathsSame(objs, objs', h, from + 1);
    }
  }

  function DeathNote(objs: seq<Object>, h: nat, o: nat): seq<Entry>
    requires o < |objs|
  {
    if objs[o].kind.Mutant? && objs[o].kind.owner == h then [Abandoned(o, h)] else []
  }

  lemma AbandonOne(s: State, h: nat, o: nat)
    requires o < |s.objs|
    ensures AbandonObject(s, h, o).log == s.log + DeathNote(s.objs, h, o)
    ensures forall o' :: 0 <= o' < |s.objs| && o' != o ==> AbandonObject(s, h, o).objs[o'] == s.objs[o']
  {
    hide SignalMany, SignalEach;
  }

  lemma {:induction false} AbandonNotes(s: State, h: nat, from: nat)
    requires from <= |s.objs|
    ensures AbandonFrom(s, h, from).log == s.log + DeathNotes(s.objs, h, from)
    decreases |s.objs| - from
  {
    hide AbandonObject;
    if from < |s.objs| {
      var s1 := AbandonObject(s, h, from);
      AbandonOne(s, h, from);
      AbandonNotes(s1, h, from + 1);
      DeathsSame(s.objs, s1.objs, h, from + 1);
      assert DeathNotes(s.objs, h, from) == DeathNote(s.objs, h, from) + DeathNotes(s.objs, h, from + 1);
    }
  }

  /** Every call notes exactly that. */
  lemma CallNotes(s: State, h: nat, c: Call)
    requires Caller(s, h)
    ensures Apply(s, h, c).log == s.log + Notes(s, h, c)
  {
    if OnObjects(c) {
      ObjectCallNotes(s, h, c);
    } else {
      OtherCallNotes(s, h, c);
    }
  }

  lemma ObjectCallNotes(s: State, h: nat, c: Call)
    requires Caller(s, h) && OnObjects(c)
    ensures Apply(s, h, c).log == s.log + Notes(s, h, c)
  {
    hide SignalMany, SignalEach, SignalOne, SignalAll;
  }

  lemma OtherCallNotes(s: State, h: nat, c: Call)
    requires Caller(s, h) && !OnObjects(c)
    ensures Apply(s, h, c).log == s.log + Notes(s, h, c)
  {
    hide EvalOne, EvalMany, WaitNotes, SetNotes, AbandonFrom, DeathNotes;
    match c
    case WaitOne(o, immediate, timeout) => if Has(s, o) { EvalOneNotes(s, h, o, immediate, timeout); }
    case WaitMany(targets, all, immediate, timeout) =>
      if 0 < |targets| && forall i :: 0 <= i < |targets| ==> Has(s, targets[i]) {
        EvalManyNotes(s, h, targets, all, immediate, timeout);
      }
    case ExitFiber => if h != 0 { AbandonNotes(s.(sched := Finish(s.sched, h)), h, 0); }
    case _ =>
  }

  // ---------------------------------------------------------------------
  // Runs

  /** What step n of a run notes, given what it does. */
  function StepNotes(s: State, l: Label): seq<Entry>
    requires Enabled(s, l)
    requires l == Continue && s.resume[s.sched.mode.handle - 1].InMulti? ==>
      s.resume[s.sched.mode.handle - 1].objs != []
  {
    match l
    case Call(c) => Notes(s, Handle(s.sched.mode), c)
    case Continue => ResumeNotes(s, s.sched.mode.handle)
    case _ => []
  }

  /**
   In every run the log is exactly the trace of the calls: nothing is done that is not
   noted, and nothing else is noted.
   */
  lemma LogIsTheTrace(ss: seq<State>, ls: seq<Label>, n: nat)
    requires IsRun(ss, ls) && n < |ls|
    ensures Enabled(ss[n], ls[n])
    ensures ls[n] == Continue ==> 1 <= ss[n].sched.mode.handle <= |ss[n].resume|
    ensures ls[n] == Continue ==> ResumeSetNotEmpty(ss[n])
    ensures ss[n + 1].log == ss[n].log + StepNotes(ss[n], ls[n])
  {
    hide KernelInv, Apply, Notes, ResumeNotes;
    RunKeeps(ss, ls, n);
    StepAt(ss, ls, n);
    match ls[n]
    case Call(c) => CallNotes(ss[n], Handle(ss[n].sched.mode), c);
    case Continue => ContinueNotes(ss[n]);
    case _ =>
  }

  predicate ResumeSetNotEmpty(s: State)
    requires s.sched.mode.Fiber? && 1 <= s.sched.mode.handle <= |s.resume|
  {
    s.resume[s.sched.mode.handle - 1].InMulti? ==> s.resume[s.sched.mode.handle - 1].objs != []
  }

  lemma ContinueNotes(s: State)
    requires KernelInv(s) && Enabled(s, Continue)
    ensures ResumeSetNotEmpty(s)
    ensures ApplyResume(s, s.sched.mode.handle).log == s.log + ResumeNotes(s, s.sched.mode.handle)
  {
    var h := s.sched.mode.handle;
    assert ResumeOk(s.resume[h - 1], s.objs);
    match s.resume[h - 1]
    case InWait(_, _) => ResumeOneNotes(s, h);
    case InMulti(_, _, _) => ResumeManyNotes(s, h);
    case _ =>
  }
}
