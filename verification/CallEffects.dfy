/**
 What calls do to the objects and sections they name, over runs: the status of a wait on
 one object, the state of notification events, who owns a critical section, and what is
 created and closed.
 */
module CallEffects {
  import opened Scheduler
  import opened Kernel
  import opened WaitInvariant
  import opened WaitProofs
  import opened KernelRuns
  import opened History
  import opened HistoryRuns
  import opened MultiWait
  import opened Trace
  import opened WakeLaws
  import OrphanSections

  // ---------------------------------------------------------------------
  // The status of a wait on one object

  /** Step n of a run is an evaluation, by caller h, of a wait on object o alone. */
  predicate EvaluatesOne(s: State, l: Label, h: nat, o: nat) {
    && h == Handle(s.sched.mode) && o < |s.objs|
    && match l
       case Call(WaitOne(obj, _, _)) => obj == o && Has(s, o)
       case Continue => 1 <= h <= |s.resume| && s.resume[h - 1].InWait? && s.resume[h - 1].obj == o
       case _ => false
  }

  /** Whether it finds what it waits for: it is satisfied now, or an event has woken it. */
  predicate Finds(s: State, l: Label, h: nat, o: nat)
    requires EvaluatesOne(s, l, h, o) && |s.resume| == |s.sched.threads|
  {
    if l == Continue then !s.sched.threads[h - 1].timedOut && (s.objs[o].kind.Event? || Satisfied(s.objs[o].kind, h))
    else Satisfied(s.objs[o].kind, h)
  }

  /**
   In every careful run: an evaluation of a wait on one object that finds it acquires it
   and returns, with STATUS_ABANDONED exactly for a mutant whose last holder died and
   that nobody has acquired since, as the log tells. The host is refused a mutant. An
   evaluation that does not find it acquires nothing.
   */
  lemma SingleWaitStatus(ss: seq<State>, ls: seq<Label>, n: nat, h: nat, o: nat)
    requires IsCarefulRun(ss, ls) && n < |ls| && EvaluatesOne(ss[n], ls[n], h, o)
    ensures |ss[n].resume| == |ss[n].sched.threads|
    ensures var a := AccountOf(ss[n].log, o);
      if !Finds(ss[n], ls[n], h, o) then
        LogGrows(ss[n], ss[n + 1]) && !Took(ss[n], ss[n + 1], h, o)
      else if HasMutant(ss[n], o) && h == 0 then
        ss[n + 1].log == ss[n].log + [Returned(h, STATUS_INVALID_PARAMETER)]
      else
        ss[n + 1].log == ss[n].log + [Acquired(o, h),
          Returned(h, if HasMutant(ss[n], o) && a.held == 0 && a.byDeath then STATUS_ABANDONED else STATUS_SUCCESS)]
  {
    hide KernelInv, Apply, Notes, ResumeNotes, AccountOf;
    RunBooks(ss, ls, n);
    assert Agrees(ss[n], o, 0);
    LogIsTheTrace(ss, ls, n);
    NotesOfOne(ss[n], ls[n], h, o);
  }

  lemma NotesOfOne(s: State, l: Label, h: nat, o: nat)
    requires Enabled(s, l) && EvaluatesOne(s, l, h, o) && |s.resume| == |s.sched.threads|
    ensures !Finds(s, l, h, o) ==> StepNotes(s, l) == [] || (|StepNotes(s, l)| == 1 && StepNotes(s, l)[0].Returned?)
    ensures Finds(s, l, h, o) ==>
      StepNotes(s, l) == if HasMutant(s, o) && h == 0 then [Returned(h, STATUS_INVALID_PARAMETER)]
                         else [Acquired(o, h), Returned(h, SingleStatus(s.objs[o].kind))]
  {
  }

  // ---------------------------------------------------------------------
  // Notification events

  /** Entries that do not set or clear an event. */
  predicate Neutral(e: Entry) {
    !e.Created? && !e.WasSet? && !e.WasCleared? && !e.WasPulsed?
  }

  function LitAfter(lit: bool, e: Entry): bool {
    match e
    case Created(_, k) => k.Event? && k.signaled
    case WasSet(_, _) => true
    case WasCleared(_, _) => false
    case WasPulsed(_, _, _) => false
    case _ => lit
  }

  /** Whether the last of the sets, clears, pulses and initialisations of o in the log left it signaled. */
  function LitOf(log: seq<Entry>, o: nat): bool {
    if log == [] then false
    else
      var lit, e := LitOf(log[..|log| - 1], o), log[|log| - 1];
      if Subject(e) == o then LitAfter(lit, e) else lit
  }

  ghost predicate LitOk(s: State) {
    forall o :: 0 <= o < |s.objs| && s.objs[o].kind.Event? && s.objs[o].kind.notify ==>
      (s.objs[o].kind.signaled <==> LitOf(s.log, o))
  }

  lemma LitNote(log: seq<Entry>, e: Entry, o: nat)
    ensures LitOf(log + [e], o) == if Subject(e) == o then LitAfter(LitOf(log, o), e) else LitOf(log, o)
  {
    assert (log + [e])[..|log|] == log;
  }

  lemma {:induction false} NeutralNotes(log: seq<Entry>, es: seq<Entry>, o: nat)
    requires forall i :: 0 <= i < |es| ==> Neutral(es[i])
    ensures LitOf(log + es, o) == LitOf(log, o)
  {
    if es == [] {
      assert log + es == log;
    } else {
      var init, last := es[..|es| - 1], es[|es| - 1];
      NeutralNotes(log, init, o);
      LitNote(log + init, last, o);
      assert log + init + [last] == log + es;
    }
  }

  /** A step that touches no notification event and notes nothing about one. */
  lemma QuietLit(s: State, s': State, es: seq<Entry>)
    requires LitOk(s) && s'.log == s.log + es && forall i :: 0 <= i < |es| ==> Neutral(es[i])
    requires |s'.objs| == |s.objs| && forall o :: 0 <= o < |s.objs| ==> SameBell(s.objs[o].kind, s'.objs[o].kind)
    ensures LitOk(s')
  {
    forall o | 0 <= o < |s'.objs| && s'.objs[o].kind.Event? && s'.objs[o].kind.notify
      ensures s'.objs[o].kind.signaled <==> LitOf(s'.log, o)
    {
      assert SameBell(s.objs[o].kind, s'.objs[o].kind);
      NeutralNotes(s.log, es, o);
    }
  }

  /** k' is the same notification event as k, or none. */
  predicate SameBell(k: Kind, k': Kind) {
    k'.Event? && k'.notify ==> k' == k
  }

  /** A step that notes one thing about object o, after which its state is the one noted. */
  lemma NotedLit(s: State, s': State, o: nat, e: Entry)
    requires LitOk(s) && s'.log == s.log + [e] && Subject(e) == o < |s'.objs| && |s.objs| <= |s'.objs|
    requires forall o' :: 0 <= o' < |s'.objs| && o' != o ==>
      o' < |s.objs| && SameBell(s.objs[o'].kind, s'.objs[o'].kind)
    requires s'.objs[o].kind.Event? && s'.objs[o].kind.notify ==>
      s'.objs[o].kind.signaled == LitAfter(LitOf(s.log, o), e)
    ensures LitOk(s')
  {
    forall o' | 0 <= o' < |s'.objs| && s'.objs[o'].kind.Event? && s'.objs[o'].kind.notify
      ensures s'.objs[o'].kind.signaled <==> LitOf(s'.log, o')
    {
      LitNote(s.log, e, o');
      assert o' != o ==> SameBell(s.objs[o'].kind, s'.objs[o'].kind);
    }
  }

  lemma {:induction false} AcquireAllBells(s: State, h: nat, targets: seq<nat>, from: nat, worst: nat, o: nat)
    requires InTable(s, targets) && from <= |targets| && o < |s.objs|
    ensures SameBell(s.objs[o].kind, AcquireAll(s, h, targets, from, worst).0.objs[o].kind)
    decreases |targets| - from
  {
    if from < |targets| {
      var s1 := AcquireObject(s, h, targets[from]);
      AcquireAllBells(s1, h, targets, from + 1, Worse(s, h, targets[from], from, worst), o);
      assert SameBell(s.objs[o].kind, s1.objs[o].kind);
    }
  }

  lemma {:induction false} TakesAreNeutral(s: State, h: nat, claimed: seq<nat>)
    requires InTable(s, claimed)
    ensures forall i :: 0 <= i < |TakeNotes(s, h, claimed)| ==> Neutral(TakeNotes(s, h, claimed)[i])
  {
    if claimed != [] {
      TakesAreNeutral(s, h, claimed[1..]);
    }
  }

  lemma SetNotesNeutral(s: State, h: nat, targets: seq<nat>, all: bool, immediate: bool)
    requires InTable(s, targets) && targets != []
    ensures var es := SetNotes(s, h, targets, all, immediate); forall i :: 0 <= i < |es| ==> Neutral(es[i])
  {
    hide TakeNotes;
    TakesAreNeutral(s, h, Claimed(s, h, targets, all));
  }

  lemma EvalManyBells(s: State, h: nat, targets: seq<nat>, all: bool, immediate: bool, timeout: nat)
    requires Caller(s, h) && InTable(s, targets)
    ensures var s' := EvalMany(s, h, targets, all, immediate, timeout);
      |s'.objs| == |s.objs| && forall o :: 0 <= o < |s.objs| ==> SameBell(s.objs[o].kind, s'.objs[o].kind)
  {
    hide FirstSatisfied;
    RegisterLists(s.objs, h, targets, 0);
    forall o | 0 <= o < |s.objs| {
      AcquireAllBells(s, h, targets, 0, STATUS_SUCCESS, o);
    }
  }

  lemma {:induction false} AbandonBells(s: State, h: nat, from: nat)
    requires from <= |s.objs|
    ensures var s' := AbandonFrom(s, h, from);
      |s'.objs| == |s.objs| && forall o :: 0 <= o < |s.objs| ==> SameBell(s.objs[o].kind, s'.objs[o].kind)
    decreases |s.objs| - from
  {
    hide SignalMany, SignalEach;
    if from < |s.objs| {
      var s1 := AbandonObject(s, h, from);
      AbandonBells(s1, h, from + 1);
      assert forall o :: 0 <= o < |s.objs| ==> SameBell(s.objs[o].kind, s1.objs[o].kind);
    }
  }

  lemma {:induction false} DeathsAreNeutral(objs: seq<Object>, h: nat, from: nat)
    requires from <= |objs|
    ensures forall i :: 0 <= i < |DeathNotes(objs, h, from)| ==> Neutral(DeathNotes(objs, h, from)[i])
    decreases |objs| - from
  {
    if from < |objs| {
      DeathsAreNeutral(objs, h, from + 1);
    }
  }

  lemma CallLit(s: State, h: nat, c: Call)
    requires LitOk(s) && Caller(s, h)
    ensures LitOk(Apply(s, h, c))
  {
    hide LitOk, Apply, Notes;
    CallNotes(s, h, c);
    if OnObjects(c) {
      ObjectCallLit(s, h, c);
    } else {
      OtherCallBells(s, h, c);
      OtherNotesNeutral(s, h, c);
      QuietLit(s, Apply(s, h, c), Notes(s, h, c));
    }
  }

  lemma OtherCallBells(s: State, h: nat, c: Call)
    requires Caller(s, h) && !OnObjects(c)
    ensures var s' := Apply(s, h, c);
      |s'.objs| == |s.objs| && forall o :: 0 <= o < |s.objs| ==> SameBell(s.objs[o].kind, s'.objs[o].kind)
  {
    hide EvalMany, AbandonFrom;
    match c
    case WaitMany(targets, all, immediate, timeout) =>
      if forall i :: 0 <= i < |targets| ==> Has(s, targets[i]) {
        EvalManyBells(s, h, targets, all, immediate, timeout);
      }
    case ExitFiber => if h != 0 { AbandonBells(s.(sched := Finish(s.sched, h)), h, 0); }
    case _ =>
  }

  lemma OtherNotesNeutral(s: State, h: nat, c: Call)
    requires Caller(s, h) && !OnObjects(c)
    ensures forall i :: 0 <= i < |Notes(s, h, c)| ==> Neutral(Notes(s, h, c)[i])
  {
    hide SetNotes, DeathNotes;
    match c
    case WaitMany(targets, all, immediate, _) =>
      if 0 < |targets| && forall i :: 0 <= i < |targets| ==> Has(s, targets[i]) {
        SetNotesNeutral(s, h, targets, all, immediate);
      }
    case ExitFiber => DeathsAreNeutral(s.objs, h, 0);
    case _ =>
  }

  lemma ObjectCallLit(s: State, h: nat, c: Call)
    requires LitOk(s) && Caller(s, h) && OnObjects(c)
    ensures LitOk(Apply(s, h, c))
  {
    hide LitOk, LitOf;
    var s' := Apply(s, h, c);
    CallNotes(s, h, c);
    ObjectCallKinds(s, h, c);
    var es := Notes(s, h, c);
    if |es| == 1 && !Neutral(es[0]) {
      NotedLit(s, s', Subject(es[0]), es[0]);
    } else {
      QuietLit(s, s', es);
    }
  }

  /** The object that a call notes has the state it notes, and no other notification event changes. */
  ghost predicate AsNoted(s: State, s': State, es: seq<Entry>) {
    && |es| <= 1
    && (es == [] || Neutral(es[0]) ==>
          |s'.objs| == |s.objs| && forall o :: 0 <= o < |s.objs| ==> SameBell(s.objs[o].kind, s'.objs[o].kind))
    && (es != [] && !Neutral(es[0]) ==>
          && 0 <= Subject(es[0]) < |s'.objs| && |s.objs| <= |s'.objs|
          && (forall o :: 0 <= o < |s'.objs| && o != Subject(es[0]) ==>
                o < |s.objs| && SameBell(s.objs[o].kind, s'.objs[o].kind))
          && var k := s'.objs[Subject(es[0])].kind;
             k.Event? && k.notify ==> forall lit :: k.signaled == LitAfter(lit, es[0]))
  }

  lemma ObjectCallKinds(s: State, h: nat, c: Call)
    requires Caller(s, h) && OnObjects(c)
    ensures AsNoted(s, Apply(s, h, c), Notes(s, h, c))
  {
    hide Apply, Notes, AsNoted;
    if Signals(c) {
      SignalKinds(s, h, c);
    } else {
      PlainKinds(s, h, c);
    }
  }

  lemma SignalKinds(s: State, h: nat, c: Call)
    requires Caller(s, h) && Signals(c)
    ensures AsNoted(s, Apply(s, h, c), Notes(s, h, c))
  {
    hide SignalMany, SignalEach, SignalOne, SignalAll;
  }

  lemma PlainKinds(s: State, h: nat, c: Call)
    requires Caller(s, h) && OnObjects(c) && !Signals(c)
    ensures AsNoted(s, Apply(s, h, c), Notes(s, h, c))
  {
  }

  lemma ContinueLit(s: State)
    requires KernelInv(s) && Enabled(s, Continue) && LitOk(s)
    ensures LitOk(ApplyResume(s, s.sched.mode.handle))
  {
    hide LitOk, EvalMany, Deregister, SetNotes;
    var h := s.sched.mode.handle;
    var s' := ApplyResume(s, h);
    ContinueNotes(s);
    if s.resume[h - 1].InMulti? {
      var InMulti(targets, all, timeout) := s.resume[h - 1];
      DeregisterLists(s.objs, h, targets, 0);
      EvalManyBells(Unwind(s, h).(objs := Deregister(s.objs, h, targets, 0)), h, targets, all, false, timeout);
      SetNotesNeutral(s, h, targets, all, false);
    }
    QuietLit(s, s', ResumeNotes(s, h));
  }

  /**
   In every run: a notification event is signaled exactly when the last of its sets,
   clears, pulses and initialisations left it so. Waits do not consume it.
   */
  lemma {:induction false} NotificationIsLit(ss: seq<State>, ls: seq<Label>, n: nat)
    requires IsRun(ss, ls) && n < |ss|
    ensures LitOk(ss[n])
  {
    hide KernelInv, Apply, ApplyResume;
    if n > 0 {
      NotificationIsLit(ss, ls, n - 1);
      RunKeeps(ss, ls, n - 1);
      StepAt(ss, ls, n - 1);
      match ls[n - 1]
      case Call(c) => CallLit(ss[n - 1], Handle(ss[n - 1].sched.mode), c);
      case Continue => ContinueLit(ss[n - 1]);
      case _ =>
    }
  }

  // ---------------------------------------------------------------------
  // Critical sections

  predicate MayEnter(s: State, va: nat, h: nat) {
    va in s.sections && (s.sections[va].owner == 0 || (s.sections[va].owner == h && h != 0))
  }

  /**
   In every run, a try-enter that returns 1 takes the section, one level deeper, and one
   that returns 0 changes nothing.
   */
  lemma TryEnterTakes(ss: seq<State>, ls: seq<Label>, n: nat, va: nat)
    requires IsRun(ss, ls) && n < |ls| && ls[n] == Call(TryEnter(va))
    ensures var s, s', h := ss[n], ss[n + 1], Handle(ss[n].sched.mode);
      && s'.sched == s.sched && s'.resume == s.resume && s'.objs == s.objs
      && if MayEnter(s, va, h) then
           && s'.log == s.log + [Entered(va, h)]
           && va in s'.sections && s'.sections - {va} == s.sections - {va}
           && s'.sections[va].owner == h && s'.sections[va].lockCount == s.sections[va].lockCount
           && s'.sections[va].recursion == if s.sections[va].owner == 0 then 1 else s.sections[va].recursion + 1
         else s'.sections == s.sections && s'.log == s.log + [Returned(h, 0)]
  {
    hide SignalMany, SignalEach, SignalOne, SignalAll, EvalMany, EvalOne, AbandonFrom;
    StepAt(ss, ls, n);
  }

  /** The same of an enter that does not block; one that blocks adds a waiter and nothing else. */
  lemma EnterTakes(ss: seq<State>, ls: seq<Label>, n: nat, va: nat)
    requires IsRun(ss, ls) && n < |ls| && ls[n] == Call(Enter(va))
    ensures va in ss[n].sections && va in ss[n + 1].sections && ss[n + 1].sections - {va} == ss[n].sections - {va}
    ensures var s, s', h := ss[n].sections[va], ss[n + 1].sections[va], Handle(ss[n].sched.mode);
      if MayEnter(ss[n], va, h) then
        && s'.owner == h && s'.lockCount == s.lockCount && s'.recursion == (if s.owner == 0 then 1 else s.recursion + 1)
        && ss[n + 1].sched == ss[n].sched
      else
        && s' == s.(lockCount := s.lockCount + 1)
        && h != 0 && h <= |ss[n + 1].sched.threads| && ss[n + 1].sched.mode == Loop
        && WaitsOn(ss[n + 1].sched.threads[h - 1], SectionToken(va))
  {
    hide SignalMany, SignalEach, SignalOne, SignalAll, EvalMany, EvalOne, AbandonFrom;
    StepAt(ss, ls, n);
  }

  /** The words of a section and the threads after a leave by its owner. */
  ghost predicate LeftBehind(c: Section, c': Section, ts: seq<Thread>, ts': seq<Thread>, token: Token) {
    if c.recursion > 1 then c' == c.(recursion := c.recursion - 1) && ts' == ts
    else
      && c'.owner == 0 && c'.recursion == 0
      && c'.lockCount == (if HasWaiter(ts, token) then c.lockCount - 1 else c.lockCount)
      && WokeFirst(ts, ts', token, 1)
  }

  lemma LeaveLaw(s: State, h: nat, va: nat)
    requires |s.resume| == |s.sched.threads| && va in s.sections && s.sections[va].owner == h
    requires SectionOk(s.sched.threads, s.resume, va, s.sections[va])
    ensures var s' := LeaveSection(s, h, va);
      && va in s'.sections && s'.sections - {va} == s.sections - {va}
      && LeftBehind(s.sections[va], s'.sections[va], s.sched.threads, s'.sched.threads, SectionToken(va))
  {
    hide SignalOne;
    var ts, token := s.sched.threads, SectionToken(va);
    WaitersCounted(ts, va);
    SignalOneWakesFirst(ts, token);
  }

  /**
   A leave by the owner undoes one enter; the last one frees the section and wakes the
   first waiter, if there is one.
   */
  lemma LeaveFrees(ss: seq<State>, ls: seq<Label>, n: nat, va: nat)
    requires IsRun(ss, ls) && n < |ls| && ls[n] == Call(Leave(va)) && va in ss[n].sections
    requires ss[n].sections[va].owner == Handle(ss[n].sched.mode)
    ensures va in ss[n + 1].sections && ss[n + 1].sections - {va} == ss[n].sections - {va}
    ensures LeftBehind(ss[n].sections[va], ss[n + 1].sections[va], ss[n].sched.threads, ss[n + 1].sched.threads,
                       SectionToken(va))
  {
    hide LeaveSection, LeftBehind, SectionOk;
    StepAt(ss, ls, n);
    RunKeeps(ss, ls, n);
    LeaveLaw(ss[n], Handle(ss[n].sched.mode), va);
  }

  lemma WaitersCounted(ts: seq<Thread>, va: nat)
    ensures HasWaiter(ts, SectionToken(va)) <==> |WaiterSet(ts, SectionToken(va))| > 0
  {
    var w := WaiterSet(ts, SectionToken(va));
    if i :| 0 <= i < |ts| && WaitsOn(ts[i], SectionToken(va)) {
      assert i in w;
    }
    if w != {} {
      var i :| i in w;
    }
  }

  lemma OtherCallSections(s: State, h: nat, c: Call)
    requires Caller(s, h) && !c.InitSection? && !c.Enter? && !c.Leave? && !c.TryEnter?
    ensures Apply(s, h, c).sections == s.sections
  {
    hide Apply;
    if OnObjects(c) {
      ObjectCallSections(s, h, c);
    } else {
      SchedulingCallSections(s, h, c);
    }
  }

  lemma ObjectCallSections(s: State, h: nat, c: Call)
    requires Caller(s, h) && OnObjects(c)
    ensures Apply(s, h, c).sections == s.sections
  {
    hide SignalMany, SignalEach, SignalOne, SignalAll;
  }

  lemma SchedulingCallSections(s: State, h: nat, c: Call)
    requires Caller(s, h) && !OnObjects(c) && !c.InitSection? && !c.Enter? && !c.Leave? && !c.TryEnter?
    ensures Apply(s, h, c).sections == s.sections
  {
    hide AbandonFrom, AcquireAll, Register, FirstSatisfied;
    match c
    case WaitMany(targets, _, _, _) =>
      if forall i :: 0 <= i < |targets| ==> Has(s, targets[i]) {
        OrphanSections.AcquireAllSections(s, h, targets, 0, STATUS_SUCCESS);
      }
    case ExitFiber => if h != 0 { OrphanSections.AbandonKeepsStates(s.(sched := Finish(s.sched, h)), h, 0); }
    case _ =>
  }

  lemma ContinueSections(s: State, h: nat)
    requires s.sched.mode == Fiber(h) && Enabled(s, Continue) && !s.resume[h - 1].InSection?
    ensures ApplyResume(s, h).sections == s.sections
  {
    hide AcquireAll, Deregister;
    if s.resume[h - 1].InMulti? {
      var targets := s.resume[h - 1].objs;
      var s1 := Unwind(s, h).(objs := Deregister(s.objs, h, targets, 0));
      OrphanSections.AcquireAllSections(s1, h, targets, 0, STATUS_SUCCESS);
    }
  }

  /** Only its owner's leave, or an initialisation, takes a section from its owner. */
  lemma OwnerKeeps(s: State, l: Label, s': State, va: nat)
    requires StepsTo(s, l, s') && va in s.sections && s.sections[va].owner != 0
    requires l != Call(InitSection(va)) && !(l == Call(Leave(va)) && s.sections[va].owner == Handle(s.sched.mode))
    ensures va in s'.sections && s'.sections[va].owner == s.sections[va].owner
    ensures s'.sections[va].recursion >= s.sections[va].recursion
  {
    var h := Handle(s.sched.mode);
    if l.Call? {
      CallOwner(s, h, l.call, va);
    } else if l == Continue {
      if !s.resume[h - 1].InSection? {
        ContinueSections(s, h);
      }
    }
  }

  lemma CallOwner(s: State, h: nat, c: Call, va: nat)
    requires Caller(s, h) && va in s.sections && s.sections[va].owner != 0
    requires c != InitSection(va) && !(c == Leave(va) && s.sections[va].owner == h)
    ensures var s' := Apply(s, h, c);
      && va in s'.sections && s'.sections[va].owner == s.sections[va].owner
      && s'.sections[va].recursion >= s.sections[va].recursion
  {
    if !c.InitSection? && !c.Enter? && !c.Leave? && !c.TryEnter? {
      hide Apply;
      OtherCallSections(s, h, c);
    } else {
      SectionCallOwner(s, h, c, va);
    }
  }

  lemma SectionCallOwner(s: State, h: nat, c: Call, va: nat)
    requires Caller(s, h) && va in s.sections && s.sections[va].owner != 0
    requires c.InitSection? || c.Enter? || c.Leave? || c.TryEnter?
    requires c != InitSection(va) && !(c == Leave(va) && s.sections[va].owner == h)
    ensures var s' := Apply(s, h, c);
      && va in s'.sections && s'.sections[va].owner == s.sections[va].owner
      && s'.sections[va].recursion >= s.sections[va].recursion
  {
  }

  /** Steps a to b hold no leave of the section by its owner and no initialisation of it. */
  ghost predicate NobodyLeaves(ss: seq<State>, ls: seq<Label>, a: nat, b: nat, va: nat, h: nat) {
    && a <= b <= |ls| < |ss|
    && forall k :: a <= k < b ==>
         ls[k] != Call(InitSection(va)) && !(ls[k] == Call(Leave(va)) && ss[k].sched.mode == Fiber(h))
  }

  /**
   In every run: a section entered by fiber h, with whatever call, is h's until h leaves
   it as often as it entered. In between nobody else gets in: a try-enter by another
   fiber returns 0 and changes nothing.
   */
  lemma {:induction false} SectionStaysOwned(ss: seq<State>, ls: seq<Label>, a: nat, b: nat, va: nat, h: nat)
    requires IsRun(ss, ls) && NobodyLeaves(ss, ls, a, b, va, h)
    requires va in ss[a].sections && ss[a].sections[va].owner == h != 0
    ensures va in ss[b].sections && ss[b].sections[va].owner == h
    ensures ss[b].sections[va].recursion >= ss[a].sections[va].recursion
    ensures b < |ls| && ls[b] == Call(TryEnter(va)) && ss[b].sched.mode != Fiber(h) ==>
      ss[b + 1].sections == ss[b].sections && ss[b + 1].log == ss[b].log + [Returned(Handle(ss[b].sched.mode), 0)]
    decreases b
  {
    hide StepsTo;
    if a < b {
      SectionStaysOwned(ss, ls, a, b - 1, va, h);
      StepAt(ss, ls, b - 1);
      OwnerKeepsAt(ss, ls, b - 1, va, h);
    }
    if b < |ls| && ls[b] == Call(TryEnter(va)) {
      TryEnterTakes(ss, ls, b, va);
    }
  }

  lemma OwnerKeepsAt(ss: seq<State>, ls: seq<Label>, k: nat, va: nat, h: nat)
    requires IsRun(ss, ls) && k < |ls| && va in ss[k].sections && ss[k].sections[va].owner == h != 0
    requires ls[k] != Call(InitSection(va)) && !(ls[k] == Call(Leave(va)) && ss[k].sched.mode == Fiber(h))
    ensures va in ss[k + 1].sections && ss[k + 1].sections[va].owner == h
    ensures ss[k + 1].sections[va].recursion >= ss[k].sections[va].recursion
  {
    StepAt(ss, ls, k);
    OwnerKeeps(ss[k], ls[k], ss[k + 1], va);
  }

  // ---------------------------------------------------------------------
  // Creating and closing

  /** What a creation notes is there afterwards, in a new place, and everything else is as it was. */
  lemma CreatesExactly(s: State, h: nat, c: Call, k: Kind)
    requires Caller(s, h) && Notes(s, h, c) == [Created(|s.objs|, k)]
    requires c.CreateEvent? || c.CreateMutant? || c.NtCreateSemaphore? || c.KeInitializeSemaphore?
    ensures Apply(s, h, c).objs == s.objs + [Object(k, [])]
    ensures Apply(s, h, c).sched == s.sched && Apply(s, h, c).resume == s.resume
    ensures Apply(s, h, c).sections == s.sections
  {
  }

  /** A closed object is gone and no other object changes; a refused call changes nothing but the log. */
  lemma ClosesExactly(s: State, h: nat, o: nat)
    requires Caller(s, h)
    ensures var s' := Apply(s, h, Close(o));
      && |s'.objs| == |s.objs| && (forall i :: 0 <= i < |s.objs| && i != o ==> s'.objs[i] == s.objs[i])
      && (o < |s.objs| ==> s'.objs[o].kind == Closed && !Has(s', o))
  {
  }

  /** A call that is refused changes nothing but the log. */
  lemma RefusedChangesNothing(s: State, h: nat, c: Call)
    requires Caller(s, h) && Notes(s, h, c) == Refusal(h) && !c.ExitFiber?
    requires c.WaitMany? ==>
      |c.objs| == 0 || |c.objs| > MAX_WAIT_OBJECTS || exists i :: 0 <= i < |c.objs| && !Has(s, c.objs[i])
    ensures Apply(s, h, c) == s.(log := s.log + Refusal(h))
  {
    hide SignalMany, SignalEach, SignalOne, SignalAll, EvalMany, SetNotes, AbandonFrom;
  }
}
