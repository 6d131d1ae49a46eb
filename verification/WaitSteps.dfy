/** Every step of a kernel run keeps `KernelInv`: whole calls, resumptions and scheduling. */
module WaitSteps {
  import opened Scheduler
  import opened Kernel
  import opened WaitInvariant
  import opened WaitProofs

  // ---------------------------------------------------------------------
  // Leaving a wait

  /** A fiber may stop being counted as pending on o when o has a unit to spare, or none. */
  lemma UnwindOneKeeps(s: State, h: nat)
    requires KernelInv(s) && Caller(s, h) && h != 0 && s.resume[h - 1].InWait?
    requires var o := s.resume[h - 1].obj;
             || s.sched.threads[h - 1].timedOut
             || !HasWaiter(s.sched.threads, ObjectToken(o))
             || Units(s.objs[o].kind) <= 0
             || Units(s.objs[o].kind) < |Pending(s.sched.threads, s.resume, o)|
    ensures KernelInv(Unwind(s, h))
  {
    var o, s' := s.resume[h - 1].obj, Unwind(s, h);
    var ts, rs, rs' := s.sched.threads, s.resume, s'.resume;
    assert ThreadInv(s.sched, h - 1);
    assert forall i :: 0 <= i < |ts| ==> ThreadOk(ts[i], rs[i], i + 1);
    forall o' | 0 <= o' < |s.objs| ensures ObjectOk(ts, rs', o', s.objs[o'].kind) {
      if o' == o {
        assert ObjectOk(ts, rs, o, s.objs[o].kind);
        assert Pending(ts, rs', o) == Pending(ts, rs, o) - {h - 1};
        if h - 1 !in Pending(ts, rs, o) {
          assert Pending(ts, rs', o) == Pending(ts, rs, o);
        }
      } else {
        ObjectFrame(ts, ts, rs, rs', o', s.objs[o'].kind);
      }
    }
    UnwindKeepsRest(s, h);
  }

  lemma UnwindKeepsRest(s: State, h: nat)
    requires KernelInv(s) && Caller(s, h) && h != 0 && !s.resume[h - 1].InMulti? && !s.resume[h - 1].InSection?
    ensures var s' := Unwind(s, h);
      && ThreadsOk(s'.sched.threads, s'.resume)
      && AllRegisteredOk(s.sched.threads, s'.resume, s.objs)
      && WaitsOk(s.sched.threads, s'.resume, s.objs)
      && SectionsOk(s.sched.threads, s'.resume, s.sections)
  {
    var ts, rs, rs' := s.sched.threads, s.resume, Unwind(s, h).resume;
    forall i | 0 <= i < |ts| ensures ThreadOk(ts[i], rs'[i], i + 1) {
      assert ThreadInv(s.sched, i) && ThreadOk(ts[i], rs[i], i + 1);
    }
    SetsBut(ts, ts, rs, rs', h, s.objs);
    SectionsBut(ts, ts, rs, rs', h, s.sections);
  }

  lemma DeregisteredAfter(ts: seq<Thread>, rs: seq<Resume>, rs': seq<Resume>, h: nat, objs: seq<Object>,
      objs': seq<Object>)
    requires |ts| == |rs| == |rs'| && 1 <= h <= |ts| && |objs'| == |objs| && rs' == rs[h - 1 := Body]
    requires AllRegisteredOk(ts, rs, objs) && WaitsOk(ts, rs, objs)
    requires forall o :: 0 <= o < |objs| ==> objs'[o].kind == objs[o].kind && h !in objs'[o].waiters
    requires forall o, g :: 0 <= o < |objs| && g != h ==> (g in objs'[o].waiters <==> g in objs[o].waiters)
    ensures AllRegisteredOk(ts, rs', objs') && WaitsOk(ts, rs', objs')
  {
    forall o, g | 0 <= o < |objs'| && g in objs'[o].waiters ensures RegisteredOk(ts, rs', o, objs'[o].kind, g) {
      assert RegisteredOk(ts, rs, o, objs[o].kind, g);
    }
    forall i | 0 <= i < |ts| ensures MultiOk(ts[i], rs'[i], objs', i + 1) && ResumeOk(rs'[i], objs') {
      assert MultiOk(ts[i], rs[i], objs, i + 1) && ResumeOk(rs[i], objs);
      if i + 1 != h {
        SameRegistrations(objs, objs', i + 1);
      }
    }
  }

  /** Leaving a multi-object wait: the fiber's registrations are erased with it. */
  lemma UnwindManyKeeps(s: State, h: nat)
    requires KernelInv(s) && Caller(s, h) && h != 0 && s.resume[h - 1].InMulti? && InTable(s, s.resume[h - 1].objs)
    ensures KernelInv(Unwind(s, h).(objs := Deregister(s.objs, h, s.resume[h - 1].objs, 0)))
    ensures var objs' := Deregister(s.objs, h, s.resume[h - 1].objs, 0);
            forall o :: 0 <= o < |s.objs| ==> h !in objs'[o].waiters
  {
    var targets := s.resume[h - 1].objs;
    var objs' := Deregister(s.objs, h, targets, 0);
    var ts, rs, rs' := s.sched.threads, s.resume, Unwind(s, h).resume;
    DeregisterLists(s.objs, h, targets, 0);
    assert targets[0..] == targets;
    forall i | 0 <= i < |ts| ensures ThreadOk(ts[i], rs'[i], i + 1) {
      assert ThreadInv(s.sched, i) && ThreadOk(ts[i], rs[i], i + 1);
    }
    forall o | 0 <= o < |objs'| ensures h !in objs'[o].waiters {
      if h in s.objs[o].waiters {
        assert RegisteredOk(ts, rs, o, s.objs[o].kind, h);
      }
    }
    ObjectsBut(ts, ts, rs, rs', h, s.objs);
    DeregisteredAfter(ts, rs, rs', h, s.objs, objs');
    SectionsBut(ts, ts, rs, rs', h, s.sections);
  }

  // ---------------------------------------------------------------------
  // Waits

  lemma EvalOneKeeps(s: State, h: nat, o: nat, immediate: bool, timeout: nat)
    requires KernelInv(s) && Caller(s, h) && o < |s.objs| && DeadlineFits(s.sched, timeout)
    requires h != 0 ==> s.resume[h - 1] == Body
    ensures KernelInv(EvalOne(s, h, o, immediate, timeout))
  {
    if Satisfied(s.objs[o].kind, h) {
      AcquireKeeps(s, h, o);
    } else if !immediate && h != 0 {
      BlockOneKeeps(s, h, o, timeout);
    }
  }

  lemma ResumeOneKeeps(s: State, h: nat)
    requires KernelInv(s) && Caller(s, h) && h != 0 && s.resume[h - 1].InWait? && s.resume[h - 1].obj < |s.objs|
    requires DeadlineFits(s.sched, s.resume[h - 1].timeout)
    ensures KernelInv(ResumeOne(s, h))
  {
    var InWait(o, timeout) := s.resume[h - 1];
    var k := s.objs[o].kind;
    assert ObjectOk(s.sched.threads, s.resume, o, k);
    if s.sched.threads[h - 1].timedOut || k.Event? {
      UnwindOneKeeps(s, h);
    } else if Satisfied(k, h) {
      AcquireKeeps(s, h, o);
      var s1 := AcquireObject(s, h, o);
      UnwindOneKeeps(s1, h);
      assert AcquireObject(Unwind(s, h), h, o) == Unwind(s1, h);
    } else {
      UnwindOneKeeps(s, h);
      EvalOneKeeps(Unwind(s, h), h, o, false, timeout);
    }
  }

  lemma EvalManyKeeps(s: State, h: nat, targets: seq<nat>, all: bool, immediate: bool, timeout: nat)
    requires KernelInv(s) && Caller(s, h) && InTable(s, targets) && targets != [] && DeadlineFits(s.sched, timeout)
    requires h != 0 ==> s.resume[h - 1] == Body
    ensures KernelInv(EvalMany(s, h, targets, all, immediate, timeout))
  {
    var first := FirstSatisfied(s, h, targets, 0);
    if all && AllSatisfied(s, h, targets) {
      AcquireAllKeeps(s, h, targets, 0, STATUS_SUCCESS);
    } else if !all && first < |targets| {
      AcquireKeeps(s, h, targets[first]);
    } else if !immediate && h != 0 {
      BlockManyKeeps(s, h, targets, all, timeout);
    }
  }

  lemma ResumeManyKeeps(s: State, h: nat)
    requires KernelInv(s) && Caller(s, h) && h != 0 && s.resume[h - 1].InMulti? && InTable(s, s.resume[h - 1].objs)
    requires DeadlineFits(s.sched, s.resume[h - 1].timeout)
    ensures KernelInv(ResumeMany(s, h))
  {
    var InMulti(targets, all, timeout) := s.resume[h - 1];
    assert ResumeOk(s.resume[h - 1], s.objs);
    UnwindManyKeeps(s, h);
    var s' := Unwind(s, h).(objs := Deregister(s.objs, h, targets, 0));
    if !s.sched.threads[h - 1].timedOut {
      EvalManyKeeps(s', h, targets, all, false, timeout);
    }
  }

  // ---------------------------------------------------------------------
  // Critical sections

  predicate OffSection(r: Resume, va: nat) {
    r == Body || r == InSection(va)
  }

  /** A thread that did not change, or is at most inside RtlEnterCriticalSection on va, before and after. */
  predicate SectionMove(t: Thread, t': Thread, r: Resume, r': Resume, va: nat) {
    (t' == t && r' == r) || (OffSection(r, va) && OffSection(r', va))
  }

  ghost predicate OnlySection(ts: seq<Thread>, ts': seq<Thread>, rs: seq<Resume>, rs': seq<Resume>, va: nat) {
    && |ts| == |rs| == |ts'| == |rs'|
    && forall i :: 0 <= i < |ts| ==> SectionMove(ts[i], ts'[i], rs[i], rs'[i], va)
  }

  lemma OnlySectionAt(ts: seq<Thread>, rs: seq<Resume>, h: nat, va: nat, t: Thread, r: Resume)
    requires 1 <= h <= |ts| == |rs| && OffSection(rs[h - 1], va) && OffSection(r, va)
    ensures OnlySection(ts, ts[h - 1 := t], rs, rs[h - 1 := r], va)
  {
  }

  /** Facts about objects and waits do not depend on threads outside those waits. */
  lemma ObjectsUntouched(ts: seq<Thread>, ts': seq<Thread>, rs: seq<Resume>, rs': seq<Resume>, va: nat,
      objs: seq<Object>)
    requires OnlySection(ts, ts', rs, rs', va) && ThreadsOk(ts, rs) && ThreadsOk(ts', rs')
    requires ObjectsOk(ts, rs, objs) && WaitsOk(ts, rs, objs)
    ensures ObjectsOk(ts', rs', objs) && WaitsOk(ts', rs', objs)
  {
    forall i | 0 <= i < |ts|
      ensures OutsideWaits(ts[i], ts'[i], rs[i], rs'[i])
      ensures OutsideSets(ts[i], ts'[i], rs[i], rs'[i])
      ensures ResumeOk(rs'[i], objs)
    {
      assert SectionMove(ts[i], ts'[i], rs[i], rs'[i], va);
      assert ResumeOk(rs[i], objs);
    }
    ObjectsOutside(ts, ts', rs, rs', objs);
    SetsOutside(ts, ts', rs, rs', objs);
  }

  /** One section changes; the threads that wait on or are on the way into another one do not. */
  lemma SectionUpdate(ts: seq<Thread>, ts': seq<Thread>, rs: seq<Resume>, rs': seq<Resume>,
                                         sections: map<nat, Section>, va: nat, c: Section)
    requires ThreadsOk(ts, rs) && ThreadsOk(ts', rs') && |ts| == |ts'|
    requires SectionsOk(ts, rs, sections) && SectionOk(ts', rs', va, c)
    requires OnlySection(ts, ts', rs, rs', va)
    ensures SectionsOk(ts', rs', sections[va := c])
  {
    var sections' := sections[va := c];
    forall va' | va' in sections' ensures SectionOk(ts', rs', va', sections'[va']) {
      if va' != va {
        forall i | 0 <= i < |ts|
          ensures WaitsOn(ts'[i], SectionToken(va')) == WaitsOn(ts[i], SectionToken(va'))
          ensures PendingSection(ts[i], rs[i], va') ==> PendingSection(ts'[i], rs'[i], va')
        {
          assert SectionMove(ts[i], ts'[i], rs[i], rs'[i], va);
          assert ThreadOk(ts[i], rs[i], i + 1) && ThreadOk(ts'[i], rs'[i], i + 1);
        }
        SectionFrame(ts, ts', rs, rs', va', sections[va']);
      }
    }
    forall i | 0 <= i < |rs'| && rs'[i].InSection? ensures rs'[i].va in sections' {
      assert SectionMove(ts[i], ts'[i], rs[i], rs'[i], va);
    }
  }

  /** The common step: section `va` becomes c, and only fibers entering or waiting on `va` change. */
  lemma SectionStepKeeps(s: State, s': State, va: nat, c: Section)
    requires KernelInv(s) && Scheduler.Inv(s'.sched) && ThreadsOk(s'.sched.threads, s'.resume)
    requires s'.objs == s.objs && s'.sections == s.sections[va := c]
    requires OnlySection(s.sched.threads, s'.sched.threads, s.resume, s'.resume, va)
    requires SectionOk(s'.sched.threads, s'.resume, va, c)
    ensures KernelInv(s')
  {
    SectionUpdate(s.sched.threads, s'.sched.threads, s.resume, s'.resume, s.sections, va, c);
    ObjectsUntouched(s.sched.threads, s'.sched.threads, s.resume, s'.resume, va, s.objs);
  }

  /**
   RtlEnterCriticalSection, both when it is called and when a woken fiber comes back
   from its wait on this section to retry.
   */
  lemma EnterKeeps(s: State, h: nat, va: nat)
    requires KernelInv(s) && Caller(s, h) && h != 0 && OffSection(s.resume[h - 1], va)
    ensures KernelInv(EnterSection(Unwind(s, h), h, va))
  {
    hide KernelInv;
    if va !in s.sections {
      UnknownSection(s, h, va);
      assert Unwind(s, h) == s;
      NoteKeeps(s, Returned(h, STATUS_INVALID_PARAMETER));
    } else {
      var c := s.sections[va];
      if c.owner == h || c.owner == 0 {
        EnterFreeKeeps(s, h, va, EnteredSection(c, h));
        EnterIsEntry(s, h, va);
      } else {
        EnterContendedKeeps(s, h, va);
      }
    }
  }

  lemma UnknownSection(s: State, h: nat, va: nat)
    requires KernelInv(s) && Caller(s, h) && h != 0 && OffSection(s.resume[h - 1], va) && va !in s.sections
    ensures s.resume[h - 1] == Body
  {
  }

  function EnteredSection(c: Section, h: nat): Section {
    Section(c.lockCount, if c.owner == h then c.recursion + 1 else 1, h)
  }

  lemma EnterIsEntry(s: State, h: nat, va: nat)
    requires Caller(s, h) && h != 0 && va in s.sections && (s.sections[va].owner == h || s.sections[va].owner == 0)
    ensures EnterSection(Unwind(s, h), h, va)
         == Note(Unwind(s, h).(sections := s.sections[va := EnteredSection(s.sections[va], h)]), Entered(va, h))
  {
  }

  lemma SectionFacts(s: State, h: nat, va: nat)
    requires KernelInv(s) && Caller(s, h) && h != 0 && va in s.sections
    ensures Scheduler.Inv(s.sched) && ThreadsOk(s.sched.threads, s.resume)
    ensures s.sched.threads[h - 1].state != BlockedWait
    ensures SectionOk(s.sched.threads, s.resume, va, s.sections[va]) && s.sections[va].recursion >= 0
  {
    assert ThreadInv(s.sched, h - 1);
  }

  lemma EnterFreeKeeps(s: State, h: nat, va: nat, c: Section)
    requires KernelInv(s) && Caller(s, h) && h != 0 && OffSection(s.resume[h - 1], va) && va in s.sections
    requires c.lockCount == s.sections[va].lockCount && c.owner == h
    requires c.recursion == 1 || c.recursion == s.sections[va].recursion + 1
    ensures KernelInv(Note(Unwind(s, h).(sections := s.sections[va := c]), Entered(va, h)))
  {
    hide KernelInv, SectionOk, OnlySection, ThreadsOk, Scheduler.Inv;
    var s' := Note(Unwind(s, h).(sections := s.sections[va := c]), Entered(va, h));
    var ts, rs := s.sched.threads, s.resume;
    SectionFacts(s, h, va);
    OutOfSection(ts, rs, h, va, c, s.sections[va]);
    OnlySectionAt(ts, rs, h, va, ts[h - 1], Body);
    assert ts[h - 1 := ts[h - 1]] == ts;
    SectionStepKeeps(s, s', va, c);
  }

  lemma OutOfSection(ts: seq<Thread>, rs: seq<Resume>, h: nat, va: nat, c: Section, c0: Section)
    requires ThreadsOk(ts, rs) && 1 <= h <= |ts| && ts[h - 1].state != BlockedWait && SectionOk(ts, rs, va, c0)
    requires c.lockCount == c0.lockCount && c.recursion > 0 && c.owner == h
    ensures ThreadsOk(ts, rs[h - 1 := Body]) && SectionOk(ts, rs[h - 1 := Body], va, c)
  {
    var rs' := rs[h - 1 := Body];
    forall i | 0 <= i < |ts| ensures ThreadOk(ts[i], rs'[i], i + 1) {
      assert ThreadOk(ts[i], rs[i], i + 1);
    }
  }

  lemma EnterContendedKeeps(s: State, h: nat, va: nat)
    requires KernelInv(s) && Caller(s, h) && h != 0 && OffSection(s.resume[h - 1], va)
    requires va in s.sections && s.sections[va].owner != 0 && s.sections[va].owner != h
    ensures var Section(lockCount, recursion, owner) := s.sections[va];
            KernelInv(BlockIn(Unwind(s, h).(sections := s.sections[va := Section(lockCount + 1, recursion, owner)]), h,
                              SectionToken(va), NO_TIMEOUT, InSection(va)))
  {
    var Section(lockCount, recursion, owner) := s.sections[va];
    var c := Section(lockCount + 1, recursion, owner);
    var s' := BlockIn(Unwind(s, h).(sections := s.sections[va := c]), h, SectionToken(va), NO_TIMEOUT, InSection(va));
    var ts, rs, ts', rs' := s.sched.threads, s.resume, s'.sched.threads, s'.resume;
    BlockKeepsSched(s, h, SectionToken(va), NO_TIMEOUT);
    assert rs' == rs[h - 1 := InSection(va)];
    assert ThreadInv(s.sched, h - 1) && SectionOk(ts, rs, va, s.sections[va]);
    assert ts' == ts[h - 1 := ts'[h - 1]];
    OneMoreWaiter(ts, rs, h, va, ts'[h - 1], s.sections[va]);
    OnlySectionAt(ts, rs, h, va, ts'[h - 1], InSection(va));
    SectionStepKeeps(s, s', va, c);
  }

  lemma OneMoreWaiter(ts: seq<Thread>, rs: seq<Resume>, h: nat, va: nat, t: Thread, c: Section)
    requires ThreadsOk(ts, rs) && 1 <= h <= |ts| && ts[h - 1].state != BlockedWait
    requires SectionOk(ts, rs, va, c) && c.owner != 0 && c.owner != h
    requires WaitsOn(t, SectionToken(va)) && t.started && t.wakeTick == NO_DEADLINE
    ensures ThreadsOk(ts[h - 1 := t], rs[h - 1 := InSection(va)])
    ensures SectionOk(ts[h - 1 := t], rs[h - 1 := InSection(va)], va, c.(lockCount := c.lockCount + 1))
  {
    var ts', rs' := ts[h - 1 := t], rs[h - 1 := InSection(va)];
    forall i | 0 <= i < |ts| ensures ThreadOk(ts'[i], rs'[i], i + 1) {
      assert ThreadOk(ts[i], rs[i], i + 1);
    }
    assert WaiterSet(ts', SectionToken(va)) == WaiterSet(ts, SectionToken(va)) + {h - 1};
  }

  /** Waking the first waiter of a section. */
  lemma SignalSection(ts: seq<Thread>, rs: seq<Resume>, va: nat)
    requires ThreadsOk(ts, rs)
    ensures ThreadsOk(SignalOne(ts, SectionToken(va)), rs)
    ensures HasWaiter(ts, SectionToken(va)) <==> |WaiterSet(ts, SectionToken(va))| > 0
    ensures HasWaiter(ts, SectionToken(va)) ==>
              && |WaiterSet(SignalOne(ts, SectionToken(va)), SectionToken(va))| == |WaiterSet(ts, SectionToken(va))| - 1
              && exists i :: 0 <= i < |ts| && PendingSection(SignalOne(ts, SectionToken(va))[i], rs[i], va)
    ensures forall i :: 0 <= i < |ts| ==> SignalOne(ts, SectionToken(va))[i] == ts[i] || rs[i] == InSection(va)
  {
    var token := SectionToken(va);
    var i, ts' := FirstWaiter(ts, token, 0), SignalOne(ts, token);
    WakesKeepThreadsOk(ts, ts', rs);
    if i < |ts| {
      assert ThreadOk(ts[i], rs[i], i + 1);
      assert WaiterSet(ts', token) == WaiterSet(ts, token) - {i};
      assert i in WaiterSet(ts, token);
      assert PendingSection(ts'[i], rs[i], va);
    } else {
      assert WaiterSet(ts, token) == {};
    }
  }

  /** The last leave hands the section to a waiter that is now on its way in, if there is one. */
  lemma LastLeave(ts: seq<Thread>, rs: seq<Resume>, va: nat, c: Section)
    requires ThreadsOk(ts, rs) && SectionOk(ts, rs, va, c)
    ensures if c.lockCount >= 0 then SectionOk(SignalOne(ts, SectionToken(va)), rs, va, Section(c.lockCount - 1, 0, 0))
            else SectionOk(ts, rs, va, Section(c.lockCount, 0, 0))
  {
    SignalSection(ts, rs, va);
  }

  lemma LeaveKeeps(s: State, h: nat, va: nat)
    requires KernelInv(s) && Caller(s, h) && h != 0 && s.resume[h - 1] == Body
    ensures KernelInv(LeaveSection(s, h, va))
  {
    hide KernelInv, SectionOk;
    if va in s.sections && s.sections[va].owner == h {
      var ts, rs, c := s.sched.threads, s.resume, s.sections[va];
      SectionFact(s, va);
      if c.recursion > 1 {
        Shallower(ts, rs, va, c);
        FieldsKeep(s, va, c.(recursion := c.recursion - 1));
        NoteKeeps(s.(sections := s.sections[va := c.(recursion := c.recursion - 1)]), Left(va, h));
      } else {
        LastLeave(ts, rs, va, c);
        if c.lockCount >= 0 {
          var left := Section(c.lockCount - 1, 0, 0);
          LeaveToWaiterKeeps(s, h, va, left);
          NoteKeeps(WithThreads(s, SignalOne(ts, SectionToken(va))).(sections := s.sections[va := left]), Left(va, h));
        } else {
          FieldsKeep(s, va, Section(c.lockCount, 0, 0));
          NoteKeeps(s.(sections := s.sections[va := Section(c.lockCount, 0, 0)]), Left(va, h));
        }
      }
    } else {
      NoteKeeps(s, Returned(h, STATUS_INVALID_PARAMETER));
    }
  }

  lemma SectionFact(s: State, va: nat)
    requires KernelInv(s) && va in s.sections
    ensures ThreadsOk(s.sched.threads, s.resume) && SectionOk(s.sched.threads, s.resume, va, s.sections[va])
  {
  }

  lemma Shallower(ts: seq<Thread>, rs: seq<Resume>, va: nat, c: Section)
    requires |ts| == |rs| && SectionOk(ts, rs, va, c) && c.recursion > 1
    ensures SectionOk(ts, rs, va, c.(recursion := c.recursion - 1))
  {
  }

  /** Words of a section that agree with its waiters can replace the old ones. */
  lemma FieldsKeep(s: State, va: nat, c: Section)
    requires KernelInv(s) && va in s.sections
    requires |s.sched.threads| == |s.resume| && SectionOk(s.sched.threads, s.resume, va, c)
    ensures KernelInv(s.(sections := s.sections[va := c]))
  {
    hide SectionOk, ObjectOk, MultiOk;
    SectionStepKeeps(s, s.(sections := s.sections[va := c]), va, c);
  }

  lemma LeaveToWaiterKeeps(s: State, h: nat, va: nat, c: Section)
    requires KernelInv(s) && Caller(s, h) && h != 0 && s.resume[h - 1] == Body
    requires SectionOk(SignalOne(s.sched.threads, SectionToken(va)), s.resume, va, c)
    ensures KernelInv(WithThreads(s, SignalOne(s.sched.threads, SectionToken(va))).(sections := s.sections[va := c]))
  {
    var ts' := SignalOne(s.sched.threads, SectionToken(va));
    SignalSection(s.sched.threads, s.resume, va);
    WakesKeepSched(s.sched, ts');
    SectionStepKeeps(s, WithThreads(s, ts').(sections := s.sections[va := c]), va, c);
  }

  lemma TryEnterKeeps(s: State, h: nat, va: nat)
    requires KernelInv(s) && Caller(s, h) && h != 0 && s.resume[h - 1] == Body
    ensures KernelInv(TryEnterSection(s, h, va))
  {
    hide KernelInv;
    if va in s.sections && (s.sections[va].owner == h || s.sections[va].owner == 0) {
      assert Unwind(s, h) == s;
      EnterFreeKeeps(s, h, va, EnteredSection(s.sections[va], h));
    } else {
      NoteKeeps(s, Returned(h, 0));
    }
  }

  // ---------------------------------------------------------------------
  // Termination of a fiber

  lemma {:induction false} AbandonFromKeeps(s: State, h: nat, from: nat)
    requires KernelInv(s) && from <= |s.objs|
    ensures KernelInv(AbandonFrom(s, h, from))
    decreases |s.objs| - from
  {
    hide KernelInv;
    if from < |s.objs| {
      var k := s.objs[from].kind;
      if k.Mutant? && k.owner == h {
        WakeObjectKeeps(s, from, Mutant(1, 0, true), 1);
        NoteKeeps(WakeObject(WithKind(s, from, Mutant(1, 0, true)), from, 1), Abandoned(from, h));
      }
      AbandonFromKeeps(AbandonObject(s, h, from), h, from + 1);
    }
  }

  lemma ExitKeeps(s: State, h: nat)
    requires KernelInv(s) && Caller(s, h) && h != 0 && s.resume[h - 1] == Body
    ensures KernelInv(Exit(s, h))
  {
    var s' := s.(sched := Finish(s.sched, h));
    assert ThreadInv(s.sched, h - 1);
    ParkedInv(s.sched, h, s'.sched.threads[h - 1]);
    ParkKeeps(s, s', h);
    AbandonFromKeeps(s', h, 0);
  }

  /** Leaving the processor in a `Parked` state keeps the scheduler's invariant. */
  lemma ParkedInv(s: Sched, h: nat, t: Thread)
    requires Scheduler.Inv(s) && Current(s, h) && Parked(s, h - 1, t)
    ensures Scheduler.Inv(Park(s, h, t))
  {
    var s' := Park(s, h, t);
    forall i | 0 <= i < |s'.threads| ensures ThreadInv(s', i) {
      assert ThreadInv(s, i);
    }
  }

  // ---------------------------------------------------------------------
  // Creation, closing, scheduling

  lemma AddKeeps(s: State, k: Kind)
    requires KernelInv(s)
    requires k.Mutant? && k.owner != 0 ==> k.owner <= |s.resume|
    ensures KernelInv(Add(s, k))
  {
    var ts, rs, objs' := s.sched.threads, s.resume, s.objs + [Object(k, [])];
    var o := |s.objs|;
    forall i | 0 <= i < |ts| ensures !WaitsOn(ts[i], ObjectToken(o)) {
      assert ThreadOk(ts[i], rs[i], i + 1) && ResumeOk(rs[i], s.objs);
    }
    forall o' | 0 <= o' < |objs'| ensures ObjectOk(ts, rs, o', objs'[o'].kind) {
      if o' < o {
        assert ObjectOk(ts, rs, o', s.objs[o'].kind);
      }
    }
    forall o', h | 0 <= o' < |objs'| && h in objs'[o'].waiters ensures RegisteredOk(ts, rs, o', objs'[o'].kind, h) {
      assert RegisteredOk(ts, rs, o', s.objs[o'].kind, h);
    }
    KindsKeepWaits(ts, rs, s.objs, objs');
  }

  predicate Mentions(r: Resume, o: nat) {
    (r.InWait? && r.obj == o) || (r.InMulti? && o in r.objs)
  }

  predicate InUse(s: State, o: nat) {
    exists i :: 0 <= i < |s.resume| && Mentions(s.resume[i], o)
  }

  lemma RegisteredIsUse(s: State, o: nat)
    requires KernelInv(s) && o < |s.objs|
    ensures s.objs[o].waiters != [] ==> InUse(s, o)
  {
    if s.objs[o].waiters != [] {
      var h := s.objs[o].waiters[0];
      assert RegisteredOk(s.sched.threads, s.resume, o, s.objs[o].kind, h);
      assert Mentions(s.resume[h - 1], o);
    }
  }

  /** An object nobody is waiting on may change to anything. */
  lemma ReplaceUnusedKeeps(s: State, o: nat, k: Kind)
    requires KernelInv(s) && o < |s.objs| && !InUse(s, o) && !k.Mutant?
    ensures s.objs[o].waiters == []
    ensures KernelInv(WithKind(s, o, k))
  {
    var ts, rs, objs' := s.sched.threads, s.resume, WithKind(s, o, k).objs;
    RegisteredIsUse(s, o);
    forall i | 0 <= i < |ts| ensures !WaitsOn(ts[i], ObjectToken(o)) {
      assert ThreadOk(ts[i], rs[i], i + 1) && !Mentions(rs[i], o);
    }
    forall o' | 0 <= o' < |objs'| ensures ObjectOk(ts, rs, o', objs'[o'].kind) {
      assert ObjectOk(ts, rs, o', s.objs[o'].kind);
    }
    forall o', h | 0 <= o' < |objs'| && h in objs'[o'].waiters ensures RegisteredOk(ts, rs, o', objs'[o'].kind, h) {
      assert RegisteredOk(ts, rs, o', s.objs[o'].kind, h);
    }
    KindsKeepWaits(ts, rs, s.objs, objs');
  }

  /** One iteration of the scheduler loop: timeouts take waiters away and add nothing pending. */
  lemma IterateKeeps(s: State)
    requires KernelInv(s) && s.sched.mode == Loop
    ensures KernelInv(s.(sched := Iterate(s.sched).1))
  {
    IterateKeepsInv(s.sched);
    var ts, rs, ts' := s.sched.threads, s.resume, Iterate(s.sched).1.threads;
    forall i | 0 <= i < |ts|
      ensures ThreadOk(ts'[i], rs[i], i + 1)
      ensures forall o :: IsPending(ts'[i], rs[i], o) == IsPending(ts[i], rs[i], o)
      ensures ts'[i].state == BlockedWait ==> ts'[i] == ts[i]
      ensures rs[i].InSection? ==> ts'[i] == ts[i]
    {
      assert ThreadOk(ts[i], rs[i], i + 1) && ThreadInv(s.sched, i);
      assert Refresh(ts, s.sched.tick)[i] == RefreshOne(ts, s.sched.tick, ts[i]);
    }
    forall o | 0 <= o < |s.objs| ensures ObjectOk(ts', rs, o, s.objs[o].kind) {
      ObjectFrame(ts, ts', rs, rs, o, s.objs[o].kind);
    }
    forall o, h | 0 <= o < |s.objs| && h in s.objs[o].waiters ensures RegisteredOk(ts', rs, o, s.objs[o].kind, h) {
      assert RegisteredOk(ts, rs, o, s.objs[o].kind, h);
    }
    forall i | 0 <= i < |ts'| ensures MultiOk(ts'[i], rs[i], s.objs, i + 1) && ResumeOk(rs[i], s.objs) {
      assert MultiOk(ts[i], rs[i], s.objs, i + 1) && ResumeOk(rs[i], s.objs);
    }
    SectionsFrame(ts, ts', rs, rs, s.sections);
  }

  lemma SpawnKeeps(s: State)
    requires KernelInv(s) && |s.resume| == |s.sched.threads| && s.sched.mode != Loop
    ensures KernelInv(s.(sched := Spawn(s.sched), resume := s.resume + [Body]))
  {
    var s' := s.(sched := Spawn(s.sched), resume := s.resume + [Body]);
    var ts, rs, ts', rs' := s.sched.threads, s.resume, s'.sched.threads, s'.resume;
    forall i | 0 <= i < |ts'| ensures ThreadInv(s'.sched, i) && ThreadOk(ts'[i], rs'[i], i + 1) {
      if i < |ts| {
        assert ThreadInv(s.sched, i) && ThreadOk(ts[i], rs[i], i + 1);
      }
    }
    forall o | 0 <= o < |s.objs| ensures ObjectOk(ts', rs', o, s.objs[o].kind) {
      ObjectFrame(ts, ts', rs, rs', o, s.objs[o].kind);
    }
    forall o, h | 0 <= o < |s.objs| && h in s.objs[o].waiters ensures RegisteredOk(ts', rs', o, s.objs[o].kind, h) {
      assert RegisteredOk(ts, rs, o, s.objs[o].kind, h);
    }
    forall i | 0 <= i < |ts'| ensures MultiOk(ts'[i], rs'[i], s.objs, i + 1) && ResumeOk(rs'[i], s.objs) {
      if i < |ts| {
        assert MultiOk(ts[i], rs[i], s.objs, i + 1) && ResumeOk(rs[i], s.objs);
      }
    }
    SectionsFrame(ts, ts', rs, rs', s.sections);
  }

  lemma InitSectionKeeps(s: State, va: nat)
    requires KernelInv(s) && InSection(va) !in s.resume
    ensures KernelInv(s.(sections := s.sections[va := Section(-1, 0, 0)]))
  {
    var ts, rs := s.sched.threads, s.resume;
    forall i | 0 <= i < |ts| ensures !WaitsOn(ts[i], SectionToken(va)) {
      assert ThreadOk(ts[i], rs[i], i + 1);
    }
    assert WaiterSet(ts, SectionToken(va)) == {};
    SectionUpdate(ts, ts, rs, rs, s.sections, va, Section(-1, 0, 0));
  }
}
