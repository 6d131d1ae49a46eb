/**
 The kernel in the form src/xbox_krnl.cpp gives it: an object that updates its
 dispatcher objects, their multi-wait lists and the scheduler's threads in loops.
 Each method is proved to take the kernel's view from one state of module Kernel to
 the next. A method that blocks ends at the switch away from its fiber; the part of
 the call after the switch is a method of its own.
 */
module KernelObject {
  import opened Scheduler
  import opened SchedulerObject
  import opened Kernel
  import opened WakeLaws

  lemma {:induction false} SignalManyNoWaiter(ts: seq<Thread>, token: Token, units: nat)
    requires !HasWaiter(ts, token)
    ensures SignalMany(ts, token, units) == ts
    decreases units
  {
    if units != 0 {
      assert FirstWaiter(ts, token, 0) == |ts|;
      SignalManyNoWaiter(ts, token, units - 1);
    }
  }

  datatype Option<T> = None | Some(value: T)

  predicate Int32(x: int) {
    -0x8000_0000 <= x < 0x8000_0000
  }

  /** No object but o has changed. */
  ghost predicate OnlyObject(objs: seq<Object>, objs': seq<Object>, o: nat) {
    |objs'| == |objs| && o < |objs| && forall i :: 0 <= i < |objs| && i != o ==> objs'[i] == objs[i]
  }

  /** What the death of fiber h makes of an object. */
  function AfterDeath(k: Kind, h: nat): Kind {
    if k.Mutant? && k.owner == h then Mutant(1, 0, true) else k
  }

  lemma {:induction false} DeathLaw(s: State, h: nat, from: nat)
    requires from <= |s.objs| && h != 0
    ensures var s' := AbandonFrom(s, h, from);
      && |s'.objs| == |s.objs| && s'.sched == s.sched.(threads := s'.sched.threads)
      && |s'.sched.threads| == |s.sched.threads|
      && (forall o :: 0 <= o < from ==> s'.objs[o] == s.objs[o])
      && (forall o :: from <= o < |s.objs| ==> s'.objs[o].kind == AfterDeath(s.objs[o].kind, h))
      && (forall i :: 0 <= i < |s.sched.threads| && s.sched.threads[i].state != BlockedWait ==>
            s'.sched.threads[i] == s.sched.threads[i])
    decreases |s.objs| - from
  {
    if from < |s.objs| {
      var s1 := AbandonObject(s, h, from);
      AbandonOneLaw(s, h, from);
      DeathLaw(s1, h, from + 1);
    }
  }

  lemma AbandonOneLaw(s: State, h: nat, o: nat)
    requires o < |s.objs| && h != 0
    ensures var s' := AbandonObject(s, h, o);
      && s'.sched == s.sched.(threads := s'.sched.threads) && |s'.sched.threads| == |s.sched.threads|
      && s'.objs[o].kind == AfterDeath(s.objs[o].kind, h) && OnlyObject(s.objs, s'.objs, o)
      && (forall i :: 0 <= i < |s.sched.threads| && s.sched.threads[i].state != BlockedWait ==>
            s'.sched.threads[i] == s.sched.threads[i])
  {
    SignalManyWakes(s.sched.threads, ObjectToken(o), 1);
    SignalEachWakes(SignalMany(s.sched.threads, ObjectToken(o), 1), s.objs[o].waiters);
  }

  class XboxKrnl {
    const sched: GuestScheduler
    var resume: seq<Resume>
    var objs: seq<Object>
    var sections: map<nat, Section>
    ghost var log: seq<Entry>

    ghost function View(): State
      reads this, sched
    {
      State(sched.View(), resume, objs, sections, log)
    }

    constructor (s: GuestScheduler)
      requires s.View() == EMPTY
      ensures View() == BOOT && sched == s
    {
      sched, resume, objs, sections, log := s, [], [], map[], [];
    }

    // -------------------------------------------------------------------
    // wake_object, dispatcher_acquire

    /** Up to `units` signals on the object's own channel, stopping when one finds nobody. */
    method SignalUnits(o: nat, units: nat)
      modifies sched
      ensures sched.View() == old(sched.View()).(threads := SignalMany(old(sched.threads), ObjectToken(o), units))
    {
      var i := 0;
      while i < units
        invariant 0 <= i <= units
        invariant sched.View() == old(sched.View()).(threads := sched.threads)
        invariant SignalMany(sched.threads, ObjectToken(o), units - i)
               == SignalMany(old(sched.threads), ObjectToken(o), units)
      {
        ghost var ts := sched.threads;
        var woken := sched.Signal(ObjectToken(o), false);
        if woken == 0 {
          assert FirstWaiter(ts, ObjectToken(o), 0) == |ts|;
          SignalManyNoWaiter(ts, ObjectToken(o), units - i);
          return;
        }
        i := i + 1;
      }
    }

    method Wake(o: nat, units: nat)
      requires o < |objs|
      modifies this, sched
      ensures View() == WakeObject(old(View()), o, units)
    {
      SignalUnits(o, units);
      ghost var ts := sched.threads;
      var waiters := objs[o].waiters;
      objs := objs[o := objs[o].(waiters := [])];
      var i := 0;
      while i < |waiters|
        invariant 0 <= i <= |waiters|
        invariant sched.View() == old(sched.View()).(threads := sched.threads)
        invariant SignalEach(sched.threads, waiters[i..]) == SignalEach(ts, waiters)
        modifies sched
      {
        var _ := sched.Signal(MultiToken(waiters[i]), false);
        assert waiters[i..][1..] == waiters[i + 1..];
        i := i + 1;
      }
      assert waiters[i..] == [];
    }

    method SetKind(o: nat, k: Kind)
      requires o < |objs|
      modifies this
      ensures View() == WithKind(old(View()), o, k)
    {
      objs := objs[o := objs[o].(kind := k)];
    }

    method DispatcherAcquire(h: nat, o: nat) returns (status: nat)
      requires o < |objs|
      modifies this
      ensures View() == AcquireObject(old(View()), h, o)
      ensures status == Acquire(old(objs)[o].kind, h).1
      ensures OnlyObject(old(objs), objs, o) && objs[o].waiters == old(objs)[o].waiters
      ensures match old(objs)[o].kind
        case Event(notify, signaled) =>
          objs[o].kind == Event(notify, if notify then signaled else false) && status == STATUS_SUCCESS
        case Mutant(signalState, owner, abandoned) =>
          if h == 0 then objs[o].kind == old(objs)[o].kind && status == STATUS_INVALID_PARAMETER
          else
            && objs[o].kind == Mutant(signalState - 1, h, false)
            && status == if abandoned then STATUS_ABANDONED else STATUS_SUCCESS
        case Semaphore(count, limit) => objs[o].kind == Semaphore(count - 1, limit) && status == STATUS_SUCCESS
        case Closed => objs[o].kind == Closed
    {
      status := STATUS_SUCCESS;
      match objs[o].kind {
        case Event(notify, signaled) =>
          if !notify {
            SetKind(o, Event(notify, false));
          }
        case Mutant(signalState, owner, abandoned) =>
          if h == 0 {
            return STATUS_INVALID_PARAMETER;
          }
          SetKind(o, Mutant(signalState - 1, h, false));
          if abandoned {
            status := STATUS_ABANDONED;
          }
        case Semaphore(count, limit) =>
          SetKind(o, Semaphore(count - 1, limit));
        case Closed =>
      }
      assert objs == old(objs)[o := old(objs)[o].(kind := Acquire(old(objs)[o].kind, h).0)];
      log := log + [Acquired(o, h)];
    }

    // -------------------------------------------------------------------
    // Waits

    method BlockCurrent(h: nat, token: Token, timeout: nat, r: Resume)
      requires Caller(View(), h) && h != 0
      modifies this, sched
      ensures View() == BlockIn(old(View()), h, token, timeout, r)
    {
      sched.ThreadBlock(h, token, timeout);
      resume := resume[h - 1 := r];
    }

    /** wait_dispatch, from an evaluation to the next return or block. */
    method WaitDispatch(h: nat, o: nat, immediate: bool, timeout: nat)
      requires Caller(View(), h) && o < |objs|
      modifies this, sched
      ensures View() == EvalOne(old(View()), h, o, immediate, timeout)
      ensures var k := old(objs)[o].kind;
        if Satisfied(k, h) then
          && sched.View() == old(sched.View()) && resume == old(resume)
          && log == old(log) +
               if k.Mutant? && h == 0 then [Returned(h, STATUS_INVALID_PARAMETER)]
               else [Acquired(o, h), Returned(h, if k.Mutant? && k.abandoned then STATUS_ABANDONED else STATUS_SUCCESS)]
        else if immediate then View() == old(View()).(log := old(log) + [Returned(h, STATUS_TIMEOUT)])
        else if h == 0 then View() == old(View()).(log := old(log) + [Returned(h, STATUS_INVALID_PARAMETER)])
        else
          && objs == old(objs) && log == old(log) && resume == old(resume)[h - 1 := InWait(o, timeout)]
          && sched.mode == Loop && WaitsOn(sched.threads[h - 1], ObjectToken(o))
          && sched.threads[h - 1].wakeTick == if timeout == NO_TIMEOUT then NO_DEADLINE else sched.tick + timeout
    {
      if Satisfied(objs[o].kind, h) {
        var status := DispatcherAcquire(h, o);
        log := log + [Returned(h, status)];
      } else if immediate {
        log := log + [Returned(h, STATUS_TIMEOUT)];
      } else if h == 0 {
        log := log + [Returned(h, STATUS_INVALID_PARAMETER)];
      } else {
        BlockCurrent(h, ObjectToken(o), timeout, InWait(o, timeout));
      }
    }

    /** wait_dispatch, from the return of block_current. */
    method ResumeDispatch(h: nat)
      requires Caller(View(), h) && h != 0 && resume[h - 1].InWait? && resume[h - 1].obj < |objs|
      modifies this, sched
      ensures View() == ResumeOne(old(View()), h)
      ensures var k := old(objs)[old(resume)[h - 1].obj].kind;
        && (old(sched.threads)[h - 1].timedOut ==> objs == old(objs) && log == old(log) + [Returned(h, STATUS_TIMEOUT)])
        && (!old(sched.threads)[h - 1].timedOut && k.Event? ==>
              objs == old(objs) && log == old(log) + [Acquired(old(resume)[h - 1].obj, h), Returned(h, STATUS_SUCCESS)])
        && (!old(sched.threads)[h - 1].timedOut && !k.Event? ==>
              resume[h - 1] == if Satisfied(k, h) then Body else old(resume)[h - 1])
    {
      var InWait(o, timeout) := resume[h - 1];
      resume := resume[h - 1 := Body];
      if sched.threads[h - 1].timedOut {
        log := log + [Returned(h, STATUS_TIMEOUT)];
      } else if objs[o].kind.Event? {
        log := log + [Acquired(o, h)];
        log := log + [Returned(h, STATUS_SUCCESS)];
      } else {
        WaitDispatch(h, o, false, timeout);
      }
    }

    /** Takes every object of the set, in order; the status names the first one that was abandoned. */
    method AcquireSet(h: nat, targets: seq<nat>) returns (worst: nat)
      requires InTable(View(), targets)
      modifies this
      ensures (View(), worst) == AcquireAll(old(View()), h, targets, 0, STATUS_SUCCESS)
    {
      worst := STATUS_SUCCESS;
      var i := 0;
      while i < |targets|
        invariant 0 <= i <= |targets| && InTable(View(), targets)
        invariant AcquireAll(View(), h, targets, i, worst) == AcquireAll(old(View()), h, targets, 0, STATUS_SUCCESS)
      {
        var status := DispatcherAcquire(h, targets[i]);
        if status != STATUS_SUCCESS && worst == STATUS_SUCCESS {
          worst := STATUS_ABANDONED + i;
        }
        i := i + 1;
      }
    }

    method RegisterSet(h: nat, targets: seq<nat>)
      requires InTable(View(), targets)
      modifies this
      ensures View() == old(View()).(objs := Register(old(objs), h, targets, 0))
    {
      var i := 0;
      while i < |targets|
        invariant 0 <= i <= |targets| && InTable(View(), targets)
        invariant View() == old(View()).(objs := objs)
        invariant Register(objs, h, targets, i) == Register(old(objs), h, targets, 0)
      {
        var o := targets[i];
        if !Satisfied(objs[o].kind, h) {
          objs := objs[o := objs[o].(waiters := objs[o].waiters + [h])];
        }
        i := i + 1;
      }
    }

    /** The erase-remove idiom on one list. */
    method Erase(w: seq<nat>, h: nat) returns (r: seq<nat>)
      ensures r == Without(w, h)
    {
      r := [];
      var i := 0;
      while i < |w|
        invariant 0 <= i <= |w|
        invariant r + Without(w[i..], h) == Without(w, h)
      {
        assert w[i..][1..] == w[i + 1..];
        if w[i] != h {
          r := r + [w[i]];
        }
        i := i + 1;
      }
    }

    method DeregisterSet(h: nat, targets: seq<nat>)
      requires InTable(View(), targets)
      modifies this
      ensures View() == old(View()).(objs := Deregister(old(objs), h, targets, 0))
    {
      var i := 0;
      while i < |targets|
        invariant 0 <= i <= |targets| && InTable(View(), targets)
        invariant View() == old(View()).(objs := objs)
        invariant Deregister(objs, h, targets, i) == Deregister(old(objs), h, targets, 0)
      {
        var o := targets[i];
        var left := Erase(objs[o].waiters, h);
        objs := objs[o := objs[o].(waiters := left)];
        i := i + 1;
      }
    }

    /** The first satisfied position of the set, or its length. */
    method FindSatisfied(h: nat, targets: seq<nat>, wanted: bool) returns (i: nat)
      requires InTable(View(), targets)
      ensures i <= |targets|
      ensures i < |targets| ==> Satisfied(objs[targets[i]].kind, h) == wanted
      ensures forall j :: 0 <= j < i ==> Satisfied(objs[targets[j]].kind, h) != wanted
    {
      i := 0;
      while i < |targets| && Satisfied(objs[targets[i]].kind, h) != wanted
        invariant 0 <= i <= |targets|
        invariant forall j :: 0 <= j < i ==> Satisfied(objs[targets[j]].kind, h) != wanted
      {
        i := i + 1;
      }
    }

    /** wait_multiple, from an evaluation to the next return or block. */
    method WaitMultiple(h: nat, targets: seq<nat>, all: bool, immediate: bool, timeout: nat)
      requires Caller(View(), h) && InTable(View(), targets)
      modifies this, sched
      ensures View() == EvalMany(old(View()), h, targets, all, immediate, timeout)
    {
      if all {
        var missing := FindSatisfied(h, targets, false);
        if missing == |targets| {
          var worst := AcquireSet(h, targets);
          log := log + [Returned(h, worst)];
          return;
        }
        assert !AllSatisfied(View(), h, targets);
      } else {
        var first := FindSatisfied(h, targets, true);
        assert first == FirstSatisfied(View(), h, targets, 0);
        if first < |targets| {
          var status := DispatcherAcquire(h, targets[first]);
          log := log + [Returned(h, if status == STATUS_ABANDONED then STATUS_ABANDONED + first else first)];
          return;
        }
      }
      if immediate {
        log := log + [Returned(h, STATUS_TIMEOUT)];
      } else if h == 0 {
        log := log + [Returned(h, STATUS_INVALID_PARAMETER)];
      } else {
        RegisterSet(h, targets);
        BlockCurrent(h, MultiToken(h), timeout, InMulti(targets, all, timeout));
      }
    }

    /** wait_multiple, from the return of block_current. */
    method ResumeMultiple(h: nat)
      requires Caller(View(), h) && h != 0 && resume[h - 1].InMulti? && InTable(View(), resume[h - 1].objs)
      modifies this, sched
      ensures View() == ResumeMany(old(View()), h)
    {
      var InMulti(targets, all, timeout) := resume[h - 1];
      DeregisterSet(h, targets);
      resume := resume[h - 1 := Body];
      if sched.threads[h - 1].timedOut {
        log := log + [Returned(h, STATUS_TIMEOUT)];
      } else {
        WaitMultiple(h, targets, all, false, timeout);
      }
    }

    // -------------------------------------------------------------------
    // Signalling calls

    method KeSetEvent(o: nat) returns (previous: bool)
      requires HasEvent(View(), o)
      modifies this, sched
      ensures View() == SetEvent(old(View()), o)
      ensures previous == old(objs)[o].kind.signaled
      ensures var notify, woken := old(objs)[o].kind.notify, HasWaiter(old(sched.threads), ObjectToken(o));
        && OnlyObject(old(objs), objs, o) && objs[o] == Object(Event(notify, notify || !woken), [])
        && ServedFirst(old(sched.threads), sched.threads, o, if notify then |sched.threads| else 1)
    {
      EventServes(View(), o);
      var Event(notify, found) := objs[o].kind;
      if notify {
        SetKind(o, Event(true, true));
        var _ := sched.Signal(ObjectToken(o), true);
      } else {
        var woken := sched.Signal(ObjectToken(o), false);
        SetKind(o, Event(false, woken == 0));
      }
      Wake(o, 0);
      log := log + [WasSet(o, found)];
      previous := found;
    }

    method NtPulseEvent(o: nat) returns (previous: bool)
      requires HasEvent(View(), o)
      modifies this, sched
      ensures View() == PulseEvent(old(View()), o)
      ensures previous == old(objs)[o].kind.signaled
      ensures var notify := old(objs)[o].kind.notify;
        && OnlyObject(old(objs), objs, o) && objs[o] == Object(Event(notify, false), [])
        && ServedFirst(old(sched.threads), sched.threads, o, if notify then |sched.threads| else 1)
    {
      EventServes(View(), o);
      var Event(notify, found) := objs[o].kind;
      ghost var had := HasWaiter(sched.threads, ObjectToken(o));
      var _ := sched.Signal(ObjectToken(o), notify);
      SetKind(o, Event(notify, false));
      Wake(o, 0);
      log := log + [WasPulsed(o, had, found)];
      previous := found;
    }

    method KeResetEvent(o: nat) returns (previous: bool)
      requires HasEvent(View(), o)
      modifies this
      ensures View() == ResetEvent(old(View()), o)
      ensures previous == old(objs)[o].kind.signaled
      ensures OnlyObject(old(objs), objs, o) && objs[o] == old(objs)[o].(kind := Event(old(objs)[o].kind.notify, false))
      ensures resume == old(resume) && sections == old(sections)
    {
      var Event(notify, found) := objs[o].kind;
      SetKind(o, Event(notify, false));
      log := log + [WasCleared(o, found)];
      previous := found;
    }

    /** The common part of the two mutant releases. */
    method ReleaseOwned(o: nat) returns (previous: int)
      requires HasMutant(View(), o)
      modifies this, sched
      ensures View() == ReleaseMutant(old(View()), o)
      ensures previous == old(objs)[o].kind.signalState
      ensures OnlyObject(old(objs), objs, o) && log == old(log) + [Released(o, 1)]
      ensures var Mutant(_, owner, abandoned) := old(objs)[o].kind;
        if previous >= 0 then
          && objs[o] == Object(Mutant(previous + 1, 0, abandoned), [])
          && ServedFirst(old(sched.threads), sched.threads, o, 1)
        else
          && objs[o] == old(objs)[o].(kind := Mutant(previous + 1, owner, abandoned))
          && sched.View() == old(sched.View())
    {
      var Mutant(signalState, owner, abandoned) := objs[o].kind;
      previous := signalState;
      if signalState + 1 > 0 {
        SetKind(o, Mutant(signalState + 1, 0, abandoned));
        WakeObjectServes(View(), o, 1);
        Wake(o, 1);
      } else {
        SetKind(o, Mutant(signalState + 1, owner, abandoned));
      }
      log := log + [Released(o, 1)];
    }

    method NtReleaseMutant(h: nat, o: nat) returns (status: nat, previous: int)
      requires Caller(View(), h)
      modifies this, sched
      ensures View() == Apply(old(View()), h, Call.NtReleaseMutant(o))
      ensures status != STATUS_SUCCESS ==> objs == old(objs) && sched.View() == old(sched.View())
      ensures status == STATUS_SUCCESS ==> OnlyObject(old(objs), objs, o) && log == old(log) + [Released(o, 1)]
      ensures status ==
                if HasMutant(old(View()), o) && old(objs)[o].kind.owner != 0 && old(objs)[o].kind.owner == h
                then STATUS_SUCCESS else STATUS_INVALID_PARAMETER
      ensures status == STATUS_SUCCESS ==> previous == old(objs)[o].kind.signalState
    {
      if o < |objs| && objs[o].kind.Mutant? && objs[o].kind.owner != 0 && objs[o].kind.owner == h {
        previous := ReleaseOwned(o);
        status := STATUS_SUCCESS;
      } else {
        log := log + [Returned(h, STATUS_INVALID_PARAMETER)];
        status, previous := STATUS_INVALID_PARAMETER, 0;
      }
    }

    /** KeReleaseMutant asks only that the object is a mutant, not who owns it. */
    method KeReleaseMutant(h: nat, o: nat) returns (previous: Option<int>)
      requires Caller(View(), h)
      modifies this, sched
      ensures View() == Apply(old(View()), h, Call.KeReleaseMutant(o))
      ensures previous.None? ==> objs == old(objs) && sched.View() == old(sched.View())
      ensures previous.Some? ==> OnlyObject(old(objs), objs, o) && log == old(log) + [Released(o, 1)]
      ensures previous == if HasMutant(old(View()), o) then Some(old(objs)[o].kind.signalState) else None
    {
      if o < |objs| && objs[o].kind.Mutant? {
        var p := ReleaseOwned(o);
        previous := Some(p);
      } else {
        log := log + [Returned(h, STATUS_INVALID_PARAMETER)];
        previous := None;
      }
    }

    /** The release itself: the count rises and the first waiters, as many as units were added, are served. */
    method AddUnits(o: nat, adjustment: int)
      requires o < |objs| && ReleaseFits(objs[o].kind, adjustment)
      modifies this, sched
      ensures View() == ReleaseSemaphore(old(View()), o, adjustment)
      ensures OnlyObject(old(objs), objs, o) && log == old(log) + [Released(o, adjustment)]
      ensures var Semaphore(count, limit) := old(objs)[o].kind;
        && objs[o] == Object(Semaphore(count + adjustment, limit), [])
        && (count >= 0 ==> ServedFirst(old(sched.threads), sched.threads, o, adjustment))
    {
      hide ServedFirst, SignalMany, SignalEach;
      var Semaphore(count, limit) := objs[o].kind;
      SetKind(o, Semaphore(count + adjustment, limit));
      var units := WakeUnits(adjustment, count + adjustment);
      WakeObjectServes(View(), o, units);
      Wake(o, units);
      log := log + [Released(o, adjustment)];
    }

    /**
     NtReleaseSemaphore and KeReleaseSemaphore: an adjustment that is not positive or
     would pass the limit is refused; otherwise the previous count is returned.
     */
    method KeReleaseSemaphore(h: nat, o: nat, adjustment: int) returns (previous: Option<int>)
      requires Caller(View(), h)
      requires HasSemaphore(View(), o) ==> Int32(objs[o].kind.count) && Int32(objs[o].kind.limit)
      requires Int32(adjustment)
      modifies this, sched
      ensures View() == Apply(old(View()), h, CallReleaseSemaphore(o, adjustment))
      ensures previous.Some? <==>
                && HasSemaphore(old(View()), o) && 0 < adjustment
                && old(objs)[o].kind.count + adjustment <= old(objs)[o].kind.limit
      ensures previous.Some? ==> previous.value == old(objs)[o].kind.count
      ensures previous.None? ==> objs == old(objs) && sched.View() == old(sched.View())
      ensures previous.Some? ==>
        && OnlyObject(old(objs), objs, o) && log == old(log) + [Released(o, adjustment)]
        && objs[o] == Object(Semaphore(previous.value + adjustment, old(objs)[o].kind.limit), [])
        && (previous.value >= 0 ==> ServedFirst(old(sched.threads), sched.threads, o, adjustment))
    {
      hide ReleaseSemaphore, ServedFirst;
      if || o >= |objs| || !objs[o].kind.Semaphore?
         || adjustment <= 0 || objs[o].kind.count > objs[o].kind.limit - adjustment
      {
        log := log + [Returned(h, STATUS_INVALID_PARAMETER)];
        return None;
      }
      previous := Some(objs[o].kind.count);
      AddUnits(o, adjustment);
    }

    /** finish_thread_object: one pass over the object table. */
    method AbandonAll(h: nat)
      modifies this, sched
      ensures View() == AbandonFrom(old(View()), h, 0)
    {
      hide SignalMany, SignalEach;
      var i := 0;
      while i < |objs|
        invariant 0 <= i <= |objs|
        invariant AbandonFrom(View(), h, i) == AbandonFrom(old(View()), h, 0)
      {
        var k := objs[i].kind;
        if k.Mutant? && k.owner == h {
          SetKind(i, Mutant(1, 0, true));
          Wake(i, 1);
          log := log + [Abandoned(i, h)];
        }
        i := i + 1;
      }
    }

    /** thread_finish with finish_thread_object as its hook. */
    method FinishThread(h: nat)
      requires Caller(View(), h) && h != 0
      modifies this, sched
      ensures View() == Exit(old(View()), h)
      ensures |objs| == |old(objs)| && forall o :: 0 <= o < |objs| ==> objs[o].kind == AfterDeath(old(objs)[o].kind, h)
      ensures |sched.threads| == |old(sched.threads)| && sched.threads[h - 1].state == Finished && sched.mode == Loop
    {
      hide AbandonFrom;
      DeathLaw(View().(sched := Finish(View().sched, h)), h, 0);
      sched.threads := sched.threads[h - 1 := sched.threads[h - 1].(state := Finished)];
      sched.mode := Loop;
      AbandonAll(h);
    }

    // -------------------------------------------------------------------
    // Critical sections

    method CsEnter(h: nat, va: nat)
      requires Caller(View(), h)
      modifies this, sched
      ensures View() == EnterSection(old(View()), h, va)
      ensures objs == old(objs) && sections - {va} == old(sections) - {va}
      ensures va !in old(sections) ==> va !in sections && log == old(log) + [Returned(h, STATUS_INVALID_PARAMETER)]
      ensures va in old(sections) ==>
        va in sections &&
        var c := old(sections)[va];
        if c.owner == 0 || (c.owner == h && h != 0) then
          && sections[va] == Section(c.lockCount, if c.owner == 0 then 1 else c.recursion + 1, h)
          && log == old(log) + [Entered(va, h)] && sched.View() == old(sched.View()) && resume == old(resume)
        else if h == 0 then sections == old(sections) && log == old(log) + [Returned(h, STATUS_INVALID_PARAMETER)]
        else
          && sections[va] == c.(lockCount := c.lockCount + 1) && log == old(log)
          && resume == old(resume)[h - 1 := InSection(va)] && sched.mode == Loop
          && WaitsOn(sched.threads[h - 1], SectionToken(va)) && sched.threads[h - 1].wakeTick == NO_DEADLINE
    {
      if va !in sections {
        log := log + [Returned(h, STATUS_INVALID_PARAMETER)];
        return;
      }
      var c := sections[va];
      if c.owner == h && h != 0 {
        sections := sections[va := c.(recursion := c.recursion + 1)];
        log := log + [Entered(va, h)];
      } else if c.owner == 0 {
        sections := sections[va := c.(owner := h, recursion := 1)];
        log := log + [Entered(va, h)];
      } else if h == 0 {
        log := log + [Returned(h, STATUS_INVALID_PARAMETER)];
      } else {
        sections := sections[va := c.(lockCount := c.lockCount + 1)];
        BlockCurrent(h, SectionToken(va), NO_TIMEOUT, InSection(va));
      }
    }

    method CsLeave(h: nat, va: nat)
      modifies this, sched
      ensures View() == LeaveSection(old(View()), h, va)
      ensures objs == old(objs) && resume == old(resume) && sections - {va} == old(sections) - {va}
      ensures va !in old(sections) || old(sections)[va].owner != h ==>
        && sections == old(sections) && sched.View() == old(sched.View())
        && log == old(log) + [Returned(h, STATUS_INVALID_PARAMETER)]
      ensures va in old(sections) && old(sections)[va].owner == h ==>
        && va in sections && log == old(log) + [Left(va, h)]
        && var c := old(sections)[va];
           if c.recursion > 1 then
             sections[va] == c.(recursion := c.recursion - 1) && sched.View() == old(sched.View())
           else if c.lockCount >= 0 then
             && sections[va] == Section(c.lockCount - 1, 0, 0)
             && WokeFirst(old(sched.threads), sched.threads, SectionToken(va), 1)
           else sections[va] == Section(c.lockCount, 0, 0) && sched.View() == old(sched.View())
    {
      SignalOneWakesFirst(sched.threads, SectionToken(va));
      if va !in sections || sections[va].owner != h {
        log := log + [Returned(h, STATUS_INVALID_PARAMETER)];
        return;
      }
      var c := sections[va];
      if c.recursion > 1 {
        sections := sections[va := c.(recursion := c.recursion - 1)];
      } else {
        sections := sections[va := c.(owner := 0, recursion := 0)];
        if c.lockCount >= 0 {
          sections := sections[va := sections[va].(lockCount := c.lockCount - 1)];
          var _ := sched.Signal(SectionToken(va), false);
        }
      }
      log := log + [Left(va, h)];
    }

    method CsTryEnter(h: nat, va: nat) returns (entered: bool)
      modifies this
      ensures View() == TryEnterSection(old(View()), h, va)
      ensures objs == old(objs) && resume == old(resume) && sections - {va} == old(sections) - {va}
      ensures entered ==>
        && va in sections && log == old(log) + [Entered(va, h)]
        && sections[va].owner == h && sections[va].lockCount == old(sections)[va].lockCount
        && sections[va].recursion == if old(sections)[va].owner == 0 then 1 else old(sections)[va].recursion + 1
      ensures !entered ==> sections == old(sections) && log == old(log) + [Returned(h, 0)]
      ensures entered <==>
        va in old(sections) && ((old(sections)[va].owner == h && h != 0) || old(sections)[va].owner == 0)
    {
      if va in sections {
        var c := sections[va];
        if c.owner == h && h != 0 {
          sections := sections[va := c.(recursion := c.recursion + 1)];
          log := log + [Entered(va, h)];
          return true;
        }
        if c.owner == 0 {
          sections := sections[va := c.(owner := h, recursion := 1)];
          log := log + [Entered(va, h)];
          return true;
        }
      }
      log := log + [Returned(h, 0)];
      return false;
    }
  }
}
