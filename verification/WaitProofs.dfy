/** Every kernel call keeps `KernelInv`. */
module WaitProofs {
  import opened Scheduler
  import opened Kernel
  import opened WaitInvariant

  // ---------------------------------------------------------------------
  // Waking calls

  /** The history is not part of the invariant. */
  lemma NoteKeeps(s: State, e: Entry)
    requires KernelInv(s)
    ensures KernelInv(Note(s, e))
  {
  }

  /** Waking threads in place keeps the scheduler's invariant. */
  lemma WakesKeepSched(s: Sched, ts: seq<Thread>)
    requires Scheduler.Inv(s) && Wakes(s.threads, ts)
    ensures Scheduler.Inv(s.(threads := ts))
  {
    var s' := s.(threads := ts);
    forall i | 0 <= i < |ts| ensures ThreadInv(s', i) {
      assert ThreadInv(s, i);
    }
  }

  /**
   Changing object o to kind k after waking some of its single waiters (ts1), then
   waking and clearing its multi-wait list: the one pattern behind setting and
   pulsing events, releasing and abandoning mutants, and releasing semaphores.
   */
  lemma {:induction false} PublishKeeps(s: State, o: nat, k: Kind, ts1: seq<Thread>)
    requires KernelInv(s) && o < |s.objs|
    requires Wakes(s.sched.threads, ts1)
    requires forall i :: 0 <= i < |ts1| && s.sched.threads[i].token != ObjectToken(o) ==> ts1[i] == s.sched.threads[i]
    requires ObjectOk(ts1, s.resume, o, k)
    ensures var s' := s.(sched := s.sched.(threads := SignalEach(ts1, s.objs[o].waiters)),
                         objs := s.objs[o := Object(k, [])]);
            KernelInv(s')
  {
    hide ObjectsOk, WaitsOk, SectionsOk;
    var ts, rs, w := s.sched.threads, s.resume, s.objs[o].waiters;
    var ts2 := SignalEach(ts1, w);
    var objs' := s.objs[o := Object(k, [])];
    SignalEachWakes(ts1, w);
    WakesTransitive(ts, ts1, ts2);
    WakesKeepSched(s.sched, ts2);
    WakesKeepThreadsOk(ts, ts1, rs);
    SignalEachUnblocks(ts1, rs, w);
    assert forall i :: 0 <= i < |ts| ==> ThreadOk(ts[i], rs[i], i + 1) && ThreadOk(ts1[i], rs[i], i + 1);
    PublishKeepsObjects(ts, ts1, ts2, rs, s.objs, objs', o);
    PublishKeepsWaits(ts, ts2, rs, s.objs, objs', o);
    SectionsFrame(ts, ts2, rs, rs, s.sections);
  }

  /** Clearing the list of o costs no blocked fiber its registration: those on the list were woken. */
  lemma PublishKeepsWaits(ts: seq<Thread>, ts2: seq<Thread>, rs: seq<Resume>,
                            objs: seq<Object>, objs': seq<Object>, o: nat)
    requires |ts| == |rs| && Wakes(ts, ts2) && WaitsOk(ts, rs, objs)
    requires o < |objs| == |objs'| && objs' == objs[o := objs'[o]]
    requires forall h :: h in objs[o].waiters && 1 <= h <= |ts2| && rs[h - 1].InMulti? ==> ts2[h - 1].state == Ready
    ensures WaitsOk(ts2, rs, objs')
  {
    forall i | 0 <= i < |ts2| ensures MultiOk(ts2[i], rs[i], objs', i + 1) && ResumeOk(rs[i], objs') {
      assert MultiOk(ts[i], rs[i], objs, i + 1) && ResumeOk(rs[i], objs);
      if rs[i].InMulti? && ts2[i].state == BlockedWait {
        assert i + 1 !in objs[o].waiters;
        if rs[i].all {
          var o' :| o' in rs[i].objs && Registered(objs, o', i + 1);
          assert Registered(objs', o', i + 1);
        } else {
          forall o' | o' in rs[i].objs ensures Registered(objs', o', i + 1) {
            assert Registered(objs, o', i + 1);
          }
        }
      }
    }
  }

  lemma PublishKeepsObjects(ts: seq<Thread>, ts1: seq<Thread>, ts2: seq<Thread>, rs: seq<Resume>,
                            objs: seq<Object>, objs': seq<Object>, o: nat)
    requires ThreadsOk(ts, rs) && ThreadsOk(ts1, rs) && ThreadsOk(ts2, rs)
    requires Wakes(ts, ts1) && Wakes(ts1, ts2)
    requires forall i :: 0 <= i < |ts| && ts[i].token != ObjectToken(o) ==> ts1[i] == ts[i]
    requires forall i :: 0 <= i < |ts1| && !ts1[i].token.MultiToken? ==> ts2[i] == ts1[i]
    requires o < |objs| == |objs'| && objs' == objs[o := objs'[o]] && objs'[o].waiters == []
    requires ObjectsOk(ts, rs, objs) && ObjectOk(ts1, rs, o, objs'[o].kind)
    ensures ObjectsOk(ts2, rs, objs')
  {
    forall o' | 0 <= o' < |objs'| ensures ObjectOk(ts2, rs, o', objs'[o'].kind) {
      forall i | 0 <= i < |ts| ensures IsPending(ts2[i], rs[i], o') == IsPending(ts1[i], rs[i], o') {
        assert ThreadOk(ts1[i], rs[i], i + 1);
      }
      if o' == o {
        ObjectFrame(ts1, ts2, rs, rs, o, objs'[o].kind);
      } else {
        forall i | 0 <= i < |ts| ensures IsPending(ts1[i], rs[i], o') == IsPending(ts[i], rs[i], o') {
          assert ThreadOk(ts[i], rs[i], i + 1);
        }
        ObjectFrame(ts, ts2, rs, rs, o', objs[o'].kind);
      }
    }
    forall o', h | 0 <= o' < |objs'| && h in objs'[o'].waiters ensures RegisteredOk(ts2, rs, o', objs'[o'].kind, h) {
      assert RegisteredOk(ts, rs, o', objs[o'].kind, h);
    }
  }

  /** wake_object after a change that adds at most `units` units. */
  lemma WakeObjectKeeps(s: State, o: nat, k: Kind, units: nat)
    requires KernelInv(s) && o < |s.objs|
    requires Units(k) <= (if Units(s.objs[o].kind) > 0 then Units(s.objs[o].kind) else 0) + units
    requires !k.Event?
    requires k.Mutant? && k.owner != 0 ==> s.objs[o].kind.Mutant? && k.owner == s.objs[o].kind.owner
    ensures KernelInv(WakeObject(WithKind(s, o, k), o, units))
  {
    var ts, rs := s.sched.threads, s.resume;
    var ts1 := SignalMany(ts, ObjectToken(o), units);
    SignalManyWakes(ts, ObjectToken(o), units);
    SignalManyAddsPending(ts, rs, o, units);
    assert ObjectOk(ts, rs, o, s.objs[o].kind);
    PublishKeeps(s, o, k, ts1);
    assert WakeObject(WithKind(s, o, k), o, units)
        == s.(sched := s.sched.(threads := SignalEach(ts1, s.objs[o].waiters)), objs := s.objs[o := Object(k, [])]);
  }

  lemma SetEventKeeps(s: State, o: nat)
    requires KernelInv(s) && HasEvent(s, o)
    ensures KernelInv(SetEvent(s, o))
  {
    var Event(notify, found) := s.objs[o].kind;
    var ts, token := s.sched.threads, ObjectToken(o);
    var k := if notify then Event(true, true) else Event(false, !HasWaiter(ts, token));
    EventSignalKeeps(s, o, k, notify);
  }

  lemma PulseEventKeeps(s: State, o: nat)
    requires KernelInv(s) && HasEvent(s, o)
    ensures KernelInv(PulseEvent(s, o))
  {
    var Event(notify, found) := s.objs[o].kind;
    EventSignalKeeps(s, o, Event(notify, false), notify);
  }

  lemma EventSignalKeeps(s: State, o: nat, k: Kind, all: bool)
    requires KernelInv(s) && HasEvent(s, o) && k.Event?
    requires k.signaled ==> all || !HasWaiter(s.sched.threads, ObjectToken(o))
    ensures var token := ObjectToken(o);
            var ts1 := if all then SignalAll(s.sched.threads, token) else SignalOne(s.sched.threads, token);
            KernelInv(WakeObject(WithKind(WithThreads(s, ts1), o, k), o, 0))
  {
    hide KernelInv;
    var ts, rs, token := s.sched.threads, s.resume, ObjectToken(o);
    var ts1 := if all then SignalAll(ts, token) else SignalOne(ts, token);
    forall i | 0 <= i < |ts1| && WaitsOn(ts1[i], token) ensures HasWaiter(ts, token) {
      assert WaitsOn(ts[i], token);
    }
    PublishKeeps(s, o, k, ts1);
    assert WakeObject(WithKind(WithThreads(s, ts1), o, k), o, 0)
        == s.(sched := s.sched.(threads := SignalEach(ts1, s.objs[o].waiters)), objs := s.objs[o := Object(k, [])]);
  }

  lemma ReleaseMutantKeeps(s: State, o: nat)
    requires KernelInv(s) && HasMutant(s, o)
    ensures KernelInv(ReleaseMutant(s, o))
  {
    var Mutant(signalState, owner, abandoned) := s.objs[o].kind;
    if signalState + 1 > 0 {
      WakeObjectKeeps(s, o, Mutant(signalState + 1, 0, abandoned), 1);
    } else {
      LowerKeeps(s, o, Mutant(signalState + 1, owner, abandoned));
    }
  }

  lemma ReleaseSemaphoreKeeps(s: State, o: nat, adjustment: int)
    requires KernelInv(s) && o < |s.objs| && ReleaseFits(s.objs[o].kind, adjustment)
    ensures KernelInv(ReleaseSemaphore(s, o, adjustment))
  {
    var Semaphore(count, limit) := s.objs[o].kind;
    WakeObjectKeeps(s, o, Semaphore(count + adjustment, limit), WakeUnits(adjustment, count + adjustment));
  }

  // ---------------------------------------------------------------------
  // Changes that make an object harder to satisfy need no wake-up

  /** k asks for no wake-up where k0 did not: it is satisfied for fewer blocked fibers. */
  predicate Lowers(k0: Kind, k: Kind) {
    match k
    case Event(_, signaled) => !signaled
    case Mutant(signalState, owner, _) => k0.Mutant? && signalState <= 0 && owner == k0.owner
    case _ => false
  }

  lemma LowerKeeps(s: State, o: nat, k: Kind)
    requires KernelInv(s) && o < |s.objs| && Lowers(s.objs[o].kind, k)
    ensures KernelInv(WithKind(s, o, k))
  {
    var ts, rs, objs' := s.sched.threads, s.resume, WithKind(s, o, k).objs;
    assert ObjectOk(ts, rs, o, s.objs[o].kind);
    forall o' | 0 <= o' < |objs'| ensures ObjectOk(ts, rs, o', objs'[o'].kind) {
      assert ObjectOk(ts, rs, o', s.objs[o'].kind);
    }
    forall o', h | 0 <= o' < |objs'| && h in objs'[o'].waiters ensures RegisteredOk(ts, rs, o', objs'[o'].kind, h) {
      assert RegisteredOk(ts, rs, o', s.objs[o'].kind, h);
    }
    KindsKeepWaits(ts, rs, s.objs, objs');
  }

  /** The multi-wait facts depend on the registration lists only. */
  lemma KindsKeepWaits(ts: seq<Thread>, rs: seq<Resume>, objs: seq<Object>, objs': seq<Object>)
    requires |ts| == |rs| && |objs| <= |objs'| && WaitsOk(ts, rs, objs)
    requires forall o, h :: Registered(objs, o, h) ==> Registered(objs', o, h)
    ensures WaitsOk(ts, rs, objs')
  {
    forall i | 0 <= i < |ts| ensures MultiOk(ts[i], rs[i], objs', i + 1) && ResumeOk(rs[i], objs') {
      assert MultiOk(ts[i], rs[i], objs, i + 1) && ResumeOk(rs[i], objs);
    }
  }

  // ---------------------------------------------------------------------
  // Acquiring

  /**
   The running fiber h takes a unit. The second postcondition is the slack that lets
   a pending h stop being counted.
   */
  lemma AcquireKeeps(s: State, h: nat, o: nat)
    requires KernelInv(s) && Caller(s, h) && o < |s.objs|
    ensures KernelInv(AcquireObject(s, h, o))
    ensures var s' := AcquireObject(s, h, o);
            && h != 0 && HasWaiter(s'.sched.threads, ObjectToken(o))
            && !s.objs[o].kind.Event? && !s.objs[o].kind.Closed? ==>
              Units(s'.objs[o].kind) < |Pending(s'.sched.threads, s'.resume, o)|
              || Units(s'.objs[o].kind) < 0
  {
    var s' := AcquireObject(s, h, o);
    var ts, rs := s.sched.threads, s.resume;
    assert ObjectOk(ts, rs, o, s.objs[o].kind);
    if h != 0 {
      assert ThreadInv(s.sched, h - 1);
    }
    forall o' | 0 <= o' < |s'.objs| ensures ObjectOk(ts, rs, o', s'.objs[o'].kind) {
      assert ObjectOk(ts, rs, o', s.objs[o'].kind);
    }
    forall o', g | 0 <= o' < |s'.objs| && g in s'.objs[o'].waiters
      ensures RegisteredOk(ts, rs, o', s'.objs[o'].kind, g)
    {
      assert RegisteredOk(ts, rs, o', s.objs[o'].kind, g);
    }
    KindsKeepWaits(ts, rs, s.objs, s'.objs);
  }

  lemma {:induction false} AcquireAllKeeps(s: State, h: nat, targets: seq<nat>, from: nat, worst: nat)
    requires KernelInv(s) && Caller(s, h) && InTable(s, targets) && from <= |targets|
    ensures KernelInv(AcquireAll(s, h, targets, from, worst).0)
    ensures Caller(AcquireAll(s, h, targets, from, worst).0, h)
    decreases |targets| - from
  {
    if from < |targets| {
      AcquireKeeps(s, h, targets[from]);
      var status := Acquire(s.objs[targets[from]].kind, h).1;
      var worst' := if status != STATUS_SUCCESS && worst == STATUS_SUCCESS then STATUS_ABANDONED + from else worst;
      AcquireAllKeeps(AcquireObject(s, h, targets[from]), h, targets, from + 1, worst');
    }
  }

  // ---------------------------------------------------------------------
  // Blocking

  lemma BlockKeepsSched(s: State, h: nat, token: Token, timeout: nat)
    requires Scheduler.Inv(s.sched) && Caller(s, h) && h != 0 && DeadlineFits(s.sched, timeout)
    ensures Scheduler.Inv(Block(s.sched, h, token, timeout))
  {
    var b := Block(s.sched, h, token, timeout);
    forall i | 0 <= i < |b.threads| ensures ThreadInv(b, i) {
      assert ThreadInv(s.sched, i);
    }
  }

  lemma BlockKeepsThreads(s: State, h: nat, token: Token, timeout: nat, r: Resume)
    requires KernelInv(s) && Caller(s, h) && h != 0 && DeadlineFits(s.sched, timeout) && s.resume[h - 1] == Body
    requires token == (match r case InWait(o, _) => ObjectToken(o) case InMulti(_, _, _) => MultiToken(h)
                               case InSection(va) => SectionToken(va) case _ => DelayToken)
    requires r != Body && (r.InSection? ==> timeout == NO_TIMEOUT)
    ensures var s' := BlockIn(s, h, token, timeout, r);
            && Scheduler.Inv(s'.sched) && ThreadsOk(s'.sched.threads, s'.resume)
            && OnlyFiber(s.sched.threads, s'.sched.threads, s.resume, s'.resume, h)
  {
    var s' := BlockIn(s, h, token, timeout, r);
    BlockKeepsSched(s, h, token, timeout);
    forall i | 0 <= i < |s'.resume| ensures ThreadOk(s'.sched.threads[i], s'.resume[i], i + 1) {
      assert ThreadInv(s.sched, i) && ThreadOk(s.sched.threads[i], s.resume[i], i + 1);
    }
  }

  /** The other objects do not notice; object o gains a waiter, and by then it has no unit left. */
  lemma BlockOneObject(ts: seq<Thread>, ts': seq<Thread>, rs: seq<Resume>, rs': seq<Resume>, h: nat, o: nat,
      o': nat, k: Kind)
    requires ThreadsOk(ts, rs) && ThreadsOk(ts', rs') && OnlyFiber(ts, ts', rs, rs', h)
    requires rs[h - 1] == Body && ts'[h - 1].state == BlockedWait && ts'[h - 1].token == ObjectToken(o)
    requires ObjectOk(ts, rs, o', k) && (o' == o ==> !Satisfied(k, h))
    ensures ObjectOk(ts', rs', o', k)
  {
    assert ThreadOk(ts[h - 1], rs[h - 1], h);
    PendingFrame(ts, ts', rs, rs', o');
    if o' != o {
      ObjectFrame(ts, ts', rs, rs', o', k);
    }
  }

  /** A fiber that blocks on object o alone does so only when o does not satisfy it. */
  lemma BlockOneKeeps(s: State, h: nat, o: nat, timeout: nat)
    requires KernelInv(s) && Caller(s, h) && h != 0 && DeadlineFits(s.sched, timeout) && s.resume[h - 1] == Body
    requires o < |s.objs| && !Satisfied(s.objs[o].kind, h)
    ensures KernelInv(BlockIn(s, h, ObjectToken(o), timeout, InWait(o, timeout)))
  {
    var s' := BlockIn(s, h, ObjectToken(o), timeout, InWait(o, timeout));
    var ts, rs, ts', rs' := s.sched.threads, s.resume, s'.sched.threads, s'.resume;
    BlockKeepsThreads(s, h, ObjectToken(o), timeout, InWait(o, timeout));
    forall o' | 0 <= o' < |s.objs| ensures ObjectOk(ts', rs', o', s.objs[o'].kind) {
      assert ObjectOk(ts, rs, o', s.objs[o'].kind);
      BlockOneObject(ts, ts', rs, rs', h, o, o', s.objs[o'].kind);
    }
    ParkKeepsRest(s, s', h);
  }

  /** Parking fiber h anywhere but in a multi-wait or a section leaves the other facts alone. */
  lemma ParkKeepsRest(s: State, s': State, h: nat)
    requires KernelInv(s) && Caller(s, h) && h != 0 && s.resume[h - 1] == Body
    requires s'.objs == s.objs && s'.sections == s.sections
    requires OnlyFiber(s.sched.threads, s'.sched.threads, s.resume, s'.resume, h)
    requires ThreadsOk(s'.sched.threads, s'.resume)
    requires !s'.resume[h - 1].InMulti? && !s'.resume[h - 1].InSection? && ResumeOk(s'.resume[h - 1], s.objs)
    ensures AllRegisteredOk(s'.sched.threads, s'.resume, s.objs)
    ensures WaitsOk(s'.sched.threads, s'.resume, s.objs)
    ensures SectionsOk(s'.sched.threads, s'.resume, s.sections)
  {
    var ts, rs, ts', rs' := s.sched.threads, s.resume, s'.sched.threads, s'.resume;
    SetsBut(ts, ts', rs, rs', h, s.objs);
    SectionsBut(ts, ts', rs, rs', h, s.sections);
  }

  lemma ParkThreads(ts: seq<Thread>, ts': seq<Thread>, rs: seq<Resume>, rs': seq<Resume>, h: nat)
    requires OnlyFiber(ts, ts', rs, rs', h) && ThreadsOk(ts, rs) && ThreadOk(ts'[h - 1], rs'[h - 1], h)
    ensures ThreadsOk(ts', rs')
  {
    forall i | 0 <= i < |ts'| ensures ThreadOk(ts'[i], rs'[i], i + 1) {
      assert ThreadOk(ts[i], rs[i], i + 1);
    }
  }

  /** Parking fiber h without a wait (yield, sleep, join, finish, delay) leaves every object alone. */
  lemma ParkKeeps(s: State, s': State, h: nat)
    requires KernelInv(s) && Caller(s, h) && h != 0 && s.resume[h - 1] == Body
    requires s'.objs == s.objs && s'.sections == s.sections
    requires Scheduler.Inv(s'.sched)
    requires OnlyFiber(s.sched.threads, s'.sched.threads, s.resume, s'.resume, h)
    requires ThreadOk(s'.sched.threads[h - 1], s'.resume[h - 1], h)
    requires s'.resume[h - 1] == Body || s'.resume[h - 1] == InDelay
    ensures KernelInv(s')
  {
    var ts, rs, ts', rs' := s.sched.threads, s.resume, s'.sched.threads, s'.resume;
    ParkThreads(ts, ts', rs, rs', h);
    ParkKeepsRest(s, s', h);
    ObjectsBut(ts, ts', rs, rs', h, s.objs);
  }

  // ---------------------------------------------------------------------
  // Registration

  /** Registration touches waiter lists only, and lists h exactly where it is not satisfied. */
  lemma {:induction false} RegisterLists(objs: seq<Object>, h: nat, targets: seq<nat>, from: nat)
    requires from <= |targets| && forall i :: 0 <= i < |targets| ==> targets[i] < |objs|
    ensures var objs' := Register(objs, h, targets, from);
      && (forall o :: 0 <= o < |objs| ==> objs'[o].kind == objs[o].kind)
      && (forall o, g :: 0 <= o < |objs| && g != h ==> (g in objs'[o].waiters <==> g in objs[o].waiters))
      && (forall o :: 0 <= o < |objs| ==>
            (h in objs'[o].waiters <==> h in objs[o].waiters || (o in targets[from..] && !Satisfied(objs[o].kind, h))))
    decreases |targets| - from
  {
    if from < |targets| {
      var o := targets[from];
      var objs1 := if Satisfied(objs[o].kind, h) then objs else objs[o := objs[o].(waiters := objs[o].waiters + [h])];
      RegisterLists(objs1, h, targets, from + 1);
      assert targets[from..] == [o] + targets[from + 1..];
    }
  }

  lemma {:induction false} DeregisterLists(objs: seq<Object>, h: nat, targets: seq<nat>, from: nat)
    requires from <= |targets| && forall i :: 0 <= i < |targets| ==> targets[i] < |objs|
    ensures var objs' := Deregister(objs, h, targets, from);
      && (forall o :: 0 <= o < |objs| ==> objs'[o].kind == objs[o].kind)
      && (forall o, g :: 0 <= o < |objs| && g != h ==> (g in objs'[o].waiters <==> g in objs[o].waiters))
      && (forall o :: 0 <= o < |objs| ==> (h in objs'[o].waiters <==> h in objs[o].waiters && o !in targets[from..]))
    decreases |targets| - from
  {
    if from < |targets| {
      var o := targets[from];
      DeregisterLists(objs[o := objs[o].(waiters := Without(objs[o].waiters, h))], h, targets, from + 1);
      assert targets[from..] == [o] + targets[from + 1..];
    }
  }

  lemma SameRegistrations(objs: seq<Object>, objs': seq<Object>, g: nat)
    requires |objs'| == |objs|
    requires forall o :: 0 <= o < |objs| ==> (g in objs'[o].waiters <==> g in objs[o].waiters)
    ensures forall o :: Registered(objs', o, g) <==> Registered(objs, o, g)
  {
  }

  /** What registration adds is exactly what fiber h needs, and nobody else's entries change. */
  lemma RegisteredAfter(ts: seq<Thread>, ts': seq<Thread>, rs: seq<Resume>, rs': seq<Resume>, h: nat,
                                           objs: seq<Object>, objs': seq<Object>, r: Resume)
    requires OnlyFiber(ts, ts', rs, rs', h) && |objs'| == |objs|
    requires AllRegisteredOk(ts, rs, objs) && WaitsOk(ts, rs, objs)
    requires rs[h - 1] == Body && rs'[h - 1] == r && r.InMulti? && ResumeOk(r, objs)
    requires forall o :: 0 <= o < |objs| ==> objs'[o].kind == objs[o].kind
    requires forall o, g :: 0 <= o < |objs| && g != h ==> (g in objs'[o].waiters <==> g in objs[o].waiters)
    requires forall o :: 0 <= o < |objs| ==>
               (h in objs'[o].waiters <==> h in objs[o].waiters || (o in r.objs && !Satisfied(objs[o].kind, h)))
    requires if r.all then exists j :: 0 <= j < |r.objs| && !Satisfied(objs[r.objs[j]].kind, h)
             else forall j :: 0 <= j < |r.objs| ==> !Satisfied(objs[r.objs[j]].kind, h)
    ensures AllRegisteredOk(ts', rs', objs') && WaitsOk(ts', rs', objs')
  {
    forall o, g | 0 <= o < |objs'| && g in objs'[o].waiters ensures RegisteredOk(ts', rs', o, objs'[o].kind, g) {
      if g in objs[o].waiters {
        assert RegisteredOk(ts, rs, o, objs[o].kind, g);
      }
    }
    forall i | 0 <= i < |ts'| ensures MultiOk(ts'[i], rs'[i], objs', i + 1) && ResumeOk(rs'[i], objs') {
      if i == h - 1 {
        if r.all {
          var j :| 0 <= j < |r.objs| && !Satisfied(objs[r.objs[j]].kind, h);
          assert Registered(objs', r.objs[j], h);
        }
      } else {
        assert MultiOk(ts[i], rs[i], objs, i + 1) && ResumeOk(rs[i], objs);
        SameRegistrations(objs, objs', i + 1);
      }
    }
  }

  /** A fiber enters a multi-object wait registered on every object that does not satisfy it. */
  lemma BlockManyKeeps(s: State, h: nat, targets: seq<nat>, all: bool, timeout: nat)
    requires KernelInv(s) && Caller(s, h) && h != 0 && DeadlineFits(s.sched, timeout) && s.resume[h - 1] == Body
    requires InTable(s, targets) && targets != []
    requires if all then !AllSatisfied(s, h, targets) else FirstSatisfied(s, h, targets, 0) == |targets|
    ensures KernelInv(BlockIn(s.(objs := Register(s.objs, h, targets, 0)), h, MultiToken(h), timeout,
                              InMulti(targets, all, timeout)))
  {
    var objs' := Register(s.objs, h, targets, 0);
    var r := InMulti(targets, all, timeout);
    var s' := BlockIn(s.(objs := objs'), h, MultiToken(h), timeout, r);
    var ts, rs, ts', rs' := s.sched.threads, s.resume, s'.sched.threads, s'.resume;
    BlockKeepsThreads(s, h, MultiToken(h), timeout, r);
    ObjectsBut(ts, ts', rs, rs', h, s.objs);
    RegisterLists(s.objs, h, targets, 0);
    assert targets[0..] == targets;
    RegisteredAfter(ts, ts', rs, rs', h, s.objs, objs', r);
    SectionsBut(ts, ts', rs, rs', h, s.sections);
  }
}
