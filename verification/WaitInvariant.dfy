/**
 The invariant behind the wake-up theorem: which facts about blocked, woken and
 registered fibers every kernel call keeps.
 */
module WaitInvariant {
  import opened Scheduler
  import opened Kernel

  // ---------------------------------------------------------------------
  // Definitions

  /** Units an object can still hand out: a semaphore's count, a mutant's SignalState. */
  function Units(k: Kind): int {
    match k
    case Mutant(signalState, _, _) => signalState
    case Semaphore(count, _) => count
    case _ => 0
  }

  /** Woken by a signal while waiting on object o alone, and not yet re-evaluated. */
  predicate IsPending(t: Thread, r: Resume, o: nat) {
    r.InWait? && r.obj == o && t.state == Ready && !t.timedOut
  }

  function Pending(ts: seq<Thread>, rs: seq<Resume>, o: nat): set<nat>
    requires |ts| == |rs|
  {
    set i: nat | i < |ts| && IsPending(ts[i], rs[i], o)
  }

  /** A thread's record agrees with the call it is blocked in. */
  predicate ThreadOk(t: Thread, r: Resume, h: nat) {
    && (r != Body ==> t.started && (t.state == Ready || t.state == BlockedWait))
    && match r
       case Body => t.state != BlockedWait
       case InWait(o, _) => t.token == ObjectToken(o)
       case InMulti(_, _, _) => t.token == MultiToken(h)
       case InSection(va) => t.token == SectionToken(va) && (t.state == BlockedWait ==> t.wakeTick == NO_DEADLINE)
       case InDelay => t.token == DelayToken && (t.state == Ready ==> t.timedOut)
  }

  ghost predicate ThreadsOk(ts: seq<Thread>, rs: seq<Resume>) {
    && |ts| == |rs|
    && forall i :: 0 <= i < |ts| ==> ThreadOk(ts[i], rs[i], i + 1)
  }

  /** The facts about single waits on object o. */
  ghost predicate ObjectOk(ts: seq<Thread>, rs: seq<Resume>, o: nat, k: Kind)
    requires |ts| == |rs|
  {
    && (k.Event? && k.signaled ==> !HasWaiter(ts, ObjectToken(o)))
    && (HasWaiter(ts, ObjectToken(o)) ==> Units(k) <= |Pending(ts, rs, o)|)
    && (k.Mutant? && k.owner != 0 ==> k.owner <= |ts| && !WaitsOn(ts[k.owner - 1], ObjectToken(o)))
  }

  /** Fiber h may be on the multi-wait list of object o, whose kind is k. */
  predicate RegisteredOk(ts: seq<Thread>, rs: seq<Resume>, o: nat, k: Kind, h: nat)
    requires |ts| == |rs|
  {
    && 1 <= h <= |ts|
    && rs[h - 1].InMulti? && o in rs[h - 1].objs
    && (ts[h - 1].state == BlockedWait ==> !Satisfied(k, h))
  }

  predicate AllRegisteredOk(ts: seq<Thread>, rs: seq<Resume>, objs: seq<Object>)
    requires |ts| == |rs|
  {
    forall o, h :: 0 <= o < |objs| && h in objs[o].waiters ==> RegisteredOk(ts, rs, o, objs[o].kind, h)
  }

  ghost predicate ObjectsOk(ts: seq<Thread>, rs: seq<Resume>, objs: seq<Object>)
    requires |ts| == |rs|
  {
    && (forall o :: 0 <= o < |objs| ==> ObjectOk(ts, rs, o, objs[o].kind))
    && AllRegisteredOk(ts, rs, objs)
  }

  predicate Registered(objs: seq<Object>, o: nat, h: nat) {
    o < |objs| && h in objs[o].waiters
  }

  /** A fiber blocked in a multi-object wait is registered on all its objects (any) or on one of them (all). */
  ghost predicate MultiOk(t: Thread, r: Resume, objs: seq<Object>, h: nat) {
    r.InMulti? && t.state == BlockedWait ==>
      if r.all then exists o :: o in r.objs && Registered(objs, o, h)
      else forall o :: o in r.objs ==> Registered(objs, o, h)
  }

  ghost predicate ResumeOk(r: Resume, objs: seq<Object>) {
    && (r.InWait? ==> r.obj < |objs|)
    && (r.InMulti? ==> r.objs != [] && forall i :: 0 <= i < |r.objs| ==> r.objs[i] < |objs|)
  }

  ghost predicate WaitsOk(ts: seq<Thread>, rs: seq<Resume>, objs: seq<Object>)
    requires |ts| == |rs|
  {
    forall i :: 0 <= i < |ts| ==> MultiOk(ts[i], rs[i], objs, i + 1) && ResumeOk(rs[i], objs)
  }

  function WaiterSet(ts: seq<Thread>, token: Token): set<nat> {
    set i: nat | i < |ts| && WaitsOn(ts[i], token)
  }

  predicate PendingSection(t: Thread, r: Resume, va: nat) {
    r == InSection(va) && t.state == Ready
  }

  /** LockCount counts the blocked fibers, and a free section with blocked fibers has one on its way in. */
  ghost predicate SectionOk(ts: seq<Thread>, rs: seq<Resume>, va: nat, c: Section)
    requires |ts| == |rs|
  {
    && c.lockCount + 1 == |WaiterSet(ts, SectionToken(va))|
    && c.recursion >= 0 && (c.owner == 0 <==> c.recursion == 0) && c.owner <= |ts|
    && (c.owner != 0 ==> !WaitsOn(ts[c.owner - 1], SectionToken(va)))
    && (c.owner == 0 && HasWaiter(ts, SectionToken(va)) ==>
          exists i :: 0 <= i < |ts| && PendingSection(ts[i], rs[i], va))
  }

  ghost predicate SectionsOk(ts: seq<Thread>, rs: seq<Resume>, sections: map<nat, Section>)
    requires |ts| == |rs|
  {
    && (forall va :: va in sections ==> SectionOk(ts, rs, va, sections[va]))
    && (forall i :: 0 <= i < |rs| && rs[i].InSection? ==> rs[i].va in sections)
  }

  ghost predicate KernelInv(s: State) {
    && Scheduler.Inv(s.sched)
    && ThreadsOk(s.sched.threads, s.resume)
    && ObjectsOk(s.sched.threads, s.resume, s.objs)
    && WaitsOk(s.sched.threads, s.resume, s.objs)
    && SectionsOk(s.sched.threads, s.resume, s.sections)
  }

  // ---------------------------------------------------------------------
  // Framing

  /** The sets an object's facts depend on are determined by the threads that wait on it. */
  lemma PendingFrame(ts: seq<Thread>, ts': seq<Thread>, rs: seq<Resume>, rs': seq<Resume>, o: nat)
    requires |ts| == |rs| && |ts'| == |rs'| && |ts| <= |ts'|
    requires forall i :: 0 <= i < |ts| ==> IsPending(ts'[i], rs'[i], o) == IsPending(ts[i], rs[i], o)
    requires forall i :: |ts| <= i < |ts'| ==> rs'[i] == Body
    ensures Pending(ts', rs', o) == Pending(ts, rs, o)
  {
  }

  lemma WaiterSetFrame(ts: seq<Thread>, ts': seq<Thread>, token: Token)
    requires |ts| <= |ts'|
    requires forall i :: 0 <= i < |ts| ==> WaitsOn(ts'[i], token) == WaitsOn(ts[i], token)
    requires forall i :: |ts| <= i < |ts'| ==> ts'[i] == FRESH
    ensures WaiterSet(ts', token) == WaiterSet(ts, token)
    ensures HasWaiter(ts', token) == HasWaiter(ts, token)
  {
    if HasWaiter(ts, token) {
      var i :| 0 <= i < |ts| && WaitsOn(ts[i], token);
      assert WaitsOn(ts'[i], token);
    }
  }

  /** A section depends only on who waits on its token and who is on the way in. */
  lemma SectionFrame(ts: seq<Thread>, ts': seq<Thread>, rs: seq<Resume>, rs': seq<Resume>, va: nat, c: Section)
    requires |ts| == |rs| && |ts'| == |rs'| && |ts| <= |ts'|
    requires forall i :: 0 <= i < |ts| ==> WaitsOn(ts'[i], SectionToken(va)) == WaitsOn(ts[i], SectionToken(va))
    requires forall i :: 0 <= i < |ts| && PendingSection(ts[i], rs[i], va) ==> PendingSection(ts'[i], rs'[i], va)
    requires forall i :: |ts| <= i < |ts'| ==> ts'[i] == FRESH
    requires SectionOk(ts, rs, va, c)
    ensures SectionOk(ts', rs', va, c)
  {
    WaiterSetFrame(ts, ts', SectionToken(va));
    if i :| 0 <= i < |ts| && PendingSection(ts[i], rs[i], va) {
      assert PendingSection(ts'[i], rs'[i], va);
    }
  }

  /** Threads that are not inside RtlEnterCriticalSection do not matter to any section. */
  lemma SectionsFrame(ts: seq<Thread>, ts': seq<Thread>, rs: seq<Resume>, rs': seq<Resume>, sections: map<nat, Section>)
    requires ThreadsOk(ts, rs) && ThreadsOk(ts', rs') && |ts| <= |ts'|
    requires forall i :: 0 <= i < |ts| && (rs[i].InSection? || rs'[i].InSection?) ==> ts'[i] == ts[i] && rs'[i] == rs[i]
    requires forall i :: |ts| <= i < |ts'| ==> ts'[i] == FRESH && rs'[i] == Body
    requires SectionsOk(ts, rs, sections)
    ensures SectionsOk(ts', rs', sections)
  {
    forall va | va in sections ensures SectionOk(ts', rs', va, sections[va]) {
      forall i | 0 <= i < |ts| ensures WaitsOn(ts'[i], SectionToken(va)) == WaitsOn(ts[i], SectionToken(va)) {
        assert ThreadOk(ts[i], rs[i], i + 1) && ThreadOk(ts'[i], rs'[i], i + 1);
      }
      SectionFrame(ts, ts', rs, rs', va, sections[va]);
    }
  }

  /** Objects nobody's status changed for keep their facts. */
  lemma ObjectFrame(ts: seq<Thread>, ts': seq<Thread>, rs: seq<Resume>, rs': seq<Resume>, o: nat, k: Kind)
    requires ThreadsOk(ts, rs) && ThreadsOk(ts', rs') && |ts| <= |ts'|
    requires forall i :: 0 <= i < |ts| ==> IsPending(ts'[i], rs'[i], o) == IsPending(ts[i], rs[i], o)
    requires forall i :: 0 <= i < |ts| && WaitsOn(ts'[i], ObjectToken(o)) ==> WaitsOn(ts[i], ObjectToken(o))
    requires forall i :: |ts| <= i < |ts'| ==> ts'[i] == FRESH && rs'[i] == Body
    requires ObjectOk(ts, rs, o, k)
    ensures ObjectOk(ts', rs', o, k)
  {
    PendingFrame(ts, ts', rs, rs', o);
    if i :| 0 <= i < |ts'| && WaitsOn(ts'[i], ObjectToken(o)) {
      assert WaitsOn(ts[i], ObjectToken(o));
    }
  }

  /** A thread that did not change, or is in no single wait before and after. */
  predicate OutsideWaits(t: Thread, t': Thread, r: Resume, r': Resume) {
    (t' == t && r' == r) || (!r.InWait? && !r'.InWait?)
  }

  /** Threads outside single waits do not matter to any object. */
  lemma ObjectsOutside(ts: seq<Thread>, ts': seq<Thread>, rs: seq<Resume>, rs': seq<Resume>, objs: seq<Object>)
    requires ThreadsOk(ts, rs) && ThreadsOk(ts', rs') && |ts| == |ts'|
    requires forall i :: 0 <= i < |ts| ==> OutsideWaits(ts[i], ts'[i], rs[i], rs'[i])
    requires forall o :: 0 <= o < |objs| ==> ObjectOk(ts, rs, o, objs[o].kind)
    ensures forall o :: 0 <= o < |objs| ==> ObjectOk(ts', rs', o, objs[o].kind)
  {
    forall o | 0 <= o < |objs| ensures ObjectOk(ts', rs', o, objs[o].kind) {
      forall i | 0 <= i < |ts|
        ensures IsPending(ts'[i], rs'[i], o) == IsPending(ts[i], rs[i], o)
        ensures WaitsOn(ts'[i], ObjectToken(o)) ==> WaitsOn(ts[i], ObjectToken(o))
      {
        assert OutsideWaits(ts[i], ts'[i], rs[i], rs'[i]);
        assert ThreadOk(ts'[i], rs'[i], i + 1);
      }
      ObjectFrame(ts, ts', rs, rs', o, objs[o].kind);
    }
  }

  /** A thread that did not change, or is in no multi-object wait before and after. */
  predicate OutsideSets(t: Thread, t': Thread, r: Resume, r': Resume) {
    (t' == t && r' == r) || (!r.InMulti? && !r'.InMulti?)
  }

  /** Threads outside multi-object waits do not matter to any registration. */
  lemma SetsOutside(ts: seq<Thread>, ts': seq<Thread>, rs: seq<Resume>, rs': seq<Resume>, objs: seq<Object>)
    requires |ts| == |rs| == |ts'| == |rs'|
    requires forall i :: 0 <= i < |ts| ==> OutsideSets(ts[i], ts'[i], rs[i], rs'[i])
    requires forall i :: 0 <= i < |ts| ==> ResumeOk(rs'[i], objs)
    requires AllRegisteredOk(ts, rs, objs) && WaitsOk(ts, rs, objs)
    ensures AllRegisteredOk(ts', rs', objs) && WaitsOk(ts', rs', objs)
  {
    forall o, h | 0 <= o < |objs| && h in objs[o].waiters ensures RegisteredOk(ts', rs', o, objs[o].kind, h) {
      assert RegisteredOk(ts, rs, o, objs[o].kind, h);
      assert OutsideSets(ts[h - 1], ts'[h - 1], rs[h - 1], rs'[h - 1]);
    }
    forall i | 0 <= i < |ts'| ensures MultiOk(ts'[i], rs'[i], objs, i + 1) && ResumeOk(rs'[i], objs) {
      assert MultiOk(ts[i], rs[i], objs, i + 1);
      assert OutsideSets(ts[i], ts'[i], rs[i], rs'[i]);
    }
  }

  /** Only fiber h's record and resume point may have changed. */
  predicate OnlyFiber(ts: seq<Thread>, ts': seq<Thread>, rs: seq<Resume>, rs': seq<Resume>, h: nat) {
    && 1 <= h <= |ts| == |rs| == |ts'| == |rs'|
    && forall i :: 0 <= i < |ts| && i != h - 1 ==> ts'[i] == ts[i] && rs'[i] == rs[i]
  }

  lemma ObjectsBut(ts: seq<Thread>, ts': seq<Thread>, rs: seq<Resume>, rs': seq<Resume>, h: nat, objs: seq<Object>)
    requires OnlyFiber(ts, ts', rs, rs', h) && ThreadsOk(ts, rs) && ThreadsOk(ts', rs')
    requires !rs[h - 1].InWait? && !rs'[h - 1].InWait?
    requires forall o :: 0 <= o < |objs| ==> ObjectOk(ts, rs, o, objs[o].kind)
    ensures forall o :: 0 <= o < |objs| ==> ObjectOk(ts', rs', o, objs[o].kind)
  {
    assert forall i :: 0 <= i < |ts| ==> OutsideWaits(ts[i], ts'[i], rs[i], rs'[i]);
    ObjectsOutside(ts, ts', rs, rs', objs);
  }

  lemma SetsBut(ts: seq<Thread>, ts': seq<Thread>, rs: seq<Resume>, rs': seq<Resume>, h: nat, objs: seq<Object>)
    requires OnlyFiber(ts, ts', rs, rs', h)
    requires !rs[h - 1].InMulti? && !rs'[h - 1].InMulti? && ResumeOk(rs'[h - 1], objs)
    requires AllRegisteredOk(ts, rs, objs) && WaitsOk(ts, rs, objs)
    ensures AllRegisteredOk(ts', rs', objs) && WaitsOk(ts', rs', objs)
  {
    forall i | 0 <= i < |ts| ensures OutsideSets(ts[i], ts'[i], rs[i], rs'[i]) && ResumeOk(rs'[i], objs) {
      assert ResumeOk(rs[i], objs);
    }
    SetsOutside(ts, ts', rs, rs', objs);
  }

  lemma SectionsBut(ts: seq<Thread>, ts': seq<Thread>, rs: seq<Resume>, rs': seq<Resume>, h: nat,
      sections: map<nat, Section>)
    requires OnlyFiber(ts, ts', rs, rs', h) && ThreadsOk(ts, rs) && ThreadsOk(ts', rs')
    requires !rs[h - 1].InSection? && !rs'[h - 1].InSection?
    requires SectionsOk(ts, rs, sections)
    ensures SectionsOk(ts', rs', sections)
  {
    SectionsFrame(ts, ts', rs, rs', sections);
  }

  // ---------------------------------------------------------------------
  // Signals

  /** Waking threads keeps each record in agreement with its call, except in a delay, which nobody signals. */
  lemma WakesKeepThreadsOk(ts: seq<Thread>, ts': seq<Thread>, rs: seq<Resume>)
    requires ThreadsOk(ts, rs) && Wakes(ts, ts')
    requires forall i :: 0 <= i < |ts| && ts[i].token == DelayToken ==> ts'[i] == ts[i]
    ensures ThreadsOk(ts', rs)
  {
    forall i | 0 <= i < |ts'| ensures ThreadOk(ts'[i], rs[i], i + 1) {
      assert ThreadOk(ts[i], rs[i], i + 1);
    }
  }

  /** Each signal on an object's token adds one pending fiber, or finds no waiter. */
  lemma SignalOneAddsPending(ts: seq<Thread>, rs: seq<Resume>, o: nat)
    requires ThreadsOk(ts, rs)
    ensures !HasWaiter(ts, ObjectToken(o)) ==> SignalOne(ts, ObjectToken(o)) == ts
    ensures HasWaiter(ts, ObjectToken(o)) ==>
              |Pending(SignalOne(ts, ObjectToken(o)), rs, o)| == |Pending(ts, rs, o)| + 1
    ensures ThreadsOk(SignalOne(ts, ObjectToken(o)), rs)
  {
    var i := FirstWaiter(ts, ObjectToken(o), 0);
    var ts' := SignalOne(ts, ObjectToken(o));
    if i < |ts| {
      assert ThreadOk(ts[i], rs[i], i + 1);
      assert Pending(ts', rs, o) == Pending(ts, rs, o) + {i};
    }
    WakesKeepThreadsOk(ts, ts', rs);
  }

  /** If waiters remain after `units` signals, each signal woke one. */
  lemma {:induction false} SignalManyAddsPending(ts: seq<Thread>, rs: seq<Resume>, o: nat, units: nat)
    requires ThreadsOk(ts, rs)
    ensures ThreadsOk(SignalMany(ts, ObjectToken(o), units), rs)
    ensures HasWaiter(SignalMany(ts, ObjectToken(o), units), ObjectToken(o)) ==>
              && HasWaiter(ts, ObjectToken(o))
              && |Pending(SignalMany(ts, ObjectToken(o), units), rs, o)| == |Pending(ts, rs, o)| + units
    decreases units
  {
    if units != 0 {
      SignalOneAddsPending(ts, rs, o);
      SignalManyAddsPending(SignalOne(ts, ObjectToken(o)), rs, o, units - 1);
      var ts' := SignalMany(ts, ObjectToken(o), units);
      SignalManyWakes(ts, ObjectToken(o), units);
      if i :| 0 <= i < |ts'| && WaitsOn(ts'[i], ObjectToken(o)) {
        assert WaitsOn(ts[i], ObjectToken(o));
      }
    }
  }

  /** Signalling a list of multi-wait channels unblocks every fiber on the list. */
  lemma {:induction false} SignalEachUnblocks(ts: seq<Thread>, rs: seq<Resume>, waiters: seq<nat>)
    requires ThreadsOk(ts, rs)
    ensures ThreadsOk(SignalEach(ts, waiters), rs)
    ensures forall h :: h in waiters && 1 <= h <= |ts| && rs[h - 1].InMulti? ==>
      SignalEach(ts, waiters)[h - 1].state == Ready
    decreases |waiters|
  {
    SignalEachWakes(ts, waiters);
    WakesKeepThreadsOk(ts, SignalEach(ts, waiters), rs);
    if waiters != [] {
      var h0, ts1 := waiters[0], SignalOne(ts, MultiToken(waiters[0]));
      WakesKeepThreadsOk(ts, ts1, rs);
      SignalEachUnblocks(ts1, rs, waiters[1..]);
      SignalEachWakes(ts1, waiters[1..]);
      forall h | h in waiters && 1 <= h <= |ts| && rs[h - 1].InMulti?
        ensures SignalEach(ts, waiters)[h - 1].state == Ready
      {
        if h == h0 {
          assert ThreadOk(ts[h - 1], rs[h - 1], h);
          var i := FirstWaiter(ts, MultiToken(h), 0);
          if i < |ts| {
            assert ThreadOk(ts[i], rs[i], i + 1);
          }
          assert ts1[h - 1].state == Ready;
        } else {
          assert h in waiters[1..];
        }
      }
    }
  }
}
