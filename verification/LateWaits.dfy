/**
 Which timed waits can outlive their timeout: all but the wait on one event, each with a
 run that shows it.
 */
module LateWaits {
  import opened Scheduler
  import opened Kernel
  import opened KernelRuns
  import opened TimedWaits
  import SchedulerRuns

  datatype Sort = AnEvent | AMutant | ASemaphore

  predicate HasSort(k: Kind, sort: Sort) {
    match sort
    case AnEvent => k.Event?
    case AMutant => k.Mutant?
    case ASemaphore => k.Semaphore?
  }

  /** NtWaitForSingleObject, or a multi-object wait for any or for all of a set, here of one object. */
  datatype Form = Single | AnyOf | AllOf

  function WaitCall(form: Form, o: nat, n: nat): Call {
    if form == Single then WaitOne(o, false, n) else WaitMany([o], form == AllOf, false, n)
  }

  function InCall(form: Form, o: nat, n: nat): Resume {
    if form == Single then InWait(o, n) else InMulti([o], form == AllOf, n)
  }

  /** In a run, a wait called at step a with a timeout of n ticks is not over at b, more than n ticks later. */
  ghost predicate Outlives(ss: seq<State>, ls: seq<Label>, h: nat, a: nat, b: nat, sort: Sort, form: Form,
      o: nat, n: nat) {
    && IsRun(ss, ls) && a < b <= |ls| && n > 0 && o < |ss[a].objs| && HasSort(ss[a].objs[o].kind, sort)
    && ss[a].sched.mode == Fiber(h) && ls[a] == Call(WaitCall(form, o, n))
    && (forall k :: a < k <= b ==> Inside(ss[k], h, InCall(form, o, n)))
    && ss[b].sched.tick > ss[a].sched.tick + n
  }

  predicate Inside(s: State, h: nat, r: Resume) {
    1 <= h <= |s.resume| && s.resume[h - 1] == r
  }

  // ---------------------------------------------------------------------
  // A wait on one event never does

  /** While its fiber does not run, the clock does not pass the deadline of a timed wait. */
  lemma ClockStaysBelow(ss: seq<State>, ls: seq<Label>, h: nat, a: nat, b: nat, r: Resume)
    requires IsRun(ss, ls) && BlocksAt(ss, ls, h, a, r) && r.timeout > 0
    requires a < b < |ss| && forall k :: a < k < b ==> ss[k].sched.mode != Fiber(h)
    ensures ss[b].sched.tick <= ss[a].sched.tick + r.timeout
  {
    StepAt(ss, ls, a);
    BlockStep(ss[a], ls[a], ss[a + 1], h);
    KernelRunsAreSchedulerRuns(ss, ls);
    SchedulerRuns.RunKeepsInv(Scheds(ss), a);
    assert ThreadInv(ss[a].sched, h - 1);
    SchedulerRuns.OnTimeRun(Scheds(ss), a + 1, b, h - 1, false, ss[a].sched.tick + r.timeout);
  }

  lemma EventWaitIsNeverLate(ss: seq<State>, ls: seq<Label>, h: nat, a: nat, b: nat, o: nat, n: nat)
    ensures !Outlives(ss, ls, h, a, b, AnEvent, Single, o, n)
  {
    hide StepsTo;
    if Outlives(ss, ls, h, a, b, AnEvent, Single, o, n) {
      assert Inside(ss[a + 1], h, InWait(o, n));
      StepAt(ss, ls, a);
      EventWaitBlocked(ss[a], ss[a + 1], h, o, n);
      if k :| a < k < b && ss[k].sched.mode == Fiber(h) {
        var c := FirstRun(ss, h, a, k);
        assert Inside(ss[c + 1], h, InWait(o, n));
        EventWaitsKeepTheirTimeout(ss, ls, h, a, c, o, n);
        assert false;
      }
      ClockStaysBelow(ss, ls, h, a, b, InWait(o, n));
    }
  }

  lemma EventWaitBlocked(s: State, s': State, h: nat, o: nat, n: nat)
    requires StepsTo(s, Call(WaitOne(o, false, n)), s') && s.sched.mode == Fiber(h) && HasEvent(s, o)
    requires Inside(s', h, InWait(o, n))
    ensures !s.objs[o].kind.signaled
  {
  }

  lemma {:induction false} FirstRun(ss: seq<State>, h: nat, a: nat, k: nat) returns (c: nat)
    requires a < k < |ss| && ss[k].sched.mode == Fiber(h)
    ensures c <= k && NextRun(ss, h, a, c)
    decreases k
  {
    if j :| a < j < k && ss[j].sched.mode == Fiber(h) {
      c := FirstRun(ss, h, a, j);
    } else {
      c := k;
    }
  }

  // ---------------------------------------------------------------------
  // Every other wait can

  /** Thread j is picked if it is Ready and comes first: nobody else is Ready, or the cursor is on it. */
  lemma Picks(s: Sched, j: nat)
    requires s.mode == Loop && s.cursor < |s.threads| && j < |s.threads|
    requires var ts := Refresh(s.threads, s.tick);
             ts[j].state == Ready && (s.cursor == j || forall i :: 0 <= i < |ts| && i != j ==> ts[i].state != Ready)
    ensures var ts := Refresh(s.threads, s.tick);
            Iterate(s) == (Dispatched,
                           s.(threads := ts[j := SwitchIn(ts[j])], cursor := NextIndex(j, |ts|), mode := Fiber(j + 1)))
  {
    var ts := Refresh(s.threads, s.tick);
    assert ts[j] == RefreshOne(s.threads, s.tick, s.threads[j]);
    if ScanReady(ts, s.cursor, 0) == |ts| {
      ScanComplete(ts, s.cursor);
    }
    assert s.cursor == j ==> RingIndex(s.cursor, 0, |ts|) == j;
  }

  /** With nobody Ready and somebody on the clock, a tick passes. */
  lemma Ticks(s: Sched, j: nat)
    requires s.mode == Loop && s.cursor < |s.threads| && j < |s.threads|
    requires var ts := Refresh(s.threads, s.tick);
             (forall i :: 0 <= i < |ts| ==> ts[i].state != Ready) && Timed(ts[j])
    ensures Iterate(s) == (Advanced, s.(threads := Refresh(s.threads, s.tick), tick := s.tick + 1))
  {
    var ts := Refresh(s.threads, s.tick);
    assert ts[j] == RefreshOne(s.threads, s.tick, s.threads[j]);
    assert AnyTimed(ts);
  }

  // The object, before and after fiber 1 has taken it, and the calls that make, take and
  // give it back. An event is pulsed: its waiters wake up and find it reset.

  function Free(sort: Sort): Kind {
    match sort
    case AnEvent => Event(false, false)
    case AMutant => Mutant(1, 0, false)
    case ASemaphore => Semaphore(1, 1)
  }

  function Taken(sort: Sort): Kind {
    match sort
    case AnEvent => Event(false, false)
    case AMutant => Mutant(0, 1, false)
    case ASemaphore => Semaphore(0, 1)
  }

  function MakeCall(sort: Sort): Call {
    match sort
    case AnEvent => CreateEvent(false, false)
    case AMutant => CreateMutant(false)
    case ASemaphore => NtCreateSemaphore(1, 1)
  }

  function TakeCall(sort: Sort): Call {
    if sort == AnEvent then CallResetEvent(0) else WaitOne(0, true, 0)
  }

  function GiveCall(sort: Sort): Call {
    match sort
    case AnEvent => CallPulseEvent(0)
    case AMutant => NtReleaseMutant(0)
    case ASemaphore => CallReleaseSemaphore(0, 1)
  }

  /** Two fibers and the object: fiber 1 takes and gives, fiber 2 waits. */
  function Scene(thief: Thread, waiter: Thread, tick: nat, cursor: nat, mode: Mode, r: Resume, obj: Object,
      log: seq<Entry>): State {
    State(Sched([thief, waiter], tick, cursor, mode, false), [Body, r], [obj], map[], log)
  }

  const STARTED: Thread := Thread(Running, true, 0, 0, DelayToken, false)
  const ASLEEP: Thread := Thread(Sleeping, true, 2, 0, DelayToken, false)
  const AWAKE: Thread := ASLEEP.(state := Ready)
  const ASLEEP_AGAIN: Thread := ASLEEP.(wakeTick := 12)

  function Waiting(form: Form): Thread {
    Thread(BlockedWait, true, 3, 0, Channel(InCall(form, 0, 3), 2), false)
  }

  function WaitingAgain(form: Form): Thread {
    Waiting(form).(wakeTick := 5)
  }

  /** The list of multi-object waiters while fiber 2 is blocked. */
  function Listed(form: Form): seq<nat> {
    if form == Single then [] else [2]
  }

  /** What step l comes to, whatever it logs. */
  ghost predicate Leads(s: State, l: Label, s': State) {
    Enabled(s, l) && s'.(log := Next(s, l).log) == Next(s, l)
  }

  function AfterMake(sort: Sort, threads: nat, log: seq<Entry>): State {
    State(EMPTY.(threads := seq(threads, i => FRESH)), seq(threads, i => Body), [Object(Free(sort), [])], map[], log)
  }

  lemma HostSteps(sort: Sort, n: nat, log: seq<Entry>)
    ensures Leads(BOOT, Call(MakeCall(sort)), AfterMake(sort, 0, log))
    ensures Leads(AfterMake(sort, n, log), Call(SpawnFiber), AfterMake(sort, n + 1, log))
    ensures AfterMake(sort, 2, log) == Scene(FRESH, FRESH, 0, 0, Host, Body, Object(Free(sort), []), log)
  {
    assert AfterMake(sort, n + 1, log).sched.threads == AfterMake(sort, n, log).sched.threads + [FRESH];
    assert AfterMake(sort, n + 1, log).resume == AfterMake(sort, n, log).resume + [Body];
    assert AfterMake(sort, 0, log).sched.threads == [] && AfterMake(sort, 0, log).resume == [];
  }

  lemma StartSteps(obj: Object, log: seq<Entry>)
    ensures Leads(Scene(FRESH, FRESH, 0, 0, Host, Body, obj, log), Run, Scene(FRESH, FRESH, 0, 0, Loop, Body, obj, log))
    ensures Leads(Scene(FRESH, FRESH, 0, 0, Loop, Body, obj, log), Schedule,
                  Scene(STARTED, FRESH, 0, 1, Fiber(1), Body, obj, log))
  {
    var s := Scene(FRESH, FRESH, 0, 0, Loop, Body, obj, log).sched;
    assert Refresh(s.threads, 0) == [FRESH, FRESH];
    Picks(s, 0);
  }

  /** Fiber 1 takes the object. */
  lemma TakeStep(sort: Sort, thief: Thread, waiter: Thread, tick: nat, cursor: nat, r: Resume, log: seq<Entry>)
    requires tick <= 2
    ensures Leads(Scene(thief, waiter, tick, cursor, Fiber(1), r, Object(Free(sort), []), log), Call(TakeCall(sort)),
                  Scene(thief, waiter, tick, cursor, Fiber(1), r, Object(Taken(sort), []), log))
  {
  }

  lemma FirstSleep(obj: Object, log: seq<Entry>)
    ensures Leads(Scene(STARTED, FRESH, 0, 1, Fiber(1), Body, obj, log), Call(SleepFiber(2)),
                  Scene(ASLEEP, FRESH, 0, 1, Loop, Body, obj, log))
    ensures Leads(Scene(ASLEEP, FRESH, 0, 1, Loop, Body, obj, log), Schedule,
                  Scene(ASLEEP, STARTED, 0, 0, Fiber(2), Body, obj, log))
  {
    var s := Scene(ASLEEP, FRESH, 0, 1, Loop, Body, obj, log).sched;
    assert Refresh(s.threads, 0) == [ASLEEP, FRESH];
    Picks(s, 1);
  }

  /** Fiber 2 asks for the object within 3 ticks. */
  lemma WaitStep(sort: Sort, form: Form, log: seq<Entry>)
    ensures Leads(Scene(ASLEEP, STARTED, 0, 0, Fiber(2), Body, Object(Taken(sort), []), log),
                  Call(WaitCall(form, 0, 3)),
                  Scene(ASLEEP, Waiting(form), 0, 0, Loop, InCall(form, 0, 3), Object(Taken(sort), Listed(form)), log))
  {
    Unsatisfied(sort, Object(Taken(sort), []));
  }

  /**
   One object that does not satisfy fiber 2: neither the whole set nor a part of it does,
   and it is put on the list.
   */
  lemma Unsatisfied(sort: Sort, obj: Object)
    requires obj.kind == Taken(sort) && obj.waiters == []
    ensures !Satisfied(obj.kind, 2)
    ensures Register([obj], 2, [0], 0) == [Object(obj.kind, [2])]
    ensures forall s: State :: s.objs == [obj] ==> !AllSatisfied(s, 2, [0]) && FirstSatisfied(s, 2, [0], 0) == 1
  {
    assert [0][0] == 0;
    assert obj.waiters + [2] == [2];
    assert [obj][0 := obj.(waiters := [2])] == [Object(obj.kind, [2])];
    assert Register([Object(obj.kind, [2])], 2, [0], 1) == [Object(obj.kind, [2])];
  }

  lemma TickStep(thief: Thread, waiter: Thread, tick: nat, r: Resume, obj: Object, log: seq<Entry>)
    requires thief.state == Sleeping && waiter.state == BlockedWait && tick < waiter.wakeTick < NO_DEADLINE
    requires tick < thief.wakeTick
    ensures Leads(Scene(thief, waiter, tick, 0, Loop, r, obj, log), Schedule,
                  Scene(thief, waiter, tick + 1, 0, Loop, r, obj, log))
  {
    var s := Scene(thief, waiter, tick, 0, Loop, r, obj, log).sched;
    assert Refresh(s.threads, tick) == [thief, waiter];
    Ticks(s, 0);
  }

  lemma WakeStep(form: Form, r: Resume, obj: Object, log: seq<Entry>)
    ensures Leads(Scene(ASLEEP, Waiting(form), 2, 0, Loop, r, obj, log), Schedule,
                  Scene(AWAKE, Waiting(form), 2, 1, Fiber(1), r, obj, log))
  {
    var s := Scene(ASLEEP, Waiting(form), 2, 0, Loop, r, obj, log).sched;
    assert Refresh(s.threads, 2) == [AWAKE, Waiting(form)];
    Picks(s, 0);
  }

  /** Signals on the object's own channel and on the channels of its list wake fiber 2. */
  lemma WakesWaiter(form: Form, units: nat)
    requires units == 1 || (units == 0 && form != Single)
    ensures SignalEach(SignalMany([AWAKE, Waiting(form)], ObjectToken(0), units), Listed(form))
         == [AWAKE, Woken(Waiting(form))]
  {
    var ts, woken := [AWAKE, Waiting(form)], [AWAKE, Woken(Waiting(form))];
    if form == Single {
      assert FirstWaiter(ts, ObjectToken(0), 0) == 1;
      assert SignalMany(ts, ObjectToken(0), 1) == SignalMany(woken, ObjectToken(0), 0) == woken;
    } else {
      assert FirstWaiter(ts, ObjectToken(0), 0) == 2 && SignalOne(ts, ObjectToken(0)) == ts;
      assert SignalMany(ts, ObjectToken(0), 1) == SignalMany(ts, ObjectToken(0), 0) == ts;
      assert FirstWaiter(ts, MultiToken(2), 0) == 1;
      assert [2][0] == 2 && [2][1..] == [];
      assert SignalEach(ts, [2]) == SignalEach(woken, []) == woken;
    }
  }

  lemma GiveStep(sort: Sort, form: Form, log: seq<Entry>)
    requires !(sort == AnEvent && form == Single)
    ensures Leads(Scene(AWAKE, Waiting(form), 2, 1, Fiber(1), InCall(form, 0, 3),
                        Object(Taken(sort), Listed(form)), log),
                  Call(GiveCall(sort)),
                  Scene(AWAKE, Woken(Waiting(form)), 2, 1, Fiber(1), InCall(form, 0, 3), Object(Free(sort), []), log))
  {
    hide SignalEach, SignalMany;
    WakesWaiter(form, if sort == AnEvent then 0 else 1);
    if sort == AnEvent {
      var ts := [AWAKE, Waiting(form)];
      assert FirstWaiter(ts, ObjectToken(0), 0) == 2 && SignalOne(ts, ObjectToken(0)) == ts;
    }
  }

  lemma SecondSleep(form: Form, r: Resume, obj: Object, log: seq<Entry>)
    ensures Leads(Scene(AWAKE, Woken(Waiting(form)), 2, 1, Fiber(1), r, obj, log), Call(SleepFiber(10)),
                  Scene(ASLEEP_AGAIN, Woken(Waiting(form)), 2, 1, Loop, r, obj, log))
    ensures Leads(Scene(ASLEEP_AGAIN, Woken(Waiting(form)), 2, 1, Loop, r, obj, log), Schedule,
                  Scene(ASLEEP_AGAIN, Woken(Waiting(form)), 2, 0, Fiber(2), r, obj, log))
  {
    var s := Scene(ASLEEP_AGAIN, Woken(Waiting(form)), 2, 1, Loop, r, obj, log).sched;
    assert Refresh(s.threads, 2) == [ASLEEP_AGAIN, Woken(Waiting(form))];
    Picks(s, 1);
  }

  /** Fiber 2 finds the object taken and blocks again. */
  lemma LoseStep(sort: Sort, form: Form, log: seq<Entry>)
    requires !(sort == AnEvent && form == Single)
    ensures Leads(Scene(ASLEEP_AGAIN, Woken(Waiting(form)), 2, 0, Fiber(2), InCall(form, 0, 3),
                        Object(Taken(sort), []), log),
                  Continue,
                  Scene(ASLEEP_AGAIN, WaitingAgain(form), 2, 0, Loop, InCall(form, 0, 3),
                        Object(Taken(sort), Listed(form)), log))
  {
    var obj, r := Object(Taken(sort), []), InCall(form, 0, 3);
    Unsatisfied(sort, obj);
    assert Deregister([obj], 2, [0], 1) == [obj];
    assert [obj][0 := obj.(waiters := Without([], 2))] == [obj];
    assert Deregister([obj], 2, [0], 0) == [obj];
    assert [Body, r][1 := Body][1 := r] == [Body, r];
  }

  // ---------------------------------------------------------------------
  // The run

  /** A run whose last state is s, whatever was logged. */
  ghost predicate EndsIn(ss: seq<State>, ls: seq<Label>, s: State) {
    IsRun(ss, ls) && s == ss[|ls|]
  }

  lemma Step(ss: seq<State>, ls: seq<Label>, s: State, l: Label, t: State)
    returns (ss': seq<State>, ls': seq<Label>, log: seq<Entry>)
    requires EndsIn(ss, ls, s) && Leads(s, l, t)
    ensures EndsIn(ss', ls', t.(log := log)) && ss' == ss + [t.(log := log)] && ls' == ls + [l]
  {
    log := Next(s, l).log;
    ExtendRun(ss, ls, l, t.(log := log));
    ss', ls' := ss + [t.(log := log)], ls + [l];
  }

  lemma StartRun()
    ensures EndsIn([BOOT], [], BOOT)
  {
    EmptyRun();
  }

  /** Fiber 1 has taken the object and sleeps; fiber 2 is about to wait. */
  lemma Prelude(sort: Sort) returns (ss: seq<State>, ls: seq<Label>, log: seq<Entry>)
    ensures EndsIn(ss, ls, Scene(ASLEEP, STARTED, 0, 0, Fiber(2), Body, Object(Taken(sort), []), log))
  {
    hide EndsIn, Leads, AfterMake;
    var free, taken := Object(Free(sort), []), Object(Taken(sort), []);
    StartRun();
    HostSteps(sort, 0, []);
    ss, ls, log := Step([BOOT], [], BOOT, Call(MakeCall(sort)), AfterMake(sort, 0, []));
    SameLog(sort, 0, [], log);
    HostSteps(sort, 0, log);
    var log0 := log;
    ss, ls, log := Step(ss, ls, AfterMake(sort, 0, log), Call(SpawnFiber), AfterMake(sort, 1, log));
    SameLog(sort, 1, log0, log);
    HostSteps(sort, 1, log);
    log0 := log;
    ss, ls, log := Step(ss, ls, AfterMake(sort, 1, log), Call(SpawnFiber), AfterMake(sort, 2, log));
    SameLog(sort, 2, log0, log);
    HostSteps(sort, 2, log);
    StartSteps(free, log);
    ss, ls, log := Step(ss, ls, AfterMake(sort, 2, log), Run, Scene(FRESH, FRESH, 0, 0, Loop, Body, free, log));
    StartSteps(free, log);
    ss, ls, log := Step(ss, ls, Scene(FRESH, FRESH, 0, 0, Loop, Body, free, log), Schedule,
                        Scene(STARTED, FRESH, 0, 1, Fiber(1), Body, free, log));
    TakeStep(sort, STARTED, FRESH, 0, 1, Body, log);
    ss, ls, log := Step(ss, ls, Scene(STARTED, FRESH, 0, 1, Fiber(1), Body, free, log), Call(TakeCall(sort)),
                        Scene(STARTED, FRESH, 0, 1, Fiber(1), Body, taken, log));
    FirstSleep(taken, log);
    ss, ls, log := Step(ss, ls, Scene(STARTED, FRESH, 0, 1, Fiber(1), Body, taken, log), Call(SleepFiber(2)),
                        Scene(ASLEEP, FRESH, 0, 1, Loop, Body, taken, log));
    FirstSleep(taken, log);
    ss, ls, log := Step(ss, ls, Scene(ASLEEP, FRESH, 0, 1, Loop, Body, taken, log), Schedule,
                        Scene(ASLEEP, STARTED, 0, 0, Fiber(2), Body, taken, log));
  }

  lemma SameLog(sort: Sort, n: nat, log: seq<Entry>, log': seq<Entry>)
    ensures AfterMake(sort, n, log).(log := log') == AfterMake(sort, n, log')
  {
  }

  /** The run is inside the call that fiber 2 made at step a, at tick 0, and has come to s. */
  ghost predicate InsideSince(ss: seq<State>, ls: seq<Label>, a: nat, sort: Sort, form: Form, s: State) {
    && EndsIn(ss, ls, s) && a < |ls|
    && |ss[a].objs| > 0 && ss[a].objs[0].kind == Taken(sort) && ss[a].sched.tick == 0
    && ss[a].sched.mode == Fiber(2) && ls[a] == Call(WaitCall(form, 0, 3))
    && forall k :: a < k <= |ls| ==> Inside(ss[k], 2, InCall(form, 0, 3))
  }

  lemma StepInside(ss: seq<State>, ls: seq<Label>, a: nat, sort: Sort, form: Form, s: State, l: Label, t: State)
    returns (ss': seq<State>, ls': seq<Label>, log: seq<Entry>)
    requires InsideSince(ss, ls, a, sort, form, s) && Leads(s, l, t) && Inside(t, 2, InCall(form, 0, 3))
    ensures InsideSince(ss', ls', a, sort, form, t.(log := log))
  {
    hide Leads;
    ss', ls', log := Step(ss, ls, s, l, t);
    forall k | a < k <= |ls'| ensures Inside(ss'[k], 2, InCall(form, 0, 3)) {
      if k <= |ls| {
        assert Inside(ss[k], 2, InCall(form, 0, 3));
      }
    }
  }

  lemma EnterWait(sort: Sort, form: Form) returns (ss: seq<State>, ls: seq<Label>, a: nat, log: seq<Entry>)
    ensures InsideSince(ss, ls, a, sort, form,
      Scene(ASLEEP, Waiting(form), 0, 0, Loop, InCall(form, 0, 3), Object(Taken(sort), Listed(form)), log))
  {
    hide Leads;
    var taken := Object(Taken(sort), []);
    ss, ls, log := Prelude(sort);
    a := |ls|;
    WaitStep(sort, form, log);
    ss, ls, log := Step(ss, ls, Scene(ASLEEP, STARTED, 0, 0, Fiber(2), Body, taken, log), Call(WaitCall(form, 0, 3)),
      Scene(ASLEEP, Waiting(form), 0, 0, Loop, InCall(form, 0, 3), Object(Taken(sort), Listed(form)), log));
  }

  /** Two ticks later fiber 1 gives the object back. */
  lemma GiveBack(sort: Sort, form: Form) returns (ss: seq<State>, ls: seq<Label>, a: nat, log: seq<Entry>)
    requires !(sort == AnEvent && form == Single)
    ensures InsideSince(ss, ls, a, sort, form,
      Scene(AWAKE, Woken(Waiting(form)), 2, 1, Fiber(1), InCall(form, 0, 3), Object(Free(sort), []), log))
  {
    hide InsideSince, Leads;
    var r, obj, w := InCall(form, 0, 3), Object(Taken(sort), Listed(form)), Waiting(form);
    ss, ls, a, log := EnterWait(sort, form);
    TickStep(ASLEEP, w, 0, r, obj, log);
    ss, ls, log := StepInside(ss, ls, a, sort, form, Scene(ASLEEP, w, 0, 0, Loop, r, obj, log), Schedule,
                              Scene(ASLEEP, w, 1, 0, Loop, r, obj, log));
    TickStep(ASLEEP, w, 1, r, obj, log);
    ss, ls, log := StepInside(ss, ls, a, sort, form, Scene(ASLEEP, w, 1, 0, Loop, r, obj, log), Schedule,
                              Scene(ASLEEP, w, 2, 0, Loop, r, obj, log));
    WakeStep(form, r, obj, log);
    ss, ls, log := StepInside(ss, ls, a, sort, form, Scene(ASLEEP, w, 2, 0, Loop, r, obj, log), Schedule,
                              Scene(AWAKE, w, 2, 1, Fiber(1), r, obj, log));
    GiveStep(sort, form, log);
    ss, ls, log := StepInside(ss, ls, a, sort, form, Scene(AWAKE, w, 2, 1, Fiber(1), r, obj, log), Call(GiveCall(sort)),
                              Scene(AWAKE, Woken(w), 2, 1, Fiber(1), r, Object(Free(sort), []), log));
  }

  /** Fiber 1 takes it again before fiber 2 runs, and fiber 2 blocks again at tick 2. */
  lemma TakeAgain(sort: Sort, form: Form) returns (ss: seq<State>, ls: seq<Label>, a: nat, log: seq<Entry>)
    requires !(sort == AnEvent && form == Single)
    ensures InsideSince(ss, ls, a, sort, form,
      Scene(ASLEEP_AGAIN, WaitingAgain(form), 2, 0, Loop, InCall(form, 0, 3), Object(Taken(sort), Listed(form)), log))
  {
    hide InsideSince, Leads;
    var r, taken, w := InCall(form, 0, 3), Object(Taken(sort), []), Woken(Waiting(form));
    ss, ls, a, log := GiveBack(sort, form);
    TakeStep(sort, AWAKE, w, 2, 1, r, log);
    ss, ls, log := StepInside(ss, ls, a, sort, form, Scene(AWAKE, w, 2, 1, Fiber(1), r, Object(Free(sort), []), log),
                              Call(TakeCall(sort)), Scene(AWAKE, w, 2, 1, Fiber(1), r, taken, log));
    SecondSleep(form, r, taken, log);
    ss, ls, log := StepInside(ss, ls, a, sort, form, Scene(AWAKE, w, 2, 1, Fiber(1), r, taken, log),
                              Call(SleepFiber(10)), Scene(ASLEEP_AGAIN, w, 2, 1, Loop, r, taken, log));
    SecondSleep(form, r, taken, log);
    ss, ls, log := StepInside(ss, ls, a, sort, form, Scene(ASLEEP_AGAIN, w, 2, 1, Loop, r, taken, log), Schedule,
                              Scene(ASLEEP_AGAIN, w, 2, 0, Fiber(2), r, taken, log));
    LoseStep(sort, form, log);
    ss, ls, log := StepInside(ss, ls, a, sort, form, Scene(ASLEEP_AGAIN, w, 2, 0, Fiber(2), r, taken, log), Continue,
      Scene(ASLEEP_AGAIN, WaitingAgain(form), 2, 0, Loop, r, Object(Taken(sort), Listed(form)), log));
  }

  /** A run in which fiber 2 is still in its wait of 3 ticks when 4 have passed. */
  lemma WaitOutlivesItsTimeout(sort: Sort, form: Form) returns (ss: seq<State>, ls: seq<Label>, a: nat)
    requires !(sort == AnEvent && form == Single)
    ensures a < |ls| && Outlives(ss, ls, 2, a, |ls|, sort, form, 0, 3)
  {
    hide Leads;
    var r, obj, w := InCall(form, 0, 3), Object(Taken(sort), Listed(form)), WaitingAgain(form);
    var log: seq<Entry>;
    ss, ls, a, log := TakeAgain(sort, form);
    TickStep(ASLEEP_AGAIN, w, 2, r, obj, log);
    ss, ls, log := StepInside(ss, ls, a, sort, form, Scene(ASLEEP_AGAIN, w, 2, 0, Loop, r, obj, log), Schedule,
                              Scene(ASLEEP_AGAIN, w, 3, 0, Loop, r, obj, log));
    TickStep(ASLEEP_AGAIN, w, 3, r, obj, log);
    ss, ls, log := StepInside(ss, ls, a, sort, form, Scene(ASLEEP_AGAIN, w, 3, 0, Loop, r, obj, log), Schedule,
                              Scene(ASLEEP_AGAIN, w, 4, 0, Loop, r, obj, log));
  }

  /** A timed wait can outlive its timeout in some run exactly when it is not a wait on one event. */
  lemma OutlivesExactly(sort: Sort, form: Form)
    ensures (exists ss, ls, h, a, b, o, n :: Outlives(ss, ls, h, a, b, sort, form, o, n))
       <==> !(sort == AnEvent && form == Single)
  {
    hide Outlives;
    if sort == AnEvent && form == Single {
      forall ss, ls, h, a, b, o, n ensures !Outlives(ss, ls, h, a, b, sort, form, o, n) {
        EventWaitIsNeverLate(ss, ls, h, a, b, o, n);
      }
    } else {
      var ss, ls, a := WaitOutlivesItsTimeout(sort, form);
      assert Outlives(ss, ls, 2, a, |ls|, sort, form, 0, 3);
    }
  }
}
