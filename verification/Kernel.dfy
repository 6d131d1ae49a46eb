/**
 The kernel's waitable objects, multi-object waits and critical sections
 (src/xbox_krnl.cpp), over the fiber scheduler.

 A kernel call runs atomically up to the point where it blocks. What remains of
 the call when its fiber is switched in again is kept as a `Resume` value, which
 stands for the machine context saved by swapcontext. Thread tokens
 (PKTHREAD) are identified with the fiber's scheduler handle; 0 is the host.
 */
module Kernel {
  import opened Scheduler

  const STATUS_SUCCESS: nat := 0
  const STATUS_ABANDONED: nat := 0x80
  const STATUS_TIMEOUT: nat := 0x102
  const STATUS_INVALID_PARAMETER: nat := 0xC000_000D

  const MAX_WAIT_OBJECTS: nat := 64

  /** `Closed` is a slot freed by NtClose. Other objects keep their constructor for life. */
  datatype Kind =
    | Event(notify: bool, signaled: bool)
    | Mutant(signalState: int, owner: nat, abandoned: bool)
    | Semaphore(count: int, limit: int)
    | Closed

  /** `waiters` is mw_waiters: the fibers registered by a multi-object wait. */
  datatype Object = Object(kind: Kind, waiters: seq<nat>)

  /** RTL_CRITICAL_SECTION, as the three words the calls read and write. */
  datatype Section = Section(lockCount: int, recursion: int, owner: nat)

  datatype Resume =
    | Body
    | InWait(obj: nat, timeout: nat)
    | InMulti(objs: seq<nat>, all: bool, timeout: nat)
    | InSection(va: nat)
    | InDelay

  /** History: what the calls did, in order. Nothing below reads it back. */
  datatype Entry =
    | Created(obj: nat, kind: Kind)
    | Acquired(obj: nat, handle: nat)
    | Released(obj: nat, units: int)
    | Abandoned(obj: nat, handle: nat)
    | WasSet(obj: nat, found: bool)
    | WasCleared(obj: nat, found: bool)
    | WasPulsed(obj: nat, woken: bool, found: bool)
    | Entered(va: nat, handle: nat)
    | Left(va: nat, handle: nat)
    | Initialized(va: nat)
    | Returned(handle: nat, status: nat)

  /**
   `sections` holds the words of every critical section in readable guest memory,
   whatever wrote them; an address outside it cannot be read.
   */
  datatype State = State(
    sched: Sched,
    resume: seq<Resume>,
    objs: seq<Object>,
    sections: map<nat, Section>,
    log: seq<Entry>)

  const BOOT: State := State(EMPTY, [], [], map[], [])

  /** The calling fiber's handle, or 0 for the host. */
  predicate Caller(s: State, h: nat) {
    && |s.resume| == |s.sched.threads|
    && ((h == 0 && s.sched.mode == Host) || Current(s.sched, h))
  }

  function Note(s: State, e: Entry): State {
    s.(log := s.log + [e])
  }

  function Return(s: State, h: nat, status: nat): State {
    Note(s, Returned(h, status))
  }

  function WithThreads(s: State, ts: seq<Thread>): State {
    s.(sched := s.sched.(threads := ts))
  }

  function WithKind(s: State, o: nat, k: Kind): State
    requires o < |s.objs|
  {
    s.(objs := s.objs[o := s.objs[o].(kind := k)])
  }

  // ---------------------------------------------------------------------
  // dispatcher_satisfied, dispatcher_acquire, wake_object

  predicate Satisfied(k: Kind, h: nat) {
    match k
    case Event(_, signaled) => signaled
    case Mutant(signalState, owner, _) => signalState > 0 || (owner != 0 && owner == h)
    case Semaphore(count, _) => count > 0
    case Closed => false
  }

  function Acquire(k: Kind, h: nat): (Kind, nat) {
    match k
    case Event(notify, signaled) => (Event(notify, notify && signaled), STATUS_SUCCESS)
    case Mutant(signalState, owner, abandoned) =>
      if h == 0 then (k, STATUS_INVALID_PARAMETER)
      else (Mutant(signalState - 1, h, false), if abandoned then STATUS_ABANDONED else STATUS_SUCCESS)
    case Semaphore(count, limit) => (Semaphore(count - 1, limit), STATUS_SUCCESS)
    case Closed => (k, STATUS_SUCCESS)
  }

  /** dispatcher_acquire on object o by caller h. */
  function AcquireObject(s: State, h: nat, o: nat): State
    requires o < |s.objs|
  {
    var (k, status) := Acquire(s.objs[o].kind, h);
    if status == STATUS_INVALID_PARAMETER then s
    else Note(WithKind(s, o, k), Acquired(o, h))
  }

  /** wake_object: up to `units` single waiters, then every registered multi-object waiter. */
  function WakeObject(s: State, o: nat, units: nat): State
    requires o < |s.objs|
  {
    var ts := SignalEach(SignalMany(s.sched.threads, ObjectToken(o), units), s.objs[o].waiters);
    WithThreads(s, ts).(objs := s.objs[o := s.objs[o].(waiters := [])])
  }

  // ---------------------------------------------------------------------
  // Waits. Each function is the code from an evaluation point to the next
  // return or block.

  function BlockIn(s: State, h: nat, token: Token, timeout: nat, r: Resume): State
    requires Caller(s, h) && h != 0
  {
    s.(sched := Block(s.sched, h, token, timeout), resume := s.resume[h - 1 := r])
  }

  /** The loop body of wait_dispatch. */
  function EvalOne(s: State, h: nat, o: nat, immediate: bool, timeout: nat): State
    requires Caller(s, h) && o < |s.objs|
  {
    var k := s.objs[o].kind;
    if Satisfied(k, h) then Return(AcquireObject(s, h, o), h, Acquire(k, h).1)
    else if immediate then Return(s, h, STATUS_TIMEOUT)
    else if h == 0 then Return(s, h, STATUS_INVALID_PARAMETER)
    else BlockIn(s, h, ObjectToken(o), timeout, InWait(o, timeout))
  }

  function Unwind(s: State, h: nat): State
    requires Caller(s, h) && h != 0
  {
    s.(resume := s.resume[h - 1 := Body])
  }

  /** wait_dispatch after block_current returned. */
  function ResumeOne(s: State, h: nat): State
    requires Caller(s, h) && h != 0
    requires s.resume[h - 1].InWait? && s.resume[h - 1].obj < |s.objs|
  {
    var InWait(o, timeout) := s.resume[h - 1];
    if s.sched.threads[h - 1].timedOut then Return(Unwind(s, h), h, STATUS_TIMEOUT)
    else if s.objs[o].kind.Event? then Return(Note(Unwind(s, h), Acquired(o, h)), h, STATUS_SUCCESS)
    else EvalOne(Unwind(s, h), h, o, false, timeout)
  }

  predicate InTable(s: State, targets: seq<nat>) {
    forall i :: 0 <= i < |targets| ==> targets[i] < |s.objs|
  }

  predicate AllSatisfied(s: State, h: nat, targets: seq<nat>)
    requires InTable(s, targets)
  {
    forall i :: 0 <= i < |targets| ==> Satisfied(s.objs[targets[i]].kind, h)
  }

  /** The first satisfied position of the set at or after `from`, or its length. */
  function FirstSatisfied(s: State, h: nat, targets: seq<nat>, from: nat): (i: nat)
    requires InTable(s, targets) && from <= |targets|
    ensures from <= i <= |targets|
    ensures i < |targets| ==> Satisfied(s.objs[targets[i]].kind, h)
    ensures forall j :: from <= j < i ==> !Satisfied(s.objs[targets[j]].kind, h)
    decreases |targets| - from
  {
    if from == |targets| || Satisfied(s.objs[targets[from]].kind, h) then from
    else FirstSatisfied(s, h, targets, from + 1)
  }

  /** Acquires targets[from..] in order; `worst` is the status accumulated so far. */
  function AcquireAll(s: State, h: nat, targets: seq<nat>, from: nat, worst: nat): (r: (State, nat))
    requires InTable(s, targets) && from <= |targets|
    ensures |r.0.objs| == |s.objs|
    decreases |targets| - from
  {
    if from == |targets| then (s, worst)
    else
      var status := Acquire(s.objs[targets[from]].kind, h).1;
      var worst' := if status != STATUS_SUCCESS && worst == STATUS_SUCCESS then STATUS_ABANDONED + from else worst;
      AcquireAll(AcquireObject(s, h, targets[from]), h, targets, from + 1, worst')
  }

  /** Pushes h on the mw_waiters list of every object of targets[from..] that is not satisfied. */
  function Register(objs: seq<Object>, h: nat, targets: seq<nat>, from: nat): (r: seq<Object>)
    requires from <= |targets| && forall i :: 0 <= i < |targets| ==> targets[i] < |objs|
    ensures |r| == |objs|
    decreases |targets| - from
  {
    if from == |targets| then objs
    else
      var o := targets[from];
      var objs' := if Satisfied(objs[o].kind, h) then objs
                   else objs[o := objs[o].(waiters := objs[o].waiters + [h])];
      Register(objs', h, targets, from + 1)
  }

  /** The list without any occurrence of h. */
  function Without(w: seq<nat>, h: nat): (r: seq<nat>)
    ensures forall x :: x in r <==> x in w && x != h
  {
    if w == [] then [] else if w[0] == h then Without(w[1..], h) else [w[0]] + Without(w[1..], h)
  }

  /** Erases h from the mw_waiters lists of targets[from..]. */
  function Deregister(objs: seq<Object>, h: nat, targets: seq<nat>, from: nat): (r: seq<Object>)
    requires from <= |targets| && forall i :: 0 <= i < |targets| ==> targets[i] < |objs|
    ensures |r| == |objs|
    decreases |targets| - from
  {
    if from == |targets| then objs
    else
      var o := targets[from];
      Deregister(objs[o := objs[o].(waiters := Without(objs[o].waiters, h))], h, targets, from + 1)
  }

  /** The loop body of wait_multiple, up to the block. */
  function EvalMany(s: State, h: nat, targets: seq<nat>, all: bool, immediate: bool, timeout: nat): State
    requires Caller(s, h) && InTable(s, targets)
  {
    var first := FirstSatisfied(s, h, targets, 0);
    if all && AllSatisfied(s, h, targets) then
      var (s', worst) := AcquireAll(s, h, targets, 0, STATUS_SUCCESS);
      Return(s', h, worst)
    else if !all && first < |targets| then
      var status := Acquire(s.objs[targets[first]].kind, h).1;
      Return(AcquireObject(s, h, targets[first]), h,
             if status == STATUS_ABANDONED then STATUS_ABANDONED + first else first)
    else if immediate then Return(s, h, STATUS_TIMEOUT)
    else if h == 0 then Return(s, h, STATUS_INVALID_PARAMETER)
    else
      BlockIn(s.(objs := Register(s.objs, h, targets, 0)), h, MultiToken(h), timeout, InMulti(targets, all, timeout))
  }

  /** wait_multiple after block_current returned: deregister, then time out or evaluate again. */
  function ResumeMany(s: State, h: nat): State
    requires Caller(s, h) && h != 0
    requires s.resume[h - 1].InMulti? && InTable(s, s.resume[h - 1].objs)
  {
    var InMulti(targets, all, timeout) := s.resume[h - 1];
    var s' := Unwind(s, h).(objs := Deregister(s.objs, h, targets, 0));
    if s.sched.threads[h - 1].timedOut then Return(s', h, STATUS_TIMEOUT)
    else EvalMany(s', h, targets, all, false, timeout)
  }

  // ---------------------------------------------------------------------
  // Signalling calls

  predicate Has(s: State, o: nat) {
    o < |s.objs| && !s.objs[o].kind.Closed?
  }

  predicate HasEvent(s: State, o: nat) { o < |s.objs| && s.objs[o].kind.Event? }
  predicate HasMutant(s: State, o: nat) { o < |s.objs| && s.objs[o].kind.Mutant? }
  predicate HasSemaphore(s: State, o: nat) { o < |s.objs| && s.objs[o].kind.Semaphore? }

  /** ke_set_event. */
  function SetEvent(s: State, o: nat): State
    requires HasEvent(s, o)
  {
    var Event(notify, found) := s.objs[o].kind;
    var ts := s.sched.threads;
    var s' :=
      if notify then WithKind(WithThreads(s, SignalAll(ts, ObjectToken(o))), o, Event(true, true))
      else WithKind(WithThreads(s, SignalOne(ts, ObjectToken(o))), o, Event(false, !HasWaiter(ts, ObjectToken(o))));
    Note(WakeObject(s', o, 0), WasSet(o, found))
  }

  /** ke_reset_event and NtClearEvent. */
  function ResetEvent(s: State, o: nat): State
    requires HasEvent(s, o)
  {
    var Event(notify, found) := s.objs[o].kind;
    Note(WithKind(s, o, Event(notify, false)), WasCleared(o, found))
  }

  /** NtPulseEvent. */
  function PulseEvent(s: State, o: nat): State
    requires HasEvent(s, o)
  {
    var Event(notify, found) := s.objs[o].kind;
    var ts := s.sched.threads;
    var ts' := if notify then SignalAll(ts, ObjectToken(o)) else SignalOne(ts, ObjectToken(o));
    Note(WakeObject(WithKind(WithThreads(s, ts'), o, Event(notify, false)), o, 0),
         WasPulsed(o, HasWaiter(ts, ObjectToken(o)), found))
  }

  /** The common part of NtReleaseMutant and KeReleaseMutant. */
  function ReleaseMutant(s: State, o: nat): State
    requires HasMutant(s, o)
  {
    var Mutant(signalState, owner, abandoned) := s.objs[o].kind;
    Note(
      if signalState + 1 > 0 then WakeObject(WithKind(s, o, Mutant(signalState + 1, 0, abandoned)), o, 1)
      else WithKind(s, o, Mutant(signalState + 1, owner, abandoned)),
      Released(o, 1))
  }

  /** min(adjustment, new count) converted to uint32_t, as the release calls compute it. */
  function WakeUnits(adjustment: int, count: int): (units: nat)
    requires 0 < adjustment < 0x8000_0000 && -0x8000_0000 <= count
  {
    var m := if adjustment < count then adjustment else count;
    if m < 0 then m + 0x1_0000_0000 else m
  }

  predicate ReleaseFits(k: Kind, adjustment: int) {
    k.Semaphore? && 0 < adjustment < 0x8000_0000 && -0x8000_0000 <= k.count <= k.limit - adjustment
  }

  /** NtReleaseSemaphore and KeReleaseSemaphore, past their checks. */
  function ReleaseSemaphore(s: State, o: nat, adjustment: int): State
    requires o < |s.objs| && ReleaseFits(s.objs[o].kind, adjustment)
  {
    var Semaphore(count, limit) := s.objs[o].kind;
    Note(WakeObject(WithKind(s, o, Semaphore(count + adjustment, limit)), o, WakeUnits(adjustment, count + adjustment)),
         Released(o, adjustment))
  }

  /** finish_thread_object: object o is abandoned if the dying fiber owns it. */
  function AbandonObject(s: State, h: nat, o: nat): (r: State)
    requires o < |s.objs|
    ensures |r.objs| == |s.objs|
  {
    var k := s.objs[o].kind;
    if k.Mutant? && k.owner == h then
      Note(WakeObject(WithKind(s, o, Mutant(1, 0, true)), o, 1), Abandoned(o, h))
    else s
  }

  function AbandonFrom(s: State, h: nat, from: nat): State
    requires from <= |s.objs|
    decreases |s.objs| - from
  {
    if from == |s.objs| then s else AbandonFrom(AbandonObject(s, h, from), h, from + 1)
  }

  /** thread_finish with the kernel's finish hook. */
  function Exit(s: State, h: nat): State
    requires Caller(s, h) && h != 0
  {
    AbandonFrom(s.(sched := Finish(s.sched, h)), h, 0)
  }

  // ---------------------------------------------------------------------
  // Critical sections

  /** The loop body of RtlEnterCriticalSection. */
  function EnterSection(s: State, h: nat, va: nat): State
    requires Caller(s, h)
  {
    if va !in s.sections then Return(s, h, STATUS_INVALID_PARAMETER)
    else
      var Section(lockCount, recursion, owner) := s.sections[va];
      if owner == h && h != 0 then
        Note(s.(sections := s.sections[va := Section(lockCount, recursion + 1, owner)]), Entered(va, h))
      else if owner == 0 then
        Note(s.(sections := s.sections[va := Section(lockCount, 1, h)]), Entered(va, h))
      else if h == 0 then Return(s, h, STATUS_INVALID_PARAMETER)
      else
        BlockIn(s.(sections := s.sections[va := Section(lockCount + 1, recursion, owner)]), h,
                SectionToken(va), NO_TIMEOUT, InSection(va))
  }

  function LeaveSection(s: State, h: nat, va: nat): State {
    if va !in s.sections || s.sections[va].owner != h then Return(s, h, STATUS_INVALID_PARAMETER)
    else
      var Section(lockCount, recursion, owner) := s.sections[va];
      var s' :=
        if recursion > 1 then s.(sections := s.sections[va := Section(lockCount, recursion - 1, owner)])
        else if lockCount >= 0 then
          WithThreads(s, SignalOne(s.sched.threads, SectionToken(va)))
          .(sections := s.sections[va := Section(lockCount - 1, 0, 0)])
        else s.(sections := s.sections[va := Section(lockCount, 0, 0)]);
      Note(s', Left(va, h))
  }

  function TryEnterSection(s: State, h: nat, va: nat): State {
    if va in s.sections && ((s.sections[va].owner == h && h != 0) || s.sections[va].owner == 0) then
      var Section(lockCount, recursion, owner) := s.sections[va];
      var recursion' := if owner == h && h != 0 then recursion + 1 else 1;
      Note(s.(sections := s.sections[va := Section(lockCount, recursion', h)]), Entered(va, h))
    else Return(s, h, 0)
  }

  // ---------------------------------------------------------------------
  // The transition system

  datatype Call =
    | CreateEvent(notify: bool, signaled: bool)
    | CreateMutant(initialOwner: bool)
    | NtCreateSemaphore(count: int, limit: int)
    | KeInitializeSemaphore(count: int, limit: int)
    | ReinitializeEvent(obj: nat, notify: bool, signaled: bool)
    | CallSetEvent(obj: nat)
    | CallResetEvent(obj: nat)
    | CallPulseEvent(obj: nat)
    | NtReleaseMutant(obj: nat)
    | KeReleaseMutant(obj: nat)
    | CallReleaseSemaphore(obj: nat, adjustment: int)
    | WaitOne(obj: nat, immediate: bool, timeout: nat)
    | WaitMany(objs: seq<nat>, all: bool, immediate: bool, timeout: nat)
    | Close(obj: nat)
    | InitSection(va: nat)
    | Enter(va: nat)
    | Leave(va: nat)
    | TryEnter(va: nat)
    | Delay(ticks: nat)
    | SpawnFiber
    | YieldFiber
    | SleepFiber(sleepTicks: nat)
    | JoinFiber(target: nat)
    | ExitFiber

  function Add(s: State, k: Kind): State {
    Note(s.(objs := s.objs + [Object(k, [])]), Created(|s.objs|, k))
  }

  function Reject(s: State, h: nat): State {
    Return(s, h, STATUS_INVALID_PARAMETER)
  }

  /** One kernel or scheduler call by caller h, up to its return or its first block. */
  function Apply(s: State, h: nat, c: Call): State
    requires Caller(s, h)
  {
    match c
    case CreateEvent(notify, signaled) => Add(s, Event(notify, signaled))
    case CreateMutant(initialOwner) =>
      if !initialOwner then Add(s, Mutant(1, 0, false))
      else if h == 0 then Reject(s, h)
      else Add(s, Mutant(0, h, false))
    case NtCreateSemaphore(count, limit) =>
      if limit <= 0 || count < 0 || count > limit then Reject(s, h) else Add(s, Semaphore(count, limit))
    case KeInitializeSemaphore(count, limit) => Add(s, Semaphore(count, limit))
    case ReinitializeEvent(o, notify, signaled) =>
      if HasEvent(s, o) then Note(WithKind(s, o, Event(notify, signaled)), Created(o, Event(notify, signaled)))
      else Reject(s, h)
    case CallSetEvent(o) => if HasEvent(s, o) then SetEvent(s, o) else Reject(s, h)
    case CallResetEvent(o) => if HasEvent(s, o) then ResetEvent(s, o) else Reject(s, h)
    case CallPulseEvent(o) => if HasEvent(s, o) then PulseEvent(s, o) else Reject(s, h)
    case NtReleaseMutant(o) =>
      if HasMutant(s, o) && s.objs[o].kind.owner != 0 && s.objs[o].kind.owner == h then ReleaseMutant(s, o)
      else Reject(s, h)
    case KeReleaseMutant(o) => if HasMutant(s, o) then ReleaseMutant(s, o) else Reject(s, h)
    case CallReleaseSemaphore(o, adjustment) =>
      if HasSemaphore(s, o) && ReleaseFits(s.objs[o].kind, adjustment) then ReleaseSemaphore(s, o, adjustment)
      else Reject(s, h)
    case WaitOne(o, immediate, timeout) => if Has(s, o) then EvalOne(s, h, o, immediate, timeout) else Reject(s, h)
    case WaitMany(targets, all, immediate, timeout) =>
      if 0 < |targets| <= MAX_WAIT_OBJECTS && forall i :: 0 <= i < |targets| ==> Has(s, targets[i])
      then EvalMany(s, h, targets, all, immediate, timeout)
      else Reject(s, h)
    case Close(o) =>
      if Has(s, o) then s.(objs := s.objs[o := Object(Closed, [])]) else Reject(s, h)
    case InitSection(va) => Note(s.(sections := s.sections[va := Section(-1, 0, 0)]), Initialized(va))
    case Enter(va) => EnterSection(s, h, va)
    case Leave(va) => LeaveSection(s, h, va)
    case TryEnter(va) => TryEnterSection(s, h, va)
    case Delay(ticks) =>
      if ticks == 0 then Return(s, h, STATUS_SUCCESS)
      else if h == 0 then Reject(s, h)
      else BlockIn(s, h, DelayToken, ticks, InDelay)
    case SpawnFiber => s.(sched := Spawn(s.sched), resume := s.resume + [Body])
    case YieldFiber => if h == 0 then s else s.(sched := Yield(s.sched, h))
    case SleepFiber(ticks) => if h == 0 then s else s.(sched := Sleep(s.sched, h, ticks))
    case JoinFiber(target) => if h == 0 then s else s.(sched := Join(s.sched, h, target))
    case ExitFiber => if h == 0 then s else Exit(s, h)
  }

  /** The rest of the call in which fiber h was blocked. */
  function ApplyResume(s: State, h: nat): State
    requires Caller(s, h) && h != 0 && s.resume[h - 1] != Body
    requires s.resume[h - 1].InWait? ==> s.resume[h - 1].obj < |s.objs|
    requires s.resume[h - 1].InMulti? ==> InTable(s, s.resume[h - 1].objs)
  {
    match s.resume[h - 1]
    case InWait(_, _) => ResumeOne(s, h)
    case InMulti(_, _, _) => ResumeMany(s, h)
    case InSection(va) => EnterSection(Unwind(s, h), h, va)
    case InDelay => Return(Unwind(s, h), h, STATUS_SUCCESS)
  }

  /** The wait's resume point names only objects of the table. */
  predicate ResumeInTable(s: State, h: nat)
    requires 1 <= h <= |s.resume|
  {
    match s.resume[h - 1]
    case InWait(o, _) => o < |s.objs|
    case InMulti(targets, _, _) => InTable(s, targets)
    case _ => true
  }

  /** Every timeout the caller passes stays clear of the 64-bit sentinel. */
  predicate TimesFit(s: State, c: Call) {
    match c
    case WaitOne(_, _, timeout) => DeadlineFits(s.sched, timeout)
    case WaitMany(_, _, _, timeout) => DeadlineFits(s.sched, timeout)
    case Delay(ticks) => DeadlineFits(s.sched, ticks)
    case SleepFiber(ticks) => DeadlineFits(s.sched, ticks)
    case _ => true
  }
}
