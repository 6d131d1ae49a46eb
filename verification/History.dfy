/**
 What the objects' fields mean: each is determined by the history of calls. The
 accounts below are computed from the log alone and never look at the objects.
 */
module History {
  import opened Scheduler
  import opened Kernel
  import opened WaitInvariant
  import opened WaitProofs
  import opened WaitSteps

  /**
   The account of one object.
   `held`: acquisitions minus releases since the object was last free.
   `holder`: the handle that made those acquisitions, 0 when there are none.
   `exclusive`: no handle ever acquired while another one held, or died holding what it did not hold.
   `byDeath`: the last change from held to free was the death of the holder.
   `units`: what was put in minus what was taken out. A semaphore starts with its
   initial count and gains the released units; an event gains one unit for a set that
   found it reset and for a pulse that woke a waiter, and loses one for a clear or pulse
   that found it set; every successful wait takes one unit.
   */
  datatype Account = Account(held: int, holder: nat, exclusive: bool, byDeath: bool, units: int)

  const NO_ACCOUNT: Account := Account(0, 0, true, false, 0)

  function Bit(b: bool): int { if b then 1 else 0 }

  function Subject(e: Entry): int {
    match e
    case Created(o, _) => o
    case Acquired(o, _) => o
    case Released(o, _) => o
    case Abandoned(o, _) => o
    case WasSet(o, _) => o
    case WasCleared(o, _) => o
    case WasPulsed(o, _, _) => o
    case _ => -1
  }

  function Post(a: Account, e: Entry): Account {
    match e
    case Created(_, Mutant(signalState, owner, _)) => Account(1 - signalState, owner, true, false, 0)
    case Created(_, Semaphore(count, _)) => Account(0, 0, true, false, count)
    case Created(_, Event(_, signaled)) => Account(0, 0, true, false, Bit(signaled))
    case Acquired(_, h) =>
      a.(held := a.held + 1, holder := h, units := a.units - 1,
         exclusive := a.exclusive && (a.held <= 0 || a.holder == h))
    case Released(_, n) =>
      if a.held > 0 && a.held - n <= 0 then a.(held := a.held - n, holder := 0, byDeath := false, units := a.units + n)
      else a.(held := a.held - n, units := a.units + n)
    case Abandoned(_, h) => a.(held := 0, holder := 0, exclusive := a.exclusive && a.holder == h, byDeath := true)
    case WasSet(_, found) => a.(units := a.units + 1 - Bit(found))
    case WasCleared(_, found) => a.(units := a.units - Bit(found))
    case WasPulsed(_, woken, found) => a.(units := a.units + Bit(woken) - Bit(found))
    case _ => a
  }

  function AccountOf(log: seq<Entry>, o: nat): Account {
    if log == [] then NO_ACCOUNT
    else
      var a, e := AccountOf(log[..|log| - 1], o), log[|log| - 1];
      if Subject(e) == o then Post(a, e) else a
  }

  lemma AccountNote(log: seq<Entry>, e: Entry, o: nat)
    ensures AccountOf(log + [e], o) == if Subject(e) == o then Post(AccountOf(log, o), e) else AccountOf(log, o)
  {
    assert (log + [e])[..|log|] == log;
  }

  /** The account of a critical section: entries minus leaves, and by whom. */
  datatype Tenancy = Tenancy(depth: int, tenant: nat, exclusive: bool)

  function SectionSubject(e: Entry): int {
    match e
    case Initialized(va) => va
    case Entered(va, _) => va
    case Left(va, _) => va
    case _ => -1
  }

  function PostSection(t: Tenancy, e: Entry): Tenancy {
    match e
    case Entered(_, h) => Tenancy(t.depth + 1, h, t.exclusive && (t.depth <= 0 || t.tenant == h))
    case Left(_, h) => Tenancy(t.depth - 1, if t.depth - 1 <= 0 then 0 else t.tenant, t.exclusive && t.tenant == h)
    case _ => Tenancy(0, 0, true)
  }

  function TenancyOf(log: seq<Entry>, va: nat): Tenancy {
    if log == [] then Tenancy(0, 0, true)
    else
      var t, e := TenancyOf(log[..|log| - 1], va), log[|log| - 1];
      if SectionSubject(e) == va then PostSection(t, e) else t
  }

  lemma TenancyNote(log: seq<Entry>, e: Entry, va: nat)
    ensures TenancyOf(log + [e], va)
         == if SectionSubject(e) == va then PostSection(TenancyOf(log, va), e) else TenancyOf(log, va)
  {
    assert (log + [e])[..|log|] == log;
  }

  // ---------------------------------------------------------------------
  // The objects agree with their accounts

  predicate Alive(ts: seq<Thread>, h: nat) {
    1 <= h <= |ts| && ts[h - 1].state != Finished
  }

  /**
   Object o agrees with its account. `dying` is a fiber whose mutants are being
   abandoned, and 0 otherwise.
   */
  predicate Agrees(s: State, o: nat, dying: nat)
    requires o < |s.objs| && |s.resume| == |s.sched.threads|
  {
    var a := AccountOf(s.log, o);
    match s.objs[o].kind
    case Mutant(signalState, owner, abandoned) =>
      && signalState == 1 - a.held <= 1
      && owner == a.holder && a.exclusive
      && (owner == 0 <==> signalState == 1)
      && (owner != 0 ==> Alive(s.sched.threads, owner) || owner == dying)
      && (abandoned <==> owner == 0 && a.byDeath)
    case Semaphore(count, limit) => count == a.units && 0 <= count <= limit
    case Event(notify, signaled) =>
      !notify ==> a.units == |Pending(s.sched.threads, s.resume, o)| + Bit(signaled)
    case Closed => true
  }

  predicate SectionAgrees(s: State, va: nat)
    requires va in s.sections
  {
    var t, c := TenancyOf(s.log, va), s.sections[va];
    c.recursion == t.depth && c.owner == t.tenant && t.exclusive
  }

  ghost predicate Books(s: State, dying: nat) {
    && |s.resume| == |s.sched.threads|
    && (forall o :: 0 <= o < |s.objs| ==> Agrees(s, o, dying))
    && (forall va :: va in s.sections ==> SectionAgrees(s, va))
  }

  // ---------------------------------------------------------------------
  // Framing

  /** Nothing that o's agreement depends on has changed. */
  lemma AgreesFrame(s: State, s': State, o: nat, dying: nat)
    requires |s.resume| == |s.sched.threads| <= |s'.sched.threads| == |s'.resume|
    requires o < |s.objs| && o < |s'.objs| && s'.objs[o].kind == s.objs[o].kind
    requires AccountOf(s'.log, o) == AccountOf(s.log, o)
    requires s.objs[o].kind.Event? ==> Pending(s'.sched.threads, s'.resume, o) == Pending(s.sched.threads, s.resume, o)
    requires forall i :: 0 <= i < |s.sched.threads| && s'.sched.threads[i].state == Finished ==>
               s.sched.threads[i].state == Finished || i == dying - 1
    requires Agrees(s, o, dying)
    ensures Agrees(s', o, dying)
  {
  }

  /** Waking waiters of other channels leaves the pending set of o alone. */
  lemma WakesPending(ts: seq<Thread>, ts': seq<Thread>, rs: seq<Resume>, o: nat)
    requires ThreadsOk(ts, rs) && Wakes(ts, ts')
    requires forall i :: 0 <= i < |ts| && ts[i].token == ObjectToken(o) ==> ts'[i] == ts[i]
    ensures Pending(ts', rs, o) == Pending(ts, rs, o)
  {
    forall i | 0 <= i < |ts| ensures IsPending(ts'[i], rs[i], o) == IsPending(ts[i], rs[i], o) {
      assert ThreadOk(ts[i], rs[i], i + 1);
    }
    PendingFrame(ts, ts', rs, rs, o);
  }

  /** One entry about object o and a new kind for o: the rest of the books stay as they are. */
  lemma NoteFrames(s: State, s': State, o: nat, e: Entry, dying: nat)
    requires |s.resume| == |s.sched.threads| == |s'.sched.threads| == |s'.resume| && |s'.objs| == |s.objs|
    requires Books(s, dying) && s'.log == s.log + [e] && Subject(e) == o && s'.sections == s.sections
    requires forall o' :: 0 <= o' < |s.objs| && o' != o ==> s'.objs[o'].kind == s.objs[o'].kind
    requires forall o' :: 0 <= o' < |s.objs| && o' != o && s.objs[o'].kind.Event? ==>
               Pending(s'.sched.threads, s'.resume, o') == Pending(s.sched.threads, s.resume, o')
    requires forall i :: 0 <= i < |s.sched.threads| && s'.sched.threads[i].state == Finished ==>
      s.sched.threads[i].state == Finished
    requires o < |s.objs| ==> Agrees(s', o, dying)
    ensures Books(s', dying)
  {
    forall o' | 0 <= o' < |s'.objs| ensures Agrees(s', o', dying) {
      if o' != o {
        AccountNote(s.log, e, o');
        AgreesFrame(s, s', o', dying);
      }
    }
    forall va | va in s'.sections ensures SectionAgrees(s', va) {
      assert SectionAgrees(s, va);
      TenancyNote(s.log, e, va);
    }
  }

  /** Entries about no object and no section: returns. */
  lemma ReturnKeepsBooks(s: State, h: nat, status: nat, dying: nat)
    requires |s.resume| == |s.sched.threads| && Books(s, dying)
    ensures Books(Return(s, h, status), dying)
  {
    forall o | 0 <= o < |s.objs| ensures Agrees(Return(s, h, status), o, dying) {
      AccountNote(s.log, Returned(h, status), o);
      assert Agrees(s, o, dying);
    }
    forall va | va in s.sections ensures SectionAgrees(Return(s, h, status), va) {
      TenancyNote(s.log, Returned(h, status), va);
      assert SectionAgrees(s, va);
    }
  }

  /** No entry, no kind changed, no pending set changed. */
  lemma SilentKeepsBooks(s: State, s': State)
    requires |s.resume| == |s.sched.threads| <= |s'.sched.threads| == |s'.resume| && |s'.objs| == |s.objs|
    requires Books(s, 0) && s'.log == s.log && s'.sections.Keys == s.sections.Keys
    requires forall va :: va in s.sections ==>
      s'.sections[va].owner == s.sections[va].owner && s'.sections[va].recursion == s.sections[va].recursion
    requires forall o :: 0 <= o < |s.objs| ==> s'.objs[o].kind == s.objs[o].kind
    requires forall o :: 0 <= o < |s.objs| && s.objs[o].kind.Event? ==>
               Pending(s'.sched.threads, s'.resume, o) == Pending(s.sched.threads, s.resume, o)
    requires forall i :: 0 <= i < |s.sched.threads| && s'.sched.threads[i].state == Finished ==>
      s.sched.threads[i].state == Finished
    ensures Books(s', 0)
  {
    forall o | 0 <= o < |s'.objs| ensures Agrees(s', o, 0) {
      assert Agrees(s, o, 0);
      AgreesFrame(s, s', o, 0);
    }
    forall va | va in s'.sections ensures SectionAgrees(s', va) {
      assert SectionAgrees(s, va);
    }
  }

  // ---------------------------------------------------------------------
  // Calls

  lemma AcquireBooks(s: State, h: nat, o: nat)
    requires KernelInv(s) && Books(s, 0) && Caller(s, h) && o < |s.objs| && Satisfied(s.objs[o].kind, h)
    ensures Books(AcquireObject(s, h, o), 0)
  {
    var s' := AcquireObject(s, h, o);
    assert Agrees(s, o, 0);
    AccountNote(s.log, Acquired(o, h), o);
    if h != 0 {
      assert ThreadInv(s.sched, h - 1);
    }
    if s' != s {
      NoteFrames(s, s', o, Acquired(o, h), 0);
    }
  }

  predicate Distinct(q: seq<nat>) {
    forall i, j :: 0 <= i < j < |q| ==> q[i] != q[j]
  }

  /** Acquiring a set without repetitions: each object is still satisfied when its turn comes. */
  lemma {:induction false} AcquireAllBooks(s: State, h: nat, targets: seq<nat>, from: nat, worst: nat)
    requires KernelInv(s) && Books(s, 0) && Caller(s, h) && InTable(s, targets) && from <= |targets|
    requires Distinct(targets)
    requires forall i :: from <= i < |targets| ==> Satisfied(s.objs[targets[i]].kind, h)
    ensures Books(AcquireAll(s, h, targets, from, worst).0, 0)
    decreases |targets| - from
  {
    if from < |targets| {
      AcquireBooks(s, h, targets[from]);
      AcquireKeeps(s, h, targets[from]);
      var status := Acquire(s.objs[targets[from]].kind, h).1;
      var worst' := if status != STATUS_SUCCESS && worst == STATUS_SUCCESS then STATUS_ABANDONED + from else worst;
      AcquireAllBooks(AcquireObject(s, h, targets[from]), h, targets, from + 1, worst');
    }
  }

  /** wake_object after a change of o's kind, with the entry that explains the change. */
  lemma WakeBooks(s: State, o: nat, k: Kind, units: nat, e: Entry, dying: nat)
    requires KernelInv(s) && Books(s, dying) && o < |s.objs| && !s.objs[o].kind.Event? && Subject(e) == o
    requires KernelInv(WakeObject(WithKind(s, o, k), o, units))
    requires var s' := Note(WakeObject(WithKind(s, o, k), o, units), e); Agrees(s', o, dying)
    ensures Books(Note(WakeObject(WithKind(s, o, k), o, units), e), dying)
  {
    var s' := Note(WakeObject(WithKind(s, o, k), o, units), e);
    var ts, rs := s.sched.threads, s.resume;
    var ts1 := SignalMany(ts, ObjectToken(o), units);
    SignalManyWakes(ts, ObjectToken(o), units);
    SignalEachWakes(ts1, s.objs[o].waiters);
    WakesTransitive(ts, ts1, s'.sched.threads);
    forall o' | 0 <= o' < |s.objs| && o' != o ensures Pending(s'.sched.threads, rs, o') == Pending(ts, rs, o') {
      WakesPending(ts, s'.sched.threads, rs, o');
    }
    NoteFrames(s, s', o, e, dying);
  }

  lemma ReleaseMutantBooks(s: State, o: nat)
    requires KernelInv(s) && Books(s, 0) && HasMutant(s, o) && s.objs[o].kind.owner != 0
    ensures Books(ReleaseMutant(s, o), 0)
  {
    hide KernelInv;
    var Mutant(signalState, owner, abandoned) := s.objs[o].kind;
    assert Agrees(s, o, 0);
    AccountNote(s.log, Released(o, 1), o);
    ReleaseMutantKeeps(s, o);
    if signalState + 1 > 0 {
      WakeBooks(s, o, Mutant(signalState + 1, 0, abandoned), 1, Released(o, 1), 0);
    } else {
      NoteFrames(s, ReleaseMutant(s, o), o, Released(o, 1), 0);
    }
  }

  lemma ReleaseSemaphoreBooks(s: State, o: nat, adjustment: int)
    requires KernelInv(s) && Books(s, 0) && o < |s.objs| && ReleaseFits(s.objs[o].kind, adjustment)
    ensures Books(ReleaseSemaphore(s, o, adjustment), 0)
  {
    hide KernelInv;
    var Semaphore(count, limit) := s.objs[o].kind;
    assert Agrees(s, o, 0);
    AccountNote(s.log, Released(o, adjustment), o);
    ReleaseSemaphoreKeeps(s, o, adjustment);
    var units := WakeUnits(adjustment, count + adjustment);
    WakeBooks(s, o, Semaphore(count + adjustment, limit), units, Released(o, adjustment), 0);
  }

  /** Setting and pulsing an event: a woken waiter is one unit, whether it has resumed or not. */
  lemma EventBooks(s: State, o: nat, k: Kind, all: bool, e: Entry)
    requires KernelInv(s) && Books(s, 0) && HasEvent(s, o) && k.Event?
    requires k.notify == s.objs[o].kind.notify == all && Subject(e) == o
    requires var a := AccountOf(s.log, o);
             !all ==>
               Post(a, e).units == a.units + Bit(k.signaled) - Bit(s.objs[o].kind.signaled)
                                   + Bit(HasWaiter(s.sched.threads, ObjectToken(o)))
    ensures var token := ObjectToken(o);
            var ts1 := if all then SignalAll(s.sched.threads, token) else SignalOne(s.sched.threads, token);
            Books(Note(WakeObject(WithKind(WithThreads(s, ts1), o, k), o, 0), e), 0)
  {
    var ts, rs, token := s.sched.threads, s.resume, ObjectToken(o);
    var ts1 := if all then SignalAll(ts, token) else SignalOne(ts, token);
    var s' := Note(WakeObject(WithKind(WithThreads(s, ts1), o, k), o, 0), e);
    SignalEachWakes(ts1, s.objs[o].waiters);
    WakesTransitive(ts, ts1, s'.sched.threads);
    WakesKeepThreadsOk(ts, ts1, rs);
    forall o' | 0 <= o' < |s.objs| && o' != o ensures Pending(s'.sched.threads, rs, o') == Pending(ts, rs, o') {
      WakesPending(ts, s'.sched.threads, rs, o');
    }
    assert Agrees(s, o, 0);
    AccountNote(s.log, e, o);
    if !all {
      WakesPending(ts1, s'.sched.threads, rs, o);
      SignalOneAddsPending(ts, rs, o);
    }
    NoteFrames(s, s', o, e, 0);
  }

  lemma SetEventBooks(s: State, o: nat)
    requires KernelInv(s) && Books(s, 0) && HasEvent(s, o)
    ensures Books(SetEvent(s, o), 0)
  {
    var Event(notify, found) := s.objs[o].kind;
    var token := ObjectToken(o);
    assert ObjectOk(s.sched.threads, s.resume, o, s.objs[o].kind);
    var k := if notify then Event(true, true) else Event(false, !HasWaiter(s.sched.threads, token));
    EventBooks(s, o, k, notify, WasSet(o, found));
  }

  lemma PulseEventBooks(s: State, o: nat)
    requires KernelInv(s) && Books(s, 0) && HasEvent(s, o)
    ensures Books(PulseEvent(s, o), 0)
  {
    var Event(notify, found) := s.objs[o].kind;
    EventBooks(s, o, Event(notify, false), notify, WasPulsed(o, HasWaiter(s.sched.threads, ObjectToken(o)), found));
  }

  lemma ResetEventBooks(s: State, o: nat)
    requires KernelInv(s) && Books(s, 0) && HasEvent(s, o)
    ensures Books(ResetEvent(s, o), 0)
  {
    var found := s.objs[o].kind.signaled;
    assert Agrees(s, o, 0);
    AccountNote(s.log, WasCleared(o, found), o);
    NoteFrames(s, ResetEvent(s, o), o, WasCleared(o, found), 0);
  }

  /** A new object, or an event initialised again while nobody waits on it. */
  lemma AddBooks(s: State, k: Kind)
    requires KernelInv(s) && Books(s, 0)
    requires k.Semaphore? ==> 0 <= k.count <= k.limit
    requires k.Mutant? ==>
      || k == Mutant(1, 0, false)
      || (k.signalState == 0 && !k.abandoned && k.owner != 0 && Alive(s.sched.threads, k.owner))
    ensures Books(Add(s, k), 0)
  {
    var s', o := Add(s, k), |s.objs|;
    forall o' | 0 <= o' < |s'.objs| ensures Agrees(s', o', 0) {
      AccountNote(s.log, Created(o, k), o');
      if o' < o {
        AgreesFrame(s, s', o', 0);
      } else {
        NobodyPending(s, o);
      }
    }
    forall va | va in s'.sections ensures SectionAgrees(s', va) {
      assert SectionAgrees(s, va);
      TenancyNote(s.log, Created(o, k), va);
    }
  }

  lemma NobodyPending(s: State, o: nat)
    requires KernelInv(s) && (o >= |s.objs| || !InUse(s, o))
    ensures Pending(s.sched.threads, s.resume, o) == {}
  {
    forall i | 0 <= i < |s.resume| ensures !IsPending(s.sched.threads[i], s.resume[i], o) {
      assert ResumeOk(s.resume[i], s.objs);
      assert o < |s.objs| ==> !Mentions(s.resume[i], o);
    }
  }

  lemma ReinitializeBooks(s: State, o: nat, k: Kind)
    requires KernelInv(s) && Books(s, 0) && HasEvent(s, o) && !InUse(s, o) && k.Event?
    ensures Books(Note(WithKind(s, o, k), Created(o, k)), 0)
  {
    NobodyPending(s, o);
    AccountNote(s.log, Created(o, k), o);
    NoteFrames(s, Note(WithKind(s, o, k), Created(o, k)), o, Created(o, k), 0);
  }

  // ---------------------------------------------------------------------
  // Waits

  /** Fiber h leaves the processor, or the call it was blocked in, without touching any object. */
  lemma ParkBooks(s: State, s': State, h: nat)
    requires KernelInv(s) && KernelInv(s') && Books(s, 0) && Caller(s, h) && h != 0
    requires s'.log == s.log && |s'.objs| == |s.objs| && |s'.resume| == |s.resume|
    requires s'.sections.Keys == s.sections.Keys
    requires forall va :: va in s.sections ==>
      s'.sections[va].owner == s.sections[va].owner && s'.sections[va].recursion == s.sections[va].recursion
    requires forall o :: 0 <= o < |s.objs| ==> s'.objs[o].kind == s.objs[o].kind
    requires forall i :: 0 <= i < |s.resume| && i != h - 1 ==>
      s'.sched.threads[i] == s.sched.threads[i] && s'.resume[i] == s.resume[i]
    requires s'.sched.threads[h - 1].state != Finished
    requires forall o :: 0 <= o < |s.objs| && s.objs[o].kind.Event? ==>
      IsPending(s'.sched.threads[h - 1], s'.resume[h - 1], o)
      == IsPending(s.sched.threads[h - 1], s.resume[h - 1], o)
    ensures Books(s', 0)
  {
    forall o | 0 <= o < |s.objs| && s.objs[o].kind.Event?
      ensures Pending(s'.sched.threads, s'.resume, o) == Pending(s.sched.threads, s.resume, o)
    {
      PendingFrame(s.sched.threads, s'.sched.threads, s.resume, s'.resume, o);
    }
    SilentKeepsBooks(s, s');
  }

  lemma EvalOneBooks(s: State, h: nat, o: nat, immediate: bool, timeout: nat)
    requires KernelInv(s) && Books(s, 0) && Caller(s, h) && o < |s.objs| && DeadlineFits(s.sched, timeout)
    requires h != 0 ==> s.resume[h - 1] == Body
    ensures Books(EvalOne(s, h, o, immediate, timeout), 0)
  {
    var k := s.objs[o].kind;
    if Satisfied(k, h) {
      AcquireBooks(s, h, o);
      ReturnKeepsBooks(AcquireObject(s, h, o), h, Acquire(k, h).1, 0);
    } else if immediate {
      ReturnKeepsBooks(s, h, STATUS_TIMEOUT, 0);
    } else if h == 0 {
      ReturnKeepsBooks(s, h, STATUS_INVALID_PARAMETER, 0);
    } else {
      BlockOneKeeps(s, h, o, timeout);
      ParkBooks(s, BlockIn(s, h, ObjectToken(o), timeout, InWait(o, timeout)), h);
    }
  }

  lemma ResumeOneBooks(s: State, h: nat)
    requires KernelInv(s) && Books(s, 0) && Caller(s, h) && h != 0 && s.resume[h - 1].InWait?
    requires s.resume[h - 1].obj < |s.objs|
    requires DeadlineFits(s.sched, s.resume[h - 1].timeout)
    ensures Books(ResumeOne(s, h), 0)
  {
    var InWait(o, timeout) := s.resume[h - 1];
    var k, s1 := s.objs[o].kind, Unwind(s, h);
    assert ObjectOk(s.sched.threads, s.resume, o, k);
    assert ThreadInv(s.sched, h - 1);
    if s.sched.threads[h - 1].timedOut {
      UnwindOneKeeps(s, h);
      ParkBooks(s, s1, h);
      ReturnKeepsBooks(s1, h, STATUS_TIMEOUT, 0);
    } else if k.Event? {
      WokenEventBooks(s, h, o);
      ReturnKeepsBooks(Note(s1, Acquired(o, h)), h, STATUS_SUCCESS, 0);
    } else if Satisfied(k, h) {
      AcquireKeeps(s, h, o);
      AcquireBooks(s, h, o);
      var s2 := AcquireObject(s, h, o);
      UnwindOneKeeps(s2, h);
      ParkBooks(s2, Unwind(s2, h), h);
      assert AcquireObject(s1, h, o) == Unwind(s2, h);
      ReturnKeepsBooks(Unwind(s2, h), h, Acquire(k, h).1, 0);
    } else {
      UnwindOneKeeps(s, h);
      ParkBooks(s, s1, h);
      EvalOneBooks(s1, h, o, false, timeout);
    }
  }

  /** The unit that woke an event waiter is taken out when the waiter returns. */
  lemma WokenEventBooks(s: State, h: nat, o: nat)
    requires KernelInv(s) && Books(s, 0) && Caller(s, h) && h != 0 && HasEvent(s, o)
    requires s.resume[h - 1].InWait? && s.resume[h - 1].obj == o && !s.sched.threads[h - 1].timedOut
    ensures Books(Note(Unwind(s, h), Acquired(o, h)), 0)
  {
    var s' := Note(Unwind(s, h), Acquired(o, h));
    var ts, rs, rs' := s.sched.threads, s.resume, s'.resume;
    assert ThreadOk(ts[h - 1], rs[h - 1], h) && ThreadInv(s.sched, h - 1) && Agrees(s, o, 0);
    AccountNote(s.log, Acquired(o, h), o);
    assert Pending(ts, rs', o) == Pending(ts, rs, o) - {h - 1};
    forall o' | 0 <= o' < |s.objs| && o' != o ensures Pending(ts, rs', o') == Pending(ts, rs, o') {
      PendingFrame(ts, ts, rs, rs', o');
    }
    NoteFrames(s, s', o, Acquired(o, h), 0);
  }

  lemma EvalManyBooks(s: State, h: nat, targets: seq<nat>, all: bool, immediate: bool, timeout: nat)
    requires KernelInv(s) && Books(s, 0) && Caller(s, h) && InTable(s, targets) && targets != []
    requires DeadlineFits(s.sched, timeout)
    requires h != 0 ==> s.resume[h - 1] == Body
    requires all ==> Distinct(targets)
    ensures Books(EvalMany(s, h, targets, all, immediate, timeout), 0)
  {
    var first := FirstSatisfied(s, h, targets, 0);
    if all && AllSatisfied(s, h, targets) {
      AcquireAllBooks(s, h, targets, 0, STATUS_SUCCESS);
      var (s', worst) := AcquireAll(s, h, targets, 0, STATUS_SUCCESS);
      ReturnKeepsBooks(s', h, worst, 0);
    } else if !all && first < |targets| {
      AcquireBooks(s, h, targets[first]);
      var status := Acquire(s.objs[targets[first]].kind, h).1;
      ReturnKeepsBooks(AcquireObject(s, h, targets[first]), h,
                       if status == STATUS_ABANDONED then STATUS_ABANDONED + first else first, 0);
    } else if immediate {
      ReturnKeepsBooks(s, h, STATUS_TIMEOUT, 0);
    } else if h == 0 {
      ReturnKeepsBooks(s, h, STATUS_INVALID_PARAMETER, 0);
    } else {
      BlockManyKeeps(s, h, targets, all, timeout);
      RegisterLists(s.objs, h, targets, 0);
      var s1 := s.(objs := Register(s.objs, h, targets, 0));
      ParkBooks(s, BlockIn(s1, h, MultiToken(h), timeout, InMulti(targets, all, timeout)), h);
    }
  }

  lemma ResumeManyBooks(s: State, h: nat)
    requires KernelInv(s) && Books(s, 0) && Caller(s, h) && h != 0 && s.resume[h - 1].InMulti?
    requires InTable(s, s.resume[h - 1].objs)
    requires DeadlineFits(s.sched, s.resume[h - 1].timeout) && (s.resume[h - 1].all ==> Distinct(s.resume[h - 1].objs))
    ensures Books(ResumeMany(s, h), 0)
  {
    var InMulti(targets, all, timeout) := s.resume[h - 1];
    var s' := Unwind(s, h).(objs := Deregister(s.objs, h, targets, 0));
    assert ResumeOk(s.resume[h - 1], s.objs) && ThreadInv(s.sched, h - 1);
    UnwindManyKeeps(s, h);
    DeregisterLists(s.objs, h, targets, 0);
    ParkBooks(s, s', h);
    if s.sched.threads[h - 1].timedOut {
      ReturnKeepsBooks(s', h, STATUS_TIMEOUT, 0);
    } else {
      EvalManyBooks(s', h, targets, all, false, timeout);
    }
  }

  // ---------------------------------------------------------------------
  // Critical sections

  /** Thread i did not change, or is at most inside RtlEnterCriticalSection on va, before and after. */
  predicate OutsideObjects(s: State, s': State, i: nat, va: nat)
    requires i < |s.resume| == |s.sched.threads| == |s'.resume| == |s'.sched.threads|
  {
    || (s'.resume[i] == s.resume[i] && s'.sched.threads[i] == s.sched.threads[i])
    || (OffSection(s.resume[i], va) && OffSection(s'.resume[i], va) && s'.sched.threads[i].state != Finished)
  }

  /** Threads that wait on no object do not matter to any pending set. */
  lemma PendingOutside(s: State, s': State, va: nat)
    requires |s.resume| == |s.sched.threads| == |s'.resume| == |s'.sched.threads|
    requires forall i :: 0 <= i < |s.resume| ==> OutsideObjects(s, s', i, va)
    ensures forall o :: 0 <= o < |s.objs| ==>
      Pending(s'.sched.threads, s'.resume, o) == Pending(s.sched.threads, s.resume, o)
    ensures forall i :: 0 <= i < |s.sched.threads| && s'.sched.threads[i].state == Finished ==>
      s.sched.threads[i].state == Finished
  {
    forall i | 0 <= i < |s.sched.threads| && s'.sched.threads[i].state == Finished
      ensures s.sched.threads[i].state == Finished
    {
      assert OutsideObjects(s, s', i, va);
    }
    forall o | 0 <= o < |s.objs|
      ensures Pending(s'.sched.threads, s'.resume, o) == Pending(s.sched.threads, s.resume, o)
    {
      forall i | 0 <= i < |s.resume|
        ensures IsPending(s'.sched.threads[i], s'.resume[i], o) == IsPending(s.sched.threads[i], s.resume[i], o)
      {
        assert OutsideObjects(s, s', i, va);
      }
      PendingFrame(s.sched.threads, s'.sched.threads, s.resume, s'.resume, o);
    }
  }

  /** One entry about section va, with its new fields. */
  lemma SectionNote(s: State, s': State, va: nat, e: Entry)
    requires Books(s, 0) && |s'.resume| == |s.resume| == |s'.sched.threads|
    requires SectionSubject(e) == va && s'.log == s.log + [e] && s'.objs == s.objs
    requires va in s'.sections && s'.sections == s.sections[va := s'.sections[va]] && SectionAgrees(s', va)
    requires forall i :: 0 <= i < |s.resume| ==> OutsideObjects(s, s', i, va)
    ensures Books(s', 0)
  {
    PendingOutside(s, s', va);
    forall o | 0 <= o < |s'.objs| ensures Agrees(s', o, 0) {
      AccountNote(s.log, e, o);
      AgreesFrame(s, s', o, 0);
    }
    forall va' | va' in s'.sections ensures SectionAgrees(s', va') {
      TenancyNote(s.log, e, va');
      if va' != va {
        assert SectionAgrees(s, va');
      }
    }
  }

  lemma EnterBooks(s: State, h: nat, va: nat)
    requires KernelInv(s) && Books(s, 0) && Caller(s, h) && h != 0 && OffSection(s.resume[h - 1], va)
    ensures Books(EnterSection(Unwind(s, h), h, va), 0)
  {
    assert ThreadInv(s.sched, h - 1);
    if va !in s.sections {
      assert s.resume[h - 1] == Body;
      assert Unwind(s, h).resume == s.resume;
      ReturnKeepsBooks(s, h, STATUS_INVALID_PARAMETER, 0);
    } else {
      assert SectionOk(s.sched.threads, s.resume, va, s.sections[va]);
      EnterKnownBooks(s, h, va);
    }
  }

  lemma EnterKnownBooks(s: State, h: nat, va: nat)
    requires Books(s, 0) && Caller(s, h) && h != 0 && OffSection(s.resume[h - 1], va) && va in s.sections
    requires s.sched.threads[h - 1].state != Finished && (s.sections[va].owner == 0 <==> s.sections[va].recursion == 0)
    requires s.sections[va].recursion >= 0
    ensures Books(EnterSection(Unwind(s, h), h, va), 0)
  {
    var s' := EnterSection(Unwind(s, h), h, va);
    assert forall i :: 0 <= i < |s.resume| ==> OutsideObjects(s, s', i, va);
    if s.sections[va].owner == h || s.sections[va].owner == 0 {
      assert SectionAgrees(s', va) by {
        assert SectionAgrees(s, va);
        TenancyNote(s.log, Entered(va, h), va);
      }
      SectionNote(s, s', va, Entered(va, h));
    } else {
      ContendedBooks(s, s', va);
    }
  }

  lemma ContendedBooks(s: State, s': State, va: nat)
    requires Books(s, 0) && |s.resume| == |s'.resume| == |s'.sched.threads| && va in s.sections
    requires s'.log == s.log && s'.objs == s.objs
    requires s'.sections == s.sections[va := s.sections[va].(lockCount := s.sections[va].lockCount + 1)]
    requires forall i :: 0 <= i < |s.resume| ==> OutsideObjects(s, s', i, va)
    ensures Books(s', 0)
  {
    PendingOutside(s, s', va);
    SilentKeepsBooks(s, s');
  }

  lemma LeaveBooks(s: State, h: nat, va: nat)
    requires KernelInv(s) && Books(s, 0) && Caller(s, h) && h != 0 && s.resume[h - 1] == Body
    ensures Books(LeaveSection(s, h, va), 0)
  {
    hide KernelInv;
    if va in s.sections && s.sections[va].owner == h {
      LeaveOutside(s, h, va);
      LeaveAgrees(s, h, va);
      SectionNote(s, LeaveSection(s, h, va), va, Left(va, h));
    } else {
      ReturnKeepsBooks(s, h, STATUS_INVALID_PARAMETER, 0);
    }
  }

  lemma LeaveAgrees(s: State, h: nat, va: nat)
    requires KernelInv(s) && h != 0 && va in s.sections && s.sections[va].owner == h && SectionAgrees(s, va)
    ensures SectionAgrees(LeaveSection(s, h, va), va)
  {
    assert SectionOk(s.sched.threads, s.resume, va, s.sections[va]);
    hide KernelInv;
    TenancyNote(s.log, Left(va, h), va);
  }

  lemma LeaveOutside(s: State, h: nat, va: nat)
    requires KernelInv(s) && va in s.sections
    ensures var s' := LeaveSection(s, h, va);
      && |s.resume| == |s.sched.threads| == |s'.resume| == |s'.sched.threads|
      && forall i :: 0 <= i < |s.resume| ==> OutsideObjects(s, s', i, va)
  {
    var s', ts := LeaveSection(s, h, va), s.sched.threads;
    SignalSection(ts, s.resume, va);
    assert s'.sched.threads == ts || s'.sched.threads == SignalOne(ts, SectionToken(va));
    forall i | 0 <= i < |s.resume| ensures OutsideObjects(s, s', i, va) {
      assert ThreadOk(ts[i], s.resume[i], i + 1);
    }
  }

  lemma TryEnterBooks(s: State, h: nat, va: nat)
    requires KernelInv(s) && Books(s, 0) && Caller(s, h) && h != 0
    ensures Books(TryEnterSection(s, h, va), 0)
  {
    var s' := TryEnterSection(s, h, va);
    if va in s.sections && (s.sections[va].owner == h || s.sections[va].owner == 0) {
      assert SectionAgrees(s', va) by {
        assert SectionOk(s.sched.threads, s.resume, va, s.sections[va]) && SectionAgrees(s, va);
        TenancyNote(s.log, Entered(va, h), va);
      }
      SectionNote(s, s', va, Entered(va, h));
    } else {
      ReturnKeepsBooks(s, h, 0, 0);
    }
  }

  lemma InitSectionBooks(s: State, va: nat)
    requires Books(s, 0)
    ensures Books(Note(s.(sections := s.sections[va := Section(-1, 0, 0)]), Initialized(va)), 0)
  {
    TenancyNote(s.log, Initialized(va), va);
    SectionNote(s, Note(s.(sections := s.sections[va := Section(-1, 0, 0)]), Initialized(va)), va, Initialized(va));
  }

  // ---------------------------------------------------------------------
  // Termination of a fiber

  lemma AbandonAgrees(s: State, h: nat, o: nat)
    requires |s.resume| == |s.sched.threads| && o < |s.objs| && h != 0 && Agrees(s, o, h)
    requires s.objs[o].kind.Mutant? && s.objs[o].kind.owner == h
    ensures Agrees(Note(WakeObject(WithKind(s, o, Mutant(1, 0, true)), o, 1), Abandoned(o, h)), o, h)
  {
    AccountNote(s.log, Abandoned(o, h), o);
  }

  lemma AbandonBooks(s: State, h: nat, o: nat)
    requires KernelInv(s) && o < |s.objs| && h != 0 && Books(s, h)
    ensures KernelInv(AbandonObject(s, h, o)) && Books(AbandonObject(s, h, o), h)
    ensures var k := AbandonObject(s, h, o).objs[o].kind; k.Mutant? ==> k.owner != h
    ensures forall o' :: 0 <= o' < |s.objs| && o' != o ==> AbandonObject(s, h, o).objs[o'].kind == s.objs[o'].kind
  {
    var k := s.objs[o].kind;
    if k.Mutant? && k.owner == h {
      AbandonAgrees(s, h, o);
      WakeObjectKeeps(s, o, Mutant(1, 0, true), 1);
      WakeBooks(s, o, Mutant(1, 0, true), 1, Abandoned(o, h), h);
    }
  }

  /** After finish_thread_object no live mutant is owned by the dead fiber. */
  lemma {:induction false} AbandonFromBooks(s: State, h: nat, from: nat)
    requires KernelInv(s) && from <= |s.objs| && h != 0 && Books(s, h)
    requires forall o :: 0 <= o < from && s.objs[o].kind.Mutant? ==> s.objs[o].kind.owner != h
    ensures Books(AbandonFrom(s, h, from), 0)
    decreases |s.objs| - from
  {
    if from == |s.objs| {
      forall o | 0 <= o < |s.objs| ensures Agrees(s, o, 0) {
        assert Agrees(s, o, h);
      }
    } else {
      AbandonBooks(s, h, from);
      AbandonFromBooks(AbandonObject(s, h, from), h, from + 1);
    }
  }

  lemma ExitBooks(s: State, h: nat)
    requires KernelInv(s) && Books(s, 0) && Caller(s, h) && h != 0 && s.resume[h - 1] == Body
    ensures Books(Exit(s, h), 0)
  {
    var s' := s.(sched := Finish(s.sched, h));
    assert ThreadInv(s.sched, h - 1);
    ParkedInv(s.sched, h, s'.sched.threads[h - 1]);
    ParkKeeps(s, s', h);
    forall o | 0 <= o < |s.objs| ensures Agrees(s', o, h) {
      assert Agrees(s, o, 0);
      PendingFrame(s.sched.threads, s'.sched.threads, s.resume, s'.resume, o);
    }
    forall va | va in s.sections ensures SectionAgrees(s', va) {
      assert SectionAgrees(s, va);
    }
    AbandonFromBooks(s', h, 0);
  }
}
