/** NtWaitForMultipleObjectsEx takes all it should or nothing, and leaves no registration behind. */
module MultiWait {
  import opened Scheduler
  import opened Kernel
  import opened WaitInvariant
  import opened WaitProofs
  import opened KernelRuns

  /** The kinds of all objects: what a wait may consume. */
  function Kinds(s: State): seq<Kind> {
    seq(|s.objs|, o requires 0 <= o < |s.objs| => s.objs[o].kind)
  }

  /** The host has no thread token, so dispatcher_acquire refuses it a mutant. */
  predicate Refused(k: Kind, h: nat) {
    k.Mutant? && h == 0
  }

  /** What makes an acquisition report something else than success: abandonment, or a refusal. */
  predicate Flagged(k: Kind, h: nat) {
    k.Mutant? && (k.abandoned || h == 0)
  }

  /** The first flagged position of the set at or after `from`, or its length. */
  function FirstFlagged(s: State, h: nat, targets: seq<nat>, from: nat): (i: nat)
    requires InTable(s, targets) && from <= |targets|
    ensures from <= i <= |targets|
    ensures i < |targets| ==> Flagged(s.objs[targets[i]].kind, h)
    ensures forall j :: from <= j < i ==> !Flagged(s.objs[targets[j]].kind, h)
    decreases |targets| - from
  {
    if from == |targets| || Flagged(s.objs[targets[from]].kind, h) then from
    else FirstFlagged(s, h, targets, from + 1)
  }

  /** The status of a wait for all: success, or the position of the first flagged object. */
  function AllStatus(s: State, h: nat, targets: seq<nat>, from: nat): nat
    requires InTable(s, targets) && from <= |targets|
  {
    var i := FirstFlagged(s, h, targets, from);
    if i < |targets| then STATUS_ABANDONED + i else STATUS_SUCCESS
  }

  function Worse(s: State, h: nat, o: nat, i: nat, worst: nat): nat
    requires o < |s.objs|
  {
    if Acquire(s.objs[o].kind, h).1 != STATUS_SUCCESS && worst == STATUS_SUCCESS then STATUS_ABANDONED + i else worst
  }

  /** How often the list names o. */
  function Occurrences(targets: seq<nat>, o: nat): nat {
    if targets == [] then 0 else Occurrences(targets[1..], o) + if targets[0] == o then 1 else 0
  }

  /** The object after n acquisitions. */
  function AcquiredTimes(k: Kind, h: nat, n: nat): Kind
    decreases n
  {
    if n == 0 then k else AcquiredTimes(Acquire(k, h).0, h, n - 1)
  }

  /** Acquiring a set takes every object as often as the set names it, and moves nothing else. */
  lemma {:induction false} AcquireAllTakesEach(s: State, h: nat, targets: seq<nat>, from: nat, worst: nat, o: nat)
    requires InTable(s, targets) && from <= |targets| && o < |s.objs|
    ensures AcquireAll(s, h, targets, from, worst).0.objs[o].kind
         == AcquiredTimes(s.objs[o].kind, h, Occurrences(targets[from..], o))
    decreases |targets| - from
  {
    if from < |targets| {
      var t := targets[from];
      AcquireAllTakesEach(AcquireObject(s, h, t), h, targets, from + 1, Worse(s, h, t, from, worst), o);
      assert targets[from..][1..] == targets[from + 1..];
    }
  }

  /** The status it gives is that of the first flagged object. */
  lemma {:induction false} AcquireAllStatus(s: State, h: nat, targets: seq<nat>, from: nat, worst: nat)
    requires InTable(s, targets) && from <= |targets|
    ensures AcquireAll(s, h, targets, from, worst).1
         == if worst != STATUS_SUCCESS then worst else AllStatus(s, h, targets, from)
    decreases |targets| - from
  {
    if from < |targets| {
      var o := targets[from];
      var s1 := AcquireObject(s, h, o);
      AcquireAllStatus(s1, h, targets, from + 1, Worse(s, h, o, from, worst));
      if !Flagged(s.objs[o].kind, h) {
        SameFlagged(s, s1, h, targets, from + 1);
      }
    }
  }

  lemma {:induction false} SameFlagged(s: State, s': State, h: nat, targets: seq<nat>, from: nat)
    requires InTable(s, targets) && InTable(s', targets) && from <= |targets|
    requires forall j :: from <= j < |targets| ==>
      Flagged(s'.objs[targets[j]].kind, h) == Flagged(s.objs[targets[j]].kind, h)
    ensures FirstFlagged(s', h, targets, from) == FirstFlagged(s, h, targets, from)
    decreases |targets| - from
  {
    if from < |targets| {
      SameFlagged(s, s', h, targets, from + 1);
    }
  }

  /** The log of s' goes on from that of s. */
  predicate LogGrows(s: State, s': State) {
    |s.log| <= |s'.log| && s'.log[..|s.log|] == s.log
  }

  /** Between s and s', caller h acquired object o. */
  predicate Took(s: State, s': State, h: nat, o: nat)
    requires LogGrows(s, s')
  {
    Acquired(o, h) in s'.log[|s.log|..]
  }

  lemma TookThen(a: State, b: State, c: State, h: nat, o: nat)
    requires LogGrows(a, b) && LogGrows(b, c)
    ensures LogGrows(a, c)
    ensures Took(a, c, h, o) <==> Took(a, b, h, o) || Took(b, c, h, o)
  {
    assert c.log[|a.log|..] == b.log[|a.log|..] + c.log[|b.log|..];
  }

  lemma NoteGrows(s: State, e: Entry)
    ensures LogGrows(s, Note(s, e)) && Note(s, e).log[|s.log|..] == [e]
  {
  }

  lemma AcquireTook(s: State, h: nat, o: nat, x: nat)
    requires o < |s.objs|
    ensures LogGrows(s, AcquireObject(s, h, o))
    ensures Took(s, AcquireObject(s, h, o), h, x) <==> x == o && !Refused(s.objs[o].kind, h)
    ensures forall y :: 0 <= y < |s.objs| ==>
              Refused(AcquireObject(s, h, o).objs[y].kind, h) == Refused(s.objs[y].kind, h)
  {
    NoteGrows(WithKind(s, o, Acquire(s.objs[o].kind, h).0), Acquired(o, h));
  }

  lemma {:induction false} AcquireAllTook(s: State, h: nat, targets: seq<nat>, from: nat, worst: nat, x: nat)
    requires InTable(s, targets) && from <= |targets| && x < |s.objs|
    ensures var s' := AcquireAll(s, h, targets, from, worst).0;
            LogGrows(s, s') && (Took(s, s', h, x) <==> x in targets[from..] && !Refused(s.objs[x].kind, h))
    decreases |targets| - from
  {
    if from < |targets| {
      var o := targets[from];
      var s1 := AcquireObject(s, h, o);
      AcquireTook(s, h, o, x);
      AcquireAllTook(s1, h, targets, from + 1, Worse(s, h, o, from, worst), x);
      TookThen(s, s1, AcquireAll(s, h, targets, from, worst).0, h, x);
      assert targets[from..] == [o] + targets[from + 1..];
    }
  }

  /** How an evaluation of the set ended, read off the last log entry and the scheduler. */
  predicate ReturnedWith(s: State, s': State, h: nat, status: nat) {
    s'.sched == s.sched && |s'.log| > |s.log| && s'.log[|s'.log| - 1] == Returned(h, status)
  }

  predicate BlockedOn(s': State, h: nat) {
    1 <= h <= |s'.sched.threads| && WaitsOn(s'.sched.threads[h - 1], MultiToken(h))
  }

  /** The objects that the wait reports to its caller as acquired. */
  function Claimed(s: State, h: nat, targets: seq<nat>, all: bool): seq<nat>
    requires InTable(s, targets)
  {
    var first := FirstSatisfied(s, h, targets, 0);
    if all then if AllSatisfied(s, h, targets) then targets else []
    else if first < |targets| then [targets[first]] else []
  }

  /** The status that goes with it, when it is not empty. */
  function ClaimStatus(s: State, h: nat, targets: seq<nat>, all: bool): nat
    requires InTable(s, targets) && (all || FirstSatisfied(s, h, targets, 0) < |targets|)
  {
    if all then AllStatus(s, h, targets, 0)
    else
      var first := FirstSatisfied(s, h, targets, 0);
      var k := s.objs[targets[first]].kind;
      if Flagged(k, h) && !Refused(k, h) then STATUS_ABANDONED + first else first
  }

  /** Every claimed object that is not refused is acquired, as often as it is claimed, and no other object changes. */
  ghost predicate TakesClaimed(s: State, s': State, h: nat, claimed: seq<nat>) {
    && |s'.objs| == |s.objs| && LogGrows(s, s')
    && (forall o :: 0 <= o < |s.objs| ==> (Took(s, s', h, o) <==> o in claimed && !Refused(s.objs[o].kind, h)))
    && (forall o :: 0 <= o < |s.objs| ==> Kinds(s')[o] == AcquiredTimes(Kinds(s)[o], h, Occurrences(claimed, o)))
  }

  /**
   One evaluation, by a fiber or by the host. If the set is satisfied (all of it, or its
   first satisfied object for wait-any), the call returns in the same step, naming the
   first abandoned mutant; otherwise no object changes and the caller times out, is
   refused or blocks. An object is acquired exactly when it is claimed and not refused,
   once for every time the set names it.
   So all that is claimed is acquired exactly when the caller is a fiber or no mutant is
   claimed: this is the condition under which a wait is all or nothing.
   */
  lemma EvalIsAllOrNothing(s: State, h: nat, targets: seq<nat>, all: bool, immediate: bool, timeout: nat)
    requires Caller(s, h) && targets != [] && InTable(s, targets)
    ensures var s' := EvalMany(s, h, targets, all, immediate, timeout);
      var claimed := Claimed(s, h, targets, all);
      && TakesClaimed(s, s', h, claimed)
      && (if claimed != [] then ReturnedWith(s, s', h, ClaimStatus(s, h, targets, all))
          else if immediate then ReturnedWith(s, s', h, STATUS_TIMEOUT)
          else if h == 0 then ReturnedWith(s, s', h, STATUS_INVALID_PARAMETER)
          else BlockedOn(s', h))
      && ((forall o :: o in claimed ==> Took(s, s', h, o)) <==> h != 0 || forall o :: o in claimed ==> !HasMutant(s, o))
  {
    hide EvalMany, TakesClaimed;
    var s' := EvalMany(s, h, targets, all, immediate, timeout);
    var claimed := Claimed(s, h, targets, all);
    if claimed == [] {
      NothingClaimed(s, h, targets, all, immediate, timeout);
    } else if all {
      AllTakesClaimed(s, h, targets, immediate, timeout);
    } else {
      AnyTakesClaimed(s, h, targets, immediate, timeout);
    }
    forall o | o in claimed ensures o < |s.objs| {
      assert o in targets;
    }
    ClaimedIsTakenExactly(s, s', h, claimed);
  }

  lemma ClaimedIsTakenExactly(s: State, s': State, h: nat, claimed: seq<nat>)
    requires TakesClaimed(s, s', h, claimed) && forall o :: o in claimed ==> o < |s.objs|
    ensures LogGrows(s, s')
    ensures (forall o :: o in claimed ==> Took(s, s', h, o))
       <==> h != 0 || forall o :: o in claimed ==> !HasMutant(s, o)
  {
  }

  lemma NothingClaimed(s: State, h: nat, targets: seq<nat>, all: bool, immediate: bool, timeout: nat)
    requires Caller(s, h) && targets != [] && InTable(s, targets) && Claimed(s, h, targets, all) == []
    ensures var s' := EvalMany(s, h, targets, all, immediate, timeout);
      && TakesClaimed(s, s', h, [])
      && (if immediate then ReturnedWith(s, s', h, STATUS_TIMEOUT)
          else if h == 0 then ReturnedWith(s, s', h, STATUS_INVALID_PARAMETER)
          else BlockedOn(s', h))
  {
    var s' := EvalMany(s, h, targets, all, immediate, timeout);
    RegisterLists(s.objs, h, targets, 0);
    assert forall o :: 0 <= o < |s.objs| ==> !Took(s, s', h, o);
  }

  lemma AllTakesClaimed(s: State, h: nat, targets: seq<nat>, immediate: bool, timeout: nat)
    requires Caller(s, h) && targets != [] && InTable(s, targets) && AllSatisfied(s, h, targets)
    ensures var s' := EvalMany(s, h, targets, true, immediate, timeout);
            TakesClaimed(s, s', h, targets) && ReturnedWith(s, s', h, AllStatus(s, h, targets, 0))
  {
    var r := AcquireAll(s, h, targets, 0, STATUS_SUCCESS);
    var s' := EvalMany(s, h, targets, true, immediate, timeout);
    AcquireAllStatus(s, h, targets, 0, STATUS_SUCCESS);
    AcquireAllLeavesSched(s, h, targets, 0, STATUS_SUCCESS);
    assert targets[0..] == targets;
    NoteGrows(r.0, Returned(h, r.1));
    AcquireAllTook(s, h, targets, 0, STATUS_SUCCESS, targets[0]);
    forall o | 0 <= o < |s.objs|
      ensures LogGrows(s, s') && (Took(s, s', h, o) <==> o in targets && !Refused(s.objs[o].kind, h))
      ensures s'.objs[o].kind == AcquiredTimes(s.objs[o].kind, h, Occurrences(targets, o))
    {
      AcquireAllTakesEach(s, h, targets, 0, STATUS_SUCCESS, o);
      AcquireAllTook(s, h, targets, 0, STATUS_SUCCESS, o);
      TookThen(s, r.0, s', h, o);
    }
  }

  lemma AnyTakesClaimed(s: State, h: nat, targets: seq<nat>, immediate: bool, timeout: nat)
    requires Caller(s, h) && InTable(s, targets) && FirstSatisfied(s, h, targets, 0) < |targets|
    ensures var s' := EvalMany(s, h, targets, false, immediate, timeout);
            TakesClaimed(s, s', h, Claimed(s, h, targets, false))
            && ReturnedWith(s, s', h, ClaimStatus(s, h, targets, false))
  {
    var first := FirstSatisfied(s, h, targets, 0);
    var s1, s' := AcquireObject(s, h, targets[first]), EvalMany(s, h, targets, false, immediate, timeout);
    assert s' == Return(s1, h, ClaimStatus(s, h, targets, false));
    NoteGrows(s1, Returned(h, ClaimStatus(s, h, targets, false)));
    forall o | 0 <= o < |s.objs|
      ensures LogGrows(s, s') && (Took(s, s', h, o) <==> o == targets[first] && !Refused(s.objs[o].kind, h))
      ensures s'.objs[o].kind == AcquiredTimes(s.objs[o].kind, h, Occurrences([targets[first]], o))
    {
      assert Occurrences([targets[first]], o) == if o == targets[first] then 1 else 0;
      AcquireTook(s, h, targets[first], o);
      TookThen(s, s1, s', h, o);
    }
  }

  // ---------------------------------------------------------------------
  // A wait that times out, from its call to its return

  /** The step from s to s' changed no object and acquired nothing for h. */
  ghost predicate NothingTaken(s: State, s': State, h: nat) {
    Kinds(s') == Kinds(s) && LogGrows(s, s') && forall o :: 0 <= o < |s.objs| ==> !Took(s, s', h, o)
  }

  predicate RegisteredNowhere(s: State, h: nat) {
    forall o :: 0 <= o < |s.objs| ==> h !in s.objs[o].waiters
  }

  /** The step ended inside the wait, or reported STATUS_TIMEOUT. */
  predicate NotServed(s: State, s': State, h: nat) {
    (1 <= h <= |s'.resume| && s'.resume[h - 1].InMulti?) || ReturnedWith(s, s', h, STATUS_TIMEOUT)
  }

  /** Such an evaluation took nothing: no status of a successful wait on at most 64 objects is 0x102. */
  lemma EvalTakesNothing(s: State, h: nat, targets: seq<nat>, all: bool, immediate: bool, timeout: nat)
    requires Caller(s, h) && h != 0 && 0 < |targets| <= MAX_WAIT_OBJECTS && InTable(s, targets)
    requires s.resume[h - 1] == Body
    requires NotServed(s, EvalMany(s, h, targets, all, immediate, timeout), h)
    ensures NothingTaken(s, EvalMany(s, h, targets, all, immediate, timeout), h)
  {
    hide AcquireAll, Register, FirstFlagged, FirstSatisfied;
    EvalIsAllOrNothing(s, h, targets, all, immediate, timeout);
    AcquireAllLeavesSched(s, h, targets, 0, STATUS_SUCCESS);
  }

  lemma CallTakesNothing(s: State, h: nat, targets: seq<nat>, all: bool, immediate: bool, timeout: nat)
    requires Caller(s, h) && h != 0 && s.resume[h - 1] == Body
    requires NotServed(s, Apply(s, h, WaitMany(targets, all, immediate, timeout)), h)
    ensures NothingTaken(s, Apply(s, h, WaitMany(targets, all, immediate, timeout)), h)
    ensures 0 < |targets| <= MAX_WAIT_OBJECTS
  {
    hide EvalMany;
    if 0 < |targets| <= MAX_WAIT_OBJECTS && forall i :: 0 <= i < |targets| ==> Has(s, targets[i]) {
      EvalTakesNothing(s, h, targets, all, immediate, timeout);
    }
  }

  lemma ResumeTakesNothing(s: State, h: nat)
    requires Caller(s, h) && h != 0 && s.resume[h - 1].InMulti? && InTable(s, s.resume[h - 1].objs)
    requires 0 < |s.resume[h - 1].objs| <= MAX_WAIT_OBJECTS
    requires NotServed(s, ResumeMany(s, h), h)
    ensures NothingTaken(s, ResumeMany(s, h), h)
  {
    hide EvalMany;
    var InMulti(targets, all, timeout) := s.resume[h - 1];
    var s1 := Unwind(s, h).(objs := Deregister(s.objs, h, targets, 0));
    DeregisterLists(s.objs, h, targets, 0);
    assert Kinds(s1) == Kinds(s);
    if s.sched.threads[h - 1].timedOut {
      NoteGrows(s1, Returned(h, STATUS_TIMEOUT));
    } else {
      EvalTakesNothing(s1, h, targets, all, false, timeout);
      var s' := EvalMany(s1, h, targets, all, false, timeout);
      assert s' == ResumeMany(s, h);
      assert Kinds(s') == Kinds(s);
      forall o | 0 <= o < |s.objs| ensures !Took(s, s', h, o) {
        assert !Took(s1, s', h, o);
      }
    }
  }

  /** From its call at step a to step b, fiber h is inside one multi-object wait. */
  ghost predicate Waiting(ss: seq<State>, ls: seq<Label>, h: nat, a: nat, b: nat, wait: Call) {
    && wait.WaitMany? && a <= b < |ls| < |ss|
    && ss[a].sched.mode == Fiber(h) && ls[a] == Call(wait)
    && forall k :: a < k <= b ==> InsideWait(ss[k], h, wait)
  }

  predicate InsideWait(s: State, h: nat, wait: Call)
    requires wait.WaitMany?
  {
    1 <= h <= |s.resume| && s.resume[h - 1] == InMulti(wait.objs, wait.all, wait.timeout)
  }

  /**
   In every run: a multi-object wait that returns STATUS_TIMEOUT at step b, after any
   number of wake-ups and evaluations, changed no object and acquired nothing in any of
   its steps since its call at step a.
   */
  lemma TimedOutWaitChangedNothing(ss: seq<State>, ls: seq<Label>, h: nat, a: nat, b: nat, wait: Call)
    requires IsRun(ss, ls) && Waiting(ss, ls, h, a, b, wait)
    requires ss[b].sched.mode == Fiber(h) && ReturnedWith(ss[b], ss[b + 1], h, STATUS_TIMEOUT)
    ensures forall k :: a <= k <= b && ss[k].sched.mode == Fiber(h) ==> NothingTaken(ss[k], ss[k + 1], h)
    ensures RegisteredNowhere(ss[b + 1], h)
  {
    hide KernelInv, NothingTaken, Next;
    assert a < b ==> InsideWait(ss[a + 1], h, wait);
    WaitStepTakesNothing(ss, ls, h, a, b, wait, a);
    forall k | a <= k <= b && ss[k].sched.mode == Fiber(h) ensures NothingTaken(ss[k], ss[k + 1], h) {
      assert k < b ==> InsideWait(ss[k + 1], h, wait);
      WaitStepTakesNothing(ss, ls, h, a, b, wait, k);
    }
    StepAt(ss, ls, b);
    RunKeeps(ss, ls, b + 1);
    LastStepOfWait(ss, ls, h, a, b, wait);
    ReturnsToBody(ss[b], ls[b], ss[b + 1], h);
    NoTraceOutside(ss[b + 1], h);
  }

  lemma LastStepOfWait(ss: seq<State>, ls: seq<Label>, h: nat, a: nat, b: nat, wait: Call)
    requires IsRun(ss, ls) && Waiting(ss, ls, h, a, b, wait) && ss[b].sched.mode == Fiber(h)
    ensures a == b || (ls[b] == Continue && InsideWait(ss[b], h, wait))
  {
    hide Next;
    StepAt(ss, ls, b);
    assert a < b ==> InsideWait(ss[b], h, wait);
  }

  lemma WaitStepTakesNothing(ss: seq<State>, ls: seq<Label>, h: nat, a: nat, b: nat, wait: Call, k: nat)
    requires IsRun(ss, ls) && Waiting(ss, ls, h, a, b, wait) && a <= k <= b && ss[k].sched.mode == Fiber(h)
    requires NotServed(ss[k], ss[k + 1], h)
    requires k > a ==> NotServed(ss[a], ss[a + 1], h)
    ensures NothingTaken(ss[k], ss[k + 1], h)
  {
    hide Apply, ResumeMany, NothingTaken, KernelInv;
    StepAt(ss, ls, a);
    StepAt(ss, ls, k);
    CallTakesNothing(ss[a], h, wait.objs, wait.all, wait.immediate, wait.timeout);
    if k > a {
      assert InsideWait(ss[k], h, wait);
      ResumeTakesNothing(ss[k], h);
    }
  }

  /** A step of a wait that leaves the scheduler alone has left the wait. */
  lemma ReturnsToBody(s: State, l: Label, s': State, h: nat)
    requires StepsTo(s, l, s') && s.sched.mode == Fiber(h) && s'.sched == s.sched
    requires (l == Continue && s.resume[h - 1].InMulti?) || (l.Call? && l.call.WaitMany?)
    ensures h <= |s'.resume| && s'.resume[h - 1] == Body
  {
    hide EvalMany, Deregister;
    if l == Continue {
      var InMulti(targets, all, timeout) := s.resume[h - 1];
      EvalReturnsToBody(Unwind(s, h).(objs := Deregister(s.objs, h, targets, 0)), h, targets, all, false, timeout);
    } else if forall i :: 0 <= i < |l.call.objs| ==> Has(s, l.call.objs[i]) {
      EvalReturnsToBody(s, h, l.call.objs, l.call.all, l.call.immediate, l.call.timeout);
    }
  }

  lemma EvalReturnsToBody(s: State, h: nat, targets: seq<nat>, all: bool, immediate: bool, timeout: nat)
    requires Caller(s, h) && InTable(s, targets)
    ensures var s' := EvalMany(s, h, targets, all, immediate, timeout); s'.sched == s.sched ==> s'.resume == s.resume
  {
    hide AcquireAll, Register, FirstSatisfied;
    AcquireAllLeavesSched(s, h, targets, 0, STATUS_SUCCESS);
  }

  lemma NoTraceOutside(s: State, h: nat)
    requires KernelInv(s) && 1 <= h <= |s.resume| && s.resume[h - 1] == Body
    ensures RegisteredNowhere(s, h)
  {
    forall o | 0 <= o < |s.objs| ensures h !in s.objs[o].waiters {
      assert h in s.objs[o].waiters ==> RegisteredOk(s.sched.threads, s.resume, o, s.objs[o].kind, h);
    }
  }

  /** In every reachable state, a fiber is registered on an object only while it waits on a set that names it. */
  lemma RegisteredOnlyInside(ss: seq<State>, ls: seq<Label>, n: nat, o: nat, h: nat)
    requires IsRun(ss, ls) && n < |ss| && o < |ss[n].objs| && h in ss[n].objs[o].waiters
    ensures 1 <= h <= |ss[n].resume| && ss[n].resume[h - 1].InMulti? && o in ss[n].resume[h - 1].objs
  {
    RunKeeps(ss, ls, n);
    assert RegisteredOk(ss[n].sched.threads, ss[n].resume, o, ss[n].objs[o].kind, h);
  }

  // ---------------------------------------------------------------------
  // Where the promise fails

  /**
   A wait for all decrements a semaphore once for every time it is named. From a
   satisfied set the count stays non-negative exactly when it is named at most
   `count` times.
   */
  lemma {:induction false} RepeatedSemaphoreIsTakenRepeatedly(s: State, h: nat, targets: seq<nat>, from: nat,
      worst: nat, o: nat)
    requires InTable(s, targets) && from <= |targets| && HasSemaphore(s, o)
    ensures var k := AcquireAll(s, h, targets, from, worst).0.objs[o].kind;
      && k == s.objs[o].kind.(count := s.objs[o].kind.count - Occurrences(targets[from..], o))
      && (k.count >= 0 <==> Occurrences(targets[from..], o) <= s.objs[o].kind.count)
    decreases |targets| - from
  {
    if from < |targets| {
      var st := Acquire(s.objs[targets[from]].kind, h).1;
      var worst' := if st != STATUS_SUCCESS && worst == STATUS_SUCCESS then STATUS_ABANDONED + from else worst;
      RepeatedSemaphoreIsTakenRepeatedly(AcquireObject(s, h, targets[from]), h, targets, from + 1, worst', o);
      assert targets[from..][1..] == targets[from + 1..];
    }
  }

  /** One semaphore with one unit. */
  const UNIT: State := Add(BOOT, Semaphore(1, 1))

  lemma TakesTwice()
    ensures InTable(UNIT, [0, 0]) && AllSatisfied(UNIT, 0, [0, 0])
    ensures var r := AcquireAll(UNIT, 0, [0, 0], 0, STATUS_SUCCESS);
            r.0.objs[0].kind == Semaphore(-1, 1) && r.1 == STATUS_SUCCESS
  {
    RepeatedSemaphoreIsTakenRepeatedly(UNIT, 0, [0, 0], 0, STATUS_SUCCESS, 0);
    AcquireAllStatus(UNIT, 0, [0, 0], 0, STATUS_SUCCESS);
    assert [0, 0][0..] == [0, 0] && [0, 0][1..] == [0];
    assert Occurrences([0], 0) == 1;
    assert FirstFlagged(UNIT, 0, [0, 0], 0) == 2;
  }

  /** A run in which a wait-all that names one semaphore twice succeeds and drives its count to -1. */
  lemma RepeatedSemaphoreExample() returns (ss: seq<State>, ls: seq<Label>)
    ensures IsRun(ss, ls) && |ls| == 2 && ls[1] == Call(WaitMany([0, 0], true, true, 0))
    ensures ss[1].objs == [Object(Semaphore(1, 1), [])]
    ensures |ss[2].objs| == 1 && ss[2].objs[0].kind == Semaphore(-1, 1) && ReturnedWith(ss[1], ss[2], 0, STATUS_SUCCESS)
  {
    hide IsRun, AcquireAll;
    var make, wait := Call(NtCreateSemaphore(1, 1)), Call(WaitMany([0, 0], true, true, 0));
    var r := AcquireAll(UNIT, 0, [0, 0], 0, STATUS_SUCCESS);
    var s2 := Return(r.0, 0, r.1);
    TakesTwice();
    AcquireAllLeavesSched(UNIT, 0, [0, 0], 0, STATUS_SUCCESS);
    AcquireAllTook(UNIT, 0, [0, 0], 0, STATUS_SUCCESS, 0);
    assert StepsTo(BOOT, make, UNIT);
    assert StepsTo(UNIT, wait, s2);
    EmptyRun();
    ExtendRun([BOOT], [], make, UNIT);
    ss, ls := [BOOT] + [UNIT], [] + [make];
    ExtendRun(ss, ls, wait, s2);
    ss, ls := ss + [s2], ls + [wait];
  }

  /** A free mutant and a semaphore with one unit. */
  const PAIR: State := Add(Add(BOOT, Mutant(1, 0, false)), Semaphore(1, 1))

  lemma PairFacts()
    ensures PAIR.objs == [Object(Mutant(1, 0, false), []), Object(Semaphore(1, 1), [])]
    ensures Caller(PAIR, 0) && InTable(PAIR, [0, 1]) && AllSatisfied(PAIR, 0, [0, 1])
    ensures FirstFlagged(PAIR, 0, [0, 1], 0) == 0 && FirstSatisfied(PAIR, 0, [0, 1], 0) == 0
  {
    assert [0, 1][0] == 0 && [0, 1][1] == 1;
  }

  /**
   The host sees more than it got. A wait-all takes the semaphore, leaves the mutant, and
   returns 0x80, as if the mutant had been abandoned and acquired.
   */
  lemma HostWaitAllTakesPart()
    ensures var s := EvalMany(PAIR, 0, [0, 1], true, true, 0);
            && Kinds(s) == [Mutant(1, 0, false), Semaphore(0, 1)]
            && ReturnedWith(PAIR, s, 0, 0x80)
  {
    hide EvalMany, FirstFlagged, FirstSatisfied, AllSatisfied, LogGrows, ReturnedWith;
    PairFacts();
    EvalIsAllOrNothing(PAIR, 0, [0, 1], true, true, 0);
    PairOccurrences();
  }

  lemma PairOccurrences()
    ensures Occurrences([0, 1], 0) == 1 == Occurrences([0, 1], 1)
    ensures Occurrences([0], 0) == 1 && Occurrences([0], 1) == 0
  {
    assert [0, 1][1..] == [1] && [1][1..] == [] && [0][1..] == [];
  }

  /** A wait-any returns the position of the mutant and takes nothing. */
  lemma HostWaitAnyTakesNothing()
    ensures var s := EvalMany(PAIR, 0, [0, 1], false, true, 0);
            Kinds(s) == Kinds(PAIR) && ReturnedWith(PAIR, s, 0, 0)
  {
    hide EvalMany, FirstFlagged, FirstSatisfied, AllSatisfied, LogGrows, ReturnedWith;
    PairFacts();
    EvalIsAllOrNothing(PAIR, 0, [0, 1], false, true, 0);
    PairOccurrences();
  }

  /** The host gets there from boot in three calls. */
  lemma HostTakesPartInARun() returns (ss: seq<State>, ls: seq<Label>)
    ensures IsRun(ss, ls) && |ls| == 3 && ls[2] == Call(WaitMany([0, 1], true, true, 0)) && ss[2] == PAIR
    ensures Kinds(ss[3]) == [Mutant(1, 0, false), Semaphore(0, 1)] && ReturnedWith(ss[2], ss[3], 0, 0x80)
  {
    hide EvalMany, IsRun;
    var s1, s3 := Add(BOOT, Mutant(1, 0, false)), EvalMany(PAIR, 0, [0, 1], true, true, 0);
    PairFacts();
    HostWaitAllTakesPart();
    assert StepsTo(BOOT, Call(CreateMutant(false)), s1);
    assert StepsTo(s1, Call(NtCreateSemaphore(1, 1)), PAIR);
    assert StepsTo(PAIR, Call(WaitMany([0, 1], true, true, 0)), s3);
    EmptyRun();
    ExtendRun([BOOT], [], Call(CreateMutant(false)), s1);
    ss, ls := [BOOT] + [s1], [] + [Call(CreateMutant(false))];
    ExtendRun(ss, ls, Call(NtCreateSemaphore(1, 1)), PAIR);
    ss, ls := ss + [PAIR], ls + [Call(NtCreateSemaphore(1, 1))];
    ExtendRun(ss, ls, Call(WaitMany([0, 1], true, true, 0)), s3);
    ss, ls := ss + [s3], ls + [Call(WaitMany([0, 1], true, true, 0))];
  }
}
