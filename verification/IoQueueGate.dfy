/** The submit gate: what starts without a submit, what wait_all waits for, and who is notified. */
module IoQueueGate {
  import opened IoQueue
  import opened IoQueueRuns
  import opened IoQueueTheorems

  // ---------------------------------------------------------------------
  // The life of one request

  /** Where a status can go in one step. */
  predicate Follows(from: Status, to: Status, l: Label) {
    || to == from
    || (from == Pending && to == Cancelled)
    || (from == Pending && to == InFlight && l == DoStart)
    || (from == InFlight && Over(to))
  }

  lemma RequestStep(q: Queue, l: Label, i: nat)
    requires Enabled(q, l) && i < |q.reqs|
    ensures i < |Next(q, l).reqs| && Follows(q.reqs[i].status, Next(q, l).reqs[i].status, l)
  {
  }

  lemma NewRequest(q: Queue, l: Label)
    requires Enabled(q, l)
    ensures var q' := Next(q, l);
      |q'.reqs| == |q.reqs| || (|q'.reqs| == |q.reqs| + 1 && q'.reqs[|q.reqs|].status == Pending)
  {
  }

  /** The gate closes only over an empty backlog. */
  lemma GateHolds(q: Queue, l: Label, i: nat)
    requires Enabled(q, l) && q.submitted && i < |Next(q, l).reqs| && Next(q, l).reqs[i].status == Pending
    ensures Next(q, l).submitted
  {
    CountZero(Next(q, l).reqs);
  }

  predicate PushedAt(qs: seq<Queue>, p: nat, i: nat) {
    p + 1 < |qs| && |qs[p].reqs| == i && |qs[p + 1].reqs| == i + 1
  }

  predicate StartedAt(qs: seq<Queue>, s: nat, i: nat) {
    && s + 1 < |qs| && i < |qs[s].reqs| && i < |qs[s + 1].reqs|
    && qs[s].reqs[i].status == Pending && qs[s + 1].reqs[i].status == InFlight
  }

  /** The gate goes from closed to open. */
  predicate OpensAt(qs: seq<Queue>, m: nat) {
    m + 1 < |qs| && !qs[m].submitted && qs[m + 1].submitted
  }

  lemma {:induction false} Pushed(qs: seq<Queue>, ls: seq<Label>, n: nat, i: nat) returns (p: nat)
    requires IsRun(qs, ls) && n < |qs| && i < |qs[n].reqs|
    ensures p < n && PushedAt(qs, p, i)
  {
    assert n > 0;
    assert StepsAt(qs, ls, n - 1);
    NewRequest(qs[n - 1], ls[n - 1]);
    if i < |qs[n - 1].reqs| {
      p := Pushed(qs, ls, n - 1, i);
    } else {
      p := n - 1;
    }
  }

  lemma {:induction false} Started(qs: seq<Queue>, ls: seq<Label>, n: nat, i: nat) returns (s: nat)
    requires IsRun(qs, ls) && n < |qs| && i < |qs[n].reqs| && !Unstarted(qs[n].reqs[i].status)
    ensures s < n && ls[s] == DoStart && StartedAt(qs, s, i)
  {
    hide Next;
    assert n > 0;
    assert StepsAt(qs, ls, n - 1);
    NewRequest(qs[n - 1], ls[n - 1]);
    RequestStep(qs[n - 1], ls[n - 1], i);
    if Unstarted(qs[n - 1].reqs[i].status) {
      s := n - 1;
    } else {
      s := Started(qs, ls, n - 1, i);
    }
  }

  lemma {:induction false} PlacesStay(qs: seq<Queue>, ls: seq<Label>, a: nat, b: nat)
    requires IsRun(qs, ls) && a <= b < |qs|
    ensures |qs[a].reqs| <= |qs[b].reqs|
    decreases b
  {
    hide Next;
    if a < b {
      PlacesStay(qs, ls, a, b - 1);
      assert StepsAt(qs, ls, b - 1);
      NewRequest(qs[b - 1], ls[b - 1]);
    }
  }

  /** A pending request has been pending ever since it was enqueued. */
  lemma {:induction false} PendingSince(qs: seq<Queue>, ls: seq<Label>, a: nat, b: nat, i: nat)
    requires IsRun(qs, ls) && a <= b < |qs| && i < |qs[a].reqs| && i < |qs[b].reqs| && qs[b].reqs[i].status == Pending
    ensures qs[a].reqs[i].status == Pending
    decreases b
  {
    hide Next;
    if a < b {
      PlacesStay(qs, ls, a, b - 1);
      assert StepsAt(qs, ls, b - 1);
      RequestStep(qs[b - 1], ls[b - 1], i);
      PendingSince(qs, ls, a, b - 1, i);
    }
  }

  /** From a state with an open gate on, the gate stays open as long as request i is pending. */
  lemma {:induction false} OpenWhilePending(qs: seq<Queue>, ls: seq<Label>, a: nat, b: nat, i: nat)
    requires IsRun(qs, ls) && a <= b < |qs| && qs[a].submitted && i <= |qs[a].reqs|
    requires a < b ==> i < |qs[a + 1].reqs|
    requires i < |qs[b].reqs| && qs[b].reqs[i].status == Pending
    ensures qs[b].submitted
    decreases b
  {
    hide Next;
    if a < b {
      assert StepsAt(qs, ls, b - 1);
      if a + 1 < b {
        PlacesStay(qs, ls, a + 1, b - 1);
        PendingSince(qs, ls, b - 1, b, i);
        OpenWhilePending(qs, ls, a, b - 1, i);
      }
      GateHolds(qs[b - 1], ls[b - 1], i);
    }
  }

  lemma {:induction false} OpensBetween(qs: seq<Queue>, a: nat, b: nat)
    requires a <= b < |qs| && !qs[a].submitted && qs[b].submitted
    ensures exists m :: a <= m < b && OpensAt(qs, m)
    decreases b
  {
    if qs[b - 1].submitted {
      OpensBetween(qs, a, b - 1);
    } else {
      assert OpensAt(qs, b - 1);
    }
  }

  /**
   The header says that requests do not start until they are submitted, and that new ones
   wait for the next gate. In every run, a request that was started (pushed at step p,
   started at step s) saw the gate open between the two, by a submit or by auto-submit,
   exactly when the gate was closed when it was pushed.
   */
  lemma SubmittedBeforeStartExactly(qs: seq<Queue>, ls: seq<Label>, n: nat, i: nat) returns (p: nat, s: nat)
    requires IsRun(qs, ls) && n < |qs| && i < |qs[n].reqs| && !Unstarted(qs[n].reqs[i].status)
    ensures p < s < n && PushedAt(qs, p, i) && StartedAt(qs, s, i)
    ensures (exists m :: p <= m < s && OpensAt(qs, m)) <==> !qs[p].submitted
  {
    hide Next;
    s := Started(qs, ls, n, i);
    p := Pushed(qs, ls, s, i);
    assert StepsAt(qs, ls, s);
    if !qs[p].submitted {
      OpensBetween(qs, p, s);
    } else {
      forall m | p <= m < s ensures !OpensAt(qs, m) {
        if p < m {
          PlacesStay(qs, ls, p + 1, m);
          PendingSince(qs, ls, m, s, i);
          OpenWhilePending(qs, ls, p, m, i);
        }
      }
    }
  }

  // ---------------------------------------------------------------------
  // A request that starts without a submit

  const FIRST: Req := Sample(0)
  const LATE: Req := Sample(1)

  /** Manual mode: one request is submitted, a second one comes while the gate is open. */
  const SCRIPT: seq<Label> :=
    [SetAuto(false), DoEnqueue(FIRST), DoSubmit, DoEnqueue(LATE), DoStart, DoIo, DoFinish, DoStart]

  function Scene(reqs: seq<Req>, submitted: bool, worker: Worker, finished: seq<nat>): Queue {
    Queue(reqs, if worker == Idle then 0 else 1, submitted, false, worker, [], map[], {0}, map[], [], finished)
  }

  function Scenes(): seq<Queue> {
    var flies, lateFlies := FIRST.(status := InFlight), LATE.(status := InFlight);
    [ Boot(map[], {0}, map[]),
      Scene([], false, Idle, []),
      Scene([FIRST], false, Idle, []),
      Scene([FIRST], true, Idle, []),
      Scene([FIRST, LATE], true, Idle, []),
      Scene([flies, LATE], true, Reading(flies), []),
      Scene([flies, LATE], true, Wrote(flies, false), []),
      Scene([FIRST.(status := Error), LATE], true, Idle, [0]),
      Scene([FIRST.(status := Error), lateFlies], true, Reading(lateFlies), [0]) ]
  }

  lemma FirstSteps()
    ensures StepsTo(Scenes()[0], SetAuto(false), Scenes()[1])
    ensures StepsTo(Scenes()[1], DoEnqueue(FIRST), Scenes()[2])
    ensures StepsTo(Scenes()[2], DoSubmit, Scenes()[3])
    ensures StepsTo(Scenes()[3], DoEnqueue(LATE), Scenes()[4])
  {
    CountAppend([], FIRST);
    CountAppend([FIRST], LATE);
    assert ValidPath(FIRST.path);
  }

  lemma LastSteps()
    ensures StepsTo(Scenes()[4], DoStart, Scenes()[5])
    ensures StepsTo(Scenes()[5], DoIo, Scenes()[6])
    ensures StepsTo(Scenes()[6], DoFinish, Scenes()[7])
    ensures StepsTo(Scenes()[7], DoStart, Scenes()[8])
  {
    var failed := FIRST.(status := Error);
    CountAppend([], failed);
    CountAppend([failed], LATE);
    assert [failed] + [LATE] == [failed, LATE];
    assert FirstPending([FIRST, LATE], 0) == 0;
    assert FirstPending([failed, LATE], 1) == 1 == FirstPending([failed, LATE], 0);
  }

  /**
   A run in manual mode that ends with a request in flight for which nobody called submit:
   the only submit came before the request, and the gate never opened again.
   */
  lemma LateRequestStarts() returns (qs: seq<Queue>, ls: seq<Label>)
    ensures IsRun(qs, ls) && ls == SCRIPT && !qs[1].autoSubmit
    ensures PushedAt(qs, 3, 1) && StartedAt(qs, 7, 1)
    ensures forall m :: 3 <= m < |ls| ==> ls[m] != DoSubmit && !OpensAt(qs, m)
  {
    hide StepsTo;
    qs, ls := Scenes(), SCRIPT;
    FirstSteps();
    LastSteps();
    forall i | 0 <= i < |ls| ensures StepsAt(qs, ls, i) {
    }
    assert qs[0] == Boot(map[], {0}, map[]);
  }

  // ---------------------------------------------------------------------
  // wait_all

  /** The condition on which wait_all returns. */
  predicate WaitAllReturns(q: Queue) {
    q.inFlight == 0 && (q.submitted ==> CountPending(q.reqs) == 0)
  }

  /**
   When wait_all returns, at n, every request that was pending under an open gate at any
   moment m before, whether a submit found it or it came later, is in a terminal state.
   */
  lemma WaitAllMeansDone(qs: seq<Queue>, ls: seq<Label>, m: nat, n: nat, i: nat)
    requires IsRun(qs, ls) && m <= n < |qs| && WaitAllReturns(qs[n])
    requires qs[m].submitted && i < |qs[m].reqs| && qs[m].reqs[i].status == Pending
    ensures i < |qs[n].reqs| && Terminal(qs[n].reqs[i].status)
  {
    hide Next;
    PlacesStay(qs, ls, m, n);
    RunKeeps(qs, ls, n);
    CountZero(qs[n].reqs);
    if qs[n].reqs[i].status == Pending {
      if m < n {
        PlacesStay(qs, ls, m, m + 1);
      }
      OpenWhilePending(qs, ls, m, n, i);
    }
  }

  // ---------------------------------------------------------------------
  // Notifications

  datatype Signal = WorkSignal | DoneSignal

  /** The condition variables that a step notifies: cv_work_ and cv_done_. */
  function Notifies(q: Queue, l: Label): set<Signal>
    requires Enabled(q, l)
  {
    match l
    case DoEnqueue(r) => if Enqueue(q, r).1 && AutoOpens(q) then {WorkSignal} else {}
    case DoEnqueueWait(r) => if EnqueueWait(q, r).1 && Slots(q) < CAPACITY && AutoOpens(q) then {WorkSignal} else {}
    case DoAdmit(_) => if AutoOpens(q) then {WorkSignal} else {}
    case DoCancel(tag) => if Cancel(q, tag).1 then {DoneSignal, WorkSignal} else {}
    case DoSubmit => if Submit(q).1 then {WorkSignal} else {}
    case DoFinish => {DoneSignal}
    case _ => {}
  }

  /** The conditions threads wait for: the worker, enqueue_wait, wait_tag and wait_all. */
  datatype Condition = GateOpen | SlotFree | TagDone(tag: nat) | AllDone

  /** The first request with the tag, or the length. */
  function FirstTag(reqs: seq<Req>, tag: nat, from: nat): (i: nat)
    requires from <= |reqs|
    ensures from <= i <= |reqs|
    ensures i < |reqs| ==> reqs[i].tag == tag
    ensures forall j :: from <= j < i ==> reqs[j].tag != tag
    decreases |reqs| - from
  {
    if from == |reqs| || reqs[from].tag == tag then from else FirstTag(reqs, tag, from + 1)
  }

  predicate Holds(q: Queue, c: Condition) {
    match c
    case GateOpen => q.submitted
    case SlotFree => Slots(q) < CAPACITY
    case TagDone(tag) => var i := FirstTag(q.reqs, tag, 0); i < |q.reqs| ==> Terminal(q.reqs[i].status)
    case AllDone => WaitAllReturns(q)
  }

  function SignalOf(c: Condition): Signal {
    if c == GateOpen then WorkSignal else DoneSignal
  }

  /** A step that makes a condition true notifies the threads that wait for it. */
  lemma MakersNotify(q: Queue, l: Label, c: Condition)
    requires Enabled(q, l) && !Holds(q, c) && Holds(Next(q, l), c)
    ensures SignalOf(c) in Notifies(q, l)
  {
    match c
    case TagDone(tag) => TagMakersNotify(q, l, tag);
    case _ => CountMakersNotify(q, l, c);
  }

  lemma CountMakersNotify(q: Queue, l: Label, c: Condition)
    requires Enabled(q, l) && !c.TagDone? && !Holds(q, c) && Holds(Next(q, l), c)
    ensures SignalOf(c) in Notifies(q, l)
  {
    hide Io, Start, Push, CountPending;
    match l
    case DoEnqueue(r) => PushMakes(q, r);
    case DoEnqueueWait(r) => PushMakes(q, r);
    case DoAdmit(k) => PushMakes(q.(blocked := q.blocked[..k] + q.blocked[k + 1..]), q.blocked[k]);
    case DoStart => StartMakesNothing(q);
    case DoIo => IoMakesNothing(q);
    case _ =>
  }

  /** A new request makes no condition true but the worker's, and that only by auto-submit. */
  lemma PushMakes(q: Queue, r: Req)
    ensures Push(q, r).submitted == (q.submitted || AutoOpens(q))
    ensures Slots(Push(q, r)) > Slots(q) && (WaitAllReturns(Push(q, r)) ==> WaitAllReturns(q))
  {
    CountAppend(q.reqs, r.(status := Pending));
  }

  lemma StartMakesNothing(q: Queue)
    requires q.worker == Idle && q.submitted
    ensures Slots(Start(q)) == Slots(q) && (WaitAllReturns(Start(q)) ==> WaitAllReturns(q))
  {
    var i := FirstPending(q.reqs, 0);
    if i < |q.reqs| {
      CountSet(q.reqs, i, InFlight);
    } else {
      CountZero(q.reqs);
    }
  }

  lemma IoMakesNothing(q: Queue)
    requires q.worker.Reading?
    ensures Slots(Io(q)) == Slots(q) && Io(q).submitted == q.submitted && (WaitAllReturns(Io(q)) ==> WaitAllReturns(q))
  {
  }

  lemma TagMakersNotify(q: Queue, l: Label, tag: nat)
    requires Enabled(q, l) && !Holds(q, TagDone(tag)) && Holds(Next(q, l), TagDone(tag))
    ensures DoneSignal in Notifies(q, l)
  {
    var i := FirstTag(q.reqs, tag, 0);
    RequestStep(q, l, i);
    SameFirstTag(q, l, tag);
  }

  lemma SameFirstTag(q: Queue, l: Label, tag: nat)
    requires Enabled(q, l) && FirstTag(q.reqs, tag, 0) < |q.reqs|
    ensures FirstTag(Next(q, l).reqs, tag, 0) == FirstTag(q.reqs, tag, 0)
  {
    var reqs', i := Next(q, l).reqs, FirstTag(q.reqs, tag, 0);
    assert i < |reqs'| && forall j :: 0 <= j < |q.reqs| ==> reqs'[j].tag == q.reqs[j].tag;
  }

  /**
   In every run: if a condition is false at a and true at b, a step in between made it
   true and notified its waiters.
   */
  lemma {:induction false} NoMissedNotification(qs: seq<Queue>, ls: seq<Label>, a: nat, b: nat, c: Condition)
    requires IsRun(qs, ls) && a <= b < |qs| && !Holds(qs[a], c) && Holds(qs[b], c)
    ensures exists k ::
      a <= k < b && Enabled(qs[k], ls[k]) && Holds(qs[k + 1], c) && SignalOf(c) in Notifies(qs[k], ls[k])
    decreases b
  {
    hide Next, Holds, Notifies;
    if Holds(qs[b - 1], c) {
      NoMissedNotification(qs, ls, a, b - 1, c);
    } else {
      assert StepsAt(qs, ls, b - 1);
      MakersNotify(qs[b - 1], ls[b - 1], c);
    }
  }
}
