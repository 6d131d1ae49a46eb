/** What every interleaving of the queue's steps keeps. */
module IoQueueRuns {
  import opened IoQueue

  // ---------------------------------------------------------------------
  // Reference: one request after the other

  /** Memory after the transfers, in order. */
  function Transferred(mem: map<nat, byte>, ts: seq<Transfer>): map<nat, byte> {
    if ts == [] then mem
    else
      var last := ts[|ts| - 1];
      Write(Transferred(mem, ts[..|ts| - 1]), last.req.dest, last.data)
  }

  function Sources(ts: seq<Transfer>): seq<Req> {
    seq(|ts|, k requires 0 <= k < |ts| => ts[k].req)
  }

  /** The Done requests in enqueue order, each as the worker took it. */
  function DoneReqs(reqs: seq<Req>): seq<Req> {
    if reqs == [] then []
    else
      var last := reqs[|reqs| - 1];
      DoneReqs(reqs[..|reqs| - 1]) + if last.status == Done then [last.(status := InFlight)] else []
  }

  predicate Over(status: Status) {
    status == Done || status == Error
  }

  /** The tags of the requests the worker is done with, in enqueue order. */
  function OverTags(reqs: seq<Req>): seq<nat> {
    if reqs == [] then []
    else OverTags(reqs[..|reqs| - 1]) + if Over(reqs[|reqs| - 1].status) then [reqs[|reqs| - 1].tag] else []
  }

  predicate Unstarted(status: Status) {
    status == Pending || status == Cancelled
  }

  predicate Terminal(status: Status) {
    Over(status) || status == Cancelled
  }

  // ---------------------------------------------------------------------
  // The invariant

  /** Nothing behind a Pending or InFlight request has been started. */
  predicate InOrder(reqs: seq<Req>) {
    forall i, j :: 0 <= i < j < |reqs| && (reqs[i].status == Pending || reqs[i].status == InFlight) ==>
      Unstarted(reqs[j].status)
  }

  /** Request i is r, and the only one InFlight. */
  predicate Flies(reqs: seq<Req>, r: Req, i: int) {
    && 0 <= i < |reqs| && reqs[i] == r && r.status == InFlight
    && forall j :: 0 <= j < |reqs| && j != i ==> reqs[j].status != InFlight
  }

  /** The worker's request is the one and only InFlight one. */
  ghost predicate FlightOk(reqs: seq<Req>, inFlight: nat, worker: Worker) {
    if worker == Idle then inFlight == 0 && forall j :: 0 <= j < |reqs| ==> reqs[j].status != InFlight
    else inFlight == 1 && exists i :: Flies(reqs, worker.req, i)
  }

  /** The request whose transfer is made and not yet booked, if there is one. */
  function Unbooked(worker: Worker): seq<Req> {
    if worker.Wrote? && worker.ok then [worker.req] else []
  }

  /** Memory is what the transfers made of it, and they are those of the Done requests. */
  ghost predicate MemoryOk(m0: map<nat, byte>, reqs: seq<Req>, worker: Worker, wrote: seq<Transfer>,
      mem: map<nat, byte>) {
    && mem == Transferred(m0, wrote)
    && Sources(wrote) == DoneReqs(reqs) + Unbooked(worker)
  }

  ghost predicate Inv(q: Queue, m0: map<nat, byte>) {
    && InOrder(q.reqs) && FlightOk(q.reqs, q.inFlight, q.worker)
    && Slots(q) <= CAPACITY
    && MemoryOk(m0, q.reqs, q.worker, q.wrote, q.mem)
    && q.finished == OverTags(q.reqs)
  }

  // ---------------------------------------------------------------------
  // Counting and order under the two changes a list undergoes

  lemma CountAppend(reqs: seq<Req>, r: Req)
    ensures CountPending(reqs + [r]) == CountPending(reqs) + if r.status == Pending then 1 else 0
  {
    assert (reqs + [r])[..|reqs|] == reqs;
  }

  lemma {:induction false} CountSet(reqs: seq<Req>, i: nat, status: Status)
    requires i < |reqs|
    ensures CountPending(SetStatus(reqs, i, status))
         == CountPending(reqs) - (if reqs[i].status == Pending then 1 else 0) + if status == Pending then 1 else 0
  {
    var init, last := reqs[..|reqs| - 1], |reqs| - 1;
    var reqs' := SetStatus(reqs, i, status);
    if i < last {
      CountSet(init, i, status);
      assert reqs'[..last] == SetStatus(init, i, status);
    } else {
      assert reqs'[..last] == init;
    }
  }

  lemma {:induction false} CountZero(reqs: seq<Req>)
    ensures CountPending(reqs) == 0 <==> forall i :: 0 <= i < |reqs| ==> reqs[i].status != Pending
  {
    if reqs != [] {
      CountZero(reqs[..|reqs| - 1]);
      assert forall i :: 0 <= i < |reqs| - 1 ==> reqs[..|reqs| - 1][i] == reqs[i];
    }
  }

  /** The records of finished requests depend on those requests only. */
  lemma {:induction false} RecordsSame(reqs: seq<Req>, reqs': seq<Req>)
    requires |reqs| == |reqs'|
    requires forall i :: 0 <= i < |reqs| ==>
               reqs'[i] == reqs[i] || (!Over(reqs[i].status) && !Over(reqs'[i].status))
    ensures OverTags(reqs) == OverTags(reqs') && DoneReqs(reqs) == DoneReqs(reqs')
  {
    if reqs != [] {
      RecordsSame(reqs[..|reqs| - 1], reqs'[..|reqs| - 1]);
    }
  }

  /** Requests behind the last finished one do not matter. */
  lemma {:induction false} RecordsTail(reqs: seq<Req>, n: nat)
    requires n <= |reqs| && forall i :: n <= i < |reqs| ==> !Over(reqs[i].status)
    ensures OverTags(reqs) == OverTags(reqs[..n]) && DoneReqs(reqs) == DoneReqs(reqs[..n])
    decreases |reqs|
  {
    if n < |reqs| {
      var init := reqs[..|reqs| - 1];
      RecordsTail(init, n);
      assert init[..n] == reqs[..n];
    } else {
      assert reqs[..n] == reqs;
    }
  }

  // ---------------------------------------------------------------------
  // A change of one status

  /** The status changes the queue makes: cancel, start the first pending request, finish. */
  predicate LegalChange(reqs: seq<Req>, i: nat, status: Status)
    requires i < |reqs|
  {
    || (reqs[i].status == Pending && status == Cancelled)
    || (reqs[i].status == InFlight && Over(status))
    || (reqs[i].status == Pending && status == InFlight
        && forall j :: 0 <= j < i ==> reqs[j].status != Pending && reqs[j].status != InFlight)
  }

  lemma StatusOrder(reqs: seq<Req>, i: nat, status: Status)
    requires InOrder(reqs) && i < |reqs| && LegalChange(reqs, i, status)
    ensures InOrder(SetStatus(reqs, i, status))
  {
    var reqs' := SetStatus(reqs, i, status);
    forall a, b | 0 <= a < b < |reqs'| && (reqs'[a].status == Pending || reqs'[a].status == InFlight)
      ensures Unstarted(reqs'[b].status)
    {
      if a == i {
        assert Unstarted(reqs[b].status);
      } else {
        assert reqs'[a] == reqs[a] && Unstarted(reqs[b].status);
      }
    }
  }

  lemma CancelKeeps(q: Queue, m0: map<nat, byte>, tag: nat)
    requires Inv(q, m0)
    ensures Inv(Cancel(q, tag).0, m0)
  {
    hide InOrder, FlightOk, MemoryOk;
    var i := FindTag(q.reqs, tag, Pending, 0);
    if i < |q.reqs| {
      StatusOrder(q.reqs, i, Cancelled);
      StatusMemory(m0, q, i, Cancelled);
      CountSet(q.reqs, i, Cancelled);
      CancelFlight(q, i);
    }
  }

  lemma CancelFlight(q: Queue, i: nat)
    requires FlightOk(q.reqs, q.inFlight, q.worker) && i < |q.reqs| && q.reqs[i].status == Pending
    ensures FlightOk(SetStatus(q.reqs, i, Cancelled), q.inFlight, q.worker)
  {
    if q.worker != Idle {
      var f :| Flies(q.reqs, q.worker.req, f);
      assert Flies(SetStatus(q.reqs, i, Cancelled), q.worker.req, f);
    }
  }

  lemma StartKeeps(q: Queue, m0: map<nat, byte>)
    requires Inv(q, m0) && q.worker == Idle && q.submitted
    ensures Inv(Start(q), m0)
  {
    hide InOrder, FlightOk, LegalChange, MemoryOk;
    var i := FirstPending(q.reqs, 0);
    NoneFlies(q.reqs, q.inFlight);
    if i < |q.reqs| {
      StartFlight(q.reqs, i);
      StatusOrder(q.reqs, i, InFlight);
      StatusMemory(m0, q, i, InFlight);
      CountSet(q.reqs, i, InFlight);
    }
  }

  /** The place of the worker's request. */
  lemma Flying(reqs: seq<Req>, inFlight: nat, worker: Worker) returns (f: nat)
    requires FlightOk(reqs, inFlight, worker) && worker != Idle
    ensures inFlight == 1 && Flies(reqs, worker.req, f)
  {
    var i :| Flies(reqs, worker.req, i);
    f := i;
  }

  lemma NoneFlies(reqs: seq<Req>, inFlight: nat)
    requires FlightOk(reqs, inFlight, Idle)
    ensures inFlight == 0
  {
  }

  /** A change that neither starts nor ends in Done or Error does not touch the records. */
  lemma StatusMemory(m0: map<nat, byte>, q: Queue, i: nat, status: Status)
    requires MemoryOk(m0, q.reqs, q.worker, q.wrote, q.mem) && i < |q.reqs| && !Over(q.reqs[i].status) && !Over(status)
    ensures OverTags(SetStatus(q.reqs, i, status)) == OverTags(q.reqs)
    ensures MemoryOk(m0, SetStatus(q.reqs, i, status), q.worker, q.wrote, q.mem)
    ensures q.worker == Idle ==> forall r :: MemoryOk(m0, SetStatus(q.reqs, i, status), Reading(r), q.wrote, q.mem)
  {
    RecordsSame(q.reqs, SetStatus(q.reqs, i, status));
  }

  lemma StartFlight(reqs: seq<Req>, i: nat)
    requires i == FirstPending(reqs, 0) < |reqs| && FlightOk(reqs, 0, Idle)
    ensures FlightOk(SetStatus(reqs, i, InFlight), 1, Reading(SetStatus(reqs, i, InFlight)[i]))
    ensures LegalChange(reqs, i, InFlight)
  {
    assert Flies(SetStatus(reqs, i, InFlight), SetStatus(reqs, i, InFlight)[i], i);
  }

  lemma IoKeeps(q: Queue, m0: map<nat, byte>)
    requires Inv(q, m0) && q.worker.Reading?
    ensures Inv(Io(q), m0)
  {
    hide InOrder, FlightOk, MemoryOk, Write, Slice, Readable, Writable;
    var r := q.worker.req;
    IoFlight(q.reqs, q.inFlight, r);
    if Readable(q, r) {
      IoMemory(m0, q, r, Slice(q, r));
    } else {
      IoMemory(m0, q, r, []);
    }
  }

  lemma IoFlight(reqs: seq<Req>, inFlight: nat, r: Req)
    requires FlightOk(reqs, inFlight, Reading(r))
    ensures FlightOk(reqs, inFlight, Wrote(r, true)) && FlightOk(reqs, inFlight, Wrote(r, false))
  {
    var f :| Flies(reqs, r, f);
  }

  lemma IoMemory(m0: map<nat, byte>, q: Queue, r: Req, data: seq<byte>)
    requires MemoryOk(m0, q.reqs, Reading(r), q.wrote, q.mem)
    ensures MemoryOk(m0, q.reqs, Wrote(r, true), q.wrote + [Transfer(r, data)], Write(q.mem, r.dest, data))
    ensures MemoryOk(m0, q.reqs, Wrote(r, false), q.wrote, q.mem)
  {
    hide Write;
    TransferNext(m0, q.wrote, r, data);
  }

  lemma TransferNext(m0: map<nat, byte>, wrote: seq<Transfer>, r: Req, data: seq<byte>)
    ensures Transferred(m0, wrote + [Transfer(r, data)]) == Write(Transferred(m0, wrote), r.dest, data)
    ensures Sources(wrote + [Transfer(r, data)]) == Sources(wrote) + [r]
  {
    hide Write;
    assert (wrote + [Transfer(r, data)])[..|wrote|] == wrote;
  }

  /** The worker's request is found again by its tag and state, whatever other requests carry that tag. */
  lemma FoundByTag(reqs: seq<Req>, r: Req, f: nat)
    requires Flies(reqs, r, f)
    ensures FindTag(reqs, r.tag, InFlight, 0) == f < |reqs| && reqs[f].status == InFlight
  {
  }

  lemma FinishKeeps(q: Queue, m0: map<nat, byte>)
    requires Inv(q, m0) && q.worker.Wrote?
    ensures Inv(Finish(q), m0)
  {
    hide InOrder, FlightOk, MemoryOk, LegalChange, Flies, CountPending, OverTags;
    var Wrote(r, ok) := q.worker;
    var status := if ok then Done else Error;
    var f := Flying(q.reqs, q.inFlight, q.worker);
    FoundByTag(q.reqs, r, f);
    FinishFlight(q.reqs, r, f, status);
    FinishMemory(q, m0, f, status);
    CountSet(q.reqs, f, status);
    StatusOrder(q.reqs, f, status);
  }

  lemma FinishMemory(q: Queue, m0: map<nat, byte>, f: nat, status: Status)
    requires MemoryOk(m0, q.reqs, q.worker, q.wrote, q.mem) && InOrder(q.reqs)
    requires q.worker.Wrote? && Flies(q.reqs, q.worker.req, f) && status == if q.worker.ok then Done else Error
    ensures MemoryOk(m0, SetStatus(q.reqs, f, status), Idle, q.wrote, q.mem)
    ensures OverTags(SetStatus(q.reqs, f, status)) == OverTags(q.reqs) + [q.worker.req.tag]
    ensures LegalChange(q.reqs, f, status)
  {
    hide Transferred, Sources, DoneReqs, OverTags, InOrder;
    FinishRecords(q.reqs, q.worker.req, f, status);
  }

  lemma FinishFlight(reqs: seq<Req>, r: Req, f: nat, status: Status)
    requires Flies(reqs, r, f) && Over(status)
    ensures FlightOk(SetStatus(reqs, f, status), 0, Idle)
  {
  }

  /** The finished request becomes the last one of both records. */
  lemma FinishRecords(reqs: seq<Req>, r: Req, f: nat, status: Status)
    requires InOrder(reqs) && Flies(reqs, r, f) && Over(status)
    ensures OverTags(SetStatus(reqs, f, status)) == OverTags(reqs) + [r.tag]
    ensures DoneReqs(SetStatus(reqs, f, status)) == DoneReqs(reqs) + if status == Done then [r] else []
  {
    var reqs' := SetStatus(reqs, f, status);
    assert forall i :: f < i < |reqs| ==> Unstarted(reqs[i].status);
    RecordsTail(reqs, f);
    RecordsTail(reqs', f + 1);
    assert reqs'[..f + 1][..f] == reqs[..f];
  }

  // ---------------------------------------------------------------------
  // A new request at the end

  lemma PushKeeps(q: Queue, m0: map<nat, byte>, r: Req)
    requires Inv(q, m0) && Slots(q) < CAPACITY
    ensures Inv(Push(q, r), m0)
  {
    hide FlightOk, InOrder;
    var p := r.(status := Pending);
    CountAppend(q.reqs, p);
    PushFlight(q.reqs, q.inFlight, q.worker, p);
    PushRecords(q.reqs, p);
  }

  lemma PushFlight(reqs: seq<Req>, inFlight: nat, worker: Worker, p: Req)
    requires FlightOk(reqs, inFlight, worker) && p.status == Pending
    ensures FlightOk(reqs + [p], inFlight, worker)
  {
    if worker != Idle {
      var f :| Flies(reqs, worker.req, f);
      assert Flies(reqs + [p], worker.req, f);
    }
  }

  lemma PushRecords(reqs: seq<Req>, p: Req)
    requires InOrder(reqs) && p.status == Pending
    ensures OverTags(reqs + [p]) == OverTags(reqs) && DoneReqs(reqs + [p]) == DoneReqs(reqs) && InOrder(reqs + [p])
  {
    assert (reqs + [p])[..|reqs|] == reqs;
  }

  // ---------------------------------------------------------------------
  // Runs

  lemma StepKeeps(q: Queue, m0: map<nat, byte>, l: Label)
    requires Inv(q, m0) && Enabled(q, l)
    ensures Inv(Next(q, l), m0)
  {
    hide Push, Start, Io, Finish, InOrder, FlightOk, MemoryOk, OverTags;
    match l
    case DoEnqueue(r) =>
      if Enqueue(q, r).1 { PushKeeps(q, m0, r); }
    case DoEnqueueWait(r) =>
      if Acceptable(q, r) && !HasTag(q.reqs, r.tag) && Slots(q) < CAPACITY { PushKeeps(q, m0, r); }
    case DoAdmit(k) => PushKeeps(q.(blocked := q.blocked[..k] + q.blocked[k + 1..]), m0, q.blocked[k]);
    case DoCancel(tag) => CancelKeeps(q, m0, tag);
    case DoStart => StartKeeps(q, m0);
    case DoIo => IoKeeps(q, m0);
    case DoFinish => FinishKeeps(q, m0);
    case _ =>
  }

  lemma {:induction false} RunKeeps(qs: seq<Queue>, ls: seq<Label>, n: nat)
    requires IsRun(qs, ls) && n < |qs|
    ensures Inv(qs[n], qs[0].mem)
  {
    if n > 0 {
      RunKeeps(qs, ls, n - 1);
      assert StepsAt(qs, ls, n - 1);
      StepKeeps(qs[n - 1], qs[0].mem, ls[n - 1]);
    }
  }
}
