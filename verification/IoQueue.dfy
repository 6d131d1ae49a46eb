/**
 The asynchronous file-to-memory queue (src/io_queue.cpp) as a state machine. Each step
 is one critical section under the queue's mutex, or the worker's input/output, which
 runs outside it; the steps of the callers and of the worker interleave freely.
 */
module IoQueue {

  const CAPACITY: nat := 8
  const AUTO_SUBMIT: nat := CAPACITY / 2

  newtype byte = x: int | 0 <= x < 256

  datatype Status = Pending | InFlight | Done | Cancelled | Error

  datatype Req = Req(path: string, offset: nat, size: nat, dest: nat, tag: nat, status: Status)

  /** Where the worker thread is: waiting for the gate, about to do a request's input/output, or done with it. */
  datatype Worker = Idle | Reading(req: Req) | Wrote(req: Req, ok: bool)

  /** A request's data on its way from a file to memory. */
  datatype Transfer = Transfer(req: Req, data: seq<byte>)

  /**
   `blocked`: callers inside enqueue_wait, in no particular order.
   `mem`: the writable bytes; `committed`: the committed addresses.
   The last two fields are history: the transfers the worker made, and the tags in
   completion order.
   */
  datatype Queue = Queue(
    reqs: seq<Req>,
    inFlight: nat,
    submitted: bool,
    autoSubmit: bool,
    worker: Worker,
    blocked: seq<Req>,
    files: map<string, seq<byte>>,
    committed: set<nat>,
    mem: map<nat, byte>,
    wrote: seq<Transfer>,
    finished: seq<nat>)

  function Boot(files: map<string, seq<byte>>, committed: set<nat>, mem: map<nat, byte>): Queue {
    Queue([], 0, false, true, Idle, [], files, committed, mem, [], [])
  }

  // ---------------------------------------------------------------------
  // What the loops compute

  function CountPending(reqs: seq<Req>): nat {
    if reqs == [] then 0 else CountPending(reqs[..|reqs| - 1]) + if reqs[|reqs| - 1].status == Pending then 1 else 0
  }

  predicate HasTag(reqs: seq<Req>, tag: nat) {
    exists i :: 0 <= i < |reqs| && reqs[i].tag == tag
  }

  /** The first request at or after `from` with this tag and status, or the length. */
  function FindTag(reqs: seq<Req>, tag: nat, status: Status, from: nat): (i: nat)
    requires from <= |reqs|
    ensures from <= i <= |reqs|
    ensures i < |reqs| ==> reqs[i].tag == tag && reqs[i].status == status
    ensures forall j :: from <= j < i ==> !(reqs[j].tag == tag && reqs[j].status == status)
    decreases |reqs| - from
  {
    if from == |reqs| || (reqs[from].tag == tag && reqs[from].status == status) then from
    else FindTag(reqs, tag, status, from + 1)
  }

  function FirstPending(reqs: seq<Req>, from: nat): (i: nat)
    requires from <= |reqs|
    ensures from <= i <= |reqs|
    ensures i < |reqs| ==> reqs[i].status == Pending
    ensures forall j :: from <= j < i ==> reqs[j].status != Pending
    decreases |reqs| - from
  {
    if from == |reqs| || reqs[from].status == Pending then from else FirstPending(reqs, from + 1)
  }

  function Slots(q: Queue): nat {
    CountPending(q.reqs) + q.inFlight
  }

  // ---------------------------------------------------------------------
  // Callers

  predicate Committed(q: Queue, dest: nat, size: nat) {
    forall a :: dest <= a < dest + size ==> a in q.committed
  }

  /** Vfs::valid_path: a drive, a colon and a backslash, then a name without "..", NUL or colon. */
  predicate ValidPath(path: string) {
    && |path| >= 4 && path[0] in {'S', 'T', 'U'} && path[1] == ':' && path[2] == '\\'
    && (forall i :: 3 <= i < |path| ==> path[i] != '\0' && path[i] != ':')
    && forall i :: 3 <= i < |path| - 1 ==> !(path[i] == '.' && path[i + 1] == '.')
  }

  /** The checks before the lock. */
  predicate Acceptable(q: Queue, r: Req) {
    r.size > 0 && ValidPath(r.path) && Committed(q, r.dest, r.size)
  }

  /** A request that joins this backlog makes auto-submit open the gate. */
  predicate AutoOpens(q: Queue) {
    q.autoSubmit && !q.submitted && CountPending(q.reqs) + 1 >= AUTO_SUBMIT
  }

  /** push_back and the auto-submit rule. */
  function Push(q: Queue, r: Req): Queue {
    q.(reqs := q.reqs + [r.(status := Pending)], submitted := q.submitted || AutoOpens(q))
  }

  function Enqueue(q: Queue, r: Req): (Queue, bool) {
    if !Acceptable(q, r) || HasTag(q.reqs, r.tag) || Slots(q) >= CAPACITY then (q, false)
    else (Push(q, r), true)
  }

  /** enqueue_wait up to its wait. */
  function EnqueueWait(q: Queue, r: Req): (Queue, bool) {
    if !Acceptable(q, r) || HasTag(q.reqs, r.tag) then (q, false)
    else if Slots(q) >= CAPACITY then (q.(blocked := q.blocked + [r]), true)
    else (Push(q, r), true)
  }

  /** A caller in enqueue_wait finds a free slot. The tag is not looked at again. */
  function Admit(q: Queue, k: nat): Queue
    requires k < |q.blocked| && Slots(q) < CAPACITY
  {
    Push(q.(blocked := q.blocked[..k] + q.blocked[k + 1..]), q.blocked[k])
  }

  function SetStatus(reqs: seq<Req>, i: nat, status: Status): seq<Req>
    requires i < |reqs|
  {
    reqs[i := reqs[i].(status := status)]
  }

  function Cancel(q: Queue, tag: nat): (Queue, bool) {
    var i := FindTag(q.reqs, tag, Pending, 0);
    if i < |q.reqs| then (q.(reqs := SetStatus(q.reqs, i, Cancelled)), true) else (q, false)
  }

  function Submit(q: Queue): (Queue, bool) {
    if q.submitted || CountPending(q.reqs) == 0 then (q, false)
    else (q.(submitted := true), true)
  }

  // ---------------------------------------------------------------------
  // The worker

  /** The locked part of worker_main before the input/output. */
  function Start(q: Queue): Queue
    requires q.worker == Idle && q.submitted
  {
    var i := FirstPending(q.reqs, 0);
    if i < |q.reqs| then
      var reqs := SetStatus(q.reqs, i, InFlight);
      q.(reqs := reqs, inFlight := q.inFlight + 1, worker := Reading(reqs[i]))
    else q.(submitted := false)
  }

  predicate Readable(q: Queue, r: Req) {
    r.path in q.files && r.offset <= |q.files[r.path]| && r.size <= |q.files[r.path]| - r.offset
  }

  function Slice(q: Queue, r: Req): (data: seq<byte>)
    requires Readable(q, r)
    ensures |data| == r.size
  {
    q.files[r.path][r.offset..r.offset + r.size]
  }

  predicate Writable(mem: map<nat, byte>, dest: nat, size: nat) {
    forall a :: dest <= a < dest + size ==> a in mem
  }

  /** write_bytes: all or nothing. */
  function Write(mem: map<nat, byte>, dest: nat, data: seq<byte>): map<nat, byte> {
    map a | a in mem :: if dest <= a < dest + |data| then data[a - dest] else mem[a]
  }

  /** read_slice and write_bytes, outside the lock. */
  function Io(q: Queue): Queue
    requires q.worker.Reading?
  {
    var r := q.worker.req;
    if Readable(q, r) && Writable(q.mem, r.dest, r.size) then
      var data := Slice(q, r);
      q.(worker := Wrote(r, true), mem := Write(q.mem, r.dest, data), wrote := q.wrote + [Transfer(r, data)])
    else q.(worker := Wrote(r, false))
  }

  /** The locked part of worker_main after the input/output. */
  function Finish(q: Queue): Queue
    requires q.worker.Wrote?
  {
    var Wrote(r, ok) := q.worker;
    var i := FindTag(q.reqs, r.tag, InFlight, 0);
    var reqs := if i < |q.reqs| then SetStatus(q.reqs, i, if ok then Done else Error) else q.reqs;
    q.(reqs := reqs,
       inFlight := if q.inFlight > 0 then q.inFlight - 1 else 0,
       submitted := q.submitted && CountPending(reqs) > 0,
       worker := Idle,
       finished := q.finished + [r.tag])
  }

  // ---------------------------------------------------------------------
  // Runs

  datatype Label =
    | DoEnqueue(req: Req)
    | DoEnqueueWait(req: Req)
    | DoAdmit(caller: nat)
    | DoCancel(tag: nat)
    | DoSubmit
    | SetAuto(on: bool)
    | UpdateFile(path: string, content: seq<byte>)
    | DoStart
    | DoIo
    | DoFinish

  predicate Enabled(q: Queue, l: Label) {
    match l
    case DoAdmit(k) => k < |q.blocked| && Slots(q) < CAPACITY
    case DoStart => q.worker == Idle && q.submitted
    case DoIo => q.worker.Reading?
    case DoFinish => q.worker.Wrote?
    case _ => true
  }

  function Next(q: Queue, l: Label): Queue
    requires Enabled(q, l)
  {
    match l
    case DoEnqueue(r) => Enqueue(q, r).0
    case DoEnqueueWait(r) => EnqueueWait(q, r).0
    case DoAdmit(k) => Admit(q, k)
    case DoCancel(tag) => Cancel(q, tag).0
    case DoSubmit => Submit(q).0
    case SetAuto(on) => q.(autoSubmit := on)
    case UpdateFile(path, content) => q.(files := q.files[path := content])
    case DoStart => Start(q)
    case DoIo => Io(q)
    case DoFinish => Finish(q)
  }

  ghost predicate StepsTo(q: Queue, l: Label, q': Queue) {
    Enabled(q, l) && q' == Next(q, l)
  }

  ghost predicate StepsAt(qs: seq<Queue>, ls: seq<Label>, i: nat)
    requires |qs| == |ls| + 1 && i < |ls|
  {
    StepsTo(qs[i], ls[i], qs[i + 1])
  }

  ghost predicate IsRun(qs: seq<Queue>, ls: seq<Label>) {
    && |qs| == |ls| + 1
    && qs[0] == Boot(qs[0].files, qs[0].committed, qs[0].mem)
    && forall i :: 0 <= i < |ls| ==> StepsAt(qs, ls, i)
  }
}
