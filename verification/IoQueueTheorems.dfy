/** The promises of the queue's header, over every interleaving. */
module IoQueueTheorems {
  import opened IoQueue
  import opened IoQueueRuns

  // ---------------------------------------------------------------------
  // Sequential replay

  /**
   Transfer k of state n was made by an input/output step before n, and its data is the
   slice of its file at that step.
   */
  ghost predicate FromFile(qs: seq<Queue>, ls: seq<Label>, n: nat, k: nat)
    requires |qs| == |ls| + 1 && n <= |ls| && k < |qs[n].wrote|
  {
    exists m :: ReadAt(qs, ls, n, k, m)
  }

  ghost predicate ReadAt(qs: seq<Queue>, ls: seq<Label>, n: nat, k: nat, m: nat)
    requires |qs| == |ls| + 1 && n <= |ls| && k < |qs[n].wrote|
  {
    && m < n && ls[m] == DoIo && qs[m].worker.Reading? && |qs[m].wrote| == k
    && Readable(qs[m], qs[m].worker.req)
    && qs[n].wrote[k] == Transfer(qs[m].worker.req, Slice(qs[m], qs[m].worker.req))
  }

  lemma WroteGrows(q: Queue, l: Label)
    requires Enabled(q, l)
    ensures Next(q, l).wrote == q.wrote
         || (l == DoIo && Readable(q, q.worker.req)
             && Next(q, l).wrote == q.wrote + [Transfer(q.worker.req, Slice(q, q.worker.req))])
  {
  }

  /** Nothing reaches memory that was not read from a file. */
  lemma {:induction false} TransfersComeFromFiles(qs: seq<Queue>, ls: seq<Label>, n: nat, k: nat)
    requires IsRun(qs, ls) && n < |qs| && k < |qs[n].wrote|
    ensures FromFile(qs, ls, n, k)
  {
    assert n > 0;
    var q, l := qs[n - 1], ls[n - 1];
    assert StepsAt(qs, ls, n - 1);
    WroteGrows(q, l);
    if k < |q.wrote| {
      TransfersComeFromFiles(qs, ls, n - 1, k);
      var m :| ReadAt(qs, ls, n - 1, k, m);
      assert ReadAt(qs, ls, n, k, m);
    } else {
      assert ReadAt(qs, ls, n, k, n - 1);
    }
  }

  /**
   The queue is a sequential replay: at most one request is in flight, nothing behind a
   pending request has been started, requests are completed in enqueue order, the slots
   never exceed the capacity, and memory is what the transfers made of it, each a slice
   of a file at the moment it was read. Whenever the worker is not between its write and
   its bookkeeping, the transfers are those of the Done requests in enqueue order, so
   failed and cancelled requests leave no trace.
   */
  lemma RefinesReplay(qs: seq<Queue>, ls: seq<Label>, n: nat)
    requires IsRun(qs, ls) && n < |qs|
    ensures Slots(qs[n]) <= CAPACITY && qs[n].inFlight <= 1
    ensures forall i, j :: 0 <= i < j < |qs[n].reqs| ==>
      !(qs[n].reqs[i].status == InFlight && qs[n].reqs[j].status == InFlight)
    ensures InOrder(qs[n].reqs) && qs[n].finished == OverTags(qs[n].reqs)
    ensures qs[n].mem == Transferred(qs[0].mem, qs[n].wrote)
    ensures forall k :: 0 <= k < |qs[n].wrote| ==> FromFile(qs, ls, n, k)
    ensures !qs[n].worker.Wrote? ==> Sources(qs[n].wrote) == DoneReqs(qs[n].reqs)
  {
    RunKeeps(qs, ls, n);
    var q := qs[n];
    if q.worker != Idle {
      var f := Flying(q.reqs, q.inFlight, q.worker);
    }
    forall k | 0 <= k < |q.wrote| ensures FromFile(qs, ls, n, k) {
      TransfersComeFromFiles(qs, ls, n, k);
    }
  }

  /** The bytes a request asks for, in files that do not change. */
  function SliceOf(files: map<string, seq<byte>>, r: Req): seq<byte> {
    if r.path in files && r.offset + r.size <= |files[r.path]| then files[r.path][r.offset..r.offset + r.size] else []
  }

  /** The independent reference: the requests carried out one after the other on memory and files. */
  function Replay(mem: map<nat, byte>, files: map<string, seq<byte>>, done: seq<Req>): map<nat, byte> {
    if done == [] then mem
    else
      var last := done[|done| - 1];
      Write(Replay(mem, files, done[..|done| - 1]), last.dest, SliceOf(files, last))
  }

  lemma {:induction false} FilesStay(qs: seq<Queue>, ls: seq<Label>, n: nat)
    requires IsRun(qs, ls) && n < |qs| && forall i :: 0 <= i < |ls| ==> !ls[i].UpdateFile?
    ensures qs[n].files == qs[0].files
  {
    if n > 0 {
      FilesStay(qs, ls, n - 1);
      assert StepsAt(qs, ls, n - 1);
    }
  }

  lemma {:induction false} TransfersReplay(mem: map<nat, byte>, files: map<string, seq<byte>>, wrote: seq<Transfer>)
    requires forall k :: 0 <= k < |wrote| ==> wrote[k].data == SliceOf(files, wrote[k].req)
    ensures Transferred(mem, wrote) == Replay(mem, files, Sources(wrote))
  {
    hide Write, SliceOf;
    if wrote != [] {
      var init := wrote[..|wrote| - 1];
      TransfersReplay(mem, files, init);
      assert Sources(wrote)[..|wrote| - 1] == Sources(init);
    }
  }

  /** While no file is updated, memory is the Done requests replayed from the files in enqueue order. */
  lemma MemoryIsReplayOfFiles(qs: seq<Queue>, ls: seq<Label>, n: nat)
    requires IsRun(qs, ls) && n < |qs| && forall i :: 0 <= i < |ls| ==> !ls[i].UpdateFile?
    ensures !qs[n].worker.Wrote? ==> qs[n].mem == Replay(qs[0].mem, qs[0].files, DoneReqs(qs[n].reqs))
  {
    RefinesReplay(qs, ls, n);
    var q := qs[n];
    forall k | 0 <= k < |q.wrote| ensures q.wrote[k].data == SliceOf(qs[0].files, q.wrote[k].req) {
      assert FromFile(qs, ls, n, k);
      var m :| ReadAt(qs, ls, n, k, m);
      FilesStay(qs, ls, m);
    }
    TransfersReplay(qs[0].mem, qs[0].files, q.wrote);
  }

  // ---------------------------------------------------------------------
  // Progress

  /** Auto-submit, which is on at construction, is never switched off. */
  predicate StaysAuto(ls: seq<Label>) {
    forall i :: 0 <= i < |ls| ==> ls[i] != SetAuto(false)
  }

  predicate HalfFullOpens(q: Queue) {
    q.autoSubmit && (CountPending(q.reqs) >= AUTO_SUBMIT ==> q.submitted)
  }

  lemma StepKeepsOpen(q: Queue, l: Label)
    requires HalfFullOpens(q) && Enabled(q, l) && l != SetAuto(false)
    ensures HalfFullOpens(Next(q, l))
  {
    match l
    case DoCancel(tag) =>
      var i := FindTag(q.reqs, tag, Pending, 0);
      if i < |q.reqs| { CountSet(q.reqs, i, Cancelled); }
    case DoStart =>
      var i := FirstPending(q.reqs, 0);
      if i < |q.reqs| { CountSet(q.reqs, i, InFlight); } else { CountZero(q.reqs); }
    case DoFinish =>
      var r := q.worker.req;
      var i := FindTag(q.reqs, r.tag, InFlight, 0);
      if i < |q.reqs| { CountSet(q.reqs, i, if q.worker.ok then Done else Error); }
    case _ =>
  }

  /** With auto-submit on from the start, a half-full backlog means an open gate. */
  lemma {:induction false} HalfFullIsOpen(qs: seq<Queue>, ls: seq<Label>, n: nat)
    requires IsRun(qs, ls) && n < |qs| && StaysAuto(ls)
    ensures HalfFullOpens(qs[n])
  {
    if n > 0 {
      HalfFullIsOpen(qs, ls, n - 1);
      assert StepsAt(qs, ls, n - 1);
      StepKeepsOpen(qs[n - 1], ls[n - 1]);
    }
  }

  predicate WorkerCanStep(q: Queue) {
    q.worker != Idle || q.submitted
  }

  predicate OfWorker(l: Label) {
    l == DoStart || l == DoIo || l == DoFinish
  }

  /** How many of the steps from a to b are the worker's. */
  function WorkerSteps(ls: seq<Label>, a: nat, b: nat): nat
    requires a <= b <= |ls|
  {
    if a == b then 0 else WorkerSteps(ls, a, b - 1) + if OfWorker(ls[b - 1]) then 1 else 0
  }

  /** The worker's steps up to and including the next bookkeeping. */
  function Phase(w: Worker): nat {
    match w
    case Idle => 3
    case Reading(_) => 2
    case Wrote(_, _) => 1
  }

  /** While the queue stays full, a worker step brings the bookkeeping one step closer. */
  lemma WorkerAdvances(q: Queue, m0: map<nat, byte>, l: Label)
    requires Inv(q, m0) && Enabled(q, l) && Slots(Next(q, l)) >= CAPACITY
    ensures Phase(Next(q, l).worker) + (if OfWorker(l) then 1 else 0) == Phase(q.worker)
  {
    hide InOrder, FlightOk, MemoryOk, Finish, Io, Push;
    match l
    case DoStart =>
      NoneFlies(q.reqs, q.inFlight);
      CountZero(q.reqs);
    case DoIo => IoLeavesTheList(q);
    case DoFinish => FinishFrees(q);
    case DoEnqueue(r) => PushLeavesTheWorker(q, r);
    case DoEnqueueWait(r) => PushLeavesTheWorker(q, r);
    case DoAdmit(k) => PushLeavesTheWorker(q.(blocked := q.blocked[..k] + q.blocked[k + 1..]), q.blocked[k]);
    case _ =>
  }

  lemma PushLeavesTheWorker(q: Queue, r: Req)
    ensures Push(q, r).worker == q.worker
  {
  }

  lemma IoLeavesTheList(q: Queue)
    requires q.worker.Reading?
    ensures Io(q).worker.Wrote?
  {
  }

  lemma FinishFrees(q: Queue)
    requires q.worker.Wrote? && FlightOk(q.reqs, q.inFlight, q.worker)
    ensures Finish(q).worker == Idle && Slots(Finish(q)) == Slots(q) - 1
  {
    var f := Flying(q.reqs, q.inFlight, q.worker);
    FoundByTag(q.reqs, q.worker.req, f);
    CountSet(q.reqs, f, if q.worker.ok then Done else Error);
  }

  lemma {:induction false} FullForShort(qs: seq<Queue>, ls: seq<Label>, a: nat, b: nat)
    requires IsRun(qs, ls) && a <= b < |qs| && forall k :: a < k <= b ==> Slots(qs[k]) >= CAPACITY
    ensures WorkerSteps(ls, a, b) + Phase(qs[b].worker) == Phase(qs[a].worker)
    decreases b
  {
    hide Inv, Enabled, Next, Phase;
    if a < b {
      FullForShort(qs, ls, a, b - 1);
      RunKeeps(qs, ls, b - 1);
      assert StepsAt(qs, ls, b - 1);
      WorkerAdvances(qs[b - 1], qs[0].mem, ls[b - 1]);
    }
  }

  /**
   A caller blocked on a full queue is never stuck: the worker can take a step, and once
   it has taken three, whatever callers do in between and whatever the steps read or
   write, there was a moment with a free slot.
   */
  lemma FullQueueFreesASlot(qs: seq<Queue>, ls: seq<Label>, a: nat, b: nat)
    requires IsRun(qs, ls) && a <= b < |qs|
    ensures StaysAuto(ls) && Slots(qs[a]) >= CAPACITY ==> WorkerCanStep(qs[a])
    ensures WorkerSteps(ls, a, b) >= 3 ==> exists k :: a < k <= b && Slots(qs[k]) < CAPACITY
  {
    RunKeeps(qs, ls, a);
    if StaysAuto(ls) {
      HalfFullIsOpen(qs, ls, a);
    }
    if forall k :: a < k <= b ==> Slots(qs[k]) >= CAPACITY {
      FullForShort(qs, ls, a, b);
    }
  }

  // ---------------------------------------------------------------------
  // Constructed runs

  lemma ExtendRun(qs: seq<Queue>, ls: seq<Label>, l: Label)
    requires IsRun(qs, ls) && Enabled(qs[|ls|], l)
    ensures IsRun(qs + [Next(qs[|ls|], l)], ls + [l])
  {
    hide Enabled, Next;
    var qs', ls' := qs + [Next(qs[|ls|], l)], ls + [l];
    forall i | 0 <= i < |ls'| ensures StepsAt(qs', ls', i) {
      if i < |ls| {
        assert StepsAt(qs, ls, i);
      }
    }
  }

  function Sample(t: nat): Req {
    Req("S:\\a", 0, 1, 0, t, Pending)
  }

  predicate Stalled(q: Queue, k: nat) {
    && !q.autoSubmit && !q.submitted && q.worker == Idle && q.inFlight == 0 && q.blocked == []
    && 0 in q.committed && |q.reqs| == k == CountPending(q.reqs)
    && forall i :: 0 <= i < |q.reqs| ==> q.reqs[i] == Sample(i)
  }

  lemma QueueWithoutSubmit(q: Queue, k: nat)
    requires Stalled(q, k) && k < CAPACITY
    ensures Enabled(q, DoEnqueue(Sample(k))) && Stalled(Next(q, DoEnqueue(Sample(k))), k + 1)
  {
    CountAppend(q.reqs, Sample(k));
  }

  /** With auto-submit switched off, k requests can be queued without the gate ever opening. */
  lemma {:induction false} FillWithoutSubmit(k: nat) returns (qs: seq<Queue>, ls: seq<Label>)
    requires k <= CAPACITY
    ensures IsRun(qs, ls) && Stalled(qs[|ls|], k)
  {
    if k == 0 {
      var q := Boot(map[], {0}, map[]);
      assert IsRun([q], []);
      ExtendRun([q], [], SetAuto(false));
      qs, ls := [q] + [Next(q, SetAuto(false))], [] + [SetAuto(false)];
    } else {
      hide Enabled, Next, Stalled;
      qs, ls := FillWithoutSubmit(k - 1);
      QueueWithoutSubmit(qs[|ls|], k - 1);
      ExtendRun(qs, ls, DoEnqueue(Sample(k - 1)));
      qs, ls := qs + [Next(qs[|ls|], DoEnqueue(Sample(k - 1)))], ls + [DoEnqueue(Sample(k - 1))];
    }
  }

  /** So the progress theorem needs its condition: in strict manual mode a full queue can have no worker step at all. */
  lemma ManualModeCanStall() returns (qs: seq<Queue>, ls: seq<Label>)
    ensures IsRun(qs, ls) && Slots(qs[|ls|]) == CAPACITY && !WorkerCanStep(qs[|ls|])
  {
    qs, ls := FillWithoutSubmit(CAPACITY);
  }

  /** Nor is it enough that auto-submit is on now: switched on over a full closed queue, it opens nothing. */
  lemma AutoSubmitCanComeTooLate() returns (qs: seq<Queue>, ls: seq<Label>)
    ensures IsRun(qs, ls) && qs[|ls|].autoSubmit
    ensures Slots(qs[|ls|]) == CAPACITY && !WorkerCanStep(qs[|ls|])
  {
    qs, ls := FillWithoutSubmit(CAPACITY);
    ExtendRun(qs, ls, SetAuto(true));
    qs, ls := qs + [Next(qs[|ls|], SetAuto(true))], ls + [SetAuto(true)];
  }

  // ---------------------------------------------------------------------
  // Unique tags

  predicate DistinctTags(reqs: seq<Req>) {
    forall i, j :: 0 <= i < j < |reqs| ==> reqs[i].tag != reqs[j].tag
  }

  lemma AppendTag(reqs: seq<Req>, r: Req)
    requires DistinctTags(reqs)
    ensures DistinctTags(reqs + [r]) <==> !HasTag(reqs, r.tag)
  {
    var reqs' := reqs + [r];
    if i :| 0 <= i < |reqs| && reqs[i].tag == r.tag {
      assert reqs'[i].tag == reqs'[|reqs|].tag;
    }
  }

  lemma SameTags(reqs: seq<Req>, reqs': seq<Req>)
    requires |reqs| == |reqs'| && forall i :: 0 <= i < |reqs| ==> reqs'[i].tag == reqs[i].tag
    ensures DistinctTags(reqs') == DistinctTags(reqs)
    ensures forall t :: HasTag(reqs', t) <==> HasTag(reqs, t)
  {
    forall t ensures HasTag(reqs', t) <==> HasTag(reqs, t) {
      if i :| 0 <= i < |reqs| && reqs[i].tag == t {
        assert reqs'[i].tag == t;
      }
    }
  }

  /**
   The tag check of enqueue_wait comes before the wait, so a step keeps tags unique
   exactly when it is not the admission of a caller whose tag is in use by then.
   */
  lemma TagsStayUniqueExactly(q: Queue, l: Label)
    requires DistinctTags(q.reqs) && Enabled(q, l)
    ensures DistinctTags(Next(q, l).reqs) <==> (l.DoAdmit? ==> !HasTag(q.reqs, q.blocked[l.caller].tag))
  {
    var reqs := Next(q, l).reqs;
    match l
    case DoEnqueue(r) => AppendTag(q.reqs, r.(status := Pending));
    case DoEnqueueWait(r) => AppendTag(q.reqs, r.(status := Pending));
    case DoAdmit(k) =>
      AppendTag(q.reqs, q.blocked[k].(status := Pending));
    case _ => SameTags(q.reqs, reqs);
  }

  /** Callers that are inside enqueue_wait use tags that nobody else is bringing at the same time. */
  predicate FreshTag(q: Queue, l: Label) {
    (l.DoEnqueue? || l.DoEnqueueWait?) ==> !HasTag(q.blocked, l.req.tag)
  }

  predicate TagsOk(q: Queue) {
    && DistinctTags(q.reqs) && DistinctTags(q.blocked)
    && forall k :: 0 <= k < |q.blocked| ==> !HasTag(q.reqs, q.blocked[k].tag)
  }

  lemma HasTagAppend(reqs: seq<Req>, r: Req, t: nat)
    ensures HasTag(reqs + [r], t) <==> HasTag(reqs, t) || r.tag == t
  {
    var reqs' := reqs + [r];
    if i :| 0 <= i < |reqs| && reqs[i].tag == t {
      assert reqs'[i].tag == t;
    }
    assert reqs'[|reqs|] == r;
  }

  lemma PushTags(q: Queue, r: Req)
    requires TagsOk(q) && !HasTag(q.reqs, r.tag) && !HasTag(q.blocked, r.tag)
    ensures TagsOk(Push(q, r))
  {
    var p := r.(status := Pending);
    assert Push(q, r).reqs == q.reqs + [p];
    AppendTag(q.reqs, p);
    forall k | 0 <= k < |q.blocked| ensures !HasTag(q.reqs + [p], q.blocked[k].tag) {
      HasTagAppend(q.reqs, p, q.blocked[k].tag);
    }
  }

  lemma BlockTags(q: Queue, r: Req)
    requires TagsOk(q) && !HasTag(q.reqs, r.tag) && !HasTag(q.blocked, r.tag)
    ensures TagsOk(q.(blocked := q.blocked + [r]))
  {
    AppendTag(q.blocked, r);
  }

  lemma UnblockTags(q: Queue, k: nat)
    requires TagsOk(q) && k < |q.blocked|
    ensures var left := q.blocked[..k] + q.blocked[k + 1..];
            TagsOk(q.(blocked := left)) && !HasTag(left, q.blocked[k].tag) && !HasTag(q.reqs, q.blocked[k].tag)
  {
    var left := q.blocked[..k] + q.blocked[k + 1..];
    forall i | 0 <= i < |left|
      ensures left[i] == q.blocked[if i < k then i else i + 1] && left[i].tag != q.blocked[k].tag
    {
    }
  }

  lemma StepKeepsTags(q: Queue, l: Label)
    requires TagsOk(q) && Enabled(q, l) && FreshTag(q, l)
    ensures TagsOk(Next(q, l))
  {
    hide TagsOk, Push;
    match l
    case DoEnqueue(r) =>
      if Enqueue(q, r).1 { PushTags(q, r); }
    case DoEnqueueWait(r) =>
      if EnqueueWait(q, r).1 {
        if Slots(q) >= CAPACITY { BlockTags(q, r); } else { PushTags(q, r); }
      }
    case DoAdmit(k) =>
      UnblockTags(q, k);
      PushTags(q.(blocked := q.blocked[..k] + q.blocked[k + 1..]), q.blocked[k]);
    case _ => QuietTags(q, l);
  }

  /** The other steps bring no tag and take none away. */
  lemma QuietTags(q: Queue, l: Label)
    requires TagsOk(q) && Enabled(q, l) && !l.DoEnqueue? && !l.DoEnqueueWait? && !l.DoAdmit?
    ensures TagsOk(Next(q, l))
  {
    SameTags(q.reqs, Next(q, l).reqs);
  }

  /** With that care, tags are unique in every state of every run, as the header promises. */
  lemma {:induction false} CarefulTagsAreUnique(qs: seq<Queue>, ls: seq<Label>, n: nat)
    requires IsRun(qs, ls) && n < |qs| && forall i :: 0 <= i < |ls| ==> FreshTag(qs[i], ls[i])
    ensures TagsOk(qs[n])
  {
    if n > 0 {
      CarefulTagsAreUnique(qs, ls, n - 1);
      assert StepsAt(qs, ls, n - 1) && FreshTag(qs[n - 1], ls[n - 1]);
      StepKeepsTags(qs[n - 1], ls[n - 1]);
    }
  }

  /** A full queue with j callers waiting, all with tag 100, and the first c requests cancelled. */
  predicate Crowded(q: Queue, j: nat, c: nat) {
    && q.worker == Idle && q.inFlight == 0 && !q.autoSubmit && !q.submitted && 0 in q.committed
    && |q.reqs| == CAPACITY && c <= CAPACITY && CountPending(q.reqs) == CAPACITY - c
    && (forall i :: 0 <= i < CAPACITY ==>
          q.reqs[i].tag == i && q.reqs[i].status == if i < c then Cancelled else Pending)
    && |q.blocked| == j && forall i :: 0 <= i < j ==> q.blocked[i] == Sample(100)
  }

  lemma OneMoreWaits(q: Queue, j: nat)
    requires Crowded(q, j, 0)
    ensures Enabled(q, DoEnqueueWait(Sample(100))) && Crowded(Next(q, DoEnqueueWait(Sample(100))), j + 1, 0)
  {
  }

  lemma OneMoreCancelled(q: Queue, j: nat, c: nat)
    requires Crowded(q, j, c) && c < CAPACITY
    ensures Enabled(q, DoCancel(c)) && Crowded(Next(q, DoCancel(c)), j, c + 1)
  {
    assert q.reqs[c].tag == c && q.reqs[c].status == Pending;
    assert FindTag(q.reqs, c, Pending, 0) == c;
    CountSet(q.reqs, c, Cancelled);
  }

  /** Both callers are let in: a run in which two requests carry one tag. */
  lemma DuplicateTagRun() returns (qs: seq<Queue>, ls: seq<Label>)
    ensures IsRun(qs, ls) && !DistinctTags(qs[|ls|].reqs)
  {
    hide Enabled, Next;
    qs, ls := FillWithoutSubmit(CAPACITY);
    qs, ls := CrowdIn(qs, ls);
    qs, ls := LetIn(qs, ls);
  }

  lemma CrowdIn(qs0: seq<Queue>, ls0: seq<Label>) returns (qs: seq<Queue>, ls: seq<Label>)
    requires IsRun(qs0, ls0) && Stalled(qs0[|ls0|], CAPACITY)
    ensures IsRun(qs, ls) && Crowded(qs[|ls|], 2, 2)
  {
    hide Enabled, Next;
    qs, ls := qs0, ls0;
    var wait := DoEnqueueWait(Sample(100));
    assert Crowded(qs[|ls|], 0, 0);
    hide Crowded, Stalled;
    OneMoreWaits(qs[|ls|], 0);
    ExtendRun(qs, ls, wait);
    qs, ls := qs + [Next(qs[|ls|], wait)], ls + [wait];
    OneMoreWaits(qs[|ls|], 1);
    ExtendRun(qs, ls, wait);
    qs, ls := qs + [Next(qs[|ls|], wait)], ls + [wait];
    OneMoreCancelled(qs[|ls|], 2, 0);
    ExtendRun(qs, ls, DoCancel(0));
    qs, ls := qs + [Next(qs[|ls|], DoCancel(0))], ls + [DoCancel(0)];
    OneMoreCancelled(qs[|ls|], 2, 1);
    ExtendRun(qs, ls, DoCancel(1));
    qs, ls := qs + [Next(qs[|ls|], DoCancel(1))], ls + [DoCancel(1)];
  }

  lemma LetIn(qs0: seq<Queue>, ls0: seq<Label>) returns (qs: seq<Queue>, ls: seq<Label>)
    requires IsRun(qs0, ls0) && Crowded(qs0[|ls0|], 2, 2)
    ensures IsRun(qs, ls) && !DistinctTags(qs[|ls|].reqs)
  {
    hide Enabled, Next;
    var q := qs0[|ls0|];
    AdmitTwice(q);
    ExtendRun(qs0, ls0, DoAdmit(1));
    qs, ls := qs0 + [Next(q, DoAdmit(1))], ls0 + [DoAdmit(1)];
    ExtendRun(qs, ls, DoAdmit(0));
    qs, ls := qs + [Next(qs[|ls|], DoAdmit(0))], ls + [DoAdmit(0)];
  }

  lemma AdmitTwice(q: Queue)
    requires Crowded(q, 2, 2)
    ensures Enabled(q, DoAdmit(1)) && Enabled(Next(q, DoAdmit(1)), DoAdmit(0))
    ensures !DistinctTags(Next(Next(q, DoAdmit(1)), DoAdmit(0)).reqs)
  {
    CountAppend(q.reqs, Sample(100));
    var q1 := Next(q, DoAdmit(1));
    assert q.blocked[1] == Sample(100) && q1 == Admit(q, 1);
    assert q1.reqs == q.reqs + [Sample(100)];
    assert q1.blocked == q.blocked[..1] + q.blocked[2..] == [Sample(100)];
    var q2 := Next(q1, DoAdmit(0));
    assert q2.reqs == q1.reqs + [Sample(100)];
    assert q2.reqs[CAPACITY].tag == q2.reqs[CAPACITY + 1].tag;
  }
}
