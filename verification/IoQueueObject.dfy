/**
 The queue in the form src/io_queue.cpp gives it. A method is one critical section of
 the source, or the worker's input/output; each is proved to take the queue's view to
 the state that module IoQueue says.
 */
module IoQueueObject {
  import opened IoQueue
  import opened IoQueueRuns

  /** Nothing but the request list, the gate and the waiting callers has changed. */
  ghost predicate SameElse(q: Queue, q': Queue) {
    && q'.inFlight == q.inFlight && q'.autoSubmit == q.autoSubmit && q'.worker == q.worker
    && q'.files == q.files && q'.committed == q.committed && q'.mem == q.mem
  }

  /** The request has joined the list, and the gate is open if it was or if auto-submit calls for it. */
  ghost predicate Joined(q: Queue, q': Queue, r: Req) {
    && q'.reqs == q.reqs + [r.(status := Pending)]
    && (q'.submitted <==> q.submitted || (q.autoSubmit && CountPending(q'.reqs) >= 4))
  }

  /** Request i has gone from one status to the other, and the list is as it was otherwise. */
  predicate ChangedAt(reqs: seq<Req>, reqs': seq<Req>, i: nat, from: Status, to: Status)
    requires i < |reqs|
  {
    reqs[i].status == from && reqs' == reqs[i := reqs[i].(status := to)]
  }

  class RequestQueue {
    var reqs: seq<Req>
    var inFlight: nat
    var submitted: bool
    var autoSubmit: bool
    var worker: Worker
    var blocked: seq<Req>
    var files: map<string, seq<byte>>
    var committed: set<nat>
    var mem: map<nat, byte>
    ghost var wrote: seq<Transfer>
    ghost var finished: seq<nat>

    ghost function View(): Queue
      reads this
    {
      Queue(reqs, inFlight, submitted, autoSubmit, worker, blocked, files, committed, mem, wrote, finished)
    }

    constructor (f: map<string, seq<byte>>, c: set<nat>, m: map<nat, byte>)
      ensures View() == Boot(f, c, m)
    {
      reqs, inFlight, submitted, autoSubmit, worker, blocked := [], 0, false, true, Idle, [];
      files, committed, mem := f, c, m;
      wrote, finished := [], [];
    }

    method PendingLocked() returns (n: nat)
      ensures n == CountPending(reqs)
    {
      n := 0;
      var i := 0;
      while i < |reqs|
        invariant 0 <= i <= |reqs|
        invariant n == CountPending(reqs[..i])
      {
        assert reqs[..i + 1][..i] == reqs[..i];
        if reqs[i].status == Pending {
          n := n + 1;
        }
        i := i + 1;
      }
      assert reqs[..i] == reqs;
    }

    method TagInUse(tag: nat) returns (found: bool)
      ensures found <==> HasTag(reqs, tag)
    {
      var i := 0;
      while i < |reqs|
        invariant 0 <= i <= |reqs|
        invariant forall j :: 0 <= j < i ==> reqs[j].tag != tag
      {
        if reqs[i].tag == tag {
          return true;
        }
        i := i + 1;
      }
      return false;
    }

    method Append(r: Req)
      modifies this
      ensures View() == Push(old(View()), r)
      ensures SameElse(old(View()), View()) && Joined(old(View()), View(), r) && blocked == old(blocked)
    {
      CountAppend(reqs, r.(status := Pending));
      reqs := reqs + [r.(status := Pending)];
      var n := PendingLocked();
      if autoSubmit && n >= AUTO_SUBMIT && !submitted {
        submitted := true;
      }
    }

    /** enqueue_common; `waits` distinguishes enqueue_wait, which joins the waiting callers instead of refusing. */
    method EnqueueCommon(r: Req, waits: bool) returns (ok: bool)
      modifies this
      ensures (View(), ok) == if waits then EnqueueWait(old(View()), r) else Enqueue(old(View()), r)
      ensures ok <==>
        && r.size > 0 && ValidPath(r.path) && (forall a :: r.dest <= a < r.dest + r.size ==> a in committed)
        && !HasTag(old(reqs), r.tag) && (waits || CountPending(old(reqs)) + inFlight < 8)
      ensures !ok ==> View() == old(View())
      ensures ok && CountPending(old(reqs)) + inFlight < 8 ==>
        SameElse(old(View()), View()) && Joined(old(View()), View(), r) && blocked == old(blocked)
      ensures ok && CountPending(old(reqs)) + inFlight >= 8 ==> View() == old(View()).(blocked := old(blocked) + [r])
    {
      if r.size == 0 || !ValidPath(r.path) || exists a :: r.dest <= a < r.dest + r.size && a !in committed {
        return false;
      }
      assert Acceptable(View(), r);
      var used := TagInUse(r.tag);
      if used {
        return false;
      }
      var n := PendingLocked();
      if n + inFlight >= CAPACITY {
        if waits {
          blocked := blocked + [r];
        }
        return waits;
      }
      Append(r);
      return true;
    }

    /** The rest of enqueue_wait when its condition holds. */
    method Release(k: nat)
      requires k < |blocked| && Slots(View()) < CAPACITY
      modifies this
      ensures View() == Admit(old(View()), k)
      ensures SameElse(old(View()), View()) && Joined(old(View()), View(), old(blocked)[k])
      ensures blocked == old(blocked)[..k] + old(blocked)[k + 1..]
    {
      var r := blocked[k];
      blocked := blocked[..k] + blocked[k + 1..];
      Append(r);
    }

    method CancelTag(tag: nat) returns (ok: bool)
      modifies this
      ensures (View(), ok) == Cancel(old(View()), tag)
      ensures ok <==> exists i :: 0 <= i < |old(reqs)| && old(reqs)[i].tag == tag && old(reqs)[i].status == Pending
      ensures !ok ==> View() == old(View())
      ensures ok ==>
        && SameElse(old(View()), View()) && submitted == old(submitted) && blocked == old(blocked)
        && exists i :: 0 <= i < |old(reqs)| && ChangedAt(old(reqs), reqs, i, Pending, Cancelled) && reqs[i].tag == tag
    {
      var i := 0;
      while i < |reqs|
        invariant 0 <= i <= |reqs|
        invariant FindTag(reqs, tag, Pending, 0) == FindTag(reqs, tag, Pending, i)
      {
        if reqs[i].tag == tag && reqs[i].status == Pending {
          reqs := reqs[i := reqs[i].(status := Cancelled)];
          assert ChangedAt(old(reqs), reqs, i, Pending, Cancelled);
          return true;
        }
        i := i + 1;
      }
      return false;
    }

    method SubmitAll() returns (ok: bool)
      modifies this
      ensures (View(), ok) == Submit(old(View()))
      ensures ok <==> !old(submitted) && CountPending(reqs) > 0
      ensures View() == old(View()).(submitted := old(submitted) || ok)
    {
      if submitted {
        return false;
      }
      var n := PendingLocked();
      if n == 0 {
        return false;
      }
      submitted := true;
      return true;
    }

    /** worker_main from the open gate to the unlock. */
    method WorkerBegin()
      requires worker == Idle && submitted
      modifies this
      ensures View() == Start(old(View()))
      ensures worker == Idle ==>
        View() == old(View()).(submitted := false) && forall i :: 0 <= i < |reqs| ==> reqs[i].status != Pending
      ensures worker != Idle ==>
        inFlight == old(inFlight) + 1 && submitted &&
        exists i ::
          && 0 <= i < |old(reqs)| && ChangedAt(old(reqs), reqs, i, Pending, InFlight) && worker == Reading(reqs[i])
          && forall j :: 0 <= j < i ==> old(reqs)[j].status != Pending
    {
      var i := 0;
      while i < |reqs|
        invariant 0 <= i <= |reqs|
        invariant FirstPending(reqs, 0) == FirstPending(reqs, i)
      {
        if reqs[i].status == Pending {
          reqs := reqs[i := reqs[i].(status := InFlight)];
          inFlight := inFlight + 1;
          worker := Reading(reqs[i]);
          return;
        }
        i := i + 1;
      }
      submitted := false;
    }

    /** read_slice into a buffer, then write_bytes out of it. */
    method WorkerIo()
      requires worker.Reading?
      modifies this
      ensures View() == Io(old(View()))
      ensures worker.Wrote? && worker.req == old(worker).req && reqs == old(reqs) && files == old(files)
      ensures var r := worker.req;
        && (worker.ok <==> r.path in files && r.offset + r.size <= |files[r.path]|
                           && forall a :: r.dest <= a < r.dest + r.size ==> a in old(mem))
        && mem.Keys == old(mem).Keys
        && (!worker.ok ==> mem == old(mem))
        && (worker.ok ==> forall a :: a in mem ==>
              mem[a] == if r.dest <= a < r.dest + r.size then files[r.path][r.offset + (a - r.dest)] else old(mem)[a])
    {
      var r := worker.req;
      var ok := r.path in files && r.offset <= |files[r.path]| && r.size <= |files[r.path]| - r.offset;
      if ok {
        var data := files[r.path][r.offset..r.offset + r.size];
        ok := forall a :: r.dest <= a < r.dest + |data| ==> a in mem;
        if ok {
          CopyBytes(r.dest, data);
          wrote := wrote + [Transfer(r, data)];
        }
      }
      worker := Wrote(r, ok);
    }

    /** The memcpy of write_bytes, byte by byte. */
    method CopyBytes(dest: nat, data: seq<byte>)
      requires forall a :: dest <= a < dest + |data| ==> a in mem
      modifies this
      ensures View() == old(View()).(mem := Write(old(mem), dest, data))
      ensures mem.Keys == old(mem).Keys
      ensures forall a :: a in mem ==> mem[a] == if dest <= a < dest + |data| then data[a - dest] else old(mem)[a]
    {
      var i := 0;
      while i < |data|
        invariant 0 <= i <= |data|
        invariant View() == old(View()).(mem := mem)
        invariant mem == Write(old(mem), dest, data[..i])
      {
        mem := mem[dest + i := data[i]];
        i := i + 1;
        assert mem == Write(old(mem), dest, data[..i]);
      }
      assert data[..i] == data;
    }

    /** worker_main from the lock to the notification. */
    method WorkerEnd()
      requires worker.Wrote? && inFlight > 0
      modifies this
      ensures View() == Finish(old(View()))
      ensures worker == Idle && inFlight == old(inFlight) - 1
      ensures submitted <==> old(submitted) && CountPending(reqs) > 0
      ensures blocked == old(blocked) && mem == old(mem) && files == old(files) && autoSubmit == old(autoSubmit)
      ensures |reqs| == |old(reqs)| && finished == old(finished) + [old(worker).req.tag]
      ensures var tag, end := old(worker).req.tag, if old(worker).ok then Done else Error;
        (exists i :: 0 <= i < |old(reqs)| && old(reqs)[i].tag == tag && old(reqs)[i].status == InFlight) ==>
          exists i :: 0 <= i < |old(reqs)| && old(reqs)[i].tag == tag && ChangedAt(old(reqs), reqs, i, InFlight, end)
    {
      hide CountPending, FindTag;
      var Wrote(r, ok) := worker;
      MarkFinished(r.tag, ok);
      inFlight := inFlight - 1;
      var n := PendingLocked();
      if n == 0 {
        submitted := false;
      }
      worker := Idle;
      finished := finished + [r.tag];
    }

    /** The request is located by its tag, not by a reference kept across the unlock. */
    method MarkFinished(tag: nat, ok: bool)
      modifies this
      ensures var i := FindTag(old(reqs), tag, InFlight, 0);
              View() == old(View()).(reqs :=
                if i < |old(reqs)| then SetStatus(old(reqs), i, if ok then Done else Error) else old(reqs))
    {
      var i := 0;
      while i < |reqs|
        invariant 0 <= i <= |reqs|
        invariant FindTag(reqs, tag, InFlight, 0) == FindTag(reqs, tag, InFlight, i)
      {
        if reqs[i].tag == tag && reqs[i].status == InFlight {
          reqs := reqs[i := reqs[i].(status := if ok then Done else Error)];
          return;
        }
        i := i + 1;
      }
    }

    /** The condition wait_tag waits for, and what it returns then: an unknown tag is reported at once as Error. */
    method TagStatus(tag: nat) returns (ready: bool, status: Status)
      ensures HasTag(reqs, tag) ==> exists i :: 0 <= i < |reqs| && reqs[i].tag == tag && status == reqs[i].status
                                               && forall j :: 0 <= j < i ==> reqs[j].tag != tag
      ensures HasTag(reqs, tag) ==> (ready <==> Terminal(status))
      ensures !HasTag(reqs, tag) ==> ready && status == Error
    {
      var i := 0;
      while i < |reqs|
        invariant 0 <= i <= |reqs|
        invariant forall j :: 0 <= j < i ==> reqs[j].tag != tag
      {
        if reqs[i].tag == tag {
          status := reqs[i].status;
          ready := status == Done || status == Cancelled || status == Error;
          return;
        }
        i := i + 1;
      }
      return true, Error;
    }
  }
}
