/** Memory after any run of the queue, byte by byte, and how each request ends. */
module IoQueueMemory {
  import opened IoQueue
  import opened IoQueueRuns
  import opened IoQueueTheorems

  // ---------------------------------------------------------------------
  // Bytes

  predicate CoversByte(r: Req, a: nat) {
    r.dest <= a < r.dest + r.size
  }

  /** A write stores its data at its destination and nowhere else. */
  lemma WriteIsExact(mem: map<nat, byte>, dest: nat, data: seq<byte>)
    ensures Write(mem, dest, data).Keys == mem.Keys
    ensures forall i :: 0 <= i < |data| && dest + i in mem ==> Write(mem, dest, data)[dest + i] == data[i]
    ensures forall a :: a in mem && !(dest <= a < dest + |data|) ==> Write(mem, dest, data)[a] == mem[a]
  {
  }

  /** The place of the last Done request that covers the address, or -1. */
  function LastDone(reqs: seq<Req>, a: nat): (i: int)
    ensures -1 <= i < |reqs|
    ensures i >= 0 ==> reqs[i].status == Done && CoversByte(reqs[i], a)
    ensures forall j :: i < j < |reqs| ==> !(reqs[j].status == Done && CoversByte(reqs[j], a))
  {
    if reqs == [] then -1
    else
      var last := reqs[|reqs| - 1];
      if last.status == Done && CoversByte(last, a) then |reqs| - 1 else LastDone(reqs[..|reqs| - 1], a)
  }

  predicate InFile(files: map<string, seq<byte>>, r: Req) {
    r.path in files && r.offset + r.size <= |files[r.path]|
  }

  ghost predicate DoneInFiles(files: map<string, seq<byte>>, reqs: seq<Req>) {
    forall i :: 0 <= i < |reqs| && reqs[i].status == Done ==> InFile(files, reqs[i])
  }

  /** The byte that the Done requests leave at an address. */
  ghost function FinalByte(mem: map<nat, byte>, files: map<string, seq<byte>>, reqs: seq<Req>, a: nat): byte
    requires a in mem && DoneInFiles(files, reqs)
  {
    var i := LastDone(reqs, a);
    if i < 0 then mem[a]
    else
      assert InFile(files, reqs[i]);
      files[reqs[i].path][reqs[i].offset + (a - reqs[i].dest)]
  }

  /** One more request: a Done one puts its slice over what was there, any other changes nothing. */
  lemma ReplayNext(mem: map<nat, byte>, files: map<string, seq<byte>>, init: seq<Req>, last: Req)
    ensures Replay(mem, files, DoneReqs(init + [last]))
         == if last.status == Done then Write(Replay(mem, files, DoneReqs(init)), last.dest, SliceOf(files, last))
            else Replay(mem, files, DoneReqs(init))
  {
    hide Write;
    assert (init + [last])[..|init|] == init;
    if last.status == Done {
      var r := last.(status := InFlight);
      assert DoneReqs(init + [last]) == DoneReqs(init) + [r];
      assert (DoneReqs(init) + [r])[..|DoneReqs(init)|] == DoneReqs(init);
      assert SliceOf(files, r) == SliceOf(files, last);
    } else {
      assert DoneReqs(init + [last]) == DoneReqs(init);
    }
  }

  lemma {:induction false} ReplayByte(mem: map<nat, byte>, files: map<string, seq<byte>>, reqs: seq<Req>, a: nat)
    requires a in mem && DoneInFiles(files, reqs)
    ensures a in Replay(mem, files, DoneReqs(reqs))
    ensures Replay(mem, files, DoneReqs(reqs))[a] == FinalByte(mem, files, reqs, a)
  {
    hide Write, Replay, DoneReqs;
    if reqs == [] {
      ReplayNothing(mem, files);
    } else {
      var init, last := reqs[..|reqs| - 1], reqs[|reqs| - 1];
      assert reqs == init + [last] && forall i :: 0 <= i < |init| ==> init[i] == reqs[i];
      ReplayByte(mem, files, init, a);
      ReplayNext(mem, files, init, last);
      if last.status == Done {
        assert InFile(files, reqs[|reqs| - 1]);
        WriteIsExact(Replay(mem, files, DoneReqs(init)), last.dest, SliceOf(files, last));
        if CoversByte(last, a) {
          assert last.dest + (a - last.dest) == a;
        }
      }
    }
  }

  lemma ReplayNothing(mem: map<nat, byte>, files: map<string, seq<byte>>)
    ensures Replay(mem, files, DoneReqs([])) == mem
  {
  }

  // ---------------------------------------------------------------------
  // How a request ends

  /** Step m is the input/output of request r. */
  predicate ReadsAt(qs: seq<Queue>, ls: seq<Label>, m: nat, r: Req)
    requires |qs| == |ls| + 1
  {
    m < |ls| && ls[m] == DoIo && qs[m].worker == Reading(r)
  }

  predicate Succeeds(q: Queue, r: Req) {
    Readable(q, r) && Writable(q.mem, r.dest, r.size)
  }

  lemma {:induction false} WroteSince(qs: seq<Queue>, ls: seq<Label>, n: nat) returns (m: nat)
    requires IsRun(qs, ls) && n < |qs| && qs[n].worker.Wrote?
    ensures m < n && ReadsAt(qs, ls, m, qs[n].worker.req) && (qs[n].worker.ok <==> Succeeds(qs[m], qs[n].worker.req))
  {
    assert n > 0;
    assert StepsAt(qs, ls, n - 1);
    if ls[n - 1] == DoIo {
      m := n - 1;
    } else {
      WorkerStays(qs[n - 1], ls[n - 1]);
      m := WroteSince(qs, ls, n - 1);
    }
  }

  lemma WorkerStays(q: Queue, l: Label)
    requires Enabled(q, l) && Next(q, l).worker.Wrote? && l != DoIo
    ensures Next(q, l).worker == q.worker
  {
  }

  /** Request i ended at some step m with the outcome that the files and memory of that moment call for. */
  ghost predicate EndedRightly(qs: seq<Queue>, ls: seq<Label>, n: nat, i: nat)
    requires |qs| == |ls| + 1 && n <= |ls| && i < |qs[n].reqs|
  {
    exists m: nat :: m < n && ReadsAt(qs, ls, m, qs[n].reqs[i].(status := InFlight))
             && (qs[n].reqs[i].status == Done <==> Succeeds(qs[m], qs[n].reqs[i].(status := InFlight)))
  }

  /**
   In every run: a request that the worker is done with is Done exactly when, at the
   moment of its input/output, its file held the whole slice and all its bytes of memory
   were writable; otherwise it is in error.
   */
  lemma {:induction false} OutcomeIsExact(qs: seq<Queue>, ls: seq<Label>, n: nat, i: nat)
    requires IsRun(qs, ls) && n < |qs| && i < |qs[n].reqs| && Over(qs[n].reqs[i].status)
    ensures EndedRightly(qs, ls, n, i)
  {
    assert n > 0;
    var q, l := qs[n - 1], ls[n - 1];
    assert StepsAt(qs, ls, n - 1);
    RunKeeps(qs, ls, n - 1);
    if i < |q.reqs| && q.reqs[i] == qs[n].reqs[i] {
      OutcomeIsExact(qs, ls, n - 1, i);
      var m: nat :| m < n - 1 && ReadsAt(qs, ls, m, q.reqs[i].(status := InFlight))
               && (q.reqs[i].status == Done <==> Succeeds(qs[m], q.reqs[i].(status := InFlight)));
      assert m < n && ReadsAt(qs, ls, m, qs[n].reqs[i].(status := InFlight));
    } else {
      FinishesWhenOver(q, l, i);
      var f := Flying(q.reqs, q.inFlight, q.worker);
      FoundByTag(q.reqs, q.worker.req, f);
      var m := WroteSince(qs, ls, n - 1);
      assert ReadsAt(qs, ls, m, qs[n].reqs[i].(status := InFlight));
    }
  }

  lemma FinishesWhenOver(q: Queue, l: Label, i: nat)
    requires Enabled(q, l) && i < |Next(q, l).reqs| && Over(Next(q, l).reqs[i].status)
    requires !(i < |q.reqs| && q.reqs[i] == Next(q, l).reqs[i])
    ensures l == DoFinish && i < |q.reqs| && i == FindTag(q.reqs, q.worker.req.tag, InFlight, 0)
  {
  }

  // ---------------------------------------------------------------------
  // Memory

  lemma DoneWereReadable(qs: seq<Queue>, ls: seq<Label>, n: nat)
    requires IsRun(qs, ls) && n < |qs| && forall i :: 0 <= i < |ls| ==> !ls[i].UpdateFile?
    ensures DoneInFiles(qs[0].files, qs[n].reqs)
  {
    forall i | 0 <= i < |qs[n].reqs| && qs[n].reqs[i].status == Done ensures InFile(qs[0].files, qs[n].reqs[i]) {
      OutcomeIsExact(qs, ls, n, i);
      var r := qs[n].reqs[i].(status := InFlight);
      var m: nat :| m < n && ReadsAt(qs, ls, m, r) && (qs[n].reqs[i].status == Done <==> Succeeds(qs[m], r));
      FilesStay(qs, ls, m);
    }
  }

  /**
   In every run in which no file is updated: when the worker is not between its write and
   its bookkeeping, every byte of memory is that of the file of the last Done request, in
   enqueue order, that covers it, at the request's offset; or, if none does, the byte that
   was there at the start. No address appears or disappears.
   */
  lemma MemoryByteIs(qs: seq<Queue>, ls: seq<Label>, n: nat, a: nat)
    requires IsRun(qs, ls) && n < |qs| && forall i :: 0 <= i < |ls| ==> !ls[i].UpdateFile?
    requires !qs[n].worker.Wrote? && a in qs[0].mem
    ensures DoneInFiles(qs[0].files, qs[n].reqs)
    ensures a in qs[n].mem
    ensures var i := LastDone(qs[n].reqs, a);
      if i < 0 then qs[n].mem[a] == qs[0].mem[a]
      else
        var r := qs[n].reqs[i];
        r.path in qs[0].files && r.offset + r.size <= |qs[0].files[r.path]|
        && qs[n].mem[a] == qs[0].files[r.path][r.offset + (a - r.dest)]
  {
    MemoryIsReplayOfFiles(qs, ls, n);
    DoneWereReadable(qs, ls, n);
    ReplayByte(qs[0].mem, qs[0].files, qs[n].reqs, a);
  }
}
