/** Whom a signal wakes: waiters come in the order in which their fibers were spawned. */
module WakeLaws {
  import opened Scheduler
  import opened Kernel

  function Roused(t: Thread): Thread {
    t.(state := Ready, timedOut := false)
  }

  /** How many waiters on the token come before thread i. */
  function Rank(ts: seq<Thread>, token: Token, i: nat): nat
    requires i <= |ts|
  {
    if i == 0 then 0 else Rank(ts, token, i - 1) + if WaitsOn(ts[i - 1], token) then 1 else 0
  }

  /** The first n waiters on the token are Ready, and no other thread has changed. */
  ghost predicate WokeFirst(ts: seq<Thread>, ts': seq<Thread>, token: Token, n: nat) {
    && |ts'| == |ts|
    && forall i :: 0 <= i < |ts| ==>
         ts'[i] == if WaitsOn(ts[i], token) && Rank(ts, token, i) < n then Roused(ts[i]) else ts[i]
  }

  /** The same for threads outside multi-object waits. */
  ghost predicate ServedFirst(ts: seq<Thread>, ts': seq<Thread>, o: nat, n: nat) {
    && |ts'| == |ts|
    && forall i :: 0 <= i < |ts| && !ts[i].token.MultiToken? ==>
         ts'[i] == if WaitsOn(ts[i], ObjectToken(o)) && Rank(ts, ObjectToken(o), i) < n
                   then Roused(ts[i]) else ts[i]
  }

  lemma {:induction false} RankBound(ts: seq<Thread>, token: Token, i: nat)
    requires i <= |ts|
    ensures Rank(ts, token, i) <= i
    ensures FirstWaiter(ts, token, 0) >= i ==> Rank(ts, token, i) == 0
    ensures FirstWaiter(ts, token, 0) < i ==> Rank(ts, token, i) > 0
  {
    if i > 0 {
      RankBound(ts, token, i - 1);
    }
  }

  lemma {:induction false} RankAfter(ts: seq<Thread>, token: Token, i: nat)
    requires i <= |ts| && FirstWaiter(ts, token, 0) < |ts|
    ensures Rank(SignalOne(ts, token), token, i) == Rank(ts, token, i) - if FirstWaiter(ts, token, 0) < i then 1 else 0
  {
    if i > 0 {
      RankAfter(ts, token, i - 1);
    }
  }

  lemma {:induction false} SignalManyWakesFirst(ts: seq<Thread>, token: Token, n: nat)
    ensures WokeFirst(ts, SignalMany(ts, token, n), token, n)
    decreases n
  {
    if n != 0 {
      var ts1, f := SignalOne(ts, token), FirstWaiter(ts, token, 0);
      SignalManyWakesFirst(ts1, token, n - 1);
      forall i | 0 <= i < |ts|
        ensures SignalMany(ts, token, n)[i]
             == if WaitsOn(ts[i], token) && Rank(ts, token, i) < n then Roused(ts[i]) else ts[i]
      {
        RankBound(ts, token, i);
        if f < |ts| {
          RankAfter(ts, token, i);
        }
      }
    }
  }

  lemma SignalAllWakesFirst(ts: seq<Thread>, token: Token)
    ensures WokeFirst(ts, SignalAll(ts, token), token, |ts|)
  {
    forall i | 0 <= i < |ts| ensures Rank(ts, token, i) < |ts| {
      RankBound(ts, token, i);
    }
  }

  lemma SignalOneWakesFirst(ts: seq<Thread>, token: Token)
    ensures WokeFirst(ts, SignalOne(ts, token), token, 1)
  {
    SignalManyWakesFirst(ts, token, 1);
    assert SignalMany(ts, token, 1) == SignalMany(SignalOne(ts, token), token, 0);
  }

  /** wake_object serves the first `units` waiters on the object alone. */
  lemma WakeObjectServes(s: State, o: nat, units: nat)
    requires o < |s.objs|
    ensures ServedFirst(s.sched.threads, WakeObject(s, o, units).sched.threads, o, units)
  {
    SignalManyWakesFirst(s.sched.threads, ObjectToken(o), units);
    SignalEachWakes(SignalMany(s.sched.threads, ObjectToken(o), units), s.objs[o].waiters);
  }

  /** Setting or pulsing an event serves all of its waiters, or the first one. */
  lemma EventServes(s: State, o: nat)
    requires HasEvent(s, o)
    ensures var n := if s.objs[o].kind.notify then |s.sched.threads| else 1;
      && ServedFirst(s.sched.threads, SetEvent(s, o).sched.threads, o, n)
      && ServedFirst(s.sched.threads, PulseEvent(s, o).sched.threads, o, n)
  {
    var ts, token := s.sched.threads, ObjectToken(o);
    SignalAllWakesFirst(ts, token);
    SignalOneWakesFirst(ts, token);
    SignalEachWakes(SignalAll(ts, token), s.objs[o].waiters);
    SignalEachWakes(SignalOne(ts, token), s.objs[o].waiters);
  }
}
