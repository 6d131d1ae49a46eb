/** The 64-bit numbers that stand for wait channels in the scheduler's thread table. */
module Tokens {
  import opened Scheduler

  const MULTI_BASE: nat := 0x51AC_0000_0000_0000
  const DELAY_CODE: nat := 0x51AB_0000_0000_0000

  /** `addrs[o]` is the host address of object o. */
  function Code(t: Token, addrs: seq<nat>): nat
    requires t.ObjectToken? ==> t.obj < |addrs|
  {
    match t
    case ObjectToken(o) => 2 * addrs[o] + 1
    case SectionToken(va) => 2 * va
    case MultiToken(h) => MULTI_BASE + h
    case DelayToken => DELAY_CODE
  }

  /** What a 64-bit host, a 32-bit guest and a bounded number of fibers guarantee. */
  predicate InRange(t: Token, live: set<nat>) {
    match t
    case ObjectToken(o) => o in live
    case SectionToken(va) => va < 0x1_0000_0000
    case MultiToken(h) => h < 0x1_0000_0000_0000
    case DelayToken => true
  }

  /** Objects that are live at the same time have different addresses; a freed address may be used again. */
  predicate HostAddresses(addrs: seq<nat>, live: set<nat>) {
    && (forall i :: i in live ==> i < |addrs| && addrs[i] < 0x8000_0000_0000)
    && forall i, j :: i in live && j in live && i != j ==> addrs[i] != addrs[j]
  }

  /**
   Two wait channels of live objects, sections and fibers have the same number exactly
   when they are the same channel.
   */
  lemma CodesNeverCollide(t: Token, u: Token, addrs: seq<nat>, live: set<nat>)
    requires HostAddresses(addrs, live) && InRange(t, live) && InRange(u, live)
    ensures Code(t, addrs) < 0x1_0000_0000_0000_0000
    ensures Code(t, addrs) == Code(u, addrs) <==> t == u
  {
    match t
    case ObjectToken(o) => Parity(addrs[o], if u.SectionToken? then u.va else 0);
    case SectionToken(va) => Parity(if u.ObjectToken? then addrs[u.obj] else 0, va);
    case _ =>
  }

  lemma Parity(a: nat, b: nat)
    ensures 2 * a + 1 != 2 * b
  {
    assert (2 * a + 1) % 2 == 1 && (2 * b) % 2 == 0;
  }
}
