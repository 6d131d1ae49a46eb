/**
 What one guest CPU has mapped (GuestCpu in src/xbox_cpu.cpp): the engine's pages and
 the list of ranges the emulator keeps about them.
 */
module CpuMap {
  import opened Ram

  datatype Range = Range(va: nat, size: nat)

  predicate Holds(r: Range, b: int) {
    r.va <= b < r.va + r.size
  }

  predicate Covered(m: seq<Range>, b: int) {
    exists i :: 0 <= i < |m| && Holds(m[i], b)
  }

  predicate Apart(q: Range, r: Range) {
    q.va + q.size <= r.va || r.va + r.size <= q.va
  }

  predicate Paged(r: Range) {
    r.size > 0 && r.va % PAGE == 0 && r.size % PAGE == 0
  }

  /** Non-empty whole pages, no two ranges sharing one. */
  ghost predicate Tidy(m: seq<Range>) {
    && (forall i :: 0 <= i < |m| ==> Paged(m[i]))
    && (forall i, j :: 0 <= i < j < |m| ==> Apart(m[i], m[j]))
  }

  // ---------------------------------------------------------------------
  // Interval subtraction

  /** What is left of one range when [lo, hi) is taken out of it. */
  function Trim(r: Range, lo: nat, hi: nat): seq<Range> {
    if r.va + r.size <= lo || r.va >= hi then [r]
    else
      (if r.va < lo then [Range(r.va, lo - r.va)] else [])
      + (if r.va + r.size > hi then [Range(hi, r.va + r.size - hi)] else [])
  }

  function Subtract(m: seq<Range>, lo: nat, hi: nat): seq<Range> {
    if m == [] then [] else Subtract(m[..|m| - 1], lo, hi) + Trim(m[|m| - 1], lo, hi)
  }

  lemma CoveredAppend(m: seq<Range>, n: seq<Range>, b: int)
    ensures Covered(m + n, b) <==> Covered(m, b) || Covered(n, b)
  {
    if i :| 0 <= i < |m| && Holds(m[i], b) {
      assert Holds((m + n)[i], b);
    }
    if i :| 0 <= i < |n| && Holds(n[i], b) {
      assert Holds((m + n)[|m| + i], b);
    }
  }

  lemma TrimExact(r: Range, lo: nat, hi: nat, b: int)
    requires lo <= hi
    ensures Covered(Trim(r, lo, hi), b) <==> Holds(r, b) && !(lo <= b < hi)
  {
    var t := Trim(r, lo, hi);
    if Holds(r, b) && !(lo <= b < hi) {
      assert Holds(t[0], b) || (|t| > 1 && Holds(t[1], b));
    }
  }

  /** Subtraction takes out exactly the given interval, byte for byte. */
  lemma {:induction false} SubtractExact(m: seq<Range>, lo: nat, hi: nat, b: int)
    requires lo <= hi
    ensures Covered(Subtract(m, lo, hi), b) <==> Covered(m, b) && !(lo <= b < hi)
  {
    if m != [] {
      var init, last := m[..|m| - 1], m[|m| - 1];
      SubtractExact(init, lo, hi, b);
      TrimExact(last, lo, hi, b);
      CoveredAppend(Subtract(init, lo, hi), Trim(last, lo, hi), b);
      CoveredAppend(init, [last], b);
      assert init + [last] == m;
      assert Covered([last], b) <==> Holds(last, b) by {
        if Holds(last, b) { assert Holds([last][0], b); }
      }
    }
  }

  predicate Inside(q: Range, r: Range) {
    r.va <= q.va && q.va + q.size <= r.va + r.size
  }

  predicate PieceOf(q: Range, m: seq<Range>) {
    exists i :: 0 <= i < |m| && Inside(q, m[i])
  }

  /** Every remainder is a piece of an old range. */
  lemma {:induction false} SubtractPieces(m: seq<Range>, lo: nat, hi: nat, k: nat)
    requires lo <= hi && k < |Subtract(m, lo, hi)|
    ensures PieceOf(Subtract(m, lo, hi)[k], m)
  {
    var init, last := m[..|m| - 1], m[|m| - 1];
    if k < |Subtract(init, lo, hi)| {
      SubtractPieces(init, lo, hi, k);
      var i :| 0 <= i < |init| && Inside(Subtract(init, lo, hi)[k], init[i]);
      assert Inside(Subtract(m, lo, hi)[k], m[i]);
    } else {
      assert Inside(Subtract(m, lo, hi)[k], m[|m| - 1]);
    }
  }

  lemma TrimTidy(r: Range, lo: nat, hi: nat)
    requires Paged(r) && lo <= hi && lo % PAGE == 0 && hi % PAGE == 0
    ensures Tidy(Trim(r, lo, hi))
    ensures forall i :: 0 <= i < |Trim(r, lo, hi)| ==> Inside(Trim(r, lo, hi)[i], r)
  {
    PagedBetween(r.va, lo);
    PagedBetween(hi, r.va + r.size);
  }

  lemma PagedBetween(a: nat, b: nat)
    requires a % PAGE == 0 && b % PAGE == 0
    ensures (b - a) % PAGE == 0
  {
    assert b - a == (b / PAGE - a / PAGE) * PAGE;
  }

  lemma TidyAppend(s: seq<Range>, t: seq<Range>)
    requires Tidy(s) && Tidy(t)
    requires forall i, j :: 0 <= i < |s| && 0 <= j < |t| ==> Apart(s[i], t[j])
    ensures Tidy(s + t)
  {
  }

  /** Subtracting whole pages leaves whole pages, and ranges that were apart stay apart. */
  lemma {:induction false} SubtractTidy(m: seq<Range>, lo: nat, hi: nat)
    requires Tidy(m) && lo <= hi && lo % PAGE == 0 && hi % PAGE == 0
    ensures Tidy(Subtract(m, lo, hi))
  {
    if m != [] {
      var init, last := m[..|m| - 1], m[|m| - 1];
      var s, t := Subtract(init, lo, hi), Trim(last, lo, hi);
      SubtractTidy(init, lo, hi);
      TrimTidy(last, lo, hi);
      forall i, j | 0 <= i < |s| && 0 <= j < |t| ensures Apart(s[i], t[j]) {
        SubtractPieces(init, lo, hi, i);
        var k :| 0 <= k < |init| && Inside(s[i], init[k]);
        assert Apart(m[k], m[|m| - 1]);
      }
      TidyAppend(s, t);
    }
  }

  // ---------------------------------------------------------------------
  // Rounding

  function PageDown(b: nat): nat {
    b - b % PAGE
  }

  function PageUp(b: nat): nat {
    PageDown(b + PAGE - 1)
  }

  /** The rounded interval holds exactly the first bytes of the range's pages. */
  lemma RoundedPages(va: nat, size: nat, p: int)
    requires size > 0
    ensures InPages(p, va, size) <==> PageDown(va) <= p * PAGE < PageUp(va + size)
  {
    var lo, hi := va / PAGE, (va + size - 1) / PAGE;
    assert PageDown(va) == lo * PAGE;
    var e := va + size + PAGE - 1;
    assert e / PAGE == hi + 1 by {
      assert e == (va + size - 1) + PAGE;
    }
    assert PageUp(va + size) == (hi + 1) * PAGE;
  }

  lemma RoundedShape(va: nat, size: nat)
    requires size > 0
    ensures PageDown(va) % PAGE == 0 && PageUp(va + size) % PAGE == 0
    ensures PageDown(va) <= va && va + size <= PageUp(va + size)
  {
  }

  function PageSet(first: nat, end: nat): (s: set<nat>)
    ensures forall p: nat :: p in s <==> first <= p < end
    decreases end - first
  {
    if first >= end then {} else {first} + PageSet(first + 1, end)
  }

  /** The pages of a range. */
  function PagesOf(va: nat, size: nat): (s: set<nat>)
    requires size > 0
    ensures forall p: nat :: p in s <==> InPages(p, va, size)
  {
    PageSet(va / PAGE, (va + size - 1) / PAGE + 1)
  }

  /** The list describes the engine's pages. */
  ghost predicate Describes(m: seq<Range>, engine: set<nat>) {
    Tidy(m) && forall p: nat :: p in engine <==> Covered(m, p * PAGE)
  }

  /** The loop of unmap_range. */
  method Trimmed(m: seq<Range>, lo: nat, hi: nat) returns (kept: seq<Range>)
    ensures kept == Subtract(m, lo, hi)
  {
    kept := [];
    var i := 0;
    while i < |m|
      invariant 0 <= i <= |m|
      invariant kept == Subtract(m[..i], lo, hi)
    {
      var r := m[i];
      assert m[..i + 1][..i] == m[..i];
      if r.va + r.size <= lo || r.va >= hi {
        kept := kept + [r];
      } else {
        if r.va < lo {
          kept := kept + [Range(r.va, lo - r.va)];
        }
        if r.va + r.size > hi {
          kept := kept + [Range(hi, r.va + r.size - hi)];
        }
      }
      i := i + 1;
    }
    assert m[..i] == m;
  }

  /** unmap_range keeps list and engine in agreement: both lose exactly the pages of the range. */
  lemma UnmapDescribes(m: seq<Range>, engine: set<nat>, va: nat, size: nat)
    requires Describes(m, engine) && size > 0
    ensures Describes(Subtract(m, PageDown(va), PageUp(va + size)), engine - PagesOf(va, size))
  {
    var lo, hi := PageDown(va), PageUp(va + size);
    RoundedShape(va, size);
    SubtractTidy(m, lo, hi);
    forall p: nat ensures p in engine - PagesOf(va, size) <==> Covered(Subtract(m, lo, hi), p * PAGE) {
      SubtractExact(m, lo, hi, p * PAGE);
      RoundedPages(va, size, p);
    }
  }

  /** map_range on pages the engine does not have yet. */
  lemma MapDescribes(m: seq<Range>, engine: set<nat>, va: nat, size: nat)
    requires Describes(m, engine) && size > 0 && PagesOf(va, size) !! engine
    ensures var lo, hi := PageDown(va), PageUp(va + size);
            Describes(m + [Range(lo, hi - lo)], engine + PagesOf(va, size))
  {
    var lo, hi := PageDown(va), PageUp(va + size);
    var r := Range(lo, hi - lo);
    RoundedShape(va, size);
    forall i | 0 <= i < |m| ensures Apart(m[i], r) {
      forall p: nat ensures !(Holds(m[i], p * PAGE) && Holds(r, p * PAGE)) {
        RoundedPages(va, size, p);
        assert Holds(m[i], p * PAGE) ==> Covered(m, p * PAGE);
      }
      ShareAPage(m[i], r);
    }
    forall p: nat ensures p in engine + PagesOf(va, size) <==> Covered(m + [r], p * PAGE) {
      CoveredAppend(m, [r], p * PAGE);
      CoveredOne(r, p * PAGE);
      RoundedPages(va, size, p);
    }
  }

  lemma CoveredOne(r: Range, b: int)
    ensures Covered([r], b) <==> Holds(r, b)
  {
    assert Holds([r][0], b) <==> Holds(r, b);
  }

  /** A range inside a mapped one is mapped page by page. */
  lemma KnownPages(m: seq<Range>, engine: set<nat>, va: nat, size: nat, i: nat)
    requires Describes(m, engine) && size > 0 && i < |m|
    requires m[i].va <= PageDown(va) && PageUp(va + size) <= m[i].va + m[i].size
    ensures PagesOf(va, size) <= engine
  {
    forall p: nat | p in PagesOf(va, size) ensures p in engine {
      RoundedPages(va, size, p);
      assert Holds(m[i], p * PAGE);
    }
  }

  /** Two ranges of whole pages that are not apart share the first byte of a page. */
  lemma ShareAPage(q: Range, r: Range)
    requires Paged(q) && Paged(r)
    ensures Apart(q, r) || exists p: nat :: Holds(q, p * PAGE) && Holds(r, p * PAGE)
  {
    if !Apart(q, r) {
      var b := if q.va < r.va then r.va else q.va;
      var p := b / PAGE;
      assert b == p * PAGE;
      assert Holds(q, p * PAGE) && Holds(r, p * PAGE);
    }
  }

  // ---------------------------------------------------------------------

  class GuestCpu {
    var mapped: seq<Range>
    /** The pages mapped in the engine, which refuses to map one twice or to unmap one that is not mapped. */
    var engine: set<nat>

    ghost predicate Valid()
      reads this
    {
      Describes(mapped, engine)
    }

    constructor ()
      ensures Valid() && mapped == [] && engine == {}
    {
      mapped, engine := [], {};
    }

    /** Already inside one mapped range. */
    predicate Known(lo: nat, hi: nat)
      reads this
    {
      exists i :: 0 <= i < |mapped| && mapped[i].va <= lo && hi <= mapped[i].va + mapped[i].size
    }

    method MapRange(va: nat, size: nat, ram: XbeRam) returns (ok: bool)
      requires Valid() && ram.Valid() && size > 0
      modifies this
      ensures Valid()
      ensures ok <==> (old(Known(PageDown(va), PageUp(va + size)))
                       || (ram.AllCommitted(PageDown(va), 1) && PagesOf(va, size) !! old(engine)))
      ensures engine == if ok then old(engine) + PagesOf(va, size) else old(engine)
    {
      var lo, hi := PageDown(va), PageUp(va + size);
      RoundedShape(va, size);
      var i := 0;
      while i < |mapped|
        invariant 0 <= i <= |mapped|
        invariant forall j :: 0 <= j < i ==> !(mapped[j].va <= lo && hi <= mapped[j].va + mapped[j].size)
      {
        if lo >= mapped[i].va && hi <= mapped[i].va + mapped[i].size {
          KnownPages(mapped, engine, va, size, i);
          return true;
        }
        i := i + 1;
      }
      var host := ram.IsCommitted(lo, 1);
      if !host || !(PagesOf(va, size) !! engine) {
        return false;
      }
      MapDescribes(mapped, engine, va, size);
      engine := engine + PagesOf(va, size);
      mapped := mapped + [Range(lo, hi - lo)];
      return true;
    }

    method UnmapRange(va: nat, size: nat) returns (ok: bool)
      requires Valid() && size > 0
      modifies this
      ensures Valid()
      ensures ok <==> PagesOf(va, size) <= old(engine)
      ensures engine == if ok then old(engine) - PagesOf(va, size) else old(engine)
    {
      if !(PagesOf(va, size) <= engine) {
        return false;
      }
      UnmapDescribes(mapped, engine, va, size);
      engine := engine - PagesOf(va, size);
      mapped := Trimmed(mapped, PageDown(va), PageUp(va + size));
      return true;
    }
  }
}
