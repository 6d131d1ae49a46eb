/**
 The contiguous-memory pool (mm_alloc and mm_free in src/xbox_krnl.cpp) with the memory
 observer that maps and unmaps its pages on every attached CPU (src/xbox_cpu.cpp).
 */
module Pool {
  import opened Ram
  import opened FirstFit
  import opened CpuMap

  const PAGE_READONLY: nat := 0x02
  const PAGE_NOCACHE: nat := 0x200

  /** protect & ~PAGE_NOCACHE. */
  function WithoutNocache(protect: nat): nat {
    if (protect / PAGE_NOCACHE) % 2 == 1 then protect - PAGE_NOCACHE else protect
  }

  /** Some live allocation has a byte in page p. */
  predicate Live(allocs: seq<Alloc>, p: int) {
    exists i :: 0 <= i < |allocs| && InPages(p, allocs[i].va, allocs[i].size)
  }

  predicate WellPlaced(a: Alloc, lo: nat, hi: nat) {
    a.size > 0 && a.va % PAGE == 0 && lo <= a.va && a.va + a.size <= hi
  }

  /** Page-aligned allocations inside the pool, no two sharing a byte. */
  ghost predicate Sound(allocs: seq<Alloc>, lo: nat, hi: nat) {
    && (forall i :: 0 <= i < |allocs| ==> WellPlaced(allocs[i], lo, hi))
    && (forall i, j :: 0 <= i < j < |allocs| ==> !Collides(allocs[i], allocs[j].va, allocs[j].size))
  }

  /** Because they start on page boundaries, they do not share a page either. */
  lemma NoSharedPage(allocs: seq<Alloc>, lo: nat, hi: nat, i: nat, j: nat, p: int)
    requires Sound(allocs, lo, hi) && i < |allocs| && j < |allocs|
    requires InPages(p, allocs[i].va, allocs[i].size) && InPages(p, allocs[j].va, allocs[j].size)
    ensures i == j
  {
    assert WellPlaced(allocs[i], lo, hi) && WellPlaced(allocs[j], lo, hi);
    AlignedPages(p, allocs[i].va, allocs[i].size);
    AlignedPages(p, allocs[j].va, allocs[j].size);
    if i != j {
      assert false;
    }
  }

  /** Pages of a feasible place hold no live allocation. */
  lemma FreshPages(allocs: seq<Alloc>, lo: nat, hi: nat, cand: nat, size: nat, align: nat, wlo: nat, whi: nat, p: int)
    requires Sound(allocs, lo, hi) && align > 0 && size > 0 && cand % PAGE == 0
    requires Feasible(allocs, wlo, whi, size, align, cand) && InPages(p, cand, size)
    ensures !Live(allocs, p)
  {
    if i :| 0 <= i < |allocs| && InPages(p, allocs[i].va, allocs[i].size) {
      assert WellPlaced(allocs[i], lo, hi) && !Collides(allocs[i], cand, size);
      AlignedPages(p, allocs[i].va, allocs[i].size);
      AlignedPages(p, cand, size);
      assert false;
    }
  }

  lemma LiveAppend(allocs: seq<Alloc>, a: Alloc, p: int)
    ensures Live(allocs + [a], p) <==> Live(allocs, p) || InPages(p, a.va, a.size)
  {
    var all := allocs + [a];
    if i :| 0 <= i < |allocs| && InPages(p, allocs[i].va, allocs[i].size) {
      assert InPages(p, all[i].va, all[i].size);
    }
    if InPages(p, a.va, a.size) {
      assert InPages(p, all[|allocs|].va, all[|allocs|].size);
    }
  }

  /** Where element i of a list with place k removed came from. */
  function Skip(i: nat, k: nat): nat {
    if i < k then i else i + 1
  }

  function Without(allocs: seq<Alloc>, k: nat): (r: seq<Alloc>)
    requires k < |allocs|
    ensures |r| == |allocs| - 1
    ensures forall i :: 0 <= i < |r| ==> r[i] == allocs[Skip(i, k)]
  {
    allocs[..k] + allocs[k + 1..]
  }

  lemma LiveWithout(allocs: seq<Alloc>, lo: nat, hi: nat, k: nat, p: int)
    requires Sound(allocs, lo, hi) && k < |allocs|
    ensures Live(Without(allocs, k), p) <==> Live(allocs, p) && !InPages(p, allocs[k].va, allocs[k].size)
  {
    hide InPages, Sound;
    var left := Without(allocs, k);
    if i :| 0 <= i < |left| && InPages(p, left[i].va, left[i].size) {
      assert left[i] == allocs[Skip(i, k)];
      if InPages(p, allocs[k].va, allocs[k].size) {
        NoSharedPage(allocs, lo, hi, Skip(i, k), k, p);
      }
    }
    if Live(allocs, p) && !InPages(p, allocs[k].va, allocs[k].size) {
      var j :| 0 <= j < |allocs| && InPages(p, allocs[j].va, allocs[j].size);
      var i := if j < k then j else j - 1;
      assert left[i] == allocs[Skip(i, k)];
    }
  }

  lemma SoundWithout(allocs: seq<Alloc>, lo: nat, hi: nat, k: nat)
    requires Sound(allocs, lo, hi) && k < |allocs|
    ensures Sound(Without(allocs, k), lo, hi)
  {
  }

  /** The pool's pages of a page set are exactly the live ones. */
  ghost predicate Agrees(pages: set<nat>, allocs: seq<Alloc>, lo: nat, hi: nat) {
    forall p: nat :: lo <= p * PAGE < hi ==> (p in pages <==> Live(allocs, p))
  }

  lemma AgreesAfterMap(pages: set<nat>, allocs: seq<Alloc>, a: Alloc, lo: nat, hi: nat)
    requires Agrees(pages, allocs, lo, hi) && a.size > 0
    ensures Agrees(pages + PagesOf(a.va, a.size), allocs + [a], lo, hi)
  {
    forall p: nat | lo <= p * PAGE < hi ensures p in pages + PagesOf(a.va, a.size) <==> Live(allocs + [a], p) {
      LiveAppend(allocs, a, p);
    }
  }

  lemma AgreesAfterUnmap(pages: set<nat>, allocs: seq<Alloc>, k: nat, lo: nat, hi: nat)
    requires Agrees(pages, allocs, lo, hi) && k < |allocs| && Sound(allocs, lo, hi)
    ensures Agrees(pages - PagesOf(allocs[k].va, allocs[k].size), Without(allocs, k), lo, hi)
  {
    forall p: nat | lo <= p * PAGE < hi
      ensures p in pages - PagesOf(allocs[k].va, allocs[k].size) <==> Live(Without(allocs, k), p)
    {
      LiveWithout(allocs, lo, hi, k, p);
    }
  }

  class MmPool {
    const ram: XbeRam
    const lo: nat
    const hi: nat
    var allocs: seq<Alloc>
    var cpus: seq<GuestCpu>

    /** Committed pool pages are exactly the pages of the live allocations. */
    ghost predicate RamAgrees()
      requires ram.Valid() && hi <= ram.size
      reads this, ram.committed
    {
      forall p :: 0 <= p < ram.committed.Length && lo <= p * PAGE < hi ==> (ram.committed[p] <==> Live(allocs, p))
    }

    /** The three views of the pool agree, on every CPU. */
    ghost predicate Valid()
      reads this, cpus, ram.committed
    {
      && ram.Valid() && lo % PAGE == 0 && hi % PAGE == 0 && hi <= ram.size && hi <= POOL_LIMIT
      && Sound(allocs, lo, hi)
      && RamAgrees()
      && (forall i, j :: 0 <= i < j < |cpus| ==> cpus[i] != cpus[j])
      && (forall i :: 0 <= i < |cpus| ==> cpus[i].Valid() && Agrees(cpus[i].engine, allocs, lo, hi))
    }

    constructor (memory: XbeRam, poolLo: nat, poolHi: nat)
      requires memory.Valid() && poolLo % PAGE == 0 && poolHi % PAGE == 0 && poolHi <= memory.size
      requires poolHi <= POOL_LIMIT
      requires forall p :: 0 <= p < memory.committed.Length && poolLo <= p * PAGE < poolHi ==> !memory.committed[p]
      ensures Valid() && ram == memory && lo == poolLo && hi == poolHi && allocs == [] && cpus == []
    {
      ram, lo, hi, allocs, cpus := memory, poolLo, poolHi, [], [];
    }

    /** A CPU joins with the pages attach() has mapped: every committed page and no other. */
    method Register(cpu: GuestCpu)
      requires Valid() && cpu !in cpus && cpu.Valid()
      requires forall p: nat :: p in cpu.engine <==> p < ram.committed.Length && ram.committed[p]
      modifies this
      ensures Valid() && allocs == old(allocs) && cpus == old(cpus) + [cpu]
    {
      forall p: nat | lo <= p * PAGE < hi ensures p in cpu.engine <==> Live(allocs, p) {
        assert p < ram.committed.Length;
      }
      cpus := cpus + [cpu];
    }

    /** map_on_all. */
    method MapOnAll(va: nat, size: nat)
      requires ram.Valid() && size > 0 && va % PAGE == 0 && ram.AllCommitted(va, 1)
      requires forall i, j :: 0 <= i < j < |cpus| ==> cpus[i] != cpus[j]
      requires forall i :: 0 <= i < |cpus| ==> cpus[i].Valid() && PagesOf(va, size) !! cpus[i].engine
      modifies cpus
      ensures forall i :: 0 <= i < |cpus| ==>
        cpus[i].Valid() && cpus[i].engine == old(cpus[i].engine) + PagesOf(va, size)
    {
      var k := 0;
      while k < |cpus|
        invariant 0 <= k <= |cpus|
        invariant forall i :: 0 <= i < k ==>
          cpus[i].Valid() && cpus[i].engine == old(cpus[i].engine) + PagesOf(va, size)
        invariant forall i :: k <= i < |cpus| ==> unchanged(cpus[i]) && cpus[i].Valid()
      {
        var _ := cpus[k].MapRange(va, size, ram);
        k := k + 1;
      }
    }

    /** unmap_on_all. */
    method UnmapOnAll(va: nat, size: nat)
      requires size > 0
      requires forall i, j :: 0 <= i < j < |cpus| ==> cpus[i] != cpus[j]
      requires forall i :: 0 <= i < |cpus| ==> cpus[i].Valid() && PagesOf(va, size) <= cpus[i].engine
      modifies cpus
      ensures forall i :: 0 <= i < |cpus| ==>
        cpus[i].Valid() && cpus[i].engine == old(cpus[i].engine) - PagesOf(va, size)
    {
      var k := 0;
      while k < |cpus|
        invariant 0 <= k <= |cpus|
        invariant forall i :: 0 <= i < k ==>
          cpus[i].Valid() && cpus[i].engine == old(cpus[i].engine) - PagesOf(va, size)
        invariant forall i :: k <= i < |cpus| ==> unchanged(cpus[i]) && cpus[i].Valid()
      {
        var _ := cpus[k].UnmapRange(va, size);
        k := k + 1;
      }
    }

    /** mm_alloc. The result 0 means refused; a granted address is the lowest that fits. */
    method Alloc(size: nat, lowest: nat, highest: nat, alignment: nat, protect: nat) returns (va: nat)
      requires Valid() && lo > 0
      requires size < WORD && lowest < WORD && highest < WORD && alignment < WORD && protect < WORD
      modifies this, cpus, ram.committed, ram.ro, ram.bytes
      ensures Valid() && cpus == old(cpus)
      ensures va == 0 ==> allocs == old(allocs)
      ensures va != 0 ==> allocs == old(allocs) + [FirstFit.Alloc(va, size, protect)]
      ensures !Wellformed(size, alignment) ==> va == 0
      ensures Wellformed(size, alignment) ==>
        var wlo, whi, align := WindowLo(lo, lowest), WindowHi(hi, highest), Alignment(alignment);
        && (va != 0 ==> Feasible(old(allocs), wlo, whi, size, align, va))
        && (forall c :: Feasible(old(allocs), wlo, whi, size, align, c) ==> va != 0 && va <= c)
      ensures va != 0 ==> forall b :: 0 <= b < ram.size ==>
        ram.bytes[b] == if va <= b < va + size then 0 else old(ram.bytes[b])
      ensures va != 0 ==> forall p :: 0 <= p < ram.ro.Length ==>
        ram.ro[p] == if InPages(p, va, size) then WithoutNocache(protect) == PAGE_READONLY else old(ram.ro[p])
      ensures va == 0 ==> ram.bytes[..] == old(ram.bytes[..]) && ram.ro[..] == old(ram.ro[..])
    {
      var found, cand := Find(allocs, lo, hi, size, lowest, highest, alignment);
      if !found {
        return 0;
      }
      ghost var wlo, whi, align := WindowLo(lo, lowest), WindowHi(hi, highest), Alignment(alignment);
      PageAligned(alignment, cand);
      forall p: int | InPages(p, cand, size) ensures !Live(allocs, p) {
        FreshPages(allocs, lo, hi, cand, size, align, wlo, whi, p);
      }
      Grant(cand, size, protect);
      return cand;
    }

    /** commit, memset and protect_ro on pages that are not committed. */
    method PreparePages(va: nat, size: nat, protect: nat)
      requires ram.Valid() && ram.RangeOk(va, size)
      requires forall p :: 0 <= p < ram.committed.Length && InPages(p, va, size) ==> !ram.committed[p]
      modifies ram.committed, ram.ro, ram.bytes
      ensures forall p :: 0 <= p < ram.committed.Length ==>
        ram.committed[p] == (old(ram.committed[p]) || InPages(p, va, size))
      ensures forall p :: 0 <= p < ram.ro.Length ==>
        ram.ro[p] == if InPages(p, va, size) then WithoutNocache(protect) == PAGE_READONLY else old(ram.ro[p])
      ensures forall b :: 0 <= b < ram.size ==> ram.bytes[b] == if va <= b < va + size then 0 else old(ram.bytes[b])
    {
      var _ := ram.Commit(va, size);
      ram.ZeroFill(va, size);
      if WithoutNocache(protect) == PAGE_READONLY {
        var _ := ram.ProtectRo(va, size);
      }
    }

    /** The rest of mm_alloc, for a place that is free. */
    method Grant(va: nat, size: nat, protect: nat)
      requires Valid() && WellPlaced(FirstFit.Alloc(va, size, protect), lo, hi)
      requires forall i :: 0 <= i < |allocs| ==> !Collides(allocs[i], va, size)
      requires forall p: int :: InPages(p, va, size) ==> !Live(allocs, p)
      modifies this, cpus, ram.committed, ram.ro, ram.bytes
      ensures Valid() && cpus == old(cpus) && allocs == old(allocs) + [FirstFit.Alloc(va, size, protect)]
      ensures forall p :: 0 <= p < ram.ro.Length ==>
        ram.ro[p] == if InPages(p, va, size) then WithoutNocache(protect) == PAGE_READONLY else old(ram.ro[p])
      ensures forall b :: 0 <= b < ram.size ==> ram.bytes[b] == if va <= b < va + size then 0 else old(ram.bytes[b])
    {
      hide Live;
      forall p: int | InPages(p, va, size) ensures lo <= p * PAGE < hi {
        AlignedPages(p, va, size);
      }
      PreparePages(va, size, protect);
      ghost var before := allocs;
      allocs := allocs + [FirstFit.Alloc(va, size, protect)];
      assert RamAgrees() by {
        forall p: int ensures Live(allocs, p) <==> Live(before, p) || InPages(p, va, size) {
          LiveAppend(before, FirstFit.Alloc(va, size, protect), p);
        }
      }
      MapOnAll(va, size);
      forall i | 0 <= i < |cpus| ensures Agrees(cpus[i].engine, allocs, lo, hi) {
        AgreesAfterMap(old(cpus[i].engine), before, FirstFit.Alloc(va, size, protect), lo, hi);
      }
    }

    ghost predicate Wellformed(size: nat, alignment: nat) {
      size > 0 && lo < hi && (alignment == 0 || PowerOfTwo(alignment))
    }

    /** mm_free: true exactly when an allocation starts at va, which is then gone from all three views. */
    method Free(va: nat) returns (ok: bool)
      requires Valid()
      modifies this, cpus, ram.committed, ram.ro
      ensures Valid() && cpus == old(cpus)
      ensures ok <==> exists i :: 0 <= i < |old(allocs)| && old(allocs)[i].va == va
      ensures !ok ==> allocs == old(allocs)
      ensures ok ==> exists k :: 0 <= k < |old(allocs)| && old(allocs)[k].va == va && allocs == Without(old(allocs), k)
    {
      var i := 0;
      while i < |allocs|
        invariant 0 <= i <= |allocs|
        invariant forall j :: 0 <= j < i ==> allocs[j].va != va
      {
        if allocs[i].va == va {
          FreeAt(i);
          return true;
        }
        i := i + 1;
      }
      return false;
    }

    method FreeAt(k: nat)
      requires Valid() && k < |allocs|
      modifies this, cpus, ram.committed, ram.ro
      ensures Valid() && cpus == old(cpus) && allocs == Without(old(allocs), k)
    {
      ghost var before := allocs;
      var a := allocs[k];
      assert WellPlaced(a, lo, hi);
      forall p: int | InPages(p, a.va, a.size) ensures Live(allocs, p) && lo <= p * PAGE < hi {
        AlignedPages(p, a.va, a.size);
      }
      allocs := allocs[..k] + allocs[k + 1..];
      assert allocs == Without(before, k);
      SoundWithout(before, lo, hi, k);
      var ok := ram.Uncommit(a.va, a.size);
      assert RamAgrees() by {
        forall p: int ensures Live(allocs, p) <==> Live(before, p) && !InPages(p, a.va, a.size) {
          LiveWithout(before, lo, hi, k, p);
        }
      }
      if ok {
        UnmapOnAll(a.va, a.size);
      }
      forall i | 0 <= i < |cpus| ensures Agrees(cpus[i].engine, allocs, lo, hi) {
        AgreesAfterUnmap(old(cpus[i].engine), before, k, lo, hi);
      }
    }
  }

  lemma PageAligned(alignment: nat, c: nat)
    requires (alignment == 0 || PowerOfTwo(alignment)) && c % Alignment(alignment) == 0
    ensures c % PAGE == 0
  {
    var m := AlignmentIsPaged(alignment);
    var q := c / Alignment(alignment);
    ExactDivision(c, Alignment(alignment));
    Regroup(PAGE, m, q);
    MultipleOf(PAGE, m * q);
  }

  lemma ExactDivision(c: nat, a: nat)
    requires a > 0 && c % a == 0
    ensures c == a * (c / a)
  {
  }

  lemma Regroup(p: nat, m: nat, q: nat)
    ensures (p * m) * q == (m * q) * p
  {
  }
}
