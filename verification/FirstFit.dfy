/** The search of mm_alloc (src/xbox_krnl.cpp): first fit over the gaps of an unordered list. */
module FirstFit {
  import opened Ram

  const WORD: nat := 0x1_0000_0000

  /** uint32_t addition. */
  function Add32(a: nat, b: nat): nat {
    (a + b) % WORD
  }

  lemma AddFits(a: nat, b: nat)
    requires a + b < WORD
    ensures Add32(a, b) == a + b
  {
  }

  /** (x + align - 1) & ~(align - 1) in uint32_t, for a power of two. */
  function AlignUp32(x: nat, align: nat): int
    requires align > 0
  {
    Add32(x, align - 1) / align * align
  }

  /** Doubling b some number of times gives a. */
  predicate DoublesTo(b: nat, a: nat)
    requires b > 0
    decreases a - b
  {
    b == a || (b < a && DoublesTo(2 * b, a))
  }

  /** What (a & (a - 1)) == 0 tests, for a > 0. */
  predicate PowerOfTwo(a: nat) {
    DoublesTo(1, a)
  }

  /** Two numbers on one doubling chain: the smaller doubles to the larger, and is not half of it or less otherwise. */
  lemma {:induction false} OneChain(b: nat, c: nat, a: nat)
    requires b > 0 && DoublesTo(b, a) && DoublesTo(b, c) && c <= a
    ensures DoublesTo(c, a) && (a < 2 * c ==> a == c)
    decreases c - b
  {
    if b < c {
      OneChain(2 * b, c, a);
    }
  }

  lemma {:induction false} ChainMultiple(b: nat, a: nat) returns (q: nat)
    requires b > 0 && DoublesTo(b, a)
    ensures a == b * q
    decreases a - b
  {
    if b == a {
      q := 1;
    } else {
      var h := ChainMultiple(2 * b, a);
      q := 2 * h;
      assert b * (2 * h) == (2 * b) * h;
    }
  }

  lemma SixteenBack(b: nat, a: nat)
    requires b > 0 && DoublesTo(16 * b, a)
    ensures DoublesTo(b, a)
  {
    assert DoublesTo(8 * b, a);
    assert DoublesTo(4 * b, a);
    assert DoublesTo(2 * b, a);
  }

  /** The pool lies in the 64 MiB window, so rounding up never wraps. */
  const POOL_LIMIT: nat := 0x400_0000

  lemma AlignUpIsNext(x: nat, align: nat)
    requires x <= POOL_LIMIT && 0 < align <= 0x8000_0000
    ensures AlignUp32(x, align) % align == 0 && x <= AlignUp32(x, align)
    ensures forall c: nat :: x <= c && c % align == 0 ==> AlignUp32(x, align) <= c
  {
    var y := x + align - 1;
    assert Add32(x, align - 1) == y;
    var q, r := y / align, y % align;
    assert y == align * q + r;
    MultipleOf(align, q);
    forall c: nat | x <= c && c % align == 0 ensures q * align <= c {
      assert c == align * (c / align);
      NextMultiple(x, align, q, c / align);
    }
  }

  lemma MulMono(a: nat, k: nat, q: nat)
    requires k <= q
    ensures a * k <= a * q
  {
  }

  lemma MultipleOf(align: nat, q: nat)
    requires align > 0
    ensures (q * align) % align == 0
  {
    var d, m := (q * align) / align, (q * align) % align;
    assert q * align == align * d + m;
    if d < q {
      MulMono(align, d + 1, q);
    } else {
      MulMono(align, q, d);
    }
  }

  lemma NextMultiple(x: nat, align: nat, q: nat, k: nat)
    requires align > 0 && align * q <= x + align - 1 && x <= align * k
    ensures q * align <= align * k
  {
    if k < q {
      MulMono(align, k + 1, q);
      assert false;
    } else {
      MulMono(align, q, k);
    }
  }

  datatype Alloc = Alloc(va: nat, size: nat, protect: nat)

  predicate Collides(a: Alloc, cand: nat, size: nat) {
    a.va < cand + size && cand < a.va + a.size
  }

  /** A place where the request could go, whatever the order of the list. */
  predicate Feasible(allocs: seq<Alloc>, lo: nat, hi: nat, size: nat, align: nat, c: nat)
    requires align > 0
  {
    && lo <= c && c + size <= hi + 1 && c % align == 0
    && forall i :: 0 <= i < |allocs| ==> !Collides(allocs[i], c, size)
  }

  predicate InPool(allocs: seq<Alloc>, poolLo: nat, poolHi: nat) {
    forall i :: 0 <= i < |allocs| ==> poolLo <= allocs[i].va && allocs[i].va + allocs[i].size <= poolHi
  }

  /** The alignment in force: zero means one page, and nothing is finer than a page. */
  function Alignment(alignment: nat): (a: nat)
    ensures a >= PAGE
  {
    if alignment < PAGE then PAGE else alignment
  }

  function WindowLo(poolLo: nat, lowest: nat): nat {
    if poolLo < lowest then lowest else poolLo
  }

  function WindowHi(poolHi: nat, highest: nat): nat
    requires poolHi > 0
  {
    if highest == 0 || highest > poolHi - 1 then poolHi - 1 else highest
  }

  /** An obstacle of one candidate pushes every later feasible address past its end. */
  lemma SkipLosesNothing(allocs: seq<Alloc>, lo: nat, hi: nat, size: nat, align: nat, cand: nat, i: nat, c: nat)
    requires align > 0 && i < |allocs| && Collides(allocs[i], cand, size)
    requires cand <= c && Feasible(allocs, lo, hi, size, align, c)
    ensures allocs[i].va + allocs[i].size <= c
  {
    assert !Collides(allocs[i], c, size);
  }

  /**
   The lowest feasible address of the window, or none exactly when there is none. All
   additions are the source's 32-bit ones.
   */
  method Find(allocs: seq<Alloc>, poolLo: nat, poolHi: nat, size: nat, lowest: nat, highest: nat, alignment: nat)
    returns (found: bool, cand: nat)
    requires poolHi <= POOL_LIMIT && InPool(allocs, poolLo, poolHi)
    requires size < WORD && lowest < WORD && highest < WORD && alignment < WORD
    ensures !(size > 0 && poolLo < poolHi && (alignment == 0 || PowerOfTwo(alignment))) ==> !found
    ensures size > 0 && poolLo < poolHi && (alignment == 0 || PowerOfTwo(alignment)) ==>
      var lo, hi, align := WindowLo(poolLo, lowest), WindowHi(poolHi, highest), Alignment(alignment);
      && (found ==> Feasible(allocs, lo, hi, size, align, cand))
      && (forall c :: Feasible(allocs, lo, hi, size, align, c) ==> found && cand <= c)
  {
    cand := 0;
    if size == 0 || poolHi <= poolLo {
      return false, 0;
    }
    var align := if alignment == 0 then PAGE else alignment;
    PageIsPower();
    if !PowerOfTwo(align) {
      return false, 0;
    }
    AlignmentBound(align);
    if align < PAGE {
      align := PAGE;
    }
    var lo := if poolLo < lowest then lowest else poolLo;
    var top := if highest == 0 then poolHi - 1 else highest;
    var hi := if top < poolHi - 1 then top else poolHi - 1;
    if lo > hi || size > hi - lo + 1 {
      return false, 0;
    }
    found, cand := Search(allocs, poolLo, poolHi, lo, hi, size, align);
  }

  lemma PageIsPower()
    ensures PowerOfTwo(PAGE)
  {
    SixteenBack(256, PAGE);
    SixteenBack(16, PAGE);
    SixteenBack(1, PAGE);
  }

  /** A power of two that fits 32 bits leaves room for the pool's addresses on top. */
  lemma AlignmentBound(align: nat)
    requires PowerOfTwo(align) && align < WORD
    ensures align <= 0x8000_0000
  {
    var top := 0x8000_0000;
    SixteenBack(0x800_0000, top);
    SixteenBack(0x80_0000, top);
    SixteenBack(0x8_0000, top);
    SixteenBack(0x8000, top);
    SixteenBack(0x800, top);
    SixteenBack(0x80, top);
    SixteenBack(8, top);
    assert DoublesTo(4, top);
    assert DoublesTo(2, top);
    if top <= align {
      OneChain(1, top, align);
    }
  }

  /** Page granularity: an alignment in force is a whole number of pages. */
  lemma AlignmentIsPaged(alignment: nat) returns (q: nat)
    requires alignment == 0 || PowerOfTwo(alignment)
    ensures Alignment(alignment) == PAGE * q
  {
    q := 1;
    if alignment >= PAGE {
      PageIsPower();
      OneChain(1, PAGE, alignment);
      q := ChainMultiple(PAGE, alignment);
    }
  }

  /** The scan over candidates: each collision moves on past the furthest obstacle. */
  method Search(allocs: seq<Alloc>, poolLo: nat, poolHi: nat, lo: nat, hi: nat, size: nat, align: nat)
    returns (found: bool, cand: nat)
    requires poolHi <= POOL_LIMIT && InPool(allocs, poolLo, poolHi) && 0 < align <= 0x8000_0000
    requires lo <= hi < poolHi && size > 0
    ensures found ==> Feasible(allocs, lo, hi, size, align, cand)
    ensures forall c :: Feasible(allocs, lo, hi, size, align, c) ==> found && cand <= c
  {
    hide AlignUp32;
    AlignUpIsNext(lo, align);
    cand := AlignUp32(lo, align);
    while true
      invariant lo <= cand && cand % align == 0
      invariant forall c :: Feasible(allocs, lo, hi, size, align, c) ==> cand <= c
      decreases if cand <= hi then hi + 1 - cand else 0
    {
      if cand > hi || size > hi - cand + 1 {
        return false, 0;
      }
      var collided, maxEnd := ScanList(allocs, poolLo, poolHi, lo, hi, size, align, cand);
      if !collided {
        return true, cand;
      }
      AlignUpIsNext(maxEnd, align);
      cand := AlignUp32(maxEnd, align);
    }
  }

  /** The inner loop: does the candidate collide, and how far does the furthest obstacle reach? */
  method ScanList(allocs: seq<Alloc>, poolLo: nat, poolHi: nat, lo: nat, hi: nat, size: nat, align: nat, cand: nat)
    returns (collided: bool, maxEnd: nat)
    requires poolHi <= POOL_LIMIT && InPool(allocs, poolLo, poolHi) && align > 0
    requires lo <= cand && cand + size <= hi + 1 <= poolHi && cand % align == 0
    requires forall c :: Feasible(allocs, lo, hi, size, align, c) ==> cand <= c
    ensures collided <==> !Feasible(allocs, lo, hi, size, align, cand)
    ensures cand <= maxEnd <= poolHi && (collided ==> cand < maxEnd)
    ensures forall c :: Feasible(allocs, lo, hi, size, align, c) ==> maxEnd <= c
  {
    hide Add32;
    collided, maxEnd := false, cand;
    AddFits(cand, size);
    var i := 0;
    while i < |allocs|
      invariant 0 <= i <= |allocs|
      invariant cand <= maxEnd <= poolHi && (collided ==> cand < maxEnd)
      invariant collided <==> exists j :: 0 <= j < i && Collides(allocs[j], cand, size)
      invariant forall c :: Feasible(allocs, lo, hi, size, align, c) ==> maxEnd <= c
    {
      var a := allocs[i];
      AddFits(a.va, a.size);
      if a.va < Add32(cand, size) && cand < Add32(a.va, a.size) {
        assert Collides(allocs[i], cand, size);
        collided := true;
        if maxEnd < Add32(a.va, a.size) {
          maxEnd := Add32(a.va, a.size);
        }
        forall c | Feasible(allocs, lo, hi, size, align, c) ensures maxEnd <= c {
          SkipLosesNothing(allocs, lo, hi, size, align, cand, i, c);
        }
      } else {
        assert !Collides(allocs[i], cand, size);
      }
      i := i + 1;
    }
  }
}
