/** The guest's memory window (XbeRam in src/xbe_loader.cpp): bytes, and two bits per page. */
module Ram {
  const PAGE: nat := 4096

  newtype byte = x: int | 0 <= x < 256

  /** Page p holds a byte of [addr, addr + len). */
  predicate InPages(p: int, addr: nat, len: nat) {
    len > 0 && addr / PAGE <= p <= (addr + len - 1) / PAGE
  }

  /** A non-empty range inside a window of `size` bytes. */
  predicate InWindow(size: nat, addr: nat, len: nat) {
    len != 0 && len <= size && addr <= size - len
  }

  /** From a page boundary on, the pages of a range are those whose first byte is in it. */
  lemma AlignedPages(p: int, addr: nat, len: nat)
    requires addr % PAGE == 0
    ensures InPages(p, addr, len) <==> addr <= p * PAGE < addr + len
  {
    var first := addr / PAGE;
    assert addr == first * PAGE;
    if len > 0 {
      var q, r := (addr + len - 1) / PAGE, (addr + len - 1) % PAGE;
      assert addr + len - 1 == q * PAGE + r;
    }
  }

  /** mprotect is taken to succeed; `size` is the window's size in bytes. */
  class XbeRam {
    const size: nat
    const bytes: array<byte>
    const committed: array<bool>
    const ro: array<bool>

    ghost predicate Valid() {
      && bytes.Length == size && size % PAGE == 0 && size <= 0x1_0000_0000
      && committed.Length == ro.Length == size / PAGE
      && committed != ro
    }

    constructor (pages: nat)
      requires pages * PAGE <= 0x1_0000_0000
      ensures Valid() && size == pages * PAGE
      ensures fresh(bytes) && fresh(committed) && fresh(ro)
      ensures forall p :: 0 <= p < pages ==> !committed[p] && !ro[p]
      ensures forall a :: 0 <= a < size ==> bytes[a] == 0
    {
      size := pages * PAGE;
      bytes := new byte[pages * PAGE](_ => 0);
      committed := new bool[pages](_ => false);
      ro := new bool[pages](_ => false);
    }

    predicate RangeOk(addr: nat, len: nat) {
      InWindow(size, addr, len)
    }

    /** All pages of a range, as one page interval. */
    lemma RangePages(addr: nat, len: nat)
      requires Valid() && RangeOk(addr, len)
      ensures 0 <= addr / PAGE <= (addr + len - 1) / PAGE < size / PAGE
    {
    }

    predicate AllCommitted(addr: nat, len: nat)
      requires Valid()
      reads committed
    {
      RangeOk(addr, len) && forall p :: 0 <= p < committed.Length && InPages(p, addr, len) ==> committed[p]
    }

    /** Part of a committed range is committed. */
    lemma PartCommitted(addr: nat, len: nat, from: nat, part: nat)
      requires Valid() && AllCommitted(addr, len) && addr <= from && from + part <= addr + len && part > 0
      ensures AllCommitted(from, part)
    {
      forall p | 0 <= p < committed.Length && InPages(p, from, part) ensures committed[p] {
        assert InPages(p, addr, len);
      }
    }

    predicate AllWritable(addr: nat, len: nat)
      requires Valid()
      reads committed, ro
    {
      AllCommitted(addr, len) && forall p :: 0 <= p < ro.Length && InPages(p, addr, len) ==> !ro[p]
    }

    method Commit(addr: nat, len: nat) returns (ok: bool)
      requires Valid()
      modifies committed, ro
      ensures ok <==> RangeOk(addr, len)
      ensures forall p :: 0 <= p < committed.Length ==>
                committed[p] == (old(committed[p]) || (ok && InPages(p, addr, len)))
      ensures forall p :: 0 <= p < committed.Length ==>
        ro[p] == (old(ro[p]) && !(ok && InPages(p, addr, len) && !old(committed[p])))
    {
      if !RangeOk(addr, len) {
        return false;
      }
      RangePages(addr, len);
      var p, last := addr / PAGE, (addr + len - 1) / PAGE;
      while p <= last
        invariant addr / PAGE <= p <= last + 1
        invariant forall q :: 0 <= q < committed.Length ==>
                    committed[q] == (old(committed[q]) || (InPages(q, addr, len) && q < p))
        invariant forall q :: 0 <= q < committed.Length ==>
                    ro[q] == (old(ro[q]) && !(InPages(q, addr, len) && q < p && !old(committed[q])))
      {
        if !committed[p] {
          committed[p] := true;
          ro[p] := false;
        }
        p := p + 1;
      }
      return true;
    }

    method IsCommitted(addr: nat, len: nat) returns (yes: bool)
      requires Valid()
      ensures yes <==> AllCommitted(addr, len)
    {
      if !RangeOk(addr, len) {
        return false;
      }
      RangePages(addr, len);
      var p, last := addr / PAGE, (addr + len - 1) / PAGE;
      while p <= last
        invariant addr / PAGE <= p <= last + 1
        invariant forall q :: addr / PAGE <= q < p ==> committed[q]
      {
        if !committed[p] {
          assert InPages(p, addr, len);
          return false;
        }
        p := p + 1;
      }
      return true;
    }

    method Uncommit(addr: nat, len: nat) returns (ok: bool)
      requires Valid()
      modifies committed, ro
      ensures ok <==> old(AllCommitted(addr, len))
      ensures forall p :: 0 <= p < committed.Length ==>
        committed[p] == (old(committed[p]) && !(ok && InPages(p, addr, len)))
      ensures forall p :: 0 <= p < committed.Length ==> ro[p] == (old(ro[p]) && !(ok && InPages(p, addr, len)))
    {
      ok := IsCommitted(addr, len);
      if !ok {
        return;
      }
      RangePages(addr, len);
      var p, last := addr / PAGE, (addr + len - 1) / PAGE;
      while p <= last
        invariant addr / PAGE <= p <= last + 1
        invariant forall q :: 0 <= q < committed.Length ==>
          committed[q] == (old(committed[q]) && !(InPages(q, addr, len) && q < p))
        invariant forall q :: 0 <= q < committed.Length ==> ro[q] == (old(ro[q]) && !(InPages(q, addr, len) && q < p))
      {
        committed[p] := false;
        ro[p] := false;
        p := p + 1;
      }
    }

    method ProtectRo(addr: nat, len: nat) returns (ok: bool)
      requires Valid()
      modifies ro
      ensures ok <==> AllCommitted(addr, len)
      ensures forall p :: 0 <= p < ro.Length ==> ro[p] == (old(ro[p]) || (ok && InPages(p, addr, len)))
    {
      ok := IsCommitted(addr, len);
      if !ok {
        return;
      }
      RangePages(addr, len);
      var p, last := addr / PAGE, (addr + len - 1) / PAGE;
      while p <= last
        invariant addr / PAGE <= p <= last + 1
        invariant forall q :: 0 <= q < ro.Length ==> ro[q] == (old(ro[q]) || (InPages(q, addr, len) && q < p))
      {
        ro[p] := true;
        p := p + 1;
      }
    }

    method Writable(addr: nat, len: nat) returns (yes: bool)
      requires Valid()
      ensures yes <==> AllWritable(addr, len)
    {
      yes := IsCommitted(addr, len);
      if !yes {
        return;
      }
      RangePages(addr, len);
      var p, last := addr / PAGE, (addr + len - 1) / PAGE;
      while p <= last
        invariant addr / PAGE <= p <= last + 1
        invariant forall q :: addr / PAGE <= q < p ==> !ro[q]
      {
        if ro[p] {
          assert InPages(p, addr, len);
          return false;
        }
        p := p + 1;
      }
    }

    /** write_bytes: all or nothing, refused unless every page is committed and writable. */
    method WriteBytes(addr: nat, data: seq<byte>) returns (ok: bool)
      requires Valid()
      modifies bytes
      ensures ok <==> AllWritable(addr, |data|)
      ensures forall a :: 0 <= a < size ==>
                bytes[a] == if ok && addr <= a < addr + |data| then data[a - addr] else old(bytes[a])
    {
      ok := Writable(addr, |data|);
      if !ok {
        return;
      }
      var i := 0;
      while i < |data|
        invariant 0 <= i <= |data|
        invariant forall a :: 0 <= a < size ==>
          bytes[a] == if addr <= a < addr + i then data[a - addr] else old(bytes[a])
      {
        bytes[addr + i] := data[i];
        i := i + 1;
      }
    }

    /** memset(host_ptr(addr), 0, len): a store to a page without write permission would fault on the host. */
    method ZeroFill(addr: nat, len: nat)
      requires Valid() && AllWritable(addr, len)
      modifies bytes
      ensures forall a :: 0 <= a < size ==> bytes[a] == if addr <= a < addr + len then 0 else old(bytes[a])
    {
      var i := 0;
      while i < len
        invariant 0 <= i <= len
        invariant forall a :: 0 <= a < size ==> bytes[a] == if addr <= a < addr + i then 0 else old(bytes[a])
      {
        bytes[addr + i] := 0;
        i := i + 1;
      }
    }
  }
}
