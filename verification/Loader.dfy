/** The XBE loader (src/xbe_loader.cpp): the file view and the memory view of an address. */
module Loader {
  import opened Ram

  datatype Option = None | Some(offset: nat)

  /** The words of a section header that loading uses, with its three protection flags. */
  datatype Section = Section(
    va: nat,
    virtualSize: nat,
    rawAddr: nat,
    rawSize: nat,
    writeable: bool,
    headReadonly: bool,
    tailReadonly: bool)

  datatype Image = Image(file: seq<byte>, base: nat, headers: nat, imageSize: nat, sections: seq<Section>)

  /** What loading depends on: the bounds that parsing has checked before an image exists. */
  predicate Bounded(x: Image) {
    forall i :: 0 <= i < |x.sections| ==> SectionBounded(x, x.sections[i])
  }

  predicate SectionBounded(x: Image, s: Section) {
    && s.rawAddr + s.rawSize <= |x.file|
    && s.rawSize <= s.virtualSize
    && (s.virtualSize > 0 ==> x.base <= s.va && s.va + s.virtualSize <= 0xFFFF_FFFF)
  }

  // ---------------------------------------------------------------------
  // The file view

  function HeaderOffset(x: Image, va: nat): Option {
    if va < x.base then None
    else if va - x.base >= x.headers then None
    else if va - x.base >= |x.file| then None
    else Some(va - x.base)
  }

  predicate HoldsRaw(s: Section, va: nat) {
    s.virtualSize != 0 && s.va <= va && va - s.va < s.virtualSize && va - s.va < s.rawSize
  }

  function SectionOffset(sections: seq<Section>, va: nat): Option {
    if sections == [] then None
    else if HoldsRaw(sections[0], va) then Some(sections[0].rawAddr + (va - sections[0].va))
    else SectionOffset(sections[1..], va)
  }

  /** va_file_offset: headers first, then the section table in order. */
  function FileOffset(x: Image, va: nat): Option {
    if HeaderOffset(x, va).Some? then HeaderOffset(x, va)
    else if va < x.base then None
    else SectionOffset(x.sections, va)
  }

  /** The loop of va_file_offset. */
  method FindOffset(x: Image, va: nat) returns (r: Option)
    ensures r == FileOffset(x, va)
  {
    if HeaderOffset(x, va).Some? {
      return HeaderOffset(x, va);
    }
    if va < x.base {
      return None;
    }
    var i := 0;
    while i < |x.sections|
      invariant 0 <= i <= |x.sections|
      invariant SectionOffset(x.sections[i..], va) == SectionOffset(x.sections, va)
    {
      var s := x.sections[i];
      assert x.sections[i..][1..] == x.sections[i + 1..];
      if !(s.virtualSize == 0 || va < s.va) {
        var into := va - s.va;
        if into < s.virtualSize && into < s.rawSize {
          return Some(s.rawAddr + into);
        }
      }
      i := i + 1;
    }
    return None;
  }

  // ---------------------------------------------------------------------
  // The memory view

  predicate Covers(s: Section, a: int) {
    s.va <= a < s.va + s.virtualSize
  }

  function SectionByte(x: Image, s: Section, a: nat): byte
    requires Covers(s, a) && s.rawAddr + s.rawSize <= |x.file|
  {
    if a - s.va < s.rawSize then x.file[s.rawAddr + (a - s.va)] else 0
  }

  /** The byte at address a when the headers and the first n sections have been loaded over `before`. */
  function ByteAfter(x: Image, n: nat, before: seq<byte>, a: nat): byte
    requires n <= |x.sections| && a < |before|
    requires forall i :: 0 <= i < n ==> x.sections[i].rawAddr + x.sections[i].rawSize <= |x.file|
  {
    if n == 0 then
      if x.base <= a < x.base + x.headers && a - x.base < |x.file| then x.file[a - x.base] else before[a]
    else if Covers(x.sections[n - 1], a) then SectionByte(x, x.sections[n - 1], a)
    else ByteAfter(x, n - 1, before, a)
  }

  /** map() has accepted the first n sections: each begins at or after the end of those before it. */
  ghost predicate Ascending(sections: seq<Section>, n: nat)
    requires n <= |sections|
  {
    forall i, j :: 0 <= i < j < n && sections[i].virtualSize > 0 && sections[j].virtualSize > 0 ==>
      sections[i].va + sections[i].virtualSize <= sections[j].va
  }

  // ---------------------------------------------------------------------
  // The views agree

  ghost predicate PastHeaders(x: Image) {
    forall i :: 0 <= i < |x.sections| && x.sections[i].virtualSize > 0 ==> x.base + x.headers <= x.sections[i].va
  }

  /** The section that decides an address is the only one that covers it. */
  lemma {:induction false} OneSection(x: Image, n: nat, before: seq<byte>, a: nat, k: nat)
    requires Bounded(x) && k < n <= |x.sections| && a < |before|
    requires Ascending(x.sections, n) && Covers(x.sections[k], a)
    ensures ByteAfter(x, n, before, a) == SectionByte(x, x.sections[k], a)
    decreases n
  {
    if k < n - 1 {
      assert !Covers(x.sections[n - 1], a);
      OneSection(x, n - 1, before, a, k);
    }
  }

  lemma {:induction false} NoSection(x: Image, n: nat, before: seq<byte>, a: nat)
    requires Bounded(x) && n <= |x.sections| && a < |before|
    requires forall i :: 0 <= i < n ==> !Covers(x.sections[i], a)
    ensures ByteAfter(x, n, before, a) == ByteAfter(x, 0, before, a)
    decreases n
  {
    if n > 0 {
      NoSection(x, n - 1, before, a);
    }
  }

  lemma {:induction false} OffsetIsFirst(sections: seq<Section>, va: nat) returns (k: nat)
    requires SectionOffset(sections, va).Some?
    ensures k < |sections| && HoldsRaw(sections[k], va)
    ensures SectionOffset(sections, va) == Some(sections[k].rawAddr + (va - sections[k].va))
  {
    if HoldsRaw(sections[0], va) {
      k := 0;
    } else {
      var j := OffsetIsFirst(sections[1..], va);
      k := j + 1;
    }
  }

  /** A section lies over this byte of the header block and holds something else there. */
  ghost predicate Overlaid(x: Image, va: nat)
    requires Bounded(x) && HeaderOffset(x, va).Some?
  {
    exists k :: 0 <= k < |x.sections| && Covers(x.sections[k], va)
             && SectionByte(x, x.sections[k], va) != x.file[va - x.base]
  }

  /**
   An address that the file view resolves holds that byte of the file in memory, exactly
   when it is not a header address over which a section has put a different byte. Where
   sections overlap nothing, and for every address resolved through a section, the views
   agree.
   */
  lemma ViewsAgreeExactly(x: Image, before: seq<byte>, va: nat)
    requires Bounded(x) && Ascending(x.sections, |x.sections|) && va < |before|
    requires FileOffset(x, va).Some?
    ensures FileOffset(x, va).offset < |x.file|
    ensures ByteAfter(x, |x.sections|, before, va) == x.file[FileOffset(x, va).offset]
       <==> (HeaderOffset(x, va).Some? ==> !Overlaid(x, va))
  {
    if HeaderOffset(x, va).Some? {
      if k :| 0 <= k < |x.sections| && Covers(x.sections[k], va) {
        OneSection(x, |x.sections|, before, va, k);
        forall j | 0 <= j < |x.sections| && Covers(x.sections[j], va)
          ensures SectionByte(x, x.sections[j], va) == SectionByte(x, x.sections[k], va)
        {
          OneSection(x, |x.sections|, before, va, j);
        }
      } else {
        NoSection(x, |x.sections|, before, va);
      }
    } else {
      var k := OffsetIsFirst(x.sections, va);
      OneSection(x, |x.sections|, before, va, k);
    }
  }

  /** If every section starts past the headers, the views agree everywhere. */
  lemma ViewsAgree(x: Image, before: seq<byte>, va: nat)
    requires Bounded(x) && PastHeaders(x) && Ascending(x.sections, |x.sections|) && va < |before|
    requires FileOffset(x, va).Some?
    ensures FileOffset(x, va).offset < |x.file|
    ensures ByteAfter(x, |x.sections|, before, va) == x.file[FileOffset(x, va).offset]
  {
    ViewsAgreeExactly(x, before, va);
  }

  /** The file view resolves exactly the header bytes that the file has and the raw bytes of sections. */
  lemma {:induction false} ResolvesExactly(x: Image, va: nat)
    ensures FileOffset(x, va).Some? <==>
      || (x.base <= va < x.base + x.headers && va - x.base < |x.file|)
      || (x.base <= va && exists k :: 0 <= k < |x.sections| && InRaw(x.sections[k], va))
  {
    SectionResolves(x.sections, va);
  }

  predicate InRaw(s: Section, va: nat) {
    s.va <= va < s.va + s.virtualSize && va < s.va + s.rawSize
  }

  lemma {:induction false} SectionResolves(sections: seq<Section>, va: nat)
    ensures SectionOffset(sections, va).Some? <==> exists k :: 0 <= k < |sections| && InRaw(sections[k], va)
  {
    if sections != [] {
      SectionResolves(sections[1..], va);
      if HoldsRaw(sections[0], va) {
        assert InRaw(sections[0], va);
      }
      if k :| 0 <= k < |sections[1..]| && InRaw(sections[1..][k], va) {
        assert InRaw(sections[k + 1], va);
      }
    }
  }

  /** An address in no section and outside the headers keeps its byte. */
  lemma UntouchedIsKept(x: Image, before: seq<byte>, a: nat)
    requires Bounded(x) && a < |before| && forall i :: 0 <= i < |x.sections| ==> !Covers(x.sections[i], a)
    requires !(x.base <= a < x.base + x.headers && a - x.base < |x.file|)
    ensures ByteAfter(x, |x.sections|, before, a) == before[a]
  {
    NoSection(x, |x.sections|, before, a);
  }

  /** Every byte of a section beyond its raw data is zero. */
  lemma TailIsZero(x: Image, before: seq<byte>, k: nat, va: nat)
    requires Bounded(x) && Ascending(x.sections, |x.sections|) && va < |before| && k < |x.sections|
    requires x.sections[k].va + x.sections[k].rawSize <= va < x.sections[k].va + x.sections[k].virtualSize
    ensures ByteAfter(x, |x.sections|, before, va) == 0
    ensures PastHeaders(x) ==> FileOffset(x, va).None?
  {
    OneSection(x, |x.sections|, before, va, k);
    if PastHeaders(x) && SectionOffset(x.sections, va).Some? {
      var j := OffsetIsFirst(x.sections, va);
      assert false;
    }
  }

  // ---------------------------------------------------------------------
  // What map() comes to

  /** Loading section s makes page p read-only. */
  predicate ReadonlyBy(s: Section, p: int) {
    && s.virtualSize > 0
    && (   (!s.writeable && InPages(p, s.va, s.virtualSize))
        || (s.headReadonly && InPages(p, s.va, 1))
        || (s.tailReadonly && InPages(p, s.va + s.virtualSize - 1, 1)))
  }

  /** One of the first n sections makes page p read-only. */
  ghost predicate Readonly(sections: seq<Section>, n: nat, p: int)
    requires n <= |sections|
  {
    exists k :: 0 <= k < n && ReadonlyBy(sections[k], p)
  }

  ghost predicate Touches(sections: seq<Section>, n: nat, addr: nat, len: nat)
    requires n <= |sections|
  {
    exists p :: InPages(p, addr, len) && Readonly(sections, n, p)
  }

  /**
   Refused: map() returns false. Overread: the copy of the header block reads beyond the
   end of the file. Fault: a zero fill stores to a page that is already read-only.
   */
  datatype MapResult = Refused | Overread | Fault | Loaded

  /** The end of the last non-empty section among the first n. */
  function PrevEnd(sections: seq<Section>, n: nat): nat
    requires n <= |sections|
  {
    if n == 0 then 0
    else if sections[n - 1].virtualSize > 0 then sections[n - 1].va + sections[n - 1].virtualSize
    else PrevEnd(sections, n - 1)
  }

  ghost function LoadSection(x: Image, size: nat, n: nat): MapResult
    requires n < |x.sections|
  {
    var s := x.sections[n];
    if s.virtualSize == 0 then Loaded
    else if s.va < PrevEnd(x.sections, n) then Refused
    else if !InWindow(size, s.va, s.virtualSize) then Refused
    else if s.rawSize > 0 && Touches(x.sections, n, s.va, s.rawSize) then Refused
    else if s.virtualSize > s.rawSize && Touches(x.sections, n, s.va + s.rawSize, s.virtualSize - s.rawSize) then Fault
    else Loaded
  }

  /** What the first n sections come to. */
  ghost function LoadUpTo(x: Image, size: nat, n: nat): MapResult
    requires n <= |x.sections|
  {
    if n == 0 then Loaded
    else if LoadUpTo(x, size, n - 1) != Loaded then LoadUpTo(x, size, n - 1)
    else LoadSection(x, size, n - 1)
  }

  ghost function Load(x: Image, size: nat): MapResult {
    if !InWindow(size, x.base, x.headers) then Refused
    else if x.headers > |x.file| then Overread
    else LoadUpTo(x, size, |x.sections|)
  }

  /** The sections before n have all ended. */
  lemma {:induction false} LoadedAscends(x: Image, size: nat, n: nat)
    requires n <= |x.sections| && LoadUpTo(x, size, n) == Loaded
    ensures Ascending(x.sections, n)
    ensures forall k :: 0 <= k < n && x.sections[k].virtualSize > 0 ==>
              x.sections[k].va + x.sections[k].virtualSize <= PrevEnd(x.sections, n) <= size
  {
    if n > 0 {
      LoadedAscends(x, size, n - 1);
    }
  }

  /** A page that an earlier section made read-only can only be the first one of this section. */
  lemma SharedPageIsFirst(x: Image, size: nat, n: nat, p: int, addr: nat, len: nat)
    requires n < |x.sections| && LoadUpTo(x, size, n) == Loaded && PrevEnd(x.sections, n) <= x.sections[n].va <= addr
    requires Readonly(x.sections, n, p) && InPages(p, addr, len)
    ensures p == x.sections[n].va / PAGE
  {
    LoadedAscends(x, size, n);
    var k :| 0 <= k < n && ReadonlyBy(x.sections[k], p);
    var s := x.sections[k];
    LastPage(p, s.va, s.virtualSize);
    LastPage(p, s.va + s.virtualSize - 1, 1);
    LastPage(p, s.va, 1);
    assert p * PAGE < s.va + s.virtualSize <= x.sections[n].va;
    PageOrder(p, x.sections[n].va, addr);
  }

  lemma LastPage(p: int, addr: nat, len: nat)
    ensures InPages(p, addr, len) ==> p * PAGE < addr + len
  {
    if InPages(p, addr, len) {
      var q, r := (addr + len - 1) / PAGE, (addr + len - 1) % PAGE;
      assert addr + len - 1 == q * PAGE + r;
    }
  }

  lemma PageOrder(p: int, va: nat, addr: nat)
    requires p * PAGE < va <= addr && addr / PAGE <= p
    ensures p == va / PAGE
  {
    var q, r := va / PAGE, va % PAGE;
    assert va == q * PAGE + r;
    var q', r' := addr / PAGE, addr % PAGE;
    assert addr == q' * PAGE + r';
  }

  /**
   A section whose first page an earlier section has made read-only is refused if it has
   raw data and faults if it has none; no other page can be read-only.
   */
  lemma SectionFaultsExactly(x: Image, size: nat, n: nat)
    requires Bounded(x) && n < |x.sections| && LoadUpTo(x, size, n) == Loaded
    requires var s := x.sections[n];
      s.virtualSize > 0 && PrevEnd(x.sections, n) <= s.va && InWindow(size, s.va, s.virtualSize)
    ensures var s := x.sections[n];
      LoadSection(x, size, n)
      == if !Readonly(x.sections, n, s.va / PAGE) then Loaded else if s.rawSize > 0 then Refused else Fault
  {
    var s := x.sections[n];
    if s.rawSize > 0 {
      TouchesFirst(x, size, n, s.va, s.rawSize);
    }
    if s.virtualSize > s.rawSize {
      TouchesFirst(x, size, n, s.va + s.rawSize, s.virtualSize - s.rawSize);
    }
  }

  lemma TouchesFirst(x: Image, size: nat, n: nat, addr: nat, len: nat)
    requires n < |x.sections| && LoadUpTo(x, size, n) == Loaded
    requires PrevEnd(x.sections, n) <= x.sections[n].va <= addr && len > 0
    ensures Touches(x.sections, n, addr, len) ==> Readonly(x.sections, n, x.sections[n].va / PAGE)
    ensures addr == x.sections[n].va && Readonly(x.sections, n, x.sections[n].va / PAGE) ==>
      Touches(x.sections, n, addr, len)
  {
    if p :| InPages(p, addr, len) && Readonly(x.sections, n, p) {
      SharedPageIsFirst(x, size, n, p, addr, len);
    }
    if addr == x.sections[n].va {
      assert InPages(addr / PAGE, addr, len);
    }
  }

  /** Section n is reached, has no raw data, and begins on a page that an earlier section made read-only. */
  ghost predicate FaultsAt(x: Image, size: nat, n: nat) {
    && n < |x.sections| && LoadUpTo(x, size, n) == Loaded
    && x.sections[n].virtualSize > 0 && x.sections[n].rawSize == 0
    && PrevEnd(x.sections, n) <= x.sections[n].va && InWindow(size, x.sections[n].va, x.sections[n].virtualSize)
    && Readonly(x.sections, n, x.sections[n].va / PAGE)
  }

  lemma SectionFaults(x: Image, size: nat, n: nat)
    requires Bounded(x) && n < |x.sections| && LoadUpTo(x, size, n) == Loaded
    ensures LoadSection(x, size, n) == Fault <==> FaultsAt(x, size, n)
    ensures LoadSection(x, size, n) != Overread
  {
    var s := x.sections[n];
    if s.virtualSize > 0 && PrevEnd(x.sections, n) <= s.va && InWindow(size, s.va, s.virtualSize) {
      SectionFaultsExactly(x, size, n);
    }
  }

  lemma {:induction false} UpToFaults(x: Image, size: nat, n: nat)
    requires Bounded(x) && n <= |x.sections|
    ensures LoadUpTo(x, size, n) == Fault <==> exists k :: 0 <= k < n && FaultsAt(x, size, k)
    ensures LoadUpTo(x, size, n) != Overread
  {
    hide LoadSection;
    if n > 0 {
      UpToFaults(x, size, n - 1);
      if LoadUpTo(x, size, n - 1) == Loaded {
        SectionFaults(x, size, n - 1);
      } else if k :| 0 <= k < n && FaultsAt(x, size, k) {
        SettledEarly(x, size, k, n - 1);
      }
    }
  }

  /** A section that is reached when the first k have loaded is reached only then. */
  lemma {:induction false} SettledEarly(x: Image, size: nat, k: nat, n: nat)
    requires k <= |x.sections| && n <= |x.sections| && LoadUpTo(x, size, k) == Loaded && LoadUpTo(x, size, n) != Loaded
    ensures k < n
    decreases k
  {
    if n <= k && k > 0 {
      if n < k {
        SettledEarly(x, size, k - 1, n);
      }
      assert false;
    }
  }

  /**
   The zero fill faults exactly in that case, and the header copy reads past the file
   exactly when it is too short.
   */
  lemma FailsExactly(x: Image, size: nat)
    requires Bounded(x)
    ensures Load(x, size) == Overread <==> InWindow(size, x.base, x.headers) && x.headers > |x.file|
    ensures Load(x, size) == Fault <==>
      InWindow(size, x.base, x.headers) && x.headers <= |x.file| && exists n :: FaultsAt(x, size, n)
  {
    UpToFaults(x, size, |x.sections|);
  }

  /** Section n is empty, or it follows those before it, lies in the window, and its first page is still writable. */
  ghost predicate Loadable(x: Image, size: nat, n: nat)
    requires n < |x.sections|
  {
    var s := x.sections[n];
    s.virtualSize > 0 ==>
      PrevEnd(x.sections, n) <= s.va && InWindow(size, s.va, s.virtualSize) && !Readonly(x.sections, n, s.va / PAGE)
  }

  lemma {:induction false} UpToLoads(x: Image, size: nat, n: nat)
    requires Bounded(x) && n <= |x.sections|
    ensures LoadUpTo(x, size, n) == Loaded <==> forall k :: 0 <= k < n ==> Loadable(x, size, k)
  {
    hide LoadSection;
    if n > 0 {
      UpToLoads(x, size, n - 1);
      if LoadUpTo(x, size, n - 1) == Loaded {
        OneLoads(x, size, n - 1);
      }
    }
  }

  lemma OneLoads(x: Image, size: nat, n: nat)
    requires Bounded(x) && n < |x.sections| && LoadUpTo(x, size, n) == Loaded
    ensures LoadSection(x, size, n) == Loaded <==> Loadable(x, size, n)
  {
    var s := x.sections[n];
    if s.virtualSize > 0 && PrevEnd(x.sections, n) <= s.va && InWindow(size, s.va, s.virtualSize) {
      SectionFaultsExactly(x, size, n);
    }
  }

  /**
   An image loads exactly when its headers are in the window and in the file and every
   section is loadable in its turn.
   */
  lemma LoadsExactly(x: Image, size: nat)
    requires Bounded(x)
    ensures Load(x, size) == Loaded <==>
      && InWindow(size, x.base, x.headers) && x.headers <= |x.file|
      && forall k :: 0 <= k < |x.sections| ==> Loadable(x, size, k)
  {
    UpToLoads(x, size, |x.sections|);
  }

  /** No two sections have bytes in one page. */
  ghost predicate NoSharedPage(sections: seq<Section>) {
    forall i, j, p :: 0 <= i < j < |sections| && InPages(p, sections[i].va, sections[i].virtualSize) ==>
      !InPages(p, sections[j].va, sections[j].virtualSize)
  }

  lemma SeparatePagesNeverFault(x: Image, size: nat)
    requires Bounded(x) && NoSharedPage(x.sections)
    ensures Load(x, size) != Fault
  {
    FailsExactly(x, size);
    forall n: nat ensures !FaultsAt(x, size, n) {
      if FaultsAt(x, size, n) {
        var p, s := x.sections[n].va / PAGE, x.sections[n];
        var k :| 0 <= k < n && ReadonlyBy(x.sections[k], p);
        assert InPages(p, s.va, s.virtualSize);
        InsideSection(p, x.sections[k]);
        assert false;
      }
    }
  }

  lemma InsideSection(p: int, s: Section)
    requires ReadonlyBy(s, p)
    ensures InPages(p, s.va, s.virtualSize)
  {
    var last := s.va + s.virtualSize - 1;
    assert s.va / PAGE <= last / PAGE;
  }

  // ---------------------------------------------------------------------
  // LoadedXbe::map

  /** The page bits are those the first n sections have set, and only committed pages are read-only. */
  ghost predicate BitsAre(committed: seq<bool>, ro: seq<bool>, sections: seq<Section>, n: nat)
    requires n <= |sections|
  {
    && |committed| == |ro|
    && (forall p :: 0 <= p < |ro| ==> (ro[p] <==> Readonly(sections, n, p)))
    && (forall p :: 0 <= p < |ro| && ro[p] ==> committed[p])
  }

  lemma ReadonlyNext(sections: seq<Section>, n: nat, p: int)
    requires n < |sections|
    ensures Readonly(sections, n + 1, p) <==> Readonly(sections, n, p) || ReadonlyBy(sections[n], p)
  {
    if ReadonlyBy(sections[n], p) {
      assert Readonly(sections, n + 1, p);
    }
    if k :| 0 <= k < n && ReadonlyBy(sections[k], p) {
      assert Readonly(sections, n + 1, p);
    }
  }

  /** One of the first n sections has bytes in page p. */
  ghost predicate MappedPage(sections: seq<Section>, n: nat, p: int)
    requires n <= |sections|
  {
    exists k :: 0 <= k < n && sections[k].virtualSize > 0 && InPages(p, sections[k].va, sections[k].virtualSize)
  }

  lemma MappedNext(sections: seq<Section>, n: nat)
    requires n < |sections|
    ensures forall p :: MappedPage(sections, n + 1, p) <==>
      MappedPage(sections, n, p) || (sections[n].virtualSize > 0 && InPages(p, sections[n].va, sections[n].virtualSize))
  {
    hide InPages;
    forall p
      ensures MappedPage(sections, n + 1, p) <==>
        || MappedPage(sections, n, p)
        || (sections[n].virtualSize > 0 && InPages(p, sections[n].va, sections[n].virtualSize))
    {
      if k :| 0 <= k < n && sections[k].virtualSize > 0 && InPages(p, sections[k].va, sections[k].virtualSize) {
        assert MappedPage(sections, n + 1, p);
      }
    }
  }

  /**
   Page p is read-only after loading: it lies in a section that is not writeable, or is
   the first or last page of one whose flags say so.
   */
  ghost predicate ProtectedPage(sections: seq<Section>, p: int) {
    exists k :: 0 <= k < |sections| && ProtectsPage(sections[k], p)
  }

  predicate ProtectsPage(s: Section, p: int) {
    && s.virtualSize > 0
    && var first, last := s.va / 4096, (s.va + s.virtualSize - 1) / 4096;
       || (!s.writeable && first <= p <= last)
       || (s.headReadonly && p == first)
       || (s.tailReadonly && p == last)
  }

  lemma ReadonlyMeans(sections: seq<Section>)
    ensures forall p :: Readonly(sections, |sections|, p) <==> ProtectedPage(sections, p)
  {
    forall p ensures Readonly(sections, |sections|, p) <==> ProtectedPage(sections, p) {
      if k :| 0 <= k < |sections| && ReadonlyBy(sections[k], p) {
        assert ProtectsPage(sections[k], p);
      }
      if k :| 0 <= k < |sections| && ProtectsPage(sections[k], p) {
        assert ReadonlyBy(sections[k], p);
      }
    }
  }

  class LoadedXbe {
    const image: Image
    const ram: XbeRam

    constructor (x: Image, memory: XbeRam)
      ensures image == x && ram == memory
    {
      image, ram := x, memory;
    }

    ghost predicate Valid() {
      ram.Valid() && Bounded(image)
    }

    /** The pages, raw bytes and zero tail of one section. */
    method FillSection(n: nat, ghost before: seq<byte>) returns (r: MapResult)
      requires Valid() && n < |image.sections| && |before| == ram.size
      requires image.sections[n].virtualSize > 0 && PrevEnd(image.sections, n) <= image.sections[n].va
      requires forall a :: 0 <= a < ram.size ==> ram.bytes[a] == ByteAfter(image, n, before, a)
      requires BitsAre(ram.committed[..], ram.ro[..], image.sections, n)
      modifies ram.bytes, ram.committed, ram.ro
      ensures r == LoadSection(image, ram.size, n)
      ensures r == Loaded ==> forall a :: 0 <= a < ram.size ==> ram.bytes[a] == ByteAfter(image, n + 1, before, a)
      ensures BitsAre(ram.committed[..], ram.ro[..], image.sections, n)
      ensures r == Loaded ==> ram.AllCommitted(image.sections[n].va, image.sections[n].virtualSize)
      ensures r == Loaded ==> forall p :: 0 <= p < ram.committed.Length ==>
        (ram.committed[p] <==> old(ram.committed[p]) || InPages(p, image.sections[n].va, image.sections[n].virtualSize))
    {
      hide Readonly, Touches, InPages;
      var s := image.sections[n];
      var ok := ram.Commit(s.va, s.virtualSize);
      if !ok {
        return Refused;
      }
      if s.rawSize > 0 {
        ram.PartCommitted(s.va, s.virtualSize, s.va, s.rawSize);
        WritableExactly(n, s.va, s.rawSize);
      }
      if s.virtualSize > s.rawSize {
        ram.PartCommitted(s.va, s.virtualSize, s.va + s.rawSize, s.virtualSize - s.rawSize);
        WritableExactly(n, s.va + s.rawSize, s.virtualSize - s.rawSize);
      }
      r := StoreSection(s);
    }

    /** The stores into a section's committed pages: the copy is refused, the fill faults on a read-only page. */
    method StoreSection(s: Section) returns (r: MapResult)
      requires Valid() && s.virtualSize > 0 && s.rawAddr + s.rawSize <= |image.file| && s.rawSize <= s.virtualSize
      requires ram.AllCommitted(s.va, s.virtualSize)
      modifies ram.bytes
      ensures r == if s.rawSize > 0 && !ram.AllWritable(s.va, s.rawSize) then Refused
                   else if s.virtualSize > s.rawSize && !ram.AllWritable(s.va + s.rawSize, s.virtualSize - s.rawSize)
                   then Fault else Loaded
      ensures r == Loaded ==> forall a :: 0 <= a < ram.size ==>
                ram.bytes[a] == if Covers(s, a) then SectionByte(image, s, a) else old(ram.bytes[a])
    {
      hide InPages;
      if s.rawSize > 0 {
        var ok := ram.WriteBytes(s.va, image.file[s.rawAddr..s.rawAddr + s.rawSize]);
        if !ok {
          return Refused;
        }
      }
      if s.virtualSize > s.rawSize {
        var ok := ram.Writable(s.va + s.rawSize, s.virtualSize - s.rawSize);
        if !ok {
          return Fault;
        }
        ram.ZeroFill(s.va + s.rawSize, s.virtualSize - s.rawSize);
      }
      return Loaded;
    }

    /** Loads one section: raw bytes, zero tail, protection. */
    method MapSection(n: nat, ghost before: seq<byte>) returns (r: MapResult)
      requires Valid() && n < |image.sections| && |before| == ram.size
      requires image.sections[n].virtualSize > 0 && PrevEnd(image.sections, n) <= image.sections[n].va
      requires forall a :: 0 <= a < ram.size ==> ram.bytes[a] == ByteAfter(image, n, before, a)
      requires BitsAre(ram.committed[..], ram.ro[..], image.sections, n)
      modifies ram.bytes, ram.committed, ram.ro
      ensures r == LoadSection(image, ram.size, n)
      ensures r == Loaded ==> forall a :: 0 <= a < ram.size ==> ram.bytes[a] == ByteAfter(image, n + 1, before, a)
      ensures r == Loaded ==> BitsAre(ram.committed[..], ram.ro[..], image.sections, n + 1)
      ensures r == Loaded ==> forall p :: 0 <= p < ram.committed.Length ==>
        (ram.committed[p] <==> old(ram.committed[p]) || InPages(p, image.sections[n].va, image.sections[n].virtualSize))
    {
      hide Readonly, Touches, LoadSection, ByteAfter;
      r := FillSection(n, before);
      if r == Loaded {
        Protect(image.sections[n]);
        forall p: int
          ensures Readonly(image.sections, n + 1, p) <==>
            Readonly(image.sections, n, p) || ReadonlyBy(image.sections[n], p)
          ensures ReadonlyBy(image.sections[n], p) ==> InPages(p, image.sections[n].va, image.sections[n].virtualSize)
        {
          ReadonlyNext(image.sections, n, p);
          if ReadonlyBy(image.sections[n], p) {
            InsideSection(p, image.sections[n]);
          }
        }
      }
    }

    /** A committed range is writable exactly when no section loaded before has made one of its pages read-only. */
    lemma WritableExactly(n: nat, addr: nat, len: nat)
      requires Valid() && n <= |image.sections| && ram.AllCommitted(addr, len)
      requires forall p :: 0 <= p < ram.ro.Length ==> (ram.ro[p] <==> Readonly(image.sections, n, p))
      ensures ram.AllWritable(addr, len) <==> !Touches(image.sections, n, addr, len)
    {
      ram.RangePages(addr, len);
      if p :| InPages(p, addr, len) && Readonly(image.sections, n, p) {
        assert ram.ro[p];
      }
    }

    method Protect(s: Section)
      requires ram.Valid() && s.virtualSize > 0 && ram.AllCommitted(s.va, s.virtualSize)
      modifies ram.ro
      ensures forall p :: 0 <= p < ram.ro.Length ==> ram.ro[p] == (old(ram.ro[p]) || ReadonlyBy(s, p))
    {
      var last := s.va + s.virtualSize - 1;
      forall p: int ensures InPages(p, s.va, 1) || InPages(p, last, 1) ==> InPages(p, s.va, s.virtualSize) {
      }
      if !s.writeable {
        var _ := ram.ProtectRo(s.va, s.virtualSize);
      }
      if s.headReadonly {
        var _ := ram.ProtectRo(s.va, 1);
      }
      if s.tailReadonly {
        var _ := ram.ProtectRo(last, 1);
      }
    }

    /** The header block: `Overread` where the copy would read past the end of the file. */
    method MapHeaders() returns (r: MapResult)
      requires Valid() && forall p :: 0 <= p < ram.ro.Length ==> !ram.ro[p]
      modifies ram.bytes, ram.committed, ram.ro
      ensures r == (if !ram.RangeOk(image.base, image.headers) then Refused
                    else if image.headers > |image.file| then Overread else Loaded)
      ensures r == Loaded ==> forall a :: 0 <= a < ram.size ==>
        ram.bytes[a] == ByteAfter(image, 0, old(ram.bytes[..]), a)
      ensures r == Loaded ==> BitsAre(ram.committed[..], ram.ro[..], image.sections, 0)
      ensures r == Loaded ==> forall p :: 0 <= p < ram.committed.Length ==>
        (ram.committed[p] <==> old(ram.committed[p]) || InPages(p, image.base, image.headers))
    {
      var ok := ram.Commit(image.base, image.headers);
      if !ok {
        return Refused;
      }
      if image.headers > |image.file| {
        return Overread;
      }
      ok := ram.WriteBytes(image.base, image.file[..image.headers]);
      assert ok;
      return Loaded;
    }

    /**
     map(): comes to what `Load` says; when it succeeds, memory is the fold of the headers
     and all sections in ascending order, and every address the file view resolves lies in
     memory and holds its file byte exactly when no section has overlaid the headers there.
     */
    method Map() returns (r: MapResult)
      requires Valid() && forall p :: 0 <= p < ram.ro.Length ==> !ram.ro[p]
      modifies ram.bytes, ram.committed, ram.ro
      ensures r == Load(image, ram.size)
      ensures r == Loaded ==> Ascending(image.sections, |image.sections|)
      ensures r == Loaded ==> forall a :: 0 <= a < ram.size ==>
                ram.bytes[a] == ByteAfter(image, |image.sections|, old(ram.bytes[..]), a)
      ensures r == Loaded ==> forall va: nat :: FileOffset(image, va).Some? ==>
                va < ram.size && FileOffset(image, va).offset < |image.file|
                && (ram.bytes[va] == image.file[FileOffset(image, va).offset]
                    <==> (HeaderOffset(image, va).Some? ==> !Overlaid(image, va)))
      ensures r == Loaded ==> forall p :: 0 <= p < ram.committed.Length ==>
        (ram.committed[p] <==>
           || old(ram.committed[p]) || InPages(p, image.base, image.headers)
           || MappedPage(image.sections, |image.sections|, p))
      ensures r == Loaded ==> forall p :: 0 <= p < ram.ro.Length ==> (ram.ro[p] <==> ProtectedPage(image.sections, p))
    {
      ghost var before := ram.bytes[..];
      r := MapHeaders();
      if r != Loaded {
        return;
      }
      var prevEnd := 0;
      var i := 0;
      while i < |image.sections|
        invariant 0 <= i <= |image.sections|
        invariant prevEnd == PrevEnd(image.sections, i) && LoadUpTo(image, ram.size, i) == Loaded
        invariant forall a :: 0 <= a < ram.size ==> ram.bytes[a] == ByteAfter(image, i, before, a)
        invariant BitsAre(ram.committed[..], ram.ro[..], image.sections, i)
        invariant forall p :: 0 <= p < ram.committed.Length ==>
          (ram.committed[p] <==>
             old(ram.committed[p]) || InPages(p, image.base, image.headers) || MappedPage(image.sections, i, p))
      {
        var s := image.sections[i];
        MappedNext(image.sections, i);
        if s.virtualSize != 0 {
          if s.va < prevEnd {
            Stopped(image, ram.size, i);
            return Refused;
          }
          prevEnd := s.va + s.virtualSize;
          r := MapSection(i, before);
          if r != Loaded {
            Stopped(image, ram.size, i);
            return;
          }
        } else {
          EmptySection(i);
        }
        i := i + 1;
      }
      LoadedAscends(image, ram.size, i);
      ReadonlyMeans(image.sections);
      forall va: nat | FileOffset(image, va).Some?
        ensures va < ram.size && FileOffset(image, va).offset < |image.file|
        ensures ram.bytes[va] == image.file[FileOffset(image, va).offset]
           <==> (HeaderOffset(image, va).Some? ==> !Overlaid(image, va))
      {
        ResolvedInWindow(image, ram.size, va);
        ViewsAgreeExactly(image, before, va);
      }
      return Loaded;
    }

    /** An empty section changes nothing. */
    lemma EmptySection(n: nat)
      requires n < |image.sections| && image.sections[n].virtualSize == 0
      ensures forall p :: Readonly(image.sections, n + 1, p) <==> Readonly(image.sections, n, p)
    {
      forall p: int ensures Readonly(image.sections, n + 1, p) <==> Readonly(image.sections, n, p) {
        ReadonlyNext(image.sections, n, p);
      }
    }
  }

  /** Once a section does not load, the rest is not looked at. */
  lemma Stopped(x: Image, size: nat, n: nat)
    requires n < |x.sections| && LoadUpTo(x, size, n) == Loaded && LoadSection(x, size, n) != Loaded
    ensures LoadUpTo(x, size, |x.sections|) == LoadSection(x, size, n)
  {
    StoppedAt(x, size, n, |x.sections|);
  }

  lemma {:induction false} StoppedAt(x: Image, size: nat, n: nat, m: nat)
    requires n < m <= |x.sections| && LoadUpTo(x, size, n) == Loaded && LoadSection(x, size, n) != Loaded
    ensures LoadUpTo(x, size, m) == LoadSection(x, size, n)
    decreases m
  {
    if n + 1 < m {
      StoppedAt(x, size, n, m - 1);
    }
  }

  lemma ResolvedInWindow(x: Image, size: nat, va: nat)
    requires InWindow(size, x.base, x.headers) && LoadUpTo(x, size, |x.sections|) == Loaded && FileOffset(x, va).Some?
    ensures va < size
  {
    LoadedAscends(x, size, |x.sections|);
    if HeaderOffset(x, va).None? {
      var k := OffsetIsFirst(x.sections, va);
    }
  }
}
