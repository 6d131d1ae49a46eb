/**
 Parsing of an XBE file (parse_impl in src/xbe_loader.cpp): which files are accepted, the
 image their words describe, and accepted files on which loading goes wrong.
 */
module XbeParse {
  import opened Ram
  import opened Loader
  import BitFields

  const MAGIC: nat := 0x4845_4258
  const HEADER_SIZE: nat := 0x178
  const CERTIFICATE_SIZE: nat := 0x1D0
  const SECTION_SIZE: nat := 0x38
  const LIBRARY_SIZE: nat := 0x10
  const TLS_SIZE: nat := 0x18

  // ---------------------------------------------------------------------
  // Words of the file

  /** The little-endian word at an offset. */
  function Word(file: seq<byte>, at: nat): (w: nat)
    requires at + 4 <= |file|
    ensures w < 0x1_0000_0000
  {
    file[at] as nat + 0x100 * file[at + 1] as nat + 0x1_0000 * file[at + 2] as nat + 0x100_0000 * file[at + 3] as nat
  }

  predicate Flag(flags: nat, bit: nat)
    requires bit > 0
  {
    flags / bit % 2 == 1
  }

  function SectionAt(file: seq<byte>, at: nat): Section
    requires at + SECTION_SIZE <= |file|
  {
    var flags := Word(file, at);
    Section(Word(file, at + 4), Word(file, at + 8), Word(file, at + 0xC), Word(file, at + 0x10),
            Flag(flags, 1), Flag(flags, 0x10), Flag(flags, 0x20))
  }

  function SectionsAt(file: seq<byte>, at: nat, count: nat): (s: seq<Section>)
    requires at + SECTION_SIZE * count <= |file|
    ensures |s| == count && forall i :: 0 <= i < count ==> s[i] == SectionAt(file, at + SECTION_SIZE * i)
  {
    if count == 0 then [] else SectionsAt(file, at, count - 1) + [SectionAt(file, at + SECTION_SIZE * (count - 1))]
  }

  /** The image as far as the fixed header describes it. */
  function Head(file: seq<byte>): Image
    requires |file| >= HEADER_SIZE
  {
    Image(file, Word(file, 0x104), Word(file, 0x108), Word(file, 0x10C), [])
  }

  /** A structure of `size` bytes whose address is in the header block lies inside the file. */
  predicate InHeaders(file: seq<byte>, va: nat, size: nat)
    requires |file| >= HEADER_SIZE
  {
    HeaderOffset(Head(file), va).Some? && HeaderOffset(Head(file), va).offset + size <= |file|
  }

  predicate TableOk(file: seq<byte>)
    requires |file| >= HEADER_SIZE
  {
    Word(file, 0x11C) > 0 ==> InHeaders(file, Word(file, 0x120), SECTION_SIZE * Word(file, 0x11C))
  }

  function ImageOf(file: seq<byte>): Image
    requires |file| >= HEADER_SIZE && TableOk(file)
  {
    Head(file).(sections :=
      if Word(file, 0x11C) == 0 then []
      else SectionsAt(file, HeaderOffset(Head(file), Word(file, 0x120)).offset, Word(file, 0x11C)))
  }

  // ---------------------------------------------------------------------
  // What is accepted

  predicate FrameOk(x: Image) {
    x.base != 0 && x.imageSize != 0 && x.base + x.imageSize <= 0xFFFF_FFFF && x.headers <= x.imageSize
  }

  /** The end of the image: that of the header's claim or of the last section, whichever is later. */
  function Extent(x: Image, n: nat): nat
    requires n <= |x.sections|
  {
    if n == 0 then x.base + x.imageSize
    else
      var end := x.sections[n - 1].va + x.sections[n - 1].virtualSize;
      if end > Extent(x, n - 1) then end else Extent(x, n - 1)
  }

  predicate Inside(x: Image, va: nat) {
    x.base <= va < Extent(x, |x.sections|)
  }

  function Xor(w: nat, key: bv32): nat
    requires w < 0x1_0000_0000
  {
    (w as bv32 ^ key) as nat
  }

  predicate IsDebug(file: seq<byte>)
    requires |file| >= HEADER_SIZE
  {
    Word(file, 0x158) >= 0x8000_0000
  }

  function EntryVa(file: seq<byte>): nat
    requires |file| >= HEADER_SIZE
  {
    Xor(Word(file, 0x128), if IsDebug(file) then 0x9485_9D4B else 0xA8FC_57AB)
  }

  function ThunkVa(file: seq<byte>): nat
    requires |file| >= HEADER_SIZE
  {
    Xor(Word(file, 0x158), if IsDebug(file) then 0xEFB1_F152 else 0x5B6D_40B6)
  }

  predicate LibrariesOk(file: seq<byte>)
    requires |file| >= HEADER_SIZE
  {
    Word(file, 0x160) > 0 ==> InHeaders(file, Word(file, 0x164), LIBRARY_SIZE * Word(file, 0x160))
  }

  predicate TlsOk(x: Image)
    requires |x.file| >= HEADER_SIZE
  {
    var va := Word(x.file, 0x12C);
    va != 0 ==>
      && FileOffset(x, va).Some? && FileOffset(x, va).offset + TLS_SIZE <= |x.file|
      && var at := FileOffset(x, va).offset;
         var start, end, index := Word(x.file, at), Word(x.file, at + 4), Word(x.file, at + 8);
         Inside(x, start) && start <= end <= Extent(x, |x.sections|) && Inside(x, index)
  }

  /** The files parse_impl accepts. */
  predicate Accepts(file: seq<byte>) {
    && |file| >= HEADER_SIZE && Word(file, 0) == MAGIC
    && FrameOk(Head(file))
    && Word(file, 0x118) != 0 && InHeaders(file, Word(file, 0x118), CERTIFICATE_SIZE)
    && TableOk(file)
    && Bounded(ImageOf(file))
    && Inside(ImageOf(file), EntryVa(file)) && Inside(ImageOf(file), ThunkVa(file))
    && LibrariesOk(file)
    && TlsOk(ImageOf(file))
  }

  /** A structure of `size` bytes at this address starts in the header block and ends in the file. */
  predicate StartsInHeaders(file: seq<byte>, va: nat, size: nat)
    requires |file| >= HEADER_SIZE
  {
    var base, headers := Word(file, 0x104), Word(file, 0x108);
    base <= va < base + headers && va - base < |file| && va - base + size <= |file|
  }

  /** An address between the image's base and the end of its claim or of a section. */
  ghost predicate InImage(x: Image, va: nat) {
    x.base <= va && (va < x.base + x.imageSize || exists k :: 0 <= k < |x.sections| && va < SectionEnd(x.sections[k]))
  }

  function SectionEnd(s: Section): nat {
    s.va + s.virtualSize
  }

  lemma {:induction false} ExtentIs(x: Image, n: nat, va: nat)
    requires n <= |x.sections|
    ensures va < Extent(x, n) <==> va < x.base + x.imageSize || exists k :: 0 <= k < n && va < SectionEnd(x.sections[k])
  {
    if n > 0 {
      ExtentIs(x, n - 1, va);
      if va < SectionEnd(x.sections[n - 1]) {
        assert 0 <= n - 1 < n;
      }
    }
  }

  /**
   What acceptance comes to, in the file's own words: the fixed header is there, every
   structure that parsing reads lies in the file, every section's raw data is in the file
   and its virtual range in 32 bits above the base, and the two decoded addresses are in
   the image.
   */
  lemma AcceptsExactly(file: seq<byte>)
    ensures Accepts(file) <==>
      && |file| >= 0x178 && Word(file, 0) == 0x4845_4258
      && Word(file, 0x104) != 0 && Word(file, 0x10C) != 0 && Word(file, 0x104) + Word(file, 0x10C) <= 0xFFFF_FFFF
      && Word(file, 0x108) <= Word(file, 0x10C)
      && Word(file, 0x118) != 0 && StartsInHeaders(file, Word(file, 0x118), 0x1D0)
      && (Word(file, 0x11C) > 0 ==> StartsInHeaders(file, Word(file, 0x120), 0x38 * Word(file, 0x11C)))
      && TableOk(file)
      && var x := ImageOf(file);
         && (forall k :: 0 <= k < |x.sections| ==> RawOk(file, x.sections[k]) && RangeOk(x.base, x.sections[k]))
         && InImage(x, EntryVa(file)) && InImage(x, ThunkVa(file))
         && (Word(file, 0x160) > 0 ==> StartsInHeaders(file, Word(file, 0x164), 0x10 * Word(file, 0x160)))
         && TlsOk(x)
  {
    hide Word, Xor, SectionsAt, Extent, TlsOk;
    if |file| >= HEADER_SIZE && TableOk(file) {
      var x := ImageOf(file);
      ExtentIs(x, |x.sections|, EntryVa(file));
      ExtentIs(x, |x.sections|, ThunkVa(file));
      assert Bounded(x) <==>
        forall k :: 0 <= k < |x.sections| ==> RawOk(file, x.sections[k]) && RangeOk(x.base, x.sections[k]);
    }
  }

  // ---------------------------------------------------------------------
  // parse_impl

  method ParseSections(file: seq<byte>, at: nat, count: nat) returns (ok: bool, sections: seq<Section>)
    requires at + SECTION_SIZE * count <= |file|
    ensures ok <==> forall s :: s in SectionsAt(file, at, count) ==> RawOk(file, s)
    ensures ok ==> sections == SectionsAt(file, at, count)
  {
    sections := [];
    var i := 0;
    while i < count
      invariant 0 <= i <= count
      invariant sections == SectionsAt(file, at, i)
      invariant forall s :: s in sections ==> RawOk(file, s)
    {
      var s := SectionAt(file, at + SECTION_SIZE * i);
      if s.rawAddr + s.rawSize > |file| || s.rawSize > s.virtualSize {
        assert SectionsAt(file, at, count)[i] == s && !RawOk(file, s);
        return false, sections;
      }
      sections := sections + [s];
      i := i + 1;
    }
    return true, sections;
  }

  /** The raw data of a section exists in the file and fits its virtual size. */
  predicate RawOk(file: seq<byte>, s: Section) {
    s.rawAddr + s.rawSize <= |file| && s.rawSize <= s.virtualSize
  }

  /** The virtual range of a section starts in the image and fits 32 bits. */
  predicate RangeOk(base: nat, s: Section) {
    s.virtualSize > 0 ==> base <= s.va && s.va + s.virtualSize <= 0xFFFF_FFFF
  }

  method ImageExtent(x: Image) returns (ok: bool, extent: nat)
    ensures ok <==> forall s :: s in x.sections ==> RangeOk(x.base, s)
    ensures ok ==> extent == Extent(x, |x.sections|)
  {
    extent := x.base + x.imageSize;
    var i := 0;
    while i < |x.sections|
      invariant 0 <= i <= |x.sections|
      invariant extent == Extent(x, i)
      invariant forall j :: 0 <= j < i ==> RangeOk(x.base, x.sections[j])
    {
      var s := x.sections[i];
      var end := s.va + s.virtualSize;
      assert s in x.sections;
      if s.virtualSize > 0 && end > 0xFFFF_FFFF {
        assert !RangeOk(x.base, s);
        return false, extent;
      }
      if s.virtualSize > 0 && s.va < x.base {
        assert !RangeOk(x.base, s);
        return false, extent;
      }
      if end > extent {
        extent := end;
      }
      i := i + 1;
    }
    return true, extent;
  }

  datatype ParseResult = Rejected | Accepted(image: Image)

  method Parse(file: seq<byte>) returns (r: ParseResult)
    ensures r == if Accepts(file) then Accepted(ImageOf(file)) else Rejected
  {
    hide SectionsAt, Word, Xor, Extent;
    if |file| < HEADER_SIZE || Word(file, 0) != MAGIC || !FrameOk(Head(file)) {
      return Rejected;
    }
    if Word(file, 0x118) == 0 || !InHeaders(file, Word(file, 0x118), CERTIFICATE_SIZE) {
      return Rejected;
    }
    var x := Head(file);
    if Word(file, 0x11C) > 0 {
      if !InHeaders(file, Word(file, 0x120), SECTION_SIZE * Word(file, 0x11C)) {
        return Rejected;
      }
      var ok, sections := ParseSections(file, HeaderOffset(x, Word(file, 0x120)).offset, Word(file, 0x11C));
      if !ok {
        NotBounded(ImageOf(file));
        return Rejected;
      }
      x := x.(sections := sections);
    }
    assert x == ImageOf(file);
    var ok, end := ImageExtent(x);
    BoundedIs(x);
    if !ok {
      return Rejected;
    }
    var entry, thunk := EntryVa(file), ThunkVa(file);
    if entry < x.base || entry >= end || thunk < x.base || thunk >= end {
      return Rejected;
    }
    if !LibrariesOk(file) || !TlsOk(x) {
      return Rejected;
    }
    return Accepted(x);
  }

  lemma BoundedIs(x: Image)
    ensures Bounded(x) <==>
      (forall s :: s in x.sections ==> RawOk(x.file, s)) && (forall s :: s in x.sections ==> RangeOk(x.base, s))
  {
    if Bounded(x) {
      forall s | s in x.sections ensures RawOk(x.file, s) && RangeOk(x.base, s) {
        var i :| 0 <= i < |x.sections| && x.sections[i] == s;
        assert SectionBounded(x, x.sections[i]);
      }
    } else {
      var i :| 0 <= i < |x.sections| && !SectionBounded(x, x.sections[i]);
      assert x.sections[i] in x.sections && !(RawOk(x.file, x.sections[i]) && RangeOk(x.base, x.sections[i]));
    }
  }

  lemma NotBounded(x: Image)
    requires exists s :: s in x.sections && !RawOk(x.file, s)
    ensures !Bounded(x)
  {
    BoundedIs(x);
  }

  // ---------------------------------------------------------------------
  // Files made of words

  function Lookup(words: map<nat, nat>, at: nat): nat {
    if at in words then words[at] else 0
  }

  function ByteOf(w: nat, k: nat): byte
    requires k < 4
  {
    (if k == 0 then w % 0x100 else if k == 1 then w / 0x100 % 0x100
     else if k == 2 then w / 0x1_0000 % 0x100 else w / 0x100_0000 % 0x100) as byte
  }

  /** A file of n bytes with these words at these offsets, multiples of 4, and zero elsewhere. */
  function FileOf(n: nat, words: map<nat, nat>): (f: seq<byte>)
    ensures |f| == n
  {
    seq(n, i requires 0 <= i < n => ByteOf(Lookup(words, i - i % 4), i % 4))
  }

  lemma Recombine(w: nat)
    requires w < 0x1_0000_0000
    ensures w == ByteOf(w, 0) as nat + 0x100 * ByteOf(w, 1) as nat
                 + 0x1_0000 * ByteOf(w, 2) as nat + 0x100_0000 * ByteOf(w, 3) as nat
  {
    var a := w / 0x100;
    var b := a / 0x100;
    assert w / 0x1_0000 == b;
    assert w / 0x100_0000 == b / 0x100;
  }

  lemma WordIs(n: nat, words: map<nat, nat>, at: nat)
    requires at % 4 == 0 && at + 4 <= n && Lookup(words, at) < 0x1_0000_0000
    ensures Word(FileOf(n, words), at) == Lookup(words, at)
  {
    hide ByteOf;
    var w, f := Lookup(words, at), FileOf(n, words);
    assert (at + 1) % 4 == 1 && (at + 2) % 4 == 2 && (at + 3) % 4 == 3;
    assert f[at] == ByteOf(w, 0) && f[at + 1] == ByteOf(w, 1) && f[at + 2] == ByteOf(w, 2) && f[at + 3] == ByteOf(w, 3);
    Recombine(w);
  }

  // ---------------------------------------------------------------------
  // Accepted files on which loading goes wrong

  const WINDOW: nat := 0x400_0000

  /** A retail header at base 0x10000: certificate at offset 0x178, section table at 0x348. */
  function HeaderWords(headers: nat, imageSize: nat, count: nat): map<nat, nat> {
    map[0 := MAGIC, 0x104 := 0x1_0000, 0x108 := headers, 0x10C := imageSize, 0x118 := 0x1_0178, 0x11C := count,
        0x120 := 0x1_0348, 0x128 := 0xA8FD_57AB, 0x158 := 0x5B6C_40B6]
  }

  /** The words of a section header; `flags` has bit 0 for a writeable section. */
  function TableWords(at: nat, flags: nat, va: nat, virtualSize: nat, rawAddr: nat, rawSize: nat): map<nat, nat> {
    map[at := flags, at + 4 := va, at + 8 := virtualSize, at + 0xC := rawAddr, at + 0x10 := rawSize]
  }

  function XbeFile(headers: nat, imageSize: nat, count: nat, table: map<nat, nat>): (f: seq<byte>)
    ensures |f| == 0x1000
  {
    FileOf(0x1000, HeaderWords(headers, imageSize, count) + table)
  }

  predicate InTable(table: map<nat, nat>) {
    forall at :: at in table ==> at >= 0x348 && table[at] < 0x1_0000_0000
  }

  lemma HeaderIs(headers: nat, imageSize: nat, count: nat, table: map<nat, nat>)
    requires headers < 0x1_0000_0000 && imageSize < 0x1_0000_0000 && count < 0x1_0000_0000 && InTable(table)
    ensures var f := XbeFile(headers, imageSize, count, table);
      && Word(f, 0) == MAGIC && Head(f) == Image(f, 0x1_0000, headers, imageSize, [])
      && Word(f, 0x118) == 0x1_0178 && Word(f, 0x11C) == count && Word(f, 0x120) == 0x1_0348
      && Word(f, 0x128) == 0xA8FD_57AB && Word(f, 0x12C) == 0 && Word(f, 0x158) == 0x5B6C_40B6 && Word(f, 0x160) == 0
  {
    hide Word, FileOf;
    var words := HeaderWords(headers, imageSize, count) + table;
    WordIs(0x1000, words, 0);
    WordIs(0x1000, words, 0x104);
    WordIs(0x1000, words, 0x108);
    WordIs(0x1000, words, 0x10C);
    WordIs(0x1000, words, 0x118);
    WordIs(0x1000, words, 0x11C);
    WordIs(0x1000, words, 0x120);
    WordIs(0x1000, words, 0x128);
    WordIs(0x1000, words, 0x12C);
    WordIs(0x1000, words, 0x158);
    WordIs(0x1000, words, 0x160);
  }

  lemma Addresses()
    ensures Xor(0xA8FD_57AB, 0xA8FC_57AB) == 0x1_0000 == Xor(0x5B6C_40B6, 0x5B6D_40B6)
  {
  }

  /** Such a file is accepted if its sections are in bounds. */
  lemma SampleAccepted(headers: nat, imageSize: nat, count: nat, table: map<nat, nat>)
    requires 0x1000 <= headers <= imageSize <= 0x2000 && count <= 2 && InTable(table)
    requires var f := XbeFile(headers, imageSize, count, table); TableOk(f) ==> Bounded(ImageOf(f))
    ensures var f := XbeFile(headers, imageSize, count, table); Accepts(f)
    ensures var f := XbeFile(headers, imageSize, count, table);
            ImageOf(f) == Image(f, 0x1_0000, headers, imageSize, if count == 0 then [] else SectionsAt(f, 0x348, count))
  {
    hide Word, FileOf, Bounded, SectionsAt, Xor;
    HeaderIs(headers, imageSize, count, table);
    Addresses();
    var f := XbeFile(headers, imageSize, count, table);
    assert TableOk(f);
    ExtentAtLeast(ImageOf(f), |ImageOf(f).sections|);
  }

  lemma {:induction false} ExtentAtLeast(x: Image, n: nat)
    requires n <= |x.sections|
    ensures Extent(x, n) >= x.base + x.imageSize
  {
    if n > 0 {
      ExtentAtLeast(x, n - 1);
    }
  }

  function Bit(b: bool): nat {
    if b then 1 else 0
  }

  /** The flags word: bit 0 writeable, bits 4 and 5 the read-only first and last page, `low` and `high` the rest. */
  function FlagsWord(writeable: bool, head: bool, tail: bool, low: nat, high: nat): nat {
    Bit(writeable) + 2 * low + 0x10 * Bit(head) + 0x20 * Bit(tail) + 0x40 * high
  }

  lemma LowBit(b: bool, q: nat)
    ensures ((Bit(b) + 2 * q) % 2 == 1) == b
  {
  }

  lemma FlagsLaw(writeable: bool, head: bool, tail: bool, low: nat, high: nat)
    requires low < 8
    ensures var w := FlagsWord(writeable, head, tail, low, high);
      Flag(w, 1) == writeable && Flag(w, 0x10) == head && Flag(w, 0x20) == tail
  {
    var w, q := FlagsWord(writeable, head, tail, low, high), Bit(tail) + 2 * high;
    BitFields.DivisionIs(w, 0x20, q, Bit(writeable) + 2 * low + 0x10 * Bit(head));
    BitFields.DivisionIs(w, 0x10, Bit(head) + 2 * q, Bit(writeable) + 2 * low);
    BitFields.DivisionIs(w, 1, w, 0);
    LowBit(tail, high);
    LowBit(head, q);
    assert w == Bit(writeable) + 2 * (low + 8 * (Bit(head) + 2 * q));
    LowBit(writeable, low + 8 * (Bit(head) + 2 * q));
  }

  /** The words of a section header are in place. */
  predicate Written(words: map<nat, nat>, at: nat, flags: nat, s: Section) {
    && Lookup(words, at) == flags < 0x1_0000_0000 && Lookup(words, at + 4) == s.va < 0x1_0000_0000
    && Lookup(words, at + 8) == s.virtualSize < 0x1_0000_0000 && Lookup(words, at + 0xC) == s.rawAddr < 0x1_0000_0000
    && Lookup(words, at + 0x10) == s.rawSize < 0x1_0000_0000
  }

  /** A section header written as words, with any flags, reads back. */
  lemma SectionRoundTrip(n: nat, words: map<nat, nat>, at: nat, s: Section, low: nat, high: nat)
    requires at % 4 == 0 && at + SECTION_SIZE <= n && low < 8
    requires Written(words, at, FlagsWord(s.writeable, s.headReadonly, s.tailReadonly, low, high), s)
    ensures SectionAt(FileOf(n, words), at) == s
  {
    hide Word, FileOf, FlagsWord;
    WordIs(n, words, at);
    WordIs(n, words, at + 4);
    WordIs(n, words, at + 8);
    WordIs(n, words, at + 0xC);
    WordIs(n, words, at + 0x10);
    FlagsLaw(s.writeable, s.headReadonly, s.tailReadonly, low, high);
  }

  /** Headers that claim more bytes than the file has. */
  lemma ShortFileIsOverread()
    ensures var f := XbeFile(0x2000, 0x2000, 0, map[]);
      Accepts(f) && Load(ImageOf(f), WINDOW) == Overread
  {
    hide FileOf, Word;
    HeaderIs(0x2000, 0x2000, 0, map[]);
    SampleAccepted(0x2000, 0x2000, 0, map[]);
  }

  const OVERLAY_TABLE: map<nat, nat> := TableWords(0x348, 1, 0x1_0001, 1, 0, 1)
  const OVERLAY_FILE: seq<byte> := XbeFile(0x1000, 0x2000, 1, OVERLAY_TABLE)

  /** The image has one section of one byte, at the second byte of the header block. */
  lemma OverlayImage()
    ensures Accepts(OVERLAY_FILE) && TableOk(OVERLAY_FILE)
    ensures ImageOf(OVERLAY_FILE)
         == Image(OVERLAY_FILE, 0x1_0000, 0x1000, 0x2000, [Section(0x1_0001, 1, 0, 1, true, false, false)])
    ensures OVERLAY_FILE[0] == 0x58 && OVERLAY_FILE[1] == 0x42
  {
    hide FileOf, Word, Accepts;
    var words := HeaderWords(0x1000, 0x2000, 1) + OVERLAY_TABLE;
    var f := OVERLAY_FILE;
    SectionRoundTrip(0x1000, words, 0x348, Section(0x1_0001, 1, 0, 1, true, false, false), 0, 0);
    assert SectionsAt(f, 0x348, 0) == [] && SectionsAt(f, 0x348, 1) == [Section(0x1_0001, 1, 0, 1, true, false, false)];
    HeaderIs(0x1000, 0x2000, 1, OVERLAY_TABLE);
    SampleAccepted(0x1000, 0x2000, 1, OVERLAY_TABLE);
    FirstBytes(0x1000, words);
  }

  lemma FirstBytes(n: nat, words: map<nat, nat>)
    requires n >= 4 && 0 in words && words[0] == MAGIC
    ensures FileOf(n, words)[0] == 0x58 && FileOf(n, words)[1] == 0x42
  {
  }

  /** A section inside the header block: the file is accepted and loads, and the two views differ. */
  lemma SectionInHeadersDisagrees()
    ensures Accepts(OVERLAY_FILE) && TableOk(OVERLAY_FILE)
    ensures var x := ImageOf(OVERLAY_FILE);
      && Load(x, WINDOW) == Loaded && |x.sections| == 1 && !PastHeaders(x)
      && FileOffset(x, 0x1_0001) == Some(1)
      && forall before :: |before| == WINDOW && Bounded(x) ==> ByteAfter(x, 1, before, 0x1_0001) != x.file[1]
  {
    hide FileOf, Accepts, XbeFile, ImageOf, Word, TableOk;
    OverlayImage();
    var x := ImageOf(OVERLAY_FILE);
    assert x.sections[0].va == 0x1_0001;
    assert LoadUpTo(x, WINDOW, 0) == Loaded && PrevEnd(x.sections, 0) == 0;
    assert !Touches(x.sections, 0, 0x1_0001, 1);
    assert LoadUpTo(x, WINDOW, 1) == LoadSection(x, WINDOW, 0) == Loaded;
    forall before | |before| == WINDOW ensures ByteAfter(x, 1, before, 0x1_0001) != x.file[1] {
      assert ByteAfter(x, 1, before, 0x1_0001) == SectionByte(x, x.sections[0], 0x1_0001) == 0x58;
    }
  }

  const SHARED_TABLE: map<nat, nat> :=
    TableWords(0x348, 0, 0x1_1000, 16, 0, 16) + TableWords(0x380, 1, 0x1_1800, 16, 0, 0)
  const SHARED_FILE: seq<byte> := XbeFile(0x1000, 0x2000, 2, SHARED_TABLE)

  const SHARED_SECTIONS: seq<Section> :=
    [Section(0x1_1000, 16, 0, 16, false, false, false), Section(0x1_1800, 16, 0, 0, true, false, false)]

  const SHARED_WORDS: map<nat, nat> := HeaderWords(0x1000, 0x2000, 2) + SHARED_TABLE

  lemma FirstWritten()
    ensures Written(SHARED_WORDS, 0x348, 0, SHARED_SECTIONS[0])
  {
    hide HeaderWords;
    assert Lookup(SHARED_TABLE, 0x348) == 0 && 0x348 in SHARED_TABLE;
    assert Lookup(SHARED_TABLE, 0x34C) == 0x1_1000 && 0x34C in SHARED_TABLE;
    assert Lookup(SHARED_TABLE, 0x350) == 16 && 0x350 in SHARED_TABLE;
    assert Lookup(SHARED_TABLE, 0x354) == 0 && 0x354 in SHARED_TABLE;
    assert Lookup(SHARED_TABLE, 0x358) == 16 && 0x358 in SHARED_TABLE;
  }

  lemma FirstShared()
    ensures SectionAt(SHARED_FILE, 0x348) == SHARED_SECTIONS[0]
  {
    hide FileOf, SectionAt, Written, HeaderWords, TableWords;
    FirstWritten();
    SectionRoundTrip(0x1000, SHARED_WORDS, 0x348, SHARED_SECTIONS[0], 0, 0);
  }

  lemma SecondShared()
    ensures SectionAt(SHARED_FILE, 0x380) == SHARED_SECTIONS[1]
  {
    hide FileOf, SectionAt;
    SectionRoundTrip(0x1000, HeaderWords(0x1000, 0x2000, 2) + SHARED_TABLE, 0x380, SHARED_SECTIONS[1], 0, 0);
  }

  lemma SharedSections()
    ensures SectionsAt(SHARED_FILE, 0x348, 2) == SHARED_SECTIONS
  {
    hide XbeFile, SectionAt;
    FirstShared();
    SecondShared();
  }

  /** The image has a read-only section and, on the same page, one without raw data. */
  lemma SharedImage()
    ensures Accepts(SHARED_FILE) && TableOk(SHARED_FILE)
    ensures ImageOf(SHARED_FILE) == Image(SHARED_FILE, 0x1_0000, 0x1000, 0x2000, SHARED_SECTIONS)
  {
    hide FileOf, Word, Accepts, SectionsAt, HeaderWords, XbeFile;
    SharedSections();
    assert InTable(SHARED_TABLE);
    HeaderIs(0x1000, 0x2000, 2, SHARED_TABLE);
    SampleAccepted(0x1000, 0x2000, 2, SHARED_TABLE);
  }

  /** The file is accepted, and its zero fill stores to a read-only page. */
  lemma SharedPageFaults()
    ensures Accepts(SHARED_FILE) && TableOk(SHARED_FILE) && Load(ImageOf(SHARED_FILE), WINDOW) == Fault
  {
    hide FileOf, Accepts, XbeFile, ImageOf, Word, TableOk;
    SharedImage();
    var x := ImageOf(SHARED_FILE);
    assert x.sections[0].va == 0x1_1000 && x.sections[1].va == 0x1_1800;
    assert PrevEnd(x.sections, 0) == 0 && PrevEnd(x.sections, 1) == 0x1_1010;
    assert LoadUpTo(x, WINDOW, 0) == Loaded && !Touches(x.sections, 0, 0x1_1000, 16);
    assert LoadUpTo(x, WINDOW, 1) == Loaded;
    assert InPages(0x11, 0x1_1000, 16) && ReadonlyBy(x.sections[0], 0x11);
    assert FaultsAt(x, WINDOW, 1);
    FailsExactly(x, WINDOW);
  }
}
