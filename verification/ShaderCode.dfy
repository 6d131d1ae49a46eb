/**
 Vertex-shader microcode (src/xbox_vs.cpp): the decoder with its checks, and the
 encoder that places each field where the hardware documentation puts it.
 */
module ShaderCode {
  import opened BitFields

  datatype Result<T> = Ok(value: T) | Err(error: string)

  const ILU_NOP: nat := 0
  const MAC_NOP: nat := 0
  const MAC_MOV: nat := 1
  const MAC_ADD: nat := 3
  const MAC_MAD: nat := 4
  const MAC_ARL: nat := 13

  const FILE_NONE: nat := 0
  const FILE_R: nat := 1
  const FILE_V: nat := 2
  const FILE_C: nat := 3

  const MAX_SLOTS: nat := 136
  const MAX_CONST: nat := 191

  datatype Source = Source(file: nat, reg: nat, negate: bool, x: nat, y: nat, z: nat, w: nat)

  datatype Slot = Slot(
    ilu: nat, mac: nat,
    constIndex: nat, inputIndex: nat,
    a: Source, b: Source, c: Source,
    macMask: nat, tempReg: nat, iluMask: nat,
    outMask: nat, outRegister: bool, outAddress: nat, outFromIlu: bool,
    a0Relative: bool, final: bool)

  // ---------------------------------------------------------------------
  // Which operands an operation uses

  predicate MacUsesA(op: nat) { op != MAC_NOP && op != MAC_ADD }
  predicate MacUsesB(op: nat) { op != MAC_MOV && op != MAC_ADD && op != MAC_ARL }
  predicate MacUsesC(op: nat) { op == MAC_ADD || op == MAC_MAD }

  predicate ValidOutput(index: nat) { index == 0 || 3 <= index <= 12 }

  predicate Usable(s: Source) {
    s.file != FILE_NONE && (s.file == FILE_R ==> s.reg <= 12)
  }

  predicate WritesTemp(s: Slot) {
    (s.mac != MAC_NOP && s.macMask != 0) || (s.ilu != ILU_NOP && s.iluMask != 0)
  }

  // ---------------------------------------------------------------------
  // vs_decode_slot

  function Flag(w: nat, bit: nat): bool {
    Field(w, bit, 1) != 0
  }

  /** The fields of a slot's four words, unchecked. */
  function Fields(w: seq<nat>): Slot
    requires |w| == 4
  {
    Slot(
      Field(w[1], 25, 3), Field(w[1], 21, 4),
      Field(w[1], 13, 8), Field(w[1], 9, 4),
      Source(Field(w[2], 26, 2), Field(w[2], 28, 4), Flag(w[1], 8),
             Field(w[1], 6, 2), Field(w[1], 4, 2), Field(w[1], 2, 2), Field(w[1], 0, 2)),
      Source(Field(w[2], 11, 2), Field(w[2], 13, 4), Flag(w[2], 25),
             Field(w[2], 23, 2), Field(w[2], 21, 2), Field(w[2], 19, 2), Field(w[2], 17, 2)),
      Source(Field(w[3], 28, 2), 4 * Field(w[2], 0, 2) + Field(w[3], 30, 2), Flag(w[2], 10),
             Field(w[2], 8, 2), Field(w[2], 6, 2), Field(w[2], 4, 2), Field(w[2], 2, 2)),
      Field(w[3], 24, 4), Field(w[3], 20, 4), Field(w[3], 16, 4),
      Field(w[3], 12, 4), Flag(w[3], 11), Field(w[3], 3, 8), Flag(w[3], 2),
      Flag(w[3], 1), Flag(w[3], 0))
  }

  /** The checks, in the decoder's order. */
  function Check(s: Slot): Result<Slot> {
    if s.mac > MAC_ARL then Err("MAC opcode is reserved")
    else if s.constIndex > MAX_CONST then Err("constant index out of range")
    else if s.ilu != ILU_NOP && !Usable(s.c) then Err("ILU source C is not a usable register")
    else if s.mac != MAC_NOP && MacUsesA(s.mac) && !Usable(s.a) then Err("MAC source A is not a usable register")
    else if s.mac != MAC_NOP && MacUsesB(s.mac) && !Usable(s.b) then Err("MAC source B is not a usable register")
    else if s.mac != MAC_NOP && MacUsesC(s.mac) && !Usable(s.c) then Err("MAC source C is not a usable register")
    else if WritesTemp(s) && s.tempReg > 12 then Err("temporary register index out of range")
    else if s.outMask != 0 && !s.outRegister && s.outAddress > MAX_CONST then
      Err("writeable constant index out of range")
    else if s.outMask != 0 && s.outRegister && !ValidOutput(s.outAddress % 16) then Err("output register reserved")
    else Ok(s)
  }

  function DecodeSlot(w: seq<nat>): Result<Slot>
    requires |w| == 4
  {
    Check(Fields(w))
  }

  // ---------------------------------------------------------------------
  // The encoder

  function Bit(b: bool): nat { if b then 1 else 0 }

  function Word1(s: Slot): seq<Cell> {
    [Cell(s.a.w, 2), Cell(s.a.z, 2), Cell(s.a.y, 2), Cell(s.a.x, 2), Cell(Bit(s.a.negate), 1),
     Cell(s.inputIndex, 4), Cell(s.constIndex, 8), Cell(s.mac, 4), Cell(s.ilu, 3)]
  }

  function Word2(s: Slot): seq<Cell> {
    [Cell(s.c.reg / 4, 2), Cell(s.c.w, 2), Cell(s.c.z, 2), Cell(s.c.y, 2), Cell(s.c.x, 2), Cell(Bit(s.c.negate), 1),
     Cell(s.b.file, 2), Cell(s.b.reg, 4), Cell(s.b.w, 2), Cell(s.b.z, 2), Cell(s.b.y, 2), Cell(s.b.x, 2),
     Cell(Bit(s.b.negate), 1), Cell(s.a.file, 2), Cell(s.a.reg, 4)]
  }

  function Word3(s: Slot): seq<Cell> {
    [Cell(Bit(s.final), 1), Cell(Bit(s.a0Relative), 1), Cell(Bit(s.outFromIlu), 1), Cell(s.outAddress, 8),
     Cell(Bit(s.outRegister), 1), Cell(s.outMask, 4), Cell(s.iluMask, 4), Cell(s.tempReg, 4), Cell(s.macMask, 4),
     Cell(s.c.file, 2), Cell(s.c.reg % 4, 2)]
  }

  function Encode(s: Slot): (w: seq<nat>)
    ensures |w| == 4
  {
    [0, Pack(Word1(s)), Pack(Word2(s)), Pack(Word3(s))]
  }

  predicate SourceInRange(s: Source) {
    s.file < 4 && s.reg < 16 && s.x < 4 && s.y < 4 && s.z < 4 && s.w < 4
  }

  /** Every field fits the bits it has. */
  predicate InRange(s: Slot) {
    && s.ilu < 8 && s.mac < 16 && s.constIndex < 256 && s.inputIndex < 16
    && SourceInRange(s.a) && SourceInRange(s.b) && SourceInRange(s.c)
    && s.macMask < 16 && s.tempReg < 16 && s.iluMask < 16 && s.outMask < 16 && s.outAddress < 256
  }

  /** A slot the decoder can produce. */
  predicate Valid(s: Slot) {
    InRange(s) && Check(s) == Ok(s)
  }

  predicate IsRegister(s: Source) {
    (s.file == 1 && s.reg <= 12) || s.file == 2 || s.file == 3
  }

  /** What the decoder's checks come to: known operations, registers that exist, outputs that are documented. */
  lemma AcceptedExactly(s: Slot)
    requires InRange(s)
    ensures Check(s).Ok? <==>
      && s.mac <= 13 && s.constIndex <= 191
      && (s.ilu != 0 ==> IsRegister(s.c))
      && (s.mac != 0 && s.mac != 3 ==> IsRegister(s.a))
      && (s.mac != 0 && s.mac != 1 && s.mac != 3 && s.mac != 13 ==> IsRegister(s.b))
      && (s.mac == 3 || s.mac == 4 ==> IsRegister(s.c))
      && ((s.mac != 0 && s.macMask != 0) || (s.ilu != 0 && s.iluMask != 0) ==> s.tempReg <= 12)
      && (s.outMask != 0 && !s.outRegister ==> s.outAddress <= 191)
      && (s.outMask != 0 && s.outRegister ==> s.outAddress % 16 !in {1, 2, 13, 14, 15})
    ensures Check(s).Ok? ==> Check(s).value == s
  {
  }

  // ---------------------------------------------------------------------
  // Decoding inverts encoding

  lemma CellsFit(s: Slot)
    requires InRange(s)
    ensures Fits(Word1(s)) && Fits(Word2(s)) && Fits(Word3(s))
  {
    SmallPowers();
    assert s.c.reg / 4 < 4;
  }

  /** The bit positions of the first word's fields. */
  lemma Offsets1(s: Slot)
    ensures var cs := Word1(s);
      Offset(cs, 0) == 0 && Offset(cs, 1) == 2 && Offset(cs, 2) == 4 && Offset(cs, 3) == 6 && Offset(cs, 4) == 8
      && Offset(cs, 5) == 9 && Offset(cs, 6) == 13 && Offset(cs, 7) == 21 && Offset(cs, 8) == 25 && Offset(cs, 9) == 28
  {
    var cs := Word1(s);
    assert Offset(cs, 1) == 2;
    assert Offset(cs, 2) == 4;
    assert Offset(cs, 3) == 6;
    assert Offset(cs, 4) == 8;
    assert Offset(cs, 5) == 9;
    assert Offset(cs, 6) == 13;
    assert Offset(cs, 7) == 21;
    assert Offset(cs, 8) == 25;
    assert Offset(cs, 9) == 28;
  }

  lemma Offsets2(s: Slot)
    ensures var cs := Word2(s);
      Offset(cs, 0) == 0 && Offset(cs, 1) == 2 && Offset(cs, 2) == 4 && Offset(cs, 3) == 6 && Offset(cs, 4) == 8
      && Offset(cs, 5) == 10 && Offset(cs, 6) == 11 && Offset(cs, 7) == 13 && Offset(cs, 8) == 17 && Offset(cs, 9) == 19
      && Offset(cs, 10) == 21 && Offset(cs, 11) == 23 && Offset(cs, 12) == 25
      && Offset(cs, 13) == 26 && Offset(cs, 14) == 28
      && Offset(cs, 15) == 32
  {
    var cs := Word2(s);
    assert Offset(cs, 1) == 2;
    assert Offset(cs, 2) == 4;
    assert Offset(cs, 3) == 6;
    assert Offset(cs, 4) == 8;
    assert Offset(cs, 5) == 10;
    assert Offset(cs, 6) == 11;
    assert Offset(cs, 7) == 13;
    assert Offset(cs, 8) == 17;
    assert Offset(cs, 9) == 19;
    assert Offset(cs, 10) == 21;
    assert Offset(cs, 11) == 23;
    assert Offset(cs, 12) == 25;
    assert Offset(cs, 13) == 26;
    assert Offset(cs, 14) == 28;
    assert Offset(cs, 15) == 32;
  }

  lemma Offsets3(s: Slot)
    ensures var cs := Word3(s);
      Offset(cs, 0) == 0 && Offset(cs, 1) == 1 && Offset(cs, 2) == 2 && Offset(cs, 3) == 3 && Offset(cs, 4) == 11
      && Offset(cs, 5) == 12 && Offset(cs, 6) == 16 && Offset(cs, 7) == 20 && Offset(cs, 8) == 24 && Offset(cs, 9) == 28
      && Offset(cs, 10) == 30 && Offset(cs, 11) == 32
  {
    var cs := Word3(s);
    assert Offset(cs, 1) == 1;
    assert Offset(cs, 2) == 2;
    assert Offset(cs, 3) == 3;
    assert Offset(cs, 4) == 11;
    assert Offset(cs, 5) == 12;
    assert Offset(cs, 6) == 16;
    assert Offset(cs, 7) == 20;
    assert Offset(cs, 8) == 24;
    assert Offset(cs, 9) == 28;
    assert Offset(cs, 10) == 30;
    assert Offset(cs, 11) == 32;
  }

  lemma UnpackAll(cs: seq<Cell>)
    requires Fits(cs)
    ensures forall k :: 0 <= k < |cs| ==> Field(Pack(cs), Offset(cs, k), cs[k].len) == cs[k].value
  {
    forall k | 0 <= k < |cs| ensures Field(Pack(cs), Offset(cs, k), cs[k].len) == cs[k].value {
      Unpack(cs, k);
    }
  }

  lemma Fields1(s: Slot)
    requires InRange(s)
    ensures var w := Pack(Word1(s));
      && Field(w, 25, 3) == s.ilu && Field(w, 21, 4) == s.mac
      && Field(w, 13, 8) == s.constIndex && Field(w, 9, 4) == s.inputIndex
      && Flag(w, 8) == s.a.negate
      && Field(w, 6, 2) == s.a.x && Field(w, 4, 2) == s.a.y && Field(w, 2, 2) == s.a.z && Field(w, 0, 2) == s.a.w
  {
    hide Field, Pack, Offset, Fits;
    var cs := Word1(s);
    CellsFit(s);
    Offsets1(s);
    UnpackAll(cs);
    assert cs[0].len == 2 && cs[1].len == 2 && cs[2].len == 2 && cs[3].len == 2 && cs[4].len == 1;
    assert cs[5].len == 4 && cs[6].len == 8 && cs[7].len == 4 && cs[8].len == 3;
  }

  lemma Fields2(s: Slot)
    requires InRange(s)
    ensures var w := Pack(Word2(s));
      && Field(w, 26, 2) == s.a.file && Field(w, 28, 4) == s.a.reg
      && Field(w, 11, 2) == s.b.file && Field(w, 13, 4) == s.b.reg && Flag(w, 25) == s.b.negate
      && Field(w, 23, 2) == s.b.x && Field(w, 21, 2) == s.b.y && Field(w, 19, 2) == s.b.z && Field(w, 17, 2) == s.b.w
      && Field(w, 0, 2) == s.c.reg / 4 && Flag(w, 10) == s.c.negate
      && Field(w, 8, 2) == s.c.x && Field(w, 6, 2) == s.c.y && Field(w, 4, 2) == s.c.z && Field(w, 2, 2) == s.c.w
  {
    hide Field, Pack, Offset, Fits;
    var cs := Word2(s);
    CellsFit(s);
    Offsets2(s);
    UnpackAll(cs);
    assert cs[0].len == 2 && cs[1].len == 2 && cs[2].len == 2 && cs[3].len == 2 && cs[4].len == 2 && cs[5].len == 1;
    assert cs[6].len == 2 && cs[7].len == 4 && cs[8].len == 2 && cs[9].len == 2 && cs[10].len == 2 && cs[11].len == 2;
    assert cs[12].len == 1 && cs[13].len == 2 && cs[14].len == 4;
  }

  lemma Fields3(s: Slot)
    requires InRange(s)
    ensures var w := Pack(Word3(s));
      && Field(w, 28, 2) == s.c.file && Field(w, 30, 2) == s.c.reg % 4
      && Field(w, 24, 4) == s.macMask && Field(w, 20, 4) == s.tempReg && Field(w, 16, 4) == s.iluMask
      && Field(w, 12, 4) == s.outMask && Flag(w, 11) == s.outRegister && Field(w, 3, 8) == s.outAddress
      && Flag(w, 2) == s.outFromIlu && Flag(w, 1) == s.a0Relative && Flag(w, 0) == s.final
  {
    hide Field, Pack, Offset, Fits;
    var cs := Word3(s);
    CellsFit(s);
    Offsets3(s);
    UnpackAll(cs);
    assert cs[0].len == 1 && cs[1].len == 1 && cs[2].len == 1 && cs[3].len == 8 && cs[4].len == 1 && cs[5].len == 4;
    assert cs[6].len == 4 && cs[7].len == 4 && cs[8].len == 4 && cs[9].len == 2 && cs[10].len == 2;
  }

  /** The encoder's words fit 32 bits, and reading all fields of an encoded slot gives it back. */
  lemma EncodeRoundTrip(s: Slot)
    requires InRange(s)
    ensures Fields(Encode(s)) == s
    ensures forall i :: 0 <= i < 4 ==> Encode(s)[i] < Pow2(32)
  {
    Fields1(s);
    Fields2(s);
    Fields3(s);
    assert 4 * (s.c.reg / 4) + s.c.reg % 4 == s.c.reg;
    hide Field, Pack, Offset, Fits, Flag;
    EncodeBound(s);
  }

  lemma EncodeBound(s: Slot)
    requires InRange(s)
    ensures Pack(Word1(s)) < Pow2(32) && Pack(Word2(s)) < Pow2(32) && Pack(Word3(s)) < Pow2(32) && 0 < Pow2(32)
  {
    CellsFit(s);
    Offsets1(s);
    Offsets2(s);
    Offsets3(s);
    PackBound(Word1(s));
    PackBound(Word2(s));
    PackBound(Word3(s));
    PowAdd(28, 4);
    SmallPowers();
  }

  /** Decoding inverts the encoder on every valid slot. */
  lemma DecodeInvertsEncode(s: Slot)
    requires Valid(s)
    ensures DecodeSlot(Encode(s)) == Ok(s)
  {
    EncodeRoundTrip(s);
  }

  /** The decoder's results are exactly the valid slots; bits outside the fields are ignored. */
  lemma DecodedIsValid(w: seq<nat>)
    requires |w| == 4
    ensures DecodeSlot(w).Ok? ==> Valid(DecodeSlot(w).value) && DecodeSlot(Encode(DecodeSlot(w).value)) == DecodeSlot(w)
  {
    SmallPowers();
    if DecodeSlot(w).Ok? {
      DecodeInvertsEncode(DecodeSlot(w).value);
    }
  }
}
