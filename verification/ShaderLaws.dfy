/** What operands, masks and whole programs mean, component by component. */
module ShaderLaws {
  import opened BitFields
  import opened ShaderCode
  import opened Shader

  // ---------------------------------------------------------------------
  // Operands and masks

  /** The register a source names: R12 is the position output. */
  function Named<F>(s: Slot, src: Source, g: Regs<F>): Vec<F>
    requires Shape(g) && s.inputIndex < 16 && (src.file == FILE_R ==> src.reg <= 12)
    requires src.file == FILE_C ==> ConstInRange(s, g.a0)
  {
    if src.file == FILE_R then (if src.reg < 12 then g.r[src.reg] else g.o[0])
    else if src.file == FILE_V then g.v[s.inputIndex]
    else if src.file == FILE_C then g.c[if s.a0Relative then s.constIndex + g.a0 else s.constIndex]
    else g.v[0]
  }

  function Signed<F>(ops: Ops<F>, negate: bool, x: F): F {
    if negate then ops.neg(x) else x
  }

  /** Component k of the value is the component of the named register that field k of the swizzle selects. */
  ghost predicate IsOperand<F>(ops: Ops<F>, src: Source, scalar: bool, base: Vec<F>, value: Vec<F>) {
    && value.x == Signed(ops, src.negate, At(base, src.x))
    && value.y == Signed(ops, src.negate, At(base, if scalar then src.x else src.y))
    && value.z == Signed(ops, src.negate, At(base, if scalar then src.x else src.z))
    && value.w == Signed(ops, src.negate, At(base, if scalar then src.x else src.w))
  }

  lemma OperandLaw<F>(ops: Ops<F>, s: Slot, src: Source, g: Regs<F>, scalar: bool)
    requires Shape(g) && s.inputIndex < 16 && (src.file == FILE_R ==> src.reg <= 12)
    ensures var r := ReadSource(ops, s, src, g, scalar);
      && (r.Ok? <==> (src.file == FILE_R || src.file == FILE_V || (src.file == FILE_C && ConstInRange(s, g.a0))))
      && (r.Ok? ==> IsOperand(ops, src, scalar, Named(s, src, g), r.value))
  {
  }

  /** The fields 0 to 3 select x, y, z and w. */
  lemma ComponentLaw<F>(v: Vec<F>)
    ensures v == Vec(At(v, 0), At(v, 1), At(v, 2), At(v, 3))
  {
  }

  /** Bit k of the mask decides component k: set takes the new value, clear keeps the old one. */
  ghost predicate IsMasked<F>(before: Vec<F>, v: Vec<F>, mask: nat, after: Vec<F>) {
    && after.x == (if mask % 2 == 1 then v.x else before.x)
    && after.y == (if mask / 2 % 2 == 1 then v.y else before.y)
    && after.z == (if mask / 4 % 2 == 1 then v.z else before.z)
    && after.w == (if mask / 8 % 2 == 1 then v.w else before.w)
  }

  lemma MaskLaw<F>(before: Vec<F>, v: Vec<F>, mask: nat)
    ensures IsMasked(before, v, mask, Masked(before, v, mask))
  {
    SmallPowers();
  }

  // ---------------------------------------------------------------------
  // Programs

  /** A slot that only moves its MAC result to an output register. */
  predicate OutputsMac(s: Slot, op: nat, address: nat, mask: nat) {
    && s.mac == op && s.ilu == ILU_NOP && s.macMask == 0
    && s.outMask == mask && mask != 0 && s.outRegister && s.outAddress == address && address < 16 && !s.outFromIlu
  }

  /** Such a slot changes the masked components of that output and nothing else. */
  lemma OutputSlot<F>(ops: Ops<F>, s: Slot, g: Regs<F>, op: nat, address: nat, mask: nat)
    requires Runnable(s, g) && OutputsMac(s, op, address, mask) && op != MAC_NOP && op != MAC_ARL
    requires MacResult(ops, s, g).Ok?
    ensures var out := Masked(g.o[address], MacResult(ops, s, g).value, mask);
            Exec(ops, s, g) == Outcome(true, g.(o := g.o[address := out]))
  {
    hide MacResult, ReadSource, Masked;
    FailsExactly(ops, s, g);
    MacFailsExactly(ops, s, g);
    assert address % 16 == address;
  }

  lemma RunOne<F>(ops: Ops<F>, s: Slot, g: Regs<F>)
    requires Runnable(s, g)
    ensures Run(ops, [s], g) == Exec(ops, s, g)
  {
    hide Exec, ShaderCode.Valid;
    FailsExactly(ops, s, g);
    assert [s][1..] == [];
  }

  /**
   MOV, from any operand that can be read, to an output register: the program of that one
   slot succeeds and leaves in it the swizzled and signed components of the register that
   the operand names. Nothing else changes.
   */
  lemma MovLaw<F>(ops: Ops<F>, s: Slot, g: Regs<F>, address: nat)
    requires Runnable(s, g) && OutputsMac(s, MAC_MOV, address, 15)
    requires s.a.file == FILE_C ==> ConstInRange(s, g.a0)
    ensures var r := Run(ops, [s], g);
      && r.ok && Shape(r.regs) && r.regs == g.(o := g.o[address := r.regs.o[address]])
      && IsOperand(ops, s.a, false, Named(s, s.a, g), r.regs.o[address])
  {
    hide Exec, ReadSource, Masked;
    RunOne(ops, s, g);
    OperandLaw(ops, s, s.a, g, false);
    MovOperand(ops, s, g);
    OutputSlot(ops, s, g, MAC_MOV, address, 15);
    MaskLaw(g.o[address], MacResult(ops, s, g).value, 15);
    FailsExactly(ops, s, g);
  }

  lemma MovOperand<F>(ops: Ops<F>, s: Slot, g: Regs<F>)
    requires Runnable(s, g) && s.mac == MAC_MOV
    ensures MacResult(ops, s, g) == ReadSource(ops, s, s.a, g, false)
    ensures s.a.file == FILE_R || s.a.file == FILE_V || s.a.file == FILE_C
  {
    hide ReadSource;
  }

  predicate Identity(src: Source) {
    src.x == 0 && src.y == 1 && src.z == 2 && src.w == 3 && !src.negate
  }

  /** Slot k of a transform: component k of oPos is the dot product of an input with a constant. */
  predicate TransformSlot(s: Slot, k: nat, input: nat, first: nat)
    requires k < 4
  {
    && OutputsMac(s, MAC_DP4, 0, if k == 0 then 1 else if k == 1 then 2 else if k == 2 then 4 else 8)
    && s.a.file == FILE_V && Identity(s.a) && s.inputIndex == input
    && s.b.file == FILE_C && Identity(s.b) && s.constIndex == first + k && !s.a0Relative
  }

  lemma TransformStep<F>(ops: Ops<F>, s: Slot, g: Regs<F>, k: nat, input: nat, first: nat)
    requires Runnable(s, g) && k < 4 && input < 16 && first + k < 192 && TransformSlot(s, k, input, first)
    ensures var d := Dot4(ops, g.v[input], g.c[first + k]);
      Exec(ops, s, g) == Outcome(true, g.(o := g.o[0 :=
        if k == 0 then g.o[0].(x := d) else if k == 1 then g.o[0].(y := d)
        else if k == 2 then g.o[0].(z := d) else g.o[0].(w := d)]))
  {
    hide Exec, Masked, Dot4;
    Dp4Result(ops, s, g, k, input, first);
    var mask := if k == 0 then 1 else if k == 1 then 2 else if k == 2 then 4 else 8;
    OutputSlot(ops, s, g, MAC_DP4, 0, mask);
    MaskLaw(g.o[0], MacResult(ops, s, g).value, mask);
  }

  lemma Dp4Result<F>(ops: Ops<F>, s: Slot, g: Regs<F>, k: nat, input: nat, first: nat)
    requires Runnable(s, g) && k < 4 && input < 16 && first + k < 192 && TransformSlot(s, k, input, first)
    ensures MacResult(ops, s, g).Ok? && MacResult(ops, s, g).value == Spread(Dot4(ops, g.v[input], g.c[first + k]))
  {
    hide ReadSource, Dot4;
    OperandLaw(ops, s, s.a, g, false);
    OperandLaw(ops, s, s.b, g, false);
    ComponentLaw(g.v[input]);
    ComponentLaw(g.c[first + k]);
  }

  /**
   The four slots with which a vertex program transforms a position: oPos becomes the
   product of the matrix in c[first] to c[first + 3] with the input vector, whatever the
   components and their arithmetic are.
   */
  lemma TransformLaw<F>(ops: Ops<F>, slots: seq<Slot>, g: Regs<F>, input: nat, first: nat)
    requires |slots| == 4 && Shape(g) && input < 16 && first + 3 < 192
    requires forall k :: 0 <= k < 4 ==> Valid(slots[k]) && TransformSlot(slots[k], k, input, first)
    ensures Run(ops, slots, g) == Outcome(true, g.(o := g.o[0 :=
      Vec(Dot4(ops, g.v[input], g.c[first]), Dot4(ops, g.v[input], g.c[first + 1]),
          Dot4(ops, g.v[input], g.c[first + 2]), Dot4(ops, g.v[input], g.c[first + 3]))]))
  {
    hide Exec, Dot4, ShaderCode.Valid, TransformSlot;
    TransformStep(ops, slots[0], g, 0, input, first);
    var g1 := Exec(ops, slots[0], g).regs;
    TransformStep(ops, slots[1], g1, 1, input, first);
    var g2 := Exec(ops, slots[1], g1).regs;
    TransformStep(ops, slots[2], g2, 2, input, first);
    var g3 := Exec(ops, slots[2], g2).regs;
    TransformStep(ops, slots[3], g3, 3, input, first);
    RunFour(ops, slots, g);
  }

  lemma RunFour<F>(ops: Ops<F>, slots: seq<Slot>, g: Regs<F>)
    requires |slots| == 4 && Shape(g) && forall k :: 0 <= k < 4 ==> Valid(slots[k])
    requires Exec(ops, slots[0], g).ok && Shape(Exec(ops, slots[0], g).regs)
    requires var g1 := Exec(ops, slots[0], g).regs; Exec(ops, slots[1], g1).ok && Shape(Exec(ops, slots[1], g1).regs)
    requires var g2 := Exec(ops, slots[1], Exec(ops, slots[0], g).regs).regs;
             Exec(ops, slots[2], g2).ok && Shape(Exec(ops, slots[2], g2).regs)
    ensures Run(ops, slots, g)
         == Exec(ops, slots[3], Exec(ops, slots[2], Exec(ops, slots[1], Exec(ops, slots[0], g).regs).regs).regs)
  {
    hide Exec, ShaderCode.Valid, Run;
    var g1 := Exec(ops, slots[0], g).regs;
    var g2 := Exec(ops, slots[1], g1).regs;
    var g3 := Exec(ops, slots[2], g2).regs;
    RunRest(ops, slots, g);
    RunRest(ops, slots[1..], g1);
    assert slots[1..][1..] == slots[2..];
    RunRest(ops, slots[2..], g2);
    assert slots[2..][1..] == [slots[3]];
    RunOne(ops, slots[3], g3);
  }

  lemma RunRest<F>(ops: Ops<F>, slots: seq<Slot>, g: Regs<F>)
    requires slots != [] && Shape(g) && forall k :: 0 <= k < |slots| ==> Valid(slots[k])
    requires Exec(ops, slots[0], g).ok && Shape(Exec(ops, slots[0], g).regs)
    ensures Run(ops, slots, g) == Run(ops, slots[1..], Exec(ops, slots[0], g).regs)
  {
    hide Exec, ShaderCode.Valid;
  }

  /** ARL loads the address register from the first component of its operand. */
  lemma ArlLaw<F>(ops: Ops<F>, s: Slot, g: Regs<F>)
    requires Runnable(s, g) && s.mac == MAC_ARL && Exec(ops, s, g).ok
    ensures s.a.file == FILE_C ==> ConstInRange(s, g.a0)
    ensures Exec(ops, s, g).regs.a0 == ops.address(Signed(ops, s.a.negate, At(Named(s, s.a, g), s.a.x)))
  {
    hide Writes, Output, ReadSource;
    OperandLaw(ops, s, s.a, g, false);
    ArlKeeps(ops, s, g);
  }

  lemma ArlKeeps<F>(ops: Ops<F>, s: Slot, g: Regs<F>)
    requires Runnable(s, g) && s.mac == MAC_ARL && Exec(ops, s, g).ok
    ensures ReadSource(ops, s, s.a, g, false).Ok?
    ensures Exec(ops, s, g).regs.a0 == ops.address(ReadSource(ops, s, s.a, g, false).value.x)
  {
    hide ReadSource, Output, Writes;
    var a := ReadSource(ops, s, s.a, g, false).value;
    var g1 := AfterMac(ops, s, g, a);
    var c := if s.ilu == ILU_NOP then Ok(ZeroVec(ops)) else ReadSource(ops, s, s.c, g1, IluScalar(s.ilu));
    var ilu := if s.ilu == ILU_NOP then c.value else IluCompute(ops, s.ilu, c.value);
    var g2 := Writes(s, g1, a, ilu);
    WritesFramed(s, g1, a, ilu);
    OutputKeepsAddress(s, a, g2);
    OutputKeepsAddress(s, ilu, g2);
  }

  lemma OutputKeepsAddress<F>(s: Slot, v: Vec<F>, g: Regs<F>)
    requires Shape(g)
    ensures Output(s, v, g).regs.a0 == g.a0
  {
  }

  /** There are such programs: the transform of input 0 by the matrix in c0 to c3 is accepted by the decoder. */
  function SampleTransform(k: nat): Slot
    requires k < 4
  {
    var v, c := Source(FILE_V, 0, false, 0, 1, 2, 3), Source(FILE_C, 0, false, 0, 1, 2, 3);
    var mask := if k == 0 then 1 else if k == 1 then 2 else if k == 2 then 4 else 8;
    Slot(0, MAC_DP4, k, 0, v, c, c, 0, 0, 0, mask, true, 0, false, false, k == 3)
  }

  lemma SampleIsValid(k: nat)
    requires k < 4
    ensures Valid(SampleTransform(k)) && TransformSlot(SampleTransform(k), k, 0, 0)
  {
  }

  // ---------------------------------------------------------------------
  // Every slot

  function OperandOf<F>(ops: Ops<F>, s: Slot, src: Source, g: Regs<F>, scalar: bool): Vec<F>
    requires Shape(g) && s.inputIndex < 16 && (src.file == FILE_R ==> src.reg <= 12)
    requires src.file == FILE_C ==> ConstInRange(s, g.a0)
  {
    var base := Named(s, src, g);
    Vec(Signed(ops, src.negate, At(base, src.x)),
        Signed(ops, src.negate, At(base, if scalar then src.x else src.y)),
        Signed(ops, src.negate, At(base, if scalar then src.x else src.z)),
        Signed(ops, src.negate, At(base, if scalar then src.x else src.w)))
  }

  /** What the MAC unit computes, with zeros for the operands its operation does not use. */
  function MacValue<F>(ops: Ops<F>, s: Slot, g: Regs<F>): Vec<F>
    requires Runnable(s, g) && !Trips(ops, s, g) && s.mac != 0
  {
    var zero := Vec(ops.zero, ops.zero, ops.zero, ops.zero);
    var a := if s.mac != 3 then OperandOf(ops, s, s.a, g, false) else zero;
    var b := if s.mac !in {1, 3, 13} then OperandOf(ops, s, s.b, g, false) else zero;
    var c := if s.mac in {3, 4} then OperandOf(ops, s, s.c, g, false) else zero;
    if s.mac == 13 then a else MacCompute(ops, s.mac, a, b, c)
  }

  /** The registers after the MAC unit: an ARL has loaded the address register. */
  function Addressed<F>(ops: Ops<F>, s: Slot, g: Regs<F>): Regs<F>
    requires Runnable(s, g) && !Trips(ops, s, g)
  {
    if s.mac == 13 then g.(a0 := ops.address(MacValue(ops, s, g).x)) else g
  }

  lemma MacMeans<F>(ops: Ops<F>, s: Slot, g: Regs<F>)
    requires Runnable(s, g) && !Trips(ops, s, g) && s.mac != 0
    ensures MacResult(ops, s, g) == Ok(MacValue(ops, s, g))
    ensures AfterMac(ops, s, g, MacValue(ops, s, g)) == Addressed(ops, s, g)
  {
    hide ReadSource, MacCompute;
    MacFailsExactly(ops, s, g);
    if s.mac != 3 { OperandLaw(ops, s, s.a, g, false); }
    if s.mac !in {1, 3, 13} { OperandLaw(ops, s, s.b, g, false); }
    if s.mac in {3, 4} { OperandLaw(ops, s, s.c, g, false); }
  }

  function IluValue<F>(ops: Ops<F>, s: Slot, g: Regs<F>): Vec<F>
    requires Runnable(s, g) && !Trips(ops, s, g) && s.ilu != 0
  {
    MacRange(ops, s, g);
    IluCompute(ops, s.ilu, OperandOf(ops, s, s.c, Addressed(ops, s, g), 2 <= s.ilu <= 6))
  }

  lemma MacRange<F>(ops: Ops<F>, s: Slot, g: Regs<F>)
    requires Runnable(s, g) && !Trips(ops, s, g) && s.ilu != 0
    ensures Shape(Addressed(ops, s, g)) && (s.c.file == FILE_C ==> ConstInRange(s, Addressed(ops, s, g).a0))
  {
    if s.mac != 0 {
      MacMeans(ops, s, g);
    }
  }

  /** Register i of the temporaries, where 12 is the position output. */
  function Temp<F>(g: Regs<F>, i: nat): Vec<F>
    requires Shape(g) && i <= 12
  {
    if i < 12 then g.r[i] else g.o[0]
  }

  /** The temporary that the MAC result goes to, or 13; a paired ILU owns R1. */
  function MacTarget(s: Slot): nat {
    if s.mac != 0 && s.macMask != 0 && !(s.ilu != 0 && s.tempReg == 1) then s.tempReg else 13
  }

  function IluTarget(s: Slot): nat {
    if s.ilu != 0 && s.iluMask != 0 then (if s.mac != 0 then 1 else s.tempReg) else 13
  }

  /** Each temporary takes the masked components of what is written to it, and no other register changes. */
  ghost predicate TempsMean<F>(s: Slot, g: Regs<F>, g': Regs<F>, mac: Vec<F>, ilu: Vec<F>)
    requires Shape(g) && Shape(g')
  {
    && g'.v == g.v && g'.c == g.c && g'.a0 == g.a0 && g'.o[1..] == g.o[1..]
    && forall i :: 0 <= i <= 12 ==>
         if i == MacTarget(s) then IsMasked(Temp(g, i), mac, s.macMask, Temp(g', i))
         else if i == IluTarget(s) then IsMasked(Temp(g, i), ilu, s.iluMask, Temp(g', i))
         else Temp(g', i) == Temp(g, i)
  }

  lemma WritesMean<F>(s: Slot, g: Regs<F>, mac: Vec<F>, ilu: Vec<F>)
    requires Runnable(s, g)
    ensures TempsMean(s, g, Writes(s, g, mac, ilu), mac, ilu)
  {
    hide Masked;
    forall i | 0 <= i <= 12
      ensures IsMasked(Temp(g, i), mac, s.macMask, Masked(Temp(g, i), mac, s.macMask))
      ensures IsMasked(Temp(g, i), ilu, s.iluMask, Masked(Temp(g, i), ilu, s.iluMask))
    {
      MaskLaw(Temp(g, i), mac, s.macMask);
      MaskLaw(Temp(g, i), ilu, s.iluMask);
    }
  }

  /** The unit whose result the slot sends to an output: 1 the MAC, 2 the ILU, 0 none. */
  function Sent(s: Slot): nat {
    if s.outMask == 0 then 0
    else if s.outFromIlu then (if s.ilu != 0 then 2 else 0)
    else if s.mac != 0 then 1 else 0
  }

  /** The output or constant addressed takes the masked components of what is sent, and nothing else changes. */
  ghost predicate OutputMeans<F>(s: Slot, g: Regs<F>, g': Regs<F>, sent: Vec<F>)
    requires Shape(g) && Shape(g') && Valid(s) && s.outMask != 0
  {
    if s.outRegister then
      var i := s.outAddress % 16;
      g' == g.(o := g.o[i := g'.o[i]]) && IsMasked(g.o[i], sent, s.outMask, g'.o[i])
    else
      var i := s.outAddress;
      i < 192 && g' == g.(c := g.c[i := g'.c[i]]) && IsMasked(g.c[i], sent, s.outMask, g'.c[i])
  }

  lemma OutputIsMeant<F>(s: Slot, g: Regs<F>, v: Vec<F>)
    requires Runnable(s, g) && s.outMask != 0
    ensures Output(s, v, g).ok && Shape(Output(s, v, g).regs) && OutputMeans(s, g, Output(s, v, g).regs, v)
  {
    hide Masked;
    MaskLaw(if s.outRegister then g.o[s.outAddress % 16] else g.c[s.outAddress], v, s.outMask);
  }

  /**
   The meaning of a slot that reads no constant out of range, register by register: the
   temporaries take the masked results of their units, then the addressed output takes
   the masked result of the unit selected.
   */
  lemma SlotLaw<F>(ops: Ops<F>, s: Slot, g: Regs<F>)
    requires Runnable(s, g) && !Trips(ops, s, g)
    ensures Exec(ops, s, g).ok && Shape(Exec(ops, s, g).regs)
    ensures exists temps ::
      && Shape(temps)
      && (var zero := ZeroVec(ops);
          var mac := if s.mac != 0 then MacValue(ops, s, g) else zero;
          var ilu := if s.ilu != 0 then IluValue(ops, s, g) else zero;
          && TempsMean(s, Addressed(ops, s, g), temps, mac, ilu)
          && (Sent(s) == 0 ==> Exec(ops, s, g).regs == temps)
          && (Sent(s) == 1 ==> OutputMeans(s, temps, Exec(ops, s, g).regs, mac))
          && (Sent(s) == 2 ==> OutputMeans(s, temps, Exec(ops, s, g).regs, ilu)))
  {
    hide ReadSource, MacResult, Writes, Output, Masked, MacCompute, TempsMean, OutputMeans, IluCompute, Trips;
    FailsExactly(ops, s, g);
    var zero := ZeroVec(ops);
    var mac := if s.mac != 0 then MacValue(ops, s, g) else zero;
    if s.mac != 0 {
      MacMeans(ops, s, g);
    }
    var g1 := Addressed(ops, s, g);
    var ilu := if s.ilu != 0 then IluValue(ops, s, g) else zero;
    if s.ilu != 0 {
      MacRange(ops, s, g);
      OperandLaw(ops, s, s.c, g1, 2 <= s.ilu <= 6);
    }
    var temps := Writes(s, g1, mac, ilu);
    WritesMean(s, g1, mac, ilu);
    if s.outMask != 0 {
      OutputIsMeant(s, temps, mac);
      OutputIsMeant(s, temps, ilu);
    }
  }

  // ---------------------------------------------------------------------
  // Arithmetic

  /** MAC operations by number: products, sums, dot products, comparisons, and the smaller and the larger of two. */
  lemma ArithmeticLaw<F>(ops: Ops<F>, a: Vec<F>, b: Vec<F>, c: Vec<F>, k: nat)
    requires k < 4
    ensures MacCompute(ops, 1, a, b, c) == a
    ensures At(MacCompute(ops, 2, a, b, c), k) == ops.mul(At(a, k), At(b, k))
    ensures At(MacCompute(ops, 3, a, b, c), k) == ops.add(At(a, k), At(c, k))
    ensures At(MacCompute(ops, 4, a, b, c), k) == ops.add(ops.mul(At(a, k), At(b, k)), At(c, k))
    ensures At(MacCompute(ops, 7, a, b, c), k) == ops.add(At(MacCompute(ops, 5, a, b, c), k), ops.mul(a.w, b.w))
    ensures At(MacCompute(ops, 6, a, b, c), k) == ops.add(At(MacCompute(ops, 5, a, b, c), k), b.w)
    ensures var m := At(MacCompute(ops, 9, a, b, c), k);
      (m == At(a, k) && !ops.less(At(b, k), m)) || (m == At(b, k) && ops.less(m, At(a, k)))
    ensures var m := At(MacCompute(ops, 10, a, b, c), k);
      (m == At(a, k) && !ops.less(m, At(b, k))) || (m == At(b, k) && ops.less(At(a, k), m))
    ensures At(MacCompute(ops, 11, a, b, c), k) == if ops.less(At(a, k), At(b, k)) then ops.one else ops.zero
    ensures At(MacCompute(ops, 12, a, b, c), k) == if ops.atLeast(At(a, k), At(b, k)) then ops.one else ops.zero
    ensures MacCompute(ops, 8, a, b, c) == Vec(ops.one, ops.mul(a.y, b.y), a.z, b.w)
  {
  }
}
