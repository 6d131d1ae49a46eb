/**
 The vertex-shader interpreter (vs_execute in src/xbox_vs.cpp) over an open component
 type F: the floating-point operations are parameters, the register traffic is not.
 */
module Shader {
  import opened BitFields
  import opened ShaderCode
  import opened ShaderProgram

  datatype Vec<F> = Vec(x: F, y: F, z: F, w: F)

  function At<F>(v: Vec<F>, i: nat): F {
    if i == 0 then v.x else if i == 1 then v.y else if i == 2 then v.z else v.w
  }

  /**
   The arithmetic on components, the ILU operations other than MOV, and floor(x + bias)
   for the address register.
   */
  datatype Ops<!F> = Ops(
    zero: F,
    one: F,
    neg: F -> F,
    add: (F, F) -> F,
    mul: (F, F) -> F,
    less: (F, F) -> bool,
    atLeast: (F, F) -> bool,
    ilu: (nat, Vec<F>) -> Vec<F>,
    address: F -> int)

  datatype Regs<F> = Regs(v: seq<Vec<F>>, c: seq<Vec<F>>, r: seq<Vec<F>>, o: seq<Vec<F>>, a0: int)

  predicate Shape<F>(g: Regs<F>) {
    |g.v| == 16 && |g.c| == 192 && |g.r| == 12 && |g.o| == 16
  }

  // ---------------------------------------------------------------------
  // Operands

  function Swizzle<F>(base: Vec<F>, s: Source, scalar: bool): Vec<F> {
    if scalar then Vec(At(base, s.x), At(base, s.x), At(base, s.x), At(base, s.x))
    else Vec(At(base, s.x), At(base, s.y), At(base, s.z), At(base, s.w))
  }

  function Negated<F>(ops: Ops<F>, v: Vec<F>): Vec<F> {
    Vec(ops.neg(v.x), ops.neg(v.y), ops.neg(v.z), ops.neg(v.w))
  }

  function ConstIndex(s: Slot, a0: int): int {
    if s.a0Relative then s.constIndex + a0 else s.constIndex
  }

  predicate ConstInRange(s: Slot, a0: int) {
    0 <= ConstIndex(s, a0) <= MAX_CONST
  }

  /** read_source; the register it names must exist. */
  function ReadSource<F>(ops: Ops<F>, s: Slot, src: Source, g: Regs<F>, scalar: bool): Result<Vec<F>>
    requires Shape(g) && s.inputIndex < 16 && (src.file == FILE_R ==> src.reg <= 12)
  {
    if src.file == FILE_C && !ConstInRange(s, g.a0) then Err("relative constant index out of range")
    else if src.file != FILE_R && src.file != FILE_V && src.file != FILE_C then
      Err("source operand has no register file")
    else
      var base := if src.file == FILE_R then (if src.reg == 12 then g.o[0] else g.r[src.reg])
                  else if src.file == FILE_V then g.v[s.inputIndex]
                  else g.c[ConstIndex(s, g.a0)];
      var out := Swizzle(base, src, scalar);
      Ok(if src.negate then Negated(ops, out) else out)
  }

  function ZeroVec<F>(ops: Ops<F>): Vec<F> {
    Vec(ops.zero, ops.zero, ops.zero, ops.zero)
  }

  /** An operand the operation does not use stays zero. */
  function Operand<F>(ops: Ops<F>, used: bool, s: Slot, src: Source, g: Regs<F>): Result<Vec<F>>
    requires Shape(g) && s.inputIndex < 16 && (used && src.file == FILE_R ==> src.reg <= 12)
  {
    if used then ReadSource(ops, s, src, g, false) else Ok(ZeroVec(ops))
  }

  predicate IluScalar(op: nat) {
    2 <= op <= 6
  }

  // ---------------------------------------------------------------------
  // Arithmetic

  const MAC_MUL: nat := 2
  const MAC_DP3: nat := 5
  const MAC_DPH: nat := 6
  const MAC_DP4: nat := 7
  const MAC_DST: nat := 8
  const MAC_MIN: nat := 9
  const MAC_MAX: nat := 10
  const MAC_SLT: nat := 11
  const MAC_SGE: nat := 12
  const ILU_MOV: nat := 1

  function Each<F>(f: (F, F) -> F, a: Vec<F>, b: Vec<F>): Vec<F> {
    Vec(f(a.x, b.x), f(a.y, b.y), f(a.z, b.z), f(a.w, b.w))
  }

  function Spread<F>(x: F): Vec<F> {
    Vec(x, x, x, x)
  }

  function Dot3<F>(ops: Ops<F>, a: Vec<F>, b: Vec<F>): F {
    ops.add(ops.add(ops.mul(a.x, b.x), ops.mul(a.y, b.y)), ops.mul(a.z, b.z))
  }

  function Dot4<F>(ops: Ops<F>, a: Vec<F>, b: Vec<F>): F {
    ops.add(Dot3(ops, a, b), ops.mul(a.w, b.w))
  }

  function Flagged<F>(ops: Ops<F>, holds: bool): F {
    if holds then ops.one else ops.zero
  }

  /** mac_compute; the minimum and maximum keep the first operand unless the second one beats it. */
  function MacCompute<F>(ops: Ops<F>, op: nat, a: Vec<F>, b: Vec<F>, c: Vec<F>): Vec<F> {
    if op == MAC_MOV then a
    else if op == MAC_MUL then Each(ops.mul, a, b)
    else if op == MAC_ADD then Each(ops.add, a, c)
    else if op == MAC_MAD then Each(ops.add, Each(ops.mul, a, b), c)
    else if op == MAC_DP3 then Spread(Dot3(ops, a, b))
    else if op == MAC_DPH then Spread(ops.add(Dot3(ops, a, b), b.w))
    else if op == MAC_DP4 then Spread(Dot4(ops, a, b))
    else if op == MAC_DST then Vec(ops.one, ops.mul(a.y, b.y), a.z, b.w)
    else if op == MAC_MIN then Each((x, y) => if ops.less(y, x) then y else x, a, b)
    else if op == MAC_MAX then Each((x, y) => if ops.less(x, y) then y else x, a, b)
    else if op == MAC_SLT then Each((x, y) => Flagged(ops, ops.less(x, y)), a, b)
    else if op == MAC_SGE then Each((x, y) => Flagged(ops, ops.atLeast(x, y)), a, b)
    else ZeroVec(ops)
  }

  function IluCompute<F>(ops: Ops<F>, op: nat, c: Vec<F>): Vec<F> {
    if op == ILU_MOV then c else ops.ilu(op, c)
  }

  // ---------------------------------------------------------------------
  // Writes

  predicate MaskBit(mask: nat, i: nat) {
    Field(mask, i, 1) == 1
  }

  function Masked<F>(before: Vec<F>, v: Vec<F>, mask: nat): Vec<F> {
    Vec(if MaskBit(mask, 0) then v.x else before.x,
        if MaskBit(mask, 1) then v.y else before.y,
        if MaskBit(mask, 2) then v.z else before.z,
        if MaskBit(mask, 3) then v.w else before.w)
  }

  /** write_temp: R12 is the position output. */
  function WriteTemp<F>(g: Regs<F>, reg: nat, v: Vec<F>, mask: nat): (g': Regs<F>)
    requires Shape(g) && reg <= 12
    ensures Shape(g')
  {
    if reg == 12 then g.(o := g.o[0 := Masked(g.o[0], v, mask)])
    else g.(r := g.r[reg := Masked(g.r[reg], v, mask)])
  }

  function WriteOutput<F>(s: Slot, v: Vec<F>, g: Regs<F>): Result<Regs<F>>
    requires Shape(g)
  {
    if !s.outRegister then
      if s.outAddress > MAX_CONST then Err("writeable constant index out of range")
      else Ok(g.(c := g.c[s.outAddress := Masked(g.c[s.outAddress], v, s.outMask)]))
    else if !ValidOutput(s.outAddress % 16) then Err("output register reserved")
    else Ok(g.(o := g.o[s.outAddress % 16 := Masked(g.o[s.outAddress % 16], v, s.outMask)]))
  }

  // ---------------------------------------------------------------------
  // One slot

  /** What a slot leaves behind; on an error the registers keep what was done before it. */
  datatype Outcome<F> = Outcome(ok: bool, regs: Regs<F>)

  predicate Runnable<F>(s: Slot, g: Regs<F>) {
    Valid(s) && Shape(g)
  }

  /** The MAC operands, its result, and the address register after it. */
  function MacResult<F>(ops: Ops<F>, s: Slot, g: Regs<F>): Result<Vec<F>>
    requires Runnable(s, g) && s.mac != MAC_NOP
  {
    var a := Operand(ops, MacUsesA(s.mac), s, s.a, g);
    if a.Err? then Err(a.error)
    else
      var b := Operand(ops, MacUsesB(s.mac), s, s.b, g);
      if b.Err? then Err(b.error)
      else
        var c := Operand(ops, MacUsesC(s.mac), s, s.c, g);
        if c.Err? then Err(c.error)
        else Ok(if s.mac == MAC_ARL then a.value else MacCompute(ops, s.mac, a.value, b.value, c.value))
  }

  function AfterMac<F>(ops: Ops<F>, s: Slot, g: Regs<F>, result: Vec<F>): Regs<F> {
    if s.mac == MAC_ARL then g.(a0 := ops.address(result.x)) else g
  }

  function Writes<F>(s: Slot, g: Regs<F>, mac: Vec<F>, ilu: Vec<F>): (g': Regs<F>)
    requires Runnable(s, g)
    ensures Shape(g')
  {
    var hasMac, hasIlu := s.mac != MAC_NOP, s.ilu != ILU_NOP;
    var g1 :=
      if hasMac && s.macMask != 0 && !(hasIlu && s.tempReg == 1) then WriteTemp(g, s.tempReg, mac, s.macMask) else g;
    if hasIlu && s.iluMask != 0 then WriteTemp(g1, if hasMac then 1 else s.tempReg, ilu, s.iluMask) else g1
  }

  function Exec<F>(ops: Ops<F>, s: Slot, g: Regs<F>): Outcome<F>
    requires Runnable(s, g)
  {
    var mac := if s.mac == MAC_NOP then Ok(ZeroVec(ops)) else MacResult(ops, s, g);
    if mac.Err? then Outcome(false, g)
    else
      var g1 := if s.mac == MAC_NOP then g else AfterMac(ops, s, g, mac.value);
      var c := if s.ilu == ILU_NOP then Ok(ZeroVec(ops)) else ReadSource(ops, s, s.c, g1, IluScalar(s.ilu));
      if c.Err? then Outcome(false, g1)
      else
        var ilu := if s.ilu == ILU_NOP then c.value else IluCompute(ops, s.ilu, c.value);
        var g2 := Writes(s, g1, mac.value, ilu);
        if s.outMask != 0 && s.outFromIlu && s.ilu != ILU_NOP then Output(s, ilu, g2)
        else if s.outMask != 0 && !s.outFromIlu && s.mac != MAC_NOP then Output(s, mac.value, g2)
        else Outcome(true, g2)
  }

  function Output<F>(s: Slot, v: Vec<F>, g: Regs<F>): Outcome<F>
    requires Shape(g)
  {
    var r := WriteOutput(s, v, g);
    if r.Ok? then Outcome(true, r.value) else Outcome(false, g)
  }

  // ---------------------------------------------------------------------
  // The checker makes the interpreter safe

  /** The MAC unit reads a constant. */
  predicate MacReadsConst(s: Slot) {
    && s.mac != MAC_NOP
    && (   (MacUsesA(s.mac) && s.a.file == FILE_C)
        || (MacUsesB(s.mac) && s.b.file == FILE_C)
        || (MacUsesC(s.mac) && s.c.file == FILE_C))
  }

  predicate IluReadsConst(s: Slot) {
    s.ilu != ILU_NOP && s.c.file == FILE_C
  }

  /** The address register the ILU sees: a MAC ARL of the same slot comes first. */
  function A0ForIlu<F>(ops: Ops<F>, s: Slot, g: Regs<F>): int
    requires Runnable(s, g)
  {
    if s.mac == MAC_ARL && MacResult(ops, s, g).Ok? then ops.address(MacResult(ops, s, g).value.x) else g.a0
  }

  /** The slot reads a constant outside c0 - c191. */
  predicate Trips<F>(ops: Ops<F>, s: Slot, g: Regs<F>)
    requires Runnable(s, g)
  {
    || (MacReadsConst(s) && !ConstInRange(s, g.a0))
    || (IluReadsConst(s) && !ConstInRange(s, A0ForIlu(ops, s, g)))
  }

  lemma ReadFailsExactly<F>(ops: Ops<F>, s: Slot, src: Source, g: Regs<F>, scalar: bool)
    requires Runnable(s, g) && Usable(src) && SourceInRange(src)
    ensures ReadSource(ops, s, src, g, scalar).Ok? <==> (src.file == FILE_C ==> ConstInRange(s, g.a0))
  {
  }

  lemma MacFailsExactly<F>(ops: Ops<F>, s: Slot, g: Regs<F>)
    requires Runnable(s, g) && s.mac != MAC_NOP
    ensures MacResult(ops, s, g).Ok? <==> (MacReadsConst(s) ==> ConstInRange(s, g.a0))
  {
    if MacUsesA(s.mac) { ReadFailsExactly(ops, s, s.a, g, false); }
    if MacUsesB(s.mac) { ReadFailsExactly(ops, s, s.b, g, false); }
    if MacUsesC(s.mac) { ReadFailsExactly(ops, s, s.c, g, false); }
  }

  lemma OutputNeverFails<F>(s: Slot, v: Vec<F>, g: Regs<F>)
    requires Runnable(s, g) && s.outMask != 0
    ensures Output(s, v, g).ok && Shape(Output(s, v, g).regs)
  {
  }

  /**
   A slot the decoder accepted fails exactly when it reads a constant relative to an
   address register that takes the index out of c0 - c191.
   */
  lemma FailsExactly<F>(ops: Ops<F>, s: Slot, g: Regs<F>)
    requires Runnable(s, g)
    ensures Exec(ops, s, g).ok <==> !Trips(ops, s, g)
    ensures Shape(Exec(ops, s, g).regs)
  {
    hide MacResult, WriteOutput, Output, Writes, ReadSource;
    if s.mac != MAC_NOP {
      MacFailsExactly(ops, s, g);
    }
    var mac := if s.mac == MAC_NOP then Ok(ZeroVec(ops)) else MacResult(ops, s, g);
    if mac.Ok? {
      var g1 := if s.mac == MAC_NOP then g else AfterMac(ops, s, g, mac.value);
      if s.ilu != ILU_NOP {
        ReadFailsExactly(ops, s, s.c, g1, IluScalar(s.ilu));
      }
      if s.outMask != 0 {
        var c := if s.ilu == ILU_NOP then Ok(ZeroVec(ops)) else ReadSource(ops, s, s.c, g1, IluScalar(s.ilu));
        if c.Ok? {
          var ilu := if s.ilu == ILU_NOP then c.value else IluCompute(ops, s.ilu, c.value);
          var g2 := Writes(s, g1, mac.value, ilu);
          OutputNeverFails(s, ilu, g2);
          OutputNeverFails(s, mac.value, g2);
        }
      }
    }
  }

  /** Only relative addressing can take an accepted slot out of range. */
  lemma TripsAreRelative<F>(ops: Ops<F>, s: Slot, g: Regs<F>)
    requires Runnable(s, g) && Trips(ops, s, g)
    ensures s.a0Relative
  {
  }

  /** ADD does not look at operand A: the sum is formed with zeros in its place. */
  lemma AddIgnoresOperandA<F>(ops: Ops<F>, s: Slot, a: Source, g: Regs<F>)
    requires Runnable(s, g) && s.mac == MAC_ADD && SourceInRange(a)
    ensures Runnable(s.(a := a), g) && MacResult(ops, s.(a := a), g) == MacResult(ops, s, g)
    ensures MacResult(ops, s, g).Ok? ==>
      MacResult(ops, s, g).value == Each(ops.add, ZeroVec(ops), ReadSource(ops, s, s.c, g, false).value)
  {
  }

  // ---------------------------------------------------------------------
  // What a slot may change

  predicate ReservedOutput(i: int) {
    i == 1 || i == 2 || 13 <= i <= 15
  }

  /**
   Inputs and reserved outputs are never written, the address register only by ARL,
   constants only by an output write.
   */
  ghost predicate Framed<F>(s: Slot, g: Regs<F>, g': Regs<F>)
    requires Shape(g)
  {
    && Shape(g') && g'.v == g.v
    && (s.mac != MAC_ARL ==> g'.a0 == g.a0)
    && (forall i :: 0 <= i < 16 && ReservedOutput(i) ==> g'.o[i] == g.o[i])
    && (forall i :: 0 <= i < 192 && !(s.outMask != 0 && !s.outRegister && s.outAddress == i) ==> g'.c[i] == g.c[i])
  }

  lemma WritesFramed<F>(s: Slot, g: Regs<F>, mac: Vec<F>, ilu: Vec<F>)
    requires Runnable(s, g)
    ensures var g' := Writes(s, g, mac, ilu);
            g'.v == g.v && g'.c == g.c && g'.a0 == g.a0 && forall i :: 0 < i < 16 ==> g'.o[i] == g.o[i]
  {
  }

  lemma OutputFramed<F>(s: Slot, v: Vec<F>, g: Regs<F>)
    requires Runnable(s, g) && s.outMask != 0
    ensures var g' := Output(s, v, g).regs;
            g'.v == g.v && g'.a0 == g.a0 && g'.r == g.r && Framed(s, g, g')
  {
  }

  lemma ExecIsFramed<F>(ops: Ops<F>, s: Slot, g: Regs<F>)
    requires Runnable(s, g)
    ensures Framed(s, g, Exec(ops, s, g).regs)
  {
    hide MacResult, WriteOutput, Output, Writes, ReadSource;
    var mac := if s.mac == MAC_NOP then Ok(ZeroVec(ops)) else MacResult(ops, s, g);
    if mac.Ok? {
      var g1 := if s.mac == MAC_NOP then g else AfterMac(ops, s, g, mac.value);
      var c := if s.ilu == ILU_NOP then Ok(ZeroVec(ops)) else ReadSource(ops, s, s.c, g1, IluScalar(s.ilu));
      if c.Ok? {
        var ilu := if s.ilu == ILU_NOP then c.value else IluCompute(ops, s.ilu, c.value);
        var g2 := Writes(s, g1, mac.value, ilu);
        WritesFramed(s, g1, mac.value, ilu);
        if s.outMask != 0 {
          OutputFramed(s, ilu, g2);
          OutputFramed(s, mac.value, g2);
        }
      }
    }
  }

  /** A paired ILU owns R1: the MAC result of the same slot cannot reach it. */
  lemma PairedIluOwnsR1<F>(s: Slot, g: Regs<F>, mac: Vec<F>, mac': Vec<F>, ilu: Vec<F>)
    requires Runnable(s, g) && s.mac != MAC_NOP && s.ilu != ILU_NOP
    ensures Writes(s, g, mac, ilu).r[1] == Writes(s, g, mac', ilu).r[1]
    ensures Writes(s, g, mac, ilu).r[1] == if s.iluMask != 0 then Masked(g.r[1], ilu, s.iluMask) else g.r[1]
  {
  }

  // ---------------------------------------------------------------------
  // Whole programs

  function Run<F>(ops: Ops<F>, slots: seq<Slot>, g: Regs<F>): (r: Outcome<F>)
    requires Shape(g) && forall i :: 0 <= i < |slots| ==> Valid(slots[i])
    ensures Shape(r.regs)
  {
    if slots == [] then Outcome(true, g)
    else
      FailsExactly(ops, slots[0], g);
      var r := Exec(ops, slots[0], g);
      if r.ok then Run(ops, slots[1..], r.regs) else r
  }

  /** The run gets as far as slot k, and slot k reads a constant out of range in the registers it finds. */
  ghost predicate TripsAt<F>(ops: Ops<F>, slots: seq<Slot>, g: Regs<F>, k: nat)
    requires Shape(g) && forall i :: 0 <= i < |slots| ==> Valid(slots[i])
  {
    k < |slots| && Run(ops, slots[..k], g).ok && Trips(ops, slots[k], Run(ops, slots[..k], g).regs)
  }

  /** Slot k + 1 of a program is slot k of the rest, once the first slot has run. */
  lemma TripsLater<F>(ops: Ops<F>, slots: seq<Slot>, g: Regs<F>, k: nat)
    requires Shape(g) && slots != [] && forall i :: 0 <= i < |slots| ==> Valid(slots[i])
    requires Exec(ops, slots[0], g).ok && Shape(Exec(ops, slots[0], g).regs) && k < |slots| - 1
    ensures TripsAt(ops, slots, g, k + 1) <==> TripsAt(ops, slots[1..], Exec(ops, slots[0], g).regs, k)
  {
    hide Exec, Valid;
    assert slots[..k + 1][1..] == slots[1..][..k];
  }

  /**
   A program of accepted slots fails exactly when it reaches a slot that reads a constant
   out of range there and then; the inputs are never changed.
   */
  lemma {:induction false} RunFailsExactly<F>(ops: Ops<F>, slots: seq<Slot>, g: Regs<F>)
    requires Shape(g) && forall i :: 0 <= i < |slots| ==> Valid(slots[i])
    ensures !Run(ops, slots, g).ok <==> exists k :: TripsAt(ops, slots, g, k)
    ensures Run(ops, slots, g).regs.v == g.v
  {
    hide Exec, Valid, Trips;
    if slots != [] {
      FailsExactly(ops, slots[0], g);
      ExecIsFramed(ops, slots[0], g);
      var r := Exec(ops, slots[0], g);
      assert slots[..0] == [];
      if r.ok {
        RunFailsExactly(ops, slots[1..], r.regs);
        if k: nat :| TripsAt(ops, slots[1..], r.regs, k) {
          TripsLater(ops, slots, g, k);
        }
        if k: nat :| TripsAt(ops, slots, g, k) {
          if k > 0 {
            TripsLater(ops, slots, g, k - 1);
          }
        }
      } else {
        assert TripsAt(ops, slots, g, 0);
      }
    }
  }

  lemma AcceptedProgramIsSafe<F>(ops: Ops<F>, words: seq<nat>, count: nat, g: Regs<F>)
    requires 4 * Limit(count) <= |words| && DecodeFrom(words, count, 0, []).Ok? && Shape(g)
    ensures WellFormed(DecodeFrom(words, count, 0, []).value)
    ensures var slots := DecodeFrom(words, count, 0, []).value;
      && (!Run(ops, slots, g).ok <==> exists k :: TripsAt(ops, slots, g, k))
      && (forall k: nat :: TripsAt(ops, slots, g, k) ==> slots[k].a0Relative)
  {
    hide DecodeFrom, Exec, Trips, Valid, Run;
    AcceptedIsWellFormed(words, count);
    var slots := DecodeFrom(words, count, 0, []).value;
    RunFailsExactly(ops, slots, g);
    forall k: nat | TripsAt(ops, slots, g, k) ensures slots[k].a0Relative {
      TripsAreRelative(ops, slots[k], Run(ops, slots[..k], g).regs);
    }
  }
}
