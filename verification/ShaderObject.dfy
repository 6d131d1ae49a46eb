/** vs_execute in the form src/xbox_vs.cpp gives it: register arrays changed in place. */
module ShaderObject {
  import opened ShaderCode
  import opened Shader
  import opened ShaderLaws

  class VsMachine<F> {
    const v: array<Vec<F>>
    const c: array<Vec<F>>
    const r: array<Vec<F>>
    const o: array<Vec<F>>
    var a0: int

    ghost predicate Valid()
    {
      && v.Length == 16 && c.Length == 192 && r.Length == 12 && o.Length == 16
      && v != c && v != r && v != o && c != r && c != o && r != o
    }

    ghost function View(): (g: Regs<F>)
      requires Valid()
      reads this, v, c, r, o
      ensures Shape(g)
    {
      Regs(v[..], c[..], r[..], o[..], a0)
    }

    constructor (g: Regs<F>)
      requires Shape(g)
      ensures Valid() && fresh(v) && fresh(c) && fresh(r) && fresh(o) && View() == g
    {
      v := new Vec<F>[16](i requires 0 <= i < 16 => g.v[i]);
      c := new Vec<F>[192](i requires 0 <= i < 192 => g.c[i]);
      r := new Vec<F>[12](i requires 0 <= i < 12 => g.r[i]);
      o := new Vec<F>[16](i requires 0 <= i < 16 => g.o[i]);
      a0 := g.a0;
    }

    /** read_source: every index is inside its register file, or the read is refused. */
    method Read(ops: Ops<F>, s: Slot, src: Source, scalar: bool) returns (out: Result<Vec<F>>)
      requires Valid() && s.inputIndex < 16 && (src.file == FILE_R ==> src.reg <= 12)
      ensures out == ReadSource(ops, s, src, View(), scalar)
      ensures src.file == FILE_R ==>
        out.Ok? && IsOperand(ops, src, scalar, if src.reg == 12 then o[0] else r[src.reg], out.value)
      ensures src.file == FILE_V ==> out.Ok? && IsOperand(ops, src, scalar, v[s.inputIndex], out.value)
      ensures src.file == FILE_C ==>
        var index := if s.a0Relative then s.constIndex + a0 else s.constIndex;
        (out.Ok? <==> 0 <= index < 192) && (out.Ok? ==> IsOperand(ops, src, scalar, c[index], out.value))
      ensures src.file != FILE_R && src.file != FILE_V && src.file != FILE_C ==> out.Err?
    {
      var base: Vec<F>;
      if src.file == FILE_R {
        base := if src.reg == 12 then o[0] else r[src.reg];
      } else if src.file == FILE_V {
        base := v[s.inputIndex];
      } else if src.file == FILE_C {
        var index: int := s.constIndex;
        if s.a0Relative {
          index := index + a0;
        }
        if index < 0 || index > 191 {
          return Err("relative constant index out of range");
        }
        base := c[index];
      } else {
        return Err("source operand has no register file");
      }
      var value := Swizzle(base, src, scalar);
      if src.negate {
        value := Negated(ops, value);
      }
      return Ok(value);
    }

    method PutTemp(reg: nat, value: Vec<F>, mask: nat)
      requires Valid() && reg <= 12
      modifies r, o
      ensures View() == WriteTemp(old(View()), reg, value, mask)
      ensures reg == 12 ==> IsMasked(old(o[0]), value, mask, o[0]) && r[..] == old(r[..]) && o[1..] == old(o[1..])
      ensures reg < 12 ==>
        && IsMasked(old(r[reg]), value, mask, r[reg]) && o[..] == old(o[..])
        && r[..reg] == old(r[..reg]) && r[reg + 1..] == old(r[reg + 1..])
    {
      MaskLaw(if reg == 12 then o[0] else r[reg], value, mask);
      if reg == 12 {
        o[0] := Masked(o[0], value, mask);
      } else {
        r[reg] := Masked(r[reg], value, mask);
      }
    }

    method PutOutput(s: Slot, value: Vec<F>) returns (ok: bool)
      requires Valid()
      modifies c, o
      ensures Outcome(ok, View()) == Output(s, value, old(View()))
      ensures ok <==>
        if s.outRegister then s.outAddress % 16 == 0 || 3 <= s.outAddress % 16 <= 12 else s.outAddress < 192
      ensures !ok ==> View() == old(View())
      ensures ok && !s.outRegister ==>
        && IsMasked(old(c[s.outAddress]), value, s.outMask, c[s.outAddress]) && o[..] == old(o[..])
        && c[..s.outAddress] == old(c[..s.outAddress]) && c[s.outAddress + 1..] == old(c[s.outAddress + 1..])
      ensures ok && s.outRegister ==>
        var i := s.outAddress % 16;
        IsMasked(old(o[i]), value, s.outMask, o[i]) && c[..] == old(c[..])
        && o[..i] == old(o[..i]) && o[i + 1..] == old(o[i + 1..])
    {
      MaskLaw(if !s.outRegister && s.outAddress < 192 then c[s.outAddress] else o[s.outAddress % 16], value, s.outMask);
      if !s.outRegister {
        if s.outAddress > 191 {
          return false;
        }
        c[s.outAddress] := Masked(c[s.outAddress], value, s.outMask);
      } else {
        var index := s.outAddress % 16;
        if !ValidOutput(index) {
          return false;
        }
        o[index] := Masked(o[index], value, s.outMask);
      }
      return true;
    }

    /** The MAC unit's operands and result; ARL loads the address register at once. */
    method Mac(ops: Ops<F>, s: Slot) returns (ok: bool, result: Vec<F>)
      requires Valid() && Runnable(s, View()) && s.mac != MAC_NOP
      modifies this
      ensures ok <==> MacResult(ops, s, old(View())).Ok?
      ensures ok ==> result == MacResult(ops, s, old(View())).value && View() == AfterMac(ops, s, old(View()), result)
      ensures !ok ==> View() == old(View())
    {
      result := ZeroVec(ops);
      var a, b, d := Ok(ZeroVec(ops)), Ok(ZeroVec(ops)), Ok(ZeroVec(ops));
      if MacUsesA(s.mac) {
        a := Read(ops, s, s.a, false);
        if a.Err? {
          return false, result;
        }
      }
      if MacUsesB(s.mac) {
        b := Read(ops, s, s.b, false);
        if b.Err? {
          return false, result;
        }
      }
      if MacUsesC(s.mac) {
        d := Read(ops, s, s.c, false);
        if d.Err? {
          return false, result;
        }
      }
      if s.mac == MAC_ARL {
        a0 := ops.address(a.value.x);
        result := a.value;
      } else {
        result := MacCompute(ops, s.mac, a.value, b.value, d.value);
      }
      return true, result;
    }

    /** The temporary writes of a slot, in order. */
    method WriteBack(s: Slot, mac: Vec<F>, ilu: Vec<F>)
      requires Valid() && Runnable(s, View())
      modifies r, o
      ensures View() == Writes(s, old(View()), mac, ilu)
    {
      var hasMac, hasIlu := s.mac != MAC_NOP, s.ilu != ILU_NOP;
      if hasMac {
        var suppressed := hasIlu && s.tempReg == 1;
        if !suppressed && s.macMask != 0 {
          PutTemp(s.tempReg, mac, s.macMask);
        }
      }
      if hasIlu && s.iluMask != 0 {
        PutTemp(if hasMac then 1 else s.tempReg, ilu, s.iluMask);
      }
    }

    /** One slot. */
    method Step(ops: Ops<F>, s: Slot) returns (ok: bool)
      requires Valid() && Runnable(s, View())
      modifies this, c, r, o
      ensures Outcome(ok, View()) == Exec(ops, s, old(View()))
    {
      hide MacResult, Output, Writes, ReadSource;
      var mac, ilu := ZeroVec(ops), ZeroVec(ops);
      if s.mac != MAC_NOP {
        ok, mac := Mac(ops, s);
        if !ok {
          return;
        }
      }
      if s.ilu != ILU_NOP {
        var operand := Read(ops, s, s.c, IluScalar(s.ilu));
        if operand.Err? {
          return false;
        }
        ilu := IluCompute(ops, s.ilu, operand.value);
      }
      WriteBack(s, mac, ilu);
      if s.outMask != 0 {
        if s.outFromIlu && s.ilu != ILU_NOP {
          ok := PutOutput(s, ilu);
          return;
        } else if !s.outFromIlu && s.mac != MAC_NOP {
          ok := PutOutput(s, mac);
          return;
        }
      }
      return true;
    }

    /** vs_execute on an accepted program. */
    method Execute(ops: Ops<F>, slots: seq<Slot>) returns (ok: bool)
      requires Valid() && forall i :: 0 <= i < |slots| ==> ShaderCode.Valid(slots[i])
      modifies this, c, r, o
      ensures Outcome(ok, View()) == Run(ops, slots, old(View()))
    {
      hide Exec, ShaderCode.Valid;
      var i := 0;
      while i < |slots|
        invariant 0 <= i <= |slots|
        invariant Run(ops, slots[i..], View()) == Run(ops, slots, old(View()))
      {
        FailsExactly(ops, slots[i], View());
        assert slots[i..][1..] == slots[i + 1..];
        ok := Step(ops, slots[i]);
        if !ok {
          return;
        }
        i := i + 1;
      }
      return true;
    }
  }
}
