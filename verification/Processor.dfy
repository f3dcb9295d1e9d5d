/** The processor and memory objects, updated in place; every method is specified by the value functions. */
module Processor {
  import opened MemoryMap
  import opened Cpu

  class FlatMemoryBus {
    const data: array<byte>

    ghost predicate Valid() { data.Length == SIZE }

    ghost function Model(): Bytes
      requires Valid()
      reads data
    {
      data[..]
    }

    constructor ()
      ensures Valid() && fresh(data) && forall i :: 0 <= i < SIZE ==> data[i] == 0
    {
      data := new byte[SIZE](_ => 0);
    }

    method Read8(addr: u32) returns (v: u32, ok: bool)
      requires Valid()
      ensures ok == Accessible(addr, 1) && (ok ==> v == Model()[Flat(addr)])
    {
      if !Mapped(addr) { return 0, false; }
      v, ok := data[Flat(addr)], true;
    }

    method Read16(addr: u32) returns (v: u32, ok: bool)
      requires Valid()
      ensures ok == Accessible(addr, 2) && (ok ==> v == Half(Model(), Flat(addr)))
    {
      if !Mapped(addr) || Flat(addr) + 2 > SIZE { return 0, false; }
      var flat := Flat(addr);
      v, ok := Assemble(data[flat], data[flat + 1], 0, 0), true;
    }

    method Read32(addr: u32) returns (v: u32, ok: bool)
      requires Valid()
      ensures ok == Accessible(addr, 4) && (ok ==> v == Word(Model(), Flat(addr)))
    {
      if !Mapped(addr) || Flat(addr) + 4 > SIZE { return 0, false; }
      var flat := Flat(addr);
      v, ok := Assemble(data[flat], data[flat + 1], data[flat + 2], data[flat + 3]), true;
    }

    method Write8(addr: u32, v: byte) returns (ok: bool)
      requires Valid()
      modifies data
      ensures ok == Accessible(addr, 1)
      ensures Model() == if ok then PutByte(old(Model()), Flat(addr), v) else old(Model())
    {
      if !Mapped(addr) { return false; }
      data[Flat(addr)] := v;
      ok := true;
    }

    method Write16(addr: u32, v: u32) returns (ok: bool)
      requires Valid() && v < 0x1_0000
      modifies data
      ensures ok == Accessible(addr, 2)
      ensures Model() == if ok then PutHalf(old(Model()), Flat(addr), v) else old(Model())
    {
      if !Mapped(addr) || Flat(addr) + 2 > SIZE { return false; }
      var flat := Flat(addr);
      data[flat] := v % 0x100;
      data[flat + 1] := v / 0x100;
      ok := true;
    }

    method Write32(addr: u32, v: u32) returns (ok: bool)
      requires Valid()
      modifies data
      ensures ok == Accessible(addr, 4)
      ensures Model() == if ok then PutWord(old(Model()), Flat(addr), v) else old(Model())
    {
      if !Mapped(addr) || Flat(addr) + 4 > SIZE { return false; }
      var flat, v1 := Flat(addr), v / 0x100;
      var v2 := v1 / 0x100;
      data[flat] := v % 0x100;
      data[flat + 1] := v1 % 0x100;
      data[flat + 2] := v2 % 0x100;
      data[flat + 3] := v2 / 0x100;
      ok := true;
    }

    /** Copies a block; a block that does not fit is refused as a whole. */
    method Load(addr: u32, src: seq<byte>) returns (ok: bool)
      requires Valid()
      modifies data
      ensures ok == Accessible(addr, |src|)
      ensures Model() == if ok then Store(old(Model()), Flat(addr), src) else old(Model())
    {
      if !Mapped(addr) || Flat(addr) + |src| > SIZE { return false; }
      var flat := Flat(addr);
      for i := 0 to |src|
        invariant forall k :: 0 <= k < SIZE ==> data[k] == if flat <= k < flat + i then src[k - flat] else old(data[k])
      {
        data[flat + i] := src[i];
      }
      assert data[..] == Store(old(data[..]), flat, src);
      ok := true;
    }
  }

  class CortexM0 {
    const bus: FlatMemoryBus
    const regs: array<u32>
    var flags: Flags
    var cycles: nat
    var halted: bool
    var blOffset: u32
    var fault: Fault

    ghost predicate Valid() { bus.Valid() && regs.Length == 16 && regs as object != bus.data }

    ghost function Model(): State
      requires Valid()
      reads this, regs, bus.data
    {
      State(regs[..], flags, cycles, halted, blOffset, bus.Model(), fault)
    }

    constructor (b: FlatMemoryBus)
      requires b.Valid()
      ensures Valid() && bus == b && fresh(regs) && Model() == Cpu.Reset(b.Model())
    {
      bus := b;
      regs := new u32[16](i => if i == SP then 0x2000 else 0);
      flags, cycles, halted, blOffset, fault := Flags(false, false, false, false), 0, false, 0, NoFault;
      new;
      assert regs[..] == seq(16, _ => 0)[SP := 0x2000];
    }

    method Reset()
      requires Valid()
      modifies this, regs
      ensures Model() == Cpu.Reset(bus.Model())
      ensures regs[SP] == 0x2000 && forall r :: 0 <= r < 16 && r != SP ==> regs[r] == 0
      ensures cycles == 0 && blOffset == 0 && !halted && flags == Flags(false, false, false, false)
      ensures bus.Model() == old(bus.Model())
    {
      for i := 0 to 16
        invariant forall j :: 0 <= j < i ==> regs[j] == 0
      {
        regs[i] := 0;
      }
      regs[SP] := 0x2000;
      flags, cycles, halted, blOffset, fault := Flags(false, false, false, false), 0, false, 0, NoFault;
      assert regs[..] == seq(16, _ => 0)[SP := 0x2000];
    }

    method SetPC(v: u32)
      requires Valid()
      modifies regs
      ensures Model() == Cpu.SetPC(old(Model()), v)
    {
      regs[PC] := ClearBit0(v);
    }

    method LoadInto(rd: nat, addr: u32, size: nat)
      requires Valid() && rd < 16 && (size == 1 || size == 2 || size == 4)
      modifies this`fault, regs
      ensures Model() == if size == 1 then Load8(old(Model()), rd, addr)
                         else if size == 2 then Load16(old(Model()), rd, addr) else Load32(old(Model()), rd, addr)
    {
      var v: u32, ok;
      if size == 1 { v, ok := bus.Read8(addr); }
      else if size == 2 { v, ok := bus.Read16(addr); }
      else { v, ok := bus.Read32(addr); }
      if ok { regs[rd] := v; } else { fault := BusFault(addr); }
    }

    method StoreFrom(addr: u32, v: u32, size: nat)
      requires Valid() && (size == 1 || size == 2 || size == 4)
      modifies this`fault, bus.data
      ensures Model() == if size == 1 then Store8(old(Model()), addr, v)
                         else if size == 2 then Store16(old(Model()), addr, v) else Store32(old(Model()), addr, v)
    {
      var ok;
      if size == 1 { ok := bus.Write8(addr, v % 0x100); }
      else if size == 2 { ok := bus.Write16(addr, v % 0x1_0000); }
      else { ok := bus.Write32(addr, v); }
      if !ok { fault := BusFault(addr); }
    }

    method ExecShiftImm(instr: Instr)
      requires Valid()
      modifies this`flags, regs
      ensures Model() == Cpu.ExecShiftImm(old(Model()), instr)
    {
      var (res, carry) := ShiftImm(Field(instr, 11, 2), regs[Field(instr, 3, 3)], Field(instr, 6, 5), flags.c);
      flags := Flags(Negative(res), res == 0, carry, flags.v);
      regs[Field(instr, 0, 3)] := res;
    }

    method ExecAddSub(instr: Instr)
      requires Valid()
      modifies this`flags, regs
      ensures Model() == Cpu.ExecAddSub(old(Model()), instr)
    {
      var a := regs[Field(instr, 3, 3)];
      var b: u32 := Field(instr, 6, 3);
      if !Bit(instr, 10) { b := regs[Field(instr, 6, 3)]; }
      var (res, carry) := if Bit(instr, 9) then Sub32(a, b) else Add32(a, b, false);
      var v := if Bit(instr, 9) then Negative(a) != Negative(b) && Negative(a) != Negative(res)
               else Negative(a) != Negative(res) && Negative(b) != Negative(res);
      flags := Flags(Negative(res), res == 0, carry, v);
      regs[Field(instr, 0, 3)] := res;
    }

    method ExecImm8(instr: Instr)
      requires Valid()
      modifies this`flags, regs
      ensures Model() == Cpu.ExecImm8(old(Model()), instr)
    {
      var op, rd := Field(instr, 11, 2), Field(instr, 8, 3);
      var imm: u32 := Field(instr, 0, 8);
      var a := regs[rd];
      if op == 0 {
        flags := UpdateNZ(flags, imm);
        regs[rd] := imm;
      } else if op == 2 {
        flags := AddFlags(a, imm, Add32(a, imm, false));
        regs[rd] := Add32(a, imm, false).0;
      } else {
        flags := SubFlags(a, imm, Sub32(a, imm));
        if op != 1 { regs[rd] := Sub32(a, imm).0; }
      }
    }

    method ExecAluShift(op: nat, rd: nat, a: u32, b: u32)
      requires Valid() && rd < 8
      modifies this`flags, regs
      ensures Model() == Cpu.ExecAluShift(old(Model()), op, rd, a, b)
    {
      var (res, carry) := ShiftReg(op, a, b, flags.c);
      flags := Flags(Negative(res), res == 0, carry, flags.v);
      regs[rd] := res;
    }

    method ExecAluArith(op: nat, rd: nat, a: u32, b: u32)
      requires Valid() && rd < 8
      modifies this`flags, regs
      ensures Model() == Cpu.ExecAluArith(old(Model()), op, rd, a, b)
    {
      match op
      case 0x5 =>
        var r := Add32(a, b, flags.c);
        flags, regs[rd] := AddFlags(a, b, r), r.0;
      case 0x6 =>
        var r := Add32(a, Not(b), flags.c);
        flags, regs[rd] := AddFlags(a, Not(b), r), r.0;
      case 0x9 =>
        var r := Sub32(0, b);
        flags, regs[rd] := Flags(Negative(r.0), r.0 == 0, r.1, Negative(b) && Negative(r.0)), r.0;
      case 0xA => flags := SubFlags(a, b, Sub32(a, b));
      case 0xB => flags := AddFlags(a, b, Add32(a, b, false));
      case _ =>
    }

    method ExecAlu(instr: Instr)
      requires Valid()
      modifies this`flags, regs
      ensures Model() == Cpu.ExecAlu(old(Model()), instr)
    {
      hide Cpu.ExecAluShift, Cpu.ExecAluArith, And, Or, Xor;
      var op, rd := Field(instr, 6, 4), Field(instr, 0, 3);
      var a, b := regs[rd], regs[Field(instr, 3, 3)];
      if 0x2 <= op <= 0x4 || op == 0x7 { ExecAluShift(op, rd, a, b); return; }
      if op == 0x5 || op == 0x6 || 0x9 <= op <= 0xB { ExecAluArith(op, rd, a, b); return; }
      if op == 0x8 {
        flags := UpdateNZ(flags, And(a, b));
        return;
      }
      var res: u32 := Not(b);
      if op == 0x0 { res := And(a, b); }
      else if op == 0x1 { res := Xor(a, b); }
      else if op == 0xC { res := Or(a, b); }
      else if op == 0xD { res := Product(a, b); }
      else if op == 0xE { res := And(a, Not(b)); }
      flags := UpdateNZ(flags, res);
      regs[rd] := res;
    }

    method ExecHiRegBx(instr: Instr)
      requires Valid()
      modifies this`flags, this`halted, regs
      ensures Model() == Cpu.ExecHiRegBx(old(Model()), instr)
    {
      var op, rs := Field(instr, 8, 2), Field(instr, 3, 4);
      var rd := 8 * Field(instr, 7, 1) + Field(instr, 0, 3);
      var vs, vd := regs[rs], regs[rd];
      if op == 0 {
        regs[rd] := Sum(vd, vs);
      } else if op == 1 {
        flags := SubFlags(vd, vs, Sub32(vd, vs));
      } else if op == 2 {
        regs[rd] := vs;
      } else {
        if Bit(instr, 7) { regs[LR] := SetBit0(regs[PC]); }
        SetPC(vs);
        if vs % 2 == 0 { halted := true; }
      }
    }

    method Transfer(load: bool, asByte: bool, rd: nat, addr: u32)
      requires Valid() && rd < 8
      modifies this`fault, regs, bus.data
      ensures Model() == Cpu.Transfer(old(Model()), load, asByte, rd, addr)
    {
      if load { LoadInto(rd, addr, if asByte then 1 else 4); } else { StoreFrom(addr, regs[rd], if asByte then 1 else 4); }
    }

    /** Formats 6 and 7 and 9 to 11: one load or store. */
    method ExecLoadStore(instr: Instr)
      requires Valid()
      modifies this`fault, regs, bus.data
      ensures instr / 0x800 == 0x09 ==> Model() == ExecLdrPc(old(Model()), instr)
      ensures instr / 0x1000 == 0x5 ==> Model() == ExecLdrStrReg(old(Model()), instr)
      ensures instr / 0x1000 == 0x6 || instr / 0x1000 == 0x7 ==> Model() == ExecLdrStrImm(old(Model()), instr)
      ensures instr / 0x1000 == 0x8 ==> Model() == ExecLdrhStrhImm(old(Model()), instr)
      ensures instr / 0x1000 == 0x9 ==> Model() == ExecLdrStrSp(old(Model()), instr)
    {
      hide Bit, Sum, Load8, Load16, Load32, Store8, Store16, Store32, Cpu.Transfer;
      var top4 := instr / 0x1000;
      if instr / 0x800 == 0x09 {
        LoadInto(Field(instr, 8, 3), Sum(AlignedPC(regs[PC]), 4 * Field(instr, 0, 8)), 4);
      } else if top4 == 0x5 {
        Transfer(Bit(instr, 11), Bit(instr, 10), Field(instr, 0, 3), Sum(regs[Field(instr, 3, 3)], regs[Field(instr, 6, 3)]));
      } else if top4 == 0x6 || top4 == 0x7 {
        var off := if Bit(instr, 12) then Field(instr, 6, 5) else 4 * Field(instr, 6, 5);
        Transfer(Bit(instr, 11), Bit(instr, 12), Field(instr, 0, 3), Sum(regs[Field(instr, 3, 3)], off));
      } else if top4 == 0x8 {
        var rd, addr := Field(instr, 0, 3), Sum(regs[Field(instr, 3, 3)], 2 * Field(instr, 6, 5));
        if Bit(instr, 11) { LoadInto(rd, addr, 2); } else { StoreFrom(addr, regs[rd], 2); }
      } else if top4 == 0x9 {
        var rd, addr := Field(instr, 8, 3), Sum(regs[SP], 4 * Field(instr, 0, 8));
        if Bit(instr, 11) { LoadInto(rd, addr, 4); } else { StoreFrom(addr, regs[rd], 4); }
      }
    }

    method ExecAddSpPc(instr: Instr)
      requires Valid()
      modifies regs
      ensures Model() == Cpu.ExecAddSpPc(old(Model()), instr)
    {
      var base := if Bit(instr, 11) then regs[SP] else AlignedPC(regs[PC]);
      regs[Field(instr, 8, 3)] := Sum(base, 4 * Field(instr, 0, 8));
    }

    method ExecSpOps(instr: Instr)
      requires Valid()
      modifies regs
      ensures Model() == Cpu.ExecSpOps(old(Model()), instr)
    {
      var imm: int := 4 * Field(instr, 0, 7);
      if Bit(instr, 7) { regs[SP] := Sum(regs[SP], -imm); } else { regs[SP] := Sum(regs[SP], imm); }
    }

    method PushWord(v: u32)
      requires Valid()
      modifies this`fault, regs, bus.data
      ensures Model() == Cpu.PushWord(old(Model()), v)
    {
      regs[SP] := Sum(regs[SP], -4);
      StoreFrom(regs[SP], v, 4);
    }

    method PopWord(r: nat)
      requires Valid() && r < 8 && fault == NoFault
      modifies this`fault, regs
      ensures Model() == Cpu.PopWord(old(Model()), r)
    {
      LoadInto(r, regs[SP], 4);
      if fault == NoFault { regs[SP] := Sum(regs[SP], 4); }
    }

    method Push(list: nat, withLR: bool)
      requires Valid() && fault == NoFault
      modifies this`fault, regs, bus.data
      ensures Model() == Cpu.Push(old(Model()), list, withLR)
    {
      hide Bit, Cpu.PushWord;
      if withLR { PushWord(regs[LR]); }
      ghost var start := Model();
      for i := 8 downto 0
        invariant PushList(Model(), list, i) == PushList(start, list, 8)
      {
        if fault != NoFault { return; }
        if Bit(list, i) { PushWord(regs[i]); }
      }
    }

    method Pop(list: nat, withPC: bool)
      requires Valid() && fault == NoFault
      modifies this`fault, this`halted, regs
      ensures Model() == Cpu.Pop(old(Model()), list, withPC)
    {
      hide Bit, Cpu.PopWord, Cpu.PopPC;
      ghost var start := Model();
      for i := 0 to 8
        invariant fault == NoFault && PopList(Model(), list, i) == PopList(start, list, 0)
      {
        if Bit(list, i) {
          PopWord(i);
          if fault != NoFault { return; }
        }
      }
      if withPC { PopPC(); }
    }

    method PopPC()
      requires Valid()
      modifies this`fault, this`halted, regs
      ensures Model() == Cpu.PopPC(old(Model()))
    {
      var target, ok := bus.Read32(regs[SP]);
      if !ok {
        fault := BusFault(regs[SP]);
        return;
      }
      regs[SP] := Sum(regs[SP], 4);
      SetPC(target);
      if target % 2 == 0 { halted := true; }
    }

    method ExecPushPop(instr: Instr)
      requires Valid() && fault == NoFault
      modifies this`fault, this`halted, regs, bus.data
      ensures Model() == Cpu.ExecPushPop(old(Model()), instr)
    {
      hide Field, Bit, Cpu.Push, Cpu.Pop;
      if Bit(instr, 11) { Pop(Field(instr, 0, 8), Bit(instr, 8)); } else { Push(Field(instr, 0, 8), Bit(instr, 8)); }
    }

    method ExecLdmStm(instr: Instr)
      requires Valid() && fault == NoFault
      modifies this`fault, regs, bus.data
      ensures Model() == Cpu.ExecLdmStm(old(Model()), instr)
    {
      hide Bit, Load32, Store32, Sum;
      var load, rb, list := Bit(instr, 11), Field(instr, 8, 3), Field(instr, 0, 8);
      var addr := regs[rb];
      ghost var start := Model();
      for i := 0 to 8
        invariant fault == NoFault
        invariant MultipleFrom(Model(), load, list, i, addr) == MultipleFrom(start, load, list, 0, start.regs[rb])
      {
        if Bit(list, i) {
          if load { LoadInto(i, addr, 4); } else { StoreFrom(addr, regs[i], 4); }
          addr := Sum(addr, 4);
          if fault != NoFault { return; }
        }
      }
      if !Bit(list, rb) || load { regs[rb] := addr; }
    }

    method ExecBranchCond(instr: Instr)
      requires Valid()
      modifies regs
      ensures Model() == Cpu.ExecBranchCond(old(Model()), instr)
    {
      var target := Sum(regs[PC], 2 + 2 * SignExtend(Field(instr, 0, 8), 8));
      if ConditionPasses(flags, Field(instr, 8, 4)) { SetPC(target); }
    }

    method ExecBranch(instr: Instr)
      requires Valid()
      modifies regs
      ensures Model() == Cpu.ExecBranch(old(Model()), instr)
    {
      SetPC(Sum(regs[PC], 2 + 2 * SignExtend(Field(instr, 0, 11), 11)));
    }

    method ExecBlUpper(instr: Instr)
      requires Valid()
      modifies this`blOffset
      ensures Model() == Cpu.ExecBlUpper(old(Model()), instr)
    {
      blOffset := Sum(regs[PC], 2 + 0x1000 * SignExtend(Field(instr, 0, 11), 11));
    }

    method ExecBlLower(instr: Instr)
      requires Valid()
      modifies regs
      ensures Model() == Cpu.ExecBlLower(old(Model()), instr)
    {
      regs[LR] := SetBit0(regs[PC]);
      SetPC(Sum(blOffset, 2 * Field(instr, 0, 11)));
    }

    method Execute(instr: Instr)
      requires Valid() && fault == NoFault
      modifies this`flags, this`halted, this`blOffset, this`fault, regs, bus.data
      ensures Model() == Cpu.Execute(old(Model()), instr)
    {
      hide Cpu.ExecShiftImm, Cpu.ExecAddSub, Cpu.ExecImm8, Cpu.ExecAlu, Cpu.ExecHiRegBx, ExecLdrPc, ExecLdrStrReg,
        ExecLdrStrImm, ExecLdrhStrhImm, ExecLdrStrSp, Cpu.ExecAddSpPc, Cpu.ExecSpOps, Cpu.ExecPushPop, Cpu.ExecLdmStm,
        Cpu.ExecBranchCond, Cpu.ExecBranch, Cpu.ExecBlUpper, Cpu.ExecBlLower, Field, Bit;
      var top5, top4, top6, top8 := instr / 0x800, instr / 0x1000, instr / 0x400, instr / 0x100;
      if top5 <= 0x02 { ExecShiftImm(instr); }
      else if top5 == 0x03 { ExecAddSub(instr); }
      else if top5 <= 0x07 { ExecImm8(instr); }
      else if top6 == 0x10 { ExecAlu(instr); }
      else if top6 == 0x11 { ExecHiRegBx(instr); }
      else if top5 == 0x09 { ExecLoadStore(instr); }
      else if top4 == 0x5 && !Bit(instr, 9) { ExecLoadStore(instr); }
      else if 0x6 <= top4 <= 0x9 { ExecLoadStore(instr); }
      else if top4 == 0xA { ExecAddSpPc(instr); }
      else if top4 == 0xB {
        if top8 == 0xB0 { ExecSpOps(instr); }
        else if top8 != 0xBF && top8 != 0xBE { ExecPushPop(instr); }
      }
      else if top4 == 0xC { ExecLdmStm(instr); }
      else if top4 == 0xD && top8 != 0xDF { ExecBranchCond(instr); }
      else if top5 == 0x1C { ExecBranch(instr); }
      else if top5 == 0x1E { ExecBlUpper(instr); }
      else if top5 == 0x1F { ExecBlLower(instr); }
      else { fault := Undefined(instr); }
    }

    method Step() returns (going: bool)
      requires Valid() && fault == NoFault
      modifies this, regs, bus.data
      ensures Model() == Cpu.Step(old(Model())) && going == Going(Model())
    {
      hide Cpu.Execute;
      if halted { return false; }
      var addr := regs[PC];
      var instr, ok := bus.Read16(addr);
      if !ok {
        fault := BusFault(addr);
        return false;
      }
      regs[PC] := Sum(regs[PC], 2);
      assert Model() == SetReg(old(Model()), PC, Sum(old(regs[PC]), 2));
      Execute(instr);
      if fault == NoFault { cycles := cycles + 1; }
      going := !halted && fault == NoFault;
    }

    /** At most `max` steps; the number counted leaves out the step that halts or faults. */
    method Run(max: nat) returns (steps: nat)
      requires Valid() && fault == NoFault
      modifies this, regs, bus.data
      ensures (Model(), steps) == Cpu.Run(old(Model()), max)
    {
      hide Cpu.Step;
      ghost var start := Model();
      steps := 0;
      while steps < max
        invariant steps <= max && fault == NoFault
        invariant Cpu.Run(start, max) == (Cpu.Run(Model(), max - steps).0, steps + Cpu.Run(Model(), max - steps).1)
        decreases max - steps
      {
        StepWhenStuck(Model());
        var going := Step();
        if !going { return; }
        steps := steps + 1;
      }
    }
  }
}
