/** The processor as a value: what one instruction does to registers, flags and memory. The class
    `Processor.CortexM0` executes the same instructions in place. */
module Cpu {
  import opened MemoryMap

  const SP := 13
  const LR := 14
  const PC := 15

  datatype Flags = Flags(n: bool, z: bool, c: bool, v: bool)

  /** An exception on its way out of the simulator. */
  datatype Fault = NoFault | BusFault(addr: u32) | Undefined(opcode: nat)

  type Registers = r: seq<u32> | |r| == 16 witness seq(16, _ => 0)

  datatype State = State(regs: Registers, flags: Flags, cycles: nat, halted: bool, blOffset: u32,
                         mem: Bytes, fault: Fault)

  type Instr = x: int | 0 <= x < 0x1_0000

  // ---- Bits and words ----

  function Field(x: int, low: nat, width: nat): (f: nat)
    requires 0 <= x
    ensures f < Pow2(width)
  {
    Pow2Positive(low);
    Pow2Positive(width);
    x / Pow2(low) % Pow2(width)
  }

  function Pow2(n: nat): nat { if n == 0 then 1 else 2 * Pow2(n - 1) }

  lemma {:induction false} Pow2Positive(n: nat)
    ensures Pow2(n) > 0
  {
    if n > 0 { Pow2Positive(n - 1); }
  }

  predicate Bit(x: int, i: nat)
    requires 0 <= x
  {
    Field(x, i, 1) == 1
  }

  function Mod32(x: int): u32 { x % TWO32 }

  function Sum(x: int, y: int): u32 { (x + y) % TWO32 }

  function Product(x: int, y: int): u32 { (x * y) % TWO32 }

  predicate Negative(x: u32) { x >= 0x8000_0000 }

  function Signed(x: u32): int { if Negative(x) then x - TWO32 else x }

  function Not(x: u32): u32 { TWO32 - 1 - x }

  /** The `n` low bits of two words combined bit by bit. */
  function Bitwise(f: (bool, bool) -> bool, x: nat, y: nat, n: nat): (r: nat)
    ensures r < Pow2(n)
  {
    if n == 0 then 0
    else (if f(x % 2 == 1, y % 2 == 1) then 1 else 0) + 2 * Bitwise(f, x / 2, y / 2, n - 1)
  }

  lemma Pow2Of32()
    ensures Pow2(31) == 0x8000_0000 && Pow2(32) == TWO32
  {
    assert Pow2(8) == 0x100;
    assert Pow2(16) == 0x1_0000;
    assert Pow2(24) == 0x100_0000;
  }

  function And(x: u32, y: u32): u32 {
    Pow2Of32();
    Bitwise((p, q) => p && q, x, y, 32)
  }

  function Or(x: u32, y: u32): u32 {
    Pow2Of32();
    Bitwise((p, q) => p || q, x, y, 32)
  }

  function Xor(x: u32, y: u32): u32 {
    Pow2Of32();
    Bitwise((p, q) => p != q, x, y, 32)
  }

  function ClearBit0(x: u32): u32 { x - x % 2 }

  function SetBit0(x: u32): u32 { x - x % 2 + 1 }

  /** The field of `width` bits read as a signed number. */
  function SignExtend(x: nat, width: nat): int
    requires width > 0
  {
    if x >= Pow2(width - 1) then x - Pow2(width) else x
  }

  // ---- Adding with carry, and the flags ----

  /** Sum and carry out. */
  function Add32(a: u32, b: u32, carry: bool): (u32, bool) {
    var sum := a + b + if carry then 1 else 0;
    (sum % TWO32, sum >= TWO32)
  }

  function Sub32(a: u32, b: u32): (u32, bool) { Add32(a, Not(b), true) }

  function UpdateNZ(f: Flags, res: u32): Flags { f.(n := Negative(res), z := res == 0) }

  /** Flags after an addition: overflow where both operands have the sign the result does not have. */
  function AddFlags(a: u32, b: u32, r: (u32, bool)): Flags {
    UpdateNZ(Flags(false, false, r.1, Negative(a) != Negative(r.0) && Negative(b) != Negative(r.0)), r.0)
  }

  /** Flags after a subtraction: overflow where the operands differ in sign and the result has not the sign of
      the first. */
  function SubFlags(a: u32, b: u32, r: (u32, bool)): Flags {
    UpdateNZ(Flags(false, false, r.1, Negative(a) != Negative(b) && Negative(a) != Negative(r.0)), r.0)
  }

  function ConditionPasses(f: Flags, cond: nat): bool {
    match cond
    case 0x0 => f.z
    case 0x1 => !f.z
    case 0x2 => f.c
    case 0x3 => !f.c
    case 0x4 => f.n
    case 0x5 => !f.n
    case 0x6 => f.v
    case 0x7 => !f.v
    case 0x8 => f.c && !f.z
    case 0x9 => !f.c || f.z
    case 0xA => f.n == f.v
    case 0xB => f.n != f.v
    case 0xC => !f.z && f.n == f.v
    case 0xD => f.z || f.n != f.v
    case 0xE => true
    case _ => false
  }

  // ---- State updates ----

  function SetReg(s: State, r: nat, v: u32): State
    requires r < 16
  {
    s.(regs := s.regs[r := v])
  }

  function SetPC(s: State, v: u32): State { SetReg(s, PC, ClearBit0(v)) }

  function Trap(s: State, f: Fault): State { s.(fault := f) }

  function Load8(s: State, rd: nat, addr: u32): State
    requires rd < 16
  {
    if Accessible(addr, 1) then SetReg(s, rd, s.mem[Flat(addr)]) else Trap(s, BusFault(addr))
  }

  function Load16(s: State, rd: nat, addr: u32): State
    requires rd < 16
  {
    if Accessible(addr, 2) then SetReg(s, rd, Half(s.mem, Flat(addr))) else Trap(s, BusFault(addr))
  }

  function Load32(s: State, rd: nat, addr: u32): State
    requires rd < 16
  {
    if Accessible(addr, 4) then SetReg(s, rd, Word(s.mem, Flat(addr))) else Trap(s, BusFault(addr))
  }

  function Store8(s: State, addr: u32, v: u32): State {
    if Accessible(addr, 1) then s.(mem := PutByte(s.mem, Flat(addr), v % 0x100)) else Trap(s, BusFault(addr))
  }

  function Store16(s: State, addr: u32, v: u32): State {
    if Accessible(addr, 2) then s.(mem := PutHalf(s.mem, Flat(addr), v % 0x1_0000)) else Trap(s, BusFault(addr))
  }

  function Store32(s: State, addr: u32, v: u32): State {
    if Accessible(addr, 4) then s.(mem := PutWord(s.mem, Flat(addr), v)) else Trap(s, BusFault(addr))
  }

  // ---- Instruction formats ----

  /** Format 1: shift by a constant. Result and carry. */
  function ShiftImm(op: nat, val: u32, imm: nat, carry: bool): (u32, bool)
    requires imm < 32
  {
    Pow2Positive(imm);
    match op
    case 0 =>
      if imm == 0 then (val, carry) else (Mod32(val * Pow2(imm)), Bit(val, 32 - imm))
    case 1 =>
      if imm == 0 then (0, Negative(val)) else (Mod32(val / Pow2(imm)), Bit(val, imm - 1))
    case _ =>
      if imm == 0 then (Mod32(if Negative(val) then -1 else 0), Negative(val))
      else (Mod32(Signed(val) / Pow2(imm)), Bit(val, imm - 1))
  }

  function ExecShiftImm(s: State, instr: Instr): State {
    var rd := Field(instr, 0, 3);
    var (res, carry) := ShiftImm(Field(instr, 11, 2), s.regs[Field(instr, 3, 3)], Field(instr, 6, 5), s.flags.c);
    SetReg(s.(flags := UpdateNZ(s.flags.(c := carry), res)), rd, res)
  }

  /** Format 2: ADD/SUB of a register or a 3-bit constant. */
  function ExecAddSub(s: State, instr: Instr): State {
    var a := s.regs[Field(instr, 3, 3)];
    var b: u32 := if Bit(instr, 10) then Field(instr, 6, 3) else s.regs[Field(instr, 6, 3)];
    var r := if Bit(instr, 9) then Sub32(a, b) else Add32(a, b, false);
    var f := if Bit(instr, 9) then SubFlags(a, b, r) else AddFlags(a, b, r);
    SetReg(s.(flags := f), Field(instr, 0, 3), r.0)
  }

  /** Format 3: MOV/CMP/ADD/SUB with an 8-bit constant. */
  function ExecImm8(s: State, instr: Instr): State {
    var rd := Field(instr, 8, 3);
    var imm: u32 := Field(instr, 0, 8);
    var a := s.regs[rd];
    match Field(instr, 11, 2)
    case 0 => SetReg(s.(flags := UpdateNZ(s.flags, imm)), rd, imm)
    case 1 => s.(flags := SubFlags(a, imm, Sub32(a, imm)))
    case 2 =>
      var r := Add32(a, imm, false);
      SetReg(s.(flags := AddFlags(a, imm, r)), rd, r.0)
    case _ =>
      var r := Sub32(a, imm);
      SetReg(s.(flags := SubFlags(a, imm, r)), rd, r.0)
  }

  /** Shifts by a register: result and carry. */
  function ShiftReg(op: nat, a: u32, b: u32, carry: bool): (u32, bool) {
    var sh := b % 0x100;
    Pow2Positive(sh % 32);
    match op
    case 0x2 =>
      (if sh >= 32 then 0 else Mod32(a * Pow2(sh % 32)),
       if sh == 0 then carry else if sh < 32 then Bit(a, 32 - sh) else sh == 32 && Bit(a, 0))
    case 0x3 =>
      (if sh >= 32 then 0 else Mod32(a / Pow2(sh % 32)),
       if sh == 0 then carry else if sh < 32 then Bit(a, sh - 1) else sh == 32 && Negative(a))
    case 0x4 =>
      (if sh >= 32 then Mod32(if Negative(a) then -1 else 0) else Mod32(Signed(a) / Pow2(sh % 32)),
       if sh == 0 then carry else if sh < 32 then Bit(a, sh - 1) else Negative(a))
    case _ =>
      var rot := sh % 32;
      if sh == 0 then (a, carry)
      else if rot == 0 then (a, Negative(a))
      else (Or(Mod32(a / Pow2(rot)), Mod32(a * Pow2(32 - rot))), Bit(a, rot - 1))
  }

  function ExecAluShift(s: State, op: nat, rd: nat, a: u32, b: u32): State
    requires rd < 8
  {
    var (res, carry) := ShiftReg(op, a, b, s.flags.c);
    SetReg(s.(flags := UpdateNZ(s.flags.(c := carry), res)), rd, res)
  }

  /** ADC, SBC, NEG, CMP and CMN. */
  function ExecAluArith(s: State, op: nat, rd: nat, a: u32, b: u32): State
    requires rd < 8
  {
    match op
    case 0x5 =>
      var r := Add32(a, b, s.flags.c);
      SetReg(s.(flags := AddFlags(a, b, r)), rd, r.0)
    case 0x6 =>
      var r := Add32(a, Not(b), s.flags.c);
      SetReg(s.(flags := AddFlags(a, Not(b), r)), rd, r.0)
    case 0x9 =>
      var r := Sub32(0, b);
      SetReg(s.(flags := UpdateNZ(Flags(false, false, r.1, Negative(b) && Negative(r.0)), r.0)), rd, r.0)
    case 0xA => s.(flags := SubFlags(a, b, Sub32(a, b)))
    case 0xB => s.(flags := AddFlags(a, b, Add32(a, b, false)))
    case _ => s
  }

  /** Format 4: register arithmetic and logic. */
  function ExecAlu(s: State, instr: Instr): State {
    var op, rd := Field(instr, 6, 4), Field(instr, 0, 3);
    var a, b := s.regs[rd], s.regs[Field(instr, 3, 3)];
    if 0x2 <= op <= 0x4 || op == 0x7 then ExecAluShift(s, op, rd, a, b)
    else if op == 0x5 || op == 0x6 || 0x9 <= op <= 0xB then ExecAluArith(s, op, rd, a, b)
    else if op == 0x8 then s.(flags := UpdateNZ(s.flags, And(a, b)))
    else
      var res: u32 :=
        match op
        case 0x0 => And(a, b)
        case 0x1 => Xor(a, b)
        case 0xC => Or(a, b)
        case 0xD => Product(a, b)
        case 0xE => And(a, Not(b))
        case _ => Not(b);
      SetReg(s.(flags := UpdateNZ(s.flags, res)), rd, res)
  }

  /** Format 5: high registers, BX and BLX. A target with bit 0 clear halts the simulator. */
  function ExecHiRegBx(s: State, instr: Instr): State {
    var rs := Field(instr, 3, 4);
    var rd := 8 * Field(instr, 7, 1) + Field(instr, 0, 3);
    var vs, vd := s.regs[rs], s.regs[rd];
    match Field(instr, 8, 2)
    case 0 => SetReg(s, rd, Sum(vd, vs))
    case 1 => s.(flags := SubFlags(vd, vs, Sub32(vd, vs)))
    case 2 => SetReg(s, rd, vs)
    case _ =>
      var s1 := if Bit(instr, 7) then SetReg(s, LR, SetBit0(s.regs[PC])) else s;
      var s2 := SetPC(s1, vs);
      if vs % 2 == 0 then s2.(halted := true) else s2
  }

  /** The word-aligned program counter of the instruction after next. */
  function AlignedPC(pc: u32): u32 {
    var p := Sum(pc, 2);
    p - p % 4
  }

  /** Format 6: load relative to the program counter. */
  function ExecLdrPc(s: State, instr: Instr): State {
    Load32(s, Field(instr, 8, 3), Sum(AlignedPC(s.regs[PC]), 4 * Field(instr, 0, 8)))
  }

  function Transfer(s: State, load: bool, asByte: bool, rd: nat, addr: u32): State
    requires rd < 8
  {
    if load then if asByte then Load8(s, rd, addr) else Load32(s, rd, addr)
    else if asByte then Store8(s, addr, s.regs[rd]) else Store32(s, addr, s.regs[rd])
  }

  /** Format 7: load and store with a register offset. */
  function ExecLdrStrReg(s: State, instr: Instr): State {
    Transfer(s, Bit(instr, 11), Bit(instr, 10), Field(instr, 0, 3),
             Sum(s.regs[Field(instr, 3, 3)], s.regs[Field(instr, 6, 3)]))
  }

  /** Format 9: load and store with a 5-bit offset. */
  function ExecLdrStrImm(s: State, instr: Instr): State {
    var off := if Bit(instr, 12) then Field(instr, 6, 5) else 4 * Field(instr, 6, 5);
    Transfer(s, Bit(instr, 11), Bit(instr, 12), Field(instr, 0, 3), Sum(s.regs[Field(instr, 3, 3)], off))
  }

  /** Format 10: halfwords. */
  function ExecLdrhStrhImm(s: State, instr: Instr): State {
    var rd, addr := Field(instr, 0, 3), Sum(s.regs[Field(instr, 3, 3)], 2 * Field(instr, 6, 5));
    if Bit(instr, 11) then Load16(s, rd, addr) else Store16(s, addr, s.regs[rd])
  }

  /** Format 11: relative to the stack pointer. */
  function ExecLdrStrSp(s: State, instr: Instr): State {
    var rd, addr := Field(instr, 8, 3), Sum(s.regs[SP], 4 * Field(instr, 0, 8));
    if Bit(instr, 11) then Load32(s, rd, addr) else Store32(s, addr, s.regs[rd])
  }

  /** Format 12: address of a stack or program location. */
  function ExecAddSpPc(s: State, instr: Instr): State {
    var base := if Bit(instr, 11) then s.regs[SP] else AlignedPC(s.regs[PC]);
    SetReg(s, Field(instr, 8, 3), Sum(base, 4 * Field(instr, 0, 8)))
  }

  /** Format 13: move the stack pointer. */
  function ExecSpOps(s: State, instr: Instr): State {
    var imm := 4 * Field(instr, 0, 7);
    SetReg(s, SP, Sum(s.regs[SP], if Bit(instr, 7) then -imm else imm))
  }

  /** The stack pointer moves down, then the word is written. */
  function PushWord(s: State, v: u32): State {
    var s1 := SetReg(s, SP, Sum(s.regs[SP], -4));
    Store32(s1, s1.regs[SP], v)
  }

  /** Format 14, PUSH: registers `i - 1` down to 0 of the list. */
  function PushList(s: State, list: nat, i: nat): State
    requires i <= 8
    decreases i
  {
    if i == 0 || s.fault != NoFault then s
    else PushList(if Bit(list, i - 1) then PushWord(s, s.regs[i - 1]) else s, list, i - 1)
  }

  function Push(s: State, list: nat, withLR: bool): State {
    PushList(if withLR then PushWord(s, s.regs[LR]) else s, list, 8)
  }

  function PopWord(s: State, r: nat): State
    requires r < 8
  {
    var s1 := Load32(s, r, s.regs[SP]);
    if s1.fault == NoFault then SetReg(s1, SP, Sum(s.regs[SP], 4)) else s1
  }

  /** Format 14, POP: registers `i` up to 7 of the list. */
  function PopList(s: State, list: nat, i: nat): State
    requires i <= 8
    decreases 8 - i
  {
    if i == 8 || s.fault != NoFault then s
    else PopList(if Bit(list, i) then PopWord(s, i) else s, list, i + 1)
  }

  function PopPC(s: State): State {
    if !Accessible(s.regs[SP], 4) then Trap(s, BusFault(s.regs[SP]))
    else
      var target := Word(s.mem, Flat(s.regs[SP]));
      var s1 := SetPC(SetReg(s, SP, Sum(s.regs[SP], 4)), target);
      if target % 2 == 0 then s1.(halted := true) else s1
  }

  function Pop(s: State, list: nat, withPC: bool): State {
    var s1 := PopList(s, list, 0);
    if withPC && s1.fault == NoFault then PopPC(s1) else s1
  }

  function ExecPushPop(s: State, instr: Instr): State {
    if Bit(instr, 11) then Pop(s, Field(instr, 0, 8), Bit(instr, 8))
    else Push(s, Field(instr, 0, 8), Bit(instr, 8))
  }

  /** Format 15: the registers `i` to 7 of the list, from address `addr` on. */
  function MultipleFrom(s: State, load: bool, list: nat, i: nat, addr: u32): (State, u32)
    requires i <= 8
    decreases 8 - i
  {
    if i == 8 || s.fault != NoFault then (s, addr)
    else if !Bit(list, i) then MultipleFrom(s, load, list, i + 1, addr)
    else
      MultipleFrom(if load then Load32(s, i, addr) else Store32(s, addr, s.regs[i]), load, list, i + 1, Sum(addr, 4))
  }

  function ExecLdmStm(s: State, instr: Instr): State {
    var load, rb, list := Bit(instr, 11), Field(instr, 8, 3), Field(instr, 0, 8);
    var (s1, addr) := MultipleFrom(s, load, list, 0, s.regs[rb]);
    if s1.fault == NoFault && (!Bit(list, rb) || load) then SetReg(s1, rb, addr) else s1
  }

  /** Format 16: conditional branch. */
  function ExecBranchCond(s: State, instr: Instr): State {
    var target := Sum(s.regs[PC], 2 + 2 * SignExtend(Field(instr, 0, 8), 8));
    if ConditionPasses(s.flags, Field(instr, 8, 4)) then SetPC(s, target) else s
  }

  /** Format 18: unconditional branch. */
  function ExecBranch(s: State, instr: Instr): State {
    SetPC(s, Sum(s.regs[PC], 2 + 2 * SignExtend(Field(instr, 0, 11), 11)))
  }

  /** Format 19: the two halves of BL. */
  function ExecBlUpper(s: State, instr: Instr): State {
    s.(blOffset := Sum(s.regs[PC], 2 + 0x1000 * SignExtend(Field(instr, 0, 11), 11)))
  }

  function ExecBlLower(s: State, instr: Instr): State {
    SetPC(SetReg(s, LR, SetBit0(s.regs[PC])), Sum(s.blOffset, 2 * Field(instr, 0, 11)))
  }

  function Execute(s: State, instr: Instr): State {
    var top5, top4, top6, top8 := instr / 0x800, instr / 0x1000, instr / 0x400, instr / 0x100;
    if top5 <= 0x02 then ExecShiftImm(s, instr)
    else if top5 == 0x03 then ExecAddSub(s, instr)
    else if top5 <= 0x07 then ExecImm8(s, instr)
    else if top6 == 0x10 then ExecAlu(s, instr)
    else if top6 == 0x11 then ExecHiRegBx(s, instr)
    else if top5 == 0x09 then ExecLdrPc(s, instr)
    else if top4 == 0x5 && !Bit(instr, 9) then ExecLdrStrReg(s, instr)
    else if top4 == 0x6 || top4 == 0x7 then ExecLdrStrImm(s, instr)
    else if top4 == 0x8 then ExecLdrhStrhImm(s, instr)
    else if top4 == 0x9 then ExecLdrStrSp(s, instr)
    else if top4 == 0xA then ExecAddSpPc(s, instr)
    else if top4 == 0xB then
      if top8 == 0xB0 then ExecSpOps(s, instr)
      else if top8 == 0xBF || top8 == 0xBE then s
      else ExecPushPop(s, instr)
    else if top4 == 0xC then ExecLdmStm(s, instr)
    else if top4 == 0xD && top8 != 0xDF then ExecBranchCond(s, instr)
    else if top5 == 0x1C then ExecBranch(s, instr)
    else if top5 == 0x1E then ExecBlUpper(s, instr)
    else if top5 == 0x1F then ExecBlLower(s, instr)
    else Trap(s, Undefined(instr))
  }

  // ---- Running ----

  predicate Going(s: State) { !s.halted && s.fault == NoFault }

  /** One step; a halted or faulted processor stays as it is. */
  function Step(s: State): State {
    if !Going(s) then s
    else if !Accessible(s.regs[PC], 2) then Trap(s, BusFault(s.regs[PC]))
    else
      var instr := Half(s.mem, Flat(s.regs[PC]));
      var s1 := Execute(SetReg(s, PC, Sum(s.regs[PC], 2)), instr);
      if s1.fault == NoFault then s1.(cycles := s1.cycles + 1) else s1
  }

  lemma StepWhenStuck(s: State)
    ensures !Going(s) ==> Step(s) == s
  {
  }

  /** The loop of `run`: the state reached and the number of steps counted. The step that halts is executed but
      not counted. */
  function Run(s: State, max: nat): (r: (State, nat))
    ensures r.1 <= max
    decreases max
  {
    if max == 0 || !Going(s) then (s, 0)
    else
      var s1 := Step(s);
      if !Going(s1) then (s1, 0)
      else
        var (s2, steps) := Run(s1, max - 1);
        (s2, steps + 1)
  }

  function Reset(mem: Bytes): State {
    State(seq(16, _ => 0)[SP := 0x2000], Flags(false, false, false, false), 0, false, 0, mem, NoFault)
  }
}
