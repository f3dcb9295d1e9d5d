/** What every instruction does, told by its encoding and its result: a fetched opcode with its fields spelled out,
    and the registers, flags and memory after the step. Words are described by their bits, by integer arithmetic
    modulo 2^32, and in memory byte by byte. */
module Instructions {
  import opened MemoryMap
  import opened Cpu
  import opened Bits

  // ---- Fetching ----

  /** Where an address lies in memory: the low 64 KB directly, and 16 KB from 0x20000000 on at index 0x8000. */
  function IndexOf(addr: u32): int {
    if addr < 0x1_0000 then addr
    else if 0x2000_0000 <= addr < 0x2000_4000 then 0x8000 + (addr - 0x2000_0000)
    else -1
  }

  /** `n` bytes from the address on can be accessed. */
  predicate Reaches(addr: u32, n: nat) { 0 <= IndexOf(addr) <= 0x1_0000 - n }

  lemma ReachesIsAccessible(addr: u32, n: nat)
    ensures Reaches(addr, n) <==> Accessible(addr, n)
    ensures Reaches(addr, n) ==> Flat(addr) == IndexOf(addr)
  {
  }

  function Peek(m: Bytes, i: int): int { if 0 <= i < SIZE then m[i] else 0 }

  /** The processor is going and the two bytes at its program counter are the opcode, low byte first. */
  predicate Fetched(s: State, instr: Instr) {
    && !s.halted && s.fault == NoFault && Reaches(s.regs[15], 2)
    && Peek(s.mem, IndexOf(s.regs[15])) + 0x100 * Peek(s.mem, IndexOf(s.regs[15]) + 1) == instr
  }

  /** The program counter has moved behind the opcode. */
  function Ahead(s: State): State { s.(regs := s.regs[15 := (s.regs[15] + 2) % TWO32]) }

  lemma StepExecutes(s: State, instr: Instr)
    requires Fetched(s, instr)
    ensures var s1 := Execute(Ahead(s), instr);
            Step(s) == if s1.fault == NoFault then s1.(cycles := s1.cycles + 1) else s1
  {
    hide Execute;
    ReachesIsAccessible(s.regs[15], 2);
  }

  /** Where no opcode can be fetched, the step ends the run with a fault at the program counter, and without a cycle. */
  lemma FetchFaults(s: State)
    requires !s.halted && s.fault == NoFault && !Reaches(s.regs[15], 2)
    ensures Step(s) == s.(fault := BusFault(s.regs[15]))
  {
    ReachesIsAccessible(s.regs[15], 2);
  }

  /** A step that sets one register and the flags. */
  predicate Sets(s: State, s1: State, rd: nat, v: u32, f: Flags)
    requires rd < 16
  {
    s1 == s.(regs := Ahead(s).regs[rd := v], flags := f, cycles := s.cycles + 1)
  }

  /** A step that only sets the flags. */
  predicate SetsFlags(s: State, s1: State, f: Flags) {
    s1 == s.(regs := Ahead(s).regs, flags := f, cycles := s.cycles + 1)
  }

  // ---- Shifts ----

  datatype Shift = LSL | LSR | ASR | ROR

  /** Bit `j` of `a` shifted by `n`. */
  predicate ShiftedBit(k: Shift, a: u32, n: nat, j: nat) {
    match k
    case LSL => j >= n && On(a, j - n)
    case LSR => j + n < 32 && On(a, j + n)
    case ASR => On(a, if j + n < 32 then j + n else 31)
    case ROR => On(a, (j + n) % 32)
  }

  /** The carry is the last bit shifted out; a shift by 0 leaves it. */
  predicate ShiftCarry(k: Shift, a: u32, n: nat, c: bool) {
    if n == 0 then c
    else
      match k
      case LSL => n <= 32 && On(a, 32 - n)
      case LSR => n <= 32 && On(a, n - 1)
      case ASR => On(a, if n <= 32 then n - 1 else 31)
      case ROR => On(a, (n - 1) % 32)
  }

  ghost predicate Shifted(k: Shift, a: u32, n: nat, c: bool, r: (u32, bool)) {
    && (forall j: nat :: j < 32 ==> On(r.0, j) == ShiftedBit(k, a, n, j))
    && r.1 == ShiftCarry(k, a, n, c)
  }

  lemma Leftwards(a: u32, n: nat)
    requires n < 32
    ensures forall j: nat :: j < 32 ==> On(Mod32(a * Pow2(n)), j) == ShiftedBit(LSL, a, n, j)
  {
    forall j: nat | j < 32
      ensures On(Mod32(a * Pow2(n)), j) == ShiftedBit(LSL, a, n, j)
    {
      OnLeft(a, n, j);
    }
  }

  lemma Rightwards(a: u32, n: nat)
    ensures Pow2(n) > 0
    ensures forall j: nat :: j < 32 ==> On(Mod32(a / Pow2(n)), j) == ShiftedBit(LSR, a, n, j)
    ensures forall j: nat :: j < 32 ==> On(Mod32(Signed(a) / Pow2(n)), j) == ShiftedBit(ASR, a, n, j)
  {
    Pow2Positive(n);
    forall j: nat | j < 32
      ensures On(Mod32(a / Pow2(n)), j) == ShiftedBit(LSR, a, n, j)
      ensures On(Mod32(Signed(a) / Pow2(n)), j) == ShiftedBit(ASR, a, n, j)
    {
      OnRight(a, n, j);
      OnSignedRight(a, n, j);
    }
  }

  lemma AllOrNothing()
    ensures Mod32(0) == 0 && forall j: nat :: j < 32 ==> !On(0, j)
    ensures forall j: nat :: j < 32 ==> On(Mod32(-1), j)
  {
    forall j: nat | j < 32
      ensures !On(0, j) && On(Mod32(-1), j)
    {
      OnHigh(0, 0, j);
      OnNot(0, j);
    }
  }

  lemma ShiftByConstantIs(op: nat, a: u32, imm: nat, c: bool)
    requires op < 3 && imm < 32
    ensures var k := if op == 0 then LSL else if op == 1 then LSR else ASR;
            Shifted(k, a, if op > 0 && imm == 0 then 32 else imm, c, ShiftImm(op, a, imm, c))
  {
    hide Bit, On, Mod32;
    assert Pow2(0) == 1;
    Leftwards(a, imm);
    Rightwards(a, imm);
    AllOrNothing();
    OnTop(a);
    BitIsOn(a, if op == 0 then 32 - imm else if imm > 0 then imm - 1 else 0);
    if imm == 0 { Unshifted(a); }
  }

  lemma Unshifted(a: u32)
    ensures Mod32(a * Pow2(0)) == a && Mod32(a / Pow2(0)) == a && Mod32(Signed(a) / Pow2(0)) == a
  {
    assert Pow2(0) == 1;
  }

  lemma ShiftByRegisterIs(k: Shift, a: u32, b: u32, c: bool)
    requires k != ROR
    ensures var op := if k == LSL then 2 else if k == LSR then 3 else 4;
            Shifted(k, a, b % 0x100, c, ShiftReg(op, a, b, c))
  {
    hide ShiftReg, Shifted;
    if b % 0x100 >= 32 { FarShift(k, a, b, c); } else { NearShift(k, a, b, c); }
  }

  lemma FarShift(k: Shift, a: u32, b: u32, c: bool)
    requires k != ROR && b % 0x100 >= 32
    ensures var op := if k == LSL then 2 else if k == LSR then 3 else 4;
            Shifted(k, a, b % 0x100, c, ShiftReg(op, a, b, c))
  {
    hide Bit, On, Mod32, Or, Pow2, Signed;
    AllOrNothing();
    OnTop(a);
    BitIsOn(a, 0);
  }

  lemma NearShift(k: Shift, a: u32, b: u32, c: bool)
    requires k != ROR && b % 0x100 < 32
    ensures var op := if k == LSL then 2 else if k == LSR then 3 else 4;
            Shifted(k, a, b % 0x100, c, ShiftReg(op, a, b, c))
  {
    hide Bit, On, Mod32, Or, Pow2, Signed;
    var sh := b % 0x100;
    Leftwards(a, sh);
    Rightwards(a, sh);
    if sh > 0 { BitIsOn(a, if k == LSL then 32 - sh else sh - 1); }
  }

  lemma RotateIs(a: u32, b: u32, c: bool)
    ensures Shifted(ROR, a, b % 0x100, c, ShiftReg(7, a, b, c))
  {
    hide ShiftReg, On, ShiftCarry;
    RotatedCarry(a, b, c);
    forall j: nat | j < 32
      ensures On(ShiftReg(7, a, b, c).0, j) == ShiftedBit(ROR, a, b % 0x100, j)
    {
      RotatedBit(a, b, c, j);
    }
  }

  lemma RotatedBit(a: u32, b: u32, c: bool, j: nat)
    requires j < 32
    ensures On(ShiftReg(7, a, b, c).0, j) == On(a, (j + b % 0x100) % 32)
  {
    hide On, Mod32, Or, Pow2, Bit;
    var rot := b % 0x100 % 32;
    Turn(j, b % 0x100);
    if rot > 0 { OneRotation(a, rot, j); }
  }

  lemma Turn(j: nat, sh: nat)
    ensures (j + sh) % 32 == (j + sh % 32) % 32
  {
  }

  lemma RotatedCarry(a: u32, b: u32, c: bool)
    ensures ShiftReg(7, a, b, c).1 == ShiftCarry(ROR, a, b % 0x100, c)
  {
    hide On, Mod32, Or, Pow2, Bit;
    var sh := b % 0x100;
    assert sh > 0 ==> (sh - 1) % 32 == if sh % 32 == 0 then 31 else sh % 32 - 1;
    OnTop(a);
    if sh % 32 > 0 { BitIsOn(a, sh % 32 - 1); }
  }

  lemma OneRotation(a: u32, rot: nat, j: nat)
    requires 0 < rot < 32 && j < 32
    ensures Pow2(rot) > 0 && On(Or(Mod32(a / Pow2(rot)), Mod32(a * Pow2(32 - rot))), j) == On(a, (j + rot) % 32)
  {
    hide On, Mod32, Or, Pow2;
    Pow2Positive(rot);
    OnOr(Mod32(a / Pow2(rot)), Mod32(a * Pow2(32 - rot)), j);
    OnRight(a, rot, j);
    OnLeft(a, 32 - rot, j);
  }

  // ---- Decoding ----

  /** A field of an opcode as a quotient and a remainder. */
  lemma FieldAt(x: Instr, low: nat, width: nat, p: nat, q: nat)
    requires p == Pow2(low) && q == Pow2(width)
    ensures p > 0 && q > 0 && Field(x, low, width) == x / p % q
  {
    Pow2Positive(low);
    Pow2Positive(width);
  }

  /** The instruction format that each opcode range selects. */
  lemma Selects(s: State, x: Instr)
    ensures x < 0x1800 ==> Execute(s, x) == ExecShiftImm(s, x)
    ensures 0x1800 <= x < 0x2000 ==> Execute(s, x) == ExecAddSub(s, x)
    ensures 0x2000 <= x < 0x4000 ==> Execute(s, x) == ExecImm8(s, x)
    ensures 0x4000 <= x < 0x4400 ==> Execute(s, x) == ExecAlu(s, x)
    ensures 0x4400 <= x < 0x4800 ==> Execute(s, x) == ExecHiRegBx(s, x)
    ensures 0x4800 <= x < 0x5000 ==> Execute(s, x) == ExecLdrPc(s, x)
    ensures 0x5000 <= x < 0x6000 ==>
              Execute(s, x) == if Bit(x, 9) then Trap(s, Undefined(x)) else ExecLdrStrReg(s, x)
    ensures 0x6000 <= x < 0x8000 ==> Execute(s, x) == ExecLdrStrImm(s, x)
    ensures 0x8000 <= x < 0x9000 ==> Execute(s, x) == ExecLdrhStrhImm(s, x)
    ensures 0x9000 <= x < 0xA000 ==> Execute(s, x) == ExecLdrStrSp(s, x)
    ensures 0xA000 <= x < 0xB000 ==> Execute(s, x) == ExecAddSpPc(s, x)
    ensures 0xB000 <= x < 0xB100 ==> Execute(s, x) == ExecSpOps(s, x)
    ensures 0xB100 <= x < 0xBE00 ==> Execute(s, x) == ExecPushPop(s, x)
    ensures 0xBE00 <= x < 0xC000 ==> Execute(s, x) == s
    ensures 0xC000 <= x < 0xD000 ==> Execute(s, x) == ExecLdmStm(s, x)
    ensures 0xD000 <= x < 0xDF00 ==> Execute(s, x) == ExecBranchCond(s, x)
    ensures 0xDF00 <= x < 0xE000 || 0xE800 <= x < 0xF000 ==> Execute(s, x) == Trap(s, Undefined(x))
    ensures 0xE000 <= x < 0xE800 ==> Execute(s, x) == ExecBranch(s, x)
  {
    hide ExecShiftImm, ExecAddSub, ExecImm8, ExecAlu, ExecHiRegBx, ExecLdrPc, ExecLdrStrReg, ExecLdrStrImm,
         ExecLdrhStrhImm, ExecLdrStrSp, ExecAddSpPc, ExecSpOps, ExecPushPop, ExecLdmStm, ExecBranchCond, ExecBranch,
         ExecBlUpper, ExecBlLower, Bit, Trap;
  }

  // ---- Format 1: LSL, LSR and ASR by a constant ----

  function ShiftCode(op: nat, imm: nat, rs: nat, rd: nat): Instr
    requires op < 3 && imm < 32 && rs < 8 && rd < 8
  {
    0x800 * op + 0x40 * imm + 8 * rs + rd
  }

  lemma ShiftFields(op: nat, imm: nat, rs: nat, rd: nat)
    requires op < 3 && imm < 32 && rs < 8 && rd < 8
    ensures var x := ShiftCode(op, imm, rs, rd);
            && x < 0x1800 && Field(x, 11, 2) == op && Field(x, 6, 5) == imm && Field(x, 3, 3) == rs && Field(x, 0, 3) == rd
  {
    hide Field;
    var x := ShiftCode(op, imm, rs, rd);
    assert x / 0x800 == op && x / 0x40 == 0x20 * op + imm && x / 8 == 0x100 * op + 8 * imm + rs;
    FieldAt(x, 0, 3, 1, 8);
    FieldAt(x, 3, 3, 8, 8);
    FieldAt(x, 6, 5, 0x40, 0x20);
    FieldAt(x, 11, 2, 0x800, 4);
  }

  lemma DecodeShift(s: State, op: nat, imm: nat, rs: nat, rd: nat)
    requires op < 3 && imm < 32 && rs < 8 && rd < 8
    ensures var (r, c) := ShiftImm(op, s.regs[rs], imm, s.flags.c);
            Execute(s, ShiftCode(op, imm, rs, rd)) == SetReg(s.(flags := UpdateNZ(s.flags.(c := c), r)), rd, r)
  {
    hide Execute, ShiftImm, UpdateNZ, SetReg, Field, ShiftCode;
    ShiftFields(op, imm, rs, rd);
    Selects(s, ShiftCode(op, imm, rs, rd));
  }

  /** Every bit of the result, the carry, N and Z; a count of 0 means 32 for LSR and ASR. */
  lemma ShiftByConstant(s: State, op: nat, imm: nat, rs: nat, rd: nat)
    requires op < 3 && imm < 32 && rs < 8 && rd < 8 && Fetched(s, ShiftCode(op, imm, rs, rd))
    ensures var k, n := if op == 0 then LSL else if op == 1 then LSR else ASR, if op > 0 && imm == 0 then 32 else imm;
            var s1 := Step(s); var r := s1.regs[rd];
            && (forall j: nat :: j < 32 ==> On(r, j) == ShiftedBit(k, s.regs[rs], n, j))
            && Sets(s, s1, rd, r, Flags(r >= 0x8000_0000, r == 0, ShiftCarry(k, s.regs[rs], n, s.flags.c), s.flags.v))
  {
    hide Execute, ShiftImm, ShiftCode, On, ShiftedBit, ShiftCarry;
    StepExecutes(s, ShiftCode(op, imm, rs, rd));
    DecodeShift(Ahead(s), op, imm, rs, rd);
    ShiftByConstantIs(op, s.regs[rs], imm, s.flags.c);
  }

  // ---- Sums and differences ----

  /** The signed number a word stands for. */
  function TwosComplement(x: u32): int { if x >= 0x8000_0000 then x - TWO32 else x }

  predicate Fits(x: int) { -0x8000_0000 <= x < 0x8000_0000 }

  /** N, Z, unsigned carry and signed overflow of a sum. */
  function PlusFlags(a: u32, b: u32, carry: int): Flags {
    var r := (a + b + carry) % TWO32;
    Flags(r >= 0x8000_0000, r == 0, a + b + carry >= TWO32, !Fits(TwosComplement(a) + TwosComplement(b) + carry))
  }

  /** N, Z, no unsigned borrow and signed overflow of a difference. */
  function MinusFlags(a: u32, b: u32, borrow: int): Flags {
    var r := (a - b - borrow) % TWO32;
    Flags(r >= 0x8000_0000, r == 0, a >= b + borrow, !Fits(TwosComplement(a) - TwosComplement(b) - borrow))
  }

  lemma SumIs(a: u32, b: u32, c: bool)
    ensures var carry := if c then 1 else 0; var r := Add32(a, b, c);
            r.0 == (a + b + carry) % TWO32 && AddFlags(a, b, r) == PlusFlags(a, b, carry)
  {
  }

  lemma DifferenceIs(a: u32, b: u32)
    ensures var r := Sub32(a, b); r.0 == (a - b) % TWO32 && SubFlags(a, b, r) == MinusFlags(a, b, 0)
  {
    if a >= b { Remainder(a - b + TWO32, 1, a - b); } else { Remainder(a - b + TWO32, 0, a - b + TWO32); }
    Wrap(a - b);
  }

  lemma Wrap(x: int)
    requires -TWO32 <= x < TWO32
    ensures x % TWO32 == if x < 0 then x + TWO32 else x
    ensures (x + TWO32) % TWO32 == x % TWO32
  {
  }

  lemma BorrowIs(a: u32, b: u32, c: bool)
    ensures var borrow := if c then 0 else 1; var r := Add32(a, Not(b), c);
            r.0 == (a - b - borrow) % TWO32 && AddFlags(a, Not(b), r) == MinusFlags(a, b, borrow)
  {
    Wrap(a - b - if c then 0 else 1);
  }

  // ---- Format 2: ADD and SUB of a register or a 3-bit constant ----

  function AddSubCode(constant: bool, sub: bool, rn: nat, rs: nat, rd: nat): Instr
    requires rn < 8 && rs < 8 && rd < 8
  {
    0x1800 + (if constant then 0x400 else 0) + (if sub then 0x200 else 0) + 0x40 * rn + 8 * rs + rd
  }

  lemma AddSubFields(constant: bool, sub: bool, rn: nat, rs: nat, rd: nat)
    requires rn < 8 && rs < 8 && rd < 8
    ensures var x := AddSubCode(constant, sub, rn, rs, rd);
            && 0x1800 <= x < 0x2000 && Bit(x, 10) == constant && Bit(x, 9) == sub
            && Field(x, 6, 3) == rn && Field(x, 3, 3) == rs && Field(x, 0, 3) == rd
  {
    hide Field;
    var x := AddSubCode(constant, sub, rn, rs, rd);
    var i, o := if constant then 1 else 0, if sub then 1 else 0;
    assert x / 0x400 == 6 + i && x / 0x200 == 12 + 2 * i + o;
    assert x / 0x40 == 0x60 + 0x10 * i + 8 * o + rn && x / 8 == 0x300 + 0x80 * i + 0x40 * o + 8 * rn + rs;
    FieldAt(x, 0, 3, 1, 8);
    FieldAt(x, 3, 3, 8, 8);
    FieldAt(x, 6, 3, 0x40, 8);
    FieldAt(x, 10, 1, 0x400, 2);
    FieldAt(x, 9, 1, 0x200, 2);
  }

  lemma AddSubtract(s: State, constant: bool, sub: bool, rn: nat, rs: nat, rd: nat)
    requires rn < 8 && rs < 8 && rd < 8 && Fetched(s, AddSubCode(constant, sub, rn, rs, rd))
    ensures var a: u32, b: u32 := s.regs[rs], if constant then rn else s.regs[rn];
            if sub then Sets(s, Step(s), rd, (a - b) % TWO32, MinusFlags(a, b, 0))
            else Sets(s, Step(s), rd, (a + b) % TWO32, PlusFlags(a, b, 0))
  {
    hide Execute, AddSubCode, Add32, Sub32, AddFlags, SubFlags, PlusFlags, MinusFlags, Field;
    var x := AddSubCode(constant, sub, rn, rs, rd);
    StepExecutes(s, x);
    AddSubFields(constant, sub, rn, rs, rd);
    Selects(Ahead(s), x);
    var a: u32, b: u32 := s.regs[rs], if constant then rn else s.regs[rn];
    if sub { DifferenceIs(a, b); } else { SumIs(a, b, false); }
  }

  // ---- Format 3: MOV, CMP, ADD and SUB with an 8-bit constant ----

  function Imm8Code(op: nat, rd: nat, imm: nat): Instr
    requires op < 4 && rd < 8 && imm < 0x100
  {
    0x2000 + 0x800 * op + 0x100 * rd + imm
  }

  lemma Imm8Fields(op: nat, rd: nat, imm: nat)
    requires op < 4 && rd < 8 && imm < 0x100
    ensures var x := Imm8Code(op, rd, imm);
            0x2000 <= x < 0x4000 && Field(x, 11, 2) == op && Field(x, 8, 3) == rd && Field(x, 0, 8) == imm
  {
    hide Field;
    var x := Imm8Code(op, rd, imm);
    assert x / 0x800 == 4 + op && x / 0x100 == 0x20 + 8 * op + rd;
    FieldAt(x, 0, 8, 1, 0x100);
    FieldAt(x, 8, 3, 0x100, 8);
    FieldAt(x, 11, 2, 0x800, 4);
  }

  lemma Immediate(s: State, op: nat, rd: nat, imm: u32)
    requires op < 4 && rd < 8 && imm < 0x100 && Fetched(s, Imm8Code(op, rd, imm))
    ensures var s1, a := Step(s), s.regs[rd];
            match op
            case 0 => Sets(s, s1, rd, imm, s.flags.(n := false, z := imm == 0))
            case 1 => SetsFlags(s, s1, MinusFlags(a, imm, 0))
            case 2 => Sets(s, s1, rd, (a + imm) % TWO32, PlusFlags(a, imm, 0))
            case _ => Sets(s, s1, rd, (a - imm) % TWO32, MinusFlags(a, imm, 0))
  {
    hide Execute, Imm8Code, Add32, Sub32, AddFlags, SubFlags, PlusFlags, MinusFlags, Field;
    StepExecutes(s, Imm8Code(op, rd, imm));
    Imm8Fields(op, rd, imm);
    Selects(Ahead(s), Imm8Code(op, rd, imm));
    DifferenceIs(s.regs[rd], imm);
    SumIs(s.regs[rd], imm, false);
  }

  // ---- Format 4: register arithmetic and logic ----

  /** The Thumb encoding of `op rd, rs`. */
  function AluCode(op: nat, rd: nat, rs: nat): Instr
    requires op < 16 && rd < 8 && rs < 8
  {
    0x4000 + 0x40 * op + 8 * rs + rd
  }

  lemma AluFields(op: nat, rd: nat, rs: nat)
    requires op < 16 && rd < 8 && rs < 8
    ensures var x := AluCode(op, rd, rs);
            0x4000 <= x < 0x4400 && Field(x, 6, 4) == op && Field(x, 3, 3) == rs && Field(x, 0, 3) == rd
  {
    hide Field;
    var x := AluCode(op, rd, rs);
    assert x / 0x40 == 0x100 + op && x / 8 == 0x800 + 8 * op + rs;
    FieldAt(x, 0, 3, 1, 8);
    FieldAt(x, 3, 3, 8, 8);
    FieldAt(x, 6, 4, 0x40, 0x10);
  }

  lemma DecodeAlu(s: State, op: nat, rd: nat, rs: nat)
    requires rd < 8 && rs < 8 && op < 16
    ensures op == 2 || op == 3 || op == 4 || op == 7 ==>
              Execute(s, AluCode(op, rd, rs)) == ExecAluShift(s, op, rd, s.regs[rd], s.regs[rs])
    ensures op == 5 || op == 6 || 9 <= op <= 0xB ==>
              Execute(s, AluCode(op, rd, rs)) == ExecAluArith(s, op, rd, s.regs[rd], s.regs[rs])
    ensures Execute(s, AluCode(op, rd, rs)) == ExecAlu(s, AluCode(op, rd, rs))
  {
    hide Execute, ExecAluArith, ExecAluShift, UpdateNZ, AluCode, Field, And, Or, Xor, Not;
    AluFields(op, rd, rs);
    Selects(s, AluCode(op, rd, rs));
  }

  function ShiftOf(k: Shift): nat {
    match k
    case LSL => 2
    case LSR => 3
    case ASR => 4
    case ROR => 7
  }

  /** Shifts and rotations by the low byte of a register. */
  lemma ShiftByRegister(s: State, k: Shift, rd: nat, rs: nat)
    requires rd < 8 && rs < 8 && Fetched(s, AluCode(ShiftOf(k), rd, rs))
    ensures var s1 := Step(s); var r, a, n := s1.regs[rd], s.regs[rd], s.regs[rs] % 0x100;
            && (forall j: nat :: j < 32 ==> On(r, j) == ShiftedBit(k, a, n, j))
            && Sets(s, s1, rd, r, Flags(r >= 0x8000_0000, r == 0, ShiftCarry(k, a, n, s.flags.c), s.flags.v))
  {
    hide Execute, ShiftReg, AluCode, On, ShiftedBit, ShiftCarry;
    StepExecutes(s, AluCode(ShiftOf(k), rd, rs));
    DecodeAlu(Ahead(s), ShiftOf(k), rd, rs);
    if k == ROR { RotateIs(s.regs[rd], s.regs[rs], s.flags.c); } else { ShiftByRegisterIs(k, s.regs[rd], s.regs[rs], s.flags.c); }
  }

  /** The result and the flags of ADC, SBC, NEG, CMP and CMN. */
  function ArithmeticFlags(op: nat, a: u32, b: u32, carry: bool): Flags {
    var c := if carry then 1 else 0;
    match op
    case 5 => PlusFlags(a, b, c)
    case 6 => MinusFlags(a, b, 1 - c)
    case 9 => MinusFlags(0, b, 0)
    case 0xA => MinusFlags(a, b, 0)
    case _ => PlusFlags(a, b, 0)
  }

  function ArithmeticResult(op: nat, a: u32, b: u32, carry: bool): u32 {
    var c := if carry then 1 else 0;
    match op
    case 5 => (a + b + c) % TWO32
    case 6 => (a - b - (1 - c)) % TWO32
    case _ => (0 - b) % TWO32
  }

  lemma ArithmeticIs(s: State, op: nat, rd: nat, a: u32, b: u32)
    requires rd < 8 && (op == 5 || op == 6 || 9 <= op <= 0xB)
    ensures var s1 := s.(flags := ArithmeticFlags(op, a, b, s.flags.c));
            ExecAluArith(s, op, rd, a, b) ==
              if op < 0xA then SetReg(s1, rd, ArithmeticResult(op, a, b, s.flags.c)) else s1
  {
    hide Add32, Sub32, AddFlags, SubFlags, PlusFlags, MinusFlags, Not;
    match op
    case 5 => SumIs(a, b, s.flags.c);
    case 6 => BorrowIs(a, b, s.flags.c);
    case 9 =>
      DifferenceIs(0, b);
      NegateIs(b);
    case 0xA => DifferenceIs(a, b);
    case _ => SumIs(a, b, false);
  }

  /** ADC, SBC and NEG set their register, CMP and CMN only the flags. */
  lemma Arithmetic(s: State, op: nat, rd: nat, rs: nat)
    requires rd < 8 && rs < 8 && (op == 5 || op == 6 || 9 <= op <= 0xB) && Fetched(s, AluCode(op, rd, rs))
    ensures var a, b := s.regs[rd], s.regs[rs]; var f := ArithmeticFlags(op, a, b, s.flags.c);
            if op < 0xA then Sets(s, Step(s), rd, ArithmeticResult(op, a, b, s.flags.c), f)
            else SetsFlags(s, Step(s), f)
  {
    hide Execute, AluCode, ArithmeticFlags, ArithmeticResult, ExecAluArith, ExecAluShift, ExecAlu;
    StepExecutes(s, AluCode(op, rd, rs));
    DecodeAlu(Ahead(s), op, rd, rs);
    ArithmeticIs(Ahead(s), op, rd, s.regs[rd], s.regs[rs]);
  }

  lemma NegateIs(b: u32)
    ensures var r := Sub32(0, b); UpdateNZ(Flags(false, false, r.1, Negative(b) && Negative(r.0)), r.0) == MinusFlags(0, b, 0)
  {
    Wrap(0 - b);
  }

  /** One bit of AND, EOR, TST, ORR, BIC and MVN. */
  predicate LogicBit(op: nat, p: bool, q: bool) {
    match op
    case 0x0 => p && q
    case 0x1 => p != q
    case 0x8 => p && q
    case 0xC => p || q
    case 0xE => p && !q
    case _ => !q
  }

  predicate IsLogic(op: nat) { op == 0 || op == 1 || op == 0xC || op == 0xE || op == 0xF }

  function LogicResult(op: nat, a: u32, b: u32): u32 {
    match op
    case 0x1 => Xor(a, b)
    case 0xC => Or(a, b)
    case 0xE => And(a, Not(b))
    case 0xF => Not(b)
    case _ => And(a, b)
  }

  lemma LogicIs(op: nat, a: u32, b: u32)
    requires IsLogic(op) || op == 8
    ensures forall j: nat :: j < 32 ==> On(LogicResult(op, a, b), j) == LogicBit(op, On(a, j), On(b, j))
  {
    hide On, And, Or, Xor, Not;
    forall j: nat | j < 32
      ensures On(LogicResult(op, a, b), j) == LogicBit(op, On(a, j), On(b, j))
    {
      OnAnd(a, b, j);
      OnXor(a, b, j);
      OnOr(a, b, j);
      OnNot(b, j);
      OnAnd(a, Not(b), j);
    }
  }

  /** AND, EOR, ORR, BIC and MVN, bit by bit; C and V stay. */
  lemma Logic(s: State, op: nat, rd: nat, rs: nat)
    requires rd < 8 && rs < 8 && IsLogic(op) && Fetched(s, AluCode(op, rd, rs))
    ensures var s1 := Step(s); var r := s1.regs[rd];
            && (forall j: nat :: j < 32 ==> On(r, j) == LogicBit(op, On(s.regs[rd], j), On(s.regs[rs], j)))
            && Sets(s, s1, rd, r, s.flags.(n := r >= 0x8000_0000, z := r == 0))
  {
    hide Execute, AluCode, On, And, Or, Xor, Not, LogicBit, Field;
    StepExecutes(s, AluCode(op, rd, rs));
    DecodeAlu(Ahead(s), op, rd, rs);
    AluFields(op, rd, rs);
    LogicIs(op, s.regs[rd], s.regs[rs]);
  }

  ghost predicate NoCommonBit(a: u32, b: u32) { forall j: nat :: j < 32 ==> !(On(a, j) && On(b, j)) }

  /** TST sets N and Z from the bits that both words have. */
  lemma Test(s: State, rd: nat, rs: nat)
    requires rd < 8 && rs < 8 && Fetched(s, AluCode(8, rd, rs))
    ensures var a, b := s.regs[rd], s.regs[rs];
            && SetsFlags(s, Step(s), s.flags.(n := On(a, 31) && On(b, 31), z := Step(s).flags.z))
            && (Step(s).flags.z <==> NoCommonBit(a, b))
  {
    hide Execute, AluCode, On, And, Or, Xor, Not, Field, NoCommonBit;
    var a, b := s.regs[rd], s.regs[rs];
    StepExecutes(s, AluCode(8, rd, rs));
    DecodeAlu(Ahead(s), 8, rd, rs);
    AluFields(8, rd, rs);
    OnTop(And(a, b));
    OnAnd(a, b, 31);
    ZeroHasNoBits(a, b);
  }

  lemma ZeroHasNoBits(a: u32, b: u32)
    ensures And(a, b) == 0 <==> NoCommonBit(a, b)
  {
    hide On, And;
    var x := And(a, b);
    Pow2Of32();
    if x == 0 {
      forall j: nat | j < 32
        ensures !(On(a, j) && On(b, j))
      {
        OnAnd(a, b, j);
        OnHigh(x, 0, j);
      }
    } else if NoCommonBit(a, b) {
      forall j: nat | j < 32
        ensures On(x, j) == On(0, j)
      {
        OnAnd(a, b, j);
        OnHigh(0, 0, j);
      }
      SameBits(x, 0, 32);
    }
  }

  /** MUL gives the low word of the product. */
  lemma Multiply(s: State, rd: nat, rs: nat)
    requires rd < 8 && rs < 8 && Fetched(s, AluCode(0xD, rd, rs))
    ensures var r := (s.regs[rd] * s.regs[rs]) % TWO32;
            Sets(s, Step(s), rd, r, s.flags.(n := r >= 0x8000_0000, z := r == 0))
  {
    hide Execute, AluCode, And, Or, Xor, Not, Field;
    StepExecutes(s, AluCode(0xD, rd, rs));
    DecodeAlu(Ahead(s), 0xD, rd, rs);
    AluFields(0xD, rd, rs);
  }

  // ---- Format 5: high registers ----

  function HighCode(op: nat, rd: nat, rs: nat): Instr
    requires op < 4 && rd < 16 && rs < 16
  {
    0x4400 + 0x100 * op + 0x80 * (rd / 8) + 8 * rs + rd % 8
  }

  lemma HighFields(op: nat, rd: nat, rs: nat)
    requires op < 4 && rd < 16 && rs < 16
    ensures var x := HighCode(op, rd, rs);
            && 0x4400 <= x < 0x4800 && Field(x, 8, 2) == op && Field(x, 3, 4) == rs && Field(x, 7, 1) == rd / 8
            && Field(x, 0, 3) == rd % 8
  {
    hide Field;
    var x := HighCode(op, rd, rs);
    assert x / 0x100 == 0x44 + op && x / 0x80 == 0x88 + 2 * op + rd / 8;
    assert x / 8 == 0x880 + 0x20 * op + 0x10 * (rd / 8) + rs;
    FieldAt(x, 0, 3, 1, 8);
    FieldAt(x, 3, 4, 8, 0x10);
    FieldAt(x, 7, 1, 0x80, 2);
    FieldAt(x, 8, 2, 0x100, 4);
  }

  /** ADD, CMP and MOV among all sixteen registers; only CMP touches the flags. The program counter reads as the address
      behind the opcode. */
  lemma HighRegisters(s: State, op: nat, rd: nat, rs: nat)
    requires op < 3 && rd < 16 && rs < 16 && Fetched(s, HighCode(op, rd, rs))
    ensures var s1 := Step(s); var a, b := Ahead(s).regs[rd], Ahead(s).regs[rs];
            match op
            case 0 => Sets(s, s1, rd, (a + b) % TWO32, s.flags)
            case 1 => SetsFlags(s, s1, MinusFlags(a, b, 0))
            case _ => Sets(s, s1, rd, b, s.flags)
  {
    hide Execute, HighCode, Sub32, SubFlags, MinusFlags, Field;
    StepExecutes(s, HighCode(op, rd, rs));
    HighFields(op, rd, rs);
    Selects(Ahead(s), HighCode(op, rd, rs));
    DifferenceIs(Ahead(s).regs[rd], Ahead(s).regs[rs]);
  }

  /** BX goes to the even address in a register, and BLX keeps the way back in LR with bit 0 set. An even value in the
      register halts the simulator. */
  lemma BranchExchange(s: State, link: bool, rs: nat)
    requires rs < 16 && Fetched(s, HighCode(3, if link then 8 else 0, rs))
    ensures var s1 := Step(s); var v: int, back: int := Ahead(s).regs[rs], Ahead(s).regs[15];
            && s1.halted == (v % 2 == 0) && s1.regs[15] == v - v % 2
            && s1.regs[14] == (if link then back - back % 2 + 1 else s.regs[14])
            && (forall i :: 0 <= i < 14 ==> s1.regs[i] == s.regs[i])
            && s1 == s.(regs := s1.regs, halted := s1.halted, cycles := s.cycles + 1)
  {
    hide Execute, HighCode, Sub32, SubFlags, Field;
    var rd := if link then 8 else 0;
    StepExecutes(s, HighCode(3, rd, rs));
    HighFields(3, rd, rs);
    Selects(Ahead(s), HighCode(3, rd, rs));
  }

  // ---- Formats 12 and 13: addresses and the stack pointer ----

  function AddressCode(fromSP: bool, rd: nat, imm: nat): Instr
    requires rd < 8 && imm < 0x100
  {
    0xA000 + (if fromSP then 0x800 else 0) + 0x100 * rd + imm
  }

  lemma AddressFields(fromSP: bool, rd: nat, imm: nat)
    requires rd < 8 && imm < 0x100
    ensures var x := AddressCode(fromSP, rd, imm);
            0xA000 <= x < 0xB000 && Bit(x, 11) == fromSP && Field(x, 8, 3) == rd && Field(x, 0, 8) == imm
  {
    hide Field;
    var x := AddressCode(fromSP, rd, imm);
    var l := if fromSP then 1 else 0;
    assert x / 0x800 == 20 + l && x / 0x100 == 0xA0 + 8 * l + rd;
    FieldAt(x, 11, 1, 0x800, 2);
    FieldAt(x, 8, 3, 0x100, 8);
    FieldAt(x, 0, 8, 1, 0x100);
  }

  /** SP plus words, or the word-aligned address four behind the opcode plus words. */
  lemma MakeAddress(s: State, fromSP: bool, rd: nat, imm: nat)
    requires rd < 8 && imm < 0x100 && Fetched(s, AddressCode(fromSP, rd, imm))
    ensures var p := (s.regs[15] + 4) % TWO32;
            Sets(s, Step(s), rd, ((if fromSP then s.regs[13] else p - p % 4) + 4 * imm) % TWO32, s.flags)
  {
    hide Execute, AddressCode, Field;
    StepExecutes(s, AddressCode(fromSP, rd, imm));
    AddressFields(fromSP, rd, imm);
    Selects(Ahead(s), AddressCode(fromSP, rd, imm));
    TwiceTwo(s.regs[15]);
  }

  lemma TwiceTwo(pc: u32)
    ensures ((pc + 2) % TWO32 + 2) % TWO32 == (pc + 4) % TWO32
  {
    if pc + 2 >= TWO32 { Remainder(pc + 2, 1, pc + 2 - TWO32); } else { Remainder(pc + 2, 0, pc + 2); }
  }

  function StackCode(down: bool, words: nat): Instr
    requires words < 0x80
  {
    0xB000 + (if down then 0x80 else 0) + words
  }

  /** The stack pointer moves up or down by words. */
  lemma MoveStack(s: State, down: bool, words: nat)
    requires words < 0x80 && Fetched(s, StackCode(down, words))
    ensures Sets(s, Step(s), 13, (if down then s.regs[13] - 4 * words else s.regs[13] + 4 * words) % TWO32, s.flags)
  {
    hide Execute, Field;
    var x := StackCode(down, words);
    StepExecutes(s, x);
    Selects(Ahead(s), x);
    assert x / 0x80 == 0x160 + if down then 1 else 0;
    FieldAt(x, 7, 1, 0x80, 2);
    FieldAt(x, 0, 7, 1, 0x80);
  }

  // ---- Formats 16 and 18: branches ----

  /** The condition of each code on the flags; the ten that compare are matched with integers in module Multiword. */
  lemma Conditions(f: Flags)
    ensures ConditionPasses(f, 0x4) == f.n && ConditionPasses(f, 0x5) == !f.n
    ensures ConditionPasses(f, 0x6) == f.v && ConditionPasses(f, 0x7) == !f.v
    ensures ConditionPasses(f, 0xE) && !ConditionPasses(f, 0xF)
    ensures forall c: nat :: c < 14 && c % 2 == 0 ==> ConditionPasses(f, c) == !ConditionPasses(f, c + 1)
  {
  }

  /** A step that only goes to an even address. */
  predicate GoesTo(s: State, s1: State, pc: int) {
    0 <= pc < TWO32 && s1 == s.(regs := s.regs[15 := pc - pc % 2], cycles := s.cycles + 1)
  }

  function BranchCode(cond: nat, d: int): Instr
    requires cond < 15 && -0x80 <= d < 0x80
  {
    0xD000 + 0x100 * cond + if d < 0 then d + 0x100 else d
  }

  lemma BranchFields(cond: nat, d: int)
    requires cond < 15 && -0x80 <= d < 0x80
    ensures var x := BranchCode(cond, d);
            0xD000 <= x < 0xDF00 && Field(x, 8, 4) == cond && SignExtend(Field(x, 0, 8), 8) == d
  {
    hide Field;
    var x := BranchCode(cond, d);
    assert x / 0x100 == 0xD0 + cond;
    FieldAt(x, 8, 4, 0x100, 0x10);
    FieldAt(x, 0, 8, 1, 0x100);
    assert Pow2(7) == 0x80 && Pow2(8) == 0x100;
  }

  lemma BranchIs(s: State, cond: nat, d: int)
    requires cond < 15 && -0x80 <= d < 0x80
    ensures Execute(s, BranchCode(cond, d)) ==
              if ConditionPasses(s.flags, cond) then SetPC(s, Sum(s.regs[15], 2 + 2 * d)) else s
  {
    hide Execute, Field, ConditionPasses, BranchCode, SignExtend, Sum, SetPC;
    BranchFields(cond, d);
    Selects(s, BranchCode(cond, d));
  }

  /** A conditional branch goes to the address four behind it plus twice its signed offset, or on to the next opcode. */
  lemma ConditionalBranch(s: State, cond: nat, d: int)
    requires cond < 15 && -0x80 <= d < 0x80 && Fetched(s, BranchCode(cond, d))
    ensures if ConditionPasses(s.flags, cond) then GoesTo(s, Step(s), (s.regs[15] + 4 + 2 * d) % TWO32)
            else Step(s) == Ahead(s).(cycles := s.cycles + 1)
  {
    hide Execute, ConditionPasses, BranchCode;
    StepExecutes(s, BranchCode(cond, d));
    BranchIs(Ahead(s), cond, d);
    Target(s.regs[15], 2 * d);
  }

  lemma Target(pc: u32, d: int)
    ensures ((pc + 2) % TWO32 + (2 + d)) % TWO32 == (pc + 4 + d) % TWO32
  {
    var k := (pc + 2) / TWO32;
    var r := (pc + 4 + d) % TWO32;
    Remainder((pc + 2) % TWO32 + (2 + d), (pc + 4 + d) / TWO32 - k, r);
  }

  function JumpCode(d: int): Instr
    requires -0x400 <= d < 0x400
  {
    0xE000 + if d < 0 then d + 0x800 else d
  }

  lemma JumpFields(d: int)
    requires -0x400 <= d < 0x400
    ensures 0xE000 <= JumpCode(d) < 0xE800 && SignExtend(Field(JumpCode(d), 0, 11), 11) == d
  {
    hide Field;
    FieldAt(JumpCode(d), 0, 11, 1, 0x800);
    assert Pow2(10) == 0x400 && Pow2(11) == 0x800;
  }

  lemma JumpIs(s: State, d: int)
    requires -0x400 <= d < 0x400
    ensures Execute(s, JumpCode(d)) == SetPC(s, Sum(s.regs[15], 2 + 2 * d))
  {
    hide Execute, Field, JumpCode, SignExtend, Sum, SetPC;
    JumpFields(d);
    Selects(s, JumpCode(d));
  }

  lemma UnconditionalBranch(s: State, d: int)
    requires -0x400 <= d < 0x400 && Fetched(s, JumpCode(d))
    ensures GoesTo(s, Step(s), (s.regs[15] + 4 + 2 * d) % TWO32)
  {
    hide Execute, JumpCode;
    StepExecutes(s, JumpCode(d));
    JumpIs(Ahead(s), d);
    Target(s.regs[15], 2 * d);
  }

  // ---- Hints, breakpoints and undefined opcodes ----

  /** Breakpoints and hints only take a cycle. */
  lemma DoesNothing(s: State, x: Instr)
    requires 0xBE00 <= x < 0xC000 && Fetched(s, x)
    ensures Step(s) == Ahead(s).(cycles := s.cycles + 1)
  {
    hide Execute;
    StepExecutes(s, x);
    Selects(Ahead(s), x);
  }

  /** The opcodes without a format: register-offset ones with bit 9, software interrupts, and 0xE800 to 0xEFFF. */
  predicate IsUndefined(x: Instr) {
    (0x5000 <= x < 0x6000 && x / 0x200 % 2 == 1) || 0xDF00 <= x < 0xE000 || 0xE800 <= x < 0xF000
  }

  /** Exactly those raise the exception, which carries the opcode. */
  lemma UndefinedExactly(s: State, x: Instr)
    requires Fetched(s, x)
    ensures (exists op :: Step(s).fault == Undefined(op)) <==> IsUndefined(x)
    ensures IsUndefined(x) ==> Step(s) == s.(regs := Ahead(s).regs, fault := Undefined(x))
  {
    hide Execute, Field;
    StepExecutes(s, x);
    Selects(Ahead(s), x);
    FieldAt(x, 9, 1, 0x200, 2);
    if !IsUndefined(x) { OnlyBusFaults(Ahead(s), x); }
  }

  lemma OnlyBusFaults(s: State, x: Instr)
    requires s.fault == NoFault && !IsUndefined(x)
    ensures !Execute(s, x).fault.Undefined?
  {
    hide Execute, Field, Accessible, Flat, UpdateNZ, ShiftImm, ShiftReg, And, Or, Xor, ExecPushPop, ExecLdmStm;
    FieldAt(x, 9, 1, 0x200, 2);
    Selects(s, x);
    if 0xB100 <= x < 0xBE00 {
      StackOnlyBusFaults(s, x);
    } else if 0xC000 <= x < 0xD000 {
      MultipleOnlyBusFaults(s, Bit(x, 11), Field(x, 0, 8), 0, s.regs[Field(x, 8, 3)]);
      WritesBack(s, x);
    } else if 0xF000 <= x {
      LinkNeverFaults(s, x);
    }
  }

  lemma LinkNeverFaults(s: State, x: Instr)
    requires 0xF000 <= x
    ensures Execute(s, x).fault == s.fault
  {
  }

  lemma WritesBack(s: State, x: Instr)
    ensures ExecLdmStm(s, x).fault == MultipleFrom(s, Bit(x, 11), Field(x, 0, 8), 0, s.regs[Field(x, 8, 3)]).0.fault
  {
    hide MultipleFrom;
  }

  lemma StackOnlyBusFaults(s: State, x: Instr)
    requires s.fault == NoFault
    ensures !ExecPushPop(s, x).fault.Undefined?
  {
    hide PushList, PopList, Accessible, Flat;
    var list := Field(x, 0, 8);
    PushOnlyBusFaults(if Bit(x, 8) then PushWord(s, s.regs[LR]) else s, list, 8);
    PopOnlyBusFaults(s, list, 0);
  }

  lemma {:induction false} PushOnlyBusFaults(s: State, list: nat, i: nat)
    requires i <= 8 && !s.fault.Undefined?
    ensures !PushList(s, list, i).fault.Undefined?
    decreases i
  {
    hide Bit, Accessible, Flat;
    if i > 0 && s.fault == NoFault {
      PushOnlyBusFaults(if Bit(list, i - 1) then PushWord(s, s.regs[i - 1]) else s, list, i - 1);
    }
  }

  lemma {:induction false} PopOnlyBusFaults(s: State, list: nat, i: nat)
    requires i <= 8 && !s.fault.Undefined?
    ensures !PopList(s, list, i).fault.Undefined?
    decreases 8 - i
  {
    hide Bit, Accessible, Flat;
    if i < 8 && s.fault == NoFault {
      PopOnlyBusFaults(if Bit(list, i) then PopWord(s, i) else s, list, i + 1);
    }
  }

  lemma {:induction false} MultipleOnlyBusFaults(s: State, load: bool, list: nat, i: nat, at: u32)
    requires i <= 8 && !s.fault.Undefined?
    ensures !MultipleFrom(s, load, list, i, at).0.fault.Undefined?
    decreases 8 - i
  {
    hide Bit, Accessible, Flat;
    if i < 8 && s.fault == NoFault {
      if Bit(list, i) {
        MultipleOnlyBusFaults(if load then Load32(s, i, at) else Store32(s, at, s.regs[i]), load, list, i + 1, Sum(at, 4));
      } else {
        MultipleOnlyBusFaults(s, load, list, i + 1, at);
      }
    }
  }
}
