/** The shipped factorial program, run through fetch, decode and execute. */
module Factorial {
  import opened MemoryMap
  import opened Cpu
  import opened Running

  const MUL_R1_R0 := 0x4341
  const SUB_R0_1 := 0x3801
  const CMP_R0_1 := 0x2801
  const BGT_LOOP := 0xDCFB
  const BX_LR := 0x4770

  function Fact(n: nat): nat { if n == 0 then 1 else n * Fact(n - 1) }

  predicate HasLoop(m: Bytes) {
    && Half(m, 4) == MUL_R1_R0 && Half(m, 6) == SUB_R0_1 && Half(m, 8) == CMP_R0_1
    && Half(m, 10) == BGT_LOOP && Half(m, 12) == BX_LR
  }

  /** At address `pc` of the program, with the two working registers and a zero return address. */
  predicate At(s: State, pc: u32, r0: u32, r1: u32) {
    Going(s) && HasLoop(s.mem) && s.regs[PC] == pc && s.regs[0] == r0 && s.regs[1] == r1 && s.regs[LR] == 0
  }

  lemma StepMul(s: State, r0: u32, r1: u32)
    requires At(s, 4, r0, r1)
    ensures At(Step(s), 6, r0, Product(r1, r0)) && Step(s).cycles == s.cycles + 1
  {
    assert Field(MUL_R1_R0, 6, 4) == 0xD && Field(MUL_R1_R0, 0, 3) == 1 && Field(MUL_R1_R0, 3, 3) == 0;
  }

  lemma StepSub(s: State, r0: u32, r1: u32)
    requires At(s, 6, r0, r1)
    ensures At(Step(s), 8, Sum(r0, -1), r1) && Step(s).cycles == s.cycles + 1
  {
    assert Field(SUB_R0_1, 11, 2) == 3 && Field(SUB_R0_1, 8, 3) == 0 && Field(SUB_R0_1, 0, 8) == 1;
  }

  lemma StepCmp(s: State, r0: u32, r1: u32)
    requires At(s, 8, r0, r1)
    ensures At(Step(s), 10, r0, r1) && Step(s).cycles == s.cycles + 1
    ensures Step(s).flags == SubFlags(r0, 1, Sub32(r0, 1))
  {
    assert Field(CMP_R0_1, 11, 2) == 1 && Field(CMP_R0_1, 8, 3) == 0 && Field(CMP_R0_1, 0, 8) == 1;
  }

  lemma StepBgt(s: State, r0: u32, r1: u32)
    requires At(s, 10, r0, r1)
    ensures At(Step(s), if !s.flags.z && s.flags.n == s.flags.v then 4 else 12, r0, r1)
    ensures Step(s).cycles == s.cycles + 1
  {
    assert Field(BGT_LOOP, 8, 4) == 0xC && Field(BGT_LOOP, 0, 8) == 0xFB;
    assert SignExtend(0xFB, 8) == -5 by { assert Pow2(7) == 128 && Pow2(8) == 256; }
  }

  /** The return address has bit 0 clear, so returning halts the simulator. */
  lemma StepBx(s: State, r0: u32, r1: u32)
    requires At(s, 12, r0, r1)
    ensures var s1 := Step(s);
            && s1.halted && s1.fault == NoFault && s1.cycles == s.cycles + 1
            && s1.regs[0] == r0 && s1.regs[1] == r1 && s1.regs[PC] == 0 && s1.mem == s.mem
  {
    assert Field(BX_LR, 3, 4) == 14 && Field(BX_LR, 7, 1) == 0 && Field(BX_LR, 0, 3) == 0 && Field(BX_LR, 8, 2) == 3;
  }

  /** The comparison with 1 is signed. */
  lemma GreaterThanOne(r0: u32)
    ensures var f := SubFlags(r0, 1, Sub32(r0, 1));
            (!f.z && f.n == f.v) <==> 2 <= r0 < 0x8000_0000
  {
  }

  /** One round of the loop. */
  lemma Round(s: State, n: u32, acc: u32)
    requires At(s, 4, n, acc)
    ensures var s1 := Steps(s, 4); var left := Sum(n, -1);
            && At(s1, if 2 <= left < 0x8000_0000 then 4 else 12, left, Product(acc, n))
            && s1.cycles == s.cycles + 4
  {
    StepMul(s, n, acc);
    var s1, acc1, left := Step(s), Product(acc, n), Sum(n, -1);
    StepSub(s1, n, acc1);
    var s2 := Step(s1);
    StepCmp(s2, left, acc1);
    var s3 := Step(s2);
    GreaterThanOne(left);
    StepBgt(s3, left, acc1);
    FourSteps(s);
  }

  lemma FourSteps(s: State)
    ensures Steps(s, 4) == Step(Step(Step(Step(s))))
  {
    hide Step;
    assert Steps(s, 4) == Steps(Step(s), 3) == Steps(Step(Step(s)), 2) == Steps(Step(Step(Step(s))), 1);
  }

  lemma OneStep(s: State)
    ensures Steps(s, 1) == Step(s)
  {
    hide Step;
  }

  lemma ProductFact(acc: u32, n: nat)
    requires n >= 1
    ensures Product(acc, Fact(n)) == Product(Product(acc, n), Fact(n - 1))
  {
    var q := acc * n / TWO32;
    var f := Fact(n - 1);
    assert acc * n == q * TWO32 + acc * n % TWO32;
    assert acc * Fact(n) == (acc * n) * f by { assert acc * (n * f) == (acc * n) * f; }
    assert (acc * n) * f == q * f * TWO32 + (acc * n % TWO32) * f;
    AddMultiple((acc * n % TWO32) * f, q * f);
  }

  lemma AddMultiple(x: int, k: int)
    ensures (k * TWO32 + x) % TWO32 == x % TWO32
  {
  }

  /** From the loop head with counter `n` up to 2^31 the loop multiplies by n! in n - 1 rounds (one for n = 1). */
  lemma {:induction false} Loop(s: State, n: u32, acc: u32)
    requires 1 <= n <= 0x8000_0000 && At(s, 4, n, acc)
    ensures var rounds := if n == 1 then 1 else n - 1; var s1 := Steps(s, 4 * rounds);
            && At(s1, 12, if n == 1 then 0 else 1, Product(acc, Fact(n)))
            && s1.cycles == s.cycles + 4 * rounds
    decreases n
  {
    hide Step, Steps, Product;
    Round(s, n, acc);
    ProductFact(acc, n);
    if n >= 3 {
      Loop(Steps(s, 4), n - 1, Product(acc, n));
      StepsAdd(s, 4, 4 * (n - 2));
    } else {
      assert Fact(1) == 1 && Fact(0) == 1;
    }
  }

  lemma {:induction false} BigFactorial(n: nat)
    requires n >= 34
    ensures Fact(n) % TWO32 == 0
  {
    if n == 34 {
      Factorial34();
    } else {
      BigFactorial(n - 1);
      var q := Fact(n - 1) / TWO32;
      assert Fact(n) == n * (q * TWO32);
      assert n * (q * TWO32) == (n * q) * TWO32;
    }
  }

  /** 34! is the first factorial divisible by 2^32. */
  lemma Factorial34()
    ensures Fact(34) % TWO32 == 0
  {
    assert Fact(10) == 3628800;
    assert Fact(20) == 2432902008176640000;
    assert Fact(30) == 265252859812191058636308480000000;
    assert Fact(34) == 295232799039604140847618609643520000000;
  }

  /** For every counter N the loop halts. */
  function Cycles(n: u32): nat {
    if 3 <= n <= 0x8000_0000 then 4 * (n - 1) + 1 else 5
  }

  /** When the loop is over, one cycle before the halt. */
  lemma AfterLoop(s: State, n: u32)
    requires At(s, 4, n, 1)
    ensures var b := Steps(s, Cycles(n) - 1);
            && At(b, 12, b.regs[0], b.regs[1]) && b.cycles == s.cycles + Cycles(n) - 1
            && (b.regs[1] == Fact(n) % TWO32 <==> 1 <= n <= 0x8000_0000)
  {
    hide Step, Steps;
    if 1 <= n <= 0x8000_0000 {
      Loop(s, n, 1);
    } else {
      Round(s, n, 1);
      if n == 0 { assert Fact(0) == 1; } else { BigFactorial(n); }
    }
  }

  /** From address 4 with r0 = N, r1 = 1 and LR = 0 the machine code halts after exactly `Cycles(N)` cycles,
      4 max(N - 1, 1) + 1 for every N from 1 to 2^31, and r1 is N! modulo 2^32 if and only if N lies in that
      range: for N = 0 and for counters that are negative as signed numbers the loop ends after one round. */
  lemma MachineCodeComputesFactorial(s: State, n: u32)
    requires At(s, 4, n, 1)
    ensures var r := Steps(s, Cycles(n));
            && r.halted && r.fault == NoFault && r.cycles == s.cycles + Cycles(n)
            && (r.regs[1] == Fact(n) % TWO32 <==> 1 <= n <= 0x8000_0000)
    ensures Going(Steps(s, Cycles(n) - 1))
  {
    hide Step, Steps, Fact;
    var before := Steps(s, Cycles(n) - 1);
    AfterLoop(s, n);
    StepBx(before, before.regs[0], before.regs[1]);
    StepsAdd(s, Cycles(n) - 1, 1);
    OneStep(before);
  }

  predicate HasProgram(m: Bytes, n: nat) {
    n < 0x100 && Half(m, 0) == 0x2000 + n && Half(m, 2) == 0x2101 && HasLoop(m)
  }

  lemma StepLoadN(s: State, n: nat)
    requires Going(s) && HasProgram(s.mem, n) && s.regs[PC] == 0
    ensures Step(s) == SetReg(SetReg(s, PC, 2), 0, n).(flags := UpdateNZ(s.flags, n), cycles := s.cycles + 1)
  {
    var instr := 0x2000 + n;
    assert Field(instr, 11, 2) == 0 && Field(instr, 8, 3) == 0 && Field(instr, 0, 8) == n by {
      assert Pow2(11) == 2048 && Pow2(2) == 4 && Pow2(8) == 256 && Pow2(3) == 8 && Pow2(0) == 1;
    }
  }

  lemma StepLoadOne(s: State, n: nat)
    requires Going(s) && HasProgram(s.mem, n) && s.regs[PC] == 2
    ensures Step(s) == SetReg(SetReg(s, PC, 4), 1, 1).(flags := UpdateNZ(s.flags, 1), cycles := s.cycles + 1)
  {
    assert Field(0x2101, 11, 2) == 0 && Field(0x2101, 8, 3) == 1 && Field(0x2101, 0, 8) == 1;
  }

  /** The whole program, for every constant N in its first instruction: `run` with any sufficient limit ends
      halted with N! modulo 2^32 in r1 (for N > 0), two cycles after what the loop takes. For the shipped N = 5
      that is 120 after 19 cycles. */
  lemma ProgramComputesFactorial(s: State, n: nat, limit: nat)
    requires Going(s) && HasProgram(s.mem, n) && s.regs[PC] == 0 && s.regs[LR] == 0
    requires limit >= 2 + Cycles(n)
    ensures var (r, steps) := Run(s, limit);
            && r.halted && r.fault == NoFault && r.cycles == s.cycles + 2 + Cycles(n)
            && steps == 1 + Cycles(n)
            && (r.regs[1] == Fact(n) % TWO32 <==> n != 0)
  {
    hide Step, Steps, Run;
    StepLoadN(s, n);
    StepLoadOne(Step(s), n);
    var s2 := Step(Step(s));
    OneStep(s);
    OneStep(Step(s));
    StepsAdd(s, 1, 1);
    assert s2 == Steps(s, 2);
    MachineCodeComputesFactorial(s2, n);
    HaltsInRun(s, 2, Cycles(n), limit);
  }

  /** A program that is still going after `a + b - 1` steps and halted after `a + b` is found so by `run`. */
  lemma HaltsInRun(s: State, a: nat, b: nat, limit: nat)
    requires Going(s) && 0 < b && a + b <= limit
    requires Going(Steps(Steps(s, a), b - 1)) && !Going(Steps(Steps(s, a), b))
    ensures Run(s, limit) == (Steps(Steps(s, a), b), a + b - 1)
  {
    hide Step, Steps, Run;
    var total := a + b;
    StepsAdd(s, a, b);
    StepsAdd(s, a, b - 1);
    RunIsSteps(s, total - 1);
    RunIsSteps(s, total);
    RunInPieces(s, total - 1, 1);
    RunInPieces(s, total, limit - total);
    RunWhenStuck(Steps(s, total), limit - total);
  }
}
