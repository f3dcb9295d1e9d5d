/** What a simulation task reports, told from its program and the steps of the processor. */
module SimulationResults {
  import opened MemoryMap
  import opened Cpu
  import opened Running
  import opened Simulation
  import opened Factorial

  /** Nothing is left open about the processor before its first step. */
  lemma PreparedIsBoot(task: Task, s: State)
    requires Fits(task.instructions) && Prepared(task, s)
    ensures s == Boot(task)
  {
    hide Boot;
    BootIsPrepared(task);
    var b := Boot(task);
    forall x | 0 <= x < SIZE
      ensures s.mem[x] == b.mem[x]
    {
      if x < 2 * |task.instructions| {
        var i := x / 2;
        assert x == 2 * i || x == 2 * i + 1;
        assert s.mem[2 * i] == b.mem[2 * i] == task.instructions[i] % 0x100;
        assert s.mem[2 * i + 1] == b.mem[2 * i + 1] == task.instructions[i] / 0x100;
      }
    }
    assert s.regs == b.regs;
  }

  /** The number of checkpoints a run of `max` steps leaves, if it counts `steps` of them. */
  function CheckpointCount(task: Task, steps: nat): nat {
    if !task.checkpoints then 0
    else if steps == task.maxSteps then (steps + BATCH - 1) / BATCH
    else steps / BATCH
  }

  /** The log of a task: START, one CHECKPOINT after every 10000 steps and at the limit, and DONE or EXCEPTION with
      the cycles and the program counter of the result. */
  ghost predicate LogOf(task: Task, s: State, out: Result, log: seq<Record>) {
    var last := |log| - 1;
    && last == 1 + CheckpointCount(task, Run(s, task.maxSteps).1)
    && log[0] == Record(task.id, task.name, START, 0, 0)
    && log[last] == Record(task.id, task.name, if out.exception == "" then DONE else EXCEPTION, out.cycles, out.finalRegs[PC])
    && forall j :: 0 <= j < last - 1 ==>
         log[j + 1] == Record(task.id, task.name, CHECKPOINT, CheckpointAt(j, task.maxSteps),
                              Steps(s, CheckpointAt(j, task.maxSteps)).regs[PC])
  }

  /** A task whose program fits reports the registers and cycles that `maxSteps` single steps lead to, with the message
      of the fault if there was one. It counts as completed exactly when the processor halted without a fault. */
  lemma ResultOfRun(task: Task, s: State)
    requires Fits(task.instructions) && Prepared(task, s)
    ensures var end, out := Steps(s, task.maxSteps), RunAlone(task).0;
            && out.simId == task.id && out.name == task.name
            && out.finalRegs == end.regs && out.cycles == end.cycles
            && (out.completed <==> end.halted && end.fault == NoFault)
            && out.exception == Message(end.fault) && (out.exception == "" <==> end.fault == NoFault)
    ensures LogOf(task, s, RunAlone(task).0, RunAlone(task).1)
  {
    hide Boot, Run, Step, Steps, RunBatched, Prepared, CheckpointAt;
    PreparedIsBoot(task, s);
    assert Going(s) by { PreparedGoes(task, s); }
    RunIsSteps(s, task.maxSteps);
    BatchedEqualsPlain(s, task.maxSteps);
    PreparedCycles(task, s);
  }

  lemma PreparedGoes(task: Task, s: State)
    requires Fits(task.instructions) && Prepared(task, s)
    ensures Going(s)
  {
  }

  lemma PreparedCycles(task: Task, s: State)
    requires Prepared(task, s)
    ensures s.cycles == 0
  {
  }

  /** A program that does not fit is never started: its task reports the bus fault and no cycle. */
  lemma ResultOfBadLoad(task: Task)
    requires !Fits(task.instructions)
    ensures var (out, log) := RunAlone(task);
            && out.simId == task.id && out.name == task.name && out.cycles == 0 && !out.completed
            && out.exception == Message(BusFault(0x1_0000))
            && log == [Record(task.id, task.name, START, 0, 0),
                       Record(task.id, task.name, EXCEPTION, 0, out.finalRegs[PC])]
  {
    hide Boot;
    BootIsPrepared(task);
  }

  // ---- Numbers in messages ----

  function DigitValue(c: char): nat {
    if '0' <= c <= '9' then c as nat - '0' as nat
    else if 'A' <= c <= 'F' then c as nat - 'A' as nat + 10
    else 0x10
  }

  ghost function HexValue(text: string): nat {
    if text == "" then 0 else 0x10 * HexValue(text[..|text| - 1]) + DigitValue(text[|text| - 1])
  }

  /** An address or an opcode is shown with its full width in upper-case hexadecimal digits. */
  lemma {:induction false} HexDigitsShow(v: nat, width: nat)
    requires v < Pow2(4 * width)
    ensures var text := HexDigits(v, width);
            && |text| == width && HexValue(text) == v
            && forall i :: 0 <= i < |text| ==> DigitValue(text[i]) < 0x10
    decreases width
  {
    hide Pow2;
    if width > 0 {
      assert Pow2(4 * width) == 0x10 * Pow2(4 * (width - 1)) by { Pow2Adds(4 * (width - 1)); }
      HexDigitsShow(v / 0x10, width - 1);
      var front, c := HexDigits(v / 0x10, width - 1), "0123456789ABCDEF"[v % 0x10];
      assert HexDigits(v, width) == front + [c];
      assert (front + [c])[..width - 1] == front;
      DigitShows(v % 0x10);
    } else {
      PowZero();
    }
  }

  lemma PowZero()
    ensures Pow2(0) == 1
  {
  }

  lemma DigitShows(d: nat)
    requires d < 0x10
    ensures DigitValue("0123456789ABCDEF"[d]) == d
  {
  }

  /** The message of a fault names the kind and shows the address with eight digits or the opcode with four. */
  lemma MessageShows(f: Fault)
    ensures f.BusFault? ==>
              exists digits :: Message(f) == "Bus fault at 0x" + digits && |digits| == 8 && HexValue(digits) == f.addr
    ensures f.Undefined? && f.opcode < 0x1_0000 ==>
              exists digits :: Message(f) == "Undefined instruction: 0x" + digits
                               && |digits| == 4 && HexValue(digits) == f.opcode
  {
    hide HexDigits, HexValue;
    Pow2Sizes();
    match f
    case BusFault(addr) => HexDigitsShow(addr, 8);
    case Undefined(opcode) => if opcode < 0x1_0000 { HexDigitsShow(opcode, 4); }
    case NoFault =>
  }

  lemma Pow2Sizes()
    ensures Pow2(32) == TWO32 && Pow2(16) == 0x1_0000
  {
    Pow2Of32();
    assert Pow2(8) == 0x100;
  }

  lemma Pow2Adds(n: nat)
    ensures Pow2(n + 4) == 0x10 * Pow2(n)
  {
    assert Pow2(n + 2) == 4 * Pow2(n) && Pow2(n + 4) == 4 * Pow2(n + 2);
  }

  // ---- The shipped program as a task ----

  /** The seven opcodes of the factorial program, for the constant `n`. */
  function Shipped(n: nat): seq<Instr>
    requires n < 0x100
  {
    [0x2000 + n, 0x2101, MUL_R1_R0, SUB_R0_1, CMP_R0_1, BGT_LOOP, BX_LR]
  }

  lemma ShippedFits(n: nat)
    requires n < 0x100
    ensures Fits(Shipped(n))
  {
  }

  lemma ShippedInMemory(m: Bytes, n: nat)
    requires n < 0x100 && HoldsProgram(m, Shipped(n))
    ensures HasProgram(m, n)
  {
    var code := Shipped(n);
    forall i | 0 <= i < 7
      ensures Half(m, 2 * i) == code[i]
    {
    }
    assert Half(m, 2 * 0) == code[0] && Half(m, 2 * 1) == code[1] && Half(m, 2 * 2) == code[2];
    assert Half(m, 2 * 3) == code[3] && Half(m, 2 * 4) == code[4] && Half(m, 2 * 5) == code[5];
    assert Half(m, 2 * 6) == code[6];
  }

  /** Given enough steps, the shipped program as a task completes with N! modulo 2^32 in r1, for every N but zero, and
      logs DONE with the cycles it took. */
  lemma FactorialTask(task: Task, n: nat)
    requires n < 0x100 && task.instructions == Shipped(n) && task.maxSteps >= 2 + Cycles(n)
    ensures var (out, log) := RunAlone(task);
            && out.completed && out.exception == "" && out.cycles == 2 + Cycles(n)
            && (out.finalRegs[1] == Fact(n) % TWO32 <==> n != 0)
            && log[|log| - 1] == Record(task.id, task.name, DONE, out.cycles, out.finalRegs[PC])
  {
    hide Boot, Run, Steps, Step, Cycles, Fact, Shipped, HasProgram, HoldsProgram;
    var s := Boot(task);
    BootIsPrepared(task);
    ShippedFits(n);
    ShippedInMemory(s.mem, n);
    ProgramComputesFactorial(s, n, task.maxSteps);
    RunIsSteps(s, task.maxSteps);
    ResultOfRun(task, s);
  }
}
