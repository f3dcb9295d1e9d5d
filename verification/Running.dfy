/** Running in one go, in pieces, and in checkpointed batches. */
module Running {
  import opened MemoryMap
  import opened Cpu

  /** `n` single steps. */
  function Steps(s: State, n: nat): State
    decreases n
  {
    if n == 0 then s else Steps(Step(s), n - 1)
  }

  lemma {:induction false} StepsAdd(s: State, a: nat, b: nat)
    ensures Steps(s, a + b) == Steps(Steps(s, a), b)
    decreases a
  {
    hide Step;
    if a > 0 { StepsAdd(Step(s), a - 1, b); }
  }

  lemma StepTakesACycle(s: State)
    requires Going(s) && Going(Step(s))
    ensures Step(s).cycles == s.cycles + 1
  {
    ExecuteKeepsCycles(SetReg(s, PC, Sum(s.regs[PC], 2)), Half(s.mem, Flat(s.regs[PC])));
  }

  lemma {:induction false} PushListKeepsCycles(s: State, list: nat, i: nat)
    requires i <= 8
    ensures PushList(s, list, i).cycles == s.cycles
    decreases i
  {
    if i > 0 && s.fault == NoFault {
      PushListKeepsCycles(if Bit(list, i - 1) then PushWord(s, s.regs[i - 1]) else s, list, i - 1);
    }
  }

  lemma {:induction false} PopListKeepsCycles(s: State, list: nat, i: nat)
    requires i <= 8
    ensures PopList(s, list, i).cycles == s.cycles
    decreases 8 - i
  {
    if i < 8 && s.fault == NoFault {
      PopListKeepsCycles(if Bit(list, i) then PopWord(s, i) else s, list, i + 1);
    }
  }

  lemma {:induction false} MultipleKeepsCycles(s: State, load: bool, list: nat, i: nat, addr: u32)
    requires i <= 8
    ensures MultipleFrom(s, load, list, i, addr).0.cycles == s.cycles
    decreases 8 - i
  {
    if i < 8 && s.fault == NoFault {
      if Bit(list, i) {
        MultipleKeepsCycles(if load then Load32(s, i, addr) else Store32(s, addr, s.regs[i]), load, list, i + 1, Sum(addr, 4));
      } else {
        MultipleKeepsCycles(s, load, list, i + 1, addr);
      }
    }
  }

  lemma PushPopKeepsCycles(s: State, instr: Instr)
    ensures ExecPushPop(s, instr).cycles == s.cycles
  {
    var list := Field(instr, 0, 8);
    PushListKeepsCycles(s, list, 8);
    PushListKeepsCycles(PushWord(s, s.regs[LR]), list, 8);
    PopListKeepsCycles(s, list, 0);
  }

  lemma LdmStmKeepsCycles(s: State, instr: Instr)
    ensures ExecLdmStm(s, instr).cycles == s.cycles
  {
    MultipleKeepsCycles(s, Bit(instr, 11), Field(instr, 0, 8), 0, s.regs[Field(instr, 8, 3)]);
  }

  lemma ExecuteKeepsCycles(s: State, instr: Instr)
    ensures Execute(s, instr).cycles == s.cycles
  {
    hide ExecPushPop, ExecLdmStm, Field, ConditionPasses, ShiftImm, ShiftReg;
    PushPopKeepsCycles(s, instr);
    LdmStmKeepsCycles(s, instr);
  }

  lemma {:induction false} StuckStays(s: State, n: nat)
    requires !Going(s)
    ensures Steps(s, n) == s
    decreases n
  {
    hide Step;
    StepWhenStuck(s);
    if n > 0 { StuckStays(s, n - 1); }
  }

  /** `run` reaches the state of `max` single steps. It counts all of them exactly when the processor is still
      going, and then every one of them took a cycle. */
  lemma {:induction false} RunIsSteps(s: State, max: nat)
    requires Going(s)
    ensures Run(s, max).0 == Steps(s, max)
    ensures Run(s, max).1 == max <==> Going(Steps(s, max))
    ensures Run(s, max).1 == max ==> Steps(s, max).cycles == s.cycles + max
    decreases max
  {
    hide Step;
    if max > 0 {
      if Going(Step(s)) {
        StepTakesACycle(s);
        RunIsSteps(Step(s), max - 1);
      } else {
        StuckStays(Step(s), max - 1);
      }
    }
  }

  /** Running `a + b` steps is running `a` and then `b`. */
  lemma {:induction false} RunInPieces(s: State, a: nat, b: nat)
    ensures Run(s, a + b).0 == Run(Run(s, a).0, b).0
    ensures Run(s, a + b).1 == if Run(s, a).1 == a then a + Run(Run(s, a).0, b).1 else Run(s, a).1
    decreases a
  {
    hide Step;
    if a > 0 {
      if Going(s) && Going(Step(s)) { RunInPieces(Step(s), a - 1, b); }
    }
  }

  // ---- The checkpointed loop ----

  const BATCH: nat := 10_000

  datatype Checkpoint = Checkpoint(cycles: nat, pc: u32)

  datatype Batched = Batched(cpu: State, halted: bool, checkpoints: seq<Checkpoint>)

  /** Batches until the limit is used up, the processor halts, or a fault ends the loop. */
  function RunBatched(s: State, remaining: nat): Batched
    decreases remaining
  {
    if remaining == 0 then Batched(s, false, [])
    else
      var batch := if remaining < BATCH then remaining else BATCH;
      var (s1, done) := Run(s, batch);
      if s1.fault != NoFault then Batched(s1, false, [])
      else if done < batch then Batched(s1, true, [])
      else
        var rest := RunBatched(s1, remaining - done);
        rest.(checkpoints := [Checkpoint(s1.cycles, s1.regs[PC])] + rest.checkpoints)
  }

  /** The limit in steps at which the `j`-th checkpoint is taken. */
  function CheckpointAt(j: nat, max: nat): nat {
    if BATCH * (j + 1) < max then BATCH * (j + 1) else max
  }

  /** The batched loop and one `run` agree on the final state, cycles included, and on whether the program
      completed. A halt or a fault after `steps` counted steps leaves steps / 10000 checkpoints, the limit
      leaves max / 10000 rounded up, and each shows the state of its step. */
  lemma {:induction false} BatchedEqualsPlain(s: State, max: nat)
    requires Going(s)
    ensures var plain, batched := Run(s, max), RunBatched(s, max);
            && batched.cpu == plain.0
            && (plain.0.fault == NoFault ==> batched.halted == (plain.1 < max))
            && (plain.0.fault != NoFault ==> !batched.halted)
            && |batched.checkpoints| ==
                 (if Going(plain.0) then (max + BATCH - 1) / BATCH else plain.1 / BATCH)
            && forall j :: 0 <= j < |batched.checkpoints| ==>
                 batched.checkpoints[j] == Checkpoint(s.cycles + CheckpointAt(j, max),
                                                      Steps(s, CheckpointAt(j, max)).regs[PC])
    decreases max
  {
    hide Run, Step, Steps;
    if max == 0 {
      RunOfZero(s);
    } else {
      var batch := if max < BATCH then max else BATCH;
      RunInPieces(s, batch, max - batch);
      RunIsSteps(s, batch);
      RunIsSteps(s, max);
      var s1 := Run(s, batch).0;
      if Going(s1) {
        BatchedEqualsPlain(s1, max - batch);
        RunIsSteps(s1, max - batch);
        var checkpoints := RunBatched(s, max).checkpoints;
        forall j | 0 <= j < |checkpoints|
          ensures checkpoints[j] == Checkpoint(s.cycles + CheckpointAt(j, max), Steps(s, CheckpointAt(j, max)).regs[PC])
        {
          if j > 0 { StepsAdd(s, batch, CheckpointAt(j - 1, max - batch)); }
        }
      } else {
        RunWhenStuck(s1, max - batch);
      }
    }
  }

  lemma RunWhenStuck(s: State, n: nat)
    requires !Going(s)
    ensures Run(s, n) == (s, 0)
  {
  }

  lemma RunOfZero(s: State)
    ensures Run(s, 0) == (s, 0) && Steps(s, 0) == s
  {
  }
}
