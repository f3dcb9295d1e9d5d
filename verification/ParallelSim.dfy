/** The simulation runner: what one task computes, and the object that runs a task and logs its events. */
module Simulation {
  import opened MemoryMap
  import opened Cpu
  import opened Running

  datatype Event = START | CHECKPOINT | DONE | EXCEPTION

  datatype Record = Record(simId: nat, name: string, event: Event, cycles: nat, pc: u32)

  datatype Task = Task(id: nat, name: string, instructions: seq<Instr>, maxSteps: nat, initialSp: u32,
                       checkpoints: bool)

  /** `exception` is the message, which is empty exactly without an exception. */
  datatype Result = Result(simId: nat, name: string, cycles: nat, completed: bool, exception: string,
                           finalRegs: Registers)

  function HexDigits(v: nat, width: nat): string
    decreases width
  {
    if width == 0 then "" else HexDigits(v / 0x10, width - 1) + ["0123456789ABCDEF"[v % 0x10]]
  }

  function Message(f: Fault): (text: string)
    ensures text == "" <==> f == NoFault
  {
    match f
    case NoFault => ""
    case BusFault(addr) => "Bus fault at 0x" + HexDigits(addr, 8)
    case Undefined(opcode) => "Undefined instruction: 0x" + HexDigits(opcode, 4)
  }

  /** Writing the opcodes from index `i` on, two bytes each. */
  function LoadProgram(m: Bytes, code: seq<Instr>, i: nat): (Bytes, Fault)
    decreases |code| - i
  {
    var addr := Mod32(2 * i);
    if i >= |code| then (m, NoFault)
    else if !Accessible(addr, 2) then (m, BusFault(addr))
    else LoadProgram(PutHalf(m, Flat(addr), code[i]), code, i + 1)
  }

  function Blank(): Bytes { seq(SIZE, _ => 0) }

  /** The processor before its first step, or with the exception that loading raised. */
  function Boot(task: Task): State {
    var (m, fault) := LoadProgram(Blank(), task.instructions, 0);
    var s := Reset(m);
    if fault != NoFault then Trap(s, fault)
    else SetReg(SetReg(SetReg(s, PC, 0), LR, 0), SP, task.initialSp)
  }

  predicate Fits(code: seq<Instr>) { 2 * |code| <= SIZE }

  /** Memory holds the program from address 0 on, two bytes an opcode, and zeros behind it. */
  ghost predicate HoldsProgram(m: Bytes, code: seq<Instr>)
    requires Fits(code)
  {
    && (forall i :: 0 <= i < |code| ==> m[2 * i] == code[i] % 0x100 && m[2 * i + 1] == code[i] / 0x100)
    && forall x :: 2 * |code| <= x < SIZE ==> m[x] == 0
  }

  /** A processor ready for its first step: the program is in memory, PC and LR are 0, the stack pointer is the one
      asked for, and everything else is 0. A program that does not fit stops it with a bus fault at the first address
      behind the memory. */
  ghost predicate Prepared(task: Task, s: State) {
    && s.cycles == 0 && !s.halted && s.blOffset == 0
    && if Fits(task.instructions) then
         && s.fault == NoFault && HoldsProgram(s.mem, task.instructions)
         && s.regs[PC] == 0 && s.regs[LR] == 0 && s.regs[SP] == task.initialSp
         && (forall r :: 0 <= r < SP ==> s.regs[r] == 0)
         && s.flags == Flags(false, false, false, false)
       else s.fault == BusFault(0x1_0000)
  }

  /** Loading from index `i` on stores every opcode that is left, and faults exactly when the program is too long. */
  lemma {:induction false} LoadProgramSpec(m: Bytes, code: seq<Instr>, i: nat)
    requires 2 * i <= SIZE && i <= |code|
    ensures var (m1, fault) := LoadProgram(m, code, i);
            && fault == (if Fits(code) then NoFault else BusFault(0x1_0000))
            && (Fits(code) ==>
                 && (forall j :: i <= j < |code| ==> m1[2 * j] == code[j] % 0x100 && m1[2 * j + 1] == code[j] / 0x100)
                 && (forall x :: 0 <= x < 2 * i || 2 * |code| <= x < SIZE ==> m1[x] == m[x]))
    decreases |code| - i
  {
    if i < |code| && 2 * i < SIZE {
      var m' := PutHalf(m, 2 * i, code[i]);
      assert Flat(2 * i) == 2 * i && Mod32(2 * i) == 2 * i;
      LoadProgramSpec(m', code, i + 1);
    }
  }

  lemma BootIsPrepared(task: Task)
    ensures Prepared(task, Boot(task))
  {
    hide LoadProgram;
    LoadProgramSpec(Blank(), task.instructions, 0);
  }

  /** What is left when the run is over: final state, whether the program completed, checkpoints. */
  function Execution(task: Task): Batched {
    var s := Boot(task);
    if s.fault != NoFault then Batched(s, false, [])
    else if task.checkpoints then RunBatched(s, task.maxSteps)
    else
      var (s1, steps) := Run(s, task.maxSteps);
      Batched(s1, s1.fault == NoFault && steps < task.maxSteps, [])
  }

  function ResultOf(task: Task, s: State, completed: bool): Result {
    Result(task.id, task.name, s.cycles, completed, Message(s.fault), s.regs)
  }

  function RecordOf(task: Task, e: Event, cycles: nat, pc: u32): Record {
    Record(task.id, task.name, e, cycles, pc)
  }

  function CheckpointRecords(task: Task, cs: seq<Checkpoint>): (rs: seq<Record>)
    ensures |rs| == |cs|
  {
    seq(|cs|, i requires 0 <= i < |cs| => RecordOf(task, CHECKPOINT, cs[i].cycles, cs[i].pc))
  }

  function LastRecord(task: Task, s: State): Record {
    RecordOf(task, if s.fault == NoFault then DONE else EXCEPTION, s.cycles, s.regs[PC])
  }

  /** Running one task alone: its result and its log entries. */
  function RunAlone(task: Task): (Result, seq<Record>) {
    var e := Execution(task);
    (ResultOf(task, e.cpu, e.halted),
     [RecordOf(task, START, 0, 0)] + CheckpointRecords(task, e.checkpoints) + [LastRecord(task, e.cpu)])
  }

  lemma BootNotHalted(task: Task)
    ensures !Boot(task).halted
  {
    hide LoadProgram;
  }

  /** Taking checkpoints changes nothing in the result. */
  lemma CheckpointsChangeNoResult(task: Task)
    ensures RunAlone(task.(checkpoints := true)).0 == RunAlone(task.(checkpoints := false)).0
  {
    hide Run, RunBatched, LoadProgram;
    var s := Boot(task);
    assert Boot(task.(checkpoints := true)) == s && Boot(task.(checkpoints := false)) == s;
    assert !s.halted;
    if s.fault == NoFault { BatchedEqualsPlain(s, task.maxSteps); }
  }

  /** A complete log: START, checkpoints, and at last DONE, or EXCEPTION when there is a message. */
  ghost predicate Complete(rs: seq<Record>, result: Result) {
    && |rs| >= 2 && rs[0].event == START
    && (forall i :: 0 < i < |rs| - 1 ==> rs[i].event == CHECKPOINT)
    && rs[|rs| - 1].event == (if result.exception == "" then DONE else EXCEPTION)
    && rs[|rs| - 1].cycles == result.cycles
  }

  lemma RecordShape(task: Task)
    ensures Complete(RunAlone(task).1, RunAlone(task).0)
  {
    hide Run, RunBatched, LoadProgram, Message;
  }
}

module SimulationRunner {
  import opened Cpu
  import opened Running
  import opened Simulation
  import opened Processor

  class TraceCollector {
    var log: seq<Record>

    constructor ()
      ensures log == []
    {
      log := [];
    }

    method Push(r: Record)
      modifies this
      ensures log == old(log) + [r]
    {
      log := log + [r];
    }

    method Drain() returns (all: seq<Record>)
      modifies this
      ensures all == old(log) && log == []
    {
      all := log;
      log := [];
    }
  }

  class Runner {
    const trace: TraceCollector
    var totalRun: nat

    constructor (t: TraceCollector)
      ensures trace == t && totalRun == 0
    {
      trace := t;
      totalRun := 0;
    }

    method LoadInstructions(bus: FlatMemoryBus, code: seq<Instr>) returns (fault: Fault)
      requires bus.Valid()
      modifies bus.data
      ensures (bus.Model(), fault) == LoadProgram(old(bus.Model()), code, 0)
    {
      ghost var start := bus.Model();
      for i := 0 to |code|
        invariant LoadProgram(start, code, 0) == LoadProgram(bus.Model(), code, i)
      {
        var addr := Mod32(2 * i);
        var ok := bus.Write16(addr, code[i]);
        if !ok { return BusFault(addr); }
      }
      fault := NoFault;
    }

    method Batches(cpu: CortexM0, task: Task) returns (halted: bool)
      requires cpu.Valid() && Going(cpu.Model()) && task.checkpoints
      modifies cpu, cpu.regs, cpu.bus.data, trace
      ensures var b := RunBatched(old(cpu.Model()), task.maxSteps);
              && cpu.Model() == b.cpu && halted == b.halted
              && trace.log == old(trace.log) + CheckpointRecords(task, b.checkpoints)
    {
      hide Cpu.Run;
      ghost var all := RunBatched(cpu.Model(), task.maxSteps);
      ghost var taken: seq<Checkpoint> := [];
      var remaining: nat := task.maxSteps;
      while remaining > 0
        invariant cpu.fault == NoFault
        invariant RunBatched(cpu.Model(), remaining).cpu == all.cpu
        invariant RunBatched(cpu.Model(), remaining).halted == all.halted
        invariant taken + RunBatched(cpu.Model(), remaining).checkpoints == all.checkpoints
        invariant trace.log == old(trace.log) + CheckpointRecords(task, taken)
      {
        var batch := if BATCH < remaining then BATCH else remaining;
        var done := cpu.Run(batch);
        if cpu.fault != NoFault { return false; }
        remaining := remaining - done;
        if done < batch { return true; }
        trace.Push(RecordOf(task, CHECKPOINT, cpu.cycles, cpu.regs[PC]));
        taken := taken + [Checkpoint(cpu.cycles, cpu.regs[PC])];
      }
      halted := false;
    }

    /** A processor of its own with the program loaded, or with the exception that loading raised. */
    method Prepare(task: Task) returns (cpu: CortexM0)
      ensures cpu.Valid() && fresh(cpu) && fresh(cpu.regs) && fresh(cpu.bus.data)
      ensures cpu.Model() == Boot(task) && Prepared(task, cpu.Model())
    {
      hide LoadProgram, Prepared;
      BootIsPrepared(task);
      var bus := new FlatMemoryBus();
      assert bus.Model() == Blank();
      cpu := new CortexM0(bus);
      cpu.fault := LoadInstructions(bus, task.instructions);
      if cpu.fault == NoFault {
        cpu.Reset();
        cpu.regs[PC] := 0;
        cpu.regs[LR] := 0;
        cpu.regs[SP] := task.initialSp;
      }
    }

    method RunOne(task: Task) returns (out: Result)
      modifies this, trace
      ensures out == RunAlone(task).0
      ensures trace.log == old(trace.log) + RunAlone(task).1 && totalRun == old(totalRun) + 1
    {
      hide Cpu.Run, RunBatched, Boot, HexDigits;
      trace.Push(RecordOf(task, START, 0, 0));
      var cpu := Prepare(task);
      assert !cpu.halted by { BootNotHalted(task); }
      var completed := false;
      if cpu.fault == NoFault {
        if task.checkpoints {
          completed := Batches(cpu, task);
        } else {
          var steps := cpu.Run(task.maxSteps);
          completed := cpu.fault == NoFault && steps < task.maxSteps;
        }
      }
      out := Result(task.id, task.name, cpu.cycles, completed, Message(cpu.fault), cpu.regs[..]);
      trace.Push(RecordOf(task, if out.exception == "" then DONE else EXCEPTION, out.cycles, out.finalRegs[PC]));
      totalRun := totalRun + 1;
    }
  }
}

/** Any number of simulation threads, interleaved in any order. */
module Interleavings {
  import opened Cpu
  import opened Running
  import opened Simulation
  import opened WaitList

  /** Where a thread is. `Stepping` is inside a call of `run(batch)` that has counted `done` steps. */
  datatype Thread =
    | Begin
    | Loading
    | Looking(cpu: State, remaining: nat)
    | Stepping(cpu: State, done: nat, batch: nat, remaining: nat)
    | Marking(cpu: State, remaining: nat)
    | Reporting(cpu: State, completed: bool)
    | Counting(result: Result)
    | Finished(result: Result)

  /** The call of `run` is over. */
  function AfterRun(task: Task, cpu: State, done: nat, batch: nat, remaining: nat): Thread
    requires done <= batch <= remaining
  {
    if cpu.fault != NoFault then Reporting(cpu, false)
    else if !task.checkpoints || done < batch then Reporting(cpu, done < batch)
    else Marking(cpu, remaining - done)
  }

  predicate WellPlaced(t: Thread) {
    match t
    case Looking(cpu, _) => Going(cpu)
    case Stepping(cpu, done, batch, remaining) => done <= batch <= remaining && Going(cpu)
    case Marking(cpu, _) => Going(cpu)
    case _ => true
  }

  /** One atomic action of a thread: a push, a processor step, or a local decision; with the record pushed. */
  function Advance(task: Task, t: Thread): (Thread, seq<Record>)
    requires WellPlaced(t)
  {
    match t
    case Begin => (Loading, [RecordOf(task, START, 0, 0)])
    case Loading =>
      var s := Boot(task);
      (if s.fault != NoFault then Reporting(s, false)
       else if task.checkpoints then Looking(s, task.maxSteps)
       else Stepping(s, 0, task.maxSteps, task.maxSteps), [])
    case Looking(cpu, remaining) =>
      (if remaining == 0 then Reporting(cpu, false)
       else Stepping(cpu, 0, if remaining < BATCH then remaining else BATCH, remaining), [])
    case Stepping(cpu, done, batch, remaining) =>
      if done == batch then (AfterRun(task, cpu, done, batch, remaining), [])
      else
        var cpu1 := Step(cpu);
        (if Going(cpu1) then Stepping(cpu1, done + 1, batch, remaining)
         else AfterRun(task, cpu1, done, batch, remaining), [])
    case Marking(cpu, remaining) =>
      (Looking(cpu, remaining), [RecordOf(task, CHECKPOINT, cpu.cycles, cpu.regs[PC])])
    case Reporting(cpu, completed) =>
      (Counting(ResultOf(task, cpu, completed)), [LastRecord(task, cpu)])
    case Counting(r) => (Finished(r), [])
    case Finished(_) => (t, [])
  }

  // ---- What a thread still has to do ----

  function AfterLoop(task: Task, b: Batched): (Result, seq<Record>) {
    (ResultOf(task, b.cpu, b.halted), CheckpointRecords(task, b.checkpoints) + [LastRecord(task, b.cpu)])
  }

  /** The rest of the execution from inside `run`. */
  function RestOfRun(task: Task, cpu: State, done: nat, batch: nat, remaining: nat): Batched
    requires done <= batch <= remaining
  {
    var (s1, more) := Run(cpu, batch - done);
    if s1.fault != NoFault then Batched(s1, false, [])
    else if !task.checkpoints || done + more < batch then Batched(s1, done + more < batch, [])
    else
      var rest := RunBatched(s1, remaining - (done + more));
      rest.(checkpoints := [Checkpoint(s1.cycles, s1.regs[PC])] + rest.checkpoints)
  }

  /** The result the thread will have and the records it will still push, if it runs on alone. */
  function Rest(task: Task, t: Thread): (Result, seq<Record>)
    requires WellPlaced(t)
  {
    match t
    case Begin => RunAlone(task)
    case Loading => AfterLoop(task, Execution(task))
    case Looking(cpu, remaining) => AfterLoop(task, RunBatched(cpu, remaining))
    case Stepping(cpu, done, batch, remaining) => AfterLoop(task, RestOfRun(task, cpu, done, batch, remaining))
    case Marking(cpu, remaining) =>
      var b := RunBatched(cpu, remaining);
      AfterLoop(task, b.(checkpoints := [Checkpoint(cpu.cycles, cpu.regs[PC])] + b.checkpoints))
    case Reporting(cpu, completed) => AfterLoop(task, Batched(cpu, completed, []))
    case Counting(r) => (r, [])
    case Finished(r) => (r, [])
  }

  lemma RunStepwise(s: State, n: nat)
    ensures n > 0 && Going(s) ==>
              Run(s, n) == if Going(Step(s)) then (Run(Step(s), n - 1).0, Run(Step(s), n - 1).1 + 1) else (Step(s), 0)
    ensures n == 0 ==> Run(s, n) == (s, 0)
  {
    hide Step;
  }

  lemma SteppingKeepsRest(task: Task, t: Thread)
    requires t.Stepping? && WellPlaced(t)
    ensures WellPlaced(Advance(task, t).0) && Rest(task, Advance(task, t).0) == Rest(task, t)
  {
    hide Message, Step, Run, RunBatched;
    RunStepwise(t.cpu, t.batch - t.done);
  }

  lemma LookingKeepsRest(task: Task, t: Thread)
    requires t.Looking? && WellPlaced(t) && task.checkpoints
    ensures WellPlaced(Advance(task, t).0) && Rest(task, Advance(task, t).0) == Rest(task, t)
  {
    hide Message, Run;
  }

  /** Whatever a thread does next, the records it pushes and those it still has to push are the records of a run
      alone, and its result stays determined. */
  lemma AdvanceKeepsRest(task: Task, t: Thread)
    requires WellPlaced(t) && (t.Looking? || t.Marking? ==> task.checkpoints)
    ensures var (t1, out) := Advance(task, t);
            && WellPlaced(t1) && (t1.Looking? || t1.Marking? ==> task.checkpoints)
            && Rest(task, t1).0 == Rest(task, t).0
            && out + Rest(task, t1).1 == Rest(task, t).1
  {
    hide Message, Step, Run, RunBatched, LoadProgram;
    match t
    case Stepping(_, _, _, _) => SteppingKeepsRest(task, t);
    case Looking(_, _) => LookingKeepsRest(task, t);
    case Marking(cpu, remaining) =>
      var cs, c := RunBatched(cpu, remaining).checkpoints, Checkpoint(cpu.cycles, cpu.regs[PC]);
      assert CheckpointRecords(task, [c] + cs) == [RecordOf(task, CHECKPOINT, c.cycles, c.pc)] + CheckpointRecords(task, cs);
    case _ =>
  }

  // ---- Threads sharing one log ----

  /** A log entry with the thread that pushed it. */
  datatype Entry = Entry(thread: nat, record: Record)

  datatype System = System(threads: seq<Thread>, log: seq<Entry>, drained: seq<Entry>, totalRun: nat)

  datatype Act = Move(i: nat) | Drain

  predicate Enabled(s: System, a: Act) { a.Move? ==> a.i < |s.threads| && WellPlaced(s.threads[a.i]) }

  function Tagged(i: nat, rs: seq<Record>): (es: seq<Entry>)
    ensures |es| == |rs|
  {
    seq(|rs|, j requires 0 <= j < |rs| => Entry(i, rs[j]))
  }

  function Perform(tasks: seq<Task>, s: System, a: Act): System
    requires |tasks| == |s.threads| && Enabled(s, a)
  {
    match a
    case Drain => s.(log := [], drained := s.drained + s.log)
    case Move(i) =>
      var (t1, out) := Advance(tasks[i], s.threads[i]);
      s.(threads := s.threads[i := t1], log := s.log + Tagged(i, out),
         totalRun := s.totalRun + if s.threads[i].Counting? then 1 else 0)
  }

  /** The records of thread `i`, in log order. */
  function Own(es: seq<Entry>, i: nat): seq<Record> {
    if es == [] then []
    else
      var front := Own(es[..|es| - 1], i);
      if es[|es| - 1].thread == i then front + [es[|es| - 1].record] else front
  }

  /** Everything pushed so far: what was drained and what is still in the log. */
  function Everything(s: System): seq<Entry> { s.drained + s.log }

  ghost function FinishedThreads(s: System): set<nat> { set i: nat | i < |s.threads| && s.threads[i].Finished? }

  ghost predicate OnTrack(tasks: seq<Task>, s: System, i: nat)
    requires i < |tasks| == |s.threads|
  {
    var t := s.threads[i];
    && WellPlaced(t) && (t.Looking? || t.Marking? ==> tasks[i].checkpoints)
    && Rest(tasks[i], t).0 == RunAlone(tasks[i]).0
    && Own(Everything(s), i) + Rest(tasks[i], t).1 == RunAlone(tasks[i]).1
  }

  ghost predicate Inv(tasks: seq<Task>, s: System) {
    && |s.threads| == |tasks|
    && (forall i :: 0 <= i < |tasks| ==> OnTrack(tasks, s, i))
    && (forall j :: 0 <= j < |Everything(s)| ==> Everything(s)[j].thread < |tasks|)
    && s.totalRun == |FinishedThreads(s)|
  }

  lemma {:induction false} OwnAppend(es: seq<Entry>, i: nat, rs: seq<Record>, k: nat)
    ensures Own(es + Tagged(i, rs), k) == if k == i then Own(es, k) + rs else Own(es, k)
    decreases |rs|
  {
    if rs == [] {
      assert es + Tagged(i, rs) == es;
    } else {
      var n := |rs| - 1;
      OwnAppend(es, i, rs[..n], k);
      assert (es + Tagged(i, rs))[..|es| + n] == es + Tagged(i, rs[..n]);
      assert rs == rs[..n] + [rs[n]];
    }
  }

  /** The moving thread stays on track: what it pushed now no longer has to be pushed. */
  lemma MoverOnTrack(tasks: seq<Task>, s: System, i: nat)
    requires |tasks| == |s.threads| && i < |tasks| && OnTrack(tasks, s, i)
    ensures Enabled(s, Move(i)) && OnTrack(tasks, Perform(tasks, s, Move(i)), i)
  {
    hide Advance, Rest, RunAlone, Own;
    var s1 := Perform(tasks, s, Move(i));
    var out := Advance(tasks[i], s.threads[i]).1;
    AdvanceKeepsRest(tasks[i], s.threads[i]);
    assert Everything(s1) == Everything(s) + Tagged(i, out);
    OwnAppend(Everything(s), i, out, i);
    var before, after := Own(Everything(s), i), Rest(tasks[i], s1.threads[i]).1;
    assert (before + out) + after == before + (out + after);
  }

  lemma OthersOnTrack(tasks: seq<Task>, s: System, i: nat, k: nat)
    requires |tasks| == |s.threads| && i < |tasks| && Enabled(s, Move(i)) && k < |tasks| && k != i && OnTrack(tasks, s, k)
    ensures OnTrack(tasks, Perform(tasks, s, Move(i)), k)
  {
    hide Advance, Rest, RunAlone, Own;
    var out := Advance(tasks[i], s.threads[i]).1;
    assert Everything(Perform(tasks, s, Move(i))) == Everything(s) + Tagged(i, out);
    OwnAppend(Everything(s), i, out, k);
  }

  lemma MoveKeeps(tasks: seq<Task>, s: System, i: nat)
    requires Inv(tasks, s) && i < |tasks|
    ensures Enabled(s, Move(i)) && Inv(tasks, Perform(tasks, s, Move(i)))
  {
    hide Advance, OnTrack;
    MoverOnTrack(tasks, s, i);
    var s1 := Perform(tasks, s, Move(i));
    CountingThenFinished(tasks[i], s.threads[i]);
    assert Everything(s1) == Everything(s) + Tagged(i, Advance(tasks[i], s.threads[i]).1);
    forall k | 0 <= k < |tasks|
      ensures OnTrack(tasks, s1, k)
    {
      if k != i { OthersOnTrack(tasks, s, i, k); }
    }
    if s.threads[i].Counting? {
      assert FinishedThreads(s1) == FinishedThreads(s) + {i};
    } else {
      assert FinishedThreads(s1) == FinishedThreads(s);
    }
  }

  lemma CountingThenFinished(task: Task, t: Thread)
    requires WellPlaced(t)
    ensures Advance(task, t).0.Finished? <==> t.Counting? || t.Finished?
  {
    hide Step, LoadProgram;
  }

  lemma DrainKeeps(tasks: seq<Task>, s: System)
    requires Inv(tasks, s)
    ensures Inv(tasks, Perform(tasks, s, Drain))
  {
    hide Rest, RunAlone;
    var s1 := Perform(tasks, s, Drain);
    assert Everything(s1) == Everything(s);
    assert FinishedThreads(s1) == FinishedThreads(s);
    forall k | 0 <= k < |tasks|
      ensures OnTrack(tasks, s1, k)
    {
      assert OnTrack(tasks, s, k);
    }
  }

  function Launch(tasks: seq<Task>): System {
    System(seq(|tasks|, _ => Begin), [], [], 0)
  }

  lemma LaunchInv(tasks: seq<Task>)
    ensures Inv(tasks, Launch(tasks))
  {
    hide RunAlone;
    assert FinishedThreads(Launch(tasks)) == {};
  }

  ghost predicate Legal(tasks: seq<Task>, s: System, acts: seq<Act>)
    requires |tasks| == |s.threads|
    decreases acts
  {
    acts == [] || (Enabled(s, acts[0]) && Legal(tasks, Perform(tasks, s, acts[0]), acts[1..]))
  }

  ghost function Outcome(tasks: seq<Task>, s: System, acts: seq<Act>): (r: System)
    requires |tasks| == |s.threads| && Legal(tasks, s, acts)
    ensures |r.threads| == |tasks|
    decreases acts
  {
    if acts == [] then s else Outcome(tasks, Perform(tasks, s, acts[0]), acts[1..])
  }

  lemma {:induction false} ScheduleKeeps(tasks: seq<Task>, s: System, acts: seq<Act>)
    requires Inv(tasks, s) && Legal(tasks, s, acts)
    ensures Inv(tasks, Outcome(tasks, s, acts))
    decreases acts
  {
    hide Perform, Inv;
    if acts != [] {
      PerformKeeps(tasks, s, acts[0]);
      ScheduleKeeps(tasks, Perform(tasks, s, acts[0]), acts[1..]);
    }
  }

  lemma PerformKeeps(tasks: seq<Task>, s: System, a: Act)
    requires Inv(tasks, s) && Enabled(s, a)
    ensures |s.threads| == |tasks| && Inv(tasks, Perform(tasks, s, a))
  {
    hide Perform;
    match a
    case Move(i) => MoveKeeps(tasks, s, i);
    case Drain => DrainKeeps(tasks, s);
  }

  /** Every interleaving of the threads, with drains at any time: each thread's log entries are, in order, the
      beginning of what it logs when run alone, nothing is logged by anyone else, and the run counter counts the
      finished threads. A finished thread has the result of running its task alone and has logged all of it, from
      START through the checkpoints to DONE or EXCEPTION. */
  lemma EveryInterleaving(tasks: seq<Task>, acts: seq<Act>, i: nat)
    requires Legal(tasks, Launch(tasks), acts) && i < |tasks|
    ensures var s := Outcome(tasks, Launch(tasks), acts);
            && Own(Everything(s), i) <= RunAlone(tasks[i]).1
            && (forall j :: 0 <= j < |Everything(s)| ==> Everything(s)[j].thread < |tasks|)
            && s.totalRun == |FinishedThreads(s)|
            && (s.threads[i].Finished? ==>
                  && s.threads[i].result == RunAlone(tasks[i]).0 && Own(Everything(s), i) == RunAlone(tasks[i]).1
                  && Complete(Own(Everything(s), i), s.threads[i].result))
  {
    hide Perform, RunAlone, Own, Everything, Complete;
    RecordShape(tasks[i]);
    LaunchInv(tasks);
    ScheduleKeeps(tasks, Launch(tasks), acts);
    var s := Outcome(tasks, Launch(tasks), acts);
    assert OnTrack(tasks, s, i);
  }

  // ---- Every thread finishes ----

  /** A bound on the actions a thread still needs. A batch of b >= 1 steps takes b + 3 of them. */
  function Work(task: Task, t: Thread): nat
    requires WellPlaced(t)
  {
    match t
    case Begin => Enough(task)
    case Loading => Enough(task) - 1
    case Looking(_, remaining) => 4 * remaining + 3
    case Stepping(_, done, batch, remaining) => 4 * (remaining - batch) + (batch - done) + 5
    case Marking(_, remaining) => 4 * remaining + 4
    case Reporting(_, _) => 2
    case Counting(_) => 1
    case Finished(_) => 0
  }

  function Enough(task: Task): nat { 4 * task.maxSteps + 8 }

  lemma AdvanceComesCloser(task: Task, t: Thread)
    requires WellPlaced(t) && WellPlaced(Advance(task, t).0)
    ensures Work(task, Advance(task, t).0) <= if t.Finished? then 0 else Work(task, t) - 1
    ensures Work(task, t) == 0 <==> t.Finished?
  {
    hide Step, LoadProgram;
  }

  /** How often the schedule moves thread `i`. */
  function Moves(acts: seq<Act>, i: nat): nat {
    if acts == [] then 0 else (if acts[0] == Move(i) then 1 else 0) + Moves(acts[1..], i)
  }

  /** From any state on track, every schedule of existing threads can be followed to its end, and thread `i` comes one
      action closer to its end with every move. */
  lemma {:induction false} ScheduleComesCloser(tasks: seq<Task>, s: System, acts: seq<Act>, i: nat)
    requires Inv(tasks, s) && i < |tasks|
    requires forall j :: 0 <= j < |acts| && acts[j].Move? ==> acts[j].i < |tasks|
    ensures WellPlaced(s.threads[i]) && Legal(tasks, s, acts) && WellPlaced(Outcome(tasks, s, acts).threads[i])
    ensures var left := Work(tasks[i], s.threads[i]) - Moves(acts, i);
            Work(tasks[i], Outcome(tasks, s, acts).threads[i]) <= if left > 0 then left else 0
    decreases acts
  {
    hide Work, Advance, Rest, RunAlone, Own, Everything;
    assert OnTrack(tasks, s, i);
    if acts != [] {
      var a := acts[0];
      if a.Move? { assert OnTrack(tasks, s, a.i); }
      PerformKeeps(tasks, s, a);
      var s1 := Perform(tasks, s, a);
      assert OnTrack(tasks, s1, i);
      if a == Move(i) { AdvanceComesCloser(tasks[i], s.threads[i]); }
      forall j | 0 <= j < |acts[1..]| && acts[1..][j].Move?
        ensures acts[1..][j].i < |tasks|
      {
        assert acts[1..][j] == acts[j + 1];
      }
      ScheduleComesCloser(tasks, s1, acts[1..], i);
    }
  }

  /** Every schedule that moves each thread often enough lets all of them finish, and then the counter has grown by the
      number of tasks. */
  lemma AllFinish(tasks: seq<Task>, acts: seq<Act>)
    requires forall j :: 0 <= j < |acts| && acts[j].Move? ==> acts[j].i < |tasks|
    requires forall i :: 0 <= i < |tasks| ==> Moves(acts, i) >= Enough(tasks[i])
    ensures Legal(tasks, Launch(tasks), acts)
    ensures var s := Outcome(tasks, Launch(tasks), acts);
            (forall i :: 0 <= i < |tasks| ==> s.threads[i].Finished?) && s.totalRun == |tasks|
  {
    hide Perform, Rest, RunAlone, Own;
    LaunchInv(tasks);
    if tasks == [] { NobodyMoves(tasks, Launch(tasks), acts); } else { ScheduleComesCloser(tasks, Launch(tasks), acts, 0); }
    ScheduleKeeps(tasks, Launch(tasks), acts);
    var s := Outcome(tasks, Launch(tasks), acts);
    forall i | 0 <= i < |tasks|
      ensures s.threads[i].Finished?
    {
      ScheduleComesCloser(tasks, Launch(tasks), acts, i);
    }
    assert FinishedThreads(s) == Handles(|tasks|);
  }

  /** Without threads only drains can happen. */
  lemma {:induction false} NobodyMoves(tasks: seq<Task>, s: System, acts: seq<Act>)
    requires |tasks| == |s.threads| == 0 && forall j :: 0 <= j < |acts| ==> acts[j].Drain?
    ensures Legal(tasks, s, acts)
    decreases acts
  {
    if acts != [] { NobodyMoves(tasks, Perform(tasks, s, acts[0]), acts[1..]); }
  }
}
