/** The scheduler's task table as a value, and every kernel call as a function on it.
    The class `Scheduling.Scheduler` carries out these calls in place. */
module KernelCalls {

  const MAX_TASKS: nat := 16
  const INVALID_TASK: nat := 0xFF
  const NO_PRIORITY: nat := 0xFF
  const UINT32_MAX: nat := 0xFFFF_FFFF
  const UINT32: nat := 0x1_0000_0000

  datatype TaskState = READY | RUNNING | BLOCKED | SUSPENDED | DELETED

  datatype TCB = TCB(priority: nat, state: TaskState, resumeTick: nat)

  datatype Kernel = Kernel(tasks: seq<TCB>, tick: nat, current: nat)

  /** A handle is a table index or the invalid handle. */
  predicate WellFormed(k: Kernel) {
    |k.tasks| <= MAX_TASKS && (k.current == INVALID_TASK || k.current < |k.tasks|)
  }

  function SetState(k: Kernel, t: nat, s: TaskState): Kernel
    requires t < |k.tasks|
  {
    k.(tasks := k.tasks[t := k.tasks[t].(state := s)])
  }

  function Priority(k: Kernel, t: nat): nat {
    if t < |k.tasks| then k.tasks[t].priority else NO_PRIORITY
  }

  // ---- Choosing the next task ----

  function BestPriority(tasks: seq<TCB>): nat {
    if tasks == [] then NO_PRIORITY
    else
      var best := BestPriority(tasks[..|tasks| - 1]);
      var t := tasks[|tasks| - 1];
      if t.state == READY && t.priority < best then t.priority else best
  }

  function ScanFrom(tasks: seq<TCB>, start: nat, i: nat, best: nat): nat
    decreases |tasks| - i
  {
    if i >= |tasks| then INVALID_TASK
    else
      var idx := (start + i) % |tasks|;
      if tasks[idx].state == READY && tasks[idx].priority == best then idx
      else ScanFrom(tasks, start, i + 1, best)
  }

  function ScanStart(k: Kernel): nat
    requires k.tasks != []
  {
    if k.current == INVALID_TASK then 0 else (k.current + 1) % |k.tasks|
  }

  function SelectNext(k: Kernel): nat {
    var best := BestPriority(k.tasks);
    if best == NO_PRIORITY || k.tasks == [] then INVALID_TASK
    else ScanFrom(k.tasks, ScanStart(k), 0, best)
  }

  // ---- Simulated time ----

  predicate Pending(t: TCB) { t.state == BLOCKED && t.resumeTick > 0 }

  function WakeOne(t: TCB, now: nat): TCB {
    if Pending(t) && t.resumeTick <= now then t.(state := READY, resumeTick := 0) else t
  }

  function Wake(tasks: seq<TCB>, now: nat): (r: seq<TCB>)
    ensures |r| == |tasks|
  {
    seq(|tasks|, i requires 0 <= i < |tasks| => WakeOne(tasks[i], now))
  }

  function Earliest(tasks: seq<TCB>): nat {
    if tasks == [] then UINT32_MAX
    else
      var e := Earliest(tasks[..|tasks| - 1]);
      var t := tasks[|tasks| - 1];
      if Pending(t) && t.resumeTick < e then t.resumeTick else e
  }

  function PendingCount(tasks: seq<TCB>): nat {
    if tasks == [] then 0
    else PendingCount(tasks[..|tasks| - 1]) + if Pending(tasks[|tasks| - 1]) then 1 else 0
  }

  /** The discrete-event step: move the clock to the earliest wake time and wake what is due. */
  function Jump(k: Kernel): Kernel {
    var now := Earliest(k.tasks);
    k.(tick := now, tasks := Wake(k.tasks, now))
  }

  lemma {:induction false} WakeCount(tasks: seq<TCB>, now: nat)
    ensures PendingCount(Wake(tasks, now)) <= PendingCount(tasks)
    ensures (exists i :: 0 <= i < |tasks| && Pending(tasks[i]) && tasks[i].resumeTick <= now) ==>
              PendingCount(Wake(tasks, now)) < PendingCount(tasks)
  {
    if tasks != [] {
      var n := |tasks| - 1;
      WakeCount(tasks[..n], now);
      assert Wake(tasks, now)[..n] == Wake(tasks[..n], now);
      if i :| 0 <= i < |tasks| && Pending(tasks[i]) && tasks[i].resumeTick <= now {
        assert i < n ==> tasks[..n][i] == tasks[i];
      }
    }
  }

  lemma {:induction false} EarliestSpec(tasks: seq<TCB>)
    ensures Earliest(tasks) <= UINT32_MAX
    ensures forall i :: 0 <= i < |tasks| && Pending(tasks[i]) ==> Earliest(tasks) <= tasks[i].resumeTick
    ensures Earliest(tasks) < UINT32_MAX ==>
              exists i :: 0 <= i < |tasks| && Pending(tasks[i]) && tasks[i].resumeTick == Earliest(tasks)
  {
    if tasks != [] {
      var n := |tasks| - 1;
      var front := tasks[..n];
      EarliestSpec(front);
      if Earliest(front) < UINT32_MAX {
        var i :| 0 <= i < n && Pending(front[i]) && front[i].resumeTick == Earliest(front);
        assert tasks[i] == front[i];
      }
      forall i | 0 <= i < |tasks| && Pending(tasks[i])
        ensures Earliest(tasks) <= tasks[i].resumeTick
      {
        assert i < n ==> front[i] == tasks[i];
      }
    }
  }

  /** Each discrete-event step leaves strictly fewer tasks with a pending wake time, so the dispatch loops end. */
  lemma JumpDecreases(k: Kernel)
    requires Earliest(k.tasks) != UINT32_MAX
    ensures PendingCount(Jump(k).tasks) < PendingCount(k.tasks)
  {
    EarliestSpec(k.tasks);
    WakeCount(k.tasks, Earliest(k.tasks));
  }

  /** The dispatch loop of `schedule_from` and `schedule_after_delete`. */
  function Dispatch(k: Kernel): Kernel
    requires WellFormed(k)
    decreases PendingCount(k.tasks)
  {
    var next := SelectNext(k);
    if next != INVALID_TASK then
      SelectInTable(k);
      SetState(k, next, RUNNING).(current := next)
    else if Earliest(k.tasks) == UINT32_MAX then k.(current := INVALID_TASK)
    else
      JumpDecreases(k);
      Dispatch(Jump(k))
  }

  lemma SelectInTable(k: Kernel)
    ensures SelectNext(k) == INVALID_TASK || SelectNext(k) < |k.tasks|
  {
    if k.tasks != [] { ScanInTable(k.tasks, ScanStart(k), 0, BestPriority(k.tasks)); }
  }

  lemma {:induction false} ScanInTable(tasks: seq<TCB>, start: nat, i: nat, best: nat)
    ensures ScanFrom(tasks, start, i, best) == INVALID_TASK || ScanFrom(tasks, start, i, best) < |tasks|
    decreases |tasks| - i
  {
    if i < |tasks| { ScanInTable(tasks, start, i + 1, best); }
  }

  // ---- Kernel calls ----

  function Start(k: Kernel): Kernel {
    var first := SelectNext(k);
    if first == INVALID_TASK then k
    else
      SelectInTable(k);
      SetState(k, first, RUNNING).(current := first)
  }

  function Create(k: Kernel, priority: nat): Kernel {
    if |k.tasks| >= MAX_TASKS then k
    else k.(tasks := k.tasks + [TCB(priority, READY, 0)])
  }

  function Delay(k: Kernel, ticks: nat): Kernel
    requires WellFormed(k)
  {
    if k.current == INVALID_TASK then k
    else if ticks == 0 then Dispatch(SetState(k, k.current, READY))
    else
      var me := k.tasks[k.current].(resumeTick := (k.tick + ticks) % UINT32, state := BLOCKED);
      Dispatch(k.(tasks := k.tasks[k.current := me]))
  }

  /** A task leaves the processor in state `s`: suspended, deleted or blocked. */
  function Leave(k: Kernel, t: nat, s: TaskState): Kernel
    requires WellFormed(k)
  {
    if t >= |k.tasks| then k
    else if t == k.current then Dispatch(SetState(k, t, s))
    else SetState(k, t, s)
  }

  function Suspend(k: Kernel, t: nat): Kernel
    requires WellFormed(k)
  {
    Leave(k, t, SUSPENDED)
  }

  function Delete(k: Kernel, t: nat): Kernel
    requires WellFormed(k)
  {
    Leave(k, t, DELETED)
  }

  function Resume(k: Kernel, t: nat): Kernel {
    if t < |k.tasks| && k.tasks[t].state == SUSPENDED then SetState(k, t, READY) else k
  }

  function BlockCurrent(k: Kernel): Kernel
    requires WellFormed(k)
  {
    if k.current == INVALID_TASK then k else Dispatch(SetState(k, k.current, BLOCKED))
  }

  function Unblock(k: Kernel, t: nat): Kernel
    requires WellFormed(k)
  {
    if t >= |k.tasks| || k.tasks[t].state != BLOCKED then k
    else
      var k1 := SetState(k, t, READY);
      if k.current != INVALID_TASK && k.tasks[t].priority < k.tasks[k.current].priority
      then Dispatch(SetState(k1, k.current, READY))
      else k1
  }

  /** Injected time: the clock moves by `ms` modulo 2^32 and every task that is due becomes READY. */
  function AdvanceTime(k: Kernel, ms: nat): Kernel {
    var now := (k.tick + ms) % UINT32;
    k.(tick := now, tasks := Wake(k.tasks, now))
  }

  function Tick(k: Kernel, ms: nat): Kernel
    requires WellFormed(k)
  {
    var k1 := AdvanceTime(k, ms);
    var next := SelectNext(k1);
    SelectInTable(k1);
    if next != INVALID_TASK && k.current != INVALID_TASK
       && k1.tasks[next].priority < k1.tasks[k.current].priority
    then Dispatch(SetState(k1, k.current, READY))
    else k1
  }
}
