/** The scheduler object: a fixed table of task control blocks, updated in place. */
module Scheduling {
  import opened KernelCalls

  class Scheduler {
    const tasks: array<TCB>
    var taskCount: nat
    var tickCount: nat
    var current: nat

    ghost predicate Valid()
      reads this
    {
      && tasks.Length == MAX_TASKS && taskCount <= MAX_TASKS
      && (current == INVALID_TASK || current < taskCount)
    }

    /** The part of the object that the kernel calls are specified on. */
    ghost function Model(): (k: Kernel)
      requires Valid()
      reads this, tasks
      ensures WellFormed(k)
    {
      Kernel(tasks[..taskCount], tickCount, current)
    }

    constructor ()
      ensures Valid() && fresh(tasks)
      ensures Model() == Kernel([], 0, INVALID_TASK)
    {
      tasks := new TCB[MAX_TASKS](_ => TCB(7, DELETED, 0));
      taskCount, tickCount, current := 0, 0, INVALID_TASK;
    }

    method XTaskCreate(priority: nat) returns (id: nat)
      requires Valid()
      modifies this`taskCount, tasks
      ensures Valid() && Model() == Create(old(Model()), priority)
      ensures id == if old(taskCount) < MAX_TASKS then old(taskCount) else INVALID_TASK
      ensures id != INVALID_TASK ==> tasks[..taskCount] == old(tasks[..taskCount]) + [TCB(priority, READY, 0)]
      ensures id == INVALID_TASK ==> tasks[..] == old(tasks[..]) && taskCount == old(taskCount)
    {
      if taskCount >= MAX_TASKS { return INVALID_TASK; }
      id := taskCount;
      taskCount := taskCount + 1;
      tasks[id] := TCB(priority, READY, 0);
    }

    method GetPriority(t: nat) returns (p: nat)
      requires Valid()
      ensures p == Priority(Model(), t)
    {
      if t >= taskCount { return NO_PRIORITY; }
      p := tasks[t].priority;
    }

    method BestReady() returns (best: nat)
      requires Valid()
      ensures best == BestPriority(Model().tasks)
    {
      best := NO_PRIORITY;
      for i := 0 to taskCount
        invariant best == BestPriority(tasks[..i])
      {
        assert tasks[..i + 1][..i] == tasks[..i];
        if tasks[i].state == READY && tasks[i].priority < best { best := tasks[i].priority; }
      }
    }

    method FirstFrom(start: nat, best: nat) returns (next: nat)
      requires Valid() && taskCount > 0
      ensures next == ScanFrom(Model().tasks, start, 0, best)
    {
      ghost var table := Model().tasks;
      for i := 0 to taskCount
        invariant ScanFrom(table, start, 0, best) == ScanFrom(table, start, i, best)
      {
        var idx := (start + i) % taskCount;
        assert table[idx] == tasks[idx];
        if tasks[idx].state == READY && tasks[idx].priority == best { return idx; }
      }
      next := INVALID_TASK;
    }

    method SelectNext() returns (next: nat)
      requires Valid()
      ensures next == KernelCalls.SelectNext(Model())
      ensures next == INVALID_TASK || next < taskCount
    {
      SelectInTable(Model());
      var best := BestReady();
      if best == NO_PRIORITY || taskCount == 0 { return INVALID_TASK; }
      next := FirstFrom(if current == INVALID_TASK then 0 else (current + 1) % taskCount, best);
    }

    method EarliestWake() returns (earliest: nat)
      requires Valid()
      ensures earliest == Earliest(Model().tasks)
    {
      earliest := UINT32_MAX;
      for i := 0 to taskCount
        invariant earliest == Earliest(tasks[..i])
      {
        assert tasks[..i + 1][..i] == tasks[..i];
        if tasks[i].state == BLOCKED && tasks[i].resumeTick > 0 && tasks[i].resumeTick < earliest {
          earliest := tasks[i].resumeTick;
        }
      }
    }

    method WakeDue()
      requires Valid()
      modifies tasks
      ensures Model() == old(Model()).(tasks := Wake(old(Model()).tasks, tickCount))
    {
      for i := 0 to taskCount
        invariant forall j :: 0 <= j < i ==> tasks[j] == WakeOne(old(tasks[j]), tickCount)
        invariant forall j :: i <= j < taskCount ==> tasks[j] == old(tasks[j])
      {
        if tasks[i].state == BLOCKED && tasks[i].resumeTick > 0 && tasks[i].resumeTick <= tickCount {
          tasks[i] := tasks[i].(state := READY, resumeTick := 0);
        }
      }
    }

    /** `schedule_from` and `schedule_after_delete` up to the context switch. What follows the switch in
        `schedule_from` marks the resumed task RUNNING, which its dispatcher has already done. */
    method ScheduleFrom()
      requires Valid()
      modifies this`tickCount, this`current, tasks
      ensures Valid() && Model() == Dispatch(old(Model()))
    {
      while true
        invariant Valid() && Dispatch(Model()) == Dispatch(old(Model()))
        decreases PendingCount(Model().tasks)
      {
        var next := SelectNext();
        if next != INVALID_TASK {
          current := next;
          tasks[next] := tasks[next].(state := RUNNING);
          return;
        }
        var earliest := EarliestWake();
        if earliest == UINT32_MAX {
          current := INVALID_TASK;
          return;
        }
        JumpDecreases(Model());
        tickCount := earliest;
        WakeDue();
      }
    }

    method MarkAndSwitch(s: TaskState)
      requires Valid() && current != INVALID_TASK
      modifies this`tickCount, this`current, tasks
      ensures Valid() && Model() == Dispatch(SetState(old(Model()), old(current), s))
    {
      tasks[current] := tasks[current].(state := s);
      assert Model() == SetState(old(Model()), current, s);
      ScheduleFrom();
    }

    method VTaskStartScheduler()
      requires Valid()
      modifies this`current, tasks
      ensures Valid() && Model() == Start(old(Model()))
    {
      var first := SelectNext();
      if first == INVALID_TASK { return; }
      current := first;
      tasks[first] := tasks[first].(state := RUNNING);
    }

    method VTaskDelay(ticks: nat)
      requires Valid()
      modifies this`tickCount, this`current, tasks
      ensures Valid() && Model() == Delay(old(Model()), ticks)
    {
      if current == INVALID_TASK { return; }
      if ticks == 0 {
        MarkAndSwitch(READY);
        return;
      }
      tasks[current] := tasks[current].(resumeTick := (tickCount + ticks) % UINT32);
      ghost var k := Model();
      MarkAndSwitch(BLOCKED);
      assert SetState(k, old(current), BLOCKED).tasks
          == old(Model()).tasks[old(current) :=
               old(Model()).tasks[old(current)].(resumeTick := (old(tickCount) + ticks) % UINT32, state := BLOCKED)];
    }

    method VTaskSuspend(t: nat)
      requires Valid()
      modifies this`tickCount, this`current, tasks
      ensures Valid() && Model() == Suspend(old(Model()), t)
    {
      if t >= taskCount { return; }
      tasks[t] := tasks[t].(state := SUSPENDED);
      assert Model() == SetState(old(Model()), t, SUSPENDED);
      if t == current { ScheduleFrom(); }
    }

    method VTaskResume(t: nat)
      requires Valid()
      modifies tasks
      ensures Valid() && Model() == Resume(old(Model()), t)
    {
      if t >= taskCount { return; }
      if tasks[t].state == SUSPENDED {
        tasks[t] := tasks[t].(state := READY);
        assert Model() == SetState(old(Model()), t, READY);
      }
    }

    method VTaskDelete(t: nat)
      requires Valid()
      modifies this`tickCount, this`current, tasks
      ensures Valid() && Model() == Delete(old(Model()), t)
    {
      if t >= taskCount { return; }
      tasks[t] := tasks[t].(state := DELETED);
      assert Model() == SetState(old(Model()), t, DELETED);
      if t == current { ScheduleFrom(); }
    }

    method BlockCurrent()
      requires Valid()
      modifies this`tickCount, this`current, tasks
      ensures Valid() && Model() == KernelCalls.BlockCurrent(old(Model()))
    {
      if current == INVALID_TASK { return; }
      MarkAndSwitch(BLOCKED);
    }

    method Unblock(t: nat)
      requires Valid()
      modifies this`tickCount, this`current, tasks
      ensures Valid() && Model() == KernelCalls.Unblock(old(Model()), t)
    {
      if t >= taskCount || tasks[t].state != BLOCKED { return; }
      tasks[t] := tasks[t].(state := READY);
      assert Model() == SetState(old(Model()), t, READY);
      if current != INVALID_TASK && tasks[t].priority < tasks[current].priority {
        MarkAndSwitch(READY);
      }
    }

    method AdvanceTime(ms: nat)
      requires Valid()
      modifies this`tickCount, tasks
      ensures Model() == KernelCalls.AdvanceTime(old(Model()), ms)
    {
      tickCount := (tickCount + ms) % UINT32;
      WakeDue();
    }

    method Tick(ms: nat)
      requires Valid()
      modifies this`tickCount, this`current, tasks
      ensures Valid() && Model() == KernelCalls.Tick(old(Model()), ms)
    {
      AdvanceTime(ms);
      var next := SelectNext();
      if next != INVALID_TASK && current != INVALID_TASK && tasks[next].priority < tasks[current].priority {
        MarkAndSwitch(READY);
      }
    }
  }
}
