/** What every kernel call does to the table, told entry by entry. */
module KernelEffects {
  import opened KernelCalls
  import opened KernelProperties

  /** Apart from task `t`, tables `k` and `k1` hold the same entries. */
  ghost predicate SameBut(k: Kernel, k1: Kernel, t: nat) {
    |k1.tasks| == |k.tasks| && forall i :: 0 <= i < |k.tasks| && i != t ==> k1.tasks[i] == k.tasks[i]
  }

  /** Who has the processor after a call that ran the scheduler: nobody, if nothing is READY and no wake time is
      pending; else a task that no READY task outranks, and of equally urgent ones the first after the caller. */
  ghost predicate NextRuns(k: Kernel, k1: Kernel)
    requires WellFormed(k) && WellFormed(k1) && |k1.tasks| == |k.tasks|
  {
    if k1.current == INVALID_TASK then
      k1.tick == k.tick && forall i :: 0 <= i < |k1.tasks| ==> !Ready(k1.tasks[i]) && k1.tasks[i].resumeTick == 0
    else Urgent(k1, k1.tasks[k1.current].priority) && InTurn(k, k1)
  }

  /** What happens to the others while the scheduler looks for the next task: a READY task may get the processor,
      a delay may end, exactly on time, and the clock stands still as long as there is a READY task. */
  ghost predicate OthersStep(k: Kernel, k1: Kernel, me: nat) {
    && |k1.tasks| == |k.tasks| && k.tick <= k1.tick
    && (forall i :: 0 <= i < |k.tasks| && i != me ==> TaskStep(k.tasks[i], k1.tasks[i], k1.tick))
    && ((exists i :: 0 <= i < |k.tasks| && i != me && Ready(k.tasks[i])) ==> k1.tick == k.tick)
  }

  /** The running task gives up the processor with the control block `mark`. */
  lemma LeavingEffect(k: Kernel, mark: TCB)
    requires Consistent(k) && k.current != INVALID_TASK
    requires Sound(mark, k.tick) && mark.state != RUNNING
    ensures var k1 := Dispatch(k.(tasks := k.tasks[k.current := mark]));
            && Consistent(k1) && OthersStep(k, k1, k.current) && NextRuns(k, k1)
            && TaskStep(mark, k1.tasks[k.current], k1.tick)
            && (mark.state == READY ==> k1.tick == k.tick)
  {
    hide Dispatch;
    var m := k.(tasks := k.tasks[k.current := mark]);
    DispatchSpec(m);
    var k1 := Dispatch(m);
    forall i | 0 <= i < |k.tasks| && i != k.current
      ensures TaskStep(k.tasks[i], k1.tasks[i], k1.tick)
      ensures Ready(k.tasks[i]) ==> k1.tick == k.tick
    {
      assert m.tasks[i] == k.tasks[i] && TaskStep(m.tasks[i], k1.tasks[i], k1.tick);
      if Ready(k.tasks[i]) { assert Ready(m.tasks[i]); }
    }
    if mark.state == READY { assert Ready(m.tasks[k.current]); }
  }

  // ---- xTaskCreate ----

  /** Creation fills the next entry with the requested priority, READY and without a wake time, and changes
      nothing else; a full table stays as it is. */
  lemma CreateEffect(k: Kernel, priority: nat)
    ensures var k1 := Create(k, priority);
            && k1.tick == k.tick && k1.current == k.current
            && (|k.tasks| >= MAX_TASKS ==> k1 == k)
            && (|k.tasks| < MAX_TASKS ==>
                 && |k1.tasks| == |k.tasks| + 1
                 && (forall i :: 0 <= i < |k.tasks| ==> k1.tasks[i] == k.tasks[i])
                 && k1.tasks[|k.tasks|].priority == priority
                 && k1.tasks[|k.tasks|].state == READY
                 && k1.tasks[|k.tasks|].resumeTick == 0)
  {
  }

  // ---- vTaskDelay ----

  /** The caller sleeps: it is BLOCKED until tick + d, and back among the READY tasks, or running, only at exactly
      that tick. */
  lemma SleepEffect(k: Kernel, d: nat)
    requires Consistent(k) && k.current != INVALID_TASK && 0 < d && k.tick + d < UINT32_MAX
    ensures var me, k1 := k.current, Delay(k, d);
            && Consistent(k1) && OthersStep(k, k1, me) && NextRuns(k, k1)
            && k1.tasks[me].priority == k.tasks[me].priority
            && (if k1.tick < k.tick + d
                then k1.tasks[me].state == BLOCKED && k1.tasks[me].resumeTick == k.tick + d
                else k1.tick == k.tick + d && k1.tasks[me].resumeTick == 0
                     && (k1.tasks[me].state == READY || k1.tasks[me].state == RUNNING))
  {
    hide Dispatch;
    LeavingEffect(k, k.tasks[k.current].(resumeTick := k.tick + d, state := BLOCKED));
  }

  /** Whatever the argument, the wake time is the 32-bit sum, so a delay past the end of the clock is due in the
      past, and one that ends exactly there is never due. */
  lemma SleepWraps(k: Kernel, d: nat, i: nat)
    requires WellFormed(k) && k.current != INVALID_TASK && 0 < d
    requires i < |k.tasks| && i != k.current && Ready(k.tasks[i]) && k.tasks[i].priority < NO_PRIORITY
    ensures var me, k1 := k.current, Delay(k, d);
            && |k1.tasks| == |k.tasks| && k1.tick == k.tick
            && k1.tasks[me] == TCB(k.tasks[me].priority, BLOCKED, (k.tick + d) % UINT32)
  {
    var m := k.(tasks := k.tasks[k.current :=
                  k.tasks[k.current].(resumeTick := (k.tick + d) % UINT32, state := BLOCKED)]);
    SelectSpec(m);
    assert Ready(m.tasks[i]);
    assert Ready(m.tasks[SelectNext(m)]);
  }

  /** A delay of zero yields: no time passes, and the caller goes on exactly when every other READY task is less
      urgent. */
  lemma YieldEffect(k: Kernel)
    requires Consistent(k) && k.current != INVALID_TASK
    ensures var me, k1 := k.current, Delay(k, 0);
            && Consistent(k1) && OthersStep(k, k1, me) && NextRuns(k, k1)
            && k1.tick == k.tick && k1.current != INVALID_TASK
            && k1.tasks[me].priority == k.tasks[me].priority && k1.tasks[me].resumeTick == 0
            && (k1.tasks[me].state == READY || k1.tasks[me].state == RUNNING)
            && (k1.current == me <==>
                 forall i :: 0 <= i < |k.tasks| && Ready(k.tasks[i]) ==> k.tasks[me].priority < k.tasks[i].priority)
  {
    hide Dispatch;
    var me, k1, n := k.current, Delay(k, 0), |k.tasks|;
    assert k.tasks[me].resumeTick == 0 by { assert Sound(k.tasks[me], k.tick); }
    LeavingEffect(k, k.tasks[me].(state := READY));
    assert Ready(k1.tasks[me]) || k1.current == me;
    AroundLast(me, n);
    forall i | 0 <= i < n && Ready(k.tasks[i])
      ensures i != me && k1.tasks[i].priority == k.tasks[i].priority
      ensures k1.current == me ==> Ready(k1.tasks[i])
      ensures Around(ScanStart(k), i, n) < Around(ScanStart(k), me, n)
    {
      assert TaskStep(k.tasks[i], k1.tasks[i], k1.tick);
    }
    if k1.current != me {
      assert Ready(k.tasks[k1.current]) by {
        assert TaskStep(k.tasks[k1.current], k1.tasks[k1.current], k1.tick);
        assert Sound(k.tasks[k1.current], k.tick);
      }
    }
  }

  // ---- vTaskSuspend, vTaskDelete, block_current ----

  /** The caller takes itself off the processor in state `s` and stays in it. */
  ghost predicate LeftIn(k: Kernel, k1: Kernel, s: TaskState)
    requires WellFormed(k) && k.current != INVALID_TASK
  {
    && Consistent(k1) && OthersStep(k, k1, k.current) && NextRuns(k, k1)
    && k1.tasks[k.current] == TCB(k.tasks[k.current].priority, s, 0)
  }

  /** Another task than the caller only changes its state, and nobody is scheduled. */
  ghost predicate OnlyMarked(k: Kernel, k1: Kernel, t: nat, s: TaskState) {
    && k1.tick == k.tick && k1.current == k.current && SameBut(k, k1, t)
    && (t < |k.tasks| ==> k1.tasks[t] == TCB(k.tasks[t].priority, s, k.tasks[t].resumeTick))
  }

  lemma SuspendEffect(k: Kernel, t: nat)
    requires Consistent(k)
    ensures t == k.current != INVALID_TASK ==> LeftIn(k, Suspend(k, t), SUSPENDED)
    ensures t != k.current ==> OnlyMarked(k, Suspend(k, t), t, SUSPENDED)
  {
    hide Dispatch;
    if t == k.current != INVALID_TASK {
      assert Sound(k.tasks[t], k.tick);
      LeavingEffect(k, k.tasks[t].(state := SUSPENDED));
    }
  }

  lemma DeleteEffect(k: Kernel, t: nat)
    requires Consistent(k)
    ensures t == k.current != INVALID_TASK ==> LeftIn(k, Delete(k, t), DELETED)
    ensures t != k.current ==> OnlyMarked(k, Delete(k, t), t, DELETED)
  {
    hide Dispatch;
    if t == k.current != INVALID_TASK {
      assert Sound(k.tasks[t], k.tick);
      LeavingEffect(k, k.tasks[t].(state := DELETED));
    }
  }

  lemma BlockEffect(k: Kernel)
    requires Consistent(k)
    ensures k.current != INVALID_TASK ==> LeftIn(k, BlockCurrent(k), BLOCKED)
    ensures k.current == INVALID_TASK ==> BlockCurrent(k) == k
  {
    hide Dispatch;
    if k.current != INVALID_TASK {
      assert Sound(k.tasks[k.current], k.tick);
      LeavingEffect(k, k.tasks[k.current].(state := BLOCKED));
    }
  }

  // ---- vTaskResume, unblock ----

  /** Only a SUSPENDED task is resumed; it becomes READY, and the caller goes on whatever its priority. */
  lemma ResumeEffect(k: Kernel, t: nat)
    ensures var k1 := Resume(k, t);
            if t < |k.tasks| && k.tasks[t].state == SUSPENDED then OnlyMarked(k, k1, t, READY) else k1 == k
  {
  }

  /** Only a BLOCKED task is unblocked. Unless it is more urgent than the caller, it becomes READY and the caller
      goes on. If it is, and it was not sleeping, the caller is preempted: it stays READY, no time passes, and the
      scheduler chooses. */
  lemma UnblockEffect(k: Kernel, t: nat)
    requires Consistent(k)
    ensures var k1, me := Unblock(k, t), k.current;
            if t >= |k.tasks| || k.tasks[t].state != BLOCKED then k1 == k
            else if me == INVALID_TASK || k.tasks[t].priority >= k.tasks[me].priority then OnlyMarked(k, k1, t, READY)
            else k.tasks[t].resumeTick == 0 ==>
              && Consistent(k1) && |k1.tasks| == |k.tasks| && k1.tick == k.tick && NextRuns(k, k1)
              && k1.current != INVALID_TASK && k1.current != me && k1.tasks[me] == k.tasks[me].(state := READY)
              && k1.tasks[t].priority == k.tasks[t].priority && k1.tasks[t].resumeTick == 0
              && (k1.tasks[t].state == READY || k1.tasks[t].state == RUNNING)
              && forall i :: 0 <= i < |k.tasks| && i != t && i != me ==> TaskStep(k.tasks[i], k1.tasks[i], k1.tick)
  {
    hide Dispatch;
    var k1, me := Unblock(k, t), k.current;
    if t < |k.tasks| && k.tasks[t].state == BLOCKED && me != INVALID_TASK
       && k.tasks[t].priority < k.tasks[me].priority && k.tasks[t].resumeTick == 0
    {
      var m := SetState(SetState(k, t, READY), me, READY);
      assert Sound(k.tasks[t], k.tick) && Sound(k.tasks[me], k.tick);
      DispatchSpec(m);
      assert Ready(m.tasks[t]) && k1 == Dispatch(m);
      assert TaskStep(m.tasks[t], k1.tasks[t], k1.tick);
      assert TaskStep(m.tasks[me], k1.tasks[me], k1.tick);
      assert Ready(k1.tasks[t]) || k1.current == t;
      forall i | 0 <= i < |k.tasks| && i != t && i != me
        ensures TaskStep(k.tasks[i], k1.tasks[i], k1.tick)
      {
        assert TaskStep(m.tasks[i], k1.tasks[i], k1.tick);
      }
    }
  }

  // ---- tick ----

  /** Injected time moves the clock by `ms` in 32 bits and readies exactly the BLOCKED tasks whose wake time is set
      and not after the new time. */
  lemma AdvanceEffect(k: Kernel, ms: nat)
    ensures var k1 := AdvanceTime(k, ms); var now := k1.tick;
            && now == (k.tick + ms) % UINT32 && k1.current == k.current && |k1.tasks| == |k.tasks|
            && forall i :: 0 <= i < |k.tasks| ==>
                 var t := k.tasks[i];
                 if t.state == BLOCKED && 0 < t.resumeTick <= now
                 then k1.tasks[i] == TCB(t.priority, READY, 0)
                 else k1.tasks[i] == t
  {
  }

  /** Task `i` is READY or comes due as the clock moves by `ms`. */
  ghost predicate ReadyBy(k: Kernel, ms: nat, i: nat)
    requires i < |k.tasks|
  {
    var t := k.tasks[i];
    t.state == READY || (t.state == BLOCKED && 0 < t.resumeTick <= k.tick + ms)
  }

  lemma AdvanceReadies(k: Kernel, ms: nat)
    requires Consistent(k) && k.tick + ms < UINT32_MAX
    ensures var a := AdvanceTime(k, ms);
            && Consistent(a)
            && forall i :: 0 <= i < |k.tasks| ==>
                 a.tasks[i].priority == k.tasks[i].priority && (Ready(a.tasks[i]) <==> ReadyBy(k, ms, i))
  {
    var a := AdvanceTime(k, ms);
    AdvanceEffect(k, ms);
    forall i | 0 <= i < |k.tasks|
      ensures Sound(a.tasks[i], a.tick) && (a.tasks[i].state == RUNNING <==> k.tasks[i].state == RUNNING)
      ensures k.current == INVALID_TASK ==> a.tasks[i].resumeTick == 0
    {
      assert Sound(k.tasks[i], k.tick);
    }
  }

  /** A task more urgent than the running one is READY by the time `ms` later. */
  ghost predicate Outranked(k: Kernel, ms: nat) {
    k.current < |k.tasks|
    && exists i :: 0 <= i < |k.tasks| && ReadyBy(k, ms, i) && k.tasks[i].priority < k.tasks[k.current].priority
  }

  /** The running task was put back among the READY ones, and the scheduler chose another in no time. */
  ghost predicate Preempted(k: Kernel, k1: Kernel) {
    && Consistent(k1) && |k1.tasks| == |k.tasks| && k1.tick == k.tick
    && WellFormed(k) && k.current != INVALID_TASK && k1.current != INVALID_TASK && k1.current != k.current
    && k1.tasks[k.current] == k.tasks[k.current].(state := READY)
    && Urgent(k1, k1.tasks[k1.current].priority) && InTurn(k, k1)
    && forall i :: 0 <= i < |k.tasks| && i != k.current ==> TaskStep(k.tasks[i], k1.tasks[i], k1.tick)
  }

  /** The running task is preempted in favour of a READY task that outranks it. */
  lemma PreemptionEffect(k: Kernel)
    requires Consistent(k) && k.current != INVALID_TASK
    requires exists i :: 0 <= i < |k.tasks| && Ready(k.tasks[i]) && k.tasks[i].priority < k.tasks[k.current].priority
    ensures Preempted(k, Dispatch(SetState(k, k.current, READY)))
  {
    hide Dispatch;
    var me := k.current;
    assert Sound(k.tasks[me], k.tick);
    LeavingEffect(k, k.tasks[me].(state := READY));
    var k1 := Dispatch(SetState(k, me, READY));
    var i :| 0 <= i < |k.tasks| && Ready(k.tasks[i]) && k.tasks[i].priority < k.tasks[me].priority;
    assert TaskStep(k.tasks[i], k1.tasks[i], k1.tick);
    assert Ready(k1.tasks[i]) || k1.current == i;
  }

  lemma BelowNoPriority(k: Kernel, i: nat)
    requires Consistent(k) && i < |k.tasks|
    ensures k.tasks[i].priority < NO_PRIORITY
  {
    assert Sound(k.tasks[i], k.tick);
  }

  /** A tick preempts the running task exactly when a task more urgent than it is READY by then; otherwise only
      time passes. */
  lemma TickEffect(k: Kernel, ms: nat)
    requires Consistent(k) && k.tick + ms < UINT32_MAX
    ensures if Outranked(k, ms) then Preempted(AdvanceTime(k, ms), Tick(k, ms)) else Tick(k, ms) == AdvanceTime(k, ms)
  {
    hide Dispatch, AdvanceTime, SelectNext, InTurn, TaskStep, Sound;
    var a := AdvanceTime(k, ms);
    assert a.current == k.current && |a.tasks| == |k.tasks| by { AdvanceEffect(k, ms); }
    AdvanceReadies(k, ms);
    SelectSpec(a);
    if Outranked(k, ms) {
      var i :| 0 <= i < |k.tasks| && ReadyBy(k, ms, i) && k.tasks[i].priority < k.tasks[k.current].priority;
      assert Ready(a.tasks[i]);
      BelowNoPriority(k, i);
      PreemptionEffect(a);
    }
  }

  // ---- vTaskStartScheduler ----

  /** Starting puts on the processor a READY task that no READY task outranks, of several the first in the table;
      only its state changes. Without a READY task nothing happens. */
  lemma StartEffect(k: Kernel)
    requires Consistent(k) && k.current == INVALID_TASK
    ensures var k1, r := Start(k), Start(k).current;
            if r == INVALID_TASK then k1 == k && NoneReady(k)
            else
              && r < |k.tasks| && Ready(k.tasks[r]) && k1.tick == k.tick && SameBut(k, k1, r)
              && k1.tasks[r] == k.tasks[r].(state := RUNNING)
              && forall i :: 0 <= i < |k.tasks| && Ready(k.tasks[i]) ==>
                   k.tasks[r].priority <= k.tasks[i].priority
                   && (i < r ==> k.tasks[r].priority < k.tasks[i].priority)
  {
    SelectSpec(k);
    forall i | 0 <= i < |k.tasks|
      ensures k.tasks[i].priority < NO_PRIORITY
    {
      BelowNoPriority(k, i);
    }
  }
}
