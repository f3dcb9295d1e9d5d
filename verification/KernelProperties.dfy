/** What one kernel call keeps: the choice of task, the state of every other task, and the clock. */
module KernelProperties {
  import opened KernelCalls

  // ---- Choosing the next task ----

  /** How many places after `start` the index `x` comes, going round a table of `n`. */
  function Around(start: nat, x: nat, n: nat): nat
    requires start < n && x < n
  {
    if start <= x then x - start else x + n - start
  }

  predicate Ready(t: TCB) { t.state == READY }

  predicate AnyReady(k: Kernel) { exists i :: 0 <= i < |k.tasks| && Ready(k.tasks[i]) }

  predicate NoneReady(k: Kernel) { forall i :: 0 <= i < |k.tasks| ==> !Ready(k.tasks[i]) }

  /** No READY task is more urgent than priority `p`. */
  predicate Urgent(k: Kernel, p: nat) {
    forall i :: 0 <= i < |k.tasks| && Ready(k.tasks[i]) ==> p <= k.tasks[i].priority
  }

  lemma {:induction false} BestPrioritySpec(tasks: seq<TCB>)
    ensures BestPriority(tasks) <= NO_PRIORITY
    ensures forall i :: 0 <= i < |tasks| && Ready(tasks[i]) ==> BestPriority(tasks) <= tasks[i].priority
    ensures BestPriority(tasks) < NO_PRIORITY ==>
              exists i :: 0 <= i < |tasks| && Ready(tasks[i]) && tasks[i].priority == BestPriority(tasks)
  {
    if tasks != [] {
      var n := |tasks| - 1;
      var front := tasks[..n];
      BestPrioritySpec(front);
      if BestPriority(front) < NO_PRIORITY {
        var i :| 0 <= i < n && Ready(front[i]) && front[i].priority == BestPriority(front);
        assert Ready(tasks[i]);
      }
      forall i | 0 <= i < |tasks| && Ready(tasks[i])
        ensures BestPriority(tasks) <= tasks[i].priority
      {
        assert i < n ==> Ready(front[i]);
      }
    }
  }

  lemma WrapIndex(start: nat, i: nat, n: nat)
    requires start < n && i < n
    ensures (start + i) % n == if start + i < n then start + i else start + i - n
  {
    if start + i >= n { assert (start + i) % n == (start + i - n) % n; }
  }

  lemma {:induction false} ScanSpec(tasks: seq<TCB>, start: nat, i: nat, best: nat)
    requires start < |tasks| && |tasks| <= MAX_TASKS
    ensures var r := ScanFrom(tasks, start, i, best);
            r != INVALID_TASK ==>
              r < |tasks| && Ready(tasks[r]) && tasks[r].priority == best && i <= Around(start, r, |tasks|)
    ensures var r := ScanFrom(tasks, start, i, best);
            forall x :: 0 <= x < |tasks| && Ready(tasks[x]) && tasks[x].priority == best
                        && i <= Around(start, x, |tasks|) ==>
              r < |tasks| && Around(start, r, |tasks|) <= Around(start, x, |tasks|)
    decreases |tasks| - i
  {
    if i < |tasks| {
      WrapIndex(start, i, |tasks|);
      ScanSpec(tasks, start, i + 1, best);
    }
  }

  /** The chosen task is READY, no READY task is more urgent, and among the equally urgent READY tasks it is
      the first one after the current task, going round. None is chosen exactly when every READY task has the
      priority 0xFF, which stands for none. */
  lemma SelectSpec(k: Kernel)
    requires WellFormed(k)
    ensures SelectNext(k) == INVALID_TASK <==>
              forall i :: 0 <= i < |k.tasks| && Ready(k.tasks[i]) ==> k.tasks[i].priority >= NO_PRIORITY
    ensures var r := SelectNext(k); r != INVALID_TASK ==>
              && r < |k.tasks| && Ready(k.tasks[r]) && Urgent(k, k.tasks[r].priority)
              && forall x :: 0 <= x < |k.tasks| && Ready(k.tasks[x]) && k.tasks[x].priority == k.tasks[r].priority ==>
                   Around(ScanStart(k), r, |k.tasks|) <= Around(ScanStart(k), x, |k.tasks|)
  {
    BestPrioritySpec(k.tasks);
    if k.tasks != [] { ScanSpec(k.tasks, ScanStart(k), 0, BestPriority(k.tasks)); }
  }

  // ---- Consistency of the table ----

  predicate Sound(t: TCB, now: nat) {
    && t.priority < NO_PRIORITY
    && (t.resumeTick > 0 ==> t.state == BLOCKED && now < t.resumeTick < UINT32_MAX)
  }

  /** Between calls: exactly the current task is RUNNING, a wake time is set only on a BLOCKED task and lies
      ahead, and an idle processor has no wake time to wait for. */
  predicate Consistent(k: Kernel) {
    && WellFormed(k) && k.tick < UINT32_MAX
    && (forall i :: 0 <= i < |k.tasks| ==> Sound(k.tasks[i], k.tick))
    && (forall i :: 0 <= i < |k.tasks| ==> (k.tasks[i].state == RUNNING <==> i == k.current))
    && (k.current == INVALID_TASK ==> forall i :: 0 <= i < |k.tasks| ==> k.tasks[i].resumeTick == 0)
  }

  /** Inside a call, once the current task has been marked: nobody is RUNNING. */
  predicate Settled(k: Kernel) {
    && WellFormed(k) && k.tick < UINT32_MAX
    && (forall i :: 0 <= i < |k.tasks| ==> Sound(k.tasks[i], k.tick) && k.tasks[i].state != RUNNING)
  }

  /** What a dispatch may do to one task: it may put a READY task on the processor, and it may end a delay
      exactly at its wake time `now`; nothing else. */
  predicate TaskStep(o: TCB, n: TCB, now: nat) {
    && n.priority == o.priority
    && match o.state
       case SUSPENDED => n == o
       case DELETED => n == o
       case BLOCKED => n == o || (0 < o.resumeTick == now && n.resumeTick == 0 && (n.state == READY || n.state == RUNNING))
       case _ => n.resumeTick == o.resumeTick && (n.state == READY || n.state == RUNNING)
  }

  lemma JumpSpec(k: Kernel)
    requires Settled(k) && NoneReady(k) && Earliest(k.tasks) != UINT32_MAX
    ensures var k1 := Jump(k);
            Settled(k1) && AnyReady(k1) && k.tick < k1.tick
  {
    var k1 := Jump(k);
    EarliestSpec(k.tasks);
    var i :| 0 <= i < |k.tasks| && Pending(k.tasks[i]) && k.tasks[i].resumeTick == Earliest(k.tasks);
    assert Ready(k1.tasks[i]);
  }

  /** Among the READY tasks as urgent as it, the running task comes first after the task that ran before, going
      round. */
  ghost predicate InTurn(k: Kernel, k1: Kernel)
    requires WellFormed(k) && k1.current < |k1.tasks| == |k.tasks|
  {
    forall x :: 0 <= x < |k1.tasks| && Ready(k1.tasks[x]) && k1.tasks[x].priority == k1.tasks[k1.current].priority ==>
      Around(ScanStart(k), k1.current, |k.tasks|) <= Around(ScanStart(k), x, |k.tasks|)
  }

  /** Every dispatch: the table is consistent afterwards, each task made an allowed step, the clock moved only
      if no task was READY, and the task now running is at least as urgent as every READY task and has its turn.
      If no task runs, nothing is READY, no wake time is pending and the clock has not moved. */
  ghost predicate Dispatched(k: Kernel, k1: Kernel) {
    && WellFormed(k) && Consistent(k1) && |k1.tasks| == |k.tasks| && k.tick <= k1.tick
    && (forall i :: 0 <= i < |k.tasks| ==> TaskStep(k.tasks[i], k1.tasks[i], k1.tick))
    && (AnyReady(k) ==> k1.tick == k.tick)
    && (if k1.current == INVALID_TASK then NoneReady(k1) && k1.tick == k.tick
        else Urgent(k1, k1.tasks[k1.current].priority) && InTurn(k, k1))
  }

  lemma DispatchChosen(k: Kernel)
    requires Settled(k) && SelectNext(k) != INVALID_TASK
    ensures Dispatched(k, Dispatch(k))
  {
    SelectSpec(k);
  }

  lemma WokenThenStep(o: TCB, n: TCB, now: nat)
    requires Pending(o) ==> now <= o.resumeTick
    requires o.resumeTick > 0 ==> o.state == BLOCKED
    requires TaskStep(WakeOne(o, now), n, now)
    ensures TaskStep(o, n, now)
  {
  }

  lemma SameTurn(k: Kernel, j: Kernel, k1: Kernel)
    requires WellFormed(k) && WellFormed(j) && |j.tasks| == |k.tasks| && j.current == k.current
    requires k1.current < |k1.tasks| == |k.tasks| && InTurn(j, k1)
    ensures InTurn(k, k1)
  {
  }

  lemma JumpThenDispatch(k: Kernel)
    requires Settled(k) && NoneReady(k) && Earliest(k.tasks) != UINT32_MAX
    requires Dispatched(Jump(k), Dispatch(Jump(k)))
    ensures Dispatched(k, Dispatch(Jump(k)))
  {
    hide InTurn, Urgent, Dispatch, Earliest;
    JumpSpec(k);
    EarliestSpec(k.tasks);
    var k1, k2 := Jump(k), Dispatch(Jump(k));
    if k2.current != INVALID_TASK { SameTurn(k, k1, k2); }
    assert k2.tick == k1.tick == Earliest(k.tasks);
    forall i | 0 <= i < |k.tasks|
      ensures TaskStep(k.tasks[i], k2.tasks[i], k2.tick)
    {
      assert Sound(k.tasks[i], k.tick);
      assert TaskStep(k1.tasks[i], k2.tasks[i], k2.tick);
      WokenThenStep(k.tasks[i], k2.tasks[i], k2.tick);
    }
  }

  lemma {:induction false} DispatchSpec(k: Kernel)
    requires Settled(k)
    ensures Dispatched(k, Dispatch(k))
    decreases PendingCount(k.tasks)
  {
    SelectSpec(k);
    if SelectNext(k) != INVALID_TASK {
      DispatchChosen(k);
    } else {
      EarliestSpec(k.tasks);
      if Earliest(k.tasks) != UINT32_MAX {
        JumpSpec(k);
        JumpDecreases(k);
        DispatchSpec(Jump(k));
        JumpThenDispatch(k);
      }
    }
  }

  // ---- Discrete-event time refines ticking ----

  /** Ticking one unit at a time until some task is READY. */
  function TickUntilReady(k: Kernel): Kernel
    requires Settled(k) && NoneReady(k) && Earliest(k.tasks) != UINT32_MAX
    decreases Earliest(k.tasks) - k.tick
  {
    var k1 := AdvanceTime(k, 1);
    TickKeeps(k);
    if AnyReady(k1) then k1 else TickUntilReady(k1)
  }

  lemma TickKeeps(k: Kernel)
    requires Settled(k) && NoneReady(k) && Earliest(k.tasks) != UINT32_MAX
    ensures var k1 := AdvanceTime(k, 1);
            && k1.tick == k.tick + 1 <= Earliest(k.tasks)
            && (k1.tick < Earliest(k.tasks) ==> k1.tasks == k.tasks && Settled(k1))
            && (k1.tick == Earliest(k.tasks) <==> AnyReady(k1))
  {
    EarliestSpec(k.tasks);
    var k1 := AdvanceTime(k, 1);
    var i :| 0 <= i < |k.tasks| && Pending(k.tasks[i]) && k.tasks[i].resumeTick == Earliest(k.tasks);
    assert k1.tick == Earliest(k.tasks) ==> Ready(k1.tasks[i]);
    if k1.tick < Earliest(k.tasks) { assert k1.tasks == k.tasks; }
  }

  /** Jumping to the earliest wake time gives the table and the clock that single ticks give. */
  lemma {:induction false} JumpRefinesTicking(k: Kernel)
    requires Settled(k) && NoneReady(k) && Earliest(k.tasks) != UINT32_MAX
    ensures Jump(k) == TickUntilReady(k)
    decreases Earliest(k.tasks) - k.tick
  {
    TickKeeps(k);
    if !AnyReady(AdvanceTime(k, 1)) { JumpRefinesTicking(AdvanceTime(k, 1)); }
  }

  // ---- Round robin ----

  /** How many tasks the scheduler looks at before it looks at `t`. */
  function Distance(k: Kernel, t: nat): nat
    requires WellFormed(k) && t < |k.tasks|
  {
    Around(ScanStart(k), t, |k.tasks|)
  }

  lemma AroundLast(c: nat, n: nat)
    requires c < n
    ensures (c + 1) % n < n && Around((c + 1) % n, c, n) == n - 1
  {
    WrapNext(c, n);
  }

  lemma WrapNext(c: nat, n: nat)
    requires c < n
    ensures (c + 1) % n == if c == n - 1 then 0 else c + 1
  {
  }

  /** A dispatch that passes over a READY task of the best priority comes strictly closer to it, and it puts
      another task than before on the processor. */
  lemma DispatchComesCloser(k: Kernel, t: nat)
    requires Settled(k) && t < |k.tasks| && Ready(k.tasks[t]) && Urgent(k, k.tasks[t].priority)
    ensures var k1 := Dispatch(k);
            && WellFormed(k1) && k1.current < |k1.tasks| == |k.tasks|
            && (k1.current != t ==> Distance(k1, t) < Distance(k, t) && k1.current != k.current)
  {
    SelectSpec(k);
    var n, r := |k.tasks|, SelectNext(k);
    assert Ready(k.tasks[r]) && k.tasks[r].priority == k.tasks[t].priority;
    var start := ScanStart(k);
    assert Around(start, r, n) <= Around(start, t, n);
    WrapNext(r, n);
    if k.current != INVALID_TASK { AroundLast(k.current, n); }
  }
}
