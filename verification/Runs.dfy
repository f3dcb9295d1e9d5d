/** Runs of a whole system: a kernel, and for every task the place in the program where it is.
    One action is what one task (or, while the processor is idle, the main program) does up to the next
    context switch. Other synchronisation objects appear as `BlockElsewhere`, `UnblockElsewhere` and
    `ReturnElsewhere`: they block and return the running task, and wake only tasks that wait elsewhere. Mutexes,
    semaphores and queues guarantee that, and so do event groups whose setters meet nobody who outranks them
    (the lemmas `WakesOnlyItsOwn`); module Worlds puts any number of objects together. */
module Runs {
  import opened KernelCalls
  import opened KernelProperties

  /** Where a task is: in its own code, inside `vTaskDelay` until a tick, or inside a blocking call. A task
      that has been woken stays at its place until it is on the processor and returns. */
  datatype Place<O> = Free | Sleeping(until: nat) | Elsewhere | At(op: O)

  /** `ticked` records whether time was ever injected from outside. */
  datatype System<O> = System(k: Kernel, places: seq<Place<O>>, ticked: bool)

  ghost predicate Agree<O>(t: TCB, p: Place<O>, now: nat, ticked: bool) {
    match p
    case Free => t.state != BLOCKED
    case Sleeping(u) =>
      (t.state == BLOCKED && 0 < t.resumeTick == u)
      || ((t.state == READY || t.state == RUNNING) && u <= now && (!ticked ==> u == now))
    case _ => t.resumeTick == 0 && (t.state == BLOCKED || t.state == READY || t.state == RUNNING)
  }

  ghost predicate Placed<O>(s: System<O>) {
    |s.places| == |s.k.tasks|
    && forall i :: 0 <= i < |s.places| ==> Agree(s.k.tasks[i], s.places[i], s.k.tick, s.ticked)
  }

  ghost predicate SystemInv<O>(s: System<O>) {
    Consistent(s.k) && Placed(s)
  }

  /** Seen from a synchronisation object: priorities stay, and apart from task `x` nobody enters, leaves,
      blocks in or is woken from a place inside it. */
  ghost predicate Undisturbed<O>(s: System<O>, s1: System<O>, x: nat)
    requires |s.places| == |s.k.tasks| && |s1.places| == |s1.k.tasks|
  {
    && |s.places| <= |s1.places|
    && (forall i :: 0 <= i < |s.places| ==> s1.k.tasks[i].priority == s.k.tasks[i].priority)
    && (forall i :: 0 <= i < |s1.places| && i != x ==>
          if i < |s.places| && s.places[i].At?
          then s1.places[i] == s.places[i] && (s1.k.tasks[i].state == BLOCKED <==> s.k.tasks[i].state == BLOCKED)
          else !s1.places[i].At?)
  }

  /** Task `i` is BLOCKED inside the object. */
  ghost predicate Waits<O>(s: System<O>, i: nat) {
    i < |s.places| && i < |s.k.tasks| && s.places[i].At? && s.k.tasks[i].state == BLOCKED
  }

  /** Task `i` was woken inside the object and has not returned yet. */
  ghost predicate Woken<O>(s: System<O>, i: nat) {
    i < |s.places| && i < |s.k.tasks| && s.places[i].At? && s.k.tasks[i].state != BLOCKED
  }

  /** Being undisturbed, told in terms of waiting and woken tasks. */
  lemma Standing<O>(s: System<O>, s1: System<O>, x: nat)
    requires |s.places| == |s.k.tasks| && |s1.places| == |s1.k.tasks| && Undisturbed(s, s1, x)
    ensures forall i: nat :: i != x ==> (Waits(s1, i) <==> Waits(s, i))
    ensures forall i: nat :: i != x ==> (Woken(s1, i) <==> Woken(s, i))
    ensures forall i: nat :: i != x && (Waits(s, i) || Woken(s, i)) ==> s1.places[i] == s.places[i]
    ensures forall i :: 0 <= i < |s.places| ==> Priority(s1.k, i) == Priority(s.k, i)
  {
  }

  function Redispatch<O>(s: System<O>): System<O>
    requires WellFormed(s.k)
  {
    s.(k := Dispatch(s.k))
  }

  lemma RedispatchKeeps<O>(s: System<O>)
    requires Settled(s.k) && Placed(s)
    ensures Dispatched(s.k, Dispatch(s.k))
    ensures SystemInv(Redispatch(s)) && Undisturbed(s, Redispatch(s), INVALID_TASK)
  {
    hide Dispatch;
    DispatchSpec(s.k);
    var k1 := Dispatch(s.k);
    forall i | 0 <= i < |s.places|
      ensures Agree(k1.tasks[i], s.places[i], k1.tick, s.ticked)
      ensures s.places[i].At? ==> (k1.tasks[i].state == BLOCKED <==> s.k.tasks[i].state == BLOCKED)
    {
      assert Agree(s.k.tasks[i], s.places[i], s.k.tick, s.ticked);
      assert TaskStep(s.k.tasks[i], k1.tasks[i], k1.tick);
      if s.k.tasks[i].state == READY { assert Ready(s.k.tasks[i]); }
    }
  }

  // ---- Actions that do not touch the synchronisation object under study ----

  datatype Action =
    | Yield
    | Sleep(ticks: nat)
    | WakeUp
    | SuspendSelf
    | DeleteSelf
    | ResumeTask(t: nat)
    | BlockElsewhere
    | UnblockElsewhere(t: nat)
    | ReturnElsewhere
    | InjectTick(ms: nat)
    | StartScheduler
    | CreateTask(priority: nat)

  /** The running task is in its own code. */
  predicate Running<O>(s: System<O>) {
    s.k.current < |s.places| && s.places[s.k.current].Free?
  }

  predicate Idle<O>(s: System<O>) { s.k.current == INVALID_TASK }

  predicate Can<O>(s: System<O>, a: Action) {
    match a
    case Sleep(d) => Running(s) && 0 < d && s.k.tick + d < UINT32_MAX
    case WakeUp => s.k.current < |s.places| && s.places[s.k.current].Sleeping?
    case ReturnElsewhere => s.k.current < |s.places| && s.places[s.k.current].Elsewhere?
    case ResumeTask(t) => Running(s) || Idle(s)
    case UnblockElsewhere(t) => (Running(s) || Idle(s)) && t < |s.places| && s.places[t].Elsewhere?
    case InjectTick(ms) => (Running(s) || Idle(s)) && s.k.tick + ms < UINT32_MAX
    case CreateTask(p) => (Running(s) || Idle(s)) && p < NO_PRIORITY
    case StartScheduler => Idle(s)
    case _ => Running(s)
  }

  function Step<O>(s: System<O>, a: Action): System<O>
    requires WellFormed(s.k) && |s.places| == |s.k.tasks| && Can(s, a)
  {
    var me := s.k.current;
    match a
    case Yield => s.(k := Delay(s.k, 0))
    case Sleep(d) => s.(k := Delay(s.k, d), places := s.places[me := Sleeping(s.k.tick + d)])
    case WakeUp => s.(places := s.places[me := Free])
    case SuspendSelf => s.(k := Suspend(s.k, me))
    case DeleteSelf => s.(k := Delete(s.k, me))
    case ResumeTask(t) => s.(k := Resume(s.k, t))
    case BlockElsewhere => s.(k := BlockCurrent(s.k), places := s.places[me := Elsewhere])
    case UnblockElsewhere(t) => s.(k := Unblock(s.k, t))
    case ReturnElsewhere => s.(places := s.places[me := Free])
    case InjectTick(ms) => s.(k := Tick(s.k, ms), ticked := true)
    case StartScheduler => s.(k := Start(s.k))
    case CreateTask(p) =>
      if |s.places| < MAX_TASKS then s.(k := Create(s.k, p), places := s.places + [Free]) else s
  }

  /** The table as the action leaves it before it looks for the next task to run. */
  function Marked<O>(s: System<O>, a: Action): Kernel
    requires WellFormed(s.k) && |s.places| == |s.k.tasks| && Can(s, a)
  {
    var k, me := s.k, s.k.current;
    match a
    case Yield => SetState(k, me, READY)
    case Sleep(d) => MarkedSleep(k, d)
    case SuspendSelf => SetState(k, me, SUSPENDED)
    case DeleteSelf => SetState(k, me, DELETED)
    case ResumeTask(t) => Resume(k, t)
    case BlockElsewhere => SetState(k, me, BLOCKED)
    case UnblockElsewhere(t) => MarkedUnblock(k, t)
    case InjectTick(ms) => MarkedTick(k, ms)
    case CreateTask(p) => Create(k, p)
    case _ => k
  }

  function MarkedUnblock(k: Kernel, t: nat): Kernel
    requires WellFormed(k) && t < |k.tasks|
  {
    if k.tasks[t].state != BLOCKED then k
    else if Preempts(k, t) then SetState(SetState(k, t, READY), k.current, READY)
    else SetState(k, t, READY)
  }

  predicate Preempts(k: Kernel, t: nat)
    requires WellFormed(k) && t < |k.tasks|
  {
    k.tasks[t].state == BLOCKED && k.current != INVALID_TASK && k.tasks[t].priority < k.tasks[k.current].priority
  }

  predicate TickPreempts(k: Kernel, ms: nat)
    requires WellFormed(k)
  {
    var k1 := AdvanceTime(k, ms);
    SelectInTable(k1);
    SelectNext(k1) != INVALID_TASK && k.current != INVALID_TASK
    && k1.tasks[SelectNext(k1)].priority < k1.tasks[k.current].priority
  }

  function MarkedTick(k: Kernel, ms: nat): Kernel
    requires WellFormed(k)
  {
    if TickPreempts(k, ms) then SetState(AdvanceTime(k, ms), k.current, READY) else AdvanceTime(k, ms)
  }

  /** Whether the action makes the scheduler choose a task. */
  predicate Dispatches<O>(s: System<O>, a: Action)
    requires WellFormed(s.k) && |s.places| == |s.k.tasks| && Can(s, a)
  {
    match a
    case Yield => true
    case Sleep(_) => true
    case SuspendSelf => true
    case DeleteSelf => true
    case BlockElsewhere => true
    case UnblockElsewhere(t) => Preempts(s.k, t)
    case InjectTick(ms) => TickPreempts(s.k, ms)
    case StartScheduler => SelectNext(s.k) != INVALID_TASK
    case _ => false
  }

  lemma UnblockShape(k: Kernel, t: nat)
    requires WellFormed(k) && t < |k.tasks|
    ensures WellFormed(MarkedUnblock(k, t))
    ensures Unblock(k, t) == if Preempts(k, t) then Dispatch(MarkedUnblock(k, t)) else MarkedUnblock(k, t)
  {
    hide Dispatch;
  }

  lemma TickShape(k: Kernel, ms: nat)
    requires WellFormed(k) && k.tick + ms < UINT32_MAX
    ensures WellFormed(MarkedTick(k, ms))
    ensures Tick(k, ms) == if TickPreempts(k, ms) then Dispatch(MarkedTick(k, ms)) else MarkedTick(k, ms)
  {
    hide Dispatch;
  }

  lemma StartShape(k: Kernel)
    requires WellFormed(k)
    ensures Start(k) == if SelectNext(k) != INVALID_TASK then Dispatch(k) else k
  {
  }

  function MarkedSleep(k: Kernel, d: nat): Kernel
    requires WellFormed(k) && k.current != INVALID_TASK
  {
    k.(tasks := k.tasks[k.current := k.tasks[k.current].(resumeTick := k.tick + d, state := BLOCKED)])
  }

  lemma LeaveShape(k: Kernel, d: nat)
    requires WellFormed(k) && k.current != INVALID_TASK && k.tick + d < UINT32_MAX
    ensures forall st :: WellFormed(SetState(k, k.current, st))
    ensures WellFormed(MarkedSleep(k, d))
    ensures Delay(k, 0) == Dispatch(SetState(k, k.current, READY))
    ensures d > 0 ==> Delay(k, d) == Dispatch(MarkedSleep(k, d))
    ensures Suspend(k, k.current) == Dispatch(SetState(k, k.current, SUSPENDED))
    ensures Delete(k, k.current) == Dispatch(SetState(k, k.current, DELETED))
    ensures BlockCurrent(k) == Dispatch(SetState(k, k.current, BLOCKED))
  {
    hide Dispatch;
  }

  lemma StepIsMarkThenDispatch<O>(s: System<O>, a: Action)
    requires SystemInv(s) && Can(s, a)
    ensures WellFormed(Marked(s, a))
    ensures Step(s, a).k == if Dispatches(s, a) then Dispatch(Marked(s, a)) else Marked(s, a)
  {
    hide Dispatch;
    if a.Sleep? {
      LeaveShape(s.k, a.ticks);
    } else if a.Yield? || a.SuspendSelf? || a.DeleteSelf? || a.BlockElsewhere? {
      assert Consistent(s.k) && Sound(s.k.tasks[s.k.current], s.k.tick);
      LeaveShape(s.k, 0);
    } else if a.UnblockElsewhere? {
      UnblockShape(s.k, a.t);
    } else if a.InjectTick? {
      TickShape(s.k, a.ms);
    } else if a.StartScheduler? {
      StartShape(s.k);
    }
  }

  /** The marked table is sound: every task still agrees with its place, and no synchronisation object is
      disturbed. */
  ghost predicate MarkedWell<O>(s: System<O>, a: Action)
    requires WellFormed(s.k) && |s.places| == |s.k.tasks| && Can(s, a)
  {
    var m := Step(s, a).(k := Marked(s, a));
    && Placed(m) && Undisturbed(s, m, INVALID_TASK) && s.k.tick <= m.k.tick
    && (if Dispatches(s, a) then Settled(m.k) else Consistent(m.k))
  }

  /** The running task gives its control block the value `t` and moves to place `p`, without anybody running. */
  lemma MarkSelf<O>(s: System<O>, t: TCB, p: Place<O>)
    requires SystemInv(s) && s.k.current < |s.places|
    requires Sound(t, s.k.tick) && t.state != RUNNING && t.priority == s.k.tasks[s.k.current].priority
    requires Agree(t, p, s.k.tick, s.ticked)
    ensures var m := System(s.k.(tasks := s.k.tasks[s.k.current := t]), s.places[s.k.current := p], s.ticked);
            && Settled(m.k) && Placed(m) && Undisturbed(s, m, s.k.current)
            && (!s.places[s.k.current].At? && !p.At? ==> Undisturbed(s, m, INVALID_TASK))
  {
    hide Dispatch;
  }

  lemma LeavingIsMarkedWell<O>(s: System<O>, a: Action)
    requires SystemInv(s) && Can(s, a)
    requires a.Yield? || a.Sleep? || a.SuspendSelf? || a.DeleteSelf? || a.BlockElsewhere?
    ensures MarkedWell(s, a)
  {
    hide Dispatch;
    var me := s.k.current;
    var t := s.k.tasks[me];
    assert Agree(t, s.places[me], s.k.tick, s.ticked) && Sound(t, s.k.tick);
    assert s.places[me := Free] == s.places;
    match a
    case Yield => MarkSelf(s, t.(state := READY), Free);
    case Sleep(d) => MarkSelf(s, t.(resumeTick := s.k.tick + d, state := BLOCKED), Sleeping(s.k.tick + d));
    case SuspendSelf => MarkSelf(s, t.(state := SUSPENDED), Free);
    case DeleteSelf => MarkSelf(s, t.(state := DELETED), Free);
    case BlockElsewhere => MarkSelf(s, t.(state := BLOCKED), Elsewhere);
  }

  /** Setting a woken, suspended or preempted task READY keeps it in agreement with its place. */
  lemma ReadyAgrees<O>(t: TCB, p: Place<O>, now: nat, ticked: bool)
    requires Sound(t, now) && Agree(t, p, now, ticked) && t.state != DELETED
    requires t.state == BLOCKED ==> p.Elsewhere? || p.At?
    ensures Sound(t.(state := READY), now) && Agree(t.(state := READY), p, now, ticked)
  {
  }

  lemma SetReadyKeeps<O>(s: System<O>, t: nat)
    requires WellFormed(s.k) && Placed(s) && t < |s.places|
    requires forall i :: 0 <= i < |s.k.tasks| ==> Sound(s.k.tasks[i], s.k.tick)
    requires s.k.tasks[t].state != DELETED
    requires s.k.tasks[t].state == BLOCKED ==> s.places[t].Elsewhere? || s.places[t].At?
    ensures var m := s.(k := SetState(s.k, t, READY));
            && WellFormed(m.k) && Placed(m)
            && (forall i :: 0 <= i < |m.k.tasks| ==> Sound(m.k.tasks[i], m.k.tick))
            && Undisturbed(s, m, if s.k.tasks[t].state == BLOCKED then t else INVALID_TASK)
  {
    hide Dispatch;
    assert Agree(s.k.tasks[t], s.places[t], s.k.tick, s.ticked);
    ReadyAgrees(s.k.tasks[t], s.places[t], s.k.tick, s.ticked);
  }

  /** Marking for `unblock`: besides the woken task `t`, nobody is disturbed. */
  lemma UnblockMarksWell<O>(s: System<O>, t: nat)
    requires SystemInv(s) && (Running(s) || Idle(s))
    requires t < |s.places| && (s.places[t].Elsewhere? || s.places[t].At?)
    ensures var m := s.(k := MarkedUnblock(s.k, t));
            && WellFormed(m.k) && Placed(m) && Undisturbed(s, m, t) && m.k.tick == s.k.tick
            && (s.places[t].Elsewhere? ==> Undisturbed(s, m, INVALID_TASK))
            && m.k.tasks[t].state != BLOCKED
            && (if Preempts(s.k, t) then Settled(m.k) else Consistent(m.k))
  {
    hide Dispatch;
    assert Agree(s.k.tasks[t], s.places[t], s.k.tick, s.ticked);
    if s.k.tasks[t].state == BLOCKED {
      SetReadyKeeps(s, t);
      if Preempts(s.k, t) {
        assert Agree(s.k.tasks[s.k.current], s.places[s.k.current], s.k.tick, s.ticked);
        SetReadyKeeps(s.(k := SetState(s.k, t, READY)), s.k.current);
      }
    }
  }

  lemma UnblockingIsMarkedWell<O>(s: System<O>, t: nat)
    requires SystemInv(s) && Can(s, UnblockElsewhere(t))
    ensures MarkedWell(s, UnblockElsewhere(t))
  {
    hide Dispatch;
    UnblockMarksWell(s, t);
  }

  lemma WakingAgrees<O>(t: TCB, p: Place<O>, now: nat, later: nat, ticked: bool)
    requires Sound(t, now) && Agree(t, p, now, ticked) && now <= later < UINT32_MAX
    ensures Sound(WakeOne(t, later), later) && Agree(WakeOne(t, later), p, later, true)
    ensures p.At? ==> WakeOne(t, later) == t
  {
  }

  lemma AdvanceKeeps<O>(s: System<O>, ms: nat)
    requires SystemInv(s) && s.k.tick + ms < UINT32_MAX
    ensures var m := s.(k := AdvanceTime(s.k, ms), ticked := true);
            SystemInv(m) && Undisturbed(s, m, INVALID_TASK)
  {
    hide Dispatch;
    var k1 := AdvanceTime(s.k, ms);
    forall i | 0 <= i < |s.places|
      ensures Sound(k1.tasks[i], k1.tick) && Agree(k1.tasks[i], s.places[i], k1.tick, true)
      ensures s.places[i].At? ==> k1.tasks[i] == s.k.tasks[i]
    {
      assert Agree(s.k.tasks[i], s.places[i], s.k.tick, s.ticked);
      WakingAgrees(s.k.tasks[i], s.places[i], s.k.tick, k1.tick, s.ticked);
    }
  }

  lemma TickMarksWell<O>(s: System<O>, ms: nat)
    requires SystemInv(s) && (Running(s) || Idle(s)) && s.k.tick + ms < UINT32_MAX
    ensures var m := s.(k := MarkedTick(s.k, ms), ticked := true);
            && WellFormed(m.k) && Placed(m) && Undisturbed(s, m, INVALID_TASK) && s.k.tick <= m.k.tick
            && (if TickPreempts(s.k, ms) then Settled(m.k) else Consistent(m.k))
  {
    hide Dispatch;
    var s1 := s.(k := AdvanceTime(s.k, ms), ticked := true);
    AdvanceKeeps(s, ms);
    if TickPreempts(s.k, ms) { SetReadyKeeps(s1, s.k.current); }
  }

  lemma InjectingIsMarkedWell<O>(s: System<O>, ms: nat)
    requires SystemInv(s) && Can(s, InjectTick(ms))
    ensures MarkedWell(s, InjectTick(ms))
  {
    hide Dispatch;
    TickMarksWell(s, ms);
  }

  lemma ReturningIsMarkedWell<O>(s: System<O>, a: Action)
    requires SystemInv(s) && Can(s, a) && (a.WakeUp? || a.ReturnElsewhere?)
    ensures MarkedWell(s, a)
  {
    hide Dispatch;
    assert Agree(s.k.tasks[s.k.current], s.places[s.k.current], s.k.tick, s.ticked);
  }

  lemma ResumingIsMarkedWell<O>(s: System<O>, t: nat)
    requires SystemInv(s) && Can(s, ResumeTask(t))
    ensures MarkedWell(s, ResumeTask(t))
  {
    hide Dispatch;
    if t < |s.places| && s.k.tasks[t].state == SUSPENDED { SetReadyKeeps(s, t); }
  }

  lemma StartingIsMarkedWell<O>(s: System<O>)
    requires SystemInv(s) && Can(s, StartScheduler)
    ensures MarkedWell(s, StartScheduler)
  {
    hide Dispatch;
  }

  lemma CreatingIsMarkedWell<O>(s: System<O>, p: nat)
    requires SystemInv(s) && Can(s, CreateTask(p))
    ensures MarkedWell(s, CreateTask(p))
  {
    hide Dispatch;
  }

  lemma ActionIsMarkedWell<O>(s: System<O>, a: Action)
    requires SystemInv(s) && Can(s, a)
    ensures MarkedWell(s, a)
  {
    match a
    case UnblockElsewhere(t) => UnblockingIsMarkedWell(s, t);
    case InjectTick(ms) => InjectingIsMarkedWell(s, ms);
    case Yield => LeavingIsMarkedWell(s, a);
    case Sleep(d) => LeavingIsMarkedWell(s, a);
    case SuspendSelf => LeavingIsMarkedWell(s, a);
    case DeleteSelf => LeavingIsMarkedWell(s, a);
    case BlockElsewhere => LeavingIsMarkedWell(s, a);
    case WakeUp => ReturningIsMarkedWell(s, a);
    case ReturnElsewhere => ReturningIsMarkedWell(s, a);
    case ResumeTask(t) => ResumingIsMarkedWell(s, t);
    case StartScheduler => StartingIsMarkedWell(s);
    case CreateTask(p) => CreatingIsMarkedWell(s, p);
  }

  /** Every action keeps the system invariant, never disturbs a synchronisation object, and never turns the
      clock back. */
  lemma StepKeeps<O>(s: System<O>, a: Action)
    requires SystemInv(s) && Can(s, a)
    ensures SystemInv(Step(s, a)) && Undisturbed(s, Step(s, a), INVALID_TASK)
    ensures s.k.tick <= Step(s, a).k.tick
  {
    hide Dispatch;
    var m := Step(s, a).(k := Marked(s, a));
    StepIsMarkThenDispatch(s, a);
    ActionIsMarkedWell(s, a);
    if Dispatches(s, a) {
      RedispatchKeeps(m);
      UndisturbedTwice(s, m, Step(s, a), INVALID_TASK);
    }
  }

  lemma UndisturbedTwice<O>(s: System<O>, m: System<O>, s1: System<O>, x: nat)
    requires |s.places| == |s.k.tasks| && |m.places| == |m.k.tasks| && |s1.places| == |s1.k.tasks|
    requires Undisturbed(s, m, x) && Undisturbed(m, s1, INVALID_TASK) && |s1.places| <= MAX_TASKS
    ensures Undisturbed(s, s1, x)
  {
  }

  // ---- Blocking in and waking from the object under study ----

  function BlockAt<O>(s: System<O>, op: O): System<O>
    requires WellFormed(s.k) && |s.places| == |s.k.tasks| && s.k.current < |s.places|
  {
    s.(k := BlockCurrent(s.k), places := s.places[s.k.current := At(op)])
  }

  function MoveTo<O>(s: System<O>, p: Place<O>): System<O>
    requires s.k.current < |s.places|
  {
    s.(places := s.places[s.k.current := p])
  }

  function UnblockTask<O>(s: System<O>, t: nat): System<O>
    requires WellFormed(s.k)
  {
    s.(k := Unblock(s.k, t))
  }

  /** The running task has come back from a place inside the object. */
  predicate Returning<O>(s: System<O>) {
    s.k.current < |s.places| && s.places[s.k.current].At?
  }

  lemma BlockAtKeeps<O>(s: System<O>, op: O)
    requires SystemInv(s) && (Running(s) || Returning(s))
    ensures var s1 := BlockAt(s, op); var me := s.k.current;
            && SystemInv(s1) && |s1.places| == |s.places| && Undisturbed(s, s1, me)
            && s1.places[me] == At(op) && s1.k.tasks[me].state == BLOCKED
            && s.k.tick <= s1.k.tick && (Idle(s1) ==> NoneReady(s1.k))
  {
    hide Dispatch;
    var me := s.k.current;
    assert Agree(s.k.tasks[me], s.places[me], s.k.tick, s.ticked) && Sound(s.k.tasks[me], s.k.tick);
    var m := System(SetState(s.k, me, BLOCKED), s.places[me := At(op)], s.ticked);
    MarkSelf(s, s.k.tasks[me].(state := BLOCKED), At(op));
    RedispatchKeeps(m);
    UndisturbedTwice(s, m, BlockAt(s, op), me);
  }

  lemma MoveKeeps<O>(s: System<O>, p: Place<O>)
    requires SystemInv(s) && (Running(s) || Returning(s)) && (p.Free? || p.At?)
    ensures var s1 := MoveTo(s, p);
            SystemInv(s1) && |s1.places| == |s.places| && Undisturbed(s, s1, s.k.current)
  {
    assert Agree(s.k.tasks[s.k.current], s.places[s.k.current], s.k.tick, s.ticked);
  }

  lemma UnblockKeeps<O>(s: System<O>, t: nat)
    requires SystemInv(s) && (Running(s) || Idle(s)) && t < |s.places| && s.places[t].At?
    ensures var s1 := UnblockTask(s, t);
            && SystemInv(s1) && s1.places == s.places && Undisturbed(s, s1, t)
            && s1.k.tasks[t].state != BLOCKED
            && s.k.tick <= s1.k.tick
  {
    hide Dispatch;
    var m := s.(k := MarkedUnblock(s.k, t));
    UnblockShape(s.k, t);
    UnblockMarksWell(s, t);
    if Preempts(s.k, t) {
      RedispatchKeeps(m);
      UndisturbedTwice(s, m, UnblockTask(s, t), t);
    }
  }
}
