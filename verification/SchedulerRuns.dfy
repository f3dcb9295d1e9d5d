/** What holds over every run of the scheduler. */
module SchedulerRuns {
  import opened KernelCalls
  import opened KernelEffects
  import opened KernelProperties
  import opened Runs

  predicate Fresh<O>(s: System<O>) {
    s.k == Kernel([], 0, INVALID_TASK) && s.places == [] && !s.ticked
  }

  ghost function Next<O>(s: System<O>, a: Action): (r: System<O>)
    requires SystemInv(s) && Can(s, a)
    ensures SystemInv(r) && s.k.tick <= r.k.tick
  {
    StepKeeps(s, a);
    Step(s, a)
  }

  ghost predicate Legal<O>(s: System<O>, acts: seq<Action>)
    requires SystemInv(s)
    decreases acts
  {
    acts == [] || (Can(s, acts[0]) && Legal(Next(s, acts[0]), acts[1..]))
  }

  ghost function Run<O>(s: System<O>, acts: seq<Action>): (r: System<O>)
    requires SystemInv(s) && Legal(s, acts)
    ensures SystemInv(r) && s.k.tick <= r.k.tick
    decreases acts
  {
    if acts == [] then s else Run(Next(s, acts[0]), acts[1..])
  }

  // ---- Creation and priorities ----

  /** The priority asked for in an action that creates a task. */
  function Asked(a: Action): seq<nat> {
    if a.CreateTask? then [a.priority] else []
  }

  /** The priorities asked for in a run, in order. */
  function Requested(acts: seq<Action>): seq<nat> {
    if acts == [] then [] else Asked(acts[0]) + Requested(acts[1..])
  }

  /** The requests that the table has room for. */
  function Granted(ps: seq<nat>): seq<nat> {
    if |ps| <= MAX_TASKS then ps else ps[..MAX_TASKS]
  }

  function Priorities(tasks: seq<TCB>): (ps: seq<nat>)
    ensures |ps| == |tasks| && forall i :: 0 <= i < |tasks| ==> ps[i] == tasks[i].priority
  {
    if tasks == [] then [] else [tasks[0].priority] + Priorities(tasks[1..])
  }

  /** Every task has, for as long as the run lasts, the priority it was created with; the first sixteen requests
      are granted, in order, and no other. */
  lemma {:induction false} PrioritiesAreThoseRequested<O>(s: System<O>, acts: seq<Action>)
    requires SystemInv(s) && Legal(s, acts)
    ensures Priorities(Run(s, acts).k.tasks) == Granted(Priorities(s.k.tasks) + Requested(acts))
    decreases acts
  {
    var ps := Priorities(s.k.tasks);
    assert |ps| <= MAX_TASKS;
    hide SystemInv, Can, Next;
    if acts == [] {
      assert ps + [] == ps;
    } else {
      CreationGrowsTable(s, acts[0]);
      PrioritiesAreThoseRequested(Next(s, acts[0]), acts[1..]);
      GrantedTwice(ps, Asked(acts[0]), Requested(acts[1..]));
    }
  }

  lemma GrantedTwice(ps: seq<nat>, qs: seq<nat>, rs: seq<nat>)
    ensures Granted(Granted(ps + qs) + rs) == Granted(ps + (qs + rs))
  {
    assert ps + qs + rs == ps + (qs + rs);
    if |ps + qs| > MAX_TASKS { assert ((ps + qs)[..MAX_TASKS] + rs)[..MAX_TASKS] == (ps + qs + rs)[..MAX_TASKS]; }
  }

  lemma CreationGrowsTable<O>(s: System<O>, a: Action)
    requires SystemInv(s) && Can(s, a)
    ensures Priorities(Next(s, a).k.tasks) == Granted(Priorities(s.k.tasks) + Asked(a))
  {
    StepGrowsTable(s, a);
    PrioritiesGrow(s.k.tasks, Next(s, a).k.tasks, Asked(a));
  }

  lemma PrioritiesGrow(before: seq<TCB>, now: seq<TCB>, asked: seq<nat>)
    requires |before| <= MAX_TASKS && |now| == |Granted(Priorities(before) + asked)|
    requires forall i :: 0 <= i < |now| ==>
               now[i].priority == if i < |before| then before[i].priority else asked[i - |before|]
    ensures Priorities(now) == Granted(Priorities(before) + asked)
  {
    hide Priorities;
    forall i | 0 <= i < |now|
      ensures Priorities(now)[i] == Granted(Priorities(before) + asked)[i]
    {
    }
  }

  lemma StepGrowsTable<O>(s: System<O>, a: Action)
    requires SystemInv(s) && Can(s, a)
    ensures var k1, n := Next(s, a).k, |s.k.tasks|;
            && n <= MAX_TASKS && |k1.tasks| == (if a.CreateTask? && n < MAX_TASKS then n + 1 else n)
            && (forall i :: 0 <= i < n ==> k1.tasks[i].priority == s.k.tasks[i].priority)
            && (a.CreateTask? && n < MAX_TASKS ==> k1.tasks[n].priority == a.priority)
  {
    hide Dispatch;
    StepKeeps(s, a);
    StepIsMarkThenDispatch(s, a);
    if Dispatches(s, a) {
      ActionIsMarkedWell(s, a);
      DispatchSpec(Marked(s, a));
    }
    if a.CreateTask? { CreateEffect(s.k, a.priority); }
  }

  function Creations(ps: seq<nat>): seq<Action> {
    if ps == [] then [] else [CreateTask(ps[0])] + Creations(ps[1..])
  }

  /** Creating tasks on an idle processor fills the table with READY tasks in the order of the requests. */
  lemma {:induction false} CreationsFillTable<O>(s: System<O>, ps: seq<nat>)
    requires SystemInv(s) && Idle(s) && forall i :: 0 <= i < |ps| ==> ps[i] < NO_PRIORITY
    ensures Legal(s, Creations(ps))
    ensures var k1, n, all := Run(s, Creations(ps)).k, |s.k.tasks|, |s.k.tasks| + |ps|;
            && k1.tick == s.k.tick && k1.current == INVALID_TASK
            && |k1.tasks| == (if all < MAX_TASKS then all else MAX_TASKS)
            && forall i :: 0 <= i < |k1.tasks| ==>
                 k1.tasks[i] == if i < n then s.k.tasks[i] else TCB(ps[i - n], READY, 0)
    decreases ps
  {
    if ps != [] {
      var acts := Creations(ps);
      assert acts[0] == CreateTask(ps[0]) && acts[1..] == Creations(ps[1..]);
      CreateEffect(s.k, ps[0]);
      CreationsFillTable(Next(s, acts[0]), ps[1..]);
    }
  }

  lemma NextStarts<O>(s: System<O>)
    requires SystemInv(s) && Idle(s)
    ensures Can(s, StartScheduler) && Next(s, StartScheduler).k == Start(s.k)
  {
    hide SystemInv, Start;
  }

  /** Started after any list of creations, the scheduler runs the first task of the least priority number asked for
      among the first sixteen requests; without a request nothing runs. */
  lemma StartRunsMostUrgent<O>(s: System<O>, ps: seq<nat>)
    requires SystemInv(s) && Fresh(s) && forall i :: 0 <= i < |ps| ==> ps[i] < NO_PRIORITY
    ensures Legal(s, Creations(ps)) && Can(Run(s, Creations(ps)), StartScheduler)
    ensures var k1, n := Next(Run(s, Creations(ps)), StartScheduler).k, if |ps| < MAX_TASKS then |ps| else MAX_TASKS;
            && |k1.tasks| == n && k1.tick == 0
            && (ps == [] ==> k1.current == INVALID_TASK)
            && (ps != [] ==>
                 && k1.current < n
                 && (forall i :: 0 <= i < n ==>
                       ps[k1.current] <= ps[i] && (i < k1.current ==> ps[k1.current] < ps[i]))
                 && (forall i :: 0 <= i < n ==>
                       k1.tasks[i] == TCB(ps[i], if i == k1.current then RUNNING else READY, 0)))
  {
    hide Consistent, Placed, Start, Next, Run, Legal, Creations;
    CreationsFillTable(s, ps);
    var s1 := Run(s, Creations(ps));
    NextStarts(s1);
    StartEffect(s1.k);
    forall i | 0 <= i < |s1.k.tasks|
      ensures Ready(s1.k.tasks[i]) && s1.k.tasks[i] == TCB(ps[i], READY, 0)
    {
    }
    assert ps != [] ==> Ready(s1.k.tasks[0]);
  }

  // ---- Delays ----

  /** Along the run, up to but not counting its last state, task `t` is not on the processor. */
  ghost predicate Away<O>(s: System<O>, acts: seq<Action>, t: nat)
    requires SystemInv(s) && Legal(s, acts)
    decreases acts
  {
    acts == [] || (s.k.current != t && Away(Next(s, acts[0]), acts[1..], t))
  }

  ghost predicate NoInjectedTicks(acts: seq<Action>) {
    forall i :: 0 <= i < |acts| ==> !acts[i].InjectTick?
  }

  lemma {:induction false} AwayKeepsPlace<O>(s: System<O>, acts: seq<Action>, t: nat)
    requires SystemInv(s) && Legal(s, acts) && Away(s, acts, t) && t < |s.places|
    ensures t < |Run(s, acts).places| && Run(s, acts).places[t] == s.places[t]
    ensures NoInjectedTicks(acts) ==> Run(s, acts).ticked == s.ticked
    decreases acts
  {
    if acts != [] {
      AwayKeepsPlace(Next(s, acts[0]), acts[1..], t);
    }
  }

  /** A task that delays by `d` is back on the processor, whatever the others do meanwhile, exactly `d` ticks
      later, as long as no time is injected from outside. */
  lemma ZeroJitter<O>(s: System<O>, d: nat, acts: seq<Action>)
    requires SystemInv(s) && !s.ticked && Can(s, Sleep(d))
    requires Legal(Next(s, Sleep(d)), acts) && Away(Next(s, Sleep(d)), acts, s.k.current) && NoInjectedTicks(acts)
    ensures var r := Run(Next(s, Sleep(d)), acts);
            r.k.current == s.k.current ==> r.k.tick == s.k.tick + d
  {
    var t, s1 := s.k.current, Next(s, Sleep(d));
    AwayKeepsPlace(s1, acts, t);
    var r := Run(s1, acts);
    assert Agree(r.k.tasks[t], r.places[t], r.k.tick, r.ticked);
  }

  // ---- Who runs ----

  /** The running task is at least as urgent as every READY task. */
  ghost predicate Rightful(k: Kernel)
    requires WellFormed(k)
  {
    k.current != INVALID_TASK ==> Urgent(k, k.tasks[k.current].priority)
  }

  /** The two calls that make a task READY without looking whether it should run. */
  predicate Unscheduled<O>(s: System<O>, a: Action) {
    !Idle(s) && (a.ResumeTask? || a.CreateTask?)
  }

  lemma TickStaysRightful(k: Kernel, ms: nat)
    requires Consistent(k) && Rightful(k) && Consistent(AdvanceTime(k, ms)) && !TickPreempts(k, ms)
    ensures Rightful(AdvanceTime(k, ms))
  {
    SelectSpec(AdvanceTime(k, ms));
  }

  /** Nobody READY outranks the running task, after every action but resuming and late creation. When the
      processor falls idle (the start call returns), nothing is READY and no wake time is pending. */
  lemma StepStaysRightful<O>(s: System<O>, a: Action)
    requires SystemInv(s) && Can(s, a)
    ensures Rightful(s.k) && !Unscheduled(s, a) ==> Rightful(Next(s, a).k)
    ensures var k1 := Next(s, a).k;
            k1.current == INVALID_TASK && (s.k.current != INVALID_TASK || a.StartScheduler?) ==>
              NoneReady(k1) && forall i :: 0 <= i < |k1.tasks| ==> !Pending(k1.tasks[i])
  {
    hide Dispatch;
    StepIsMarkThenDispatch(s, a);
    ActionIsMarkedWell(s, a);
    if Dispatches(s, a) {
      DispatchSpec(Marked(s, a));
    } else if a.InjectTick? && Rightful(s.k) {
      TickStaysRightful(s.k, a.ms);
    } else if a.StartScheduler? {
      SelectSpec(s.k);
    }
  }

  ghost predicate NeverUnscheduled<O>(s: System<O>, acts: seq<Action>)
    requires SystemInv(s) && Legal(s, acts)
    decreases acts
  {
    acts == [] || (!Unscheduled(s, acts[0]) && NeverUnscheduled(Next(s, acts[0]), acts[1..]))
  }

  lemma {:induction false} RunStaysRightful<O>(s: System<O>, acts: seq<Action>)
    requires SystemInv(s) && Legal(s, acts) && Rightful(s.k) && NeverUnscheduled(s, acts)
    ensures Rightful(Run(s, acts).k)
    decreases acts
  {
    if acts != [] {
      StepStaysRightful(s, acts[0]);
      RunStaysRightful(Next(s, acts[0]), acts[1..]);
    }
  }

  /** From the empty table, over every run: exactly the current task is RUNNING, wake times lie ahead and are
      set only on BLOCKED tasks, and an idle processor waits for no wake time. */
  lemma FreshRunIsConsistent<O>(s: System<O>, acts: seq<Action>)
    requires Fresh(s)
    ensures SystemInv(s) && Rightful(s.k)
    ensures Legal(s, acts) ==> Consistent(Run(s, acts).k)
    ensures Legal(s, acts) && NeverUnscheduled(s, acts) ==> Rightful(Run(s, acts).k)
  {
    if Legal(s, acts) && NeverUnscheduled(s, acts) { RunStaysRightful(s, acts); }
  }

  // ---- Round robin ----

  /** Task `t` is READY and nobody READY or RUNNING is more urgent. */
  ghost predicate BestReady(k: Kernel, t: nat) {
    && t < |k.tasks| && Ready(k.tasks[t])
    && forall i :: 0 <= i < |k.tasks| && (k.tasks[i].state == READY || k.tasks[i].state == RUNNING) ==>
         k.tasks[t].priority <= k.tasks[i].priority
  }

  ghost predicate Passed<O>(s: System<O>, acts: seq<Action>, t: nat)
    requires SystemInv(s) && Legal(s, acts)
    decreases acts
  {
    && BestReady(s.k, t)
    && (acts == [] || (!acts[0].CreateTask? && Passed(Next(s, acts[0]), acts[1..], t)))
  }

  ghost function DispatchCount<O>(s: System<O>, acts: seq<Action>): nat
    requires SystemInv(s) && Legal(s, acts)
    decreases acts
  {
    if acts == [] then 0
    else (if Dispatches(s, acts[0]) then 1 else 0) + DispatchCount(Next(s, acts[0]), acts[1..])
  }

  lemma MarkedStaysReady<O>(s: System<O>, a: Action, t: nat)
    requires SystemInv(s) && Can(s, a) && !a.CreateTask? && t < |s.k.tasks| && Ready(s.k.tasks[t])
    ensures WellFormed(Marked(s, a)) && |Marked(s, a).tasks| == |s.k.tasks| && Marked(s, a).current == s.k.current
    ensures Ready(Marked(s, a).tasks[t])
  {
    StepIsMarkThenDispatch(s, a);
  }

  lemma PassingComesCloser<O>(s: System<O>, a: Action, t: nat)
    requires SystemInv(s) && Can(s, a) && !a.CreateTask? && BestReady(s.k, t)
    requires BestReady(Next(s, a).k, t)
    ensures var k1 := Next(s, a).k;
            && |k1.tasks| == |s.k.tasks|
            && Distance(k1, t) + (if Dispatches(s, a) then 1 else 0) <= Distance(s.k, t)
  {
    hide Dispatch;
    StepIsMarkThenDispatch(s, a);
    ActionIsMarkedWell(s, a);
    MarkedStaysReady(s, a, t);
    var m := Marked(s, a);
    if Dispatches(s, a) {
      DispatchSpec(m);
      var k1 := Dispatch(m);
      assert TaskStep(m.tasks[t], k1.tasks[t], k1.tick);
      forall i | 0 <= i < |m.tasks| && Ready(m.tasks[i])
        ensures m.tasks[t].priority <= m.tasks[i].priority
      {
        assert TaskStep(m.tasks[i], k1.tasks[i], k1.tick);
      }
      DispatchComesCloser(m, t);
    }
  }

  /** While a READY task of the best priority keeps waiting, at most `|tasks| - 1` dispatches pass it over. */
  lemma {:induction false} BoundedBypass<O>(s: System<O>, acts: seq<Action>, t: nat)
    requires SystemInv(s) && Legal(s, acts) && Passed(s, acts, t)
    ensures DispatchCount(s, acts) <= Distance(s.k, t) <= |s.k.tasks| - 1
    decreases acts
  {
    if acts != [] {
      PassingComesCloser(s, acts[0], t);
      BoundedBypass(Next(s, acts[0]), acts[1..], t);
    }
  }
}
