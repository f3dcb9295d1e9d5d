/** The mutex: calls as functions on its owner and waiters, and the object that performs them in place. */
module MutexCalls {
  import opened KernelCalls
  import opened WaitList

  datatype Mutex = Mutex(owner: nat, waiters: seq<nat>)

  const UNLOCKED := Mutex(INVALID_TASK, [])

  predicate LockBlocks(m: Mutex) { m.owner != INVALID_TASK }

  function LockBy(m: Mutex, me: nat): Mutex {
    if LockBlocks(m) then m.(waiters := Enqueue(m.waiters, me)) else m.(owner := me)
  }

  /** The mutex goes straight to the most urgent waiter. */
  function Release(m: Mutex, k: Kernel): Mutex {
    if m.waiters == [] then m.(owner := INVALID_TASK)
    else
      var best := BestIndex(k, m.waiters);
      Mutex(m.waiters[best], SwapRemove(m.waiters, best))
  }
}

module Mutexes {
  import opened KernelCalls
  import opened Scheduling
  import opened WaitList
  import opened MutexCalls

  class MutexObject {
    const sched: Scheduler
    const waiters: array<nat>
    var owner: nat
    var waitCount: nat

    ghost predicate Valid()
      reads this, sched
    {
      && sched.Valid() && waiters.Length == MAX_TASKS && waitCount <= MAX_TASKS
      && waiters as object != sched.tasks
    }

    ghost function Model(): Mutex
      requires Valid()
      reads this, sched, waiters
    {
      Mutex(owner, waiters[..waitCount])
    }

    constructor (s: Scheduler)
      requires s.Valid()
      ensures Valid() && sched == s && fresh(waiters) && Model() == UNLOCKED
    {
      sched := s;
      waiters := new nat[MAX_TASKS](_ => 0);
      owner, waitCount := INVALID_TASK, 0;
    }

    /** Up to the context switch; a blocked caller returns as the owner. */
    method Lock()
      requires Valid()
      modifies this, waiters, sched, sched.tasks
      ensures Valid() && Model() == LockBy(old(Model()), old(sched.current))
      ensures sched.Model() == if LockBlocks(old(Model())) then BlockCurrent(old(sched.Model())) else old(sched.Model())
    {
      var me := sched.current;
      if owner == INVALID_TASK {
        owner := me;
        return;
      }
      if waitCount < MAX_TASKS {
        waiters[waitCount] := me;
        waitCount := waitCount + 1;
      }
      sched.BlockCurrent();
    }

    method Unlock()
      requires Valid()
      modifies this, waiters, sched, sched.tasks
      ensures Valid() && Model() == Release(old(Model()), old(sched.Model()))
      ensures sched.Model() == if old(waitCount) == 0 then old(sched.Model()) else Unblock(old(sched.Model()), owner)
    {
      if waitCount > 0 {
        var best := FindBest(sched, waiters, waitCount);
        owner := waiters[best];
        waitCount := waitCount - 1;
        waiters[best] := waiters[waitCount];
        assert waiters[..waitCount] == SwapRemove(old(waiters[..waitCount]), best);
        sched.Unblock(owner);
      } else {
        owner := INVALID_TASK;
      }
    }

    method TryLock() returns (taken: bool)
      requires Valid()
      modifies this
      ensures Valid() && taken == !LockBlocks(old(Model()))
      ensures Model() == if taken then LockBy(old(Model()), sched.current) else old(Model())
    {
      if owner != INVALID_TASK { return false; }
      owner := sched.current;
      taken := true;
    }
  }
}

/** Mutual exclusion over every run of tasks that share a mutex. */
module MutexRuns {
  import opened KernelCalls
  import opened Runs
  import opened Sharing
  import opened WaitList
  import opened MutexCalls

  datatype Op = Locking

  /** `inside` holds the tasks between a return from locking and their call of unlock. */
  datatype State = State(sys: System<Op>, m: Mutex, inside: set<nat>)

  datatype Call = Other(a: Action) | Lock | TryLock | Unlock | LockReturns

  /** The owner does not lock again, and only the owner unlocks. */
  predicate Allowed(s: State, c: Call) {
    match c
    case Other(a) => Can(s.sys, a)
    case Lock => Running(s.sys) && s.m.owner != s.sys.k.current
    case TryLock => Running(s.sys)
    case Unlock => Running(s.sys) && s.m.owner == s.sys.k.current
    case LockReturns => Returning(s.sys)
  }

  function Perform(s: State, c: Call): State
    requires WellFormed(s.sys.k) && |s.sys.places| == |s.sys.k.tasks| && Allowed(s, c)
  {
    var me := s.sys.k.current;
    match c
    case Other(a) => s.(sys := Step(s.sys, a))
    case Lock =>
      if LockBlocks(s.m) then s.(sys := BlockAt(s.sys, Locking), m := LockBy(s.m, me))
      else s.(m := LockBy(s.m, me), inside := s.inside + {me})
    case TryLock =>
      if LockBlocks(s.m) then s else s.(m := LockBy(s.m, me), inside := s.inside + {me})
    case Unlock =>
      var m1 := Release(s.m, s.sys.k);
      State(if s.m.waiters == [] then s.sys else UnblockTask(s.sys, m1.owner), m1, s.inside - {me})
    case LockReturns => s.(sys := MoveTo(s.sys, Free), inside := s.inside + {me})
  }

  /** The waiters are exactly the tasks blocked in lock, each once; a task woken in lock is the owner; a task
      inside the critical section is the owner; the owner is inside unless it is still on its way out of lock. */
  ghost predicate Inv(s: State) {
    && SystemInv(s.sys)
    && Distinct(s.m.waiters)
    && (forall i: nat :: i in s.m.waiters <==> Waits(s.sys, i))
    && (forall i: nat :: Woken(s.sys, i) ==> i == s.m.owner)
    && (forall i :: i in s.inside ==> i == s.m.owner)
    && (s.m.owner == INVALID_TASK ==> s.m.waiters == [] && s.inside == {})
    && (s.m.owner != INVALID_TASK ==>
          s.m.owner < |s.sys.places| && s.m.owner !in s.m.waiters && (Woken(s.sys, s.m.owner) || s.m.owner in s.inside))
  }

  lemma OtherKeeps(s: State, a: Action)
    requires Inv(s) && Can(s.sys, a)
    ensures Inv(s.(sys := Step(s.sys, a)))
  {
    StepKeeps(s.sys, a);
    Standing(s.sys, Step(s.sys, a), INVALID_TASK);
    assert !Waits(s.sys, INVALID_TASK) && !Woken(s.sys, INVALID_TASK);
    assert !Waits(Step(s.sys, a), INVALID_TASK) && !Woken(Step(s.sys, a), INVALID_TASK);
  }

  /** The 16-slot array never drops a waiter. */
  lemma NeverDropped(s: State)
    requires Inv(s) && Running(s.sys)
    ensures |s.m.waiters| < MAX_TASKS
  {
    Pigeonhole(s.m.waiters, |s.sys.places|, s.sys.k.current);
  }

  lemma TakeKeeps(s: State)
    requires Inv(s) && Running(s.sys) && !LockBlocks(s.m)
    ensures Inv(s.(m := LockBy(s.m, s.sys.k.current), inside := s.inside + {s.sys.k.current}))
  {
  }

  lemma BlockingLockKeeps(s: State)
    requires Inv(s) && Allowed(s, Lock) && LockBlocks(s.m)
    ensures Inv(Perform(s, Lock))
  {
    var me := s.sys.k.current;
    assert !Waits(s.sys, me) && !Woken(s.sys, me);
    NeverDropped(s);
    EnqueueDistinct(s.m.waiters, me);
    BlockAtKeeps(s.sys, Locking);
    Standing(s.sys, BlockAt(s.sys, Locking), me);
  }

  lemma UnlockKeeps(s: State)
    requires Inv(s) && Allowed(s, Unlock)
    ensures Inv(Perform(s, Unlock))
  {
    if s.m.waiters != [] {
      var w := Release(s.m, s.sys.k).owner;
      SwapRemoveDistinct(s.m.waiters, BestIndex(s.sys.k, s.m.waiters));
      assert Waits(s.sys, w);
      UnblockKeeps(s.sys, w);
      Standing(s.sys, UnblockTask(s.sys, w), w);
    }
  }

  lemma LockReturnsKeeps(s: State)
    requires Inv(s) && Allowed(s, LockReturns)
    ensures Inv(Perform(s, LockReturns))
  {
    assert Agree(s.sys.k.tasks[s.sys.k.current], s.sys.places[s.sys.k.current], s.sys.k.tick, s.sys.ticked);
    MoveKeeps(s.sys, Free);
    Standing(s.sys, MoveTo(s.sys, Free), s.sys.k.current);
    assert Woken(s.sys, s.sys.k.current);
  }

  lemma PerformKeeps(s: State, c: Call)
    requires Inv(s) && Allowed(s, c)
    ensures Inv(Perform(s, c))
  {
    match c
    case Other(a) => OtherKeeps(s, a);
    case Lock => if LockBlocks(s.m) { BlockingLockKeeps(s); } else { TakeKeeps(s); }
    case TryLock => if !LockBlocks(s.m) { TakeKeeps(s); }
    case Unlock => UnlockKeeps(s);
    case LockReturns => LockReturnsKeeps(s);
  }

  // ---- Beside other objects ----

  /** What a call does to the system. */
  function MovesOf(s: State, c: Call): seq<Move> {
    match c
    case Other(_) => []
    case Lock => if LockBlocks(s.m) then [Enter] else []
    case TryLock => []
    case Unlock => if s.m.waiters == [] then [] else [Wake(Release(s.m, s.sys.k).owner)]
    case LockReturns => [Return]
  }

  /** The guarantee to every other object: a call blocks or returns the running task, and wakes nobody but a task that is
      BLOCKED in this mutex. */
  lemma WakesOnlyItsOwn(s: State, c: Call)
    requires Inv(s) && Allowed(s, c) && !c.Other?
    ensures MovesTo(s.sys, MovesOf(s, c), Perform(s, c).sys)
  {
    hide MovesTo, Unblock, BlockCurrent;
    match c
    case Lock => if LockBlocks(s.m) { Enters(s.sys, Locking); } else { NoMove(s.sys); }
    case TryLock => NoMove(s.sys);
    case Unlock =>
      if s.m.waiters == [] {
        NoMove(s.sys);
      } else {
        var w := Release(s.m, s.sys.k).owner;
        assert w in s.m.waiters && Waits(s.sys, w);
        Wakes(s.sys, w);
      }
    case LockReturns => Returns(s.sys);
  }

  /** The assumption on every other object is needed: a wake-up of a waiter by anyone but the unlocker breaks the
      invariant, and once that waiter has the processor it comes back from lock into the critical section beside the
      owner. */
  lemma StrayWakeUpBreaksExclusion(s: State, t: nat)
    requires Inv(s) && t in s.m.waiters && (Running(s.sys) || Idle(s.sys))
    ensures var s1 := s.(sys := UnblockTask(s.sys, t));
            && SystemInv(s1.sys) && !Inv(s1)
            && (s1.sys.k.current == t && s.m.owner in s.inside ==>
                  Allowed(s1, LockReturns) && t != s.m.owner && {t, s.m.owner} <= Perform(s1, LockReturns).inside)
  {
    assert Waits(s.sys, t);
    UnblockKeeps(s.sys, t);
    assert Woken(UnblockTask(s.sys, t), t);
  }

  // ---- Runs ----

  ghost function Next(s: State, c: Call): (r: State)
    requires Inv(s) && Allowed(s, c)
    ensures Inv(r)
  {
    PerformKeeps(s, c);
    Perform(s, c)
  }

  ghost predicate Legal(s: State, calls: seq<Call>)
    requires Inv(s)
    decreases calls
  {
    calls == [] || (Allowed(s, calls[0]) && Legal(Next(s, calls[0]), calls[1..]))
  }

  ghost function Run(s: State, calls: seq<Call>): (r: State)
    requires Inv(s) && Legal(s, calls)
    ensures Inv(r)
    decreases calls
  {
    if calls == [] then s else Run(Next(s, calls[0]), calls[1..])
  }

  ghost function Initial(): (s: State)
    ensures Inv(s)
  {
    State(System(Kernel([], 0, INVALID_TASK), [], false), UNLOCKED, {})
  }

  /** At most one task is inside the critical section, and it owns the mutex; every waiter is BLOCKED and is not the
      owner; nobody waits for a free mutex. */
  ghost predicate Exclusive(s: State) {
    && (forall i, j :: i in s.inside && j in s.inside ==> i == j)
    && (forall i :: i in s.inside ==> i == s.m.owner)
    && (forall i :: i in s.m.waiters ==> Waits(s.sys, i) && i != s.m.owner)
    && (s.m.owner == INVALID_TASK ==> s.m.waiters == [])
    && Distinct(s.m.waiters) && |s.m.waiters| <= MAX_TASKS
  }

  lemma InvIsExclusive(s: State)
    requires Inv(s)
    ensures Exclusive(s)
  {
    if s.m.owner != INVALID_TASK { Pigeonhole(s.m.waiters, |s.sys.places|, s.m.owner); }
  }

  lemma MutualExclusion(calls: seq<Call>)
    requires Legal(Initial(), calls)
    ensures Exclusive(Run(Initial(), calls))
  {
    InvIsExclusive(Run(Initial(), calls));
  }

  /** The hand-off: if anyone waits, the next owner is the most urgent waiter, it is no longer BLOCKED, it is the only one
      taken off the list, and nobody is inside until it is on the processor again. */
  lemma HandOff(s: State)
    requires Inv(s) && Allowed(s, Unlock) && s.m.waiters != []
    ensures var s1 := Next(s, Unlock);
            && TakenOff(s.sys.k, s.m.waiters, s1.m.owner, s1.m.waiters)
            && Woken(s1.sys, s1.m.owner) && s1.inside == {}
            && multiset(s1.m.waiters) + multiset{s1.m.owner} == multiset(s.m.waiters)
  {
    var best := BestIndex(s.sys.k, s.m.waiters);
    SwapRemoveKeepsRest(s.m.waiters, best);
    forall j | 0 <= j < |s.m.waiters|
      ensures s.m.waiters[j] < |s.sys.k.tasks|
    {
      assert Waits(s.sys, s.m.waiters[j]);
    }
    BestIsTakenOff(s.sys.k, s.m.waiters);
    assert Waits(s.sys, s.m.waiters[best]);
    UnblockKeeps(s.sys, s.m.waiters[best]);
    PerformKeeps(s, Unlock);
  }

  /** Whoever finds the mutex free has it and goes on; whoever finds it taken waits last in line, or, with a try, has only
      looked. An unlock that nobody waits for frees it. */
  lemma CallSpec(s: State, c: Call)
    requires Inv(s) && Allowed(s, c)
    ensures var s1, me := Next(s, c), s.sys.k.current;
            && ((c.Lock? || c.TryLock?) && s.m.owner == INVALID_TASK ==>
                  s1.sys == s.sys && s1.m.owner == me && s1.m.waiters == s.m.waiters && s1.inside == {me})
            && (c.Lock? && s.m.owner != INVALID_TASK ==>
                  && s1.m.owner == s.m.owner && s1.m.waiters == s.m.waiters + [me] && s1.inside == s.inside
                  && Waits(s1.sys, me))
            && (c.TryLock? && s.m.owner != INVALID_TASK ==> s1 == s)
            && (c.Unlock? && s.m.waiters == [] ==>
                  s1.sys == s.sys && s1.m.owner == INVALID_TASK && s1.m.waiters == [] && s1.inside == {})
            && (c.LockReturns? ==>
                  s1.sys.k == s.sys.k && s1.m == s.m && s1.m.owner == me && s1.inside == {me}
                  && s1.sys.places == s.sys.places[me := Free])
  {
    hide BlockAt, Unblock;
    var me := s.sys.k.current;
    if c.Lock? && s.m.owner != INVALID_TASK {
      NeverDropped(s);
      BlockAtKeeps(s.sys, Locking);
    } else if c.LockReturns? {
      assert Agree(s.sys.k.tasks[me], s.sys.places[me], s.sys.k.tick, s.sys.ticked);
      assert Woken(s.sys, me);
    }
  }
}
