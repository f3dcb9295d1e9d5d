/** The counting semaphore: calls as functions, and the object that performs them in place. */
module SemaphoreCalls {
  import opened KernelCalls
  import opened WaitList

  datatype Semaphore = Semaphore(count: int, max: int, waiters: seq<nat>)

  predicate TakeBlocks(s: Semaphore) { s.count <= 0 }

  function TakeBy(s: Semaphore, me: nat): Semaphore {
    if TakeBlocks(s) then s.(waiters := Enqueue(s.waiters, me)) else s.(count := s.count - 1)
  }

  /** A give goes straight to the most urgent waiter, else raises the count, else is discarded. */
  function GiveOne(s: Semaphore, k: Kernel): Semaphore {
    if s.waiters != [] then s.(waiters := SwapRemove(s.waiters, BestIndex(k, s.waiters)))
    else if s.count < s.max then s.(count := s.count + 1)
    else s
  }

  predicate Accepts(s: Semaphore) { s.waiters != [] || s.count < s.max }
}

module Semaphores {
  import opened KernelCalls
  import opened Scheduling
  import opened WaitList
  import opened SemaphoreCalls

  class SemaphoreObject {
    const sched: Scheduler
    const waiters: array<nat>
    const maxCount: int
    var count: int
    var waitCount: nat

    ghost predicate Valid()
      reads this, sched
    {
      && sched.Valid() && waiters.Length == MAX_TASKS && waitCount <= MAX_TASKS
      && waiters as object != sched.tasks
    }

    ghost function Model(): Semaphore
      requires Valid()
      reads this, sched, waiters
    {
      Semaphore(count, maxCount, waiters[..waitCount])
    }

    constructor (s: Scheduler, initial: int, max: int)
      requires s.Valid()
      ensures Valid() && sched == s && fresh(waiters) && Model() == Semaphore(initial, max, [])
    {
      sched, maxCount := s, max;
      waiters := new nat[MAX_TASKS](_ => 0);
      count, waitCount := initial, 0;
    }

    /** Up to the context switch; a blocked caller returns with a unit given to it. */
    method Take()
      requires Valid()
      modifies this, waiters, sched, sched.tasks
      ensures Valid() && Model() == TakeBy(old(Model()), old(sched.current))
      ensures sched.Model() == if TakeBlocks(old(Model())) then BlockCurrent(old(sched.Model())) else old(sched.Model())
    {
      if count > 0 {
        count := count - 1;
        return;
      }
      if waitCount < MAX_TASKS {
        waiters[waitCount] := sched.current;
        waitCount := waitCount + 1;
      }
      sched.BlockCurrent();
    }

    method Give()
      requires Valid()
      modifies this, waiters, sched, sched.tasks
      ensures Valid() && Model() == GiveOne(old(Model()), old(sched.Model()))
      ensures sched.Model() ==
              if old(waitCount) == 0 then old(sched.Model())
              else Unblock(old(sched.Model()), old(waiters[..waitCount])[BestIndex(old(sched.Model()), old(waiters[..waitCount]))])
    {
      if waitCount > 0 {
        var best := FindBest(sched, waiters, waitCount);
        var w := waiters[best];
        waitCount := waitCount - 1;
        waiters[best] := waiters[waitCount];
        assert waiters[..waitCount] == SwapRemove(old(waiters[..waitCount]), best);
        sched.Unblock(w);
      } else if count < maxCount {
        count := count + 1;
      }
    }

    method TryTake() returns (taken: bool)
      requires Valid()
      modifies this`count
      ensures Valid() && taken == !TakeBlocks(old(Model()))
      ensures Model() == if taken then TakeBy(old(Model()), sched.current) else old(Model())
    {
      if count <= 0 { return false; }
      count := count - 1;
      taken := true;
    }
  }
}

/** Conservation of units over every run of tasks that share a semaphore. */
module SemaphoreRuns {
  import opened KernelCalls
  import opened Runs
  import opened Sharing
  import opened WaitList
  import opened SemaphoreCalls

  datatype Op = Taking

  /** `accepted` counts the gives that were not discarded, `granted` the units handed out, and `returned` the
      takes that have come back with one. */
  datatype State = State(sys: System<Op>, sem: Semaphore, initial: int, accepted: nat, granted: nat, returned: nat)

  datatype Call = Other(a: Action) | Take | TryTake | Give | TakeReturns

  predicate Allowed(s: State, c: Call) {
    match c
    case Other(a) => Can(s.sys, a)
    case Take => Running(s.sys)
    case TryTake => Running(s.sys) || Idle(s.sys)
    case Give => Running(s.sys) || Idle(s.sys)
    case TakeReturns => Returning(s.sys)
  }

  function Perform(s: State, c: Call): State
    requires WellFormed(s.sys.k) && |s.sys.places| == |s.sys.k.tasks| && Allowed(s, c)
  {
    var me := s.sys.k.current;
    match c
    case Other(a) => s.(sys := Step(s.sys, a))
    case Take =>
      if TakeBlocks(s.sem) then s.(sys := BlockAt(s.sys, Taking), sem := TakeBy(s.sem, me))
      else s.(sem := TakeBy(s.sem, me), granted := s.granted + 1, returned := s.returned + 1)
    case TryTake =>
      if TakeBlocks(s.sem) then s
      else s.(sem := TakeBy(s.sem, me), granted := s.granted + 1, returned := s.returned + 1)
    case Give =>
      var s1 := s.(sem := GiveOne(s.sem, s.sys.k), accepted := s.accepted + if Accepts(s.sem) then 1 else 0);
      if s.sem.waiters == [] then s1
      else s1.(sys := UnblockTask(s.sys, s.sem.waiters[BestIndex(s.sys.k, s.sem.waiters)]), granted := s.granted + 1)
    case TakeReturns => s.(sys := MoveTo(s.sys, Free), returned := s.returned + 1)
  }

  ghost function WokenTakers(sys: System<Op>): set<nat> {
    set i: nat | i < |sys.places| && Woken(sys, i)
  }

  ghost predicate Inv(s: State) {
    && SystemInv(s.sys)
    && Distinct(s.sem.waiters)
    && (forall i: nat :: i in s.sem.waiters <==> Waits(s.sys, i))
    && 0 <= s.sem.count <= s.sem.max
    && (s.sem.waiters != [] ==> s.sem.count == 0)
    && s.initial + s.accepted == s.sem.count + s.granted
    && s.granted == s.returned + |WokenTakers(s.sys)|
  }

  lemma OtherKeeps(s: State, a: Action)
    requires Inv(s) && Can(s.sys, a)
    ensures Inv(s.(sys := Step(s.sys, a)))
  {
    StepKeeps(s.sys, a);
    var sys1 := Step(s.sys, a);
    Standing(s.sys, sys1, INVALID_TASK);
    assert !Waits(s.sys, INVALID_TASK) && !Waits(sys1, INVALID_TASK);
    assert !Woken(s.sys, INVALID_TASK) && !Woken(sys1, INVALID_TASK);
    assert WokenTakers(sys1) == WokenTakers(s.sys);
  }

  lemma TakeKeeps(s: State)
    requires Inv(s) && Allowed(s, Take)
    ensures Inv(Perform(s, Take))
  {
    var me := s.sys.k.current;
    if TakeBlocks(s.sem) {
      assert !Waits(s.sys, me) && !Woken(s.sys, me);
      Pigeonhole(s.sem.waiters, |s.sys.places|, me);
      EnqueueDistinct(s.sem.waiters, me);
      BlockAtKeeps(s.sys, Taking);
      var sys1 := BlockAt(s.sys, Taking);
      Standing(s.sys, sys1, me);
      assert WokenTakers(sys1) == WokenTakers(s.sys);
    }
  }

  lemma GiveKeeps(s: State)
    requires Inv(s) && Allowed(s, Give)
    ensures Inv(Perform(s, Give))
  {
    if s.sem.waiters != [] {
      var best := BestIndex(s.sys.k, s.sem.waiters);
      var w := s.sem.waiters[best];
      SwapRemoveDistinct(s.sem.waiters, best);
      assert Waits(s.sys, w);
      UnblockKeeps(s.sys, w);
      var sys1 := UnblockTask(s.sys, w);
      Standing(s.sys, sys1, w);
      assert WokenTakers(sys1) == WokenTakers(s.sys) + {w};
    }
  }

  lemma TakeReturnsKeeps(s: State)
    requires Inv(s) && Allowed(s, TakeReturns)
    ensures Inv(Perform(s, TakeReturns))
  {
    var me := s.sys.k.current;
    assert Agree(s.sys.k.tasks[me], s.sys.places[me], s.sys.k.tick, s.sys.ticked);
    MoveKeeps(s.sys, Free);
    var sys1 := MoveTo(s.sys, Free);
    Standing(s.sys, sys1, me);
    assert Woken(s.sys, me);
    assert WokenTakers(sys1) == WokenTakers(s.sys) - {me};
  }

  lemma PerformKeeps(s: State, c: Call)
    requires Inv(s) && Allowed(s, c)
    ensures Inv(Perform(s, c))
  {
    match c
    case Other(a) => OtherKeeps(s, a);
    case Take => TakeKeeps(s);
    case TryTake =>
    case Give => GiveKeeps(s);
    case TakeReturns => TakeReturnsKeeps(s);
  }

  // ---- Beside other objects ----

  function MovesOf(s: State, c: Call): seq<Move> {
    match c
    case Other(_) => []
    case Take => if TakeBlocks(s.sem) then [Enter] else []
    case TryTake => []
    case Give => if s.sem.waiters == [] then [] else [Wake(s.sem.waiters[BestIndex(s.sys.k, s.sem.waiters)])]
    case TakeReturns => [Return]
  }

  /** A call wakes nobody but a task that is BLOCKED in this semaphore. */
  lemma WakesOnlyItsOwn(s: State, c: Call)
    requires Inv(s) && Allowed(s, c) && !c.Other?
    ensures MovesTo(s.sys, MovesOf(s, c), Perform(s, c).sys)
  {
    hide MovesTo, Unblock, BlockCurrent;
    match c
    case Take => if TakeBlocks(s.sem) { Enters(s.sys, Taking); } else { NoMove(s.sys); }
    case TryTake => NoMove(s.sys);
    case Give =>
      if s.sem.waiters == [] {
        NoMove(s.sys);
      } else {
        var w := s.sem.waiters[BestIndex(s.sys.k, s.sem.waiters)];
        assert w in s.sem.waiters && Waits(s.sys, w);
        Wakes(s.sys, w);
      }
    case TakeReturns => Returns(s.sys);
  }

  // ---- Runs ----

  ghost function Next(s: State, c: Call): (r: State)
    requires Inv(s) && Allowed(s, c)
    ensures Inv(r) && r.initial == s.initial && r.sem.max == s.sem.max
  {
    PerformKeeps(s, c);
    Perform(s, c)
  }

  ghost predicate Legal(s: State, calls: seq<Call>)
    requires Inv(s)
    decreases calls
  {
    calls == [] || (Allowed(s, calls[0]) && Legal(Next(s, calls[0]), calls[1..]))
  }

  ghost function Run(s: State, calls: seq<Call>): (r: State)
    requires Inv(s) && Legal(s, calls)
    ensures Inv(r) && r.initial == s.initial && r.sem.max == s.sem.max
    decreases calls
  {
    if calls == [] then s else Run(Next(s, calls[0]), calls[1..])
  }

  ghost function Initial(initial: int, max: int): (s: State)
    requires 0 <= initial <= max
    ensures Inv(s)
  {
    var s := State(System(Kernel([], 0, INVALID_TASK), [], false), Semaphore(initial, max, []), initial, 0, 0, 0);
    assert WokenTakers(s.sys) == {};
    s
  }

  /** In every run no unit appears or vanishes: what was there plus the accepted gives is the count plus the
      takes that have returned plus the takers on their way out. The count stays within its bounds, and nobody
      waits while a unit is there. */
  ghost predicate Conserved(s: State, initial: int, max: int) {
    && initial + s.accepted == s.sem.count + s.granted
    && s.granted == s.returned + |WokenTakers(s.sys)|
    && 0 <= s.sem.count <= max
    && (s.sem.waiters != [] ==> s.sem.count == 0)
    && |s.sem.waiters| <= MAX_TASKS
  }

  lemma InvConserves(s: State)
    requires Inv(s)
    ensures Conserved(s, s.initial, s.sem.max)
  {
    DistinctBelow(s.sem.waiters, |s.sys.places|);
  }

  lemma Conservation(initial: int, max: int, calls: seq<Call>)
    requires 0 <= initial <= max
    requires Legal(Initial(initial, max), calls)
    ensures Conserved(Run(Initial(initial, max), calls), initial, max)
  {
    InvConserves(Run(Initial(initial, max), calls));
  }

  /** A give is discarded exactly at the maximum with nobody waiting. Without a waiter any other give raises the count by
      one. With a waiter the unit goes to the most urgent one, which alone is taken off the list, and the count stays. */
  lemma GiveSpec(s: State)
    requires Inv(s) && Allowed(s, Give)
    ensures var s1 := Next(s, Give);
            && (s1.accepted == s.accepted <==> s.sem.waiters == [] && s.sem.count == s.sem.max)
            && (s.sem.waiters == [] ==>
                  && s1.sys == s.sys && s1.sem.waiters == [] && s1.granted == s.granted
                  && s1.sem.count == if s.sem.count < s.sem.max then s.sem.count + 1 else s.sem.max)
            && (s.sem.waiters != [] ==>
                  && s1.sem.count == s.sem.count == 0 && s1.granted == s.granted + 1
                  && exists w :: TakenOff(s.sys.k, s.sem.waiters, w, s1.sem.waiters) && Woken(s1.sys, w)
                       && multiset(s1.sem.waiters) + multiset{w} == multiset(s.sem.waiters))
  {
    if s.sem.waiters != [] {
      var best := BestIndex(s.sys.k, s.sem.waiters);
      SwapRemoveKeepsRest(s.sem.waiters, best);
      forall j | 0 <= j < |s.sem.waiters|
        ensures s.sem.waiters[j] < |s.sys.k.tasks|
      {
        assert Waits(s.sys, s.sem.waiters[j]);
      }
      BestIsTakenOff(s.sys.k, s.sem.waiters);
      assert Waits(s.sys, s.sem.waiters[best]);
      UnblockKeeps(s.sys, s.sem.waiters[best]);
      assert Woken(Next(s, Give).sys, s.sem.waiters[best]);
    }
  }

  /** A take with a unit there lowers the count by one and goes on; without one it waits last in line, or, with a try, has
      only looked. */
  lemma TakeSpec(s: State, c: Call)
    requires Inv(s) && Allowed(s, c) && (c.Take? || c.TryTake?)
    ensures var s1, me := Next(s, c), s.sys.k.current;
            && s1.accepted == s.accepted
            && (s.sem.count > 0 ==>
                  && s1.sys == s.sys && s1.sem.count == s.sem.count - 1 && s1.sem.waiters == s.sem.waiters
                  && s1.granted == s.granted + 1 && s1.returned == s.returned + 1)
            && (s.sem.count == 0 && c.Take? ==>
                  && s1.sem.count == 0 && s1.sem.waiters == s.sem.waiters + [me] && Waits(s1.sys, me)
                  && s1.granted == s.granted && s1.returned == s.returned)
            && (s.sem.count == 0 && c.TryTake? ==> s1 == s)
  {
    hide BlockAt;
    var me := s.sys.k.current;
    if c.Take? && s.sem.count == 0 {
      assert !Waits(s.sys, me);
      Pigeonhole(s.sem.waiters, |s.sys.places|, me);
      BlockAtKeeps(s.sys, Taking);
    }
  }
}
