/** The 32 flags of a word, one by one, and what a request for some of them means. */
module EventFlags {

  /** Flag `i` is set in the word `x`. */
  predicate Flag(x: bv32, i: bv32)
    requires i < 32
  {
    (x >> i) & 1 == 1
  }

  /** Among `flags`, every requested flag is set, or, where one is enough, some requested flag is set. */
  ghost predicate Fulfilled(flags: bv32, bits: bv32, all: bool) {
    if all then forall i: bv32 :: i < 32 && Flag(bits, i) ==> Flag(flags, i)
    else exists i: bv32 :: i < 32 && Flag(bits, i) && Flag(flags, i)
  }

  /** `now` has the flags of `before`, and those of `set` besides. */
  ghost predicate FlagsSet(before: bv32, added: bv32, now: bv32) {
    forall i: bv32 :: i < 32 ==> (Flag(now, i) <==> Flag(before, i) || Flag(added, i))
  }

  /** `now` has the flags of `before` without those of `cleared`. */
  ghost predicate FlagsCleared(before: bv32, cleared: bv32, now: bv32) {
    forall i: bv32 :: i < 32 ==> (Flag(now, i) <==> Flag(before, i) && !Flag(cleared, i))
  }

  /** A word that is not zero from flag `i` on has a flag there. */
  lemma {:induction false} SomeFlag(x: bv32, i: bv32) returns (j: bv32)
    requires i <= 32 && x >> i != 0
    ensures j < 32 && Flag(x, j)
    decreases 32 - i
  {
    j := i;
    if !Flag(x, i) { j := SomeFlag(x, i + 1); }
  }

  lemma FlagOfCombination(x: bv32, y: bv32, i: bv32)
    requires i < 32
    ensures Flag(x | y, i) <==> Flag(x, i) || Flag(y, i)
    ensures Flag(x & y, i) <==> Flag(x, i) && Flag(y, i)
    ensures Flag(x & !y, i) <==> Flag(x, i) && !Flag(y, i)
    ensures !Flag(0, i)
  {
  }

  lemma FromFlagZero(x: bv32)
    ensures x >> 0 == x
  {
  }

  lemma Covered(x: bv32, y: bv32)
    requires x & !y == 0
    ensures y & x == x
  {
  }

  /** A mask keeps all of the requested bits exactly when every requested flag is set. */
  lemma AllRequested(flags: bv32, bits: bv32)
    ensures flags & bits == bits <==> Fulfilled(flags, bits, true)
  {
    hide Flag;
    if flags & bits != bits {
      if bits & !flags == 0 { Covered(bits, flags); }
      FromFlagZero(bits & !flags);
      var i := SomeFlag(bits & !flags, 0);
      FlagOfCombination(bits, flags, i);
    } else {
      forall i: bv32 | i < 32 && Flag(bits, i)
        ensures Flag(flags, i)
      {
        FlagOfCombination(flags, bits, i);
      }
    }
  }

  /** A mask keeps some of the requested bits exactly when some requested flag is set. */
  lemma SomeRequested(flags: bv32, bits: bv32)
    ensures flags & bits != 0 <==> Fulfilled(flags, bits, false)
  {
    hide Flag;
    if flags & bits != 0 {
      FromFlagZero(flags & bits);
      var i := SomeFlag(flags & bits, 0);
      FlagOfCombination(flags, bits, i);
    } else {
      forall i: bv32 | i < 32
        ensures !(Flag(bits, i) && Flag(flags, i))
      {
        FlagOfCombination(flags, bits, i);
      }
    }
  }

  lemma Combined(x: bv32, y: bv32)
    ensures FlagsSet(x, y, x | y) && FlagsCleared(x, y, x & !y)
  {
    hide Flag;
    forall i: bv32 | i < 32
      ensures Flag(x | y, i) <==> Flag(x, i) || Flag(y, i)
      ensures Flag(x & !y, i) <==> Flag(x, i) && !Flag(y, i)
    {
      FlagOfCombination(x, y, i);
    }
  }
}

/** Event flags: calls as functions, and the object that performs them in place. */
module EventCalls {
  import opened EventFlags
  import opened KernelCalls
  import opened KernelProperties
  import opened WaitList

  datatype Waiter = Waiter(task: nat, bits: bv32, all: bool)

  datatype Events = Events(bits: bv32, waiters: seq<Waiter>)

  predicate Satisfied(flags: bv32, bits: bv32, all: bool) {
    if all then flags & bits == bits else flags & bits != 0
  }

  /** A condition holds exactly when every requested flag is set, or, for a request for any, some requested one. */
  lemma SatisfiedFlagByFlag(flags: bv32, bits: bv32, all: bool)
    ensures Satisfied(flags, bits, all) <==> Fulfilled(flags, bits, all)
  {
    hide Fulfilled;
    AllRequested(flags, bits);
    SomeRequested(flags, bits);
  }

  /** The flags after setting `b`. */
  function Raised(flags: bv32, b: bv32): bv32 { flags | b }

  predicate Met(flags: bv32, w: Waiter) { Satisfied(flags, w.bits, w.all) }

  /** The compacting loop from index `i`: the waiters that stay and those woken, in the order of waking. */
  function CheckFrom(flags: bv32, waiters: seq<Waiter>, i: nat): (r: (seq<Waiter>, seq<Waiter>))
    decreases |waiters| - i
  {
    if i >= |waiters| then (waiters, [])
    else if Met(flags, waiters[i]) then
      var (stay, woken) := CheckFrom(flags, SwapRemove(waiters, i), i);
      (stay, [waiters[i]] + woken)
    else CheckFrom(flags, waiters, i + 1)
  }

  function Tasks(waiters: seq<Waiter>): (ts: seq<nat>)
    ensures |ts| == |waiters|
  {
    seq(|waiters|, i requires 0 <= i < |waiters| => waiters[i].task)
  }

  function UnblockAll(k: Kernel, ts: seq<nat>): Kernel
    requires WellFormed(k)
    decreases ts
  {
    if ts == [] then k
    else
      UnblockWellFormed(k, ts[0]);
      UnblockAll(Unblock(k, ts[0]), ts[1..])
  }

  lemma {:induction false} DispatchWellFormed(k: Kernel)
    requires WellFormed(k)
    ensures WellFormed(Dispatch(k))
    decreases PendingCount(k.tasks)
  {
    SelectInTable(k);
    if SelectNext(k) == INVALID_TASK && Earliest(k.tasks) != UINT32_MAX {
      JumpDecreases(k);
      DispatchWellFormed(Jump(k));
    }
  }

  lemma UnblockWellFormed(k: Kernel, t: nat)
    requires WellFormed(k)
    ensures WellFormed(Unblock(k, t))
  {
    if t < |k.tasks| && k.current != INVALID_TASK {
      DispatchWellFormed(SetState(SetState(k, t, READY), k.current, READY));
    }
  }

  /** Unblocking a task that does not outrank the running one keeps the processor. */
  predicate NotOutranked(k: Kernel, t: nat)
    requires WellFormed(k)
  {
    k.current == INVALID_TASK || k.tasks[k.current].priority <= Priority(k, t)
  }

  /** No waiter whose condition the flags meet is more urgent than the running task. */
  predicate NoneOutranks(k: Kernel, flags: bv32, waiters: seq<Waiter>)
    requires WellFormed(k)
  {
    forall i :: 0 <= i < |waiters| && Met(flags, waiters[i]) ==> NotOutranked(k, waiters[i].task)
  }

  datatype Pass = Pass(waiters: seq<Waiter>, k: Kernel, at: nat, finished: bool)

  /** The checking loop from index `i`, up to its end or to the first unblocking that switches to another task. */
  function CheckPass(k: Kernel, flags: bv32, waiters: seq<Waiter>, i: nat): Pass
    requires WellFormed(k)
    decreases |waiters| - i
  {
    if i >= |waiters| then Pass(waiters, k, i, true)
    else if Met(flags, waiters[i]) then
      UnblockWellFormed(k, waiters[i].task);
      var k1 := Unblock(k, waiters[i].task);
      if k1.current != k.current then Pass(waiters, k1, i, false)
      else CheckPass(k1, flags, SwapRemove(waiters, i), i)
    else CheckPass(k, flags, waiters, i + 1)
  }

  lemma {:induction false} CheckPermutes(flags: bv32, waiters: seq<Waiter>, i: nat)
    requires i <= |waiters|
    ensures var (stay, woken) := CheckFrom(flags, waiters, i); multiset(stay) + multiset(woken) == multiset(waiters)
    decreases |waiters| - i
  {
    hide Satisfied, SwapRemove;
    if i < |waiters| {
      if Met(flags, waiters[i]) {
        SwapRemoveKeepsRest(waiters, i);
        CheckPermutes(flags, SwapRemove(waiters, i), i);
      } else {
        CheckPermutes(flags, waiters, i + 1);
      }
    }
  }

  ghost predicate AllMet(flags: bv32, waiters: seq<Waiter>) {
    forall j :: 0 <= j < |waiters| ==> Met(flags, waiters[j])
  }

  ghost predicate NoneMet(flags: bv32, waiters: seq<Waiter>) {
    forall j :: 0 <= j < |waiters| ==> !Met(flags, waiters[j])
  }

  lemma {:induction false} CheckDecides(flags: bv32, waiters: seq<Waiter>, i: nat)
    requires i <= |waiters| && forall j :: 0 <= j < i ==> !Met(flags, waiters[j])
    ensures NoneMet(flags, CheckFrom(flags, waiters, i).0) && AllMet(flags, CheckFrom(flags, waiters, i).1)
    decreases |waiters| - i
  {
    hide Satisfied;
    if i < |waiters| {
      if Met(flags, waiters[i]) {
        CheckDecides(flags, SwapRemove(waiters, i), i);
      } else {
        CheckDecides(flags, waiters, i + 1);
      }
    }
  }

  /** The check splits the waiters: exactly those whose condition does not hold stay. */
  lemma CheckSpec(flags: bv32, waiters: seq<Waiter>, i: nat)
    requires i <= |waiters| && forall j :: 0 <= j < i ==> !Met(flags, waiters[j])
    ensures var (stay, woken) := CheckFrom(flags, waiters, i);
            && multiset(stay) + multiset(woken) == multiset(waiters)
            && (forall j :: 0 <= j < |stay| ==> !Met(flags, stay[j]))
            && (forall j :: 0 <= j < |woken| ==> Met(flags, woken[j]))
  {
    hide CheckFrom, Satisfied;
    CheckPermutes(flags, waiters, i);
    CheckDecides(flags, waiters, i);
  }

  lemma CheckSplits(flags: bv32, waiters: seq<Waiter>)
    ensures var (stay, woken) := CheckFrom(flags, waiters, 0);
            && (forall w: Waiter :: multiset(stay)[w] == if Met(flags, w) then 0 else multiset(waiters)[w])
            && (forall w: Waiter :: w in waiters && Met(flags, w) ==> w in woken)
  {
    var (stay, woken) := CheckFrom(flags, waiters, 0);
    CheckSpec(flags, waiters, 0);
    forall w: Waiter
      ensures multiset(stay)[w] == if Met(flags, w) then 0 else multiset(waiters)[w]
      ensures w in waiters && Met(flags, w) ==> w in woken
    {
      assert w in multiset(stay) <==> w in stay;
      assert w in multiset(woken) <==> w in woken;
      assert (multiset(stay) + multiset(woken))[w] == multiset(waiters)[w];
      assert w in multiset(waiters) <==> w in waiters;
    }
  }

  lemma UnblockPlainly(k: Kernel, t: nat)
    requires WellFormed(k) && NotOutranked(k, t)
    ensures Unblock(k, t) == if t < |k.tasks| && k.tasks[t].state == BLOCKED then SetState(k, t, READY) else k
    ensures forall x :: Priority(Unblock(k, t), x) == Priority(k, x)
  {
  }

  /** Where no met waiter outranks the caller, the loop runs to its end before anyone else does. */
  lemma {:induction false} PassCompletes(k: Kernel, flags: bv32, waiters: seq<Waiter>, i: nat)
    requires WellFormed(k) && NoneOutranks(k, flags, waiters) && i <= |waiters|
    ensures var (stay, woken) := CheckFrom(flags, waiters, i); var p := CheckPass(k, flags, waiters, i);
            p.finished && p.waiters == stay && p.k == UnblockAll(k, Tasks(woken))
    decreases |waiters| - i
  {
    hide Dispatch, Satisfied, Priority;
    if i < |waiters| {
      if Met(flags, waiters[i]) {
        var w, rest := waiters[i].task, SwapRemove(waiters, i);
        UnblockPlainly(k, w);
        PassCompletes(Unblock(k, w), flags, rest, i);
        var woken := CheckFrom(flags, rest, i).1;
        assert Tasks([waiters[i]] + woken)[1..] == Tasks(woken);
      } else {
        PassCompletes(k, flags, waiters, i + 1);
      }
    }
  }

  /** Every waiter is in the table and BLOCKED, each task waits once, and the running task is not BLOCKED. */
  ghost predicate Parked(k: Kernel, waiters: seq<Waiter>) {
    && WellFormed(k) && Distinct(Tasks(waiters))
    && (forall i :: 0 <= i < |k.tasks| ==> k.tasks[i].priority < NO_PRIORITY)
    && (forall j :: 0 <= j < |waiters| ==> waiters[j].task < |k.tasks| && k.tasks[waiters[j].task].state == BLOCKED)
    && (k.current != INVALID_TASK ==> k.tasks[k.current].state != BLOCKED)
  }

  /** Unblocking a BLOCKED task that outranks the running one takes the processor away from it. */
  lemma OutrankedSwitches(k: Kernel, t: nat)
    requires WellFormed(k) && t < |k.tasks| && k.tasks[t].state == BLOCKED && !NotOutranked(k, t)
    requires forall i :: 0 <= i < |k.tasks| ==> k.tasks[i].priority < NO_PRIORITY
    ensures Unblock(k, t).current != k.current
  {
    var k1 := SetState(SetState(k, t, READY), k.current, READY);
    SelectSpec(k1);
    assert Ready(k1.tasks[t]);
  }

  lemma StayParked(k: Kernel, flags: bv32, waiters: seq<Waiter>, i: nat)
    requires WellFormed(k) && Parked(k, waiters) && i < |waiters| && NotOutranked(k, waiters[i].task)
    ensures var k1 := Unblock(k, waiters[i].task); var rest := SwapRemove(waiters, i);
            && WellFormed(k1) && k1.current == k.current && Parked(k1, rest)
            && (Met(flags, waiters[i]) ==> (NoneOutranks(k1, flags, rest) <==> NoneOutranks(k, flags, waiters)))
  {
    hide Dispatch, Satisfied, Priority;
    var w, rest := waiters[i].task, SwapRemove(waiters, i);
    UnblockPlainly(k, w);
    SwapRemoveDistinct(Tasks(waiters), i);
    assert Tasks(rest) == SwapRemove(Tasks(waiters), i);
    forall j | 0 <= j < |rest|
      ensures rest[j].task != w
    {
      assert Tasks(rest)[j] in Tasks(rest);
    }
    var k1 := Unblock(k, w);
    if NoneOutranks(k1, flags, rest) {
      forall j | 0 <= j < |waiters| && Met(flags, waiters[j])
        ensures NotOutranked(k, waiters[j].task)
      {
        if j != i {
          var j' := if j == |waiters| - 1 then i else j;
          assert rest[j'] == waiters[j];
        }
      }
    }
  }

  /** The checking loop settles the list exactly when no met waiter outranks the running task: then it runs to its
      end, and otherwise another task gets the processor while a waiter whose condition holds is still listed. */
  lemma {:induction false} PassSettlesIff(k: Kernel, flags: bv32, waiters: seq<Waiter>, i: nat)
    requires WellFormed(k) && Parked(k, waiters) && i <= |waiters|
    requires forall j :: 0 <= j < i ==> !Met(flags, waiters[j])
    ensures var p := CheckPass(k, flags, waiters, i);
            && (p.finished <==> NoneOutranks(k, flags, waiters))
            && (NoneMet(flags, p.waiters) <==> NoneOutranks(k, flags, waiters))
    decreases |waiters| - i
  {
    hide Dispatch, Satisfied, Priority, Unblock, Parked;
    if i < |waiters| {
      if !Met(flags, waiters[i]) {
        PassSettlesIff(k, flags, waiters, i + 1);
      } else if NotOutranked(k, waiters[i].task) {
        StayParked(k, flags, waiters, i);
        PassSettlesIff(Unblock(k, waiters[i].task), flags, SwapRemove(waiters, i), i);
      } else {
        Outranking(k, waiters, i);
      }
    }
  }

  /** What the caller does first when it has the processor again: the entry at its index goes, whatever it is now. */
  function Compact(waiters: seq<Waiter>, at: nat): seq<Waiter>
    requires waiters != []
  {
    if at < |waiters| then SwapRemove(waiters, at) else waiters[..|waiters| - 1]
  }

  /** If nobody uses the group meanwhile, a loop that was interrupted and goes on later, possibly in many parts, ends with
      the list it would have left without interruption. */
  lemma {:induction false} ResumedPassAgrees(k: Kernel, k2: Kernel, flags: bv32, waiters: seq<Waiter>, i: nat)
    requires WellFormed(k) && WellFormed(k2) && i <= |waiters| && !CheckPass(k, flags, waiters, i).finished
    ensures var p := CheckPass(k, flags, waiters, i);
            && p.at < |p.waiters| && Met(flags, p.waiters[p.at])
            && CheckFrom(flags, Compact(p.waiters, p.at), p.at).0 == CheckFrom(flags, waiters, i).0
            && (var p2 := CheckPass(k2, flags, Compact(p.waiters, p.at), p.at);
                p2.finished ==> p2.waiters == CheckFrom(flags, waiters, i).0)
    decreases |waiters| - i
  {
    hide Unblock, Met;
    var p := CheckPass(k, flags, waiters, i);
    if Met(flags, waiters[i]) {
      var k1, rest := Unblock(k, waiters[i].task), SwapRemove(waiters, i);
      UnblockWellFormed(k, waiters[i].task);
      if k1.current == k.current {
        ResumedPassAgrees(k1, k2, flags, rest, i);
      } else if CheckPass(k2, flags, rest, i).finished {
        FinishedPassAgrees(k2, flags, rest, i);
      }
    } else {
      ResumedPassAgrees(k, k2, flags, waiters, i + 1);
    }
  }

  lemma {:induction false} FinishedPassAgrees(k: Kernel, flags: bv32, waiters: seq<Waiter>, i: nat)
    requires WellFormed(k) && CheckPass(k, flags, waiters, i).finished
    ensures CheckPass(k, flags, waiters, i).waiters == CheckFrom(flags, waiters, i).0
    decreases |waiters| - i
  {
    hide Unblock, Met;
    if i < |waiters| {
      if Met(flags, waiters[i]) {
        UnblockWellFormed(k, waiters[i].task);
        FinishedPassAgrees(Unblock(k, waiters[i].task), flags, SwapRemove(waiters, i), i);
      } else {
        FinishedPassAgrees(k, flags, waiters, i + 1);
      }
    }
  }

  lemma Outranking(k: Kernel, waiters: seq<Waiter>, i: nat)
    requires Parked(k, waiters) && i < |waiters| && !NotOutranked(k, waiters[i].task)
    ensures Unblock(k, waiters[i].task).current != k.current
  {
    OutrankedSwitches(k, waiters[i].task);
  }
}

module EventGroups {
  import opened KernelCalls
  import opened Scheduling
  import opened WaitList
  import opened EventFlags
  import opened EventCalls

  class EventGroupObject {
    const sched: Scheduler
    const waiters: array<Waiter>
    var bits: bv32
    var waitCount: nat

    ghost predicate Valid()
      reads this, sched
    {
      && sched.Valid() && waiters.Length == MAX_TASKS && waitCount <= MAX_TASKS
      && waiters as object != sched.tasks
    }

    ghost function Model(): Events
      requires Valid()
      reads this, sched, waiters
    {
      Events(bits, waiters[..waitCount])
    }

    constructor (s: Scheduler)
      requires s.Valid()
      ensures Valid() && sched == s && fresh(waiters) && Model() == Events(0, [])
    {
      sched := s;
      waiters := new Waiter[MAX_TASKS](_ => Waiter(0, 0, false));
      bits, waitCount := 0, 0;
    }

    /** The checking loop from index `start`, up to its end or to the unblocking that switches to another task. */
    method CheckWaiters(start: nat) returns (at: nat, finished: bool)
      requires Valid()
      modifies this`waitCount, waiters, sched, sched.tasks
      ensures Valid() && bits == old(bits) && (!finished ==> at < waitCount)
      ensures Pass(Model().waiters, sched.Model(), at, finished)
           == CheckPass(old(sched.Model()), bits, old(Model()).waiters, start)
    {
      hide Dispatch, Satisfied, Unblock;
      ghost var all := CheckPass(sched.Model(), bits, waiters[..waitCount], start);
      var i: nat := start;
      while i < waitCount
        invariant Valid() && bits == old(bits)
        invariant CheckPass(sched.Model(), bits, waiters[..waitCount], i) == all
        decreases waitCount - i
      {
        ghost var list := waiters[..waitCount];
        if Satisfied(bits, waiters[i].bits, waiters[i].all) {
          var me := sched.current;
          sched.Unblock(waiters[i].task);
          if sched.current != me { return i, false; }
          waitCount := waitCount - 1;
          waiters[i] := waiters[waitCount];
          assert waiters[..waitCount] == SwapRemove(list, i);
        } else {
          i := i + 1;
        }
      }
      at, finished := i, true;
    }

    /** The rest of the loop after a switch at index `at`, when the caller has the processor again. On an empty list the
        source would take its counter below zero. */
    method ResumeCheck(start: nat) returns (at: nat, finished: bool)
      requires Valid() && start < MAX_TASKS && 0 < waitCount
      modifies this`waitCount, waiters, sched, sched.tasks
      ensures Valid() && bits == old(bits)
      ensures Pass(Model().waiters, sched.Model(), at, finished)
           == CheckPass(old(sched.Model()), bits, Compact(old(Model()).waiters, start), start)
    {
      waitCount := waitCount - 1;
      waiters[start] := waiters[waitCount];
      assert waiters[..waitCount] == Compact(old(waiters[..waitCount]), start);
      at, finished := CheckWaiters(start);
    }

    /** A call that is interrupted goes on with `ResumeCheck`. */
    method SetBits(b: bv32) returns (at: nat, finished: bool)
      requires Valid()
      modifies this, waiters, sched, sched.tasks
      ensures Valid() && bits == old(bits) | b && FlagsSet(old(bits), b, bits) && (!finished ==> at < waitCount)
      ensures Pass(Model().waiters, sched.Model(), at, finished)
           == CheckPass(old(sched.Model()), bits, old(Model()).waiters, 0)
    {
      hide FlagsSet;
      Combined(bits, b);
      bits := bits | b;
      at, finished := CheckWaiters(0);
    }

    method ClearBits(b: bv32)
      requires Valid()
      modifies this`bits
      ensures Valid() && Model() == old(Model()).(bits := old(bits) & !b) && FlagsCleared(old(bits), b, bits)
    {
      hide FlagsCleared;
      Combined(bits, b);
      bits := bits & !b;
    }

    /** One pass of the loop in `wait_bits`, up to the next context switch. */
    method WaitPass(b: bv32, all: bool, clearOnExit: bool) returns (done: bool, snapshot: bv32)
      requires Valid()
      modifies this, waiters, sched, sched.tasks
      ensures Valid() && done == Satisfied(old(bits), b, all) && snapshot == old(bits)
      ensures done <==> Fulfilled(old(bits), b, all)
      ensures bits == if done && clearOnExit then old(bits) & !b else old(bits)
      ensures done && clearOnExit ==> FlagsCleared(old(bits), b, bits)
      ensures Model().waiters == if done then old(Model()).waiters
                                 else Enqueue(old(Model()).waiters, Waiter(old(sched.current), b, all))
      ensures sched.Model() == if done then old(sched.Model()) else BlockCurrent(old(sched.Model()))
    {
      hide Dispatch, KernelCalls.BlockCurrent, Satisfied, Fulfilled, FlagsCleared;
      SatisfiedFlagByFlag(bits, b, all);
      snapshot := bits;
      done := Satisfied(bits, b, all);
      if !done {
        if waitCount < MAX_TASKS {
          waiters[waitCount] := Waiter(sched.current, b, all);
          waitCount := waitCount + 1;
        }
        sched.BlockCurrent();
      } else if clearOnExit {
        ClearBits(b);
      }
    }
  }
}
