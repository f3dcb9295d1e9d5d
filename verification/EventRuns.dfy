/** Runs of tasks that set, clear and wait for event flags. */
module EventRuns {
  import opened KernelCalls
  import opened KernelProperties
  import opened Runs
  import opened Sharing
  import opened WaitList
  import opened EventFlags
  import opened EventCalls

  datatype Op = Waiting(bits: bv32, all: bool, clearOnExit: bool)

  /** A request that came back, with the flags it returned. */
  datatype Answer = Answer(request: Op, snapshot: bv32)

  datatype State = State(sys: System<Op>, ev: Events, answers: seq<Answer>)

  datatype Call = Other(a: Action) | SetBits(b: bv32) | ClearBits(b: bv32) | WaitBits(request: Op) | WaitAgain

  predicate Allowed(s: State, c: Call)
    requires WellFormed(s.sys.k)
  {
    match c
    case Other(a) => Can(s.sys, a)
    case SetBits(_) => Running(s.sys) || Idle(s.sys)
    case ClearBits(_) => Running(s.sys) || Idle(s.sys)
    case WaitBits(_) => Running(s.sys)
    case WaitAgain => Returning(s.sys)
  }

  /** The call sets no flags that meet the condition of a waiter that outranks the setter. */
  predicate Settles(s: State, c: Call)
    requires WellFormed(s.sys.k)
  {
    c.SetBits? ==> NoneOutranks(s.sys.k, Raised(s.ev.bits, c.b), s.ev.waiters)
  }

  function Waited(s: State, sys: System<Op>, r: Op): State
    requires WellFormed(s.sys.k) && |s.sys.places| == |s.sys.k.tasks| && s.sys.k.current < |s.sys.places|
  {
    if Satisfied(s.ev.bits, r.bits, r.all) then
      State(sys, s.ev.(bits := if r.clearOnExit then s.ev.bits & !r.bits else s.ev.bits),
            s.answers + [Answer(r, s.ev.bits)])
    else
      s.(sys := BlockAt(s.sys, r),
         ev := s.ev.(waiters := Enqueue(s.ev.waiters, Waiter(s.sys.k.current, r.bits, r.all))))
  }

  /** One call; setting flags ends at its first switch, if there is one. */
  function Perform(s: State, c: Call): State
    requires WellFormed(s.sys.k) && |s.sys.places| == |s.sys.k.tasks| && Allowed(s, c)
  {
    match c
    case Other(a) => s.(sys := Step(s.sys, a))
    case SetBits(b) =>
      var flags := Raised(s.ev.bits, b);
      var p := CheckPass(s.sys.k, flags, s.ev.waiters, 0);
      s.(sys := s.sys.(k := p.k), ev := Events(flags, p.waiters))
    case ClearBits(b) => s.(ev := s.ev.(bits := s.ev.bits & !b))
    case WaitBits(r) => Waited(s, s.sys, r)
    case WaitAgain => Waited(s, MoveTo(s.sys, Free), s.sys.places[s.sys.k.current].op)
  }

  // ---- The invariant ----

  ghost predicate Registers(sys: System<Op>, w: Waiter) {
    Waits(sys, w.task) && sys.places[w.task].op.bits == w.bits && sys.places[w.task].op.all == w.all
  }

  /** The list holds every task BLOCKED in a wait once, with the condition it waits for, and nobody else. */
  ghost predicate Listed(sys: System<Op>, waiters: seq<Waiter>) {
    && Distinct(Tasks(waiters))
    && (forall j :: 0 <= j < |waiters| ==> Registers(sys, waiters[j]))
    && (forall i: nat :: Waits(sys, i) ==> i in Tasks(waiters))
  }

  ghost predicate Inv(s: State) {
    && SystemInv(s.sys) && Listed(s.sys, s.ev.waiters) && NoneMet(s.ev.bits, s.ev.waiters)
    && (forall j :: 0 <= j < |s.answers| ==>
          Satisfied(s.answers[j].snapshot, s.answers[j].request.bits, s.answers[j].request.all))
  }

  // ---- What each call keeps ----

  lemma NobodyMoves(sys: System<Op>, sys1: System<Op>, waiters: seq<Waiter>)
    requires |sys.places| == |sys.k.tasks| <= MAX_TASKS && |sys1.places| == |sys1.k.tasks| <= MAX_TASKS
    requires Undisturbed(sys, sys1, INVALID_TASK) && Listed(sys, waiters)
    ensures Listed(sys1, waiters)
  {
    Standing(sys, sys1, INVALID_TASK);
    assert !Waits(sys1, INVALID_TASK) && !Waits(sys, INVALID_TASK);
    assert forall j :: 0 <= j < |waiters| ==> Registers(sys, waiters[j]) && waiters[j].task != INVALID_TASK;
  }

  /** Clearing flags fulfils nobody's condition. */
  lemma ClearingMeetsNobody(ev: Events, b: bv32)
    requires NoneMet(ev.bits, ev.waiters)
    ensures NoneMet(ev.bits & !b, ev.waiters)
  {
    hide Satisfied;
    forall j | 0 <= j < |ev.waiters|
      ensures !Met(ev.bits & !b, ev.waiters[j])
    {
      assert !Met(ev.bits, ev.waiters[j]);
      ClearingWeakens(ev.bits, b, ev.waiters[j].bits, ev.waiters[j].all);
    }
  }

  lemma ClearingWeakens(flags: bv32, b: bv32, want: bv32, all: bool)
    ensures Satisfied(flags & !b, want, all) ==> Satisfied(flags, want, all)
  {
  }

  lemma WaitBlocksKeeps(s: State, r: Op)
    requires Inv(s) && (Running(s.sys) || Returning(s.sys)) && !Satisfied(s.ev.bits, r.bits, r.all)
    ensures Inv(Waited(s, s.sys, r))
  {
    hide Dispatch;
    var me, sys1 := s.sys.k.current, BlockAt(s.sys, r);
    assert Agree(s.sys.k.tasks[me], s.sys.places[me], s.sys.k.tick, s.sys.ticked);
    var ts := Tasks(s.ev.waiters);
    forall i | i in ts
      ensures Waits(s.sys, i)
    {
      var j :| 0 <= j < |ts| && ts[j] == i;
      assert Registers(s.sys, s.ev.waiters[j]);
    }
    assert !Waits(s.sys, me);
    Pigeonhole(ts, |s.sys.places|, me);
    BlockAtKeeps(s.sys, r);
    Standing(s.sys, sys1, me);
    var waiters1 := Waited(s, s.sys, r).ev.waiters;
    assert Tasks(waiters1) == ts + [me];
    forall j | 0 <= j < |waiters1|
      ensures Registers(sys1, waiters1[j])
    {
      if j < |ts| {
        assert ts[j] in ts && Registers(s.sys, s.ev.waiters[j]);
      }
    }
  }

  lemma WaitReturnsKeeps(s: State, sys: System<Op>, r: Op)
    requires Inv(s) && (Running(s.sys) || Returning(s.sys)) && Satisfied(s.ev.bits, r.bits, r.all)
    requires SystemInv(sys) && Listed(sys, s.ev.waiters)
    ensures Inv(Waited(s, sys, r))
  {
    if r.clearOnExit { ClearingMeetsNobody(s.ev, r.bits); }
  }

  lemma LeaveLoop(sys: System<Op>, waiters: seq<Waiter>)
    requires SystemInv(sys) && Returning(sys) && Listed(sys, waiters)
    ensures SystemInv(MoveTo(sys, Free)) && Listed(MoveTo(sys, Free), waiters)
  {
    var me, sys1 := sys.k.current, MoveTo(sys, Free);
    assert Agree(sys.k.tasks[me], sys.places[me], sys.k.tick, sys.ticked);
    MoveKeeps(sys, Free);
    Standing(sys, sys1, me);
    assert !Waits(sys, me) && !Waits(sys1, me);
    forall j | 0 <= j < |waiters|
      ensures Registers(sys1, waiters[j])
    {
      assert Registers(sys, waiters[j]);
    }
  }

  /** One wake-up inside the loop: the entry at `i` goes, everyone else stays listed, and still nobody outranks
      the caller. */
  lemma WakeOneKeeps(sys: System<Op>, flags: bv32, waiters: seq<Waiter>, i: nat)
    requires SystemInv(sys) && (Running(sys) || Idle(sys)) && i < |waiters|
    requires Listed(sys, waiters) && NoneOutranks(sys.k, flags, waiters) && Met(flags, waiters[i])
    ensures var w := waiters[i]; var sys1 := UnblockTask(sys, w.task);
            && SystemInv(sys1) && (Running(sys1) || Idle(sys1))
            && sys1.k.current == sys.k.current && sys1.places == sys.places
            && Listed(sys1, SwapRemove(waiters, i)) && NoneOutranks(sys1.k, flags, SwapRemove(waiters, i))
            && Woken(sys1, w.task)
            && (forall x: nat :: Woken(sys, x) ==> Woken(sys1, x))
  {
    hide Dispatch, Satisfied;
    var w, rest := waiters[i], SwapRemove(waiters, i);
    var sys1 := UnblockTask(sys, w.task);
    assert Registers(sys, w);
    UnblockKeeps(sys, w.task);
    Standing(sys, sys1, w.task);
    assert Tasks(waiters)[i] == w.task;
    SwapRemoveDistinct(Tasks(waiters), i);
    assert Tasks(rest) == SwapRemove(Tasks(waiters), i);
    forall j | 0 <= j < |rest|
      ensures Registers(sys1, rest[j]) && (Met(flags, rest[j]) ==> NotOutranked(sys1.k, rest[j].task))
    {
      assert Tasks(rest)[j] in Tasks(rest);
      var j' := if j == i then |waiters| - 1 else j;
      assert rest[j] == waiters[j'];
      assert Registers(sys, waiters[j']);
    }
  }

  /** After unblocking `woken` in order: the system is sound, lists `stay`, keeps its current task, and everyone
      in `woken`, and whoever was woken before, is on the way out. */
  ghost predicate Checked(sys: System<Op>, stay: seq<Waiter>, woken: seq<Waiter>)
    requires WellFormed(sys.k)
  {
    var sys1 := sys.(k := UnblockAll(sys.k, Tasks(woken)));
    && SystemInv(sys1) && Listed(sys1, stay) && sys1.k.current == sys.k.current
    && (forall x: nat :: Woken(sys, x) ==> Woken(sys1, x))
    && (forall j :: 0 <= j < |woken| ==> Woken(sys1, woken[j].task))
  }

  lemma CheckedOneMore(sys: System<Op>, w: Waiter, stay: seq<Waiter>, woken: seq<Waiter>)
    requires WellFormed(sys.k) && WellFormed(UnblockTask(sys, w.task).k)
    requires Checked(UnblockTask(sys, w.task), stay, woken)
    requires UnblockTask(sys, w.task).k.current == sys.k.current && Woken(UnblockTask(sys, w.task), w.task)
    requires forall x: nat :: Woken(sys, x) ==> Woken(UnblockTask(sys, w.task), x)
    ensures Checked(sys, stay, [w] + woken)
  {
    hide Unblock, SystemInv, Listed;
    assert Tasks([w] + woken)[1..] == Tasks(woken);
    assert Tasks([w] + woken)[0] == w.task;
  }

  lemma {:induction false} CheckKeeps(sys: System<Op>, flags: bv32, waiters: seq<Waiter>, i: nat)
    requires SystemInv(sys) && (Running(sys) || Idle(sys))
    requires Listed(sys, waiters) && NoneOutranks(sys.k, flags, waiters)
    ensures Checked(sys, CheckFrom(flags, waiters, i).0, CheckFrom(flags, waiters, i).1)
    decreases |waiters| - i
  {
    hide Dispatch, Unblock, Met, Listed;
    if i < |waiters| {
      if Met(flags, waiters[i]) {
        var rest := SwapRemove(waiters, i);
        WakeOneKeeps(sys, flags, waiters, i);
        var sys2 := UnblockTask(sys, waiters[i].task);
        CheckKeeps(sys2, flags, rest, i);
        CheckedOneMore(sys, waiters[i], CheckFrom(flags, rest, i).0, CheckFrom(flags, rest, i).1);
      } else {
        CheckKeeps(sys, flags, waiters, i + 1);
      }
    }
  }

  /** Setting flags, where nobody outranks the setter: the check runs to its end. */
  lemma SetBitsIs(s: State, b: bv32)
    requires WellFormed(s.sys.k) && Allowed(s, SetBits(b)) && Settles(s, SetBits(b)) && |s.sys.places| == |s.sys.k.tasks|
    ensures var flags := Raised(s.ev.bits, b); var (stay, woken) := CheckFrom(flags, s.ev.waiters, 0);
            Perform(s, SetBits(b)) == s.(sys := s.sys.(k := UnblockAll(s.sys.k, Tasks(woken))), ev := Events(flags, stay))
  {
    hide Raised, CheckFrom, CheckPass, UnblockAll, Satisfied, Met, NoneOutranks;
    PassCompletes(s.sys.k, Raised(s.ev.bits, b), s.ev.waiters, 0);
  }

  lemma SetKeeps(s: State, b: bv32)
    requires Inv(s) && Allowed(s, SetBits(b)) && Settles(s, SetBits(b))
    ensures Inv(Perform(s, SetBits(b)))
  {
    hide Raised, Perform, CheckFrom, UnblockAll, Satisfied, Met;
    SetBitsIs(s, b);
    CheckSpec(Raised(s.ev.bits, b), s.ev.waiters, 0);
    CheckKeeps(s.sys, Raised(s.ev.bits, b), s.ev.waiters, 0);
  }

  /** A call keeps the invariant if and only if it sets no flags that meet a waiter outranking the setter. */
  lemma PerformKeeps(s: State, c: Call)
    requires Inv(s) && Allowed(s, c)
    ensures Inv(Perform(s, c)) <==> Settles(s, c)
  {
    match c
    case Other(a) =>
      StepKeeps(s.sys, a);
      NobodyMoves(s.sys, Step(s.sys, a), s.ev.waiters);
    case SetBits(b) => if Settles(s, c) { SetKeeps(s, b); } else { SetBitsSettlesIff(s, b); }
    case ClearBits(b) => ClearingMeetsNobody(s.ev, b);
    case WaitBits(r) =>
      if Satisfied(s.ev.bits, r.bits, r.all) { WaitReturnsKeeps(s, s.sys, r); } else { WaitBlocksKeeps(s, r); }
    case WaitAgain =>
      var r := s.sys.places[s.sys.k.current].op;
      LeaveLoop(s.sys, s.ev.waiters);
      if Satisfied(s.ev.bits, r.bits, r.all) {
        WaitReturnsKeeps(s, MoveTo(s.sys, Free), r);
      } else {
        WaitBlocksKeeps(s, r);
      }
  }

  // ---- Beside other objects ----

  function WakesOf(woken: seq<Waiter>): seq<Move> {
    if woken == [] then [] else [Wake(woken[0].task)] + WakesOf(woken[1..])
  }

  function MovesOf(s: State, c: Call): seq<Move> {
    match c
    case Other(_) => []
    case SetBits(b) => WakesOf(CheckFrom(Raised(s.ev.bits, b), s.ev.waiters, 0).1)
    case ClearBits(_) => []
    case WaitBits(r) => if Satisfied(s.ev.bits, r.bits, r.all) then [] else [Enter]
    case WaitAgain =>
      var r := if Returning(s.sys) then s.sys.places[s.sys.k.current].op else Waiting(0, true, false);
      if Satisfied(s.ev.bits, r.bits, r.all) then [Return] else [Return, Enter]
  }

  /** The checking loop unblocks only tasks that are BLOCKED in this group at that moment. */
  lemma {:induction false} CheckWakesOnlyItsOwn(sys: System<Op>, flags: bv32, waiters: seq<Waiter>, i: nat)
    requires SystemInv(sys) && (Running(sys) || Idle(sys))
    requires Listed(sys, waiters) && NoneOutranks(sys.k, flags, waiters)
    ensures var woken := CheckFrom(flags, waiters, i).1;
            MovesTo(sys, WakesOf(woken), sys.(k := UnblockAll(sys.k, Tasks(woken))))
    decreases |waiters| - i
  {
    hide Dispatch, Unblock, Met, Listed, MovesTo;
    if i >= |waiters| {
      NoMove(sys);
    } else if Met(flags, waiters[i]) {
      var w, rest := waiters[i], SwapRemove(waiters, i);
      WaitsListed(sys, waiters, i);
      Wakes(sys, w.task);
      WakeOneKeeps(sys, flags, waiters, i);
      var sys1 := UnblockTask(sys, w.task);
      CheckWakesOnlyItsOwn(sys1, flags, rest, i);
      var woken := CheckFrom(flags, rest, i).1;
      assert Tasks([w] + woken)[0] == w.task && Tasks([w] + woken)[1..] == Tasks(woken);
      assert ([w] + woken)[1..] == woken;
      MovesThen(sys, [Wake(w.task)], sys1, WakesOf(woken), sys1.(k := UnblockAll(sys1.k, Tasks(woken))));
    } else {
      CheckWakesOnlyItsOwn(sys, flags, waiters, i + 1);
    }
  }

  lemma WaitsListed(sys: System<Op>, waiters: seq<Waiter>, i: nat)
    requires Listed(sys, waiters) && i < |waiters|
    ensures Waits(sys, waiters[i].task)
  {
    assert Registers(sys, waiters[i]);
  }

  /** A call that meets nobody who outranks the setter wakes only tasks that are BLOCKED in this group. */
  lemma WakesOnlyItsOwn(s: State, c: Call)
    requires Inv(s) && Allowed(s, c) && Settles(s, c) && !c.Other?
    ensures MovesTo(s.sys, MovesOf(s, c), Perform(s, c).sys)
  {
    hide MovesTo, BlockCurrent, Satisfied, CheckFrom, CheckPass, UnblockAll, Raised, NoneOutranks, NoneMet, Listed, Tasks;
    match c
    case SetBits(b) =>
      SetBitsIs(s, b);
      CheckWakesOnlyItsOwn(s.sys, Raised(s.ev.bits, b), s.ev.waiters, 0);
    case ClearBits(_) => NoMove(s.sys);
    case WaitBits(r) => if Satisfied(s.ev.bits, r.bits, r.all) { NoMove(s.sys); } else { Enters(s.sys, r); }
    case WaitAgain =>
      var r := s.sys.places[s.sys.k.current].op;
      if Satisfied(s.ev.bits, r.bits, r.all) { Returns(s.sys); } else { EntersAgain(s.sys, r); }
  }

  // ---- Runs ----

  ghost function Next(s: State, c: Call): (r: State)
    requires Inv(s) && Allowed(s, c) && Settles(s, c)
    ensures Inv(r)
  {
    PerformKeeps(s, c);
    Perform(s, c)
  }

  ghost predicate Legal(s: State, calls: seq<Call>)
    requires Inv(s)
    decreases calls
  {
    calls == [] || (Allowed(s, calls[0]) && Settles(s, calls[0]) && Legal(Next(s, calls[0]), calls[1..]))
  }

  ghost function Run(s: State, calls: seq<Call>): (r: State)
    requires Inv(s) && Legal(s, calls)
    ensures Inv(r)
    decreases calls
  {
    if calls == [] then s else Run(Next(s, calls[0]), calls[1..])
  }

  ghost function Initial(): (s: State)
    ensures Inv(s)
  {
    State(System(Kernel([], 0, INVALID_TASK), [], false), Events(0, []), [])
  }

  /** No registered waiter's request is fulfilled, every task BLOCKED in a wait is registered and its request is not
      fulfilled, and every wait that came back returned flags that fulfil its request. */
  ghost predicate Answered(s: State) {
    && (forall j :: 0 <= j < |s.ev.waiters| ==> !Fulfilled(s.ev.bits, s.ev.waiters[j].bits, s.ev.waiters[j].all))
    && (forall i: nat :: Waits(s.sys, i) ==>
          i in Tasks(s.ev.waiters) && !Fulfilled(s.ev.bits, s.sys.places[i].op.bits, s.sys.places[i].op.all))
    && (forall j :: 0 <= j < |s.answers| ==>
          Fulfilled(s.answers[j].snapshot, s.answers[j].request.bits, s.answers[j].request.all))
  }

  lemma InvAnswers(s: State)
    requires Inv(s)
    ensures Answered(s)
  {
    hide Satisfied, Fulfilled;
    forall j | 0 <= j < |s.ev.waiters|
      ensures !Fulfilled(s.ev.bits, s.ev.waiters[j].bits, s.ev.waiters[j].all)
    {
      assert !Met(s.ev.bits, s.ev.waiters[j]);
      SatisfiedFlagByFlag(s.ev.bits, s.ev.waiters[j].bits, s.ev.waiters[j].all);
    }
    forall i: nat | Waits(s.sys, i)
      ensures i in Tasks(s.ev.waiters) && !Fulfilled(s.ev.bits, s.sys.places[i].op.bits, s.sys.places[i].op.all)
    {
      var j :| 0 <= j < |s.ev.waiters| && Tasks(s.ev.waiters)[j] == i;
      assert Registers(s.sys, s.ev.waiters[j]);
    }
    forall j | 0 <= j < |s.answers|
      ensures Fulfilled(s.answers[j].snapshot, s.answers[j].request.bits, s.answers[j].request.all)
    {
      SatisfiedFlagByFlag(s.answers[j].snapshot, s.answers[j].request.bits, s.answers[j].request.all);
    }
  }

  lemma NobodyWaitsInVain(calls: seq<Call>)
    requires Legal(Initial(), calls)
    ensures Answered(Run(Initial(), calls))
  {
    hide Inv, Answered, Run;
    InvAnswers(Run(Initial(), calls));
  }

  /** Setting flags adds them to those that were set, wakes exactly the waiters whose request is then fulfilled, and
      keeps the multiset of the others. */
  lemma SetBitsSpec(s: State, b: bv32)
    requires Inv(s) && Allowed(s, SetBits(b)) && Settles(s, SetBits(b))
    ensures var s1 := Perform(s, SetBits(b)); var flags := s1.ev.bits;
            && FlagsSet(s.ev.bits, b, flags)
            && (forall w: Waiter :: multiset(s1.ev.waiters)[w]
                  == if Fulfilled(flags, w.bits, w.all) then 0 else multiset(s.ev.waiters)[w])
            && (forall w: Waiter :: w in s.ev.waiters && Fulfilled(flags, w.bits, w.all) ==> Woken(s1.sys, w.task))
  {
    hide Raised, Perform, CheckFrom, UnblockAll, Satisfied, Listed, Fulfilled, FlagsSet;
    var flags := Raised(s.ev.bits, b);
    assert FlagsSet(s.ev.bits, b, flags) by { RaisedFlags(s.ev.bits, b); }
    SetBitsIs(s, b);
    CheckSplits(flags, s.ev.waiters);
    CheckKeeps(s.sys, flags, s.ev.waiters, 0);
    forall w: Waiter
      ensures Met(flags, w) <==> Fulfilled(flags, w.bits, w.all)
    {
      SatisfiedFlagByFlag(flags, w.bits, w.all);
    }
  }

  lemma RaisedFlags(flags: bv32, b: bv32)
    ensures FlagsSet(flags, b, Raised(flags, b))
  {
    hide FlagsSet;
    Combined(flags, b);
  }

  /** Clearing flags takes them from those that were set and does nothing else. */
  lemma ClearBitsSpec(s: State, b: bv32)
    requires Inv(s) && Allowed(s, ClearBits(b))
    ensures var s1 := Perform(s, ClearBits(b));
            && FlagsCleared(s.ev.bits, b, s1.ev.bits) && s1.ev.waiters == s.ev.waiters
            && s1.sys == s.sys && s1.answers == s.answers
  {
    hide FlagsCleared;
    Combined(s.ev.bits, b);
  }

  /** One pass of a wait by the running task: fulfilled, it comes back with the flags as they are, and takes the
      requested ones away if asked to; if not, it leaves the flags, and its task is BLOCKED and comes last on the list. */
  ghost predicate WaitedOnce(s: State, r: Op, s1: State) {
    var me := s.sys.k.current;
    if Fulfilled(s.ev.bits, r.bits, r.all) then
      && s1.sys.k == s.sys.k && me < |s.sys.places| && s1.sys.places == s.sys.places[me := Free]
      && s1.ev.waiters == s.ev.waiters && s1.answers == s.answers + [Answer(r, s.ev.bits)]
      && (if r.clearOnExit then FlagsCleared(s.ev.bits, r.bits, s1.ev.bits) else s1.ev.bits == s.ev.bits)
    else
      && s1.ev.bits == s.ev.bits && s1.answers == s.answers && Waits(s1.sys, me) && s1.sys.places[me] == At(r)
      && s1.ev.waiters == s.ev.waiters + [Waiter(me, r.bits, r.all)]
  }

  lemma WaitedSpec(s: State, sys: System<Op>, r: Op)
    requires Inv(s) && (Running(s.sys) || Returning(s.sys)) && sys == MoveTo(s.sys, Free)
    ensures WaitedOnce(s, r, Waited(s, sys, r))
  {
    hide Inv, Satisfied, Fulfilled, WaitedOnce, Waited;
    SatisfiedFlagByFlag(s.ev.bits, r.bits, r.all);
    if Satisfied(s.ev.bits, r.bits, r.all) { WaitReturns(s, sys, r); } else { WaitBlocks(s, sys, r); }
  }

  lemma WaitReturns(s: State, sys: System<Op>, r: Op)
    requires Inv(s) && (Running(s.sys) || Returning(s.sys)) && sys == MoveTo(s.sys, Free)
    requires Satisfied(s.ev.bits, r.bits, r.all) && Fulfilled(s.ev.bits, r.bits, r.all)
    ensures WaitedOnce(s, r, Waited(s, sys, r))
  {
    hide Consistent, Agree, Listed, NoneMet, Satisfied, Fulfilled, FlagsCleared, BlockAt, Waits;
    Combined(s.ev.bits, r.bits);
  }

  lemma WaitBlocks(s: State, sys: System<Op>, r: Op)
    requires Inv(s) && (Running(s.sys) || Returning(s.sys))
    requires sys == MoveTo(s.sys, Free) && !Satisfied(s.ev.bits, r.bits, r.all) && !Fulfilled(s.ev.bits, r.bits, r.all)
    ensures WaitedOnce(s, r, Waited(s, sys, r))
  {
    RoomToWait(s);
    BlockAtKeeps(s.sys, r);
    hide Satisfied, Fulfilled, FlagsCleared, BlockAt, Consistent, Placed, Listed, NoneMet;
  }

  /** A wait does what its request asks for, when it is called and whenever its task is on the processor again. */
  lemma WaitBitsSpec(s: State, c: Call)
    requires Inv(s) && Allowed(s, c) && (c.WaitBits? || c.WaitAgain?)
    ensures WaitedOnce(s, if c.WaitBits? then c.request else s.sys.places[s.sys.k.current].op, Perform(s, c))
  {
    hide WaitedOnce, Waited;
    if c.WaitBits? {
      assert s.sys == MoveTo(s.sys, Free);
      WaitedSpec(s, s.sys, c.request);
    } else {
      WaitedSpec(s, MoveTo(s.sys, Free), s.sys.places[s.sys.k.current].op);
    }
  }

  /** The list has room whenever a task may wait. */
  lemma RoomToWait(s: State)
    requires Inv(s) && (Running(s.sys) || Returning(s.sys))
    ensures |s.ev.waiters| < MAX_TASKS
  {
    var me, ts := s.sys.k.current, Tasks(s.ev.waiters);
    assert Agree(s.sys.k.tasks[me], s.sys.places[me], s.sys.k.tick, s.sys.ticked);
    forall i | i in ts
      ensures Waits(s.sys, i)
    {
      var j :| 0 <= j < |ts| && ts[j] == i;
      assert Registers(s.sys, s.ev.waiters[j]);
    }
    Pigeonhole(ts, |s.sys.places|, me);
  }

  /** The restriction on setters is exact: in every reachable kind of state, setting flags leaves no met waiter on the
      list at the next switch if and only if they meet no waiter that outranks the setter. */
  lemma SetBitsSettlesIff(s: State, b: bv32)
    requires Inv(s) && (Running(s.sys) || Idle(s.sys))
    ensures var flags := Raised(s.ev.bits, b);
            var p := CheckPass(s.sys.k, flags, s.ev.waiters, 0);
            && (p.finished <==> NoneOutranks(s.sys.k, flags, s.ev.waiters))
            && (NoneMet(flags, p.waiters) <==> NoneOutranks(s.sys.k, flags, s.ev.waiters))
  {
    hide Raised, Satisfied, CheckPass, NoneOutranks, NoneMet;
    var sys := s.sys;
    forall j | 0 <= j < |s.ev.waiters|
      ensures s.ev.waiters[j].task < |sys.k.tasks| && sys.k.tasks[s.ev.waiters[j].task].state == BLOCKED
    {
      assert Registers(sys, s.ev.waiters[j]);
    }
    assert forall i :: 0 <= i < |sys.k.tasks| ==> Sound(sys.k.tasks[i], sys.k.tick);
    PassSettlesIff(sys.k, Raised(s.ev.bits, b), s.ev.waiters, 0);
  }

  /** The smallest case: waiter 0 outranks the task that sets its flag, and gets the processor while it is still
      listed. */
  lemma OutrankedSetterLeavesWaiter()
    ensures var k := Kernel([TCB(1, BLOCKED, 0), TCB(2, RUNNING, 0)], 0, 1); var w := Waiter(0, 1, true);
            Met(1, w) && CheckPass(k, 1, [w], 0).waiters == [w] && CheckPass(k, 1, [w], 0).k.current == 0
  {
    var k := Kernel([TCB(1, BLOCKED, 0), TCB(2, RUNNING, 0)], 0, 1);
    var w := Waiter(0, 1, true);
    assert (1 as bv32) & 1 == 1;
    OutrankedSwitches(k, 0);
    var k1 := SetState(SetState(k, 0, READY), 1, READY);
    SelectSpec(k1);
    assert Ready(k1.tasks[0]);
  }
}
