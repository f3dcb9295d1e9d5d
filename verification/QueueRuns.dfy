/** Runs of any number of tasks that send to and receive from one queue. */
module QueueRuns {
  import opened KernelCalls
  import opened KernelProperties
  import opened Runs
  import opened Sharing
  import opened WaitList
  import opened QueueCalls

  datatype Op<T> = Sending(item: T) | Receiving

  /** `sent` lists the items committed and `received` the items removed, in order. */
  datatype State<T> = State(sys: System<Op<T>>, q: Queue<T>, sent: seq<T>, received: seq<T>)

  datatype Call<T> =
    | Other(a: Action)
    | Send(item: T)
    | SendAgain
    | Receive
    | ReceiveAgain
    | TrySend(item: T)
    | TryReceive

  predicate Allowed<T>(s: State<T>, c: Call<T>) {
    match c
    case Other(a) => Can(s.sys, a)
    case Send(_) => Running(s.sys)
    case Receive => Running(s.sys)
    case SendAgain => Returning(s.sys) && s.sys.places[s.sys.k.current].op.Sending?
    case ReceiveAgain => Returning(s.sys) && s.sys.places[s.sys.k.current].op.Receiving?
    case TrySend(_) => Running(s.sys) || Idle(s.sys)
    case TryReceive => Running(s.sys) || Idle(s.sys)
  }

  /** The caller has left the waiting loop: the item goes in and the most urgent receiver is woken. */
  function Committed<T>(s: State<T>, sys: System<Op<T>>, item: T): State<T>
    requires WellFormed(sys.k) && s.q.tail < |s.q.buf|
  {
    State(UnblockTask(sys, Chosen(s.q.receivers, sys.k)), DropReceiver(Commit(s.q, item), sys.k),
          s.sent + [item], s.received)
  }

  function Removed<T>(s: State<T>, sys: System<Op<T>>): State<T>
    requires WellFormed(sys.k) && 0 < s.q.count && s.q.head < |s.q.buf|
  {
    State(UnblockTask(sys, Chosen(s.q.senders, sys.k)), DropSender(Remove(s.q), sys.k),
          s.sent, s.received + [s.q.buf[s.q.head]])
  }

  function SendBlocked<T>(s: State<T>, item: T): State<T>
    requires WellFormed(s.sys.k) && |s.sys.places| == |s.sys.k.tasks| && s.sys.k.current < |s.sys.places|
  {
    s.(sys := BlockAt(s.sys, Sending(item)), q := AddSender(s.q, s.sys.k.current))
  }

  function ReceiveBlocked<T>(s: State<T>): State<T>
    requires WellFormed(s.sys.k) && |s.sys.places| == |s.sys.k.tasks| && s.sys.k.current < |s.sys.places|
  {
    s.(sys := BlockAt(s.sys, Receiving), q := AddReceiver(s.q, s.sys.k.current))
  }

  ghost function Perform<T>(s: State<T>, c: Call<T>): State<T>
    requires WellFormed(s.sys.k) && |s.sys.places| == |s.sys.k.tasks| && Ring(s.q) && s.q.tail < |s.q.buf|
    requires Allowed(s, c)
  {
    match c
    case Other(a) => s.(sys := Step(s.sys, a))
    case Send(x) => if Full(s.q) then SendBlocked(s, x) else Committed(s, s.sys, x)
    case SendAgain =>
      var x := s.sys.places[s.sys.k.current].op.item;
      if Full(s.q) then SendBlocked(s, x) else Committed(s, MoveTo(s.sys, Free), x)
    case Receive => if Empty(s.q) then ReceiveBlocked(s) else Removed(s, s.sys)
    case ReceiveAgain => if Empty(s.q) then ReceiveBlocked(s) else Removed(s, MoveTo(s.sys, Free))
    case TrySend(x) => if Full(s.q) then s else Committed(s, s.sys, x)
    case TryReceive => if Empty(s.q) then s else Removed(s, s.sys)
  }

  // ---- The invariant ----

  ghost predicate Receives<T>(sys: System<Op<T>>, i: nat) {
    i < |sys.places| && sys.places[i].At? && sys.places[i].op.Receiving?
  }

  ghost predicate Sends<T>(sys: System<Op<T>>, i: nat) {
    i < |sys.places| && sys.places[i].At? && sys.places[i].op.Sending?
  }

  /** Receivers, and senders, that were woken and have not looked at the queue again yet. */
  ghost function WokenReceivers<T>(sys: System<Op<T>>): set<nat> {
    set i: nat | i < |sys.places| && Woken(sys, i) && Receives(sys, i)
  }

  ghost function WokenSenders<T>(sys: System<Op<T>>): set<nat> {
    set i: nat | i < |sys.places| && Woken(sys, i) && Sends(sys, i)
  }

  /** The waiter lists hold exactly the tasks BLOCKED in receive and in send. */
  ghost predicate Listed<T>(sys: System<Op<T>>, receivers: seq<nat>, senders: seq<nat>) {
    && Distinct(receivers) && Distinct(senders)
    && (forall i: nat :: i in receivers <==> Waits(sys, i) && Receives(sys, i))
    && (forall i: nat :: i in senders <==> Waits(sys, i) && Sends(sys, i))
  }

  /** While a receiver sleeps there are no more items than woken receivers to take them; while a sender sleeps
      there are no more free slots than woken senders to fill them. */
  ghost predicate NoLostWakeUp<T>(sys: System<Op<T>>, q: Queue<T>) {
    && (q.receivers != [] ==> q.count <= |WokenReceivers(sys)|)
    && (q.senders != [] ==> |q.buf| - q.count <= |WokenSenders(sys)|)
  }

  ghost predicate WaitInv<T>(sys: System<Op<T>>, q: Queue<T>) {
    && SystemInv(sys)
    && Listed(sys, q.receivers, q.senders)
    && NoLostWakeUp(sys, q)
  }

  /** What was sent is what was received, followed by what is in the buffer. */
  ghost predicate DataInv<T>(q: Queue<T>, sent: seq<T>, received: seq<T>) {
    Ring(q) && q.tail < |q.buf| && sent == received + Contents(q)
  }

  ghost predicate Inv<T>(s: State<T>) {
    WaitInv(s.sys, s.q) && DataInv(s.q, s.sent, s.received)
  }

  lemma DataIgnoresWaiters<T>(q: Queue<T>, receivers: seq<nat>, senders: seq<nat>, sent: seq<T>, received: seq<T>)
    requires DataInv(q, sent, received)
    ensures DataInv(q.(receivers := receivers, senders := senders), sent, received)
  {
    assert Contents(q.(receivers := receivers, senders := senders)) == Contents(q);
  }

  // ---- How the woken sets and the lists change ----

  /** Nobody but `x` moves, and `x` is neither waiting nor woken in one of the two systems. */
  lemma SameWoken<T>(sys: System<Op<T>>, sys1: System<Op<T>>, x: nat)
    requires |sys.places| == |sys.k.tasks| && |sys1.places| == |sys1.k.tasks| && Undisturbed(sys, sys1, x)
    ensures WokenReceivers(sys1) - {x} == WokenReceivers(sys) - {x}
    ensures WokenSenders(sys1) - {x} == WokenSenders(sys) - {x}
    ensures forall i: nat :: i != x ==>
              (Waits(sys1, i) && Receives(sys1, i) <==> Waits(sys, i) && Receives(sys, i))
    ensures forall i: nat :: i != x ==>
              (Waits(sys1, i) && Sends(sys1, i) <==> Waits(sys, i) && Sends(sys, i))
  {
    Standing(sys, sys1, x);
  }

  lemma NobodyMoves<T>(sys: System<Op<T>>, sys1: System<Op<T>>)
    requires |sys.places| == |sys.k.tasks| <= MAX_TASKS && |sys1.places| == |sys1.k.tasks| <= MAX_TASKS
    requires Undisturbed(sys, sys1, INVALID_TASK)
    ensures WokenReceivers(sys1) == WokenReceivers(sys) && WokenSenders(sys1) == WokenSenders(sys)
    ensures forall receivers, senders :: Listed(sys, receivers, senders) ==> Listed(sys1, receivers, senders)
  {
    SameWoken(sys, sys1, INVALID_TASK);
    assert !Waits(sys, INVALID_TASK) && !Waits(sys1, INVALID_TASK);
  }

  lemma OtherKeeps<T>(sys: System<Op<T>>, q: Queue<T>, a: Action)
    requires WaitInv(sys, q) && Can(sys, a)
    ensures WaitInv(Step(sys, a), q)
  {
    StepKeeps(sys, a);
    NobodyMoves(sys, Step(sys, a));
  }

  /** The running task, in its own code or back in the loop, is not on a list. */
  lemma CurrentUnlisted<T>(sys: System<Op<T>>, receivers: seq<nat>, senders: seq<nat>)
    requires SystemInv(sys) && (Running(sys) || Returning(sys)) && Listed(sys, receivers, senders)
    ensures sys.k.current !in receivers && sys.k.current !in senders
    ensures |receivers| < MAX_TASKS && |senders| < MAX_TASKS
  {
    var me := sys.k.current;
    assert Agree(sys.k.tasks[me], sys.places[me], sys.k.tick, sys.ticked);
    assert !Waits(sys, me);
    Pigeonhole(receivers, |sys.places|, me);
    Pigeonhole(senders, |sys.places|, me);
  }

  lemma SendBlockedKeeps<T>(sys: System<Op<T>>, q: Queue<T>, item: T)
    requires WaitInv(sys, q) && Full(q) && (Running(sys) || (Returning(sys) && Sends(sys, sys.k.current)))
    ensures WaitInv(BlockAt(sys, Sending(item)), AddSender(q, sys.k.current))
  {
    var me, sys1 := sys.k.current, BlockAt(sys, Sending(item));
    CurrentUnlisted(sys, q.receivers, q.senders);
    EnqueueDistinct(q.senders, me);
    BlockAtKeeps(sys, Sending(item));
    SameWoken(sys, sys1, me);
    assert !Receives(sys, me) && Waits(sys1, me) && Sends(sys1, me);
    assert WokenReceivers(sys1) == WokenReceivers(sys);
  }

  lemma ReceiveBlockedKeeps<T>(sys: System<Op<T>>, q: Queue<T>)
    requires WaitInv(sys, q) && Empty(q) && (Running(sys) || (Returning(sys) && Receives(sys, sys.k.current)))
    ensures WaitInv(BlockAt(sys, Receiving), AddReceiver(q, sys.k.current))
  {
    var me, sys1 := sys.k.current, BlockAt(sys, Op<T>.Receiving);
    CurrentUnlisted(sys, q.receivers, q.senders);
    EnqueueDistinct(q.receivers, me);
    BlockAtKeeps(sys, Op<T>.Receiving);
    SameWoken(sys, sys1, me);
    assert !Sends(sys, me) && Waits(sys1, me) && Receives(sys1, me);
    assert WokenSenders(sys1) == WokenSenders(sys);
  }

  /** Waking a receiver: the list loses it, the woken set gains it. */
  lemma WakeReceiverKeeps<T>(sys: System<Op<T>>, receivers: seq<nat>, senders: seq<nat>)
    requires SystemInv(sys) && (Running(sys) || Idle(sys)) && Listed(sys, receivers, senders)
    ensures var w := Chosen(receivers, sys.k); var sys1 := UnblockTask(sys, w);
            && SystemInv(sys1) && WokenSenders(sys1) == WokenSenders(sys)
            && (receivers == [] ==> sys1 == sys)
            && (receivers != [] ==>
                  && Listed(sys1, SwapRemove(receivers, BestIndex(sys.k, receivers)), senders)
                  && |WokenReceivers(sys1)| == |WokenReceivers(sys)| + 1)
  {
    if receivers != [] {
      var best := BestIndex(sys.k, receivers);
      var w := receivers[best];
      var sys1 := UnblockTask(sys, w);
      assert Waits(sys, w) && Receives(sys, w);
      SwapRemoveDistinct(receivers, best);
      UnblockKeeps(sys, w);
      SameWoken(sys, sys1, w);
      assert Receives(sys1, w) && Woken(sys1, w);
      assert WokenReceivers(sys1) == WokenReceivers(sys) + {w};
      assert WokenSenders(sys1) == WokenSenders(sys);
    }
  }

  lemma WakeSenderKeeps<T>(sys: System<Op<T>>, receivers: seq<nat>, senders: seq<nat>)
    requires SystemInv(sys) && (Running(sys) || Idle(sys)) && Listed(sys, receivers, senders)
    ensures var w := Chosen(senders, sys.k); var sys1 := UnblockTask(sys, w);
            && SystemInv(sys1) && WokenReceivers(sys1) == WokenReceivers(sys)
            && (senders == [] ==> sys1 == sys)
            && (senders != [] ==>
                  && Listed(sys1, receivers, SwapRemove(senders, BestIndex(sys.k, senders)))
                  && |WokenSenders(sys1)| == |WokenSenders(sys)| + 1)
  {
    if senders != [] {
      var best := BestIndex(sys.k, senders);
      var w := senders[best];
      var sys1 := UnblockTask(sys, w);
      assert Waits(sys, w) && Sends(sys, w);
      SwapRemoveDistinct(senders, best);
      UnblockKeeps(sys, w);
      SameWoken(sys, sys1, w);
      assert Sends(sys1, w) && Woken(sys1, w);
      assert WokenSenders(sys1) == WokenSenders(sys) + {w};
      assert WokenReceivers(sys1) == WokenReceivers(sys);
    }
  }

  /** A caller that comes back to the loop leaves its woken set. */
  lemma LeaveLoop<T>(sys: System<Op<T>>, receivers: seq<nat>, senders: seq<nat>)
    requires SystemInv(sys) && Returning(sys) && Listed(sys, receivers, senders)
    ensures var sys1 := MoveTo(sys, Free);
            && SystemInv(sys1) && Running(sys1) && Listed(sys1, receivers, senders)
            && WokenReceivers(sys) == WokenReceivers(sys1) + (if Receives(sys, sys.k.current) then {sys.k.current} else {})
            && WokenSenders(sys) == WokenSenders(sys1) + (if Sends(sys, sys.k.current) then {sys.k.current} else {})
  {
    var me, sys1 := sys.k.current, MoveTo(sys, Free);
    assert Agree(sys.k.tasks[me], sys.places[me], sys.k.tick, sys.ticked);
    MoveKeeps(sys, Free);
    SameWoken(sys, sys1, me);
    assert Woken(sys, me) && !Waits(sys, me) && !Waits(sys1, me);
    assert me !in WokenReceivers(sys1) && me !in WokenSenders(sys1);
  }

  /** Committing from `sys`, which differs from the system before at most in that the caller has left the loop. */
  lemma CommittedKeeps<T>(s: State<T>, sys: System<Op<T>>, item: T)
    requires Inv(s) && !Full(s.q) && SystemInv(sys) && (Running(sys) || Idle(sys))
    requires Listed(sys, s.q.receivers, s.q.senders) && WokenReceivers(sys) == WokenReceivers(s.sys)
    requires |WokenSenders(s.sys)| <= |WokenSenders(sys)| + 1
    ensures Inv(Committed(s, sys, item))
  {
    var q1 := Commit(s.q, item);
    assert DataInv(q1, s.sent + [item], s.received) by { CommitAppends(s.q, item); }
    var q2 := DropReceiver(q1, sys.k);
    DataIgnoresWaiters(q1, q2.receivers, q2.senders, s.sent + [item], s.received);
    WakeReceiverKeeps(sys, s.q.receivers, s.q.senders);
  }

  lemma RemovedKeeps<T>(s: State<T>, sys: System<Op<T>>)
    requires Inv(s) && !Empty(s.q) && SystemInv(sys) && (Running(sys) || Idle(sys))
    requires Listed(sys, s.q.receivers, s.q.senders) && WokenSenders(sys) == WokenSenders(s.sys)
    requires |WokenReceivers(s.sys)| <= |WokenReceivers(sys)| + 1
    ensures Inv(Removed(s, sys))
  {
    var q1, x := Remove(s.q), s.q.buf[s.q.head];
    assert DataInv(q1, s.sent, s.received + [x]) by {
      RemoveTakesFirst(s.q);
      assert s.received + ([x] + Contents(q1)) == (s.received + [x]) + Contents(q1);
    }
    var q2 := DropSender(q1, sys.k);
    DataIgnoresWaiters(q1, q2.receivers, q2.senders, s.sent, s.received + [x]);
    WakeSenderKeeps(sys, s.q.receivers, s.q.senders);
  }

  lemma SendKeeps<T>(s: State<T>, item: T, again: bool)
    requires Inv(s) && (if again then Returning(s.sys) && Sends(s.sys, s.sys.k.current) else Running(s.sys))
    ensures Inv(if Full(s.q) then SendBlocked(s, item)
                else Committed(s, if again then MoveTo(s.sys, Free) else s.sys, item))
  {
    if Full(s.q) {
      SendBlockedKeeps(s.sys, s.q, item);
      DataIgnoresWaiters(s.q, s.q.receivers, AddSender(s.q, s.sys.k.current).senders, s.sent, s.received);
    } else if again {
      LeaveLoop(s.sys, s.q.receivers, s.q.senders);
      CommittedKeeps(s, MoveTo(s.sys, Free), item);
    } else {
      CommittedKeeps(s, s.sys, item);
    }
  }

  lemma ReceiveKeeps<T>(s: State<T>, again: bool)
    requires Inv(s) && (if again then Returning(s.sys) && Receives(s.sys, s.sys.k.current) else Running(s.sys))
    ensures Inv(if Empty(s.q) then ReceiveBlocked(s)
                else Removed(s, if again then MoveTo(s.sys, Free) else s.sys))
  {
    if Empty(s.q) {
      ReceiveBlockedKeeps(s.sys, s.q);
      DataIgnoresWaiters(s.q, AddReceiver(s.q, s.sys.k.current).receivers, s.q.senders, s.sent, s.received);
    } else if again {
      LeaveLoop(s.sys, s.q.receivers, s.q.senders);
      RemovedKeeps(s, MoveTo(s.sys, Free));
    } else {
      RemovedKeeps(s, s.sys);
    }
  }

  lemma PerformKeeps<T>(s: State<T>, c: Call<T>)
    requires Inv(s) && Allowed(s, c)
    ensures Inv(Perform(s, c))
  {
    match c
    case Other(a) => OtherKeeps(s.sys, s.q, a);
    case Send(x) => SendKeeps(s, x, false);
    case SendAgain => SendKeeps(s, s.sys.places[s.sys.k.current].op.item, true);
    case Receive => ReceiveKeeps(s, false);
    case ReceiveAgain => ReceiveKeeps(s, true);
    case TrySend(x) => if !Full(s.q) { CommittedKeeps(s, s.sys, x); }
    case TryReceive => if !Empty(s.q) { RemovedKeeps(s, s.sys); }
  }

  // ---- What each call does ----

  /** Task `me` waits last among `after`, and everything else about the queue and the counts is as before. */
  ghost predicate Parked<T>(s: State<T>, s1: State<T>, receiving: bool)
    requires Inv(s) && Inv(s1)
  {
    var me := s.sys.k.current;
    && Waits(s1.sys, me) && s1.sent == s.sent && s1.received == s.received && Contents(s1.q) == Contents(s.q)
    && (if receiving then s1.q.receivers == s.q.receivers + [me] && s1.q.senders == s.q.senders
        else s1.q.senders == s.q.senders + [me] && s1.q.receivers == s.q.receivers)
  }

  /** From `before` the most urgent waiter, if there is one, has been taken off and woken, and `after` is left. */
  ghost predicate WokeBest<T>(s: State<T>, s1: State<T>, before: seq<nat>, after: seq<nat>) {
    if before == [] then after == []
    else exists w :: TakenOff(s.sys.k, before, w, after) && Woken(s1.sys, w)
  }

  /** A send with room adds its item behind the others and wakes the most urgent receiver; without room it waits last in
      line, or, with a try, has only looked. */
  lemma SendSpec<T>(s: State<T>, c: Call<T>)
    requires Inv(s) && Allowed(s, c) && (c.Send? || c.SendAgain? || c.TrySend?)
    ensures Inv(Perform(s, c))
    ensures var s1, x := Perform(s, c), if c.SendAgain? then s.sys.places[s.sys.k.current].op.item else c.item;
            if |Contents(s.q)| < |s.q.buf| then
              && Contents(s1.q) == Contents(s.q) + [x] && |s1.q.buf| == |s.q.buf|
              && s1.sent == s.sent + [x] && s1.received == s.received
              && s1.q.senders == s.q.senders && WokeBest(s, s1, s.q.receivers, s1.q.receivers)
            else if c.TrySend? then s1 == s
            else Parked(s, s1, false)
  {
    hide NoLostWakeUp;
    PerformKeeps(s, c);
    var s1, x := Perform(s, c), if c.SendAgain? then s.sys.places[s.sys.k.current].op.item else c.item;
    if !Full(s.q) {
      CommitAppends(s.q, x);
      assert Contents(s1.q) == Contents(Commit(s.q, x));
      WakeSpec(s, if c.SendAgain? then MoveTo(s.sys, Free) else s.sys, s.q.receivers);
    } else if !c.TrySend? {
      CurrentUnlisted(s.sys, s.q.receivers, s.q.senders);
      BlockAtKeeps(s.sys, Op<T>.Sending(x));
      assert Contents(s1.q) == Contents(s.q);
    }
  }

  /** A receive from a queue that holds something takes the oldest item and wakes the most urgent sender; from an empty one
      it waits last in line, or, with a try, has only looked. */
  lemma ReceiveSpec<T>(s: State<T>, c: Call<T>)
    requires Inv(s) && Allowed(s, c) && (c.Receive? || c.ReceiveAgain? || c.TryReceive?)
    ensures Inv(Perform(s, c))
    ensures var s1 := Perform(s, c);
            if Contents(s.q) != [] then
              && Contents(s1.q) == Contents(s.q)[1..] && |s1.q.buf| == |s.q.buf|
              && s1.received == s.received + [Contents(s.q)[0]] && s1.sent == s.sent
              && s1.q.receivers == s.q.receivers && WokeBest(s, s1, s.q.senders, s1.q.senders)
            else if c.TryReceive? then s1 == s
            else Parked(s, s1, true)
  {
    hide NoLostWakeUp;
    PerformKeeps(s, c);
    var s1 := Perform(s, c);
    if !Empty(s.q) {
      RemoveTakesFirst(s.q);
      assert Contents(s1.q) == Contents(Remove(s.q));
      WakeSpec(s, if c.ReceiveAgain? then MoveTo(s.sys, Free) else s.sys, s.q.senders);
    } else if !c.TryReceive? {
      CurrentUnlisted(s.sys, s.q.receivers, s.q.senders);
      BlockAtKeeps(s.sys, Op<T>.Receiving);
      assert Contents(s1.q) == Contents(s.q);
    }
  }

  /** Waking from a list of tasks that are BLOCKED in the queue. */
  lemma WakeSpec<T>(s: State<T>, sys: System<Op<T>>, waiters: seq<nat>)
    requires Inv(s) && (waiters == s.q.receivers || waiters == s.q.senders)
    requires (sys == s.sys && (Running(sys) || Idle(sys))) || (Returning(s.sys) && sys == MoveTo(s.sys, Free))
    ensures waiters != [] ==>
              && TakenOff(s.sys.k, waiters, Chosen(waiters, sys.k), SwapRemove(waiters, BestIndex(sys.k, waiters)))
              && Woken(UnblockTask(sys, Chosen(waiters, sys.k)), Chosen(waiters, sys.k))
  {
    hide Unblock, NoLostWakeUp, DataInv;
    if Returning(s.sys) && sys == MoveTo(s.sys, Free) { LeaveLoop(s.sys, s.q.receivers, s.q.senders); }
    if waiters != [] {
      forall j | 0 <= j < |waiters|
        ensures waiters[j] < |s.sys.k.tasks| && Waits(sys, waiters[j])
      {
        assert waiters[j] in waiters;
      }
      BestIsTakenOff(s.sys.k, waiters);
      UnblockKeeps(sys, waiters[BestIndex(sys.k, waiters)]);
    }
  }

  // ---- Beside other objects ----

  function WakeChosen(waiters: seq<nat>, k: Kernel): seq<Move> {
    if waiters == [] then [] else [Wake(waiters[BestIndex(k, waiters)])]
  }

  function MovesOf<T>(s: State<T>, c: Call<T>): seq<Move> {
    match c
    case Other(_) => []
    case Send(_) => if Full(s.q) then [Enter] else WakeChosen(s.q.receivers, s.sys.k)
    case SendAgain => if Full(s.q) then [Return, Enter] else [Return] + WakeChosen(s.q.receivers, s.sys.k)
    case Receive => if Empty(s.q) then [Enter] else WakeChosen(s.q.senders, s.sys.k)
    case ReceiveAgain => if Empty(s.q) then [Return, Enter] else [Return] + WakeChosen(s.q.senders, s.sys.k)
    case TrySend(_) => if Full(s.q) then [] else WakeChosen(s.q.receivers, s.sys.k)
    case TryReceive => if Empty(s.q) then [] else WakeChosen(s.q.senders, s.sys.k)
  }

  lemma WakesChosen<T>(sys: System<Op<T>>, waiters: seq<nat>)
    requires SystemInv(sys) && (Running(sys) || Idle(sys)) && forall i :: i in waiters ==> Waits(sys, i)
    ensures MovesTo(sys, WakeChosen(waiters, sys.k), UnblockTask(sys, Chosen(waiters, sys.k)))
  {
    hide MovesTo;
    if waiters == [] {
      NoMove(sys);
    } else {
      assert waiters[BestIndex(sys.k, waiters)] in waiters;
      Wakes(sys, waiters[BestIndex(sys.k, waiters)]);
    }
  }

  lemma ReturnsAndWakes<T>(s: State<T>, waiters: seq<nat>)
    requires Inv(s) && Returning(s.sys) && (waiters == s.q.receivers || waiters == s.q.senders)
    ensures MovesTo(s.sys, [Return] + WakeChosen(waiters, s.sys.k),
                    UnblockTask(MoveTo(s.sys, Free), Chosen(waiters, s.sys.k)))
  {
    hide MovesTo, Unblock;
    var sys1 := MoveTo(s.sys, Free);
    LeaveLoop(s.sys, s.q.receivers, s.q.senders);
    Returns(s.sys);
    WakesChosen(sys1, waiters);
    MovesThen(s.sys, [Return], sys1, WakeChosen(waiters, s.sys.k), UnblockTask(sys1, Chosen(waiters, s.sys.k)));
  }

  /** A call wakes nobody but a task that is BLOCKED in this queue. */
  lemma WakesOnlyItsOwn<T>(s: State<T>, c: Call<T>)
    requires Inv(s) && Allowed(s, c) && !c.Other?
    ensures MovesTo(s.sys, MovesOf(s, c), Perform(s, c).sys)
  {
    hide MovesTo, Unblock, BlockCurrent, BestIndex, WakeChosen, Chosen, NoLostWakeUp, DataInv;
    match c
    case Send(x) => if Full(s.q) { Enters(s.sys, Sending(x)); } else { WakesChosen(s.sys, s.q.receivers); }
    case SendAgain =>
      if Full(s.q) { EntersAgain(s.sys, Sending(s.sys.places[s.sys.k.current].op.item)); }
      else { ReturnsAndWakes(s, s.q.receivers); }
    case Receive => if Empty(s.q) { Enters(s.sys, Op<T>.Receiving); } else { WakesChosen(s.sys, s.q.senders); }
    case ReceiveAgain =>
      if Empty(s.q) { EntersAgain(s.sys, Op<T>.Receiving); } else { ReturnsAndWakes(s, s.q.senders); }
    case TrySend(_) => if Full(s.q) { NoMove(s.sys); } else { WakesChosen(s.sys, s.q.receivers); }
    case TryReceive => if Empty(s.q) { NoMove(s.sys); } else { WakesChosen(s.sys, s.q.senders); }
  }

  // ---- Runs ----

  ghost function Next<T>(s: State<T>, c: Call<T>): (r: State<T>)
    requires Inv(s) && Allowed(s, c)
    ensures Inv(r)
  {
    PerformKeeps(s, c);
    Perform(s, c)
  }

  ghost predicate Legal<T>(s: State<T>, calls: seq<Call<T>>)
    requires Inv(s)
    decreases calls
  {
    calls == [] || (Allowed(s, calls[0]) && Legal(Next(s, calls[0]), calls[1..]))
  }

  ghost function Run<T>(s: State<T>, calls: seq<Call<T>>): (r: State<T>)
    requires Inv(s) && Legal(s, calls)
    ensures Inv(r)
    decreases calls
  {
    if calls == [] then s else Run(Next(s, calls[0]), calls[1..])
  }

  ghost function Initial<T>(buf: seq<T>): (s: State<T>)
    requires buf != []
    ensures Inv(s) && s.sent == [] && s.received == []
  {
    var s := State(System(Kernel([], 0, INVALID_TASK), [], false), Queue(buf, 0, 0, 0, [], []), [], []);
    assert Contents(s.q) == [];
    s
  }

  /** The items received, in order, followed by the buffer read from the head, are the items committed in order, so each
      is delivered at most once and none is lost, also across wrap-round. */
  ghost predicate Delivered<T>(s: State<T>) {
    && Ring(s.q) && s.sent == s.received + Contents(s.q) && |Contents(s.q)| == s.q.count
    && s.received <= s.sent
    && s.q.tail == (s.q.head + s.q.count) % |s.q.buf|
  }

  /** While a receiver sleeps, the items are at most the receivers on their way out, and while a sender sleeps, the free
      slots are at most the senders on their way out. So when no task is READY or RUNNING, no receiver sleeps on a queue
      with items, no sender on a queue with room, and never do both sleep. */
  ghost predicate Awake<T>(s: State<T>) {
    && (s.q.receivers != [] ==> s.q.count <= |WokenReceivers(s.sys)|)
    && (s.q.senders != [] ==> |s.q.buf| - s.q.count <= |WokenSenders(s.sys)|)
    && (Idle(s.sys) && NoneReady(s.sys.k) ==>
          && (s.q.receivers != [] ==> s.q.count == 0)
          && (s.q.senders != [] ==> s.q.count == |s.q.buf|)
          && (s.q.receivers == [] || s.q.senders == [])
          && (forall i: nat :: i < |s.sys.places| && s.sys.places[i].At? ==> i in s.q.receivers || i in s.q.senders))
  }

  lemma InvDelivers<T>(s: State<T>)
    requires Inv(s)
    ensures Delivered(s)
  {
    hide WaitInv, Contents;
    assert (s.received + Contents(s.q))[..|s.received|] == s.received;
  }

  lemma InvIsAwake<T>(s: State<T>)
    requires Inv(s)
    ensures Awake(s)
  {
    if Idle(s.sys) && NoneReady(s.sys.k) {
      forall i: nat | i < |s.sys.places|
        ensures !Woken(s.sys, i)
      {
        assert Agree(s.sys.k.tasks[i], s.sys.places[i], s.sys.k.tick, s.sys.ticked);
        assert !Ready(s.sys.k.tasks[i]);
      }
      assert WokenReceivers(s.sys) == {} && WokenSenders(s.sys) == {};
    }
  }

  lemma ExactlyOnceInOrder<T>(buf: seq<T>, calls: seq<Call<T>>)
    requires buf != [] && Legal(Initial(buf), calls)
    ensures Delivered(Run(Initial(buf), calls))
  {
    hide Perform, Inv, Delivered, Run;
    InvDelivers(Run(Initial(buf), calls));
  }

  lemma NobodySleepsInVain<T>(buf: seq<T>, calls: seq<Call<T>>)
    requires buf != [] && Legal(Initial(buf), calls)
    ensures Awake(Run(Initial(buf), calls))
  {
    hide Perform, Inv, Awake, Run;
    InvIsAwake(Run(Initial(buf), calls));
  }
}
