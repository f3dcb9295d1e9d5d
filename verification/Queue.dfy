/** The bounded message queue: calls as functions, and the object that performs them in place. */
module QueueCalls {
  import opened KernelCalls
  import opened WaitList

  datatype Queue<T> = Queue(buf: seq<T>, head: nat, tail: nat, count: nat, receivers: seq<nat>, senders: seq<nat>)

  ghost predicate Ring<T>(q: Queue<T>) {
    && 0 < |q.buf| && q.head < |q.buf| && q.count <= |q.buf|
    && q.tail == (q.head + q.count) % |q.buf|
  }

  predicate Full<T>(q: Queue<T>) { q.count == |q.buf| }

  predicate Empty<T>(q: Queue<T>) { q.count == 0 }

  /** The items in the buffer, oldest first. */
  ghost function Contents<T>(q: Queue<T>): (items: seq<T>)
    requires Ring(q)
    ensures |items| == q.count
  {
    seq(q.count, i requires 0 <= i < q.count => q.buf[(q.head + i) % |q.buf|])
  }

  function Commit<T>(q: Queue<T>, item: T): Queue<T>
    requires q.tail < |q.buf|
  {
    q.(buf := q.buf[q.tail := item], tail := (q.tail + 1) % |q.buf|, count := q.count + 1)
  }

  function Remove<T>(q: Queue<T>): Queue<T>
    requires 0 < |q.buf| && 0 < q.count
  {
    q.(head := (q.head + 1) % |q.buf|, count := q.count - 1)
  }

  function AddSender<T>(q: Queue<T>, me: nat): Queue<T> { q.(senders := Enqueue(q.senders, me)) }

  function AddReceiver<T>(q: Queue<T>, me: nat): Queue<T> { q.(receivers := Enqueue(q.receivers, me)) }

  function DropReceiver<T>(q: Queue<T>, k: Kernel): Queue<T> {
    if q.receivers == [] then q else q.(receivers := SwapRemove(q.receivers, BestIndex(k, q.receivers)))
  }

  function DropSender<T>(q: Queue<T>, k: Kernel): Queue<T> {
    if q.senders == [] then q else q.(senders := SwapRemove(q.senders, BestIndex(k, q.senders)))
  }

  /** The task a wake-up addresses; no task has the invalid handle. */
  function Chosen(w: seq<nat>, k: Kernel): nat {
    if w == [] then INVALID_TASK else w[BestIndex(k, w)]
  }

  lemma Wrapped(a: nat, n: nat)
    requires a < 2 * n
    ensures a % n == if a < n then a else a - n
  {
    if a >= n {
      var r := a - n;
      assert a == 1 * n + r;
      Remainder(1, n, r);
    }
  }

  lemma Remainder(q: nat, n: nat, r: nat)
    requires r < n
    ensures (q * n + r) / n == q && (q * n + r) % n == r
  {
    MultipleOutside((q * n + r) / n - q, n);
  }

  lemma MultipleOutside(d: int, n: nat)
    ensures d > 0 ==> d * n >= n
    ensures d < 0 ==> d * n <= 0 - n
  {
  }

  lemma SlotAt<T>(q: Queue<T>, i: nat)
    requires Ring(q) && i <= |q.buf|
    ensures (q.head + i) % |q.buf| == if q.head + i < |q.buf| then q.head + i else q.head + i - |q.buf|
  {
    Wrapped(q.head + i, |q.buf|);
  }

  /** A committed item comes last, also when the write position wraps round. */
  lemma CommitAppends<T>(q: Queue<T>, item: T)
    requires Ring(q) && !Full(q)
    ensures q.tail < |q.buf| && Ring(Commit(q, item)) && Contents(Commit(q, item)) == Contents(q) + [item]
  {
    var n, q1 := |q.buf|, Commit(q, item);
    SlotAt(q, q.count);
    Wrapped(q.tail + 1, n);
    SlotAt(q, q1.count);
    forall i | 0 <= i < q.count
      ensures Contents(q1)[i] == Contents(q)[i]
    {
      SlotAt(q, i);
    }
  }

  /** The removed item is the oldest. */
  lemma RemoveTakesFirst<T>(q: Queue<T>)
    requires Ring(q) && !Empty(q)
    ensures Ring(Remove(q)) && Contents(q) == [q.buf[q.head]] + Contents(Remove(q))
  {
    var n, q1 := |q.buf|, Remove(q);
    SlotAt(q, 0);
    SlotAt(q, 1);
    SlotAt(q, q.count);
    Wrapped(q1.head + q1.count, n);
    assert Ring(q1);
    forall i | 0 <= i < q1.count
      ensures Contents(q1)[i] == Contents(q)[1 + i]
    {
      SlotAt(q, 1 + i);
      SlotAt(q1, i);
    }
  }
}

module Queues {
  import opened KernelCalls
  import opened Scheduling
  import opened WaitList
  import opened QueueCalls

  class QueueObject<T(0)> {
    const sched: Scheduler
    const buf: array<T>
    const recvWaiters: array<nat>
    const sendWaiters: array<nat>
    var head: nat
    var tail: nat
    var count: nat
    var recvCount: nat
    var sendCount: nat

    ghost predicate Valid()
      reads this, sched
    {
      && sched.Valid()
      && recvWaiters.Length == MAX_TASKS && recvCount <= MAX_TASKS
      && sendWaiters.Length == MAX_TASKS && sendCount <= MAX_TASKS
      && recvWaiters != sendWaiters
      && recvWaiters as object != sched.tasks && sendWaiters as object != sched.tasks
      && buf as object != recvWaiters && buf as object != sendWaiters && buf as object != sched.tasks
      && 0 < buf.Length && head < buf.Length && tail < buf.Length && count <= buf.Length
    }

    ghost function Model(): Queue<T>
      requires Valid()
      reads this, sched, buf, recvWaiters, sendWaiters
    {
      Queue(buf[..], head, tail, count, recvWaiters[..recvCount], sendWaiters[..sendCount])
    }

    constructor (s: Scheduler, capacity: nat)
      requires s.Valid() && 0 < capacity
      ensures Valid() && sched == s && fresh(buf) && fresh(recvWaiters) && fresh(sendWaiters)
      ensures Ring(Model()) && Contents(Model()) == [] && |Model().buf| == capacity
      ensures Model().receivers == [] && Model().senders == []
    {
      sched := s;
      buf := new T[capacity];
      recvWaiters := new nat[MAX_TASKS](_ => 0);
      sendWaiters := new nat[MAX_TASKS](_ => 0);
      head, tail, count, recvCount, sendCount := 0, 0, 0, 0, 0;
    }

    method WakeReceiver()
      requires Valid()
      modifies this`recvCount, recvWaiters, sched, sched.tasks
      ensures Valid() && Model() == DropReceiver(old(Model()), old(sched.Model()))
      ensures sched.Model() == Unblock(old(sched.Model()), Chosen(old(Model()).receivers, old(sched.Model())))
    {
      if recvCount == 0 { return; }
      var best := FindBest(sched, recvWaiters, recvCount);
      var w := recvWaiters[best];
      recvCount := recvCount - 1;
      recvWaiters[best] := recvWaiters[recvCount];
      assert recvWaiters[..recvCount] == SwapRemove(old(recvWaiters[..recvCount]), best);
      sched.Unblock(w);
    }

    method WakeSender()
      requires Valid()
      modifies this`sendCount, sendWaiters, sched, sched.tasks
      ensures Valid() && Model() == DropSender(old(Model()), old(sched.Model()))
      ensures sched.Model() == Unblock(old(sched.Model()), Chosen(old(Model()).senders, old(sched.Model())))
    {
      if sendCount == 0 { return; }
      var best := FindBest(sched, sendWaiters, sendCount);
      var w := sendWaiters[best];
      sendCount := sendCount - 1;
      sendWaiters[best] := sendWaiters[sendCount];
      assert sendWaiters[..sendCount] == SwapRemove(old(sendWaiters[..sendCount]), best);
      sched.Unblock(w);
    }

    /** One pass of the loop in `send`, up to the next context switch: the item is committed and a receiver
        woken, or the caller blocks and makes the next pass when it is back on the processor. */
    method SendPass(item: T) returns (done: bool)
      requires Valid()
      modifies this, buf, recvWaiters, sendWaiters, sched, sched.tasks
      ensures Valid() && done == !Full(old(Model()))
      ensures Model() == if done then DropReceiver(Commit(old(Model()), item), old(sched.Model()))
                         else AddSender(old(Model()), old(sched.current))
      ensures sched.Model() == if done then Unblock(old(sched.Model()), Chosen(old(Model()).receivers, old(sched.Model())))
                               else BlockCurrent(old(sched.Model()))
    {
      if count == buf.Length {
        if sendCount < MAX_TASKS {
          sendWaiters[sendCount] := sched.current;
          sendCount := sendCount + 1;
        }
        sched.BlockCurrent();
        return false;
      }
      buf[tail] := item;
      tail := (tail + 1) % buf.Length;
      count := count + 1;
      assert Model() == Commit(old(Model()), item);
      WakeReceiver();
      done := true;
    }

    /** One pass of the loop in `receive`, up to the next context switch. */
    method ReceivePass(fallback: T) returns (done: bool, item: T)
      requires Valid()
      modifies this, buf, recvWaiters, sendWaiters, sched, sched.tasks
      ensures Valid() && done == !Empty(old(Model()))
      ensures item == if done then old(Model()).buf[old(head)] else fallback
      ensures Model() == if done then DropSender(Remove(old(Model())), old(sched.Model()))
                         else AddReceiver(old(Model()), old(sched.current))
      ensures sched.Model() == if done then Unblock(old(sched.Model()), Chosen(old(Model()).senders, old(sched.Model())))
                               else BlockCurrent(old(sched.Model()))
    {
      if count == 0 {
        if recvCount < MAX_TASKS {
          recvWaiters[recvCount] := sched.current;
          recvCount := recvCount + 1;
        }
        sched.BlockCurrent();
        return false, fallback;
      }
      item := buf[head];
      head := (head + 1) % buf.Length;
      count := count - 1;
      assert Model() == Remove(old(Model()));
      WakeSender();
      done := true;
    }

    method TrySend(item: T) returns (done: bool)
      requires Valid()
      modifies this, buf, recvWaiters, sendWaiters, sched, sched.tasks
      ensures Valid() && done == !Full(old(Model()))
      ensures Model() == if done then DropReceiver(Commit(old(Model()), item), old(sched.Model())) else old(Model())
      ensures sched.Model() == if done then Unblock(old(sched.Model()), Chosen(old(Model()).receivers, old(sched.Model())))
                               else old(sched.Model())
    {
      if count == buf.Length { return false; }
      done := SendPass(item);
    }

    method TryReceive(fallback: T) returns (done: bool, item: T)
      requires Valid()
      modifies this, buf, recvWaiters, sendWaiters, sched, sched.tasks
      ensures Valid() && done == !Empty(old(Model()))
      ensures item == if done then old(Model()).buf[old(head)] else fallback
      ensures Model() == if done then DropSender(Remove(old(Model())), old(sched.Model())) else old(Model())
      ensures sched.Model() == if done then Unblock(old(sched.Model()), Chosen(old(Model()).senders, old(sched.Model())))
                               else old(sched.Model())
    {
      if count == 0 { return false, fallback; }
      done, item := ReceivePass(fallback);
    }
  }
}
