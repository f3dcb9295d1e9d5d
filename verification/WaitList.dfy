/** The waiter arrays of the synchronisation objects: choosing the most urgent waiter and removing it by
    moving the last one into its slot. */
module WaitList {
  import opened KernelCalls
  import opened Scheduling

  /** The first of the waiters with the least priority number. */
  function BestIndex(k: Kernel, w: seq<nat>): (best: nat)
    requires w != []
    ensures best < |w|
    ensures forall i :: 0 <= i < |w| ==> Priority(k, w[best]) <= Priority(k, w[i])
    ensures forall i :: 0 <= i < best ==> Priority(k, w[best]) < Priority(k, w[i])
  {
    var n := |w| - 1;
    if n == 0 then 0
    else
      var b := BestIndex(k, w[..n]);
      assert forall i :: 0 <= i < n ==> w[..n][i] == w[i];
      if Priority(k, w[n]) < Priority(k, w[b]) then n else b
  }

  function SwapRemove<T>(w: seq<T>, i: nat): (r: seq<T>)
    requires i < |w|
    ensures |r| == |w| - 1
  {
    w[i := w[|w| - 1]][..|w| - 1]
  }

  /** Nothing is added when the array is full. */
  function Enqueue<T>(w: seq<T>, x: T): seq<T> {
    if |w| < MAX_TASKS then w + [x] else w
  }

  ghost predicate Distinct(w: seq<nat>) {
    forall i, j :: 0 <= i < j < |w| ==> w[i] != w[j]
  }

  lemma SwapRemoveKeepsRest<T>(w: seq<T>, i: nat)
    requires i < |w|
    ensures multiset(SwapRemove(w, i)) + multiset{w[i]} == multiset(w)
  {
    var n := |w| - 1;
    if i < n {
      assert w == w[..i] + [w[i]] + w[i + 1..n] + [w[n]];
      assert SwapRemove(w, i) == w[..i] + [w[n]] + w[i + 1..n];
    } else {
      assert w == w[..n] + [w[n]];
      assert SwapRemove(w, i) == w[..n];
    }
  }

  /** The waiter at place `i` is in the table, no waiter has a smaller priority number, and those in front of it have a
      greater one. */
  ghost predicate MostUrgent(k: Kernel, w: seq<nat>, i: nat) {
    && i < |w| && w[i] < |k.tasks|
    && forall j :: 0 <= j < |w| ==>
         && w[j] < |k.tasks| && k.tasks[w[i]].priority <= k.tasks[w[j]].priority
         && (j < i ==> k.tasks[w[i]].priority < k.tasks[w[j]].priority)
  }

  /** Task `t` was taken off the array as the most urgent waiter, and the last waiter has taken its slot. */
  ghost predicate TakenOff(k: Kernel, before: seq<nat>, t: nat, after: seq<nat>) {
    exists i: nat :: MostUrgent(k, before, i) && before[i] == t && |after| == |before| - 1
                     && forall j :: 0 <= j < |after| ==> after[j] == if j == i then before[|before| - 1] else before[j]
  }

  /** The one the search finds is taken off as the most urgent. */
  lemma BestIsTakenOff(k: Kernel, w: seq<nat>)
    requires w != [] && forall j :: 0 <= j < |w| ==> w[j] < |k.tasks|
    ensures TakenOff(k, w, w[BestIndex(k, w)], SwapRemove(w, BestIndex(k, w)))
  {
    assert MostUrgent(k, w, BestIndex(k, w));
  }

  lemma SwapRemoveDistinct(w: seq<nat>, i: nat)
    requires i < |w| && Distinct(w)
    ensures Distinct(SwapRemove(w, i))
    ensures forall x :: x in SwapRemove(w, i) <==> x in w && x != w[i]
  {
    var n, r := |w| - 1, SwapRemove(w, i);
    forall x | x in w && x != w[i]
      ensures x in r
    {
      var j :| 0 <= j < |w| && w[j] == x;
      if j < n { assert r[j] == x; } else { assert r[i] == x; }
    }
  }

  lemma EnqueueDistinct(w: seq<nat>, x: nat)
    requires Distinct(w) && x !in w && |w| < MAX_TASKS
    ensures Distinct(Enqueue(w, x))
    ensures forall y :: y in Enqueue(w, x) <==> y in w || y == x
  {
  }

  ghost function Members(w: seq<nat>): set<nat> { set x | x in w }

  ghost function Handles(n: nat): (s: set<nat>)
    ensures |s| == n && forall x: nat :: x in s <==> x < n
  {
    if n == 0 then {} else Handles(n - 1) + {n - 1}
  }

  lemma {:induction false} DistinctSize(w: seq<nat>)
    requires Distinct(w)
    ensures |Members(w)| == |w|
  {
    if w == [] {
      assert Members(w) == {};
    } else {
      var n := |w| - 1;
      DistinctSize(w[..n]);
      assert Members(w) == Members(w[..n]) + {w[n]};
    }
  }

  /** Distinct handles below `n` are at most `n` many. */
  lemma DistinctBelow(w: seq<nat>, n: nat)
    requires Distinct(w) && forall i :: i in w ==> i < n
    ensures |w| <= n
  {
    DistinctSize(w);
    assert Handles(n) == Members(w) + (Handles(n) - Members(w));
  }

  /** Distinct handles below `n` that leave one of them out are fewer than `n`. */
  lemma Pigeonhole(w: seq<nat>, n: nat, out: nat)
    requires Distinct(w) && out < n && out !in w
    requires forall i :: i in w ==> i < n
    ensures |w| < n
  {
    DistinctBelow(w + [out], n);
  }

  /** The minimum search that every wake-up performs. */
  method FindBest(sched: Scheduler, waiters: array<nat>, count: nat) returns (best: nat)
    requires sched.Valid() && 0 < count <= waiters.Length
    ensures best == BestIndex(sched.Model(), waiters[..count])
  {
    best := 0;
    var bestPriority := sched.GetPriority(waiters[0]);
    for i := 1 to count
      invariant best < i && bestPriority == Priority(sched.Model(), waiters[best])
      invariant best == BestIndex(sched.Model(), waiters[..i])
    {
      assert waiters[..i + 1][..i] == waiters[..i];
      var p := sched.GetPriority(waiters[i]);
      if p < bestPriority { bestPriority, best := p, i; }
    }
  }
}
