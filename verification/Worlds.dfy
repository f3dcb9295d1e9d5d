/** A whole program: one scheduler and any number of mutexes, semaphores, queues and event groups, used by the same
    tasks. Every object's promise holds in every run at once, because each object sees all others as actions that its own
    run theorem allows for. */
module Worlds {
  import opened KernelProperties
  import opened Runs
  import opened SchedulerRuns
  import opened Sharing
  import M = MutexRuns
  import S = SemaphoreRuns
  import Q = QueueRuns
  import E = EventRuns

  datatype Part<T> =
    | MutexPart(m: M.State)
    | SemaphorePart(s: S.State)
    | QueuePart(q: Q.State<T>)
    | EventPart(e: E.State)

  datatype PartCall<T> =
    | OnMutex(mc: M.Call)
    | OnSemaphore(sc: S.Call)
    | OnQueue(qc: Q.Call<T>)
    | OnEvents(ec: E.Call)

  /** `base` is the view of the scheduler itself, in which every blocking call is `Elsewhere`. */
  datatype World<T> = World(base: System<()>, parts: seq<Part<T>>)

  // ---- One object among others ----

  function View<T>(p: Part<T>): System<()> {
    match p
    case MutexPart(m) => Shape(m.sys)
    case SemaphorePart(s) => Shape(s.sys)
    case QueuePart(q) => Shape(q.sys)
    case EventPart(e) => Shape(e.sys)
  }

  ghost predicate PartInv<T>(p: Part<T>) {
    match p
    case MutexPart(m) => M.Inv(m)
    case SemaphorePart(s) => S.Inv(s)
    case QueuePart(q) => Q.Inv(q)
    case EventPart(e) => E.Inv(e)
  }

  lemma ViewKeeps<T>(p: Part<T>)
    requires PartInv(p)
    ensures SystemInv(View(p))
  {
    hide SystemInv;
    match p
    case MutexPart(m) => ShapeKeeps(m.sys);
    case SemaphorePart(s) => ShapeKeeps(s.sys);
    case QueuePart(q) => ShapeKeeps(q.sys);
    case EventPart(e) => ShapeKeeps(e.sys);
  }

  /** The call fits the object and keeps its rules; setters of event flags meet nobody who outranks them. */
  ghost predicate PartCan<T>(p: Part<T>, c: PartCall<T>)
    requires PartInv(p)
  {
    match p
    case MutexPart(m) => c.OnMutex? && !c.mc.Other? && M.Allowed(m, c.mc)
    case SemaphorePart(s) => c.OnSemaphore? && !c.sc.Other? && S.Allowed(s, c.sc)
    case QueuePart(q) => c.OnQueue? && !c.qc.Other? && Q.Allowed(q, c.qc)
    case EventPart(e) => c.OnEvents? && !c.ec.Other? && E.Allowed(e, c.ec) && E.Settles(e, c.ec)
  }

  /** The same kind of object, and for a semaphore the same bounds. */
  predicate Alike<T>(p: Part<T>, r: Part<T>) {
    match p
    case MutexPart(_) => r.MutexPart?
    case SemaphorePart(s) => r.SemaphorePart? && r.s.initial == s.initial && r.s.sem.max == s.sem.max
    case QueuePart(_) => r.QueuePart?
    case EventPart(_) => r.EventPart?
  }

  ghost function PartNext<T>(p: Part<T>, c: PartCall<T>): (r: Part<T>)
    requires PartInv(p) && PartCan(p, c)
    ensures PartInv(r) && Alike(p, r)
  {
    match p
    case MutexPart(m) => MutexPart(M.Next(m, c.mc))
    case SemaphorePart(s) => SemaphorePart(S.Next(s, c.sc))
    case QueuePart(q) => QueuePart(Q.Next(q, c.qc))
    case EventPart(e) => EventPart(E.Next(e, c.ec))
  }

  ghost function PartMoves<T>(p: Part<T>, c: PartCall<T>): seq<Move>
    requires PartInv(p) && PartCan(p, c)
  {
    match p
    case MutexPart(m) => M.MovesOf(m, c.mc)
    case SemaphorePart(s) => S.MovesOf(s, c.sc)
    case QueuePart(q) => Q.MovesOf(q, c.qc)
    case EventPart(e) => E.MovesOf(e, c.ec)
  }

  lemma PartKeeps<T>(p: Part<T>, c: PartCall<T>)
    requires PartInv(p) && PartCan(p, c)
    ensures SystemInv(View(p)) && MovesOk(View(p), PartMoves(p, c))
    ensures View(PartNext(p, c)) == MovedAll(View(p), PartMoves(p, c))
  {
    hide SystemInv, MovesOk, MovedAll, Shape, M.Inv, S.Inv, Q.Inv, E.Inv;
    match p
    case MutexPart(m) => M.WakesOnlyItsOwn(m, c.mc);
    case SemaphorePart(s) => S.WakesOnlyItsOwn(s, c.sc);
    case QueuePart(q) => Q.WakesOnlyItsOwn(q, c.qc);
    case EventPart(e) => E.WakesOnlyItsOwn(e, c.ec);
  }

  /** The object while something else happens. */
  ghost function PartSees<T>(p: Part<T>, a: Action): (r: Part<T>)
    requires PartInv(p) && Can(View(p), a)
    ensures PartInv(r) && Alike(p, r) && View(r) == Step(View(p), a)
  {
    match p
    case MutexPart(m) =>
      ShapeSteps(m.sys, a);
      MutexPart(M.Next(m, M.Other(a)))
    case SemaphorePart(s) =>
      ShapeSteps(s.sys, a);
      SemaphorePart(S.Next(s, S.Other(a)))
    case QueuePart(q) =>
      ShapeSteps(q.sys, a);
      QueuePart(Q.Next(q, Q.Call<T>.Other(a)))
    case EventPart(e) =>
      ShapeSteps(e.sys, a);
      EventPart(E.Next(e, E.Other(a)))
  }

  ghost function PartSeesAll<T>(p: Part<T>, acts: seq<Action>): (r: Part<T>)
    requires PartInv(p) && SystemInv(View(p)) && Legal(View(p), acts)
    ensures PartInv(r) && Alike(p, r) && SystemInv(View(r)) && View(r) == Run(View(p), acts)
    decreases acts
  {
    if acts == [] then p
    else
      var p1 := PartSees(p, acts[0]);
      ViewKeeps(p1);
      PartSeesAll(p1, acts[1..])
  }

  // ---- All objects together ----

  ghost predicate Fitting<T>(w: World<T>, j: nat)
    requires j < |w.parts|
  {
    PartInv(w.parts[j]) && SystemInv(View(w.parts[j])) && Beside(View(w.parts[j]), w.base)
  }

  /** Every object keeps its invariant, and all views of the system fit each other. */
  ghost predicate WorldInv<T>(w: World<T>) {
    && SystemInv(w.base)
    && (forall j :: 0 <= j < |w.parts| ==> Fitting(w, j))
    && (forall i, j :: 0 <= i < j < |w.parts| ==> Beside(View(w.parts[i]), View(w.parts[j])))
  }

  datatype Happening<T> = Plain(a: Action) | Call(j: nat, c: PartCall<T>)

  ghost predicate WorldCan<T>(w: World<T>, h: Happening<T>)
    requires WorldInv(w)
  {
    match h
    case Plain(a) => Common(a) && Can(w.base, a)
    case Call(j, c) => j < |w.parts| && (assert Fitting(w, j); PartCan(w.parts[j], c))
  }

  /** What the scheduler, and every object that is not called, sees of it. */
  ghost function Seen<T>(w: World<T>, h: Happening<T>): seq<Action>
    requires WorldInv(w) && WorldCan(w, h)
  {
    match h
    case Plain(a) => [a]
    case Call(j, c) => assert Fitting(w, j); Images(PartMoves(w.parts[j], c))
  }

  lemma BesideBack(a: System<()>, b: System<()>)
    requires Beside(a, b)
    ensures Beside(b, a)
  {
    forall i | 0 <= i < |b.places|
      ensures Match(b.places[i], a.places[i])
    {
      assert Match(a.places[i], b.places[i]);
    }
  }

  lemma OneStep(v: System<()>, a: Action)
    requires SystemInv(v) && Can(v, a)
    ensures Legal(v, [a]) && Run(v, [a]) == Next(v, a)
  {
    hide Step, Can;
    assert [a][1..] == [];
  }

  /** In the view of anyone but the called object, what happens is a legal run, and it keeps that view beside any other
      view that sees the same. */
  lemma SeenIsLegal<T>(w: World<T>, h: Happening<T>, v: System<()>)
    requires WorldInv(w) && WorldCan(w, h) && SystemInv(v)
    requires h.Plain? ==> Beside(w.base, v) || v == w.base
    requires h.Call? ==> Beside(v, View(w.parts[h.j]))
    ensures Legal(v, Seen(w, h))
  {
    hide SystemInv, Beside, Step, Can, MovesOk, MovedAll, PartInv, PartCan, PartMoves, PartNext, View;
    match h
    case Plain(a) =>
      if v != w.base { CommonForAll(w.base, v, a); }
      OneStep(v, a);
    case Call(j, c) =>
      assert Fitting(w, j);
      PartKeeps(w.parts[j], c);
      MovesAreLegal(v, View(w.parts[j]), PartMoves(w.parts[j], c));
  }

  lemma BaseSees<T>(w: World<T>, h: Happening<T>)
    requires WorldInv(w) && WorldCan(w, h)
    ensures SystemInv(w.base) && Legal(w.base, Seen(w, h))
  {
    hide SystemInv, Beside, Can, PartInv, PartCan, View;
    if h.Call? {
      assert Fitting(w, h.j);
      BesideBack(View(w.parts[h.j]), w.base);
    }
    SeenIsLegal(w, h, w.base);
  }

  predicate Called<T>(h: Happening<T>, i: nat) { h.Call? && h.j == i }

  lemma PartSeesLegally<T>(w: World<T>, h: Happening<T>, i: nat)
    requires WorldInv(w) && WorldCan(w, h) && i < |w.parts| && !Called(h, i)
    ensures PartInv(w.parts[i]) && SystemInv(View(w.parts[i])) && Legal(View(w.parts[i]), Seen(w, h))
  {
    hide SystemInv, Beside, Can, PartInv, PartCan, View;
    assert Fitting(w, i);
    var v := View(w.parts[i]);
    if h.Plain? {
      BesideBack(v, w.base);
    } else if h.j < i {
      assert Beside(View(w.parts[h.j]), v);
      BesideBack(View(w.parts[h.j]), v);
    } else {
      assert Beside(v, View(w.parts[h.j]));
    }
    SeenIsLegal(w, h, v);
  }

  ghost function NextPart<T>(w: World<T>, h: Happening<T>, i: nat): (r: Part<T>)
    requires WorldInv(w) && WorldCan(w, h) && i < |w.parts|
    ensures PartInv(r) && Alike(w.parts[i], r)
  {
    assert Fitting(w, i);
    if Called(h, i) then PartNext(w.parts[i], h.c)
    else
      PartSeesLegally(w, h, i);
      PartSeesAll(w.parts[i], Seen(w, h))
  }

  ghost function WorldNext<T>(w: World<T>, h: Happening<T>): (r: World<T>)
    requires WorldInv(w) && WorldCan(w, h)
    ensures |r.parts| == |w.parts|
  {
    BaseSees(w, h);
    World(Run(w.base, Seen(w, h)), seq(|w.parts|, i requires 0 <= i < |w.parts| => NextPart(w, h, i)))
  }

  /** The view of a called object fits every view that sees the call. */
  lemma CallerFits<T>(w: World<T>, h: Happening<T>, v: System<()>)
    requires WorldInv(w) && WorldCan(w, h) && h.Call? && SystemInv(v) && Beside(v, View(w.parts[h.j]))
    ensures Legal(v, Seen(w, h)) && Beside(Run(v, Seen(w, h)), View(NextPart(w, h, h.j)))
  {
    hide SystemInv, Beside, PartInv, PartCan, PartMoves, View, MovesOk, MovedAll, Legal, Run;
    assert Fitting(w, h.j);
    PartKeeps(w.parts[h.j], h.c);
    MovesAreLegal(v, View(w.parts[h.j]), PartMoves(w.parts[h.j], h.c));
  }

  lemma NextFits<T>(w: World<T>, h: Happening<T>, i: nat)
    requires WorldInv(w) && WorldCan(w, h) && i < |w.parts|
    ensures Fitting(WorldNext(w, h), i)
  {
    hide SystemInv, Beside, PartInv, PartCan, View, WorldInv, WorldCan, Legal, Run, Seen;
    assert WorldInv(w) && WorldCan(w, h);
    var r := NextPart(w, h, i);
    ViewKeeps(r);
    InvFits(w, i);
    BaseSees(w, h);
    if Called(h, i) {
      BesideBack(View(w.parts[i]), w.base);
      CallerFits(w, h, w.base);
      BesideBack(Run(w.base, Seen(w, h)), View(r));
    } else {
      PartSeesLegally(w, h, i);
      RunBeside(View(w.parts[i]), w.base, Seen(w, h));
    }
  }

  lemma InvFits<T>(w: World<T>, i: nat)
    requires WorldInv(w) && i < |w.parts|
    ensures SystemInv(w.base) && Fitting(w, i)
  {
  }

  lemma InvPairs<T>(w: World<T>, i: nat, j: nat)
    requires WorldInv(w) && i < |w.parts| && j < |w.parts| && i != j
    ensures Beside(View(w.parts[i]), View(w.parts[j]))
  {
    hide SystemInv, Fitting, View;
    if j < i { BesideBack(View(w.parts[j]), View(w.parts[i])); }
  }

  lemma NextPairs<T>(w: World<T>, h: Happening<T>, i: nat, j: nat)
    requires WorldInv(w) && WorldCan(w, h) && i < |w.parts| && j < |w.parts| && i != j
    ensures Beside(View(NextPart(w, h, i)), View(NextPart(w, h, j)))
  {
    hide SystemInv, Beside, PartInv, PartCan, View, WorldInv, WorldCan, Legal, Run, Seen;
    InvFits(w, i);
    InvFits(w, j);
    InvPairs(w, i, j);
    InvPairs(w, j, i);
    if Called(h, j) {
      PartSeesLegally(w, h, i);
      CallerFits(w, h, View(w.parts[i]));
    } else if Called(h, i) {
      PartSeesLegally(w, h, j);
      CallerFits(w, h, View(w.parts[j]));
      BesideBack(Run(View(w.parts[j]), Seen(w, h)), View(NextPart(w, h, i)));
    } else {
      PartSeesLegally(w, h, i);
      PartSeesLegally(w, h, j);
      RunBeside(View(w.parts[i]), View(w.parts[j]), Seen(w, h));
    }
  }

  /** Whatever happens, every object keeps its invariant and every view fits. */
  lemma WorldKeeps<T>(w: World<T>, h: Happening<T>)
    requires WorldInv(w) && WorldCan(w, h)
    ensures WorldInv(WorldNext(w, h))
  {
    hide SystemInv, Beside, PartInv, PartCan, View, WorldCan, Legal, Run, Seen, Fitting, NextPart;
    var w1 := WorldNext(w, h);
    BaseSees(w, h);
    forall i | 0 <= i < |w1.parts|
      ensures Fitting(w1, i)
    {
      NextFits(w, h, i);
    }
    forall i, j | 0 <= i < j < |w1.parts|
      ensures Beside(View(w1.parts[i]), View(w1.parts[j]))
    {
      NextPairs(w, h, i, j);
    }
  }

  // ---- Runs ----

  ghost function After<T>(w: World<T>, h: Happening<T>): (r: World<T>)
    requires WorldInv(w) && WorldCan(w, h)
    ensures WorldInv(r) && |r.parts| == |w.parts|
  {
    WorldKeeps(w, h);
    WorldNext(w, h)
  }

  ghost predicate WorldLegal<T>(w: World<T>, hs: seq<Happening<T>>)
    requires WorldInv(w)
    decreases hs
  {
    hs == [] || (WorldCan(w, hs[0]) && WorldLegal(After(w, hs[0]), hs[1..]))
  }

  ghost function WorldRun<T>(w: World<T>, hs: seq<Happening<T>>): (r: World<T>)
    requires WorldInv(w) && WorldLegal(w, hs)
    ensures WorldInv(r) && |r.parts| == |w.parts|
    decreases hs
  {
    if hs == [] then w else WorldRun(After(w, hs[0]), hs[1..])
  }

  /** The run as the scheduler sees it. */
  ghost function AllSeen<T>(w: World<T>, hs: seq<Happening<T>>): seq<Action>
    requires WorldInv(w) && WorldLegal(w, hs)
    decreases hs
  {
    if hs == [] then [] else Seen(w, hs[0]) + AllSeen(After(w, hs[0]), hs[1..])
  }

  lemma {:induction false} RunAppend(s: System<()>, a: seq<Action>, b: seq<Action>)
    requires SystemInv(s) && Legal(s, a) && Legal(Run(s, a), b)
    ensures Legal(s, a + b) && Run(s, a + b) == Run(Run(s, a), b)
    decreases a
  {
    hide SystemInv, Step, Can;
    if a == [] {
      assert a + b == b;
    } else {
      assert (a + b)[1..] == a[1..] + b;
      RunAppend(Next(s, a[0]), a[1..], b);
    }
  }

  /** To the scheduler every run of the program is a legal run of actions, so all scheduler theorems apply to it. */
  lemma {:induction false} SchedulerSeesARun<T>(w: World<T>, hs: seq<Happening<T>>)
    requires WorldInv(w) && WorldLegal(w, hs)
    ensures Legal(w.base, AllSeen(w, hs)) && Run(w.base, AllSeen(w, hs)) == WorldRun(w, hs).base
    decreases hs
  {
    hide WorldCan, Seen, Legal, Run, SystemInv, Fitting, Beside, View;
    if hs == [] {
      NothingSeen(w.base);
    } else {
      BaseSees(w, hs[0]);
      SchedulerSeesARun(After(w, hs[0]), hs[1..]);
      RunAppend(w.base, Seen(w, hs[0]), AllSeen(After(w, hs[0]), hs[1..]));
    }
  }

  lemma NothingSeen(v: System<()>)
    requires SystemInv(v)
    ensures Legal(v, []) && Run(v, []) == v
  {
  }

  // ---- What holds in every run of the program ----

  /** Before the first call: an empty task table and objects as constructed. */
  ghost predicate Unused<T>(p: Part<T>) {
    match p
    case MutexPart(m) => m == M.Initial()
    case SemaphorePart(s) => 0 <= s.initial <= s.sem.max && s == S.Initial(s.initial, s.sem.max)
    case QueuePart(q) => q.q.buf != [] && q == Q.Initial(q.q.buf)
    case EventPart(e) => e == E.Initial()
  }

  ghost predicate Start<T>(w: World<T>) {
    Fresh(w.base) && forall j :: 0 <= j < |w.parts| ==> Unused(w.parts[j])
  }

  lemma StartInv<T>(w: World<T>)
    requires Start(w)
    ensures WorldInv(w)
  {
    forall j | 0 <= j < |w.parts|
      ensures Fitting(w, j) && View(w.parts[j]).places == [] && View(w.parts[j]) == w.base
    {
      assert Unused(w.parts[j]);
    }
  }

  ghost predicate Promise<T>(p: Part<T>) {
    match p
    case MutexPart(m) => M.Exclusive(m)
    case SemaphorePart(s) => S.Conserved(s, s.initial, s.sem.max)
    case QueuePart(q) => Q.Delivered(q) && Q.Awake(q)
    case EventPart(e) => E.Answered(e)
  }

  lemma PromiseKept<T>(p: Part<T>)
    requires PartInv(p)
    ensures Promise(p)
  {
    hide M.Inv, S.Inv, Q.Inv, E.Inv, M.Exclusive, S.Conserved, Q.Delivered, Q.Awake, E.Answered;
    match p
    case MutexPart(m) => M.InvIsExclusive(m);
    case SemaphorePart(s) => S.InvConserves(s);
    case QueuePart(q) =>
      Q.InvDelivers(q);
      Q.InvIsAwake(q);
    case EventPart(e) => E.InvAnswers(e);
  }

  lemma {:induction false} StaysAlike<T>(w: World<T>, hs: seq<Happening<T>>, j: nat)
    requires WorldInv(w) && WorldLegal(w, hs) && j < |w.parts|
    ensures Alike(w.parts[j], WorldRun(w, hs).parts[j])
    decreases hs
  {
    hide WorldInv, WorldCan, Seen, NextPart;
    if hs != [] {
      StaysAlike(After(w, hs[0]), hs[1..], j);
    }
  }

  /** Any number of objects of all four kinds on one scheduler: in every run each mutex excludes, each semaphore conserves
      its units, each queue delivers in order with nobody sleeping in vain, each event group leaves nobody waiting for
      flags that are set, and the task table is consistent. */
  lemma EveryPromiseHoldsAtOnce<T>(w: World<T>, hs: seq<Happening<T>>, j: nat)
    requires Start(w) && j < |w.parts|
    ensures WorldInv(w)
    ensures WorldLegal(w, hs) ==>
              var w1 := WorldRun(w, hs);
              Alike(w.parts[j], w1.parts[j]) && Promise(w1.parts[j]) && Consistent(w1.base.k) && View(w1.parts[j]).k == w1.base.k
  {
    hide Start, WorldLegal, Promise, PartInv, Alike, Consistent, View;
    StartInv(w);
    if WorldLegal(w, hs) {
      StaysAlike(w, hs, j);
      InvFits(WorldRun(w, hs), j);
      PromiseKept(WorldRun(w, hs).parts[j]);
    }
  }

  /** A delay takes exactly its ticks in every run of the program without injected time, whatever objects are used. */
  lemma DelaysAreExact<T>(w: World<T>, d: nat, hs: seq<Happening<T>>)
    requires WorldInv(w) && !w.base.ticked && WorldCan(w, Plain(Sleep(d)))
    requires WorldLegal(After(w, Plain(Sleep(d))), hs)
    ensures var w1 := After(w, Plain(Sleep(d))); var acts := AllSeen(w1, hs); var r := WorldRun(w1, hs);
            && SystemInv(w1.base) && Legal(w1.base, acts)
            && (Away(w1.base, acts, w.base.k.current) && NoInjectedTicks(acts) && r.base.k.current == w.base.k.current ==>
                  r.base.k.tick == w.base.k.tick + d)
  {
    hide Fitting, Beside, WorldLegal, WorldRun, AllSeen, View, SystemInv, Step, Can, Away, NoInjectedTicks, Run, Legal, Next;
    var w1 := After(w, Plain(Sleep(d)));
    var acts := AllSeen(w1, hs);
    OneStep(w.base, Sleep(d));
    SchedulerSeesARun(w1, hs);
    if Away(w1.base, acts, w.base.k.current) && NoInjectedTicks(acts) { ZeroJitter(w.base, d, acts); }
  }
}
