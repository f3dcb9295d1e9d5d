/** Several synchronisation objects on one scheduler. Each object is studied with a view of the system in which its own
    blocking calls are places and those of all others are `Elsewhere`. This module relates such views: what one object
    does to the system is, in the view of any other, a list of actions that the run theorems allow for. */
module Sharing {
  import opened KernelCalls
  import opened Runs
  import opened SchedulerRuns

  // ---- Views without the operations ----

  function ShapeOf<O>(p: Place<O>): Place<()> {
    match p
    case Free => Free
    case Sleeping(u) => Sleeping(u)
    case Elsewhere => Elsewhere
    case At(_) => At(())
  }

  /** The system without the operations that tasks wait in. */
  function Shape<O>(s: System<O>): (v: System<()>)
    ensures |v.places| == |s.places| && v.k == s.k
  {
    System(s.k, seq(|s.places|, i requires 0 <= i < |s.places| => ShapeOf(s.places[i])), s.ticked)
  }

  lemma ShapeKeeps<O>(s: System<O>)
    requires SystemInv(s)
    ensures SystemInv(Shape(s))
  {
    forall i | 0 <= i < |s.places|
      ensures Agree(s.k.tasks[i], Shape(s).places[i], s.k.tick, s.ticked)
    {
      assert Agree(s.k.tasks[i], s.places[i], s.k.tick, s.ticked);
    }
  }

  lemma ShapeSteps<O>(s: System<O>, a: Action)
    requires SystemInv(s)
    ensures Can(Shape(s), a) <==> Can(s, a)
    ensures Can(s, a) ==> SystemInv(Shape(s)) && Shape(Step(s, a)) == Step(Shape(s), a)
  {
    hide Delay, Suspend, Delete, Resume, BlockCurrent, Unblock, Tick, Start, Create;
    ShapeKeeps(s);
    if Can(s, a) { assert Shape(Step(s, a)).places == Step(Shape(s), a).places; }
  }

  // ---- What an object does to the system ----

  /** The running task blocks in the object, or goes back to its own code; or a task BLOCKED in it is woken. */
  datatype Move = Enter | Return | Wake(t: nat)

  ghost predicate MoveOk(v: System<()>, m: Move) {
    match m
    case Enter => Running(v)
    case Return => Returning(v)
    case Wake(t) => (Running(v) || Idle(v)) && Waits(v, t)
  }

  ghost function Moved(v: System<()>, m: Move): (r: System<()>)
    requires SystemInv(v) && MoveOk(v, m)
    ensures SystemInv(r)
  {
    match m
    case Enter =>
      BlockAtKeeps(v, ());
      BlockAt(v, ())
    case Return =>
      MoveKeeps(v, Free);
      MoveTo(v, Free)
    case Wake(t) =>
      UnblockKeeps(v, t);
      UnblockTask(v, t)
  }

  ghost predicate MovesOk(v: System<()>, ms: seq<Move>)
    requires SystemInv(v)
    decreases ms
  {
    ms == [] || (MoveOk(v, ms[0]) && MovesOk(Moved(v, ms[0]), ms[1..]))
  }

  ghost function MovedAll(v: System<()>, ms: seq<Move>): (r: System<()>)
    requires SystemInv(v) && MovesOk(v, ms)
    ensures SystemInv(r)
    decreases ms
  {
    if ms == [] then v else MovedAll(Moved(v, ms[0]), ms[1..])
  }

  lemma MoveFirst(v: System<()>, m: Move, rest: seq<Move>)
    requires SystemInv(v) && MoveOk(v, m) && MovesOk(Moved(v, m), rest)
    ensures MovesOk(v, [m] + rest) && MovedAll(v, [m] + rest) == MovedAll(Moved(v, m), rest)
  {
    hide SystemInv, Moved, MoveOk;
    assert ([m] + rest)[1..] == rest;
  }

  lemma NoneLeft(v: System<()>)
    requires SystemInv(v)
    ensures MovesOk(v, []) && MovedAll(v, []) == v
  {
  }

  /** `ms` are moves that `s` allows, and they lead to `s1`. */
  ghost predicate MovesTo<O>(s: System<O>, ms: seq<Move>, s1: System<O>) {
    SystemInv(Shape(s)) && MovesOk(Shape(s), ms) && MovedAll(Shape(s), ms) == Shape(s1)
  }

  lemma NoMove<O>(s: System<O>)
    requires SystemInv(s)
    ensures MovesTo(s, [], s)
  {
    ShapeKeeps(s);
  }

  lemma OneMove<O>(s: System<O>, m: Move, s1: System<O>)
    requires SystemInv(s) && SystemInv(Shape(s)) && MoveOk(Shape(s), m) && Moved(Shape(s), m) == Shape(s1)
    ensures MovesTo(s, [m], s1)
  {
    hide SystemInv, Moved, MoveOk, MovesOk, MovedAll, Shape;
    NoneLeft(Shape(s1));
    MoveFirst(Shape(s), m, []);
    assert [m] + [] == [m];
  }

  lemma Enters<O>(s: System<O>, op: O)
    requires SystemInv(s) && Running(s)
    ensures MovesTo(s, [Enter], BlockAt(s, op))
  {
    hide BlockCurrent, MovesTo;
    ShapeKeeps(s);
    assert BlockAt(Shape(s), ()).places == Shape(BlockAt(s, op)).places;
    OneMove(s, Enter, BlockAt(s, op));
  }

  lemma Returns<O>(s: System<O>)
    requires SystemInv(s) && Returning(s)
    ensures MovesTo(s, [Return], MoveTo(s, Free))
  {
    hide MovesTo;
    ShapeKeeps(s);
    assert MoveTo(Shape(s), Free).places == Shape(MoveTo(s, Free)).places;
    OneMove(s, Return, MoveTo(s, Free));
  }

  lemma Wakes<O>(s: System<O>, t: nat)
    requires SystemInv(s) && (Running(s) || Idle(s)) && Waits(s, t)
    ensures MovesTo(s, [Wake(t)], UnblockTask(s, t))
  {
    hide Unblock, MovesTo;
    ShapeKeeps(s);
    assert UnblockTask(Shape(s), t).places == Shape(UnblockTask(s, t)).places;
    OneMove(s, Wake(t), UnblockTask(s, t));
  }

  lemma {:induction false} MovesAppend(v: System<()>, ms: seq<Move>, more: seq<Move>)
    requires SystemInv(v) && MovesOk(v, ms) && MovesOk(MovedAll(v, ms), more)
    ensures MovesOk(v, ms + more) && MovedAll(v, ms + more) == MovedAll(MovedAll(v, ms), more)
    decreases ms
  {
    hide SystemInv, Moved, MoveOk;
    if ms == [] {
      assert ms + more == more;
    } else {
      MovesAppend(Moved(v, ms[0]), ms[1..], more);
      MoveFirst(v, ms[0], ms[1..] + more);
      assert [ms[0]] + (ms[1..] + more) == ms + more;
    }
  }

  lemma MovesThen<O>(s: System<O>, ms: seq<Move>, s1: System<O>, more: seq<Move>, s2: System<O>)
    requires MovesTo(s, ms, s1) && MovesTo(s1, more, s2)
    ensures MovesTo(s, ms + more, s2)
  {
    hide MovesOk, MovedAll, Shape;
    MovesAppend(Shape(s), ms, more);
  }

  /** A task that comes back from a wait and waits again. */
  lemma EntersAgain<O>(s: System<O>, op: O)
    requires SystemInv(s) && Returning(s)
    ensures MovesTo(s, [Return, Enter], BlockAt(s, op))
  {
    hide BlockCurrent, MovesTo;
    var s1 := MoveTo(s, Free);
    MoveKeeps(s, Free);
    Returns(s);
    Enters(s1, op);
    MovesThen(s, [Return], s1, [Enter], BlockAt(s1, op));
    assert BlockAt(s1, op) == BlockAt(s, op) by { assert BlockAt(s1, op).places == BlockAt(s, op).places; }
    assert [Return] + [Enter] == [Return, Enter];
  }

  // ---- How another object sees it ----

  function Image(m: Move): Action {
    match m
    case Enter => BlockElsewhere
    case Return => ReturnElsewhere
    case Wake(t) => UnblockElsewhere(t)
  }

  function Images(ms: seq<Move>): seq<Action>
    decreases ms
  {
    if ms == [] then [] else [Image(ms[0])] + Images(ms[1..])
  }

  /** Two places of one task, seen from two objects: inside at most one of them, and otherwise the same. */
  predicate Match(p: Place<()>, q: Place<()>) {
    match p
    case Free => q.Free?
    case Sleeping(u) => q == p
    case Elsewhere => q.Elsewhere? || q.At?
    case At(_) => q.Elsewhere?
  }

  ghost predicate Beside(a: System<()>, b: System<()>) {
    && a.k == b.k && a.ticked == b.ticked && |a.places| == |b.places|
    && forall i :: 0 <= i < |a.places| ==> Match(a.places[i], b.places[i])
  }

  /** An action that is nobody's call of a synchronisation object. */
  predicate Common(a: Action) { !a.BlockElsewhere? && !a.UnblockElsewhere? && !a.ReturnElsewhere? }

  lemma CommonForAll(a: System<()>, b: System<()>, act: Action)
    requires Beside(a, b) && Common(act) && Can(a, act)
    ensures Can(b, act)
  {
    if a.k.current < |a.places| { assert Match(a.places[a.k.current], b.places[b.k.current]); }
  }

  lemma StepBeside(a: System<()>, b: System<()>, act: Action)
    requires SystemInv(a) && SystemInv(b) && Beside(a, b) && Can(a, act) && Can(b, act)
    ensures Beside(Step(a, act), Step(b, act))
  {
    hide Delay, Suspend, Delete, Resume, BlockCurrent, Unblock, Tick, Start, Create;
    var a1, b1 := Step(a, act), Step(b, act);
    forall i | 0 <= i < |a1.places|
      ensures Match(a1.places[i], b1.places[i])
    {
      if i < |a.places| { assert Match(a.places[i], b.places[i]); }
    }
  }

  lemma MoveBeside(a: System<()>, b: System<()>, m: Move)
    requires SystemInv(a) && SystemInv(b) && Beside(a, b) && MoveOk(b, m)
    ensures Can(a, Image(m)) && Beside(Step(a, Image(m)), Moved(b, m))
  {
    hide BlockCurrent, Unblock;
    var x := if m.Wake? then m.t else a.k.current;
    assert Match(a.places[x], b.places[x]);
    var a1, b1 := Step(a, Image(m)), Moved(b, m);
    forall i | 0 <= i < |a1.places|
      ensures Match(a1.places[i], b1.places[i])
    {
      assert Match(a.places[i], b.places[i]);
    }
  }

  /** Whatever an object does, every other object sees a legal run of actions, and the views still fit. */
  lemma {:induction false} MovesAreLegal(a: System<()>, b: System<()>, ms: seq<Move>)
    requires SystemInv(a) && SystemInv(b) && Beside(a, b) && MovesOk(b, ms)
    ensures Legal(a, Images(ms)) && Beside(Run(a, Images(ms)), MovedAll(b, ms))
    decreases ms
  {
    hide Step, Can, Moved, Beside;
    if ms != [] {
      MoveBeside(a, b, ms[0]);
      StepKeeps(a, Image(ms[0]));
      assert Images(ms)[1..] == Images(ms[1..]);
      MovesAreLegal(Next(a, Image(ms[0])), Moved(b, ms[0]), ms[1..]);
    }
  }

  lemma {:induction false} RunBeside(a: System<()>, b: System<()>, acts: seq<Action>)
    requires SystemInv(a) && SystemInv(b) && Beside(a, b) && Legal(a, acts) && Legal(b, acts)
    ensures Beside(Run(a, acts), Run(b, acts))
    decreases acts
  {
    hide Step, Can, Beside;
    if acts != [] {
      StepBeside(a, b, acts[0]);
      RunBeside(Next(a, acts[0]), Next(b, acts[0]), acts[1..]);
    }
  }
}
