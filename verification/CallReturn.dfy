/** Subroutine calls: BL, a stack frame pushed and popped, and the return to the caller. */
module CallReturn {
  import opened MemoryMap
  import opened Cpu
  import opened Running

  // ---- The call ----

  function UpperHalf(d: int): Instr { 0xF000 + d / 0x1000 % 0x800 }

  function LowerHalf(d: int): Instr { 0xF800 + d / 2 % 0x800 }

  lemma DecodeBlUpper(s: State, d: int)
    requires -0x40_0000 <= d < 0x40_0000
    ensures Execute(s, UpperHalf(d)) == s.(blOffset := Sum(s.regs[PC], 2 + 0x1000 * (d / 0x1000)))
  {
    assert Pow2(0) == 1 && Pow2(10) == 0x400 && Pow2(11) == 0x800;
    assert Field(UpperHalf(d), 0, 11) == d / 0x1000 % 0x800;
  }

  lemma DecodeBlLower(s: State, d: int)
    ensures Execute(s, LowerHalf(d)) ==
            SetPC(SetReg(s, LR, SetBit0(s.regs[PC])), Sum(s.blOffset, 2 * (d / 2 % 0x800)))
  {
    assert Pow2(0) == 1 && Pow2(11) == 0x800;
    assert Field(LowerHalf(d), 0, 11) == d / 2 % 0x800;
  }

  lemma SumTwice(x: u32, a: int, b: int)
    ensures Sum(Sum(x, a), b) == Sum(x, a + b)
  {
  }

  lemma EvenSum(a: u32, x: int)
    requires a % 2 == 0 && x % 2 == 0
    ensures Sum(a, x) % 2 == 0 && SetBit0(Sum(a, x)) == Sum(a, x + 1)
  {
    var k, r := (a + x) / TWO32, (a + x) % TWO32;
    assert r == 2 * (a / 2 + x / 2 - 0x8000_0000 * k);
    Remainder(a + x + 1, k, r + 1);
  }

  /** The first half: the link offset is prepared. */
  lemma FirstHalf(s: State, d: int)
    requires Going(s) && -0x40_0000 <= d < 0x40_0000
    requires Accessible(s.regs[PC], 2) && Half(s.mem, Flat(s.regs[PC])) == UpperHalf(d)
    ensures Step(s) == s.(regs := s.regs[PC := Sum(s.regs[PC], 2)], cycles := s.cycles + 1,
                          blOffset := Sum(s.regs[PC], 4 + 0x1000 * (d / 0x1000)))
  {
    hide Execute, Sum;
    DecodeBlUpper(SetReg(s, PC, Sum(s.regs[PC], 2)), d);
    SumTwice(s.regs[PC], 2, 2 + 0x1000 * (d / 0x1000));
  }

  lemma SecondHalf(s: State, d: int)
    requires Going(s) && s.regs[PC] % 2 == 0
    requires Accessible(s.regs[PC], 2) && Half(s.mem, Flat(s.regs[PC])) == LowerHalf(d)
    ensures Step(s) == s.(regs := s.regs[LR := Sum(s.regs[PC], 3)][PC := ClearBit0(Sum(s.blOffset, 2 * (d / 2 % 0x800)))],
                          cycles := s.cycles + 1)
  {
    hide Execute, Sum, ClearBit0;
    DecodeBlLower(SetReg(s, PC, Sum(s.regs[PC], 2)), d);
    EvenSum(s.regs[PC], 2);
    var s1 := SetReg(s, PC, Sum(s.regs[PC], 2));
    assert s1.regs[LR := Sum(s.regs[PC], 3)][PC := ClearBit0(Sum(s.blOffset, 2 * (d / 2 % 0x800)))]
        == s.regs[LR := Sum(s.regs[PC], 3)][PC := ClearBit0(Sum(s.blOffset, 2 * (d / 2 % 0x800)))];
  }

  lemma OffsetParts(d: int)
    requires d % 2 == 0
    ensures 0x1000 * (d / 0x1000) + 2 * (d / 2 % 0x800) == d
  {
  }

  /** BL at an even address A reaches A + 4 + d modulo 2^32 with LR = (A + 4) | 1, for every even offset d that
      the encoding can hold. */
  lemma BranchWithLink(s: State, d: int)
    requires Going(s) && s.regs[PC] % 2 == 0 && d % 2 == 0 && -0x40_0000 <= d < 0x40_0000
    requires Accessible(s.regs[PC], 2) && Half(s.mem, Flat(s.regs[PC])) == UpperHalf(d)
    requires Accessible(Sum(s.regs[PC], 2), 2) && Half(s.mem, Flat(Sum(s.regs[PC], 2))) == LowerHalf(d)
    ensures var s1 := Steps(s, 2);
            && Going(s1) && s1.mem == s.mem && s1.flags == s.flags && s1.cycles == s.cycles + 2
            && s1.regs[PC] == Sum(s.regs[PC], 4 + d)
            && s1.regs[LR] == Sum(s.regs[PC], 5)
            && forall i :: 0 <= i < LR ==> s1.regs[i] == s.regs[i]
  {
    hide Step, Sum, UpperHalf, LowerHalf, Accessible, Half, Flat;
    var a := s.regs[PC];
    FirstHalf(s, d);
    EvenSum(a, 2);
    SecondHalf(Step(s), d);
    SumTwice(a, 2, 3);
    SumTwice(a, 4 + 0x1000 * (d / 0x1000), 2 * (d / 2 % 0x800));
    OffsetParts(d);
    EvenSum(a, 4 + d);
    assert Steps(s, 2) == Steps(Step(s), 1);
  }

  // ---- The frame ----

  /** How many registers below `i` are on the list. */
  function Below(list: nat, i: nat): nat {
    if i == 0 then 0 else Below(list, i - 1) + if Bit(list, i - 1) then 1 else 0
  }

  lemma {:induction false} BelowGrows(list: nat, i: nat, j: nat)
    requires i <= j
    ensures Below(list, i) <= Below(list, j)
    ensures i < j && Bit(list, i) ==> Below(list, i) < Below(list, j)
    decreases j
  {
    if i < j { BelowGrows(list, i, j - 1); }
  }

  /** The words below the stack pointer that a push of `words` words writes can all be accessed. */
  predicate MappedStack(sp: u32, words: nat) {
    forall n :: 1 <= n <= words ==> Accessible(Sum(sp, -4 * n), 4)
  }

  /** ... and lie one above the other from index `base` on. */
  ghost predicate Window(sp: u32, words: nat, base: nat) {
    forall n :: 1 <= n <= words ==>
      Accessible(Sum(sp, -4 * n), 4) && Flat(Sum(sp, -4 * n)) == base + 4 * (words - n)
  }

  /** The `words` words from the stack pointer upwards lie at `base` and after. */
  ghost predicate Frame(sp: u32, words: nat, base: nat) {
    forall n :: 0 <= n < words ==> Accessible(Sum(sp, 4 * n), 4) && Flat(Sum(sp, 4 * n)) == base + 4 * n
  }

  lemma NextWordDown(a: u32)
    requires Accessible(a, 4) && Accessible(Sum(a, -4), 4)
    ensures Flat(Sum(a, -4)) == Flat(a) - 4
  {
  }

  lemma {:induction false} MappedStackIsWindow(sp: u32, words: nat)
    requires MappedStack(sp, words) && words > 0
    ensures Window(sp, words, Flat(Sum(sp, -4 * words)))
    decreases words
  {
    if words > 1 {
      var w := words - 1;
      MappedStackIsWindow(sp, w);
      SumTwice(sp, -4 * w, -4);
      assert Accessible(Sum(sp, -4 * w), 4) && Accessible(Sum(sp, -4 * words), 4);
      NextWordDown(Sum(sp, -4 * w));
      forall n | 1 <= n <= words
        ensures Accessible(Sum(sp, -4 * n), 4)
        ensures Flat(Sum(sp, -4 * n)) == Flat(Sum(sp, -4 * words)) + 4 * (words - n)
      {
        if n < words { assert Flat(Sum(sp, -4 * n)) == Flat(Sum(sp, -4 * w)) + 4 * (w - n); }
      }
    }
  }

  lemma WindowBelow(sp: u32, words: nat, base: nat)
    requires words > 0 && Window(sp, words, base)
    ensures Window(Sum(sp, -4), words - 1, base)
  {
    forall n | 1 <= n <= words - 1
      ensures Accessible(Sum(Sum(sp, -4), -4 * n), 4)
      ensures Flat(Sum(Sum(sp, -4), -4 * n)) == base + 4 * (words - 1 - n)
    {
      var m := n + 1;
      SumTwice(sp, -4, -4 * n);
      assert Accessible(Sum(sp, -4 * m), 4) && Flat(Sum(sp, -4 * m)) == base + 4 * (words - m);
    }
  }

  lemma WindowIsFrame(sp: u32, words: nat, base: nat)
    requires Window(sp, words, base)
    ensures Frame(Sum(sp, -4 * words), words, base)
  {
    forall n | 0 <= n < words
      ensures Accessible(Sum(Sum(sp, -4 * words), 4 * n), 4)
      ensures Flat(Sum(Sum(sp, -4 * words), 4 * n)) == base + 4 * n
    {
      var m := words - n;
      SumTwice(sp, -4 * words, 4 * n);
      assert Accessible(Sum(sp, -4 * m), 4) && Flat(Sum(sp, -4 * m)) == base + 4 * (words - m);
    }
  }

  lemma FrameAbove(sp: u32, words: nat, base: nat)
    requires words > 0 && Frame(sp, words, base)
    ensures Frame(Sum(sp, 4), words - 1, base + 4)
  {
    forall n | 0 <= n < words - 1
      ensures Accessible(Sum(Sum(sp, 4), 4 * n), 4) && Flat(Sum(Sum(sp, 4), 4 * n)) == base + 4 + 4 * n
    {
      SumTwice(sp, 4, 4 * n);
      assert 4 + 4 * n == 4 * (n + 1);
    }
  }

  // ---- Pushing ----

  /** What pushing the registers below `i` of the list leaves: each in its slot, no other byte changed. */
  ghost predicate Pushed(s: State, s1: State, list: nat, i: nat, base: nat)
    requires i <= 8 && base + 4 * Below(list, i) <= SIZE
  {
    && s1 == s.(mem := s1.mem, regs := s.regs[SP := Sum(s.regs[SP], -4 * Below(list, i))])
    && (forall f :: 0 <= f < SIZE && !(base <= f < base + 4 * Below(list, i)) ==> s1.mem[f] == s.mem[f])
    && (forall k :: 0 <= k < i && Bit(list, k) ==>
          Below(list, k) < Below(list, i) && Word(s1.mem, base + 4 * Below(list, k)) == s.regs[k])
  }

  lemma PushWordSpec(s: State, v: u32, words: nat, base: nat)
    requires s.fault == NoFault && words > 0 && Window(s.regs[SP], words, base)
    ensures base + 4 * words <= SIZE
    ensures PushWord(s, v) == s.(regs := s.regs[SP := Sum(s.regs[SP], -4)], mem := PutWord(s.mem, base + 4 * (words - 1), v))
  {
    assert Accessible(Sum(s.regs[SP], -4 * 1), 4);
  }

  lemma PushedOneMore(s: State, s1: State, s2: State, list: nat, i: nat, base: nat)
    requires i < 8 && Bit(list, i) && base + 4 * Below(list, i + 1) <= SIZE
    requires s1 == s.(regs := s.regs[SP := Sum(s.regs[SP], -4)], mem := PutWord(s.mem, base + 4 * Below(list, i), s.regs[i]))
    requires Pushed(s1, s2, list, i, base)
    ensures Pushed(s, s2, list, i + 1, base)
  {
    hide Bit, PutWord, Word, Sum;
    var below: int := Below(list, i);
    WordRoundTrip(s.mem, base + 4 * below, s.regs[i]);
    SameWord(s1.mem, s2.mem, base + 4 * below);
    SumTwice(s.regs[SP], -4, -4 * below);
    assert s2.regs == s.regs[SP := Sum(s.regs[SP], -4 * Below(list, i + 1))];
  }

  lemma {:induction false} PushListSpec(s: State, list: nat, i: nat, base: nat)
    requires i <= 8 && s.fault == NoFault && Window(s.regs[SP], Below(list, i), base)
    requires base + 4 * Below(list, i) <= SIZE
    ensures Pushed(s, PushList(s, list, i), list, i, base)
    decreases i
  {
    hide PushWord, Bit, PutWord, Word, Sum, Window, Pushed;
    if i == 0 {
      NothingPushed(s, list, base);
    } else if Bit(list, i - 1) {
      PushWordSpec(s, s.regs[i - 1], Below(list, i), base);
      WindowBelow(s.regs[SP], Below(list, i), base);
      var s1 := PushWord(s, s.regs[i - 1]);
      PushListSpec(s1, list, i - 1, base);
      PushedOneMore(s, s1, PushList(s, list, i), list, i - 1, base);
    } else {
      PushListSpec(s, list, i - 1, base);
      PushedNotListed(s, PushList(s, list, i), list, i - 1, base);
    }
  }

  lemma NothingPushed(s: State, list: nat, base: nat)
    requires base <= SIZE
    ensures Pushed(s, s, list, 0, base)
  {
    assert s.regs[SP := s.regs[SP]] == s.regs;
  }

  lemma PushedNotListed(s: State, s1: State, list: nat, i: nat, base: nat)
    requires i < 8 && !Bit(list, i) && base + 4 * Below(list, i) <= SIZE && Pushed(s, s1, list, i, base)
    ensures Pushed(s, s1, list, i + 1, base)
  {
    hide Bit, Word, Sum;
  }

  lemma SameWord(m: Bytes, m1: Bytes, f: nat)
    requires f + 4 <= SIZE && forall i :: f <= i < f + 4 ==> m1[i] == m[i]
    ensures Word(m1, f) == Word(m, f)
  {
  }

  // ---- Popping ----

  /** What popping the registers from `i` on leaves, with register `k` read from its slot. */
  ghost predicate Popped(s: State, s1: State, list: nat, i: nat, base: nat)
    requires base + 4 * Below(list, 8) <= SIZE
  {
    && s1 == s.(regs := s1.regs)
    && s1.regs[SP] == Sum(s.regs[SP], 4 * (Below(list, 8) - Below(list, i)))
    && (forall k :: i <= k < 8 && Bit(list, k) ==>
          Below(list, k) < Below(list, 8) && s1.regs[k] == Word(s.mem, base + 4 * Below(list, k)))
    && (forall k :: 0 <= k < 16 && k != SP && !(i <= k < 8 && Bit(list, k)) ==> s1.regs[k] == s.regs[k])
  }

  lemma PopWordSpec(s: State, r: nat, words: nat, base: nat)
    requires r < 8 && s.fault == NoFault && words > 0 && Frame(s.regs[SP], words, base)
    ensures base + 4 <= SIZE
    ensures PopWord(s, r) == s.(regs := s.regs[r := Word(s.mem, base)][SP := Sum(s.regs[SP], 4)])
  {
    assert Accessible(Sum(s.regs[SP], 4 * 0), 4);
  }

  lemma PoppedOneMore(s: State, s1: State, s2: State, list: nat, i: nat, base: nat)
    requires i < 8 && Bit(list, i) && Below(list, i) < Below(list, 8) && base + 4 * Below(list, 8) <= SIZE
    requires s1 == s.(regs := s.regs[i := Word(s.mem, base + 4 * Below(list, i))][SP := Sum(s.regs[SP], 4)])
    requires Popped(s1, s2, list, i + 1, base)
    ensures Popped(s, s2, list, i, base)
  {
    hide Bit, Word, Sum;
    var left := Below(list, 8) - Below(list, i + 1);
    SumTwice(s.regs[SP], 4, 4 * left);
  }

  lemma {:induction false} PopListSpec(s: State, list: nat, i: nat, base: nat)
    requires i <= 8 && s.fault == NoFault && Below(list, i) <= Below(list, 8)
    requires Frame(s.regs[SP], Below(list, 8) - Below(list, i), base + 4 * Below(list, i))
    requires base + 4 * Below(list, 8) <= SIZE
    ensures Popped(s, PopList(s, list, i), list, i, base)
    decreases 8 - i
  {
    hide Bit, Word, Sum, PopWord, Frame, Popped;
    if i == 8 {
      NothingPopped(s, list, base);
    } else {
      BelowGrows(list, i, 8);
      BelowGrows(list, i + 1, 8);
      if Bit(list, i) {
        var words := Below(list, 8) - Below(list, i);
        PopWordSpec(s, i, words, base + 4 * Below(list, i));
        FrameAbove(s.regs[SP], words, base + 4 * Below(list, i));
        var s1 := PopWord(s, i);
        PopListSpec(s1, list, i + 1, base);
        PoppedOneMore(s, s1, PopList(s, list, i), list, i, base);
      } else {
        PopListSpec(s, list, i + 1, base);
        PoppedNotListed(s, PopList(s, list, i), list, i, base);
      }
    }
  }

  lemma NothingPopped(s: State, list: nat, base: nat)
    requires base + 4 * Below(list, 8) <= SIZE
    ensures Popped(s, s, list, 8, base)
  {
  }

  lemma PoppedNotListed(s: State, s1: State, list: nat, i: nat, base: nat)
    requires i < 8 && !Bit(list, i) && base + 4 * Below(list, 8) <= SIZE && Popped(s, s1, list, i + 1, base)
    ensures Popped(s, s1, list, i, base)
  {
    hide Bit, Word, Sum;
  }

  // ---- The round trip ----

  /** The number of words in the frame of a callee that saves the list and LR. */
  function FrameWords(list: nat): (w: nat)
    ensures w > 0
  {
    Below(list, 8) + 1
  }

  /** Where the frame below stack pointer `sp` starts in memory. */
  function FrameBase(sp: u32, list: nat): nat {
    var bottom := Sum(sp, -4 * FrameWords(list));
    if Mapped(bottom) then Flat(bottom) else 0
  }

  ghost predicate InFrame(f: nat, sp: u32, list: nat) {
    FrameBase(sp, list) <= f < FrameBase(sp, list) + 4 * FrameWords(list)
  }

  /** PUSH {list, LR} writes each register into its slot of the frame below the stack pointer, LR on top, and
      changes no byte outside the frame. */
  lemma PushFrame(s: State, list: nat)
    requires Going(s) && MappedStack(s.regs[SP], FrameWords(list))
    ensures var words, base, s1 := FrameWords(list), FrameBase(s.regs[SP], list), Push(s, list, true);
            && base + 4 * words <= SIZE && Window(s.regs[SP], words, base)
            && s1 == s.(mem := s1.mem, regs := s.regs[SP := Sum(s.regs[SP], -4 * words)])
            && (forall f: nat :: f < SIZE && !InFrame(f, s.regs[SP], list) ==> s1.mem[f] == s.mem[f])
            && (forall k :: 0 <= k < 8 && Bit(list, k) ==>
                  Below(list, k) < words - 1 && Word(s1.mem, base + 4 * Below(list, k)) == s.regs[k])
            && Word(s1.mem, base + 4 * (words - 1)) == s.regs[LR]
  {
    hide Bit, PutWord, Word, PushList, PushWord, Sum, Below, Window, MappedStack;
    var sp, words, base := s.regs[SP], FrameWords(list), FrameBase(s.regs[SP], list);
    BottomIsMapped(sp, words);
    MappedStackIsWindow(sp, words);
    PushWordSpec(s, s.regs[LR], words, base);
    WordRoundTrip(s.mem, base + 4 * (words - 1), s.regs[LR]);
    WindowBelow(sp, words, base);
    var s0 := PushWord(s, s.regs[LR]);
    PushListSpec(s0, list, 8, base);
    SumTwice(sp, -4, -4 * Below(list, 8));
    SameWord(s0.mem, Push(s, list, true).mem, base + 4 * (words - 1));
  }

  lemma BottomIsMapped(sp: u32, words: nat)
    requires words > 0 && MappedStack(sp, words)
    ensures Accessible(Sum(sp, -4 * words), 4)
  {
  }

  /** What the body of a callee may do: anything that leaves the stack pointer and the frame as they are. */
  ghost predicate BodyKeepsFrame(pushed: State, body: State, sp: u32, list: nat) {
    && Going(body) && body.regs[SP] == pushed.regs[SP]
    && forall f: nat :: f < SIZE && InFrame(f, sp, list) ==> body.mem[f] == pushed.mem[f]
  }

  /** Back in the caller: the processor is going at the return address, stack pointer and saved registers have
      the values from the time `s` of the call, everything else is as the body left it. */
  ghost predicate Returned(s: State, body: State, r: State, list: nat) {
    && r == body.(regs := r.regs) && Going(r)
    && r.regs[PC] == ClearBit0(s.regs[LR]) && r.regs[SP] == s.regs[SP]
    && (forall k :: 0 <= k < 8 && Bit(list, k) ==> r.regs[k] == s.regs[k])
    && (forall k :: 0 <= k < PC && k != SP && !(k < 8 && Bit(list, k)) ==> r.regs[k] == body.regs[k])
  }

  /** A callee that pushes a register list and LR, runs a body that keeps the frame, and pops the list and PC
      returns to its caller with the saved registers restored. */
  lemma PushPopReturns(s: State, list: nat, body: State)
    requires Going(s) && MappedStack(s.regs[SP], FrameWords(list)) && s.regs[LR] % 2 == 1
    requires BodyKeepsFrame(Push(s, list, true), body, s.regs[SP], list)
    ensures Returned(s, body, Pop(body, list, true), list)
  {
    hide Bit, Word, PushList, PopList, Push, Sum, Below, Window, Frame;
    var sp, base := s.regs[SP], FrameBase(s.regs[SP], list);
    var words: int := FrameWords(list);
    var pushed := Push(s, list, true);
    PushFrame(s, list);
    WindowIsFrame(sp, words, base);
    FrameTop(body.regs[SP], words, base);
    EmptyBelow(list);
    PopListSpec(body, list, 0, base);
    var popped := PopList(body, list, 0);
    forall k | 0 <= k < 8 && Bit(list, k)
      ensures popped.regs[k] == s.regs[k]
    {
      SameWord(pushed.mem, body.mem, base + 4 * Below(list, k));
    }
    SameWord(pushed.mem, body.mem, base + 4 * (words - 1));
    SumTwice(sp, -4 * words, 4 * (words - 1));
    SumTwice(sp, -4, 4);
    SumZero(sp);
  }

  lemma SumZero(x: u32)
    ensures Sum(x, 0) == x
  {
  }

  lemma EmptyBelow(list: nat)
    ensures Below(list, 0) == 0
  {
  }

  /** The top word of a frame, and the frame without it. */
  lemma FrameTop(sp: u32, words: nat, base: nat)
    requires words > 0 && Frame(sp, words, base)
    ensures Accessible(Sum(sp, 4 * (words - 1)), 4) && Flat(Sum(sp, 4 * (words - 1))) == base + 4 * (words - 1)
    ensures Frame(sp, words - 1, base)
  {
  }

  /** The frame is writable exactly when the push does not fault. */
  lemma {:induction false} PushListFaultFree(s: State, list: nat, i: nat)
    requires i <= 8 && s.fault == NoFault
    ensures PushList(s, list, i).fault == NoFault ==> MappedStack(s.regs[SP], Below(list, i))
    decreases i
  {
    hide Bit, PutWord;
    if i > 0 {
      if Bit(list, i - 1) {
        var s1 := PushWord(s, s.regs[i - 1]);
        if s1.fault == NoFault {
          PushListFaultFree(s1, list, i - 1);
          StackGrows(s.regs[SP], Below(list, i - 1));
        } else {
          FaultStays(s1, list, i - 1);
        }
      } else {
        PushListFaultFree(s, list, i - 1);
      }
    }
  }

  lemma StackGrows(sp: u32, words: nat)
    requires Accessible(Sum(sp, -4), 4)
    ensures MappedStack(Sum(sp, -4), words) ==> MappedStack(sp, words + 1)
  {
    if MappedStack(Sum(sp, -4), words) {
      forall n | 1 <= n <= words + 1
        ensures Accessible(Sum(sp, -4 * n), 4)
      {
        if n > 1 { SumTwice(sp, -4, -4 * (n - 1)); assert Accessible(Sum(Sum(sp, -4), -4 * (n - 1)), 4); }
      }
    }
  }

  lemma PushFaultsOnlyUnmapped(s: State, list: nat)
    requires Going(s)
    ensures Push(s, list, true).fault == NoFault <==> MappedStack(s.regs[SP], FrameWords(list))
  {
    hide Bit, PutWord, PushList;
    if MappedStack(s.regs[SP], FrameWords(list)) {
      PushFrame(s, list);
    } else {
      var s0 := PushWord(s, s.regs[LR]);
      if s0.fault == NoFault {
        PushListFaultFree(s0, list, 8);
        StackGrows(s.regs[SP], Below(list, 8));
      } else {
        FaultStays(s0, list, 8);
      }
    }
  }

  lemma FaultStays(s: State, list: nat, i: nat)
    requires s.fault != NoFault && i <= 8
    ensures PushList(s, list, i) == s
  {
  }

  // ---- The whole call, instruction by instruction ----

  const PUSH_LR := 0xB500
  const POP_PC := 0xBD00

  lemma DecodePush(s: State, list: nat)
    requires list < 0x100
    ensures Execute(s, PUSH_LR + list) == Push(s, list, true)
    ensures Execute(s, POP_PC + list) == Pop(s, list, true)
  {
    hide Push, Pop;
    assert Pow2(0) == 1 && Pow2(1) == 2 && Pow2(8) == 0x100 && Pow2(11) == 0x800;
  }

  /** The instruction at the program counter. */
  predicate Fetches(s: State, instr: Instr) {
    Going(s) && Accessible(s.regs[PC], 2) && Half(s.mem, Flat(s.regs[PC])) == instr
  }

  lemma StepPush(s: State, list: nat)
    requires list < 0x100 && Fetches(s, PUSH_LR + list) && MappedStack(s.regs[SP], FrameWords(list))
    ensures var s1 := SetReg(s, PC, Sum(s.regs[PC], 2));
            Step(s) == Push(s1, list, true).(cycles := s.cycles + 1)
  {
    hide Execute, Push, Sum, Below;
    var s1 := SetReg(s, PC, Sum(s.regs[PC], 2));
    DecodePush(s1, list);
    PushFrame(s1, list);
  }

  lemma StepPop(s: State, list: nat)
    requires list < 0x100 && Fetches(s, POP_PC + list)
    requires Going(Pop(SetReg(s, PC, Sum(s.regs[PC], 2)), list, true))
    ensures Step(s) == var r := Pop(SetReg(s, PC, Sum(s.regs[PC], 2)), list, true); r.(cycles := r.cycles + 1)
  {
    hide Execute, Pop, Sum;
    DecodePush(SetReg(s, PC, Sum(s.regs[PC], 2)), list);
  }

  /** BL to a callee that starts with PUSH {list, LR}, a body that keeps the frame, and POP {list, PC}: the
      caller goes on behind the BL, at A + 4, with its stack pointer and every saved register as before. */
  lemma CallReturnsToCaller(s: State, d: int, list: nat, body: State)
    requires Going(s) && s.regs[PC] % 2 == 0 && d % 2 == 0 && -0x40_0000 <= d < 0x40_0000 && list < 0x100
    requires Fetches(s, UpperHalf(d))
    requires Accessible(Sum(s.regs[PC], 2), 2) && Half(s.mem, Flat(Sum(s.regs[PC], 2))) == LowerHalf(d)
    requires Fetches(Steps(s, 2), PUSH_LR + list) && MappedStack(s.regs[SP], FrameWords(list))
    requires BodyKeepsFrame(Steps(s, 3), body, s.regs[SP], list) && Fetches(body, POP_PC + list)
    ensures var r := Step(body);
            && Going(r) && r.regs[PC] == Sum(s.regs[PC], 4) && r.regs[SP] == s.regs[SP] && r.mem == body.mem
            && (forall k :: 0 <= k < 8 && Bit(list, k) ==> r.regs[k] == s.regs[k])
  {
    hide Step, Push, Pop, Sum, Below, Bit, UpperHalf, LowerHalf, MappedStack, InFrame, Half, Accessible, Flat;
    BranchWithLink(s, d);
    var entry := Steps(s, 2);
    StepsAdd(s, 2, 1);
    assert Steps(entry, 1) == Step(entry);
    StepPush(entry, list);
    var s1 := SetReg(entry, PC, Sum(entry.regs[PC], 2));
    var b1 := SetReg(body, PC, Sum(body.regs[PC], 2));
    EvenSum(s.regs[PC], 4);
    PushPopReturns(s1, list, b1);
    StepPop(body, list);
  }
}
