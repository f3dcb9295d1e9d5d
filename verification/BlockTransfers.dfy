/** STM, LDM, PUSH and POP as single words moved in order: to or from which address each register goes, where the
    transfer stops at an address that cannot be accessed, and what the base register is then. */
module BlockTransfers {
  import opened MemoryMap
  import opened Cpu
  import opened Bits
  import opened Instructions
  import opened MemoryInstructions

  /** The listed registers from `i` up, in ascending order. */
  function Listed(list: nat, i: nat): seq<nat>
    requires i <= 8
    decreases 8 - i
  {
    if i == 8 then [] else if On(list, i) then [i] + Listed(list, i + 1) else Listed(list, i + 1)
  }

  /** The listed registers below `i`, in descending order. */
  function ListedDown(list: nat, i: nat): seq<nat>
    requires i <= 8
  {
    if i == 0 then [] else if On(list, i - 1) then [i - 1] + ListedDown(list, i - 1) else ListedDown(list, i - 1)
  }

  /** A word stored low byte first; every other byte stays. */
  function WordStored(m: Bytes, at: u32, v: u32): (m1: Bytes)
    requires Reaches(at, 4)
  {
    var i := IndexOf(at);
    m[i := ByteOf(v, 0)][i + 1 := ByteOf(v, 1)][i + 2 := ByteOf(v, 2)][i + 3 := ByteOf(v, 3)]
  }

  function WordAt(m: Bytes, at: u32): (v: u32) {
    LittleFits(m, IndexOf(at));
    Little(m, IndexOf(at), 4)
  }

  lemma LittleFits(m: Bytes, i: int)
    ensures 0 <= Little(m, i, 4) < TWO32
  {
  }

  function Value(regs: Registers, r: nat): u32 { if r < 16 then regs[r] else 0 }

  /** Registers stored one after the other at addresses `step` apart, up to the first that cannot be accessed: the
      memory, and how many. */
  function StoreAll(m: Bytes, regs: Registers, rs: seq<nat>, at: u32, step: int): (r: (Bytes, nat))
    ensures r.1 <= |rs|
    decreases rs
  {
    if rs == [] || !Reaches(at, 4) then (m, 0)
    else
      var (m1, k) := StoreAll(WordStored(m, at, Value(regs, rs[0])), regs, rs[1..], (at + step) % TWO32, step);
      (m1, k + 1)
  }

  /** Registers loaded one after the other, likewise. */
  function LoadAll(m: Bytes, regs: Registers, rs: seq<nat>, at: u32, step: int): (r: (Registers, nat))
    ensures r.1 <= |rs|
    decreases rs
  {
    if rs == [] || !Reaches(at, 4) then (regs, 0)
    else
      var regs1 := if rs[0] < 16 then regs[rs[0] := WordAt(m, at)] else regs;
      var (regs2, k) := LoadAll(m, regs1, rs[1..], (at + step) % TWO32, step);
      (regs2, k + 1)
  }

  // ---- One word ----

  lemma StoredIs(s: State, at: u32, v: u32)
    ensures Store32(s, at, v) == if Reaches(at, 4) then s.(mem := WordStored(s.mem, at, v)) else s.(fault := BusFault(at))
  {
    ReachesIsAccessible(at, 4);
    Pieces(v);
  }

  lemma LoadedIs(s: State, r: nat, at: u32)
    requires r < 16
    ensures Load32(s, r, at) == if Reaches(at, 4) then s.(regs := s.regs[r := WordAt(s.mem, at)]) else s.(fault := BusFault(at))
  {
    ReachesIsAccessible(at, 4);
  }

  lemma Wrapped(at: u32, x: int, y: int)
    ensures ((at + x) % TWO32 + y) % TWO32 == (at + x + y) % TWO32
  {
    var k := (at + x) / TWO32;
    var r := (at + x + y) % TWO32;
    Remainder((at + x) % TWO32 + y, (at + x + y) / TWO32 - k, r);
  }

  lemma FirstStored(m: Bytes, regs: Registers, r: nat, rs: seq<nat>, at: u32, step: int)
    ensures StoreAll(m, regs, [r] + rs, at, step) ==
              if !Reaches(at, 4) then (m, 0)
              else
                var (m1, k) := StoreAll(WordStored(m, at, Value(regs, r)), regs, rs, (at + step) % TWO32, step);
                (m1, k + 1)
  {
    hide Reaches, WordStored, Value;
    assert ([r] + rs)[1..] == rs;
  }

  lemma FirstLoaded(m: Bytes, regs: Registers, r: nat, rs: seq<nat>, at: u32, step: int)
    requires r < 16
    ensures LoadAll(m, regs, [r] + rs, at, step) ==
              if !Reaches(at, 4) then (regs, 0)
              else var (regs1, k) := LoadAll(m, regs[r := WordAt(m, at)], rs, (at + step) % TWO32, step); (regs1, k + 1)
  {
    hide Reaches, WordAt;
    assert ([r] + rs)[1..] == rs;
  }

  lemma NothingMoved(m: Bytes, regs: Registers, at: u32, step: int)
    ensures StoreAll(m, regs, [], at, step) == (m, 0) && LoadAll(m, regs, [], at, step) == (regs, 0)
  {
  }

  // ---- STM and LDM ----

  lemma MultipleNext(s: State, load: bool, list: nat, i: nat, at: u32)
    requires i <= 8 && s.fault == NoFault
    ensures i == 8 ==> MultipleFrom(s, load, list, i, at) == (s, at) && Listed(list, i) == []
    ensures i < 8 && !On(list, i) ==>
              && MultipleFrom(s, load, list, i, at) == MultipleFrom(s, load, list, i + 1, at)
              && Listed(list, i) == Listed(list, i + 1)
    ensures i < 8 && On(list, i) ==>
              && MultipleFrom(s, load, list, i, at) ==
                   MultipleFrom(if load then Load32(s, i, at) else Store32(s, at, s.regs[i]), load, list, i + 1, (at + 4) % TWO32)
              && Listed(list, i) == [i] + Listed(list, i + 1)
  {
    hide On, Load32, Store32, Bit;
    if i < 8 { BitIsOn(list, i); }
  }

  lemma StopsAtFault(s: State, load: bool, list: nat, i: nat, at: u32)
    requires i <= 8 && s.fault != NoFault
    ensures MultipleFrom(s, load, list, i, at) == (s, at)
  {
  }

  lemma {:induction false} StoresFrom(s: State, list: nat, i: nat, at: u32)
    requires i <= 8 && s.fault == NoFault
    ensures var n := |Listed(list, i)|; var (m, k) := StoreAll(s.mem, s.regs, Listed(list, i), at, 4);
            var (s1, end) := MultipleFrom(s, false, list, i, at);
            && s1 == s.(mem := m, fault := if k == n then NoFault else BusFault((at + 4 * k) % TWO32))
            && (k == n ==> end == (at + 4 * n) % TWO32)
    decreases 8 - i
  {
    hide On, Store32, WordStored, Reaches, StoreAll, MultipleFrom, Listed;
    MultipleNext(s, false, list, i, at);
    NothingMoved(s.mem, s.regs, at, 4);
    if i < 8 && On(list, i) {
      StoredIs(s, at, s.regs[i]);
      FirstStored(s.mem, s.regs, i, Listed(list, i + 1), at, 4);
      if Reaches(at, 4) {
        var s1, next := s.(mem := WordStored(s.mem, at, s.regs[i])), (at + 4) % TWO32;
        StoresFrom(s1, list, i + 1, next);
        Wrapped(at, 4, 4 * StoreAll(s1.mem, s.regs, Listed(list, i + 1), next, 4).1);
      } else {
        StopsAtFault(s.(fault := BusFault(at)), false, list, i + 1, (at + 4) % TWO32);
      }
    } else if i < 8 {
      StoresFrom(s, list, i + 1, at);
    }
  }

  lemma {:induction false} LoadsFrom(s: State, list: nat, i: nat, at: u32)
    requires i <= 8 && s.fault == NoFault
    ensures var n := |Listed(list, i)|; var (regs, k) := LoadAll(s.mem, s.regs, Listed(list, i), at, 4);
            var (s1, end) := MultipleFrom(s, true, list, i, at);
            && s1 == s.(regs := regs, fault := if k == n then NoFault else BusFault((at + 4 * k) % TWO32))
            && (k == n ==> end == (at + 4 * n) % TWO32)
    decreases 8 - i
  {
    hide On, Load32, WordAt, Reaches, LoadAll, MultipleFrom, Listed;
    MultipleNext(s, true, list, i, at);
    NothingMoved(s.mem, s.regs, at, 4);
    if i < 8 && On(list, i) {
      LoadedIs(s, i, at);
      FirstLoaded(s.mem, s.regs, i, Listed(list, i + 1), at, 4);
      if Reaches(at, 4) {
        var s1, next := s.(regs := s.regs[i := WordAt(s.mem, at)]), (at + 4) % TWO32;
        LoadsFrom(s1, list, i + 1, next);
        Wrapped(at, 4, 4 * LoadAll(s.mem, s1.regs, Listed(list, i + 1), next, 4).1);
      } else {
        StopsAtFault(s.(fault := BusFault(at)), true, list, i + 1, (at + 4) % TWO32);
      }
    } else if i < 8 {
      LoadsFrom(s, list, i + 1, at);
    }
  }

  function BlockCode(load: bool, rb: nat, list: nat): Instr
    requires rb < 8 && list < 0x100
  {
    0xC000 + (if load then 0x800 else 0) + 0x100 * rb + list
  }

  lemma BlockFields(load: bool, rb: nat, list: nat)
    requires rb < 8 && list < 0x100
    ensures var x := BlockCode(load, rb, list);
            0xC000 <= x < 0xD000 && Bit(x, 11) == load && Field(x, 8, 3) == rb && Field(x, 0, 8) == list
  {
    hide Field;
    var x := BlockCode(load, rb, list);
    var l := if load then 1 else 0;
    assert x / 0x800 == 24 + l && x / 0x100 == 0xC0 + 8 * l + rb;
    FieldAt(x, 11, 1, 0x800, 2);
    FieldAt(x, 8, 3, 0x100, 8);
    FieldAt(x, 0, 8, 1, 0x100);
  }

  /** STM stores the listed registers in ascending order from the base address up. When all are stored the base register
      moves behind them unless it is listed; at an address that cannot be accessed the step faults, with the words
      before it stored. */
  lemma StoreMultiple(s: State, rb: nat, list: nat)
    requires rb < 8 && list < 0x100 && Fetched(s, BlockCode(false, rb, list))
    ensures var at, rs := s.regs[rb], Listed(list, 0); var (m, k) := StoreAll(s.mem, s.regs, rs, at, 4);
            if k == |rs| then
              Step(s) == s.(regs := Ahead(s).regs[rb := if On(list, rb) then at else (at + 4 * k) % TWO32], mem := m,
                            cycles := s.cycles + 1)
            else Step(s) == s.(regs := Ahead(s).regs, mem := m, fault := BusFault((at + 4 * k) % TWO32))
  {
    hide Execute, BlockCode, On, Bit, Field, MultipleFrom, StoreAll;
    var x := BlockCode(false, rb, list);
    StepExecutes(s, x);
    BlockFields(false, rb, list);
    Selects(Ahead(s), x);
    BitIsOn(list, rb);
    StoresFrom(Ahead(s), list, 0, s.regs[rb]);
    ListedLow(list, 0);
    SameStores(s.mem, s.regs, Ahead(s).regs, Listed(list, 0), s.regs[rb], 4);
    assert Ahead(s).regs[rb := s.regs[rb]] == Ahead(s).regs;
  }

  /** LDM loads the listed registers in ascending order from the base address up, and then moves the base register behind
      the words, also when it is listed. */
  lemma LoadMultiple(s: State, rb: nat, list: nat)
    requires rb < 8 && list < 0x100 && Fetched(s, BlockCode(true, rb, list))
    ensures var at, rs := s.regs[rb], Listed(list, 0); var (regs, k) := LoadAll(s.mem, Ahead(s).regs, rs, at, 4);
            if k == |rs| then Step(s) == s.(regs := regs[rb := (at + 4 * k) % TWO32], cycles := s.cycles + 1)
            else Step(s) == s.(regs := regs, fault := BusFault((at + 4 * k) % TWO32))
  {
    hide Execute, BlockCode, On, Bit, Field, MultipleFrom, LoadAll;
    var x := BlockCode(true, rb, list);
    StepExecutes(s, x);
    BlockFields(true, rb, list);
    Selects(Ahead(s), x);
    LoadsFrom(Ahead(s), list, 0, s.regs[rb]);
  }

  predicate Low(rs: seq<nat>) { forall i :: 0 <= i < |rs| ==> rs[i] < 8 || rs[i] == 14 }

  lemma {:induction false} ListedLow(list: nat, i: nat)
    requires i <= 8
    ensures Low(Listed(list, i))
    decreases 8 - i
  {
    hide On;
    if i < 8 { ListedLow(list, i + 1); }
  }

  lemma {:induction false} ListedDownLow(list: nat, i: nat)
    requires i <= 8
    ensures Low(ListedDown(list, i))
  {
    hide On;
    if i > 0 { ListedDownLow(list, i - 1); }
  }

  lemma {:induction false} SameStores(m: Bytes, regs: Registers, regs1: Registers, rs: seq<nat>, at: u32, step: int)
    requires Low(rs) && forall r :: 0 <= r < 16 && (r < 8 || r == 14) ==> regs1[r] == regs[r]
    ensures StoreAll(m, regs1, rs, at, step) == StoreAll(m, regs, rs, at, step)
    decreases rs
  {
    hide WordStored, Reaches;
    if rs != [] && Reaches(at, 4) {
      assert Low(rs[1..]) by { assert forall i :: 0 <= i < |rs[1..]| ==> rs[1..][i] == rs[i + 1]; }
      SameStores(WordStored(m, at, Value(regs, rs[0])), regs, regs1, rs[1..], (at + step) % TWO32, step);
    }
  }

  // ---- PUSH ----

  lemma PushNext(s: State, list: nat, i: nat)
    requires i <= 8 && s.fault == NoFault
    ensures i == 0 ==> PushList(s, list, i) == s && ListedDown(list, i) == []
    ensures i > 0 && !On(list, i - 1) ==>
              PushList(s, list, i) == PushList(s, list, i - 1) && ListedDown(list, i) == ListedDown(list, i - 1)
    ensures i > 0 && On(list, i - 1) ==>
              && PushList(s, list, i) == PushList(PushWord(s, s.regs[i - 1]), list, i - 1)
              && ListedDown(list, i) == [i - 1] + ListedDown(list, i - 1)
  {
    hide On, PushWord, Bit;
    if i > 0 { BitIsOn(list, i - 1); }
  }

  lemma PushStops(s: State, list: nat, i: nat)
    requires i <= 8 && s.fault != NoFault
    ensures PushList(s, list, i) == s
  {
  }

  lemma PushedIs(s: State, v: u32)
    ensures var at := (s.regs[13] - 4) % TWO32; var s1 := s.(regs := s.regs[13 := at]);
            PushWord(s, v) == if Reaches(at, 4) then s1.(mem := WordStored(s.mem, at, v)) else s1.(fault := BusFault(at))
  {
    hide Store32, WordStored, Reaches;
    var at := (s.regs[13] - 4) % TWO32;
    StoredIs(s.(regs := s.regs[13 := at]), at, v);
  }

  /** What pushing some registers leaves: words going down from the stack pointer; at an address that cannot be accessed
      the stack pointer has already moved there. */
  predicate PushedAll(s: State, s1: State, rs: seq<nat>) {
    var sp, n := s.regs[13], |rs|;
    var (m, k) := StoreAll(s.mem, s.regs, rs, (sp - 4) % TWO32, -4);
    if k == n then s1 == s.(mem := m, regs := s.regs[13 := (sp - 4 * n) % TWO32])
    else s1 == s.(mem := m, regs := s.regs[13 := (sp - 4 - 4 * k) % TWO32], fault := BusFault((sp - 4 - 4 * k) % TWO32))
  }

  lemma PushedOne(s: State, s2: State, r: nat, rs: seq<nat>)
    requires s.fault == NoFault && (r < 8 || r == 14) && Low(rs)
    requires var s1 := PushWord(s, s.regs[r]); if s1.fault == NoFault then PushedAll(s1, s2, rs) else s2 == s1
    ensures PushedAll(s, s2, [r] + rs)
  {
    hide WordStored, Reaches, StoreAll, PushWord, Low;
    var at := (s.regs[13] - 4) % TWO32;
    var next := (at - 4) % TWO32;
    PushedIs(s, s.regs[r]);
    FirstStored(s.mem, s.regs, r, rs, at, -4);
    if Reaches(at, 4) {
      var m1 := WordStored(s.mem, at, s.regs[r]);
      SameStores(m1, s.regs, s.regs[13 := at], rs, next, -4);
      var k: int := StoreAll(m1, s.regs, rs, next, -4).1;
      Wrapped(s.regs[13], -4, -4 * |rs|);
      Wrapped(s.regs[13], -4, 0 - 4 - 4 * k);
      Wrapped(s.regs[13], -4, -4);
    }
  }

  lemma PushedNone(s: State)
    requires s.fault == NoFault
    ensures PushedAll(s, s, [])
  {
  }

  lemma {:induction false} PushesFrom(s: State, list: nat, i: nat)
    requires i <= 8 && s.fault == NoFault
    ensures PushedAll(s, PushList(s, list, i), ListedDown(list, i))
    decreases i
  {
    hide On, PushWord, PushList, ListedDown, PushedAll;
    PushNext(s, list, i);
    if i == 0 {
      PushedNone(s);
    } else if On(list, i - 1) {
      var s1 := PushWord(s, s.regs[i - 1]);
      ListedDownLow(list, i - 1);
      if s1.fault == NoFault { PushesFrom(s1, list, i - 1); } else { PushStops(s1, list, i - 1); }
      PushedOne(s, PushList(s, list, i), i - 1, ListedDown(list, i - 1));
    } else {
      PushesFrom(s, list, i - 1);
    }
  }

  lemma StackFields(x: Instr)
    requires 0xB100 <= x < 0xBE00
    ensures Bit(x, 11) == (x / 0x800 % 2 == 1) && Bit(x, 8) == (x / 0x100 % 2 == 1) && Field(x, 0, 8) == x % 0x100
  {
    hide Field;
    FieldAt(x, 11, 1, 0x800, 2);
    FieldAt(x, 8, 1, 0x100, 2);
    FieldAt(x, 0, 8, 1, 0x100);
  }

  /** PUSH stores LR, if asked for, and then the listed registers in descending order, downwards from the stack pointer.
      Every opcode from 0xB100 to 0xBDFF with bit 11 clear is one. */
  lemma PushRegisters(s: State, x: Instr)
    requires 0xB100 <= x < 0xBE00 && x / 0x800 % 2 == 0 && Fetched(s, x)
    ensures var rs := (if x / 0x100 % 2 == 1 then [14] else []) + ListedDown(x % 0x100, 8); var s1 := Step(s);
            PushedAll(Ahead(s), s1.(cycles := s.cycles), rs) && s1.cycles == s.cycles + if s1.fault == NoFault then 1 else 0
  {
    hide Execute, Bit, Field, PushList, PushWord, ListedDown, PushedAll;
    var list := x % 0x100;
    StepExecutes(s, x);
    StackFields(x);
    Selects(Ahead(s), x);
    ListedDownLow(list, 8);
    if x / 0x100 % 2 == 1 {
      var s1 := PushWord(Ahead(s), Ahead(s).regs[14]);
      if s1.fault == NoFault { PushesFrom(s1, list, 8); } else { PushStops(s1, list, 8); }
      PushedOne(Ahead(s), PushList(s1, list, 8), 14, ListedDown(list, 8));
    } else {
      PushesFrom(Ahead(s), list, 8);
      assert [] + ListedDown(list, 8) == ListedDown(list, 8);
    }
    CyclesStay(Ahead(s), x);
  }

  lemma CyclesStay(s: State, x: Instr)
    requires s.fault == NoFault && 0xB100 <= x < 0xBE00 && x / 0x800 % 2 == 0
    ensures Execute(s, x).cycles == s.cycles
  {
    hide Execute, Bit, Field, PushList, PushWord, StoreAll;
    StackFields(x);
    Selects(s, x);
    PushedIs(s, s.regs[14]);
    var s1 := if Bit(x, 8) then PushWord(s, s.regs[LR]) else s;
    if s1.fault == NoFault { PushesFrom(s1, x % 0x100, 8); } else { PushStops(s1, x % 0x100, 8); }
  }

  // ---- POP ----

  lemma PopNext(s: State, list: nat, i: nat)
    requires i <= 8 && s.fault == NoFault
    ensures i == 8 ==> PopList(s, list, i) == s && Listed(list, i) == []
    ensures i < 8 && !On(list, i) ==> PopList(s, list, i) == PopList(s, list, i + 1) && Listed(list, i) == Listed(list, i + 1)
    ensures i < 8 && On(list, i) ==>
              PopList(s, list, i) == PopList(PopWord(s, i), list, i + 1) && Listed(list, i) == [i] + Listed(list, i + 1)
  {
    hide On, PopWord, Bit;
    if i < 8 { BitIsOn(list, i); }
  }

  lemma PopStops(s: State, list: nat, i: nat)
    requires i <= 8 && s.fault != NoFault
    ensures PopList(s, list, i) == s
  {
  }

  lemma PoppedIs(s: State, r: nat)
    requires r < 8 && s.fault == NoFault
    ensures var at := s.regs[13];
            PopWord(s, r) == if Reaches(at, 4) then s.(regs := s.regs[r := WordAt(s.mem, at)][13 := (at + 4) % TWO32])
                             else s.(fault := BusFault(at))
  {
    hide Load32, WordAt, Reaches;
    LoadedIs(s, r, s.regs[13]);
  }

  /** What popping some registers leaves: words read upwards from the stack pointer, which moves behind each word read. */
  predicate PoppedAll(s: State, s1: State, rs: seq<nat>) {
    var sp := s.regs[13];
    var (regs, k) := LoadAll(s.mem, s.regs, rs, sp, 4);
    var end := (sp + 4 * k) % TWO32;
    s1 == s.(regs := regs[13 := end], fault := if k == |rs| then NoFault else BusFault(end))
  }

  lemma {:induction false} LoadsBesideSP(m: Bytes, regs: Registers, rs: seq<nat>, at: u32, x: u32)
    requires Low(rs)
    ensures LoadAll(m, regs[13 := x], rs, at, 4) == (LoadAll(m, regs, rs, at, 4).0[13 := x], LoadAll(m, regs, rs, at, 4).1)
    decreases rs
  {
    hide WordAt, Reaches;
    if rs != [] && Reaches(at, 4) {
      assert Low(rs[1..]) by { assert forall i :: 0 <= i < |rs[1..]| ==> rs[1..][i] == rs[i + 1]; }
      var r, v := rs[0], WordAt(m, at);
      assert regs[13 := x][r := v] == regs[r := v][13 := x];
      LoadsBesideSP(m, regs[r := v], rs[1..], (at + 4) % TWO32, x);
    }
  }

  lemma PoppedOne(s: State, s2: State, r: nat, rs: seq<nat>)
    requires s.fault == NoFault && r < 8 && Low(rs)
    requires var s1 := PopWord(s, r); if s1.fault == NoFault then PoppedAll(s1, s2, rs) else s2 == s1
    ensures PoppedAll(s, s2, [r] + rs)
  {
    hide WordAt, Reaches, LoadAll, PopWord, Low;
    var at := s.regs[13];
    var next := (at + 4) % TWO32;
    PoppedIs(s, r);
    FirstLoaded(s.mem, s.regs, r, rs, at, 4);
    if Reaches(at, 4) {
      var regs1 := s.regs[r := WordAt(s.mem, at)];
      LoadsBesideSP(s.mem, regs1, rs, next, next);
      Wrapped(at, 4, 4 * LoadAll(s.mem, regs1, rs, next, 4).1);
    } else {
      assert s.regs[13 := at] == s.regs;
    }
  }

  lemma PoppedNone(s: State)
    requires s.fault == NoFault
    ensures PoppedAll(s, s, [])
  {
    assert s.regs[13 := s.regs[13]] == s.regs;
  }

  lemma {:induction false} PopsFrom(s: State, list: nat, i: nat)
    requires i <= 8 && s.fault == NoFault
    ensures PoppedAll(s, PopList(s, list, i), Listed(list, i))
    decreases 8 - i
  {
    hide On, PopWord, PopList, Listed, PoppedAll;
    PopNext(s, list, i);
    if i == 8 {
      PoppedNone(s);
    } else if On(list, i) {
      var s1 := PopWord(s, i);
      ListedLow(list, i + 1);
      if s1.fault == NoFault { PopsFrom(s1, list, i + 1); } else { PopStops(s1, list, i + 1); }
      PoppedOne(s, PopList(s, list, i), i, Listed(list, i + 1));
    } else {
      PopsFrom(s, list, i + 1);
    }
  }

  /** POP of the program counter: a word with bit 0 clear halts the simulator. */
  predicate PoppedPC(s: State, s1: State) {
    var sp := s.regs[13];
    if Reaches(sp, 4) then
      var w: int := WordAt(s.mem, sp);
      && 0 <= w - w % 2 < TWO32
      && s1 == s.(regs := s.regs[13 := (sp + 4) % TWO32][15 := w - w % 2], halted := s.halted || w % 2 == 0)
    else s1 == s.(fault := BusFault(sp))
  }

  lemma PopPCIs(s: State)
    ensures PoppedPC(s, PopPC(s))
  {
    ReachesIsAccessible(s.regs[13], 4);
  }

  /** POP reads the listed registers in ascending order upwards from the stack pointer, and then the program counter if
      asked for. Every opcode from 0xB100 to 0xBDFF with bit 11 set is one. */
  lemma PopRegisters(s: State, x: Instr)
    requires 0xB100 <= x < 0xBE00 && x / 0x800 % 2 == 1 && Fetched(s, x)
    ensures var rs := Listed(x % 0x100, 0); var s2 := Step(s).(cycles := s.cycles);
            && Step(s).cycles == s.cycles + (if s2.fault == NoFault then 1 else 0)
            && exists s1 :: PoppedAll(Ahead(s), s1, rs) &&
                            (if x / 0x100 % 2 == 1 && s1.fault == NoFault then PoppedPC(s1, s2) else s2 == s1)
  {
    hide Execute, Bit, Field, PopList, PopPC, Listed, LoadAll, WordAt, Reaches;
    var list := x % 0x100;
    StepExecutes(s, x);
    StackFields(x);
    Selects(Ahead(s), x);
    var s1 := PopList(Ahead(s), list, 0);
    PopsFrom(Ahead(s), list, 0);
    PopPCIs(s1);
    assert PoppedAll(Ahead(s), s1, Listed(list, 0));
  }

  // ---- Storing and loading back ----

  /** Words whose addresses can be accessed lie one behind the other. */
  lemma Consecutive(at: u32)
    requires Reaches(at, 4) && Reaches((at + 4) % TWO32, 4)
    ensures IndexOf((at + 4) % TWO32) == IndexOf(at) + 4
  {
  }

  lemma WordReads(m: Bytes, at: u32, v: u32)
    requires Reaches(at, 4)
    ensures WordAt(WordStored(m, at, v), at) == v
    ensures forall j :: 0 <= j < IndexOf(at) ==> WordStored(m, at, v)[j] == m[j]
  {
    Reassembled(v);
  }

  lemma {:induction false} StoresAbove(m: Bytes, regs: Registers, rs: seq<nat>, at: u32)
    requires Reaches(at, 4)
    ensures forall j :: 0 <= j < IndexOf(at) ==> StoreAll(m, regs, rs, at, 4).0[j] == m[j]
    decreases rs
  {
    hide WordStored, Reaches, IndexOf;
    if rs != [] {
      var m1, next := WordStored(m, at, Value(regs, rs[0])), (at + 4) % TWO32;
      WordReads(m, at, Value(regs, rs[0]));
      if Reaches(next, 4) {
        Consecutive(at);
        StoresAbove(m1, regs, rs[1..], next);
      } else {
        StopsAtOnce(m1, regs, rs[1..], next);
      }
    }
  }

  lemma StopsAtOnce(m: Bytes, regs: Registers, rs: seq<nat>, at: u32)
    requires !Reaches(at, 4)
    ensures StoreAll(m, regs, rs, at, 4) == (m, 0)
  {
  }

  lemma SameWordAt(m: Bytes, m1: Bytes, at: u32)
    requires Reaches(at, 4) && forall j :: 0 <= j < IndexOf(at) + 4 ==> m1[j] == m[j]
    ensures WordAt(m1, at) == WordAt(m, at)
  {
  }

  /** The first of the stored words reads back after the others have been stored above it. */
  lemma FirstReads(m: Bytes, regs: Registers, rs: seq<nat>, at: u32)
    requires rs != [] && Reaches(at, 4)
    ensures WordAt(StoreAll(m, regs, rs, at, 4).0, at) == Value(regs, rs[0])
  {
    hide WordStored, Reaches, IndexOf, WordAt, Value;
    var m1, next := WordStored(m, at, Value(regs, rs[0])), (at + 4) % TWO32;
    WordReads(m, at, Value(regs, rs[0]));
    if Reaches(next, 4) {
      Consecutive(at);
      StoresAbove(m1, regs, rs[1..], next);
      SameWordAt(m1, StoreAll(m1, regs, rs[1..], next, 4).0, at);
    } else {
      StopsAtOnce(m1, regs, rs[1..], next);
    }
  }

  predicate Ascending(rs: seq<nat>) {
    && (forall i :: 0 <= i < |rs| ==> rs[i] < 8)
    && (forall i, j :: 0 <= i < j < |rs| ==> rs[i] < rs[j])
  }

  lemma {:induction false} ListedAscends(list: nat, i: nat)
    requires i <= 8
    ensures Ascending(Listed(list, i)) && forall k :: 0 <= k < |Listed(list, i)| ==> i <= Listed(list, i)[k]
    ensures forall r :: r in Listed(list, i) <==> i <= r < 8 && On(list, r)
    decreases 8 - i
  {
    hide On;
    if i < 8 { ListedAscends(list, i + 1); }
  }

  /** Loading the words back restores every register that was stored, and changes no other. */
  lemma {:induction false} LoadsBack(m: Bytes, regs: Registers, now: Registers, rs: seq<nat>, at: u32, m0: Bytes)
    requires Ascending(rs) && StoreAll(m0, regs, rs, at, 4).1 == |rs| && m == StoreAll(m0, regs, rs, at, 4).0
    ensures var (after, k) := LoadAll(m, now, rs, at, 4);
            && k == |rs|
            && forall r :: 0 <= r < 16 ==> after[r] == if r in rs then regs[r] else now[r]
    decreases rs
  {
    hide WordStored, Reaches, IndexOf, WordAt, Value;
    if rs != [] {
      var r, rest, next := rs[0], rs[1..], (at + 4) % TWO32;
      FirstReads(m0, regs, rs, at);
      ValueIs(regs, r);
      assert Ascending(rest) by { assert forall i :: 0 <= i < |rest| ==> rest[i] == rs[i + 1]; }
      LoadsBack(m, regs, now[r := WordAt(m, at)], rest, next, WordStored(m0, at, Value(regs, r)));
      assert r !in rest;
      assert forall x :: x in rs <==> x == r || x in rest;
    }
  }

  lemma ValueIs(regs: Registers, r: nat)
    requires r < 16
    ensures Value(regs, r) == regs[r]
  {
  }

  /** STM, then any code that keeps the memory, then LDM with the same list from the same address: every listed register
      has its old value again. */
  lemma StoredBlockLoadsBack(s: State, rb: nat, list: nat, body: State, rc: nat)
    requires rb < 8 && list < 0x100 && Fetched(s, BlockCode(false, rb, list)) && Step(s).fault == NoFault
    requires rc < 8 && !On(list, rc) && Fetched(body, BlockCode(true, rc, list))
    requires body.mem == Step(s).mem && body.regs[rc] == s.regs[rb]
    ensures Step(body).fault == NoFault
    ensures forall r :: 0 <= r < 8 && On(list, r) ==> Step(body).regs[r] == s.regs[r]
  {
    hide Step, BlockCode, On, StoreAll, LoadAll, Listed;
    StoreMultiple(s, rb, list);
    LoadMultiple(body, rc, list);
    ListedAscends(list, 0);
    LoadsBack(body.mem, s.regs, Ahead(body).regs, Listed(list, 0), s.regs[rb], s.mem);
  }
}
