/** Loads and stores, told by their encodings and the single bytes they move. */
module MemoryInstructions {
  import opened MemoryMap
  import opened Cpu
  import opened Instructions

  /** Formats 6, 7, 9, 10 and 11. */
  datatype Access =
    | LiteralPool(rd: nat, imm: nat)
    | RegisterOffset(load: bool, asByte: bool, ro: nat, rb: nat, rd: nat)
    | ConstantOffset(load: bool, asByte: bool, off: nat, rb: nat, rd: nat)
    | Halfword(load: bool, off: nat, rb: nat, rd: nat)
    | StackOffset(load: bool, rd: nat, imm: nat)

  predicate Encodable(a: Access) {
    && a.rd < 8
    && match a
       case LiteralPool(_, imm) => imm < 0x100
       case RegisterOffset(_, _, ro, rb, _) => ro < 8 && rb < 8
       case ConstantOffset(_, _, off, rb, _) => off < 32 && rb < 8
       case Halfword(_, off, rb, _) => off < 32 && rb < 8
       case StackOffset(_, _, imm) => imm < 0x100
  }

  function Code(a: Access): Instr
    requires Encodable(a)
  {
    match a
    case LiteralPool(rd, imm) => 0x4800 + 0x100 * rd + imm
    case RegisterOffset(l, b, ro, rb, rd) =>
      0x5000 + (if l then 0x800 else 0) + (if b then 0x400 else 0) + 0x40 * ro + 8 * rb + rd
    case ConstantOffset(l, b, off, rb, rd) =>
      0x6000 + (if b then 0x1000 else 0) + (if l then 0x800 else 0) + 0x40 * off + 8 * rb + rd
    case Halfword(l, off, rb, rd) => 0x8000 + (if l then 0x800 else 0) + 0x40 * off + 8 * rb + rd
    case StackOffset(l, rd, imm) => 0x9000 + (if l then 0x800 else 0) + 0x100 * rd + imm
  }

  predicate Loads(a: Access) { a.LiteralPool? || a.load }

  /** How many bytes move. */
  function Size(a: Access): nat {
    match a
    case RegisterOffset(_, b, _, _, _) => if b then 1 else 4
    case ConstantOffset(_, b, _, _, _) => if b then 1 else 4
    case Halfword(_, _, _, _) => 2
    case _ => 4
  }

  /** The address: a base register plus an offset in units of the size, or the word-aligned address four behind the
      opcode plus words. */
  function Address(a: Access, s: State): u32
    requires Encodable(a)
  {
    match a
    case LiteralPool(_, imm) =>
      var p := (s.regs[15] + 4) % TWO32;
      (p - p % 4 + 4 * imm) % TWO32
    case RegisterOffset(_, _, ro, rb, _) => (s.regs[rb] + s.regs[ro]) % TWO32
    case ConstantOffset(_, b, off, rb, _) => (s.regs[rb] + if b then off else 4 * off) % TWO32
    case Halfword(_, off, rb, _) => (s.regs[rb] + 2 * off) % TWO32
    case StackOffset(_, _, imm) => (s.regs[13] + 4 * imm) % TWO32
  }

  /** The number that `n` bytes from index `i` on stand for, low byte first. */
  function Little(m: Bytes, i: int, n: nat): int {
    if n == 1 then Peek(m, i)
    else if n == 2 then Peek(m, i) + 0x100 * Peek(m, i + 1)
    else Peek(m, i) + 0x100 * Peek(m, i + 1) + 0x1_0000 * Peek(m, i + 2) + 0x100_0000 * Peek(m, i + 3)
  }

  /** Byte `k` of a word, counted from the low end. */
  function ByteOf(v: u32, k: int): int {
    if k == 0 then v % 0x100
    else if k == 1 then v / 0x100 % 0x100
    else if k == 2 then v / 0x1_0000 % 0x100
    else v / 0x100_0000
  }

  // ---- Decoding ----

  /** What a decoded access does; the address is the one before the program counter moved. */
  function Performed(s: State, a: Access, at: u32): State
    requires Encodable(a)
  {
    if Loads(a) then
      if Size(a) == 1 then Load8(s, a.rd, at) else if Size(a) == 2 then Load16(s, a.rd, at) else Load32(s, a.rd, at)
    else
      if Size(a) == 1 then Store8(s, at, s.regs[a.rd])
      else if Size(a) == 2 then Store16(s, at, s.regs[a.rd]) else Store32(s, at, s.regs[a.rd])
  }

  lemma LiteralFields(a: Access)
    requires Encodable(a) && a.LiteralPool?
    ensures var x := Code(a); 0x4800 <= x < 0x5000 && Field(x, 8, 3) == a.rd && Field(x, 0, 8) == a.imm
  {
    hide Field;
    var x := Code(a);
    assert x / 0x100 == 0x48 + a.rd;
    FieldAt(x, 8, 3, 0x100, 8);
    FieldAt(x, 0, 8, 1, 0x100);
  }

  lemma RegisterFields(a: Access)
    requires Encodable(a) && a.RegisterOffset?
    ensures var x := Code(a);
            && 0x5000 <= x < 0x6000 && !Bit(x, 9) && Bit(x, 11) == a.load && Bit(x, 10) == a.asByte
            && Field(x, 6, 3) == a.ro && Field(x, 3, 3) == a.rb && Field(x, 0, 3) == a.rd
  {
    hide Field;
    var x := Code(a);
    var l, b := if a.load then 1 else 0, if a.asByte then 1 else 0;
    assert x / 0x800 == 10 + l && x / 0x400 == 20 + 2 * l + b && x / 0x200 == 40 + 4 * l + 2 * b;
    assert x / 0x40 == 0x140 + 0x20 * l + 0x10 * b + a.ro && x / 8 == 8 * (0x140 + 0x20 * l + 0x10 * b + a.ro) + a.rb;
    FieldAt(x, 9, 1, 0x200, 2);
    FieldAt(x, 10, 1, 0x400, 2);
    FieldAt(x, 11, 1, 0x800, 2);
    FieldAt(x, 6, 3, 0x40, 8);
    FieldAt(x, 3, 3, 8, 8);
    FieldAt(x, 0, 3, 1, 8);
  }

  lemma ConstantFields(a: Access)
    requires Encodable(a) && a.ConstantOffset?
    ensures var x := Code(a);
            && 0x6000 <= x < 0x8000 && Bit(x, 11) == a.load && Bit(x, 12) == a.asByte
            && Field(x, 6, 5) == a.off && Field(x, 3, 3) == a.rb && Field(x, 0, 3) == a.rd
  {
    hide Field;
    var x := Code(a);
    var l, b := if a.load then 1 else 0, if a.asByte then 1 else 0;
    assert x / 0x1000 == 6 + b && x / 0x800 == 12 + 2 * b + l;
    assert x / 0x40 == 0x180 + 0x40 * b + 0x20 * l + a.off && x / 8 == 8 * (0x180 + 0x40 * b + 0x20 * l + a.off) + a.rb;
    FieldAt(x, 11, 1, 0x800, 2);
    FieldAt(x, 12, 1, 0x1000, 2);
    FieldAt(x, 6, 5, 0x40, 0x20);
    FieldAt(x, 3, 3, 8, 8);
    FieldAt(x, 0, 3, 1, 8);
  }

  lemma HalfwordFields(a: Access)
    requires Encodable(a) && a.Halfword?
    ensures var x := Code(a);
            && 0x8000 <= x < 0x9000 && Bit(x, 11) == a.load
            && Field(x, 6, 5) == a.off && Field(x, 3, 3) == a.rb && Field(x, 0, 3) == a.rd
  {
    hide Field;
    var x := Code(a);
    var l := if a.load then 1 else 0;
    assert x / 0x800 == 16 + l && x / 0x40 == 0x200 + 0x20 * l + a.off && x / 8 == 8 * (0x200 + 0x20 * l + a.off) + a.rb;
    FieldAt(x, 11, 1, 0x800, 2);
    FieldAt(x, 6, 5, 0x40, 0x20);
    FieldAt(x, 3, 3, 8, 8);
    FieldAt(x, 0, 3, 1, 8);
  }

  lemma StackFields(a: Access)
    requires Encodable(a) && a.StackOffset?
    ensures var x := Code(a);
            0x9000 <= x < 0xA000 && Bit(x, 11) == a.load && Field(x, 8, 3) == a.rd && Field(x, 0, 8) == a.imm
  {
    hide Field;
    var x := Code(a);
    var l := if a.load then 1 else 0;
    assert x / 0x800 == 18 + l && x / 0x100 == 0x90 + 8 * l + a.rd;
    FieldAt(x, 11, 1, 0x800, 2);
    FieldAt(x, 8, 3, 0x100, 8);
    FieldAt(x, 0, 8, 1, 0x100);
  }

  lemma PCAligned(pc: u32)
    ensures AlignedPC((pc + 2) % TWO32) == (pc + 4) % TWO32 - (pc + 4) % TWO32 % 4
  {
    if pc + 2 >= TWO32 { Remainder(pc + 2, 1, pc + 2 - TWO32); } else { Remainder(pc + 2, 0, pc + 2); }
  }

  lemma Decodes(s: State, a: Access)
    requires Encodable(a)
    ensures Execute(Ahead(s), Code(a)) == Performed(Ahead(s), a, Address(a, s))
  {
    hide Execute, Code, Field, Bit, AlignedPC, Load8, Load16, Load32, Store8, Store16, Store32;
    Selects(Ahead(s), Code(a));
    match a
    case LiteralPool(_, _) =>
      LiteralFields(a);
      PCAligned(s.regs[15]);
    case RegisterOffset(_, _, _, _, _) => RegisterFields(a);
    case ConstantOffset(_, _, _, _, _) => ConstantFields(a);
    case Halfword(_, _, _, _) => HalfwordFields(a);
    case StackOffset(_, _, _) => StackFields(a);
  }

  // ---- What a fetched load or store leaves ----

  /** The access faults: only the program counter has moved, and the exception carries the address. */
  predicate Faults(s: State, s1: State, at: u32) { s1 == s.(regs := Ahead(s).regs, fault := BusFault(at)) }

  lemma LoadIs(s: State, a: Access, at: u32)
    requires Encodable(a) && Loads(a) && s.fault == NoFault
    ensures var v := Little(s.mem, IndexOf(at), Size(a));
            if Reaches(at, Size(a)) then 0 <= v < TWO32 && Performed(s, a, at) == s.(regs := s.regs[a.rd := v])
            else Performed(s, a, at) == s.(fault := BusFault(at))
  {
    ReachesIsAccessible(at, Size(a));
  }

  /** A load puts the bytes at the address, low byte first and zero-extended, into its register and changes nothing else.
      It faults exactly when one of them cannot be accessed. */
  lemma FetchedLoad(s: State, a: Access)
    requires Encodable(a) && Loads(a) && Fetched(s, Code(a))
    ensures var at := Address(a, s);
            if Reaches(at, Size(a)) then Sets(s, Step(s), a.rd, Little(s.mem, IndexOf(at), Size(a)), s.flags)
            else Faults(s, Step(s), at)
  {
    hide Execute, Code, Address, Performed, Little, Reaches;
    StepExecutes(s, Code(a));
    Decodes(s, a);
    LoadIs(Ahead(s), a, Address(a, s));
  }

  /** The bytes of `v`, low byte first, lie at `i` and after, and every other byte is as before. */
  predicate Written(m: Bytes, m1: Bytes, i: int, n: nat, v: u32) {
    forall j :: 0 <= j < SIZE ==> m1[j] == if i <= j < i + n then ByteOf(v, j - i) else m[j]
  }

  lemma StoreIs(s: State, a: Access, at: u32)
    requires Encodable(a) && !Loads(a) && s.fault == NoFault
    ensures var s1 := Performed(s, a, at);
            if Reaches(at, Size(a)) then
              s1 == s.(mem := s1.mem) && Written(s.mem, s1.mem, IndexOf(at), Size(a), s.regs[a.rd])
            else s1 == s.(fault := BusFault(at))
  {
    ReachesIsAccessible(at, Size(a));
    Pieces(s.regs[a.rd]);
  }

  lemma Pieces(v: u32)
    ensures v % 0x1_0000 / 0x100 == v / 0x100 % 0x100 && v % 0x1_0000 % 0x100 == v % 0x100
    ensures v / 0x100 / 0x100 == v / 0x1_0000 && v / 0x100 / 0x100 / 0x100 == v / 0x100_0000
  {
    HalfPieces(v);
    WordPieces(v);
  }

  lemma HalfPieces(v: u32)
    ensures v % 0x1_0000 / 0x100 == v / 0x100 % 0x100 && v % 0x1_0000 % 0x100 == v % 0x100
  {
  }

  lemma WordPieces(v: u32)
    ensures v / 0x100 / 0x100 == v / 0x1_0000 && v / 0x100 / 0x100 / 0x100 == v / 0x100_0000
  {
    assert v / 0x100 / 0x100 == v / 0x1_0000;
  }

  /** A store leaves the low bytes of its register at the address and changes no other byte. It faults, and changes none,
      exactly when one of them cannot be accessed. */
  lemma FetchedStore(s: State, a: Access)
    requires Encodable(a) && !Loads(a) && Fetched(s, Code(a))
    ensures var at, s1 := Address(a, s), Step(s);
            if Reaches(at, Size(a)) then
              && s1 == s.(regs := Ahead(s).regs, mem := s1.mem, cycles := s.cycles + 1)
              && Written(s.mem, s1.mem, IndexOf(at), Size(a), s.regs[a.rd])
            else Faults(s, s1, at)
  {
    hide Execute, Code, Address, Performed, Written, Reaches;
    StepExecutes(s, Code(a));
    Decodes(s, a);
    StoreIs(Ahead(s), a, Address(a, s));
  }

  /** A store and then a load of the same size from the same address: the register loaded holds the bytes stored. */
  lemma StoreThenLoad(s: State, st: Access, ld: Access)
    requires Encodable(st) && !Loads(st) && Fetched(s, Code(st)) && Reaches(Address(st, s), Size(st))
    requires Encodable(ld) && Loads(ld) && Fetched(Step(s), Code(ld))
    requires Size(ld) == Size(st) && Address(ld, Step(s)) == Address(st, s)
    ensures var v := s.regs[st.rd];
            Step(Step(s)).regs[ld.rd] == if Size(st) == 1 then v % 0x100 else if Size(st) == 2 then v % 0x1_0000 else v
  {
    hide Step, Code, Address;
    FetchedStore(s, st);
    FetchedLoad(Step(s), ld);
    Reassembled(s.regs[st.rd]);
  }

  lemma Reassembled(v: u32)
    ensures ByteOf(v, 0) + 0x100 * ByteOf(v, 1) == v % 0x1_0000
    ensures ByteOf(v, 0) + 0x100 * ByteOf(v, 1) + 0x1_0000 * ByteOf(v, 2) + 0x100_0000 * ByteOf(v, 3) == v
  {
    var w := v / 0x100;
    var x := w / 0x100;
    assert x == v / 0x1_0000 && x / 0x100 == v / 0x100_0000;
  }
}
