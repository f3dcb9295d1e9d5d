/** The flat byte memory behind the processor: a 64 KB array with an SRAM window mapped into its upper half. */
module MemoryMap {

  const TWO32 := 0x1_0000_0000

  type u32 = x: int | 0 <= x < 0x1_0000_0000
  type byte = x: int | 0 <= x < 0x100

  const SIZE := 0x1_0000
  const FLASH_SIZE := 0x8000
  const SRAM_BASE := 0x2000_0000
  const SRAM_SIZE := 0x4000

  type Bytes = m: seq<byte> | |m| == SIZE witness seq(SIZE, _ => 0)

  predicate Mapped(addr: u32) {
    addr < SIZE || SRAM_BASE <= addr < SRAM_BASE + SRAM_SIZE
  }

  /** The index a mapped address stands for. */
  function Flat(addr: u32): (f: nat)
    requires Mapped(addr)
    ensures f < SIZE
  {
    if addr < SIZE then addr else FLASH_SIZE + (addr - SRAM_BASE)
  }

  /** An access of `size` bytes at `addr` does not fault. */
  predicate Accessible(addr: u32, size: nat) {
    Mapped(addr) && Flat(addr) + size <= SIZE
  }

  function Half(m: Bytes, f: nat): (v: u32)
    requires f + 2 <= SIZE
    ensures v < 0x1_0000
  {
    Assemble(m[f], m[f + 1], 0, 0)
  }

  function Word(m: Bytes, f: nat): u32
    requires f + 4 <= SIZE
  {
    Assemble(m[f], m[f + 1], m[f + 2], m[f + 3])
  }

  function Assemble(b0: int, b1: int, b2: int, b3: int): int {
    b0 + 0x100 * (b1 + 0x100 * (b2 + 0x100 * b3))
  }

  function PutByte(m: Bytes, f: nat, v: byte): Bytes
    requires f < SIZE
  {
    m[f := v]
  }

  function PutHalf(m: Bytes, f: nat, v: u32): Bytes
    requires f + 2 <= SIZE && v < 0x1_0000
  {
    m[f := v % 0x100][f + 1 := v / 0x100]
  }

  function PutWord(m: Bytes, f: nat, v: u32): Bytes
    requires f + 4 <= SIZE
  {
    var v1 := v / 0x100;
    var v2 := v1 / 0x100;
    m[f := v % 0x100][f + 1 := v1 % 0x100][f + 2 := v2 % 0x100][f + 3 := v2 / 0x100]
  }

  /** Storing bytes one after the other from index `f`. */
  function Store(m: Bytes, f: nat, data: seq<byte>): (r: Bytes)
    requires f + |data| <= SIZE
  {
    m[..f] + data + m[f + |data|..]
  }

  lemma Remainder(v: int, k: int, r: u32)
    requires v == k * TWO32 + r
    ensures v % TWO32 == r
  {
  }

  /** A stored word reads back, and bytes outside it stay. */
  lemma WordRoundTrip(m: Bytes, f: nat, v: u32)
    requires f + 4 <= SIZE
    ensures Word(PutWord(m, f, v), f) == v
    ensures forall i :: 0 <= i < SIZE && !(f <= i < f + 4) ==> PutWord(m, f, v)[i] == m[i]
  {
  }

  lemma HalfRoundTrip(m: Bytes, f: nat, v: u32)
    requires f + 2 <= SIZE && v < 0x1_0000
    ensures Half(PutHalf(m, f, v), f) == v
    ensures forall i :: 0 <= i < SIZE && !(f <= i < f + 2) ==> PutHalf(m, f, v)[i] == m[i]
  {
  }

  /** A stored block is there byte for byte, and bytes outside it stay. */
  lemma StoredBytes(m: Bytes, f: nat, data: seq<byte>)
    requires f + |data| <= SIZE
    ensures forall i :: 0 <= i < |data| ==> Store(m, f, data)[f + i] == data[i]
    ensures forall x :: 0 <= x < SIZE && !(f <= x < f + |data|) ==> Store(m, f, data)[x] == m[x]
  {
  }
}
