/** The serial flash chip: its protocol as functions on its state. */
module FlashProtocol {

  const CAPACITY: nat := 0x1_0000
  const SECTOR_SIZE: nat := 0x1000
  const PAGE_SIZE: nat := 0x100

  const CMD_READ_ID: bv8 := 0x9F
  const CMD_READ_DATA: bv8 := 0x03
  const CMD_PAGE_PROGRAM: bv8 := 0x02
  const CMD_SECTOR_ERASE: bv8 := 0x20
  const CMD_READ_STATUS: bv8 := 0x05
  const CMD_WRITE_ENABLE: bv8 := 0x06

  datatype Phase = IDLE | CMD | ADDR | DATA

  datatype Flash = Flash(phase: Phase, cmd: bv8, addr: nat, addrBytes: nat, buf: seq<bv8>, wel: bool, data: seq<bv8>)

  /** The address fits the bytes received so far, and in the data phase it is masked to the capacity. */
  ghost predicate Valid(f: Flash) {
    && |f.data| == CAPACITY
    && (f.phase == ADDR ==> f.addrBytes < 3 && (f.addrBytes == 0 ==> f.addr == 0) && f.buf == [])
    && (f.phase == ADDR && f.addrBytes == 1 ==> f.addr < 0x100)
    && (f.phase == CMD ==> f.buf == [])
    && f.addr < CAPACITY
  }

  function Assert(f: Flash): Flash { f.(phase := CMD, buf := []) }

  function HandleData(f: Flash, tx: bv8): (Flash, bv8)
    requires f.addr < |f.data|
  {
    if f.cmd == CMD_READ_ID then
      (f.(buf := f.buf + [tx]),
       if |f.buf| == 0 then 0xEF else if |f.buf| == 1 then 0x40 else if |f.buf| == 2 then 0x16 else 0xFF)
    else if f.cmd == CMD_READ_STATUS then (f, if f.wel then 0x02 else 0x00)
    else if f.cmd == CMD_READ_DATA then (f.(addr := (f.addr + 1) % CAPACITY), f.data[f.addr])
    else if f.cmd == CMD_PAGE_PROGRAM then (f.(buf := f.buf + [tx]), 0xFF)
    else (f, 0xFF)
  }

  /** One byte each way: the state after it and the response. */
  function Exchange(f: Flash, tx: bv8): (Flash, bv8)
    requires f.phase == DATA ==> f.addr < |f.data|
  {
    match f.phase
    case IDLE => (f, 0xFF)
    case CMD =>
      var f1 := f.(cmd := tx, addr := 0, addrBytes := 0, buf := []);
      if tx == CMD_WRITE_ENABLE then (f1.(wel := true, phase := IDLE), 0xFF)
      else if tx == CMD_READ_ID || tx == CMD_READ_STATUS then (f1.(phase := DATA), 0xFF)
      else (f1.(phase := ADDR), 0xFF)
    case ADDR =>
      var addr := f.addr * 0x100 + tx as int;
      if f.addrBytes + 1 == 3 then (f.(addr := addr % CAPACITY, addrBytes := 3, phase := DATA), 0xFF)
      else (f.(addr := addr, addrBytes := f.addrBytes + 1), 0xFF)
    case DATA => HandleData(f, tx)
  }

  function PageBase(addr: nat): nat { addr - addr % PAGE_SIZE }

  function SectorBase(addr: nat): nat { addr / SECTOR_SIZE * SECTOR_SIZE }

  /** NOR programming can only clear bits. */
  function Cleared(x: bv8, y: bv8): bv8 { x & y }

  /** Bytes `i` and later of the buffer are combined into the page. */
  function ProgramFrom(data: seq<bv8>, base: nat, buf: seq<bv8>, i: nat): (r: seq<bv8>)
    ensures |r| == |data|
    decreases |buf| - i
  {
    if i >= |buf| || i >= PAGE_SIZE then data
    else
      var a := base + i;
      ProgramFrom(if a < |data| then data[a := Cleared(data[a], buf[i])] else data, base, buf, i + 1)
  }

  function EraseSector(data: seq<bv8>, addr: nat): (r: seq<bv8>)
    ensures |r| == |data|
  {
    var base := SectorBase(addr);
    if base + SECTOR_SIZE > |data| then data
    else data[..base] + seq(SECTOR_SIZE, _ => 0xFF) + data[base + SECTOR_SIZE..]
  }

  function Commit(f: Flash): Flash {
    if f.cmd == CMD_PAGE_PROGRAM && f.wel && f.buf != [] then
      f.(data := ProgramFrom(f.data, PageBase(f.addr), f.buf, 0), wel := false)
    else if f.cmd == CMD_SECTOR_ERASE && f.wel then
      f.(data := EraseSector(f.data, f.addr), wel := false)
    else f
  }

  function Deassert(f: Flash): Flash { Commit(f).(phase := IDLE, buf := []) }

  const ERASED: bv8 := 0xFF

  ghost function PowerOn(): (f: Flash)
    ensures Valid(f)
  {
    Flash(IDLE, 0, 0, 0, [], false, seq(CAPACITY, _ => ERASED))
  }
}

module FlashChip {
  import opened FlashProtocol

  class W25Q32Flash {
    const data: array<bv8>
    var phase: Phase
    var cmd: bv8
    var addr: nat
    var addrBytes: nat
    var buf: seq<bv8>
    var wel: bool

    ghost predicate Wired() { data.Length == CAPACITY }

    ghost function Model(): Flash
      requires Wired()
      reads this, data
    {
      Flash(phase, cmd, addr, addrBytes, buf, wel, data[..])
    }

    constructor ()
      ensures Wired() && fresh(data) && Model() == PowerOn()
    {
      data := new bv8[CAPACITY](_ => ERASED);
      phase, cmd, addr, addrBytes, buf, wel := IDLE, 0, 0, 0, [], false;
      new;
      assert data[..] == PowerOn().data;
    }

    method CsAssert()
      requires Wired()
      modifies this
      ensures Model() == FlashProtocol.Assert(old(Model()))
    {
      phase, buf := CMD, [];
    }

    method CsDeassert()
      requires Wired() && Valid(Model())
      modifies this, data
      ensures Model() == Deassert(old(Model()))
    {
      Commit();
      phase, buf := IDLE, [];
    }

    method Exchange(tx: bv8) returns (rx: bv8)
      requires Wired() && Valid(Model())
      modifies this
      ensures (Model(), rx) == FlashProtocol.Exchange(old(Model()), tx)
    {
      rx := 0xFF;
      match phase
      case IDLE =>
      case CMD =>
        cmd, addr, addrBytes, buf := tx, 0, 0, [];
        if cmd == CMD_WRITE_ENABLE {
          wel, phase := true, IDLE;
        } else if cmd == CMD_READ_ID || cmd == CMD_READ_STATUS {
          phase := DATA;
        } else {
          phase := ADDR;
        }
      case ADDR =>
        addr := addr * 0x100 + tx as int;
        addrBytes := addrBytes + 1;
        if addrBytes == 3 { addr, phase := addr % CAPACITY, DATA; }
      case DATA =>
        rx := HandleData(tx);
    }

    method HandleData(tx: bv8) returns (rx: bv8)
      requires Wired() && addr < CAPACITY
      modifies this`addr, this`buf
      ensures (Model(), rx) == FlashProtocol.HandleData(old(Model()), tx)
    {
      rx := 0xFF;
      if cmd == CMD_READ_ID {
        var id := [0xEF, 0x40, 0x16];
        if |buf| < 3 { rx := id[|buf|]; }
        buf := buf + [tx];
      } else if cmd == CMD_READ_STATUS {
        rx := if wel then 0x02 else 0x00;
      } else if cmd == CMD_READ_DATA {
        rx := data[addr];
        addr := (addr + 1) % CAPACITY;
      } else if cmd == CMD_PAGE_PROGRAM {
        buf := buf + [tx];
      }
    }

    method Commit()
      requires Wired() && Valid(Model())
      modifies this`wel, data
      ensures Model() == FlashProtocol.Commit(old(Model()))
    {
      if cmd == CMD_PAGE_PROGRAM && wel && buf != [] {
        var base := PageBase(addr);
        for i := 0 to |buf|
          invariant ProgramFrom(data[..], base, buf, i) == ProgramFrom(old(data[..]), base, buf, 0)
        {
          if i < PAGE_SIZE && base + i < CAPACITY { data[base + i] := data[base + i] & buf[i]; }
          PastPage(data[..], base, buf, i);
        }
        wel := false;
      } else if cmd == CMD_SECTOR_ERASE && wel {
        EraseSector();
        wel := false;
      }
    }

    lemma PastPage(d: seq<bv8>, base: nat, b: seq<bv8>, i: nat)
      ensures i >= PAGE_SIZE ==> ProgramFrom(d, base, b, i) == d && ProgramFrom(d, base, b, i + 1) == d
    {
    }

    method EraseSector()
      requires Wired()
      modifies data
      ensures data[..] == FlashProtocol.EraseSector(old(data[..]), addr)
    {
      hide SectorBase;
      var base := SectorBase(addr);
      SectorFits(addr);
      if base >= CAPACITY { return; }
      for i := 0 to SECTOR_SIZE
        invariant forall a :: 0 <= a < CAPACITY ==> data[a] == if base <= a < base + i then 0xFF else old(data[a])
      {
        data[base + i] := 0xFF;
      }
      assert data[..] == FlashProtocol.EraseSector(old(data[..]), addr);
    }

    lemma SectorFits(at: nat)
      ensures SectorBase(at) < CAPACITY ==> SectorBase(at) + SECTOR_SIZE <= CAPACITY
    {
    }
  }
}

/** Every sequence of chip selects and bytes, and the program-then-read round trip. */
module FlashRuns {
  import opened FlashProtocol

  datatype Bus = Select | Release | Byte(tx: bv8)

  function After(f: Flash, e: Bus): Flash
    requires f.phase == DATA ==> f.addr < |f.data|
  {
    match e
    case Select => Assert(f)
    case Release => Deassert(f)
    case Byte(tx) => Exchange(f, tx).0
  }

  /** The two contents differ inside one page only, and only by cleared bits. */
  ghost predicate ClearsInPage(before: seq<bv8>, after: seq<bv8>, base: nat) {
    && |after| == |before| && base % PAGE_SIZE == 0
    && forall a :: 0 <= a < |before| ==>
         if base <= a < base + PAGE_SIZE then Cleared(after[a], before[a]) == after[a] else after[a] == before[a]
  }

  /** One sector is set to 0xFF and nothing else changes. */
  ghost predicate SectorErased(before: seq<bv8>, after: seq<bv8>, base: nat) {
    && |after| == |before| && base % SECTOR_SIZE == 0
    && forall a :: 0 <= a < |before| ==>
         after[a] == if base <= a < base + SECTOR_SIZE then 0xFF else before[a]
  }

  /** Each byte of the buffer, up to a page of them, is combined with the byte it falls on. */
  lemma {:induction false} ProgramAt(data: seq<bv8>, base: nat, buf: seq<bv8>, i: nat, a: nat)
    requires base + PAGE_SIZE <= |data| && a < |data|
    ensures ProgramFrom(data, base, buf, i)[a] ==
              if base + i <= a < base + |buf| && a < base + PAGE_SIZE then Cleared(data[a], buf[a - base]) else data[a]
    decreases |buf| - i
  {
    hide Cleared;
    if i < |buf| && i < PAGE_SIZE {
      ProgramAt(data[base + i := Cleared(data[base + i], buf[i])], base, buf, i + 1, a);
    }
  }

  /** What the page program leaves at an address. */
  function Programmed(data: seq<bv8>, base: nat, buf: seq<bv8>, a: nat): bv8
    requires a < |data|
  {
    if base <= a < base + |buf| && a < base + PAGE_SIZE then Cleared(data[a], buf[a - base]) else data[a]
  }

  lemma ProgramSpec(data: seq<bv8>, base: nat, buf: seq<bv8>)
    requires base + PAGE_SIZE <= |data|
    ensures forall a :: 0 <= a < |data| ==> ProgramFrom(data, base, buf, 0)[a] == Programmed(data, base, buf, a)
  {
    hide ProgramFrom, Cleared;
    forall a | 0 <= a < |data|
      ensures ProgramFrom(data, base, buf, 0)[a] == Programmed(data, base, buf, a)
    {
      ProgramAt(data, base, buf, 0, a);
    }
  }

  lemma PageInside(addr: nat)
    requires addr < CAPACITY
    ensures PageBase(addr) % PAGE_SIZE == 0 && PageBase(addr) + PAGE_SIZE <= CAPACITY
    ensures SectorBase(addr) % SECTOR_SIZE == 0 && SectorBase(addr) + SECTOR_SIZE <= CAPACITY
  {
  }

  lemma MaskClears(x: bv8, y: bv8)
    ensures Cleared(Cleared(x, y), x) == Cleared(x, y)
  {
  }

  lemma EventKeepsValid(f: Flash, e: Bus)
    requires Valid(f)
    ensures Valid(After(f, e))
  {
    hide ProgramFrom, EraseSector, Cleared, PageBase;
  }

  lemma ProgramClears(f: Flash)
    requires Valid(f) && f.cmd == CMD_PAGE_PROGRAM && f.wel && f.buf != []
    ensures ClearsInPage(f.data, Deassert(f).data, PageBase(f.addr))
  {
    hide ProgramFrom, PageBase;
    var base := PageBase(f.addr);
    PageInside(f.addr);
    ProgramSpec(f.data, base, f.buf);
    forall a | 0 <= a < CAPACITY
      ensures Cleared(Programmed(f.data, base, f.buf, a), f.data[a]) == Programmed(f.data, base, f.buf, a)
    {
      var i := a - base;
      if 0 <= i < |f.buf| { MaskClears(f.data[a], f.buf[i]); }
    }
  }

  lemma EraseSets(f: Flash)
    requires Valid(f) && f.cmd == CMD_SECTOR_ERASE && f.wel
    ensures SectorErased(f.data, Deassert(f).data, SectorBase(f.addr))
  {
    PageInside(f.addr);
  }

  /** Any bus event keeps the chip valid. Contents change only when the chip is released with the latch set,
      which clears the latch, and then either by clearing bits inside one page or by erasing one sector. */
  lemma EventSpec(f: Flash, e: Bus)
    requires Valid(f)
    ensures Valid(After(f, e))
    ensures After(f, e).data != f.data ==>
              && e == Release && f.wel && !After(f, e).wel
              && ((f.cmd == CMD_PAGE_PROGRAM && ClearsInPage(f.data, After(f, e).data, PageBase(f.addr)))
                  || (f.cmd == CMD_SECTOR_ERASE && SectorErased(f.data, After(f, e).data, SectorBase(f.addr))))
    ensures !f.wel && After(f, e).wel ==> f.phase == CMD && e == Byte(CMD_WRITE_ENABLE)
  {
    hide ProgramFrom, EraseSector, Cleared, PageBase, SectorBase, Valid, ClearsInPage, SectorErased;
    EventKeepsValid(f, e);
    if e == Release && f.wel {
      if f.cmd == CMD_PAGE_PROGRAM && f.buf != [] { ProgramClears(f); }
      if f.cmd == CMD_SECTOR_ERASE { EraseSets(f); }
    }
  }

  ghost function Run(f: Flash, es: seq<Bus>): (r: Flash)
    requires Valid(f)
    ensures Valid(r)
    decreases es
  {
    if es == [] then f
    else
      EventSpec(f, es[0]);
      Run(After(f, es[0]), es[1..])
  }

  /** How many events of the run change the contents. */
  ghost function Changes(f: Flash, es: seq<Bus>): nat
    requires Valid(f)
    decreases es
  {
    if es == [] then 0
    else
      EventSpec(f, es[0]);
      (if After(f, es[0]).data != f.data then 1 else 0) + Changes(After(f, es[0]), es[1..])
  }

  /** How many write-enable commands the run gives. */
  ghost function Enables(f: Flash, es: seq<Bus>): nat
    requires Valid(f)
    decreases es
  {
    if es == [] then 0
    else
      EventSpec(f, es[0]);
      (if f.phase == CMD && es[0] == Byte(CMD_WRITE_ENABLE) then 1 else 0) + Enables(After(f, es[0]), es[1..])
  }

  /** Over every run, each change of the contents has a write-enable command of its own. */
  lemma {:induction false} EveryChangeIsEnabled(f: Flash, es: seq<Bus>)
    requires Valid(f)
    ensures Changes(f, es) + (if Run(f, es).wel then 1 else 0) <= Enables(f, es) + if f.wel then 1 else 0
    decreases es
  {
    hide After;
    if es != [] {
      EventSpec(f, es[0]);
      EveryChangeIsEnabled(After(f, es[0]), es[1..]);
    }
  }

  // ---- Transactions ----

  /** Bytes exchanged one after the other: the state after them and the responses. */
  function Talk(f: Flash, tx: seq<bv8>): (r: (Flash, seq<bv8>))
    requires Valid(f)
    ensures Valid(r.0) && |r.1| == |tx|
    decreases tx
  {
    if tx == [] then (f, [])
    else
      EventSpec(f, Byte(tx[0]));
      var (f1, rx) := Exchange(f, tx[0]);
      var (f2, rest) := Talk(f1, tx[1..]);
      (f2, [rx] + rest)
  }

  /** One selected exchange of bytes. */
  function Transaction(f: Flash, tx: seq<bv8>): (r: (Flash, seq<bv8>))
    requires Valid(f)
    ensures Valid(r.0) && |r.1| == |tx|
  {
    EventSpec(f, Select);
    var (f1, rx) := Talk(Assert(f), tx);
    EventSpec(f1, Release);
    (Deassert(f1), rx)
  }

  /** The location that three address bytes stand for. */
  function Location(a2: bv8, a1: bv8, a0: bv8): (r: nat)
    ensures r < CAPACITY
  {
    ((a2 as int * 0x100 + a1 as int) * 0x100 + a0 as int) % CAPACITY
  }

  predicate TakesAddress(cmd: bv8) { cmd == CMD_PAGE_PROGRAM || cmd == CMD_READ_DATA || cmd == CMD_SECTOR_ERASE }

  /** The chip in the data phase of a command, after its address. */
  function Ready(f: Flash, cmd: bv8, at: nat): Flash { Flash(DATA, cmd, at, 3, [], f.wel, f.data) }

  /** Command and address leave the chip in the data phase. */
  lemma CommandAndAddress(f: Flash, cmd: bv8, a2: bv8, a1: bv8, a0: bv8, rest: seq<bv8>)
    requires Valid(f) && f.phase == CMD && TakesAddress(cmd)
    ensures var f1 := Ready(f, cmd, Location(a2, a1, a0));
            && Valid(f1)
            && Talk(f, [cmd, a2, a1, a0] + rest).0 == Talk(f1, rest).0
            && Talk(f, [cmd, a2, a1, a0] + rest).1[4..] == Talk(f1, rest).1
  {
    hide Valid, Talk;
    var tx := [cmd, a2, a1, a0] + rest;
    assert tx[4..] == rest;
    FourMore(f, tx);
    Addressed(f, cmd, a2, a1, a0);
  }

  lemma Addressed(f: Flash, cmd: bv8, a2: bv8, a1: bv8, a0: bv8)
    requires f.phase == CMD && TakesAddress(cmd)
    ensures var g1 := Exchange(f, cmd).0;
            && g1.phase == ADDR
            && var g2 := Exchange(g1, a2).0;
            && g2.phase == ADDR
            && var g3 := Exchange(g2, a1).0;
            && g3.phase == ADDR
            && Exchange(g3, a0).0 == Ready(f, cmd, Location(a2, a1, a0))
  {
    hide HandleData;
  }

  lemma TalkOne(f: Flash, tx: seq<bv8>)
    requires Valid(f) && tx != []
    ensures (f.phase == DATA ==> f.addr < |f.data|) && Valid(Exchange(f, tx[0]).0)
    ensures Talk(f, tx).0 == Talk(Exchange(f, tx[0]).0, tx[1..]).0
    ensures Talk(f, tx).1[1..] == Talk(Exchange(f, tx[0]).0, tx[1..]).1
  {
    EventSpec(f, Byte(tx[0]));
  }

  lemma TwoMore(f: Flash, tx: seq<bv8>)
    requires Valid(f) && |tx| >= 2
    ensures f.phase == DATA ==> f.addr < |f.data|
    ensures var g1 := Exchange(f, tx[0]).0;
            && (g1.phase == DATA ==> g1.addr < |g1.data|)
            && var g2 := Exchange(g1, tx[1]).0;
            && Valid(g2)
            && Talk(f, tx).0 == Talk(g2, tx[2..]).0
            && Talk(f, tx).1[2..] == Talk(g2, tx[2..]).1
  {
    hide Exchange, Talk, Valid;
    TalkOne(f, tx);
    TalkOne(Exchange(f, tx[0]).0, tx[1..]);
    assert tx[1..][1..] == tx[2..];
    assert Talk(f, tx).1[2..] == Talk(f, tx).1[1..][1..];
  }

  lemma FourMore(f: Flash, tx: seq<bv8>)
    requires Valid(f) && |tx| >= 4
    ensures f.phase == DATA ==> f.addr < |f.data|
    ensures var g1 := Exchange(f, tx[0]).0;
            && (g1.phase == DATA ==> g1.addr < |g1.data|)
            && var g2 := Exchange(g1, tx[1]).0;
            && (g2.phase == DATA ==> g2.addr < |g2.data|)
            && var g3 := Exchange(g2, tx[2]).0;
            && (g3.phase == DATA ==> g3.addr < |g3.data|)
            && var g4 := Exchange(g3, tx[3]).0;
            && Valid(g4)
            && Talk(f, tx).0 == Talk(g4, tx[4..]).0
            && Talk(f, tx).1[4..] == Talk(g4, tx[4..]).1
  {
    hide Exchange, Talk, Valid;
    TwoMore(f, tx);
    TwoMore(Exchange(Exchange(f, tx[0]).0, tx[1]).0, tx[2..]);
    assert tx[2..][2..] == tx[4..];
    assert Talk(f, tx).1[4..] == Talk(f, tx).1[2..][2..];
  }

  lemma {:induction false} TalkProgram(f: Flash, d: seq<bv8>)
    requires Valid(f) && f.phase == DATA && f.cmd == CMD_PAGE_PROGRAM
    ensures Talk(f, d).0 == f.(buf := f.buf + d)
    decreases d
  {
    if d == [] {
      assert f.buf + d == f.buf;
    } else {
      EventSpec(f, Byte(d[0]));
      TalkProgram(f.(buf := f.buf + [d[0]]), d[1..]);
      assert (f.buf + [d[0]]) + d[1..] == f.buf + d;
    }
  }

  /** `rx` is what the contents hold from `at` on, going round at the end. */
  ghost predicate ReadsFrom(data: seq<bv8>, at: nat, rx: seq<bv8>)
    requires |data| == CAPACITY
  {
    forall j :: 0 <= j < |rx| ==> rx[j] == data[(at + j) % CAPACITY]
  }

  lemma {:induction false} TalkRead(f: Flash, d: seq<bv8>)
    requires Valid(f) && f.phase == DATA && f.cmd == CMD_READ_DATA
    ensures Talk(f, d).0.data == f.data && Talk(f, d).0.wel == f.wel && Talk(f, d).0.cmd == CMD_READ_DATA
    ensures |f.data| == CAPACITY && ReadsFrom(f.data, f.addr, Talk(f, d).1)
    decreases d
  {
    hide Valid, EraseSector, ProgramFrom, Cleared;
    DataFits(f);
    if d != [] {
      EventSpec(f, Byte(d[0]));
      var f1 := f.(addr := (f.addr + 1) % CAPACITY);
      TalkRead(f1, d[1..]);
      ReadsOneMore(f.data, f.addr, Talk(f, d).1);
    }
  }

  lemma DataFits(f: Flash)
    requires Valid(f)
    ensures |f.data| == CAPACITY && f.addr < CAPACITY
  {
  }

  lemma ReadsOneMore(data: seq<bv8>, at: nat, rx: seq<bv8>)
    requires |data| == CAPACITY && at < CAPACITY && rx != [] && rx[0] == data[at]
    requires ReadsFrom(data, (at + 1) % CAPACITY, rx[1..])
    ensures ReadsFrom(data, at, rx)
  {
    forall j | 0 <= j < |rx|
      ensures rx[j] == data[(at + j) % CAPACITY]
    {
      if j > 0 {
        assert rx[1..][j - 1] == rx[j];
        assert ((at + 1) % CAPACITY + (j - 1)) % CAPACITY == (at + j) % CAPACITY;
      }
    }
  }

  function Enabled(f: Flash): (r: Flash)
    requires Valid(f)
    ensures Valid(r) && r.data == f.data
  {
    EnableSpec(f);
    Transaction(f, [CMD_WRITE_ENABLE]).0
  }

  lemma EnableSpec(f: Flash)
    requires Valid(f)
    ensures var r := Transaction(f, [CMD_WRITE_ENABLE]).0;
            r == Flash(IDLE, CMD_WRITE_ENABLE, 0, 0, [], true, f.data)
  {
    TalkOne(Assert(f), [CMD_WRITE_ENABLE]);
    assert [CMD_WRITE_ENABLE][1..] == [];
  }

  /** Write-enable followed by a page program, at any address and with any data: the page the address lies in
      takes the first 256 bytes from its start, old AND new, and nothing else changes. */
  lemma ProgramTransaction(f: Flash, a2: bv8, a1: bv8, a0: bv8, d: seq<bv8>)
    requires Valid(f) && d != []
    ensures var r := Transaction(Enabled(f), [CMD_PAGE_PROGRAM, a2, a1, a0] + d).0;
            && !r.wel && |r.data| == CAPACITY
            && forall a :: 0 <= a < CAPACITY ==> r.data[a] == Programmed(f.data, PageBase(Location(a2, a1, a0)), d, a)
  {
    hide Valid, Talk, Location, PageBase, ProgramFrom, Programmed, Exchange;
    EnableSpec(f);
    var f0 := Assert(Enabled(f));
    EventSpec(Enabled(f), Select);
    CommandAndAddress(f0, CMD_PAGE_PROGRAM, a2, a1, a0, d);
    var f1 := Ready(f0, CMD_PAGE_PROGRAM, Location(a2, a1, a0));
    TalkProgram(f1, d);
    assert [] + d == d;
    DataFits(f1);
    PageInside(f1.addr);
    ProgramSpec(f.data, PageBase(f1.addr), d);
  }

  /** Reading returns the bytes from the address on, going round at the end, and changes nothing. */
  lemma ReadTransaction(f: Flash, a2: bv8, a1: bv8, a0: bv8, dummy: seq<bv8>)
    requires Valid(f)
    ensures var (r, rx) := Transaction(f, [CMD_READ_DATA, a2, a1, a0] + dummy);
            && r.data == f.data && r.wel == f.wel
            && ReadsFrom(f.data, Location(a2, a1, a0), rx[4..])
  {
    hide Valid, Talk, Location, ReadsFrom, Exchange;
    DataFits(f);
    var f0 := Assert(f);
    EventSpec(f, Select);
    CommandAndAddress(f0, CMD_READ_DATA, a2, a1, a0, dummy);
    TalkRead(Ready(f0, CMD_READ_DATA, Location(a2, a1, a0)), dummy);
  }

  /** Write-enable, program, read: at every page-aligned address, for 1 to 256 bytes, the read returns old AND new
      byte by byte, and all other bytes are as before. */
  lemma ProgramThenRead(f: Flash, a2: bv8, a1: bv8, a0: bv8, d: seq<bv8>)
    requires Valid(f) && 1 <= |d| <= PAGE_SIZE && Location(a2, a1, a0) % PAGE_SIZE == 0
    ensures var at := Location(a2, a1, a0);
            var p := Transaction(Enabled(f), [CMD_PAGE_PROGRAM, a2, a1, a0] + d).0;
            var (r, rx) := Transaction(p, [CMD_READ_DATA, a2, a1, a0] + d);
            && at + |d| <= CAPACITY
            && rx[4..] == seq(|d|, j requires 0 <= j < |d| => f.data[at + j] & d[j])
            && r.data == f.data[..at] + rx[4..] + f.data[at + |d|..]
  {
    hide Transaction, Enabled, Valid, Location, PageBase, Programmed, ReadsFrom;
    DataFits(f);
    var at := Location(a2, a1, a0);
    AlignedFits(at);
    ProgrammedSpec(f.data, at, d);
    ProgramTransaction(f, a2, a1, a0, d);
    var p := Transaction(Enabled(f), [CMD_PAGE_PROGRAM, a2, a1, a0] + d).0;
    ReadTransaction(p, a2, a1, a0, d);
    MaskedBytes(f.data, p.data, at, d, Transaction(p, [CMD_READ_DATA, a2, a1, a0] + d).1[4..]);
  }

  lemma MaskedBytes(before: seq<bv8>, now: seq<bv8>, at: nat, d: seq<bv8>, rx: seq<bv8>)
    requires |before| == |now| == CAPACITY && at + |d| <= CAPACITY && |rx| == |d| && ReadsFrom(now, at, rx)
    requires forall a :: 0 <= a < CAPACITY ==> now[a] == if at <= a < at + |d| then before[a] & d[a - at] else before[a]
    ensures rx == seq(|d|, j requires 0 <= j < |d| => before[at + j] & d[j])
    ensures now == before[..at] + rx + before[at + |d|..]
  {
    forall j | 0 <= j < |d|
      ensures rx[j] == now[at + j] == before[at + j] & d[j]
    {
      assert (at + j) % CAPACITY == at + j;
    }
  }

  lemma ProgrammedSpec(data: seq<bv8>, at: nat, d: seq<bv8>)
    requires at + |d| <= |data| && |d| <= PAGE_SIZE
    ensures forall a :: 0 <= a < |data| ==>
              Programmed(data, at, d, a) == if at <= a < at + |d| then data[a] & d[a - at] else data[a]
  {
  }

  /** Write-enable followed by a sector erase: the sector the address lies in reads 0xFF, and nothing else changes. */
  lemma EraseTransaction(f: Flash, a2: bv8, a1: bv8, a0: bv8)
    requires Valid(f)
    ensures var r := Transaction(Enabled(f), [CMD_SECTOR_ERASE, a2, a1, a0]).0;
            !r.wel && SectorErased(f.data, r.data, SectorBase(Location(a2, a1, a0)))
  {
    hide Valid, Talk, Location, SectorBase, EraseSector, Exchange, SectorErased;
    EnableSpec(f);
    var f0 := Assert(Enabled(f));
    EventSpec(Enabled(f), Select);
    CommandAndAddress(f0, CMD_SECTOR_ERASE, a2, a1, a0, []);
    assert [CMD_SECTOR_ERASE, a2, a1, a0] == [CMD_SECTOR_ERASE, a2, a1, a0] + [];
    var f1 := Ready(f0, CMD_SECTOR_ERASE, Location(a2, a1, a0));
    TalkNothing(f1);
    EraseSets(f1);
  }

  lemma TalkNothing(f: Flash)
    requires Valid(f)
    ensures Talk(f, []) == (f, [])
  {
  }

  /** Erase, program, read at a page-aligned address gives back exactly the bytes written. */
  lemma EraseProgramRead(f: Flash, a2: bv8, a1: bv8, a0: bv8, d: seq<bv8>)
    requires Valid(f) && 1 <= |d| <= PAGE_SIZE && Location(a2, a1, a0) % PAGE_SIZE == 0
    ensures var e := Transaction(Enabled(f), [CMD_SECTOR_ERASE, a2, a1, a0]).0;
            var p := Transaction(Enabled(e), [CMD_PAGE_PROGRAM, a2, a1, a0] + d).0;
            Transaction(p, [CMD_READ_DATA, a2, a1, a0] + d).1[4..] == d
  {
    hide Transaction, Enabled, Valid, Location, SectorBase;
    DataFits(f);
    var at := Location(a2, a1, a0);
    EraseTransaction(f, a2, a1, a0);
    var e := Transaction(Enabled(f), [CMD_SECTOR_ERASE, a2, a1, a0]).0;
    ProgramThenRead(e, a2, a1, a0, d);
    PageInSector(at);
    forall j | 0 <= j < |d|
      ensures e.data[at + j] & d[j] == d[j]
    {
      OnesKeep(d[j]);
    }
  }

  lemma PageInSector(at: nat)
    requires at < CAPACITY && at % PAGE_SIZE == 0
    ensures SectorBase(at) <= at && at + PAGE_SIZE <= SectorBase(at) + SECTOR_SIZE
  {
  }

  lemma OnesKeep(x: bv8)
    ensures ERASED & x == x
  {
  }

  lemma AlignedFits(at: nat)
    requires at < CAPACITY && at % PAGE_SIZE == 0
    ensures PageBase(at) == at && at + PAGE_SIZE <= CAPACITY
  {
  }

  /** The alignment is needed: on an erased chip, programming a zero at any other address leaves that address
      erased, because the page is filled from its start. */
  lemma UnalignedProgramMisses(a2: bv8, a1: bv8, a0: bv8)
    requires Location(a2, a1, a0) % PAGE_SIZE != 0
    ensures var p := Transaction(Enabled(PowerOn()), [CMD_PAGE_PROGRAM, a2, a1, a0, 0]).0;
            Transaction(p, [CMD_READ_DATA, a2, a1, a0, 0]).1[4] == ERASED
  {
    hide Transaction, Enabled, Valid, Location;
    var d: seq<bv8> := [0];
    var f := PowerOn();
    assert [CMD_PAGE_PROGRAM, a2, a1, a0, 0] == [CMD_PAGE_PROGRAM, a2, a1, a0] + d;
    assert [CMD_READ_DATA, a2, a1, a0, 0] == [CMD_READ_DATA, a2, a1, a0] + d;
    ProgramTransaction(f, a2, a1, a0, d);
    var p := Transaction(Enabled(f), [CMD_PAGE_PROGRAM, a2, a1, a0] + d).0;
    ReadTransaction(p, a2, a1, a0, d);
    var rx := Transaction(p, [CMD_READ_DATA, a2, a1, a0] + d).1;
    assert rx[4..][0] == p.data[(Location(a2, a1, a0) + 0) % CAPACITY];
  }

  /** The capacity of 64 KB masks the first address byte away, and the other two count high byte first. */
  lemma LocationSpec(a2: bv8, a1: bv8, a0: bv8)
    ensures Location(a2, a1, a0) == 0x100 * a1 as int + a0 as int
  {
    BelowCapacity(a2 as int, 0x100 * a1 as int + a0 as int);
  }

  lemma BelowCapacity(top: nat, low: nat)
    requires low < CAPACITY
    ensures (CAPACITY * top + low) % CAPACITY == low
  {
  }

  ghost predicate AllOnes(rx: seq<bv8>) { forall j :: 0 <= j < |rx| ==> rx[j] == 0xFF }

  /** While command and address go out, the chip answers 0xFF. */
  lemma FirstReplies(f: Flash, cmd: bv8, a2: bv8, a1: bv8, a0: bv8, rest: seq<bv8>)
    requires Valid(f) && TakesAddress(cmd)
    ensures AllOnes(Transaction(f, [cmd, a2, a1, a0] + rest).1[..4])
  {
    hide Valid, HandleData;
    var tx := [cmd, a2, a1, a0] + rest;
    EventSpec(f, Select);
    FourReplies(Assert(f), tx);
  }

  lemma FourReplies(f: Flash, tx: seq<bv8>)
    requires Valid(f) && |tx| >= 4 && f.phase == CMD && TakesAddress(tx[0])
    ensures AllOnes(Talk(f, tx).1[..4])
  {
    hide Valid, HandleData;
    OneReply(f, tx);
    var g1, tx1 := Exchange(f, tx[0]).0, tx[1..];
    OneReply(g1, tx1);
    var g2, tx2 := Exchange(g1, tx1[0]).0, tx1[1..];
    OneReply(g2, tx2);
    var g3, tx3 := Exchange(g2, tx2[0]).0, tx2[1..];
    OneReply(g3, tx3);
    var rx := Talk(f, tx).1;
    assert rx[1] == rx[1..][0] && rx[2] == rx[1..][1..][0] && rx[3] == rx[1..][1..][1..][0];
  }

  lemma OneReply(f: Flash, tx: seq<bv8>)
    requires Valid(f) && tx != []
    ensures (f.phase == DATA ==> f.addr < |f.data|) && Valid(Exchange(f, tx[0]).0)
    ensures Talk(f, tx).1[0] == Exchange(f, tx[0]).1
    ensures Talk(f, tx).1[1..] == Talk(Exchange(f, tx[0]).0, tx[1..]).1
    ensures Talk(f, tx).0 == Talk(Exchange(f, tx[0]).0, tx[1..]).0
  {
    hide Exchange;
    EventSpec(f, Byte(tx[0]));
  }

  /** The reply to the `j`-th byte after the read-ID command: manufacturer, type and capacity, then 0xFF. */
  function IdByte(j: nat): bv8 {
    match j
    case 0 => 0xEF
    case 1 => 0x40
    case 2 => 0x16
    case _ => 0xFF
  }

  lemma {:induction false} TalkId(f: Flash, d: seq<bv8>)
    requires Valid(f) && f.phase == DATA && f.cmd == 0x9F
    ensures var (f1, rx) := Talk(f, d);
            && f1.data == f.data && f1.wel == f.wel && f1.cmd == 0x9F
            && forall j :: 0 <= j < |d| ==> rx[j] == IdByte(|f.buf| + j)
    decreases d
  {
    hide Valid;
    if d != [] {
      OneReply(f, d);
      TalkId(Exchange(f, d[0]).0, d[1..]);
      var rx := Talk(f, d).1;
      forall j | 0 < j < |d|
        ensures rx[j] == IdByte(|f.buf| + j)
      {
        assert rx[j] == rx[1..][j - 1];
      }
    }
  }

  lemma {:induction false} TalkStatus(f: Flash, d: seq<bv8>)
    requires Valid(f) && f.phase == DATA && f.cmd == 0x05
    ensures Talk(f, d).0 == f
    ensures forall j :: 0 <= j < |d| ==> Talk(f, d).1[j] == if f.wel then 0x02 else 0x00
    decreases d
  {
    hide Valid;
    if d != [] {
      OneReply(f, d);
      TalkStatus(f, d[1..]);
      var rx := Talk(f, d).1;
      forall j | 0 < j < |d|
        ensures rx[j] == if f.wel then 0x02 else 0x00
      {
        assert rx[j] == rx[1..][j - 1];
      }
    }
  }

  /** Reading the ID answers 0xFF to the command, then 0xEF, 0x40, 0x16, and 0xFF from then on; nothing changes. */
  lemma ReadIdTransaction(f: Flash, d: seq<bv8>)
    requires Valid(f)
    ensures var (r, rx) := Transaction(f, [0x9F] + d);
            && r.data == f.data && r.wel == f.wel && |rx| == 1 + |d|
            && rx[0] == 0xFF && forall j :: 0 < j <= |d| ==> rx[j] == IdByte(j - 1)
  {
    hide Valid, HandleData;
    EventSpec(f, Select);
    var tx := [0x9F] + d;
    assert tx[1..] == d;
    OneReply(Assert(f), tx);
    TalkId(Exchange(Assert(f), 0x9F).0, d);
    var rx := Talk(Assert(f), tx).1;
    assert forall j :: 0 < j <= |d| ==> rx[j] == rx[1..][j - 1];
  }

  /** Reading the status answers 0xFF to the command, then shows the write-enable latch in bit 1 as often as it is asked;
      nothing changes. */
  lemma ReadStatusTransaction(f: Flash, d: seq<bv8>)
    requires Valid(f)
    ensures var (r, rx) := Transaction(f, [0x05] + d);
            && r.data == f.data && r.wel == f.wel && |rx| == 1 + |d|
            && rx[0] == 0xFF && forall j :: 0 < j <= |d| ==> rx[j] == if f.wel then 0x02 else 0x00
  {
    hide Valid, HandleData;
    EventSpec(f, Select);
    var tx := [0x05] + d;
    assert tx[1..] == d;
    OneReply(Assert(f), tx);
    TalkStatus(Exchange(Assert(f), 0x05).0, d);
    var rx := Talk(Assert(f), tx).1;
    assert forall j :: 0 < j <= |d| ==> rx[j] == rx[1..][j - 1];
  }

  /** After the command byte nothing but the release touches the latch or the contents. */
  lemma {:induction false} TalkKeeps(f: Flash, d: seq<bv8>)
    requires Valid(f) && f.phase != CMD
    ensures var f1 := Talk(f, d).0;
            f1.data == f.data && f1.wel == f.wel && f1.cmd == f.cmd && f1.phase != CMD
    decreases d
  {
    hide Valid;
    if d != [] {
      OneReply(f, d);
      TalkKeeps(Exchange(f, d[0]).0, d[1..]);
    }
  }

  /** Only three commands have an effect, and two of them only on a chip that was write-enabled: any other transaction
      leaves contents and latch alone. */
  lemma HarmlessTransaction(f: Flash, tx: seq<bv8>)
    requires Valid(f) && tx != [] && tx[0] != 0x06 && (f.wel ==> tx[0] != 0x02 && tx[0] != 0x20)
    ensures Transaction(f, tx).0.data == f.data && Transaction(f, tx).0.wel == f.wel
  {
    hide Valid, HandleData, ProgramFrom, EraseSector;
    EventSpec(f, Select);
    OneReply(Assert(f), tx);
    TalkKeeps(Exchange(Assert(f), tx[0]).0, tx[1..]);
  }
}

/** The SPI master in front of the chip: chip select and burst transfers. */
module SpiMaster {
  import opened FlashProtocol
  import opened FlashChip
  import opened FlashRuns

  const BURST_REGS: nat := 64

  class Spi {
    const flash: W25Q32Flash
    const burstTx: array<bv8>
    const burstRx: array<bv8>
    var burstLen: nat
    var csActive: bool
    var nssLow: bool

    ghost predicate Wired()
      reads this, flash, flash.data
    {
      && burstTx.Length == BURST_REGS && burstRx.Length == BURST_REGS
      && burstTx != burstRx && burstTx != flash.data && burstRx != flash.data
      && flash.Wired() && Valid(flash.Model())
    }

    constructor ()
      ensures Wired() && fresh(flash) && fresh(flash.data) && fresh(burstTx) && fresh(burstRx)
      ensures flash.Model() == PowerOn() && burstLen == 1 && !csActive && !nssLow
    {
      flash := new W25Q32Flash();
      burstTx := new bv8[BURST_REGS](_ => 0);
      burstRx := new bv8[BURST_REGS](_ => 0);
      burstLen, csActive, nssLow := 1, false, false;
    }

    /** The length register counts words; the transfer stops at the end of the registers. */
    function BurstBytes(): (n: nat)
      reads this
      ensures n <= BURST_REGS
    {
      if 4 * burstLen < BURST_REGS then 4 * burstLen else BURST_REGS
    }

    method SetNss(low: bool)
      requires Wired()
      modifies this`csActive, this`nssLow, flash, flash.data
      ensures Wired() && csActive == low && nssLow == low
      ensures flash.Model() == if low && !old(csActive) then Assert(old(flash.Model()))
                               else if !low && old(csActive) then Deassert(old(flash.Model()))
                               else old(flash.Model())
    {
      EventKeepsValid(flash.Model(), Select);
      EventKeepsValid(flash.Model(), Release);
      if low && !csActive {
        flash.CsAssert();
        csActive := true;
      } else if !low && csActive {
        flash.CsDeassert();
        csActive := false;
      }
      nssLow := low;
    }

    method TransferByte(tx: bv8) returns (rx: bv8)
      requires Wired()
      modifies flash
      ensures Wired()
      ensures (flash.Model(), rx) == if csActive then Exchange(old(flash.Model()), tx) else (old(flash.Model()), 0xFF)
    {
      EventKeepsValid(flash.Model(), Byte(tx));
      if csActive { rx := flash.Exchange(tx); } else { rx := 0xFF; }
    }

    static lemma TalkFrom(f: Flash, tx: seq<bv8>, i: nat)
      requires Valid(f) && i < |tx|
      ensures f.phase == DATA ==> f.addr < |f.data|
      ensures Valid(Exchange(f, tx[i]).0)
      ensures Talk(f, tx[i..]) == (Talk(Exchange(f, tx[i]).0, tx[i + 1..]).0,
                                   [Exchange(f, tx[i]).1] + Talk(Exchange(f, tx[i]).0, tx[i + 1..]).1)
    {
      hide Exchange;
      EventSpec(f, Byte(tx[i]));
      assert tx[i..][0] == tx[i] && tx[i..][1..] == tx[i + 1..];
    }

    /** A burst on an idle bus is one whole transaction; on a selected chip it carries on the one under way. */
    method DoBurst()
      requires Wired()
      modifies this`csActive, this`nssLow, burstRx, flash, flash.data
      ensures Wired() && !csActive && !nssLow
      ensures var n := if burstLen < 16 then 4 * burstLen else 64;
              && burstRx[n..] == old(burstRx[n..])
              && (!old(csActive) ==>
                    (flash.Model(), burstRx[..n]) == Transaction(old(flash.Model()), old(burstTx[..n])))
              && (old(csActive) ==>
                    var (f, rx) := Talk(old(flash.Model()), old(burstTx[..n]));
                    flash.Model() == Deassert(f) && burstRx[..n] == rx)
    {
      hide Exchange, Assert, Deassert, Valid, Talk;
      EventKeepsValid(flash.Model(), Select);
      if !csActive {
        flash.CsAssert();
        csActive := true;
      }
      var n := BurstBytes();
      ghost var tx := burstTx[..n];
      ghost var (f, rx) := Talk(flash.Model(), tx);
      for i := 0 to n
        invariant Wired() && csActive && burstTx[..n] == tx
        invariant burstRx[n..] == old(burstRx[n..])
        invariant f == Talk(flash.Model(), tx[i..]).0
        invariant rx == burstRx[..i] + Talk(flash.Model(), tx[i..]).1
      {
        TalkFrom(flash.Model(), tx, i);
        burstRx[i] := TransferByte(burstTx[i]);
        assert burstRx[..i + 1] == burstRx[..i] + [burstRx[i]];
      }
      EventKeepsValid(flash.Model(), Release);
      TalkNothing(flash.Model());
      assert tx[n..] == [] && burstRx[..n] == rx;
      flash.CsDeassert();
      csActive := false;
      nssLow := false;
    }
  }
}
