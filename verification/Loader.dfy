/** Intel HEX text: what one line, and a whole file, does to memory. */
module HexFormat {
  import opened MemoryMap

  datatype Option<+T> = None | Some(value: T)

  datatype LoadError = ShortRecord | BadHexByte | BadChecksum | UnknownType(kind: byte) | LoadFault(addr: u32)

  datatype Progress = Progress(mem: Bytes, base: u32, entry: u32)

  datatype Outcome = Running(p: Progress) | Returned(mem: Bytes, entry: u32) | Failed(mem: Bytes, error: LoadError)

  const SHORTEST: nat := 11

  function Digit(c: char): (d: int)
    ensures -1 <= d < 16
  {
    if '0' <= c <= '9' then c as int - '0' as int
    else if 'a' <= c <= 'f' then c as int - 'a' as int + 10
    else if 'A' <= c <= 'F' then c as int - 'A' as int + 10
    else -1
  }

  /** Two characters as a byte. Only the first has to be a digit: parsing stops at a second one that is not. */
  function ByteOf(c1: char, c2: char): Option<byte> {
    var d1 := Digit(c1);
    var d2 := Digit(c2);
    if d1 < 0 then None else if d2 < 0 then Some(d1) else Some(0x10 * d1 + d2)
  }

  /** A line is followed by its terminator. */
  function CharAt(line: string, i: nat): char { if i < |line| then line[i] else '\0' }

  function ByteAt(line: string, i: nat): Option<byte> { ByteOf(CharAt(line, i), CharAt(line, i + 1)) }

  function ReadBytes(line: string, at: nat, n: nat): (r: Option<seq<byte>>)
    ensures r.Some? ==> |r.value| == n
    decreases n
  {
    if n == 0 then Some([])
    else
      match ByteAt(line, at)
      case None => None
      case Some(b) =>
        match ReadBytes(line, at + 2, n - 1)
        case None => None
        case Some(rest) => Some([b] + rest)
  }

  function Total(bs: seq<byte>): nat { if bs == [] then 0 else bs[0] + Total(bs[1..]) }

  /** The bytes that the text after the colon spells, checksum included. */
  function Pairs(line: string): nat
    requires line != ""
  {
    (|line| - 1) / 2
  }

  /** Two bytes as a number, high byte first. */
  function Pair(hi: int, lo: int): int { hi * 0x100 + lo }

  predicate Ending(c: char) { c == '\r' || c == '\n' }

  function Strip(line: string): (r: string)
    ensures line != "" && !Ending(line[0]) ==> r != "" && r[0] == line[0]
    decreases |line|
  {
    if line != "" && Ending(line[|line| - 1]) then Strip(line[..|line| - 1]) else line
  }

  function ShiftIn(entry: u32, bs: seq<byte>): u32
    decreases bs
  {
    if bs == [] then entry else ShiftIn((entry * 0x100 + bs[0]) % TWO32, bs[1..])
  }

  function LoadRecord(p: Progress, line: string, count: byte, offset: nat, kind: byte): Outcome
    requires offset < 0x1_0000
  {
    if kind == 0x00 then
      match ReadBytes(line, 9, count)
      case None => Failed(p.mem, BadHexByte)
      case Some(d) =>
        var addr := (p.base + offset) % TWO32;
        if Accessible(addr, |d|) then Running(p.(mem := Store(p.mem, Flat(addr), d))) else Failed(p.mem, LoadFault(addr))
    else if kind == 0x01 then Returned(p.mem, p.entry)
    else if kind == 0x02 || kind == 0x04 then
      match ReadBytes(line, 9, 2)
      case None => Failed(p.mem, BadHexByte)
      case Some(d) => Running(p.(base := Pair(d[0], d[1]) * if kind == 0x02 then 0x10 else 0x1_0000))
    else if kind == 0x05 then
      match ReadBytes(line, 9, 4)
      case None => Failed(p.mem, BadHexByte)
      case Some(d) => Running(p.(entry := ShiftIn(p.entry, d)))
    else Failed(p.mem, UnknownType(kind))
  }

  /** The checksum of a line, and the error when it is wrong. */
  function Checked(line: string): Option<LoadError>
    requires line != ""
  {
    match ReadBytes(line, 1, Pairs(line))
    case None => Some(BadHexByte)
    case Some(bs) => if Total(bs) % 0x100 == 0 then None else Some(BadChecksum)
  }

  function LoadLine(p: Progress, raw: string): Outcome {
    if raw == "" || raw[0] != ':' then Running(p)
    else if |raw| < SHORTEST then Failed(p.mem, ShortRecord)
    else
      var line := Strip(raw);
      if Checked(line).Some? then Failed(p.mem, Checked(line).value)
      else
        match ReadBytes(line, 1, 4)
        case None => Failed(p.mem, BadHexByte)
        case Some(h) => LoadRecord(p, line, h[0], Pair(h[1], h[2]), h[3])
  }

  function Feed(p: Progress, lines: seq<string>): Outcome
    decreases lines
  {
    if lines == [] then Running(p)
    else
      match LoadLine(p, lines[0])
      case Running(q) => Feed(q, lines[1..])
      case Returned(m, e) => Returned(m, e)
      case Failed(m, e) => Failed(m, e)
  }

  function AtEnd(o: Outcome): (r: Outcome)
    ensures !r.Running?
  {
    if o.Running? then Returned(o.p.mem, o.p.entry) else o
  }

  function LoadHex(m: Bytes, lines: seq<string>): (r: Outcome)
    ensures !r.Running?
  {
    AtEnd(Feed(Progress(m, 0, 0), lines))
  }
}

/** The loader, working line by line on a memory object. */
module HexLoader {
  import opened MemoryMap
  import opened HexFormat
  import opened Processor

  class Loader {
    constructor () {}

    method VerifyChecksum(line: string) returns (error: Option<LoadError>)
      requires line != ""
      ensures error == Checked(line)
    {
      hide ByteAt, ReadBytes, Total;
      var sum: byte := 0;
      var count := Pairs(line);
      ghost var all := ReadBytes(line, 1, count);
      for i := 0 to count
        invariant all.Some? == ReadBytes(line, 1 + 2 * i, count - i).Some?
        invariant all.Some? ==> Total(all.value) % 0x100 == (sum + Total(ReadBytes(line, 1 + 2 * i, count - i).value)) % 0x100
      {
        OneByte(line, 1 + 2 * i, count - i);
        var b := ByteAt(line, 1 + i * 2);
        if b.None? { return Some(BadHexByte); }
        sum := (sum + b.value) % 0x100;
      }
      NoBytes(line, 1 + 2 * count);
      error := if sum != 0 then Some(BadChecksum) else None;
    }

    lemma OneByte(line: string, at: nat, n: nat)
      requires n > 0
      ensures var here, next := ReadBytes(line, at, n), ReadBytes(line, at + 2, n - 1);
              && here.Some? == (ByteAt(line, at).Some? && next.Some?)
              && (here.Some? ==> Total(here.value) == ByteAt(line, at).value + Total(next.value))
    {
      hide ByteAt;
    }

    lemma NoBytes(line: string, at: nat)
      ensures ReadBytes(line, at, 0).Some? && Total(ReadBytes(line, at, 0).value) == 0
    {
    }

    method DropEnding(raw: string) returns (line: string)
      ensures line == Strip(raw)
    {
      line := raw;
      while line != "" && Ending(line[|line| - 1])
        invariant Strip(line) == Strip(raw)
        decreases |line|
      {
        line := line[..|line| - 1];
      }
    }

    method ReadData(line: string, at: nat, n: nat) returns (r: Option<seq<byte>>)
      ensures r == ReadBytes(line, at, n)
    {
      var data: seq<byte> := [];
      for i := 0 to n
        invariant |data| == i
        invariant ReadBytes(line, at, n).Some? == ReadBytes(line, at + 2 * i, n - i).Some?
        invariant ReadBytes(line, at, n).Some? ==> ReadBytes(line, at, n).value == data + ReadBytes(line, at + 2 * i, n - i).value
      {
        var b := ByteAt(line, at + 2 * i);
        if b.None? { return None; }
        ghost var next := ReadBytes(line, at + 2 * (i + 1), n - (i + 1));
        assert next.Some? ==> data + ([b.value] + next.value) == (data + [b.value]) + next.value;
        data := data + [b.value];
      }
      assert data + [] == data;
      r := Some(data);
    }

    method LoadIhex(bus: FlatMemoryBus, lines: seq<string>) returns (entry: u32, error: Option<LoadError>)
      requires bus.Valid()
      modifies bus.data
      ensures match LoadHex(old(bus.Model()), lines)
              case Returned(m, e) => bus.Model() == m && error == None && entry == e
              case Failed(m, e) => bus.Model() == m && error == Some(e)
    {
      hide ReadBytes, LoadRecord, Strip, Checked;
      var base: u32 := 0;
      entry, error := 0, None;
      ghost var all := LoadHex(bus.Model(), lines);
      for n := 0 to |lines|
        invariant AtEnd(Feed(Progress(bus.Model(), base, entry), lines[n..])) == all
        invariant error == None
      {
        var raw := lines[n];
        assert lines[n..][0] == raw && lines[n..][1..] == lines[n + 1..];
        ghost var here := LoadLine(Progress(bus.Model(), base, entry), raw);
        if raw == "" || raw[0] != ':' { continue; }
        if |raw| < SHORTEST { return entry, Some(ShortRecord); }
        var line := DropEnding(raw);
        error := VerifyChecksum(line);
        if error.Some? { return; }
        var header := ReadData(line, 1, 4);
        if header.None? { return entry, Some(BadHexByte); }
        var done;
        var h := header.value;
        base, entry, done, error := DoRecord(bus, line, h[0], Pair(h[1], h[2]), h[3], base, entry);
        if done || error.Some? { return; }
      }
      assert lines[|lines|..] == [];
    }

    method DoRecord(bus: FlatMemoryBus, line: string, count: byte, offset: nat, kind: byte, base0: u32, entry0: u32)
      returns (base: u32, entry: u32, done: bool, error: Option<LoadError>)
      requires bus.Valid() && offset < 0x1_0000
      modifies bus.data
      ensures match LoadRecord(Progress(old(bus.Model()), base0, entry0), line, count, offset, kind)
              case Running(q) => q == Progress(bus.Model(), base, entry) && !done && error == None
              case Returned(m, e) => bus.Model() == m && entry == e && done && error == None
              case Failed(m, e) => bus.Model() == m && error == Some(e)
    {
      hide ReadBytes, Store;
      base, entry, done, error := base0, entry0, false, None;
      if kind == 0x00 {
        var d := ReadData(line, 9, count);
        if d.None? { error := Some(BadHexByte); return; }
        var addr: u32 := (base + offset) % TWO32;
        var ok := bus.Load(addr, d.value);
        if !ok { error := Some(LoadFault(addr)); }
      } else if kind == 0x01 {
        done := true;
      } else if kind == 0x02 || kind == 0x04 {
        var d := ReadData(line, 9, 2);
        if d.None? { error := Some(BadHexByte); return; }
        base := Pair(d.value[0], d.value[1]) * if kind == 0x02 then 0x10 else 0x1_0000;
      } else if kind == 0x05 {
        var d := ReadData(line, 9, 4);
        if d.None? { error := Some(BadHexByte); return; }
        for i := 0 to 4
          invariant ShiftIn(entry, d.value[i..]) == ShiftIn(entry0, d.value)
        {
          entry := (entry * 0x100 + d.value[i]) % TWO32;
          assert d.value[i..][1..] == d.value[i + 1..];
        }
      } else {
        error := Some(UnknownType(kind));
      }
    }
  }
}

/** Printing records, the round trip through the loader, and what the checksum detects. */
module HexRoundTrip {
  import opened MemoryMap
  import opened HexFormat

  /** Bytes for a place in memory, given by a 32-bit address, or by a segment and an offset in it. */
  datatype Chunk = Linear(addr: u32, data: seq<byte>) | Segmented(segment: Word16, offset: Word16, data: seq<byte>)

  type Word16 = x: int | 0 <= x < 0x1_0000

  /** Where the chunk goes; segments start every 16 bytes. */
  function Address(c: Chunk): u32 { if c.Linear? then c.addr else 16 * c.segment + c.offset }

  /** The part of the address that the record in front of the data gives, and the part that is left. */
  function Base(c: Chunk): u32 { if c.Linear? then c.addr / 0x1_0000 * 0x1_0000 else 16 * c.segment }

  function Offset(c: Chunk): Word16 { if c.Linear? then c.addr % 0x1_0000 else c.offset }

  /** A chunk fits one data record and lies in mapped memory. */
  predicate Printable(c: Chunk) { |c.data| <= 0xFF && Accessible(Address(c), |c.data|) }

  predicate AllPrintable(cs: seq<Chunk>) { forall i :: 0 <= i < |cs| ==> Printable(cs[i]) }

  function HexChar(d: nat): (c: char)
    requires d < 16
    ensures Digit(c) == d && !Ending(c)
  {
    "0123456789ABCDEF"[d]
  }

  function Text(bs: seq<byte>): (t: string)
    ensures |t| == 1 + 2 * |bs|
  {
    [':'] + seq(2 * |bs|, i requires 0 <= i < 2 * |bs| => HexChar(if i % 2 == 0 then bs[i / 2] / 0x10 else bs[i / 2] % 0x10))
  }

  function Sealed(body: seq<byte>): (r: seq<byte>)
    ensures |r| == |body| + 1
  {
    body + [(0x100 - Total(body) % 0x100) % 0x100]
  }

  function Record(body: seq<byte>): (r: string)
    ensures |r| == 2 * |body| + 3
  {
    Text(Sealed(body))
  }

  function BaseBody(c: Chunk): seq<byte> {
    match c
    case Linear(addr, _) => [2, 0, 0, 4, addr / 0x1_0000 / 0x100, addr / 0x1_0000 % 0x100]
    case Segmented(segment, _, _) => [2, 0, 0, 2, segment / 0x100, segment % 0x100]
  }

  function DataBody(c: Chunk): seq<byte>
    requires |c.data| <= 0xFF
  {
    [|c.data|, Offset(c) / 0x100, Offset(c) % 0x100, 0] + c.data
  }

  function StartBody(entry: u32): seq<byte> {
    [4, 0, 0, 5, entry / 0x100_0000, entry / 0x1_0000 % 0x100, entry / 0x100 % 0x100, entry % 0x100]
  }

  /** The bodies of the records of a file: two for each chunk, then the start address and the end of file. */
  function Bodies(cs: seq<Chunk>, entry: u32): (r: seq<seq<byte>>)
    requires AllPrintable(cs)
    decreases cs
    ensures |r| == 2 * |cs| + 2 && forall b :: b in r ==> |b| >= 4
  {
    if cs == [] then [StartBody(entry), [0, 0, 0, 1]]
    else [BaseBody(cs[0]), DataBody(cs[0])] + Bodies(cs[1..], entry)
  }

  /** Each body printed as a record with its checksum and a line ending. */
  function Print(bodies: seq<seq<byte>>, ending: string): (lines: seq<string>)
    ensures |lines| == |bodies|
    decreases bodies
  {
    if bodies == [] then [] else [Record(bodies[0]) + ending] + Print(bodies[1..], ending)
  }

  function StoreAll(m: Bytes, cs: seq<Chunk>): Bytes
    requires AllPrintable(cs)
    decreases cs
  {
    if cs == [] then m else StoreAll(Store(m, Flat(Address(cs[0])), cs[0].data), cs[1..])
  }

  // ---- Reading back what was printed ----

  ghost predicate Spells(line: string, at: nat, bs: seq<byte>) {
    forall k :: 0 <= k < |bs| ==> ByteAt(line, at + 2 * k) == Some(bs[k])
  }

  lemma {:induction false} ReadSpelled(line: string, at: nat, bs: seq<byte>)
    requires Spells(line, at, bs)
    ensures ReadBytes(line, at, |bs|) == Some(bs)
    decreases bs
  {
    hide ByteAt;
    if bs == [] {
      assert ReadBytes(line, at, 0) == Some([]);
    } else {
      assert ByteAt(line, at + 2 * 0) == Some(bs[0]);
      forall k | 0 <= k < |bs[1..]|
        ensures ByteAt(line, at + 2 + 2 * k) == Some(bs[1..][k])
      {
        assert bs[1..][k] == bs[k + 1] && at + 2 * (k + 1) == at + 2 + 2 * k;
      }
      ReadSpelled(line, at + 2, bs[1..]);
      assert [bs[0]] + bs[1..] == bs;
      assert ByteAt(line, at) == Some(bs[0]);
    }
  }

  lemma {:induction false} ReadSpells(line: string, at: nat, n: nat)
    requires ReadBytes(line, at, n).Some?
    ensures Spells(line, at, ReadBytes(line, at, n).value)
    decreases n
  {
    hide ByteAt;
    if n > 0 {
      var bs := ReadBytes(line, at, n).value;
      ReadSpells(line, at + 2, n - 1);
      var rest := ReadBytes(line, at + 2, n - 1).value;
      forall k | 0 <= k < |bs|
        ensures ByteAt(line, at + 2 * k) == Some(bs[k])
      {
        if k > 0 { assert rest[k - 1] == bs[k] && at + 2 + 2 * (k - 1) == at + 2 * k; }
      }
    }
  }

  lemma HexByte(b: byte)
    ensures ByteOf(HexChar(b / 0x10), HexChar(b % 0x10)) == Some(b)
  {
    hide HexChar, Digit;
  }

  lemma TextAt(bs: seq<byte>, k: nat)
    requires k < |bs|
    ensures Text(bs)[1 + 2 * k] == HexChar(bs[k] / 0x10) && Text(bs)[2 + 2 * k] == HexChar(bs[k] % 0x10)
  {
    hide HexChar;
  }

  lemma TextSpells(bs: seq<byte>)
    ensures Spells(Text(bs), 1, bs)
  {
    hide ByteOf, HexChar, Text;
    forall k | 0 <= k < |bs|
      ensures ByteAt(Text(bs), 1 + 2 * k) == Some(bs[k])
    {
      TextAt(bs, k);
      HexByte(bs[k]);
    }
  }

  lemma SpellsPart(line: string, bs: seq<byte>, from: nat, to: nat)
    requires Spells(line, 1, bs) && from <= to <= |bs|
    ensures Spells(line, 1 + 2 * from, bs[from..to])
  {
    hide ByteAt;
    forall k | 0 <= k < to - from
      ensures ByteAt(line, 1 + 2 * from + 2 * k) == Some(bs[from..to][k])
    {
      assert bs[from..to][k] == bs[from + k] && 1 + 2 * (from + k) == 1 + 2 * from + 2 * k;
    }
  }

  lemma {:induction false} TotalAppends(a: seq<byte>, b: byte)
    ensures Total(a + [b]) == Total(a) + b
    decreases a
  {
    if a == [] {
      assert a + [b] == [b] && [b][1..] == [];
    } else {
      assert (a + [b])[1..] == a[1..] + [b];
      TotalAppends(a[1..], b);
    }
  }

  lemma SealBalances(body: seq<byte>)
    ensures Total(Sealed(body)) % 0x100 == 0
  {
    TotalAppends(body, (0x100 - Total(body) % 0x100) % 0x100);
  }

  predicate Endings(s: string) { forall c :: c in s ==> Ending(c) }

  lemma {:induction false} StripDrops(line: string, ending: string)
    requires line != "" && !Ending(line[|line| - 1]) && Endings(ending)
    ensures Strip(line + ending) == line
    decreases |ending|
  {
    if ending == "" {
      assert line + ending == line;
    } else {
      var n := |ending| - 1;
      assert ending[n] in ending;
      assert (line + ending)[..|line + ending| - 1] == line + ending[..n];
      StripDrops(line, ending[..n]);
    }
  }

  lemma TextEndsInDigit(bs: seq<byte>)
    requires bs != []
    ensures var t := Text(bs); !Ending(t[|t| - 1])
  {
  }

  /** Any stretch of a printed record's body reads back. */
  lemma PartReads(body: seq<byte>, from: nat, to: nat)
    requires from <= to <= |body|
    ensures ReadBytes(Record(body), 1 + 2 * from, to - from) == Some(body[from..to])
  {
    hide ReadBytes, Text, Sealed, Spells;
    var bs := Sealed(body);
    SealedKeeps(body);
    TextSpells(bs);
    SpellsPart(Text(bs), bs, from, to);
    ReadSpelled(Text(bs), 1 + 2 * from, bs[from..to]);
    assert bs[from..to] == body[from..to];
  }

  lemma HeaderReads(body: seq<byte>)
    requires |body| >= 4
    ensures ReadBytes(Record(body), 1, 4) == Some([body[0], body[1], body[2], body[3]])
  {
    hide Record, ReadBytes;
    PartReads(body, 0, 4);
    assert body[0..4] == [body[0], body[1], body[2], body[3]];
  }

  lemma PayloadReads(body: seq<byte>)
    requires |body| >= 4
    ensures ReadBytes(Record(body), 9, |body| - 4) == Some(body[4..])
  {
    hide Record, ReadBytes;
    PartReads(body, 4, |body|);
    assert body[4..|body|] == body[4..];
  }

  lemma LineLoads(p: Progress, line: string, ending: string)
    requires |line| >= SHORTEST && line[0] == ':' && !Ending(line[|line| - 1]) && Endings(ending)
    requires Checked(line) == None && ReadBytes(line, 1, 4).Some?
    ensures var h := ReadBytes(line, 1, 4).value;
            LoadLine(p, line + ending) == LoadRecord(p, line, h[0], Pair(h[1], h[2]), h[3])
  {
    hide ReadBytes, Strip, LoadRecord, Ending, Endings, Checked, Pair;
    StripDrops(line, ending);
  }

  /** A printed record loads as its body says: the checksum holds, and header and payload read back. */
  lemma RecordLoads(p: Progress, body: seq<byte>, ending: string)
    requires |body| >= 4 && Endings(ending)
    ensures LoadLine(p, Record(body) + ending) == LoadRecord(p, Record(body), body[0], Pair(body[1], body[2]), body[3])
  {
    hide Record, ReadBytes, LoadRecord, LoadLine, Ending, Endings, Checked, Pair, ByteAt, Total, Strip;
    RecordChecks(body);
    RecordShape(body);
    HeaderReads(body);
    LineLoads(p, Record(body), ending);
  }

  lemma RecordShape(body: seq<byte>)
    ensures Record(body)[0] == ':' && !Ending(Record(body)[|Record(body)| - 1])
  {
    hide Text, Ending;
    TextStarts(Sealed(body));
    TextEndsInDigit(Sealed(body));
  }

  lemma SealedKeeps(body: seq<byte>)
    ensures |Sealed(body)| == |body| + 1 && Sealed(body)[..|body|] == body
    ensures forall k :: 0 <= k < |body| ==> Sealed(body)[k] == body[k]
  {
  }

  lemma TextStarts(bs: seq<byte>)
    ensures Text(bs)[0] == ':'
  {
  }

  // ---- The round trip ----

  lemma BaseLoads(p: Progress, c: Chunk, ending: string)
    requires Endings(ending)
    ensures LoadLine(p, Record(BaseBody(c)) + ending) == Running(p.(base := Base(c)))
  {
    hide LoadLine, Record, ReadBytes, Endings, Store, Total;
    RecordLoads(p, BaseBody(c), ending);
    PayloadReads(BaseBody(c));
  }

  /** A printed data record goes to base + offset in 32 bits: it stores its bytes there, or, where they do not lie in mapped
      memory, ends the load with an error and stores nothing. */
  lemma DataRecordLoads(p: Progress, offset: Word16, data: seq<byte>, ending: string)
    requires |data| <= 0xFF && Endings(ending)
    ensures var addr := (p.base + offset) % TWO32; var line := Record([|data|, offset / 0x100, offset % 0x100, 0] + data);
            LoadLine(p, line + ending) ==
              if Accessible(addr, |data|) then Running(p.(mem := Store(p.mem, Flat(addr), data)))
              else Failed(p.mem, LoadFault(addr))
  {
    hide LoadLine, Record, ReadBytes, Endings, Store, Accessible;
    var body: seq<byte> := [|data|, offset / 0x100, offset % 0x100, 0] + data;
    RecordLoads(p, body, ending);
    PayloadReads(body);
    assert body[4..] == data;
  }

  lemma DataLoads(p: Progress, c: Chunk, ending: string)
    requires Printable(c) && Endings(ending) && p.base == Base(c)
    ensures LoadLine(p, Record(DataBody(c)) + ending) == Running(p.(mem := Store(p.mem, Flat(Address(c)), c.data)))
  {
    hide LoadLine, Record, Endings, Store, Offset, Base, Address, Accessible;
    DataRecordLoads(p, Offset(c), c.data, ending);
    AddressParts(c);
  }

  lemma AddressParts(c: Chunk)
    ensures Pair(Offset(c) / 0x100, Offset(c) % 0x100) == Offset(c)
    ensures (Base(c) + Offset(c)) % TWO32 == Address(c)
  {
  }

  /** A printed segment record sets the base to 16 times the segment, a printed linear one to 65536 times the upper half
      of the address. */
  lemma BaseRecordLoads(p: Progress, upper: Word16, ending: string)
    requires Endings(ending)
    ensures LoadLine(p, Record([2, 0, 0, 2, upper / 0x100, upper % 0x100]) + ending) == Running(p.(base := 16 * upper))
    ensures LoadLine(p, Record([2, 0, 0, 4, upper / 0x100, upper % 0x100]) + ending) == Running(p.(base := 0x1_0000 * upper))
  {
    hide LoadLine, Record;
    BaseLoads(p, Segmented(upper, 0, []), ending);
    BaseLoads(p, Linear(0x1_0000 * upper, []), ending);
  }

  /** The two records of a chunk set the base address and store the chunk. */
  lemma ChunkLoads(p: Progress, c: Chunk, ending: string)
    requires Printable(c) && Endings(ending)
    ensures LoadLine(p, Record(BaseBody(c)) + ending) == Running(p.(base := Base(c)))
    ensures LoadLine(p.(base := Base(c)), Record(DataBody(c)) + ending)
         == Running(Progress(Store(p.mem, Flat(Address(c)), c.data), Base(c), p.entry))
  {
    hide LoadLine, Record, Endings, Store, BaseBody, DataBody;
    BaseLoads(p, c, ending);
    DataLoads(p.(base := Base(c)), c, ending);
  }

  lemma StartLoads(p: Progress, entry: u32, ending: string)
    requires Endings(ending)
    ensures LoadLine(p, Record(StartBody(entry)) + ending) == Running(p.(entry := entry))
    ensures LoadLine(p, Record([0, 0, 0, 1]) + ending) == Returned(p.mem, p.entry)
  {
    hide LoadLine, Record, ReadBytes, Endings, ShiftIn;
    RecordLoads(p, StartBody(entry), ending);
    PayloadReads(StartBody(entry));
    RecordLoads(p, [0, 0, 0, 1], ending);
    var d := StartBody(entry)[4..];
    FourBytesIn(p.entry, d);
    FourBytesOut(entry);
  }

  lemma FourBytesOut(entry: u32)
    ensures BigEndian(entry / 0x100_0000, entry / 0x1_0000 % 0x100, entry / 0x100 % 0x100, entry % 0x100) == entry
  {
    var w := entry / 0x100;
    var v := w / 0x100;
    assert v == entry / 0x1_0000 && v / 0x100 == entry / 0x100_0000;
  }

  /** The number four bytes stand for, high byte first. */
  function BigEndian(b3: int, b2: int, b1: int, b0: int): int { Pair(Pair(Pair(b3, b2), b1), b0) }

  /** After four bytes nothing of the earlier entry point is left. */
  lemma FourBytesIn(entry: u32, d: seq<byte>)
    requires |d| == 4
    ensures ShiftIn(entry, d) == BigEndian(d[0], d[1], d[2], d[3])
  {
    hide ShiftIn;
    var b0: int, b1: int, b2: int, b3: int := d[0], d[1], d[2], d[3];
    var k1 := entry / 0x100_0000;
    var x1 := entry % 0x100_0000;
    Remainder(entry * 0x100 + b0, k1, x1 * 0x100 + b0);
    var x2 := x1 % 0x1_0000;
    Remainder((x1 * 0x100 + b0) * 0x100 + b1, x1 / 0x1_0000, (x2 * 0x100 + b0) * 0x100 + b1);
    var x3 := x2 % 0x100;
    Remainder(((x2 * 0x100 + b0) * 0x100 + b1) * 0x100 + b2, x2 / 0x100, ((x3 * 0x100 + b0) * 0x100 + b1) * 0x100 + b2);
    Remainder((((x3 * 0x100 + b0) * 0x100 + b1) * 0x100 + b2) * 0x100 + b3, x3, BigEndian(b0, b1, b2, b3));
    ShiftFour(entry, d);
  }

  lemma ShiftFour(entry: u32, d: seq<byte>)
    requires |d| == 4
    ensures ShiftIn(entry, d) ==
              ((((((entry * 0x100 + d[0]) % TWO32) * 0x100 + d[1]) % TWO32) * 0x100 + d[2]) % TWO32 * 0x100 + d[3]) % TWO32
  {
    assert d[1..][1..] == d[2..] && d[2..][1..] == d[3..] && d[3..][1..] == [];
    assert ShiftIn(entry, d) == ShiftIn((entry * 0x100 + d[0]) % TWO32, d[1..]);
    var e2 := (((entry * 0x100 + d[0]) % TWO32) * 0x100 + d[1]) % TWO32;
    assert ShiftIn((entry * 0x100 + d[0]) % TWO32, d[1..]) == ShiftIn(e2, d[2..]);
    assert ShiftIn(e2, d[2..]) == ShiftIn((e2 * 0x100 + d[2]) % TWO32, d[3..]);
  }

  /** What is left of a file once a line has been loaded. */
  function Then(o: Outcome, lines: seq<string>): Outcome {
    match o
    case Running(q) => Feed(q, lines)
    case Returned(m, e) => o
    case Failed(m, e) => o
  }

  lemma {:induction false} FeedPrinted(p: Progress, cs: seq<Chunk>, entry: u32, ending: string, more: seq<string>)
    requires AllPrintable(cs)
    requires Endings(ending)
    ensures Feed(p, Print(Bodies(cs, entry), ending) + more) == Returned(StoreAll(p.mem, cs), entry)
    decreases cs
  {
    hide LoadLine, Record, Endings, Store, StartBody, BaseBody, DataBody, Feed;
    var bodies := Bodies(cs, entry);
    TwoLines(p, Print(bodies, ending) + more);
    PrintTwo(bodies, ending, more);
    if cs == [] {
      StartLoads(p, entry, ending);
      StartLoads(p.(entry := entry), entry, ending);
    } else {
      assert Printable(cs[0]);
      ChunkLoads(p, cs[0], ending);
      var q := Progress(Store(p.mem, Flat(Address(cs[0])), cs[0].data), Base(cs[0]), p.entry);
      assert bodies[2..] == Bodies(cs[1..], entry);
      FeedPrinted(q, cs[1..], entry, ending, more);
    }
  }

  lemma TwoLines(p: Progress, lines: seq<string>)
    requires |lines| >= 2
    ensures var o := LoadLine(p, lines[0]);
            Feed(p, lines) == if o.Running? then Then(LoadLine(o.p, lines[1]), lines[2..]) else o
  {
    hide LoadLine;
    assert lines[1..][1..] == lines[2..] && lines[1..][0] == lines[1];
  }

  lemma PrintOne(bodies: seq<seq<byte>>, ending: string, more: seq<string>)
    requires bodies != []
    ensures var lines := Print(bodies, ending) + more;
            && lines[0] == Record(bodies[0]) + ending
            && lines[1..] == Print(bodies[1..], ending) + more
  {
    hide Record;
  }

  lemma PrintTwo(bodies: seq<seq<byte>>, ending: string, more: seq<string>)
    requires |bodies| >= 2
    ensures var lines := Print(bodies, ending) + more;
            && lines[0] == Record(bodies[0]) + ending && lines[1] == Record(bodies[1]) + ending
            && lines[2..] == Print(bodies[2..], ending) + more
  {
    hide Record, Print;
    PrintOne(bodies, ending, more);
    PrintOne(bodies[1..], ending, more);
    var lines := Print(bodies, ending) + more;
    assert bodies[1..][1..] == bodies[2..] && lines[1..][1..] == lines[2..] && lines[1..][0] == lines[1];
  }

  /** Printing any list of chunks and loading the text stores the chunks in order and returns the start address,
      whatever line endings are used and whatever follows the end record. */
  lemma RoundTrip(m: Bytes, cs: seq<Chunk>, entry: u32, ending: string, more: seq<string>)
    requires AllPrintable(cs)
    requires Endings(ending)
    ensures LoadHex(m, Print(Bodies(cs, entry), ending) + more) == Returned(StoreAll(m, cs), entry)
  {
    hide Feed, Print, Bodies, StoreAll, Printable;
    FeedPrinted(Progress(m, 0, 0), cs, entry, ending, more);
  }

  predicate Covers(c: Chunk, x: nat)
    requires Printable(c)
  {
    Flat(Address(c)) <= x < Flat(Address(c)) + |c.data|
  }

  /** A byte that no chunk covers keeps its value, and any other has the one that the last chunk covering it gives. */
  lemma {:induction false} LastChunkWins(m: Bytes, cs: seq<Chunk>, x: nat)
    requires AllPrintable(cs) && x < SIZE
    ensures (forall j :: 0 <= j < |cs| ==> !Covers(cs[j], x)) ==> StoreAll(m, cs)[x] == m[x]
    ensures forall j :: 0 <= j < |cs| && Covers(cs[j], x) && (forall k :: j < k < |cs| ==> !Covers(cs[k], x)) ==>
              StoreAll(m, cs)[x] == cs[j].data[x - Flat(Address(cs[j]))]
    decreases cs
  {
    hide Address, Store, Flat;
    if cs != [] {
      var c := cs[0];
      assert Printable(c);
      var m1 := Store(m, Flat(Address(c)), c.data);
      StoredBytes(m, Flat(Address(c)), c.data);
      LastChunkWins(m1, cs[1..], x);
      forall j | 0 <= j < |cs| && Covers(cs[j], x) && (forall k :: j < k < |cs| ==> !Covers(cs[k], x))
        ensures StoreAll(m, cs)[x] == cs[j].data[x - Flat(Address(cs[j]))]
      {
        if j > 0 {
          assert cs[1..][j - 1] == cs[j];
        } else {
          var i := x - Flat(Address(c));
          assert m1[Flat(Address(c)) + i] == c.data[i];
        }
      }
    }
  }

  // ---- Lines that store nothing ----

  /** A character is a digit in the upper and in the lower case and in no other form. */
  lemma DigitSpec(c: char, d: nat)
    requires d < 16
    ensures Digit(c) == d <==> c == "0123456789ABCDEF"[d] || c == "0123456789abcdef"[d]
  {
  }

  /** A line without a colon in front is skipped, and a short one with it is an error, whatever it says. */
  lemma OtherLines(p: Progress, raw: string)
    ensures raw == "" || raw[0] != ':' ==> LoadLine(p, raw) == Running(p)
    ensures raw != "" && raw[0] == ':' && |raw| < 11 ==> LoadLine(p, raw) == Failed(p.mem, ShortRecord)
  {
  }

  /** A printed record of a type that is not known ends the load with an error. */
  lemma UnknownTypeFails(p: Progress, body: seq<byte>, ending: string)
    requires |body| >= 4 && Endings(ending) && body[3] !in {0, 1, 2, 4, 5}
    ensures LoadLine(p, Record(body) + ending) == Failed(p.mem, UnknownType(body[3]))
  {
    hide LoadLine, Record, Endings;
    RecordLoads(p, body, ending);
  }

  // ---- Damage ----

  /** The line with the two characters of byte `i` replaced. */
  function Damaged(line: string, i: nat, c1: char, c2: char): (r: string)
    requires line != "" && i < Pairs(line)
    ensures |r| == |line|
  {
    line[1 + 2 * i := c1][2 + 2 * i := c2]
  }

  lemma {:induction false} TotalUpdated(bs: seq<byte>, i: nat, v: byte)
    requires i < |bs|
    ensures Total(bs[i := v]) == Total(bs) - bs[i] + v
    decreases bs
  {
    if i == 0 {
      assert bs[i := v][1..] == bs[1..];
    } else {
      assert bs[i := v][1..] == bs[1..][i - 1 := v];
      TotalUpdated(bs[1..], i - 1, v);
    }
  }

  lemma DamageSpells(line: string, bs: seq<byte>, i: nat, c1: char, c2: char)
    requires line != "" && |bs| == Pairs(line) && Spells(line, 1, bs) && i < |bs| && ByteOf(c1, c2).Some?
    ensures Spells(Damaged(line, i, c1, c2), 1, bs[i := ByteOf(c1, c2).value])
  {
    hide ByteOf;
    var d := Damaged(line, i, c1, c2);
    forall k | 0 <= k < |bs|
      ensures ByteAt(d, 1 + 2 * k) == Some(bs[i := ByteOf(c1, c2).value][k])
    {
      assert ByteAt(line, 1 + 2 * k) == Some(bs[k]);
      if k != i {
        assert CharAt(d, 1 + 2 * k) == CharAt(line, 1 + 2 * k);
        assert CharAt(d, 1 + 2 * k + 1) == CharAt(line, 1 + 2 * k + 1);
      }
    }
  }

  /** For every line with a good checksum and every replacement of one of its bytes: the line still passes exactly when
      the new characters parse to the value the old ones had. */
  lemma DamageDetected(line: string, i: nat, c1: char, c2: char)
    requires line != "" && Checked(line) == None && i < Pairs(line)
    ensures ByteOf(c1, c2) == None ==> Checked(Damaged(line, i, c1, c2)) == Some(BadHexByte)
    ensures ByteOf(c1, c2) != None ==>
              Checked(Damaged(line, i, c1, c2)) ==
                if ByteOf(c1, c2) == ByteAt(line, 1 + 2 * i) then None else Some(BadChecksum)
  {
    hide ByteOf, ReadBytes, Total, Spells, Damaged;
    var n := Pairs(line);
    var bs := ReadBytes(line, 1, n).value;
    var d := Damaged(line, i, c1, c2);
    ReadSpells(line, 1, n);
    SpelledAt(line, bs, i);
    if ByteOf(c1, c2) == None {
      if ReadBytes(d, 1, n).Some? {
        ReadSpells(d, 1, n);
        SpelledAt(d, ReadBytes(d, 1, n).value, i);
        DamagedAt(line, i, c1, c2);
      }
    } else {
      var v := ByteOf(c1, c2).value;
      DamageSpells(line, bs, i, c1, c2);
      ReadSpelled(d, 1, bs[i := v]);
      TotalUpdated(bs, i, v);
    }
  }

  lemma SpelledAt(line: string, bs: seq<byte>, i: nat)
    requires Spells(line, 1, bs) && i < |bs|
    ensures ByteAt(line, 1 + 2 * i) == Some(bs[i])
  {
  }

  lemma DamagedAt(line: string, i: nat, c1: char, c2: char)
    requires line != "" && i < Pairs(line)
    ensures ByteAt(Damaged(line, i, c1, c2), 1 + 2 * i) == ByteOf(c1, c2)
  {
  }

  /** What is wrong with a byte whose characters parse to nothing, or to another value. */
  function DamageError(c1: char, c2: char): LoadError {
    if ByteOf(c1, c2) == None then BadHexByte else BadChecksum
  }

  /** Characters that parse to the old value change no byte that a record reads. */
  lemma {:induction false} SameReads(line: string, i: nat, c1: char, c2: char, at: nat, n: nat)
    requires line != "" && i < Pairs(line) && at % 2 == 1 && ByteOf(c1, c2) == ByteAt(line, 1 + 2 * i)
    ensures ReadBytes(Damaged(line, i, c1, c2), at, n) == ReadBytes(line, at, n)
    decreases n
  {
    hide ByteOf;
    if n > 0 {
      SameReads(line, i, c1, c2, at + 2, n - 1);
      assert ByteAt(Damaged(line, i, c1, c2), at) == ByteAt(line, at);
    }
  }

  lemma SameRecord(p: Progress, line: string, i: nat, c1: char, c2: char, count: byte, offset: nat, kind: byte)
    requires line != "" && i < Pairs(line) && offset < 0x1_0000 && ByteOf(c1, c2) == ByteAt(line, 1 + 2 * i)
    ensures LoadRecord(p, Damaged(line, i, c1, c2), count, offset, kind) == LoadRecord(p, line, count, offset, kind)
  {
    hide ReadBytes, Damaged, ByteAt, ByteOf, Store, ShiftIn;
    SameReads(line, i, c1, c2, 9, count);
    SameReads(line, i, c1, c2, 9, 2);
    SameReads(line, i, c1, c2, 9, 4);
  }

  /** A line that passes the checks in front of the record types. */
  predicate Passes(line: string) {
    |line| >= SHORTEST && line[0] == ':' && !Ending(line[|line| - 1]) && Checked(line) == None
  }

  lemma HeaderThere(line: string)
    requires Passes(line)
    ensures ReadBytes(line, 1, 4).Some?
  {
    hide Ending, ByteAt;
    var bs := ReadBytes(line, 1, Pairs(line)).value;
    ReadSpells(line, 1, Pairs(line));
    SpellsPart(line, bs, 0, 4);
    ReadSpelled(line, 1, bs[0..4]);
  }

  /** For every line that passes and every replacement of one of its bytes by characters that do not end a line: the line
      loads as before if and only if they parse to the old value. Otherwise it is rejected and stores nothing. */
  lemma DamagedLineLoads(p: Progress, line: string, i: nat, c1: char, c2: char, ending: string)
    requires Passes(line) && Endings(ending) && i < Pairs(line) && !Ending(c1) && !Ending(c2)
    ensures LoadLine(p, Damaged(line, i, c1, c2) + ending) ==
              if ByteOf(c1, c2) == ByteAt(line, 1 + 2 * i) then LoadLine(p, line + ending)
              else Failed(p.mem, DamageError(c1, c2))
  {
    hide ReadBytes, LoadRecord, Strip, ByteAt, ByteOf, Ending, Endings, Checked;
    var d := Damaged(line, i, c1, c2);
    DamageDetected(line, i, c1, c2);
    StripDrops(d, ending);
    if ByteOf(c1, c2) == ByteAt(line, 1 + 2 * i) {
      DigitThere(line, i);
      HeaderThere(line);
      SameReads(line, i, c1, c2, 1, 4);
      LineLoads(p, line, ending);
      LineLoads(p, d, ending);
      var h := ReadBytes(line, 1, 4).value;
      SameRecord(p, line, i, c1, c2, h[0], Pair(h[1], h[2]), h[3]);
    }
  }

  lemma DigitThere(line: string, i: nat)
    requires Passes(line) && i < Pairs(line)
    ensures ByteAt(line, 1 + 2 * i) != None
  {
    hide Ending, ByteAt;
    ReadSpells(line, 1, Pairs(line));
    SpelledAt(line, ReadBytes(line, 1, Pairs(line)).value, i);
  }

  lemma RecordPasses(body: seq<byte>)
    requires |body| >= 4
    ensures Passes(Record(body)) && Pairs(Record(body)) == |body| + 1
  {
    hide Record, Checked, Ending;
    RecordChecks(body);
    RecordShape(body);
  }

  lemma RecordChecks(body: seq<byte>)
    ensures Checked(Record(body)) == None
  {
    hide ReadBytes, Total, Text, Spells, Sealed;
    TextSpells(Sealed(body));
    ReadSpelled(Text(Sealed(body)), 1, Sealed(body));
    SealBalances(body);
  }

  /** A printed file in which the characters of byte `i` of record `k` have been replaced. */
  function DamagedFile(cs: seq<Chunk>, entry: u32, ending: string, k: nat, i: nat, c1: char, c2: char): (r: seq<string>)
    requires AllPrintable(cs)
    requires k < 2 * |cs| + 2 && i <= |Bodies(cs, entry)[k]|
    ensures |r| == 2 * |cs| + 2
  {
    var bodies := Bodies(cs, entry);
    Print(bodies, ending)[k := Damaged(Record(bodies[k]), i, c1, c2) + ending]
  }

  /** Damage to another value stops the load at the damaged record. */
  lemma {:induction false} DamagedFileFails(p: Progress, cs: seq<Chunk>, entry: u32, ending: string, k: nat, i: nat,
                                            c1: char, c2: char, more: seq<string>)
    requires AllPrintable(cs)
    requires k < 2 * |cs| + 2 && i <= |Bodies(cs, entry)[k]| && Endings(ending)
    requires !Ending(c1) && !Ending(c2)
    requires ByteOf(c1, c2) != ByteAt(Record(Bodies(cs, entry)[k]), 1 + 2 * i)
    ensures Feed(p, DamagedFile(cs, entry, ending, k, i, c1, c2) + more) ==
              Failed(StoreAll(p.mem, cs[..k / 2]), DamageError(c1, c2))
    decreases cs
  {
    hide LoadLine, Record, Endings, Ending, Store, StartBody, BaseBody, DataBody, Feed, ByteOf, ByteAt, Damaged,
         DamagedFile, Print, DamageError;
    if k < 2 {
      DamagedAtOnce(p, cs, entry, ending, k, i, c1, c2, more);
    } else {
      TwoLines(p, DamagedFile(cs, entry, ending, k, i, c1, c2) + more);
      DamagedLate(cs, entry, ending, k, i, c1, c2, more);
      ChunkLoads(p, cs[0], ending);
      var q := Progress(Store(p.mem, Flat(Address(cs[0])), cs[0].data), Base(cs[0]), p.entry);
      DamagedFileFails(q, cs[1..], entry, ending, k - 2, i, c1, c2, more);
      assert cs[..k / 2][1..] == cs[1..][..(k - 2) / 2];
    }
  }

  /** The damaged record is the first or the second one. */
  lemma DamagedAtOnce(p: Progress, cs: seq<Chunk>, entry: u32, ending: string, k: nat, i: nat,
                      c1: char, c2: char, more: seq<string>)
    requires AllPrintable(cs)
    requires k < 2 && i <= |Bodies(cs, entry)[k]| && Endings(ending)
    requires !Ending(c1) && !Ending(c2)
    requires ByteOf(c1, c2) != ByteAt(Record(Bodies(cs, entry)[k]), 1 + 2 * i)
    ensures Feed(p, DamagedFile(cs, entry, ending, k, i, c1, c2) + more) == Failed(p.mem, DamageError(c1, c2))
  {
    hide LoadLine, Record, Endings, Ending, Store, StartBody, BaseBody, DataBody, Feed, ByteOf, ByteAt, Damaged,
         DamagedFile, Print, Passes, DamageError;
    var bodies := Bodies(cs, entry);
    TwoLines(p, DamagedFile(cs, entry, ending, k, i, c1, c2) + more);
    assert bodies[k] in bodies;
    RecordPasses(bodies[k]);
    DamagedEarly(cs, entry, ending, k, i, c1, c2, more);
    if k == 0 {
      DamagedLineLoads(p, Record(bodies[0]), i, c1, c2, ending);
    } else if cs == [] {
      StartLoads(p, entry, ending);
      DamagedLineLoads(p.(entry := entry), Record(bodies[1]), i, c1, c2, ending);
    } else {
      BaseLoads(p, cs[0], ending);
      DamagedLineLoads(p.(base := Base(cs[0])), Record(bodies[1]), i, c1, c2, ending);
    }
  }

  lemma DamagedEarly(cs: seq<Chunk>, entry: u32, ending: string, k: nat, i: nat, c1: char, c2: char, more: seq<string>)
    requires AllPrintable(cs) && k < 2 && i <= |Bodies(cs, entry)[k]|
    ensures var lines := DamagedFile(cs, entry, ending, k, i, c1, c2) + more;
            && |lines| >= 2 && lines[k] == Damaged(Record(Bodies(cs, entry)[k]), i, c1, c2) + ending
            && (k == 1 ==> lines[0] == Record(Bodies(cs, entry)[0]) + ending)
  {
    hide Record, Damaged, Bodies, Print;
    PrintOne(Bodies(cs, entry), ending, []);
  }

  lemma DamagedLate(cs: seq<Chunk>, entry: u32, ending: string, k: nat, i: nat, c1: char, c2: char, more: seq<string>)
    requires AllPrintable(cs) && 2 <= k < 2 * |cs| + 2 && i <= |Bodies(cs, entry)[k]|
    ensures Bodies(cs, entry)[2..] == Bodies(cs[1..], entry) && Bodies(cs, entry)[k] == Bodies(cs[1..], entry)[k - 2]
    ensures var lines := DamagedFile(cs, entry, ending, k, i, c1, c2) + more;
            && lines[0] == Record(BaseBody(cs[0])) + ending && lines[1] == Record(DataBody(cs[0])) + ending
            && lines[2..] == DamagedFile(cs[1..], entry, ending, k - 2, i, c1, c2) + more
  {
    hide Record, Damaged, Print, BaseBody, DataBody, StartBody;
    var bodies := Bodies(cs, entry);
    assert bodies[2..] == Bodies(cs[1..], entry);
    PrintTwo(bodies, ending, []);
    var lines := DamagedFile(cs, entry, ending, k, i, c1, c2);
    var good := Print(bodies, ending) + [];
    assert Print(bodies[2..], ending) + [] == Print(bodies[2..], ending);
    assert lines == good[k := Damaged(Record(bodies[k]), i, c1, c2) + ending];
    assert lines[2..] == good[2..][k - 2 := Damaged(Record(bodies[k]), i, c1, c2) + ending];
    assert (lines + more)[2..] == lines[2..] + more;
  }

  /** Replacing a line by one that loads in the same way from everywhere changes nothing. */
  lemma {:induction false} SameLines(p: Progress, lines: seq<string>, k: nat, other: string)
    requires k < |lines| && forall q :: LoadLine(q, other) == LoadLine(q, lines[k])
    ensures Feed(p, lines[k := other]) == Feed(p, lines)
    decreases lines
  {
    hide LoadLine;
    if k == 0 {
      assert lines[k := other][1..] == lines[1..];
    } else {
      assert lines[k := other][1..] == lines[1..][k - 1 := other];
      var o := LoadLine(p, lines[0]);
      if o.Running? { SameLines(o.p, lines[1..], k - 1, other); }
    }
  }

  lemma HarmlessDamage(p: Progress, cs: seq<Chunk>, entry: u32, ending: string, k: nat, i: nat,
                       c1: char, c2: char, more: seq<string>)
    requires AllPrintable(cs)
    requires k < 2 * |cs| + 2 && i <= |Bodies(cs, entry)[k]| && Endings(ending)
    requires !Ending(c1) && !Ending(c2)
    requires ByteOf(c1, c2) == ByteAt(Record(Bodies(cs, entry)[k]), 1 + 2 * i)
    ensures Feed(p, DamagedFile(cs, entry, ending, k, i, c1, c2) + more) == Feed(p, Print(Bodies(cs, entry), ending) + more)
  {
    hide LoadLine, Record, Endings, Ending, Feed, ByteOf, ByteAt, Damaged, Passes, Bodies, Print, DamageError;
    var bodies := Bodies(cs, entry);
    var good := Print(bodies, ending);
    var line := Record(bodies[k]);
    var other := Damaged(line, i, c1, c2) + ending;
    assert bodies[k] in bodies;
    RecordPasses(bodies[k]);
    PrintAt(bodies, ending, k);
    forall q
      ensures LoadLine(q, other) == LoadLine(q, (good + more)[k])
    {
      DamagedLineLoads(q, line, i, c1, c2, ending);
    }
    SameLines(p, good + more, k, other);
    assert (good + more)[k := other] == good[k := other] + more;
  }

  lemma {:induction false} PrintAt(bodies: seq<seq<byte>>, ending: string, k: nat)
    requires k < |bodies|
    ensures Print(bodies, ending)[k] == Record(bodies[k]) + ending
    decreases bodies
  {
    hide Record;
    if k > 0 { PrintAt(bodies[1..], ending, k - 1); }
  }

  /** In a whole printed file, replace the characters of any byte of any record by characters that do not end a line. If
      they parse to the old value the file loads as before. Otherwise the load ends with an error, and exactly the chunks
      before the damaged record have been stored. */
  lemma DamagedFileRejected(m: Bytes, cs: seq<Chunk>, entry: u32, ending: string, k: nat, i: nat,
                            c1: char, c2: char, more: seq<string>)
    requires AllPrintable(cs)
    requires k < 2 * |cs| + 2 && i <= |Bodies(cs, entry)[k]| && Endings(ending)
    requires !Ending(c1) && !Ending(c2)
    ensures LoadHex(m, DamagedFile(cs, entry, ending, k, i, c1, c2) + more) ==
              if ByteOf(c1, c2) == ByteAt(Record(Bodies(cs, entry)[k]), 1 + 2 * i) then Returned(StoreAll(m, cs), entry)
              else Failed(StoreAll(m, cs[..k / 2]), DamageError(c1, c2))
  {
    hide Feed, DamagedFile, StoreAll, Record, Bodies, ByteAt, ByteOf, Ending, Printable, DamageError, Print;
    var p := Progress(m, 0, 0);
    if ByteOf(c1, c2) == ByteAt(Record(Bodies(cs, entry)[k]), 1 + 2 * i) {
      HarmlessDamage(p, cs, entry, ending, k, i, c1, c2, more);
      FeedPrinted(p, cs, entry, ending, more);
    } else {
      DamagedFileFails(p, cs, entry, ending, k, i, c1, c2, more);
    }
  }
}
