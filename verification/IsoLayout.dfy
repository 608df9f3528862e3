/** Directories as ECMA-119 lays them out (sections 6.8.1 and 9.1), and what the reader makes
    of them. */
module IsoLayout {
  import opened Bytes
  import opened Iso

  // ----- Directory records -----

  /** A directory record; `tail` is its padding and what systems put behind the name. */
  datatype Record = Record(attributes: byte, extent: nat, length: nat, date: seq<byte>, flags: byte,
                           unit: byte, gap: byte, volume: seq<byte>, name: seq<byte>, tail: seq<byte>)

  predicate IsRecord(r: Record) {
    && r.extent + r.attributes < 0x1_0000_0000 && r.length < 0x1_0000_0000
    && |r.date| == 7 && |r.volume| == 4
    && r.name != [] && 33 + |r.name| + |r.tail| < 256
  }

  function Little(n: nat): (b: seq<byte>)
    requires n < 0x1_0000_0000
    ensures |b| == 4
  {
    [n % 0x100, n / 0x100 % 0x100, n / 0x1_0000 % 0x100, n / 0x100_0000]
  }

  function Big(n: nat): (b: seq<byte>)
    requires n < 0x1_0000_0000
    ensures |b| == 4
  {
    [n / 0x100_0000, n / 0x1_0000 % 0x100, n / 0x100 % 0x100, n % 0x100]
  }

  lemma LittleReadBack(n: nat)
    requires n < 0x1_0000_0000
    ensures LittleEndian(Little(n)) == n
  {
    var low, high := n % 0x1_0000, n / 0x1_0000;
    assert n / 0x100 % 0x100 == low / 0x100;
    assert n / 0x1_0000 % 0x100 == high % 0x100 && n / 0x100_0000 == high / 0x100;
  }

  function Places(r: Record): (b: seq<byte>)
    requires IsRecord(r)
    ensures |b| == 10
  {
    [33 + |r.name| + |r.tail|, r.attributes] + Little(r.extent) + Big(r.extent)
  }

  function Sizes(r: Record): (b: seq<byte>)
    requires IsRecord(r)
    ensures |b| == 15
  {
    Little(r.length) + Big(r.length) + r.date
  }

  function Kinds(r: Record): (b: seq<byte>)
    requires IsRecord(r)
    ensures |b| == 8
  {
    [r.flags, r.unit, r.gap] + r.volume + [|r.name|]
  }

  function Print(r: Record): (b: seq<byte>)
    requires IsRecord(r)
    ensures |b| == 33 + |r.name| + |r.tail|
  {
    Places(r) + Sizes(r) + Kinds(r) + r.name + r.tail
  }

  lemma PrintFields(r: Record)
    requires IsRecord(r)
    ensures Print(r)[0] == |Print(r)| && Print(r)[1] == r.attributes
    ensures Print(r)[2..6] == Little(r.extent) && Print(r)[10..14] == Little(r.length)
    ensures Print(r)[25] == r.flags && Print(r)[32] == |r.name| && Print(r)[33..33 + |r.name|] == r.name
  {
    var p := Print(r);
    assert p[..10] == Places(r);
    assert p[2..6] == Places(r)[2..6] == Little(r.extent);
    assert p[10..25] == Sizes(r);
    assert p[10..14] == Sizes(r)[..4] == Little(r.length);
    assert p[25..33] == Kinds(r);
    assert p[25] == Kinds(r)[0] && p[32] == Kinds(r)[7];
  }

  function EntryFor(r: Record): Entry {
    Entry(CutVersion(r.name), r.flags / 2 % 2 == 1, r.extent + r.attributes, r.length)
  }

  lemma RecordReadBack(r: Record)
    requires IsRecord(r)
    ensures EntryOf(Print(r), r.name) == EntryFor(r)
  {
    PrintFields(r);
    LittleReadBack(r.extent);
    LittleReadBack(r.length);
  }

  // ----- Directories -----

  predicate AreRecords(rs: seq<Record>) {
    rs != [] ==> IsRecord(rs[0]) && AreRecords(rs[1..])
  }

  function PrintAll(rs: seq<Record>): seq<byte>
    requires AreRecords(rs)
  {
    if rs == [] then [] else Print(rs[0]) + PrintAll(rs[1..])
  }

  function Zeros(n: nat): (b: seq<byte>)
    ensures |b| == n
  {
    seq(n, _ => 0)
  }

  /** Records never straddle a sector: each sector holds some, then zeros. */
  predicate AreSectors(sectors: seq<seq<Record>>) {
    sectors != [] ==> AreRecords(sectors[0]) && |PrintAll(sectors[0])| <= 2048 && AreSectors(sectors[1..])
  }

  function Pack(sectors: seq<seq<Record>>): seq<byte>
    requires AreSectors(sectors)
  {
    if sectors == [] then [] else
      PrintAll(sectors[0]) + Zeros(2048 - |PrintAll(sectors[0])|) + Pack(sectors[1..])
  }

  function Flat(sectors: seq<seq<Record>>): seq<Record> {
    if sectors == [] then [] else sectors[0] + Flat(sectors[1..])
  }

  /** What is to be listed: everything but the directory itself and its parent. */
  function Visible(rs: seq<Record>): seq<Entry> {
    if rs == [] then []
    else if rs[0].name == [0] || rs[0].name == [1] then Visible(rs[1..])
    else [EntryFor(rs[0])] + Visible(rs[1..])
  }

  lemma {:induction false} VisibleConcat(a: seq<Record>, b: seq<Record>)
    ensures Visible(a + b) == Visible(a) + Visible(b)
  {
    if a == [] {
      assert a + b == b;
    } else {
      assert (a + b)[1..] == a[1..] + b;
      VisibleConcat(a[1..], b);
    }
  }

  lemma ReadRecord(data: seq<byte>, offset: nat, r: Record)
    requires IsRecord(r) && offset + |Print(r)| <= |data| && data[offset..offset + |Print(r)|] == Print(r)
    ensures Finds(data, offset, offset + |Print(r)|, Visible([r]))
  {
    PrintFields(r);
    RecordReadBack(r);
    assert data[offset] == Print(r)[0];
    assert Visible([r]) == if IsSelfOrParent(r.name) then [] else [EntryFor(r)];
    PrependedNone(EntriesFrom(data, offset + |Print(r)|));
  }

  lemma PrependedTwice(a: seq<Entry>, b: seq<Entry>, rest: Result<seq<Entry>>)
    ensures Prepended(a, Prepended(b, rest)) == Prepended(a + b, rest)
  {
    if rest.Ok? {
      assert a + b + rest.value == a + (b + rest.value);
    }
  }

  lemma SliceOfTwo(data: seq<byte>, offset: nat, a: seq<byte>, b: seq<byte>)
    requires offset + |a + b| <= |data| && data[offset..offset + |a + b|] == a + b
    ensures data[offset..offset + |a|] == a && data[offset + |a|..offset + |a| + |b|] == b
  {
    var both := data[offset..offset + |a + b|];
    assert data[offset..offset + |a|] == both[..|a|];
    assert data[offset + |a|..offset + |a| + |b|] == both[|a|..];
  }

  /** From `offset` to `next` the reader finds `found`. */
  ghost predicate Finds(data: seq<byte>, offset: nat, next: nat, found: seq<Entry>) {
    EntriesFrom(data, offset) == Prepended(found, EntriesFrom(data, next))
  }

  lemma FindsNothing(data: seq<byte>, offset: nat)
    ensures Finds(data, offset, offset, [])
  {
    PrependedNone(EntriesFrom(data, offset));
  }

  lemma FindsBoth(data: seq<byte>, offset: nat, middle: nat, next: nat, a: seq<Entry>, b: seq<Entry>)
    requires Finds(data, offset, middle, a) && Finds(data, middle, next, b)
    ensures Finds(data, offset, next, a + b)
  {
    PrependedTwice(a, b, EntriesFrom(data, next));
  }

  lemma FirstRecord(data: seq<byte>, offset: nat, next: nat, r: Record, rest: seq<byte>)
    requires IsRecord(r) && next == offset + |Print(r)| && next + |rest| <= |data|
    requires data[offset..next + |rest|] == Print(r) + rest
    ensures data[next..next + |rest|] == rest
    ensures Finds(data, offset, next, Visible([r]))
  {
    SliceOfTwo(data, offset, Print(r), rest);
    ReadRecord(data, offset, r);
  }

  lemma {:induction false} ReadRecords(data: seq<byte>, offset: nat, end: nat, rs: seq<Record>)
    requires AreRecords(rs) && end == offset + |PrintAll(rs)| <= |data| && data[offset..end] == PrintAll(rs)
    ensures Finds(data, offset, end, Visible(rs))
    decreases |rs|
  {
    if rs == [] {
      FindsNothing(data, offset);
    } else {
      var next, rest := offset + |Print(rs[0])|, PrintAll(rs[1..]);
      FirstRecord(data, offset, next, rs[0], rest);
      ReadRecords(data, next, end, rs[1..]);
      FoundFirst(data, offset, next, end, rs);
    }
  }

  lemma FoundFirst(data: seq<byte>, offset: nat, middle: nat, next: nat, rs: seq<Record>)
    requires rs != [] && Finds(data, offset, middle, Visible([rs[0]])) && Finds(data, middle, next, Visible(rs[1..]))
    ensures Finds(data, offset, next, Visible(rs))
  {
    FindsBoth(data, offset, middle, next, Visible([rs[0]]), Visible(rs[1..]));
    VisibleFirst(rs);
  }

  lemma VisibleFirst(rs: seq<Record>)
    requires rs != []
    ensures Visible(rs) == Visible([rs[0]]) + Visible(rs[1..])
  {
    assert [rs[0]] + rs[1..] == rs;
    VisibleConcat([rs[0]], rs[1..]);
  }

  lemma ReadZeros(data: seq<byte>, start: nat, offset: nat)
    requires start % SECTOR == 0 && start <= offset <= start + SECTOR <= |data|
    requires offset < start + SECTOR ==> data[offset] == 0
    ensures EntriesFrom(data, offset) == EntriesFrom(data, start + SECTOR)
  {
    if offset < start + SECTOR {
      assert offset / SECTOR == start / SECTOR;
    }
  }

  lemma FirstSector(data: seq<byte>, start: nat, sectors: seq<seq<Record>>)
    requires AreSectors(sectors) && sectors != [] && start % SECTOR == 0 && start <= |data| && data[start..] == Pack(sectors)
    ensures var next := start + SECTOR;
            && next % SECTOR == 0 && next <= |data| && AreSectors(sectors[1..]) && data[next..] == Pack(sectors[1..])
            && Finds(data, start, next, Visible(sectors[0]))
  {
    ReadSector(data, start, sectors[0], Pack(sectors[1..]));
  }

  lemma {:induction false} ReadSectors(data: seq<byte>, start: nat, sectors: seq<seq<Record>>)
    requires AreSectors(sectors) && start % SECTOR == 0 && start <= |data| && data[start..] == Pack(sectors)
    ensures Finds(data, start, |data|, Visible(Flat(sectors)))
    decreases |sectors|
  {
    if sectors == [] {
      assert start == |data|;
      FindsNothing(data, start);
    } else {
      FirstSector(data, start, sectors);
      ReadSectors(data, start + SECTOR, sectors[1..]);
      FoundInAll(data, start, sectors);
    }
  }

  lemma FoundInAll(data: seq<byte>, start: nat, sectors: seq<seq<Record>>)
    requires sectors != [] && Finds(data, start, start + SECTOR, Visible(sectors[0]))
    requires Finds(data, start + SECTOR, |data|, Visible(Flat(sectors[1..])))
    ensures Finds(data, start, |data|, Visible(Flat(sectors)))
  {
    FindsBoth(data, start, start + SECTOR, |data|, Visible(sectors[0]), Visible(Flat(sectors[1..])));
    VisibleConcat(sectors[0], Flat(sectors[1..]));
  }

  lemma ReadSector(data: seq<byte>, start: nat, s: seq<Record>, rest: seq<byte>)
    requires AreRecords(s) && |PrintAll(s)| <= SECTOR && start % SECTOR == 0 && start <= |data|
    requires data[start..] == PrintAll(s) + Zeros(SECTOR - |PrintAll(s)|) + rest
    ensures start + SECTOR <= |data| && data[start + SECTOR..] == rest
    ensures Finds(data, start, start + SECTOR, Visible(s))
  {
    var end := start + |PrintAll(s)|;
    PackedParts(data, start, PrintAll(s), rest);
    ReadRecords(data, start, end, s);
    FindsAfterZeros(data, start, end, Visible(s));
  }

  lemma FindsAfterZeros(data: seq<byte>, start: nat, end: nat, found: seq<Entry>)
    requires start % SECTOR == 0 && start <= end <= start + SECTOR <= |data|
    requires end < start + SECTOR ==> data[end] == 0
    requires Finds(data, start, end, found)
    ensures Finds(data, start, start + SECTOR, found)
  {
    ReadZeros(data, start, end);
  }

  lemma PackedParts(data: seq<byte>, start: nat, printed: seq<byte>, rest: seq<byte>)
    requires |printed| <= SECTOR && start <= |data|
    requires data[start..] == printed + Zeros(SECTOR - |printed|) + rest
    ensures start + SECTOR <= |data| && data[start..start + |printed|] == printed && data[start + SECTOR..] == rest
    ensures |printed| < SECTOR ==> data[start + |printed|] == 0
  {
    var tail := data[start..];
    assert tail[..|printed|] == printed && tail[SECTOR..] == rest;
    assert data[start..start + |printed|] == tail[..|printed|] && data[start + SECTOR..] == tail[SECTOR..];
    if |printed| < SECTOR {
      assert data[start + |printed|] == tail[|printed|] == Zeros(SECTOR - |printed|)[0];
    }
  }

  /** Whatever records a directory holds, written sector by sector and padded with zeros, the
      reader finds them all, in order, without the directory itself and its parent and without
      version numbers. */
  lemma DirectoryReadBack(sectors: seq<seq<Record>>)
    requires AreSectors(sectors)
    ensures EntriesFrom(Pack(sectors), 0) == Ok(Visible(Flat(sectors)))
  {
    var data := Pack(sectors);
    ReadSectors(data, 0, sectors);
    assert EntriesFrom(data, |data|) == Ok([]);
    assert Visible(Flat(sectors)) + [] == Visible(Flat(sectors));
  }
}
