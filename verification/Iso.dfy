/** Reading files out of an ISO9660 image (`src/iso.rs`, ECMA-119). Names and paths are the
    bytes of their text. */
module Iso {
  import opened Bytes

  const SECTOR: nat := 2048
  const FIRST_DESCRIPTOR: nat := 16
  const STANDARD_IDENTIFIER: seq<byte> := [67, 68, 48, 48, 49]  // "CD001"
  const DESCRIPTOR_PRIMARY: byte := 1
  const DESCRIPTOR_TERMINATOR: byte := 255
  const SLASH: byte := 47
  const SEMICOLON: byte := 59

  datatype Entry = Entry(name: seq<byte>, isDir: bool, extent: nat, length: nat)

  datatype Error = PastTheEnd | BadRecord | NameTooLong | Missing | IsAFile | IsADirectory | NoDescriptor | NoPrimary

  datatype Result<+T> = Ok(value: T) | Err(error: Error)

  // ----- What the bytes mean -----

  function LittleEndian(b: seq<byte>): (n: nat)
    requires |b| == 4
    ensures n < 0x1_0000_0000
  {
    var b0: nat, b1: nat, b2: nat, b3: nat := b[0], b[1], b[2], b[3];
    b0 + 0x100 * b1 + 0x1_0000 * b2 + 0x100_0000 * b3
  }

  /** The extent proper starts after the extended attribute record; 32-bit arithmetic. */
  function ExtentOf(record: seq<byte>): nat
    requires |record| >= 34
  {
    (LittleEndian(record[2..6]) + record[1]) % 0x1_0000_0000
  }

  function IsDirectoryFlag(flags: byte): bool {
    flags / 2 % 2 == 1
  }

  predicate IsSelfOrParent(name: seq<byte>) {
    name == [0] || name == [1]
  }

  /** The name without its version. */
  function CutVersion(name: seq<byte>): seq<byte> {
    if name == [] || name[0] == SEMICOLON then [] else [name[0]] + CutVersion(name[1..])
  }

  function EntryOf(record: seq<byte>, name: seq<byte>): Entry
    requires |record| >= 34
  {
    Entry(CutVersion(name), IsDirectoryFlag(record[25]), ExtentOf(record), LittleEndian(record[10..14]))
  }

  /** The entries from `offset` on. */
  function EntriesFrom(data: seq<byte>, offset: nat): Result<seq<Entry>>
    decreases |data| - offset
  {
    if offset >= |data| then Ok([]) else
    var len: nat := data[offset];
    if len == 0 then EntriesFrom(data, (offset / SECTOR + 1) * SECTOR)
    else if offset + len > |data| || len < 34 then Err(BadRecord) else
    var record := data[offset..offset + len];
    var nameLength: nat := record[32];
    if 33 + nameLength > len then Err(NameTooLong) else
    var name := record[33..33 + nameLength];
    match EntriesFrom(data, offset + len)
    case Err(e) => Err(e)
    case Ok(rest) => Ok(if IsSelfOrParent(name) then rest else [EntryOf(record, name)] + rest)
  }

  function ContentsOf(image: seq<byte>, entry: Entry): Result<seq<byte>> {
    var start := entry.extent * SECTOR;
    if start + entry.length > |image| then Err(PastTheEnd) else Ok(image[start..start + entry.length])
  }

  function EntriesOf(image: seq<byte>, dir: Entry): Result<seq<Entry>> {
    match ContentsOf(image, dir)
    case Err(e) => Err(e)
    case Ok(data) => EntriesFrom(data, 0)
  }

  function Lower(b: byte): byte {
    if 65 <= b <= 90 then b + 32 else b
  }

  function Folded(name: seq<byte>): (f: seq<byte>)
    ensures |f| == |name|
  {
    seq(|name|, i requires 0 <= i < |name| => Lower(name[i]))
  }

  predicate SameName(a: seq<byte>, b: seq<byte>) {
    Folded(a) == Folded(b)
  }

  /** The first entry of that name, in any letter case. */
  function FindEntry(entries: seq<Entry>, part: seq<byte>): Result<Entry> {
    if entries == [] then Err(Missing)
    else if SameName(entries[0].name, part) then Ok(entries[0])
    else FindEntry(entries[1..], part)
  }

  function LocateFrom(image: seq<byte>, current: Entry, parts: seq<seq<byte>>): Result<Entry>
    decreases |parts|
  {
    if parts == [] then Ok(current) else
    match EntriesOf(image, current)
    case Err(e) => Err(e)
    case Ok(entries) =>
      match FindEntry(entries, parts[0])
      case Err(e) => Err(e)
      case Ok(found) => LocateFrom(image, found, parts[1..])
  }

  /** The parts of a path between its slashes, without the empty ones. */
  function Parts(path: seq<byte>, part: seq<byte>): seq<seq<byte>>
    decreases |path|
  {
    var last := if part == [] then [] else [part];
    if path == [] then last
    else if path[0] == SLASH then last + Parts(path[1..], [])
    else Parts(path[1..], part + [path[0]])
  }

  function ReadAt(image: seq<byte>, root: Entry, path: seq<byte>): Result<seq<byte>> {
    match LocateFrom(image, root, Parts(path, []))
    case Err(e) => Err(e)
    case Ok(entry) => if entry.isDir then Err(IsADirectory) else ContentsOf(image, entry)
  }

  function ListAt(image: seq<byte>, root: Entry, path: seq<byte>): Result<seq<Entry>> {
    match LocateFrom(image, root, Parts(path, []))
    case Err(e) => Err(e)
    case Ok(entry) => if !entry.isDir then Err(IsAFile) else EntriesOf(image, entry)
  }

  function RootOf(sector: seq<byte>): Entry
    requires |sector| == SECTOR
  {
    Entry([SLASH], true, ExtentOf(sector[156..190]), LittleEndian(sector[156..190][10..14]))
  }

  /** The root directory, from the primary descriptor among the first eight. */
  function PrimaryFrom(image: seq<byte>, index: nat): Result<Entry>
    requires index <= 8
    decreases 8 - index
  {
    if index == 8 then Err(NoPrimary) else
    var start := (FIRST_DESCRIPTOR + index) * SECTOR;
    if start + SECTOR > |image| then Err(PastTheEnd) else
    var sector := image[start..start + SECTOR];
    if sector[1..6] != STANDARD_IDENTIFIER then Err(NoDescriptor)
    else if sector[0] == DESCRIPTOR_PRIMARY then Ok(RootOf(sector))
    else if sector[0] == DESCRIPTOR_TERMINATOR then Err(NoPrimary)
    else PrimaryFrom(image, index + 1)
  }

  // ----- The reader -----

  /** An open file. */
  class File {
    const data: seq<byte>
    var position: nat

    constructor (data: seq<byte>)
      ensures this.data == data && position == 0
    {
      this.data, position := data, 0;
    }

    method Seek(to: nat)
      modifies this`position
      ensures position == to
    {
      position := to;
    }

    /** All of the bytes asked for: the caller has seen to it that they are there. */
    method ReadExact(n: nat) returns (bytes: seq<byte>)
      requires position + n <= |data|
      modifies this`position
      ensures bytes == data[old(position)..old(position) + n] && position == old(position) + n
    {
      bytes := data[position..position + n];
      position := position + n;
    }
  }

  class Image {
    const file: File
    const root: Entry

    constructor (file: File, root: Entry)
      ensures this.file == file && this.root == root
    {
      this.file, this.root := file, root;
    }

    method Contents(entry: Entry) returns (r: Result<seq<byte>>)
      modifies file`position
      ensures r == ContentsOf(file.data, entry)
    {
      var start := entry.extent * SECTOR;
      var end := start + entry.length;
      if end > |file.data| {
        return Err(PastTheEnd);
      }
      file.Seek(start);
      var buffer := file.ReadExact(entry.length);
      r := Ok(buffer);
    }

    /** The directory record loop: it ends on every byte string, and looks at no byte that
        is not there. */
    method Entries(dir: Entry) returns (r: Result<seq<Entry>>)
      modifies file`position
      ensures r == EntriesOf(file.data, dir)
    {
      var contents := Contents(dir);
      if contents.Err? {
        return Err(contents.error);
      }
      var data := contents.value;
      var found := [];
      var offset := 0;
      PrependedNone(EntriesFrom(data, 0));
      while offset < |data|
        invariant EntriesFrom(data, 0) == Prepended(found, EntriesFrom(data, offset))
        decreases |data| - offset
      {
        var len: nat := data[offset];
        if len == 0 {
          offset := (offset / SECTOR + 1) * SECTOR;
          continue;
        }
        if offset + len > |data| || len < 34 {
          return Err(BadRecord);
        }
        var record := data[offset..offset + len];
        var nameLength: nat := record[32];
        if 33 + nameLength > len {
          return Err(NameTooLong);
        }
        var name := record[33..33 + nameLength];
        if !IsSelfOrParent(name) {
          PrependedMore(found, EntryOf(record, name), EntriesFrom(data, offset + len));
          found := found + [EntryOf(record, name)];
        }
        offset := offset + len;
      }
      r := Ok(found);
      assert found + [] == found;
    }

    method Locate(path: seq<byte>) returns (r: Result<Entry>)
      modifies file`position
      ensures r == LocateFrom(file.data, root, Parts(path, []))
    {
      var current := root;
      var parts := Parts(path, []);
      var i := 0;
      while i < |parts|
        invariant 0 <= i <= |parts|
        invariant LocateFrom(file.data, root, parts) == LocateFrom(file.data, current, parts[i..])
      {
        var entries := Entries(current);
        if entries.Err? {
          return Err(entries.error);
        }
        var found := FindEntry(entries.value, parts[i]);
        if found.Err? {
          return found;
        }
        assert parts[i..][1..] == parts[i + 1..];
        current := found.value;
        i := i + 1;
      }
      r := Ok(current);
    }

    method List(path: seq<byte>) returns (r: Result<seq<Entry>>)
      modifies file`position
      ensures r == ListAt(file.data, root, path)
    {
      var dir := Locate(path);
      if dir.Err? {
        return Err(dir.error);
      }
      if !dir.value.isDir {
        return Err(IsAFile);
      }
      r := Entries(dir.value);
    }

    method Read(path: seq<byte>) returns (r: Result<seq<byte>>)
      modifies file`position
      ensures r == ReadAt(file.data, root, path)
    {
      var entry := Locate(path);
      if entry.Err? {
        return Err(entry.error);
      }
      if entry.value.isDir {
        return Err(IsADirectory);
      }
      r := Contents(entry.value);
    }
  }

  ghost function Prepended(found: seq<Entry>, rest: Result<seq<Entry>>): Result<seq<Entry>> {
    match rest
    case Err(e) => Err(e)
    case Ok(entries) => Ok(found + entries)
  }

  lemma PrependedNone(rest: Result<seq<Entry>>)
    ensures Prepended([], rest) == rest
  {
    if rest.Ok? {
      assert [] + rest.value == rest.value;
    }
  }

  lemma PrependedMore(found: seq<Entry>, entry: Entry, rest: Result<seq<Entry>>)
    ensures Prepended(found + [entry], rest) == Prepended(found, Prepended([entry], rest))
  {
    if rest.Ok? {
      assert found + [entry] + rest.value == found + ([entry] + rest.value);
    }
  }

  method Primary(file: File) returns (r: Result<Entry>)
    modifies file`position
    ensures r == PrimaryFrom(file.data, 0)
  {
    for index := 0 to 8
      invariant PrimaryFrom(file.data, 0) == PrimaryFrom(file.data, index)
    {
      var start := (FIRST_DESCRIPTOR + index) * SECTOR;
      if start + SECTOR > |file.data| {
        return Err(PastTheEnd);
      }
      file.Seek(start);
      var sector := file.ReadExact(SECTOR);
      if sector[1..6] != STANDARD_IDENTIFIER {
        return Err(NoDescriptor);
      }
      if sector[0] == DESCRIPTOR_PRIMARY {
        return Ok(RootOf(sector));
      }
      if sector[0] == DESCRIPTOR_TERMINATOR {
        break;
      }
    }
    r := Err(NoPrimary);
  }
}
