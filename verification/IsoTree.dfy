/** Finding files and directories by their paths in any laid-out image. */
module IsoTree {
  import opened Bytes
  import opened Iso
  import opened IsoLayout

  /** A tree with the records and sectors its directories are written in. */
  datatype Node =
    | FileNode(bytes: seq<byte>)
    | DirNode(slots: seq<Slot>, sectors: seq<seq<Record>>)

  datatype Slot =
    | Child(record: Record, name: seq<byte>, node: Node)
    | Own(record: Record)               // the directory itself, or its parent

  function RecordsOf(slots: seq<Slot>): seq<Record> {
    if slots == [] then [] else [slots[0].record] + RecordsOf(slots[1..])
  }

  predicate Slice(image: seq<byte>, extent: nat, length: nat, bytes: seq<byte>) {
    var start := extent * 2048;
    start + length <= |image| && image[start..start + length] == bytes
  }

  /** The same byte, or the same ASCII letter in the other case. */
  predicate IsSameLetter(a: int, b: int) {
    a == b || (65 <= a <= 90 && b == a + 32) || (65 <= b <= 90 && a == b + 32)
  }

  predicate IsRecased(a: seq<byte>, b: seq<byte>) {
    |a| == |b| && forall i :: 0 <= i < |a| ==> IsSameLetter(a[i], b[i])
  }

  /** A name as a record has it: with or without a semicolon and a version. */
  predicate IsWrittenAs(name: seq<byte>, written: seq<byte>) {
    59 !in name && name <= written && (written == name || written[|name|] == 59)
  }

  predicate IsNamed(slot: Slot, name: seq<byte>) {
    slot.Child? && IsRecased(slot.name, name)
  }

  /** No two children go by the same name, whatever the letter case. */
  ghost predicate AreDistinct(slots: seq<Slot>) {
    forall i, j, name :: 0 <= i < j < |slots| && IsNamed(slots[i], name) ==> !IsNamed(slots[j], name)
  }

  /** The image holds the tree: directories as the standard writes them, files where the
      record says; with their contents, or just with room for as many bytes. */
  ghost predicate IsLaidOut(image: seq<byte>, node: Node, extent: nat, length: nat, contents: bool)
    decreases node
  {
    match node
    case FileNode(bytes) =>
      if contents then Slice(image, extent, length, bytes)
      else length == |bytes| && extent * 2048 + length <= |image|
    case DirNode(slots, sectors) =>
      && AreSectors(sectors) && Slice(image, extent, length, Pack(sectors))
      && Flat(sectors) == RecordsOf(slots) && AreDistinct(slots)
      && forall slot :: slot in slots ==>
           match slot
           case Own(record) => record.name == [0] || record.name == [1]
           case Child(record, name, child) =>
             && record.name != [0] && record.name != [1] && IsWrittenAs(name, record.name)
             && (record.flags / 2 % 2 == 1 <==> child.DirNode?)
             && IsLaidOut(image, child, record.extent + record.attributes, record.length, contents)
  }

  /** A path leads from `node` to `target`, each part naming a child in any letter case. */
  ghost predicate Leads(node: Node, parts: seq<seq<byte>>, target: Node)
    decreases |parts|
  {
    if parts == [] then node == target
    else node.DirNode? && exists slot :: slot in node.slots && IsNamed(slot, parts[0]) && Leads(slot.node, parts[1..], target)
  }

  // ----- Names -----

  /** What the reader takes for the same name: ASCII letters in either case, other bytes alike. */
  lemma SameNameExactly(a: seq<byte>, b: seq<byte>)
    ensures SameName(a, b) <==> IsRecased(a, b)
  {
    if |a| == |b| {
      forall i | 0 <= i < |a|
        ensures Folded(a)[i] == Folded(b)[i] <==> IsSameLetter(a[i], b[i])
      {
      }
      if IsRecased(a, b) {
        assert Folded(a) == Folded(b);
      } else {
        var i :| 0 <= i < |a| && !IsSameLetter(a[i], b[i]);
        assert Folded(a)[i] != Folded(b)[i];
      }
    }
  }

  lemma {:induction false} CutExactly(name: seq<byte>, written: seq<byte>)
    requires IsWrittenAs(name, written)
    ensures CutVersion(written) == name
  {
    if name != [] {
      assert name[0] in name;
      CutExactly(name[1..], written[1..]);
    }
  }

  // ----- Looking up one name -----

  /** What the reader is to make of a child. */
  function EntryOfChild(slot: Slot): Entry
    requires slot.Child?
  {
    Entry(slot.name, slot.node.DirNode?, slot.record.extent + slot.record.attributes, slot.record.length)
  }

  /** What a directory lists: its children in order. */
  function Listing(slots: seq<Slot>): seq<Entry> {
    if slots == [] then []
    else if slots[0].Own? then Listing(slots[1..])
    else [EntryOfChild(slots[0])] + Listing(slots[1..])
  }

  /** The reader sees the slot as what it is. */
  predicate IsSeen(slot: Slot) {
    slot.Own? == IsSelfOrParent(slot.record.name) && (slot.Child? ==> EntryFor(slot.record) == EntryOfChild(slot))
  }

  lemma {:induction false} ListingIsVisible(slots: seq<Slot>)
    requires forall slot :: slot in slots ==> IsSeen(slot)
    ensures Visible(RecordsOf(slots)) == Listing(slots)
  {
    if slots != [] {
      assert RecordsOf(slots)[1..] == RecordsOf(slots[1..]);
      assert IsSeen(slots[0]);
      ListingIsVisible(slots[1..]);
    }
  }

  /** Only the child of that name answers to it, so the first that does is it. */
  lemma {:induction false} FindChild(slots: seq<Slot>, j: nat, part: seq<byte>)
    requires AreDistinct(slots) && j < |slots| && IsNamed(slots[j], part)
    ensures FindEntry(Listing(slots), part) == Ok(EntryOfChild(slots[j]))
    decreases |slots|
  {
    if slots[0].Child? {
      SameNameExactly(slots[0].name, part);
    }
    if j > 0 {
      assert !IsNamed(slots[0], part);
      assert AreDistinct(slots[1..]) by {
        forall a, b, name | 0 <= a < b < |slots[1..]| && IsNamed(slots[1..][a], name)
          ensures !IsNamed(slots[1..][b], name)
        {
          assert IsNamed(slots[a + 1], name);
        }
      }
      FindChild(slots[1..], j - 1, part);
      if slots[0].Child? {
        assert Listing(slots)[1..] == Listing(slots[1..]);
      }
    }
  }

  lemma {:induction false} FindNone(slots: seq<Slot>, part: seq<byte>)
    requires forall slot :: slot in slots ==> !IsNamed(slot, part)
    ensures FindEntry(Listing(slots), part) == Err(Missing)
  {
    if slots != [] {
      assert slots[0] in slots;
      FindNone(slots[1..], part);
      if slots[0].Child? {
        SameNameExactly(slots[0].name, part);
        assert Listing(slots)[1..] == Listing(slots[1..]);
      }
    }
  }

  // ----- Along a path -----

  /** An entry that leads the reader to `node`. */
  ghost predicate Leading(image: seq<byte>, entry: Entry, node: Node, contents: bool) {
    entry.isDir == node.DirNode? && IsLaidOut(image, node, entry.extent, entry.length, contents)
  }

  ghost predicate Shows(image: seq<byte>, entry: Entry, node: Node) {
    Leading(image, entry, node, true)
  }

  /** The same whatever the files hold. */
  ghost predicate HasShape(image: seq<byte>, entry: Entry, node: Node) {
    Leading(image, entry, node, false)
  }

  lemma {:induction false} LaidOutHasShape(image: seq<byte>, node: Node, extent: nat, length: nat)
    requires IsLaidOut(image, node, extent, length, true)
    ensures IsLaidOut(image, node, extent, length, false)
    decreases node
  {
    if node.DirNode? {
      forall slot | slot in node.slots && slot.Child?
        ensures IsLaidOut(image, slot.node, slot.record.extent + slot.record.attributes, slot.record.length, false)
      {
        LaidOutHasShape(image, slot.node, slot.record.extent + slot.record.attributes, slot.record.length);
      }
    }
  }

  lemma OwnAreKnown(image: seq<byte>, node: Node, extent: nat, length: nat, contents: bool, slot: Slot)
    requires node.DirNode? && IsLaidOut(image, node, extent, length, contents) && slot in node.slots
    ensures IsSeen(slot)
  {
    if slot.Child? {
      CutExactly(slot.name, slot.record.name);
    }
  }

  lemma SlotsAreListed(image: seq<byte>, node: Node, extent: nat, length: nat, contents: bool)
    requires node.DirNode? && IsLaidOut(image, node, extent, length, contents)
    ensures Visible(RecordsOf(node.slots)) == Listing(node.slots)
  {
    forall slot | slot in node.slots
      ensures IsSeen(slot)
    {
      OwnAreKnown(image, node, extent, length, contents, slot);
    }
    ListingIsVisible(node.slots);
  }

  lemma DirectoryHolds(image: seq<byte>, entry: Entry, node: Node, contents: bool)
    requires Leading(image, entry, node, contents) && node.DirNode?
    ensures AreSectors(node.sectors) && ContentsOf(image, entry) == Ok(Pack(node.sectors))
    ensures Flat(node.sectors) == RecordsOf(node.slots)
  {
  }

  lemma EntriesAreListed(image: seq<byte>, entry: Entry, sectors: seq<seq<Record>>, slots: seq<Slot>)
    requires AreSectors(sectors) && ContentsOf(image, entry) == Ok(Pack(sectors))
    requires Flat(sectors) == RecordsOf(slots) && Visible(RecordsOf(slots)) == Listing(slots)
    ensures EntriesOf(image, entry) == Ok(Listing(slots))
  {
    DirectoryReadBack(sectors);
  }

  lemma DirectoryShown(image: seq<byte>, entry: Entry, node: Node, contents: bool)
    requires Leading(image, entry, node, contents) && node.DirNode?
    ensures EntriesOf(image, entry) == Ok(Listing(node.slots))
  {
    DirectoryHolds(image, entry, node, contents);
    SlotsAreListed(image, node, entry.extent, entry.length, contents);
    EntriesAreListed(image, entry, node.sectors, node.slots);
  }

  lemma ChildShown(image: seq<byte>, entry: Entry, node: Node, contents: bool, slot: Slot, part: seq<byte>)
    requires Leading(image, entry, node, contents) && node.DirNode? && slot in node.slots && IsNamed(slot, part)
    ensures EntriesOf(image, entry).Ok? && FindEntry(EntriesOf(image, entry).value, part) == Ok(EntryOfChild(slot))
    ensures Leading(image, EntryOfChild(slot), slot.node, contents)
  {
    var j :| 0 <= j < |node.slots| && node.slots[j] == slot;
    DirectoryShown(image, entry, node, contents);
    FindChild(node.slots, j, part);
  }

  lemma {:induction false} LocateReadBack(image: seq<byte>, entry: Entry, node: Node, contents: bool,
                                          parts: seq<seq<byte>>, target: Node)
      returns (found: Entry)
    requires Leading(image, entry, node, contents) && Leads(node, parts, target)
    ensures LocateFrom(image, entry, parts) == Ok(found) && Leading(image, found, target, contents)
    decreases |parts|
  {
    if parts == [] {
      found := entry;
    } else {
      var slot :| slot in node.slots && IsNamed(slot, parts[0]) && Leads(slot.node, parts[1..], target);
      ChildShown(image, entry, node, contents, slot, parts[0]);
      found := LocateReadBack(image, EntryOfChild(slot), slot.node, contents, parts[1..], target);
    }
  }

  // ----- Paths as text -----

  ghost predicate IsPart(part: seq<byte>) {
    part != [] && 47 !in part
  }

  /** `/a/b/c`. */
  function Joined(parts: seq<seq<byte>>): seq<byte> {
    if parts == [] then [] else [47] + parts[0] + Joined(parts[1..])
  }

  lemma {:induction false} PartScanned(part: seq<byte>, rest: seq<byte>, before: seq<byte>)
    requires 47 !in part
    ensures Parts(part + rest, before) == Parts(rest, before + part)
    decreases |part|
  {
    if part == [] {
      assert part + rest == rest && before + part == before;
    } else {
      assert (part + rest)[1..] == part[1..] + rest;
      assert before + [part[0]] + part[1..] == before + part;
      PartScanned(part[1..], rest, before + [part[0]]);
    }
  }

  lemma {:induction false} PartsOfJoined(parts: seq<seq<byte>>, before: seq<byte>)
    requires forall part :: part in parts ==> IsPart(part)
    ensures Parts(Joined(parts), before) == (if before == [] then [] else [before]) + parts
    decreases |parts|
  {
    var first := if before == [] then [] else [before];
    if parts != [] {
      var rest := parts[0] + Joined(parts[1..]);
      assert parts[0] in parts;
      assert Joined(parts)[1..] == rest;
      PartScanned(parts[0], Joined(parts[1..]), []);
      assert [] + parts[0] == parts[0];
      PartsOfJoined(parts[1..], parts[0]);
      assert [parts[0]] + parts[1..] == parts;
    }
  }

  // ----- The main results -----

  /** Any file of the tree, by any path that leads to it, reads back as its bytes. */
  lemma FileReadBack(image: seq<byte>, root: Entry, tree: Node, parts: seq<seq<byte>>, bytes: seq<byte>)
    requires Shows(image, root, tree) && Leads(tree, parts, FileNode(bytes))
    requires forall part :: part in parts ==> IsPart(part)
    ensures ReadAt(image, root, Joined(parts)) == Ok(bytes)
    ensures ListAt(image, root, Joined(parts)) == Err(IsAFile)
  {
    PartsOfJoined(parts, []);
    assert [] + parts == parts;
    var found := LocateReadBack(image, root, tree, true, parts, FileNode(bytes));
  }

  /** Any directory of the tree, by any path that leads to it, lists its children. */
  lemma DirectoryListBack(image: seq<byte>, root: Entry, tree: Node, parts: seq<seq<byte>>, dir: Node)
    requires Shows(image, root, tree) && Leads(tree, parts, dir) && dir.DirNode?
    requires forall part :: part in parts ==> IsPart(part)
    ensures ListAt(image, root, Joined(parts)) == Ok(Listing(dir.slots))
    ensures ReadAt(image, root, Joined(parts)) == Err(IsADirectory)
  {
    PartsOfJoined(parts, []);
    assert [] + parts == parts;
    var found := LocateReadBack(image, root, tree, true, parts, dir);
    DirectoryShown(image, found, dir, true);
  }

  lemma {:induction false} LocateOn(image: seq<byte>, entry: Entry, parts: seq<seq<byte>>, more: seq<seq<byte>>, found: Entry)
    requires LocateFrom(image, entry, parts) == Ok(found)
    ensures LocateFrom(image, entry, parts + more) == LocateFrom(image, found, more)
    decreases |parts|
  {
    if parts == [] {
      assert parts + more == more;
    } else {
      var next := FindEntry(EntriesOf(image, entry).value, parts[0]).value;
      assert (parts + more)[1..] == parts[1..] + more;
      LocateOn(image, next, parts[1..], more, found);
    }
  }

  /** A name no child goes by is missing, and so is everything under it. */
  lemma NothingElseIsFound(image: seq<byte>, root: Entry, tree: Node, parts: seq<seq<byte>>, dir: Node, more: seq<seq<byte>>)
    requires Shows(image, root, tree) && Leads(tree, parts, dir) && dir.DirNode?
    requires more != [] && forall slot :: slot in dir.slots ==> !IsNamed(slot, more[0])
    requires forall part :: part in parts + more ==> IsPart(part)
    ensures ReadAt(image, root, Joined(parts + more)) == Err(Missing)
    ensures ListAt(image, root, Joined(parts + more)) == Err(Missing)
  {
    PartsOfJoined(parts + more, []);
    assert [] + (parts + more) == parts + more;
    var found := LocateReadBack(image, root, tree, true, parts, dir);
    LocateOn(image, root, parts, more, found);
    DirectoryShown(image, found, dir, true);
    FindNone(dir.slots, more[0]);
  }

  // ----- Paths that go on beyond a file -----

  /** A name looked up in bytes that are taken for a directory's. */
  function SoughtIn(bytes: seq<byte>, part: seq<byte>): Result<Entry> {
    var entries := EntriesFrom(bytes, 0);
    if entries.Err? then Err(entries.error) else FindEntry(entries.value, part)
  }

  /** The search does not ask whether what it goes through is a directory: beyond a file of
      the tree it looks the next name up in the file's bytes, read as directory records. */
  lemma FilesAreGoneThrough(image: seq<byte>, root: Entry, tree: Node, parts: seq<seq<byte>>, bytes: seq<byte>,
                            part: seq<byte>)
    requires Shows(image, root, tree) && Leads(tree, parts, FileNode(bytes))
    ensures LocateFrom(image, root, parts + [part]) == SoughtIn(bytes, part)
  {
    var found := LocateReadBack(image, root, tree, true, parts, FileNode(bytes));
    LocateOn(image, root, parts, [part], found);
    SoughtInFile(image, found, bytes, part);
  }

  lemma SoughtInFile(image: seq<byte>, file: Entry, bytes: seq<byte>, part: seq<byte>)
    requires Slice(image, file.extent, file.length, bytes)
    ensures LocateFrom(image, file, [part]) == SoughtIn(bytes, part)
  {
    assert [part][1..] == [];
  }

  /** The path has a proper beginning that leads to a file with something in it. */
  ghost predicate GoesBeyondAFile(tree: Node, parts: seq<seq<byte>>, k: nat, bytes: seq<byte>) {
    k < |parts| && bytes != [] && Leads(tree, parts[..k], FileNode(bytes))
  }

  lemma OutsideTheChild(node: Node, parts: seq<seq<byte>>, slot: Slot)
    requires node.DirNode? && parts != [] && slot in node.slots && IsNamed(slot, parts[0])
    requires forall target :: !Leads(node, parts, target)
    requires forall k: nat, bytes :: !GoesBeyondAFile(node, parts, k, bytes)
    ensures forall target :: !Leads(slot.node, parts[1..], target)
    ensures forall k: nat, bytes :: !GoesBeyondAFile(slot.node, parts[1..], k, bytes)
  {
    forall k: nat, bytes
      ensures !GoesBeyondAFile(slot.node, parts[1..], k, bytes)
    {
      if k < |parts[1..]| {
        assert parts[..k + 1][1..] == parts[1..][..k];
        assert !GoesBeyondAFile(node, parts, k + 1, bytes);
      }
    }
    forall target
      ensures !Leads(slot.node, parts[1..], target)
    {
      assert !Leads(node, parts, target);
    }
  }

  /** A path that leads nowhere, and through no file, is missing whatever the files hold. */
  lemma {:induction false} OutsideIsMissing(image: seq<byte>, entry: Entry, node: Node, parts: seq<seq<byte>>)
    requires HasShape(image, entry, node)
    requires forall target :: !Leads(node, parts, target)
    requires forall k: nat, bytes :: !GoesBeyondAFile(node, parts, k, bytes)
    ensures LocateFrom(image, entry, parts) == Err(Missing)
    decreases |parts|
  {
    assert parts != [] by {
      assert Leads(node, [], node);
    }
    if node.FileNode? {
      assert !GoesBeyondAFile(node, parts, 0, node.bytes) && parts[..0] == [];
      assert EntriesOf(image, entry) == Ok([]);
    } else if slot :| slot in node.slots && IsNamed(slot, parts[0]) {
      ChildShown(image, entry, node, false, slot, parts[0]);
      OutsideTheChild(node, parts, slot);
      OutsideIsMissing(image, EntryOfChild(slot), slot.node, parts[1..]);
    } else {
      DirectoryShown(image, entry, node, false);
      FindNone(node.slots, parts[0]);
    }
  }

  /** A directory of the tree has a record at that place of the image. */
  ghost predicate InADirectory(node: Node, extent: nat, length: nat, at: nat)
    decreases node
  {
    node.DirNode? &&
    (|| extent * 2048 <= at < extent * 2048 + length
     || exists slot :: slot in node.slots && slot.Child?
          && InADirectory(slot.node, slot.record.extent + slot.record.attributes, slot.record.length, at))
  }

  /** Changing a byte outside all directories changes no directory. */
  lemma {:induction false} ShapeStays(image: seq<byte>, node: Node, extent: nat, length: nat, at: nat, b: byte)
    requires IsLaidOut(image, node, extent, length, false)
    requires at < |image| && !InADirectory(node, extent, length, at)
    ensures IsLaidOut(image[at := b], node, extent, length, false)
    decreases node
  {
    if node.DirNode? {
      var start := extent * 2048;
      assert image[at := b][start..start + length] == image[start..start + length];
      forall slot | slot in node.slots && slot.Child?
        ensures IsLaidOut(image[at := b], slot.node, slot.record.extent + slot.record.attributes, slot.record.length, false)
      {
        ShapeStays(image, slot.node, slot.record.extent + slot.record.attributes, slot.record.length, at, b);
      }
    }
  }

  /** What a path of the tree is found to be depends on the directories alone. */
  lemma {:induction false} LocateSame(image: seq<byte>, image': seq<byte>, entry: Entry, node: Node,
                                      parts: seq<seq<byte>>, target: Node)
    requires HasShape(image, entry, node) && HasShape(image', entry, node) && Leads(node, parts, target)
    ensures LocateFrom(image, entry, parts) == LocateFrom(image', entry, parts)
    decreases |parts|
  {
    if parts != [] {
      var slot :| slot in node.slots && IsNamed(slot, parts[0]) && Leads(slot.node, parts[1..], target);
      ChildShown(image, entry, node, false, slot, parts[0]);
      ChildShown(image', entry, node, false, slot, parts[0]);
      LocateSame(image, image', EntryOfChild(slot), slot.node, parts[1..], target);
    }
  }

  /** No directory shares its place with the beginning of a file. */
  ghost predicate FilesAreApart(image: seq<byte>, root: Entry, tree: Node) {
    forall parts, bytes, file ::
      Leads(tree, parts, FileNode(bytes)) && bytes != [] && LocateFrom(image, root, parts) == Ok(file) ==>
        !InADirectory(tree, root.extent, root.length, file.extent * 2048)
  }

  /** A file on the way whose first byte makes it no directory. */
  lemma BeyondAFileIsNotMissing(image: seq<byte>, root: Entry, tree: Node, parts: seq<seq<byte>>, k: nat, bytes: seq<byte>)
      returns (image': seq<byte>)
    requires HasShape(image, root, tree) && FilesAreApart(image, root, tree) && GoesBeyondAFile(tree, parts, k, bytes)
    ensures |image'| == |image| && HasShape(image', root, tree)
    ensures LocateFrom(image', root, parts) == Err(BadRecord)
  {
    var file := LocateReadBack(image, root, tree, false, parts[..k], FileNode(bytes));
    var start := file.extent * 2048;
    image' := image[start := 1];
    ShapeStays(image, tree, root.extent, root.length, start, 1);
    LocateSame(image, image', root, tree, parts[..k], FileNode(bytes));
    assert parts[..k] + parts[k..] == parts;
    LocateOn(image', root, parts[..k], parts[k..], file);
    assert image'[start..start + file.length][0] == 1;
    assert EntriesOf(image', file) == Err(BadRecord);
  }

  /** A path outside the tree is missing whatever the files hold exactly when it does not go
      on beyond one of them that holds something. */
  lemma MissingExactly(image: seq<byte>, root: Entry, tree: Node, parts: seq<seq<byte>>)
    requires HasShape(image, root, tree) && FilesAreApart(image, root, tree)
    requires forall target :: !Leads(tree, parts, target)
    ensures (forall image' :: |image'| == |image| && HasShape(image', root, tree) ==>
                                LocateFrom(image', root, parts) == Err(Missing))
       <==> !exists k: nat, bytes :: GoesBeyondAFile(tree, parts, k, bytes)
  {
    if k: nat, bytes :| GoesBeyondAFile(tree, parts, k, bytes) {
      var image' := BeyondAFileIsNotMissing(image, root, tree, parts, k, bytes);
    } else {
      forall image' | |image'| == |image| && HasShape(image', root, tree)
        ensures LocateFrom(image', root, parts) == Err(Missing)
      {
        OutsideIsMissing(image', root, tree, parts);
      }
    }
  }

  // ----- An image in which such a path is found -----

  const A: seq<byte> := [65]
  const B: seq<byte> := [66]

  const A_RECORD := Record(0, 1, SECTOR, Zeros(7), 0, 0, 0, Zeros(4), A, [])
  const B_RECORD := Record(0, 0, 0, Zeros(7), 0, 0, 0, Zeros(4), B, [])

  /** A directory of one record. */
  function OneRecord(r: Record): (bytes: seq<byte>)
    requires IsRecord(r)
    ensures AreSectors([[r]]) && bytes == Pack([[r]]) && |bytes| == SECTOR && Flat([[r]]) == [r]
  {
    assert PrintAll([r]) == Print(r);
    assert [[r]][1..] == [] && [r][1..] == [];
    assert AreRecords([r]) && AreSectors([[r]]);
    assert Flat([[r]]) == [r] + Flat([]);
    Pack([[r]])
  }

  /** A tree of one file, `A`. */
  function OneFile(bytes: seq<byte>): Node {
    DirNode([Child(A_RECORD, A, FileNode(bytes))], [[A_RECORD]])
  }

  const ROOT := Entry([SLASH], true, 0, SECTOR)

  lemma OneFileShown(bytes: seq<byte>)
    requires |bytes| == SECTOR
    ensures Shows(OneRecord(A_RECORD) + bytes, ROOT, OneFile(bytes))
  {
    var a, top := A_RECORD, OneRecord(A_RECORD);
    var slots := [Child(a, A, FileNode(bytes))];
    assert Slice(top + bytes, 0, SECTOR, top) && Slice(top + bytes, 1, SECTOR, bytes);
    assert slots[1..] == [] && RecordsOf(slots) == [a];
    assert IsLaidOut(top + bytes, FileNode(bytes), 1, SECTOR, true);
  }

  lemma OneFileLeads(bytes: seq<byte>)
    ensures Leads(OneFile(bytes), [A], FileNode(bytes))
    ensures forall target :: !Leads(OneFile(bytes), [A, B], target)
  {
    var slot := Child(A_RECORD, A, FileNode(bytes));
    assert A[1..] == [] && CutVersion(A) == A;
    assert slot in OneFile(bytes).slots && IsNamed(slot, A);
    assert [A][1..] == [] && Leads(slot.node, [A][1..], FileNode(bytes));
    assert [A, B][1..] == [B];
    forall target
      ensures !Leads(OneFile(bytes), [A, B], target)
    {
      assert !Leads(FileNode(bytes), [B], target);
    }
  }

  /** Bytes written like a directory are one to the search. */
  lemma SoughtInRecords(sectors: seq<seq<Record>>, bytes: seq<byte>, part: seq<byte>)
    requires AreSectors(sectors) && bytes == Pack(sectors)
    ensures SoughtIn(bytes, part) == FindEntry(Visible(Flat(sectors)), part)
  {
    DirectoryReadBack(sectors);
  }

  lemma FindsOne(r: Record, part: seq<byte>)
    requires !IsSelfOrParent(r.name) && SameName(CutVersion(r.name), part)
    ensures FindEntry(Visible([r]), part) == Ok(EntryFor(r))
  {
    assert [r][1..] == [] && Visible([r]) == [EntryFor(r)];
  }

  lemma EmptyFileReads(image: seq<byte>, root: Entry, parts: seq<seq<byte>>)
    requires LocateFrom(image, root, parts) == Ok(Entry(B, false, 0, 0))
    requires forall part :: part in parts ==> IsPart(part)
    ensures ReadAt(image, root, Joined(parts)) == Ok([])
  {
    PartsOfJoined(parts, []);
    assert [] + parts == parts;
  }

  lemma FindsB(image: seq<byte>, root: Entry, tree: Node, bytes: seq<byte>)
    requires Shows(image, root, tree) && Leads(tree, [A], FileNode(bytes))
    requires SoughtIn(bytes, B) == Ok(Entry(B, false, 0, 0))
    ensures LocateFrom(image, root, [A, B]) == Ok(Entry(B, false, 0, 0))
  {
    FilesAreGoneThrough(image, root, tree, [A], bytes, B);
    assert [A] + [B] == [A, B];
  }

  lemma SoughtB()
    ensures SoughtIn(OneRecord(B_RECORD), B) == Ok(Entry(B, false, 0, 0))
  {
    SoughtInRecords([[B_RECORD]], OneRecord(B_RECORD), B);
    assert CutVersion(B) == B by {
      assert B[1..] == [];
    }
    FindsOne(B_RECORD, B);
  }

  /** A file `A` in the root directory whose bytes look like a directory with an empty `B`:
      there is no `A/B` in the tree, and it is found. */
  lemma FoundInAFile()
    ensures exists image, tree :: Shows(image, ROOT, tree) && (forall target :: !Leads(tree, [A, B], target))
                                  && ReadAt(image, ROOT, Joined([A, B])) == Ok([])
  {
    var bytes := OneRecord(B_RECORD);
    var image, tree := OneRecord(A_RECORD) + bytes, OneFile(bytes);
    OneFileShown(bytes);
    OneFileLeads(bytes);
    SoughtB();
    FindsB(image, ROOT, tree, bytes);
    EmptyFileReads(image, ROOT, [A, B]);
  }

  // ----- The primary descriptor -----

  predicate IsDescriptor(image: seq<byte>, index: nat) {
    var start := (16 + index) * 2048;
    start + 2048 <= |image| && image[start + 1..start + 6] == [67, 68, 48, 48, 49]
  }

  function TypeOf(image: seq<byte>, index: nat): byte
    requires IsDescriptor(image, index)
  {
    image[(16 + index) * 2048]
  }

  lemma SliceOfSlice(image: seq<byte>, start: nat, length: nat, a: nat, b: nat)
    requires start + length <= |image| && a <= b <= length
    ensures image[start..start + length][a..b] == image[start + a..start + b]
  {
    forall k {:trigger image[start + a..start + b][k]} | 0 <= k < b - a
      ensures image[start..start + length][a..b][k] == image[start + a..start + b][k]
    {
      assert image[start..start + length][a + k] == image[start + a + k];
    }
  }

  /** The first primary descriptor before any terminator is found, if among the first eight. */
  lemma {:induction false} PrimaryReadBack(image: seq<byte>, from: nat, index: nat, root: Record)
    requires from <= index < 8 && IsRecord(root) && |Print(root)| == 34
    requires forall k :: from <= k <= index ==> IsDescriptor(image, k)
    requires forall k :: from <= k < index ==> TypeOf(image, k) != 1 && TypeOf(image, k) != 255
    requires TypeOf(image, index) == 1
    requires var start := (16 + index) * 2048; image[start + 156..start + 190] == Print(root)
    ensures PrimaryFrom(image, from) == Ok(Entry([47], true, root.extent + root.attributes, root.length))
    decreases index - from
  {
    var start := (FIRST_DESCRIPTOR + from) * SECTOR;
    assert IsDescriptor(image, from);
    var sector := image[start..start + SECTOR];
    SliceOfSlice(image, start, SECTOR, 1, 6);
    SliceOfSlice(image, start, SECTOR, 156, 190);
    assert sector[0] == TypeOf(image, from);
    if from < index {
      PrimaryReadBack(image, from + 1, index, root);
    } else {
      RecordReadBack(root);
      PrintFields(root);
    }
  }
}
