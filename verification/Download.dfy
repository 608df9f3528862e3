/** Fetching one range and putting it in its place, and the life of the partial file
    (`src/media.rs`). Replies, writes and failures are given from outside. */
module Download {
  import opened Wrappers
  import opened Bytes
  import opened Media

  const ATTEMPTS: nat := 3

  /** The first answer of at most `ATTEMPTS`. */
  method FetchRange(reply: nat -> Option<seq<byte>>) returns (bytes: Option<seq<byte>>)
    ensures bytes.None? ==> forall a :: 0 <= a < 3 ==> reply(a).None?
    ensures bytes.Some? ==> exists a :: 0 <= a < 3 && reply(a) == bytes && forall b :: 0 <= b < a ==> reply(b).None?
  {
    for attempt := 0 to ATTEMPTS
      invariant forall a :: 0 <= a < attempt ==> reply(a).None?
    {
      var answer := reply(attempt);
      if answer.Some? {
        return answer;
      }
    }
    bytes := None;
  }

  lemma PlaceMore<T>(file: seq<T>, offset: nat, bytes: seq<T>, at: nat, n: nat)
    requires offset + |bytes| <= |file| && at + n <= |bytes|
    ensures Place(Place(file, offset, bytes[..at]), offset + at, bytes[at..at + n]) == Place(file, offset, bytes[..at + n])
  {
  }

  /** One write at an absolute offset. */
  method WriteSome(file: array<byte>, bytes: seq<byte>, offset: nat)
    requires offset + |bytes| <= file.Length
    modifies file
    ensures file[..] == Place(old(file[..]), offset, bytes)
  {
    forall k | 0 <= k < |bytes| {
      file[offset + k] := bytes[k];
    }
  }

  /** The write at that offset fails, or takes nothing. */
  predicate Sticks(takes: nat -> Option<nat>, offset: nat) {
    takes(offset).None? || takes(offset) == Some(0)
  }

  /** One write of the next stretch, after `at` bytes were written. */
  method WriteNext(file: array<byte>, piece: seq<byte>, next: nat, ghost was: seq<byte>, ghost offset: nat, ghost bytes: seq<byte>, ghost at: nat)
    requires offset + |bytes| <= file.Length == |was| && at + |piece| <= |bytes|
    requires next == offset + at && piece == bytes[at..][..|piece|]
    requires file[..] == Place(was, offset, bytes[..at])
    modifies file
    ensures file[..] == Place(was, offset, bytes[..at + |piece|])
  {
    WriteSome(file, piece, next);
    assert bytes[at..][..|piece|] == bytes[at..at + |piece|];
    PlaceMore(was, offset, bytes, at, |piece|);
  }

  /** Puts `bytes` at `offset`, as many at a time as a write takes: nothing else in the file
      changes, and a failure leaves a beginning of `bytes` in place. `takes` says how many
      bytes the write at an offset takes, or that it fails. */
  method WriteAt(file: array<byte>, bytes: seq<byte>, offset: nat, takes: nat -> Option<nat>) returns (ok: bool)
    requires offset + |bytes| <= file.Length
    modifies file
    ensures ok ==> file[..] == Place(old(file[..]), offset, bytes)
    ensures !ok ==> exists k :: 0 <= k < |bytes| && file[..] == Place(old(file[..]), offset, bytes[..k])
                                && Sticks(takes, offset + k)
  {
    var rest, next := bytes, offset;
    ghost var was, at := file[..], 0;
    assert was == Place(was, offset, bytes[..0]);
    while rest != []
      invariant 0 <= at <= |bytes| && next == offset + at && rest == bytes[at..]
      invariant file[..] == Place(was, offset, bytes[..at])
      decreases |rest|
    {
      var taken := takes(next);
      if taken.None? || taken.value == 0 {
        return false;
      }
      var n := Min(taken.value, |rest|);
      WriteNext(file, rest[..n], next, was, offset, bytes, at);
      assert bytes[at..][n..] == bytes[at + n..];
      rest, next, at := rest[n..], next + n, at + n;
    }
    assert bytes[..at] == bytes;
    ok := true;
  }

  /** One chunk: only a reply of exactly the length asked for is written. */
  method FetchOne(file: array<byte>, chunk: nat, reply: nat -> Option<seq<byte>>, takes: nat -> Option<nat>)
      returns (written: Option<nat>)
    requires Start(chunk) < file.Length
    modifies file
    ensures written.Some? ==>
      && written.value == Size(file.Length, chunk)
      && exists a :: 0 <= a < 3 && reply(a).Some? && |reply(a).value| == written.value
                     && file[..] == Place(old(file[..]), Start(chunk), reply(a).value)
    ensures forall i :: 0 <= i < file.Length && !(chunk * 0x400_0000 <= i < (chunk + 1) * 0x400_0000) ==> file[i] == old(file[i])
    ensures written.None? ==>
      || (forall a :: 0 <= a < 3 ==> reply(a).None?)
      || (exists a :: 0 <= a < 3 && reply(a).Some? && |reply(a).value| != Size(file.Length, chunk))
      || (exists at :: Start(chunk) <= at < Start(chunk) + Size(file.Length, chunk) && Sticks(takes, at))
  {
    var answer := FetchRange(reply);
    if answer.None? {
      return None;
    }
    var bytes := answer.value;
    var want := Size(file.Length, chunk);
    if |bytes| != want {
      return None;
    }
    var ok := WriteAt(file, bytes, Start(chunk), takes);
    written := if ok then Some(|bytes|) else None;
    assert forall i {:trigger file[i]} :: 0 <= i < file.Length ==> file[i] == file[..][i];
  }

  // ----- The partial file -----

  class Disk {
    var files: map<string, seq<byte>>

    constructor (files: map<string, seq<byte>>)
      ensures this.files == files
    {
      this.files := files;
    }
  }

  /** What a download meets: whether what is there can be read, the announced length, whether
      the partial file can be made and given its size, what the workers fetch, whether that
      can be read back and the rename works. */
  datatype Luck = Luck(legible: bool, length: Option<nat>, created: bool, sized: bool, fetched: Option<seq<byte>>,
                       synced: bool, readBack: bool, renamed: bool)

  /** What is at `out` already will do. */
  predicate IsThere(files: map<string, seq<byte>>, out: string, sha256: Option<string>, hash: seq<byte> -> string, luck: Luck) {
    out in files && if sha256.Some? then hash(files[out]) == sha256.value else luck.length == Some(|files[out]|)
  }

  /** Everything goes well on the way to a new file. */
  predicate Arrives(sha256: Option<string>, hash: seq<byte> -> string, luck: Luck) {
    && luck.length.Some? && luck.created && luck.sized && luck.fetched.Some? && luck.synced && luck.renamed
    && (sha256.Some? ==> luck.readBack && hash(luck.fetched.value) == sha256.value)
  }

  /** What a failure leaves at `partial`: nothing, what was there before it was begun, an
      empty file that could not be given its size, or the whole file when only syncing or
      moving it failed. */
  predicate IsLeftover(now: map<string, seq<byte>>, was: map<string, seq<byte>>, partial: string, luck: Luck) {
    partial in now ==>
      || ((luck.length.None? || !luck.created || !luck.legible) && partial in was && now[partial] == was[partial])
      || (luck.created && !luck.sized && now[partial] == [])
      || (luck.fetched == Some(now[partial]) && (!luck.synced || !luck.renamed))
  }

  /** `fetch_until`, with `sha256` in lower case. Whatever goes wrong, what is at `out` is what
      was there before; what is put there is a whole file, with the checksum asked for. Without
      one a file of the right length is taken as it is. A failed download or check leaves no
      partial file behind. */
  method FetchUntil(disk: Disk, out: string, partial: string, sha256: Option<string>, hash: seq<byte> -> string, luck: Luck)
      returns (ok: bool)
    requires partial != out
    requires luck.fetched.Some? && luck.length.Some? ==> |luck.fetched.value| == luck.length.value
    modifies disk
    ensures forall name :: name != out && name != partial ==>
      (name in disk.files <==> name in old(disk.files)) && (name in disk.files ==> disk.files[name] == old(disk.files)[name])
    ensures ok ==> out in disk.files
    ensures ok && sha256.Some? ==> hash(disk.files[out]) == sha256.value
    ensures ok && sha256.None? ==> luck.length == Some(|disk.files[out]|)
    ensures !ok || (out in old(disk.files) && disk.files[out] == old(disk.files)[out])
            || (luck.fetched == Some(disk.files[out]) && partial !in disk.files)
    ensures ok <==> (sha256.Some? && out in old(disk.files) ==> luck.legible)
                    && (IsThere(old(disk.files), out, sha256, hash, luck) || Arrives(sha256, hash, luck))
    ensures !ok ==> (out in disk.files <==> out in old(disk.files)) && (out in disk.files ==> disk.files[out] == old(disk.files)[out])
    ensures !ok ==> IsLeftover(disk.files, old(disk.files), partial, luck)
  {
    if sha256.Some? && out in disk.files {
      if !luck.legible {
        return false;
      }
      if hash(disk.files[out]) == sha256.value {
        return true;
      }
    }
    if luck.length.None? {
      return false;
    }
    if sha256.None? && out in disk.files && |disk.files[out]| == luck.length.value {
      return true;
    }
    if !luck.created {
      return false;
    }
    if !luck.sized {
      disk.files := disk.files[partial := []];
      return false;
    }
    if luck.fetched.None? {
      disk.files := disk.files - {partial};
      return false;
    }
    disk.files := disk.files[partial := luck.fetched.value];
    if !luck.synced {
      return false;
    }
    if sha256.Some? && (!luck.readBack || hash(disk.files[partial]) != sha256.value) {
      disk.files := disk.files - {partial};
      return false;
    }
    if !luck.renamed {
      return false;
    }
    disk.files := disk.files[out := disk.files[partial]] - {partial};
    ok := true;
  }
}
