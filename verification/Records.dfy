/** One VM directory as files (`src/state.rs`): how a record is written, read and removed, and
    what another process, or a crash, finds at any moment of it. What a record looks like as
    JSON is left to the parameter that reads it. */
module Records {
  import opened Wrappers
  import opened Lifecycle

  const RECORD := "vm.json"

  type Files = map<string, string>
  type Parser = string -> Option<Process>

  /** What `read_record` makes of a directory: nothing when it is missing, has no record or
      one without a meaning. */
  function Read(files: Option<Files>, parse: Parser): Option<Process> {
    if files.Some? && "vm.json" in files.value then parse(files.value["vm.json"]) else None
  }

  function Held(files: Option<Files>): Files {
    if files.Some? then files.value else map[]
  }

  class Folder {
    var files: Option<Files>               // nothing when there is no such directory
    ghost var past: seq<Option<Files>>     // every state so far, the present one last

    constructor (files: Option<Files>)
      ensures this.files == files && past == [files]
    {
      this.files, past := files, [files];
    }

    method Become(files: Option<Files>)
      modifies this
      ensures this.files == files && past == old(past) + [files]
    {
      this.files, past := files, past + [files];
    }
  }

  // ----- Writing a record -----

  /** How the steps of `save` turn out; `written` is how much of the text can be written. */
  datatype Luck = Luck(directory: bool, created: bool, written: nat, synced: bool, renamed: bool, cleaned: bool)

  /** Nothing differs but the temporary file, and perhaps the directory is new. */
  predicate OnlyScratch(now: Option<Files>, was: Option<Files>, temp: string) {
    now == was || (now.Some? && now.value - {temp} == Held(was))
  }

  ghost predicate AllOnlyScratch(past: seq<Option<Files>>, first: nat, was: Option<Files>, temp: string) {
    forall i :: first <= i < |past| ==> OnlyScratch(past[i], was, temp)
  }

  lemma ScratchIsNotRead(now: Option<Files>, was: Option<Files>, temp: string, parse: Parser)
    requires temp != RECORD && temp !in Held(was) && OnlyScratch(now, was, temp)
    ensures Read(now, parse) == Read(was, parse)
  {
    if now != was {
      assert RECORD in now.value <==> RECORD in now.value - {temp};
    }
  }

  /** Fills the temporary file: the JSON, a newline, and a sync. */
  method Write(folder: Folder, temp: string, json: string, luck: Luck) returns (ok: bool)
    requires folder.files.Some? && temp !in folder.files.value
    modifies folder
    ensures ok <==> luck.written > |json| && luck.synced
    ensures OnlyScratch(folder.files, old(folder.files), temp)
    ensures ok ==> folder.files == Some(old(folder.files).value[temp := json + "\n"])
    ensures old(folder.past) <= folder.past
    ensures AllOnlyScratch(folder.past, |old(folder.past)|, old(folder.files), temp)
  {
    var files := folder.files.value;
    folder.Become(Some(files[temp := ""]));
    folder.Become(Some(files[temp := if luck.written < |json| then json[..luck.written] else json]));
    if luck.written > |json| {
      folder.Become(Some(files[temp := json + "\n"]));
    }
    ok := luck.written > |json| && luck.synced;
  }

  /** Everything up to the rename. */
  method Stage(folder: Folder, temp: string, json: string, luck: Luck) returns (ok: bool)
    requires temp !in Held(folder.files)
    modifies folder
    ensures ok <==> (old(folder.files).Some? || luck.directory) && luck.created && luck.written > |json| && luck.synced
    ensures OnlyScratch(folder.files, old(folder.files), temp)
    ensures ok ==> folder.files == Some(Held(old(folder.files))[temp := json + "\n"])
    ensures old(folder.past) <= folder.past
    ensures AllOnlyScratch(folder.past, |old(folder.past)|, old(folder.files), temp)
  {
    if folder.files.None? {
      if !luck.directory {
        return false;
      }
      folder.Become(Some(map[]));
    }
    if !luck.created {
      return false;
    }
    ok := Write(folder, temp, json, luck);
  }

  /** In all those states the record reads as it did at first. */
  ghost predicate StillReads(past: seq<Option<Files>>, first: nat, last: int, was: Option<Files>, parse: Parser) {
    forall i :: first <= i < last <= |past| ==> Read(past[i], parse) == Read(was, parse)
  }

  /** Writes a record: beside the old one first, then in one step. At every moment, and so
      after a crash at any of them, the record found is the old one, until the last step makes
      it the new one. A failure leaves the old one and, if that can be cleaned up, no scratch. */
  method Save(folder: Folder, temp: string, json: string, luck: Luck, ghost parse: Parser) returns (ok: bool)
    requires temp != RECORD && temp !in Held(folder.files)
    modifies folder
    ensures ok <==> (old(folder.files).Some? || luck.directory)
                    && luck.created && luck.written > |json| && luck.synced && luck.renamed
    ensures ok ==> folder.files == Some(Held(old(folder.files))["vm.json" := json + "\n"])
    ensures ok ==> Read(folder.files, parse) == parse(json + "\n")
    ensures !ok ==> OnlyScratch(folder.files, old(folder.files), temp)
    ensures !ok ==> Read(folder.files, parse) == Read(old(folder.files), parse)
    ensures !ok && luck.cleaned ==> Held(folder.files) == Held(old(folder.files))
    ensures old(folder.past) <= folder.past
    ensures ok ==> |folder.past| > |old(folder.past)| && folder.past[|folder.past| - 1] == folder.files
    ensures StillReads(folder.past, |old(folder.past)|, if ok then |folder.past| - 1 else |folder.past|,
                       old(folder.files), parse)
  {
    ghost var was, first := folder.files, |folder.past|;
    ok := Stage(folder, temp, json, luck);
    forall i | first <= i < |folder.past|
      ensures Read(folder.past[i], parse) == Read(was, parse)
    {
      ScratchIsNotRead(folder.past[i], was, temp, parse);
    }
    ok := ok && luck.renamed;
    if ok {
      folder.Become(Some((folder.files.value - {temp})[RECORD := folder.files.value[temp]]));
    } else {
      if luck.cleaned && folder.files.Some? {
        folder.Become(Some(folder.files.value - {temp}));
      }
      ScratchIsNotRead(folder.files, was, temp, parse);
    }
  }

  // ----- Removing a directory -----

  /** The files of a directory in the order in which they come up, each once. */
  ghost predicate IsOrder(order: seq<string>, files: Files) {
    && (forall n :: n in order <==> n in files)
    && (forall i, j :: 0 <= i < j < |order| ==> order[i] != order[j])
  }

  /** Part of what there was, unchanged. */
  predicate IsPart(now: Files, was: Files) {
    now.Keys <= was.Keys && forall n :: n in now ==> now[n] == was[n]
  }

  /** What is removed stays removed, and nothing else changes. */
  ghost predicate OnlyShrinks(past: seq<Option<Files>>, first: nat, was: Files) {
    && (forall i :: first <= i < |past| && past[i].Some? ==> IsPart(past[i].value, was))
    && (forall i, j :: first <= i < j < |past| && past[j].Some? ==> past[i].Some? && IsPart(past[j].value, past[i].value))
  }

  /** The files left once those are gone. */
  function Rest(was: Files, gone: seq<string>): Files {
    map n | n in was && n !in gone :: was[n]
  }

  /** Removal gets as far as that file, or to the directory itself, and not through it. */
  ghost predicate StopsAt(order: seq<string>, sticks: string -> bool, stays: bool, k: nat) {
    k <= |order| && (forall n :: n in order[..k] ==> !sticks(n)) && (if k < |order| then sticks(order[k]) else stays)
  }

  lemma RestStep(was: Files, order: seq<string>, i: nat)
    requires i < |order|
    ensures Rest(was, order[..i + 1]) == Rest(was, order[..i]) - {order[i]}
    ensures IsPart(Rest(was, order[..i + 1]), Rest(was, order[..i]))
  {
    assert order[..i + 1] == order[..i] + [order[i]];
  }

  /** One more file goes. */
  lemma ShrinkStep(past: seq<Option<Files>>, first: nat, was: Files, now: Files, next: Files)
    requires OnlyShrinks(past, first, was) && IsPart(next, now) && IsPart(now, was) && first <= |past|
    requires forall i :: first <= i < |past| ==> past[i].Some? && IsPart(now, past[i].value)
    ensures OnlyShrinks(past + [Some(next)], first, was)
    ensures forall i :: first <= i < |past + [Some(next)]| ==>
      (past + [Some(next)])[i].Some? && IsPart(next, (past + [Some(next)])[i].value)
  {
  }

  /** `remove_dir_all`: file by file, then the directory, up to the first that cannot be
      removed. Missing is success. Success leaves nothing; a failure leaves exactly what comes
      from the file it stopped at on, or an empty directory. */
  method Remove(folder: Folder, order: seq<string>, sticks: string -> bool, stays: bool) returns (ok: bool)
    requires IsOrder(order, Held(folder.files))
    modifies folder
    ensures ok <==> old(folder.files).None? || (!stays && forall n :: n in order ==> !sticks(n))
    ensures ok ==> folder.files.None?
    ensures !ok ==> exists k: nat :: StopsAt(order, sticks, stays, k)
                                     && folder.files == Some(Rest(old(folder.files).value, order[..k]))
    ensures old(folder.past) <= folder.past
    ensures OnlyShrinks(folder.past, |old(folder.past)|, Held(old(folder.files)))
  {
    if folder.files.None? {
      return true;
    }
    ghost var was, first := folder.files.value, |folder.past|;
    var i := 0;
    assert Rest(was, order[..i]) == was;
    while i < |order|
      invariant 0 <= i <= |order|
      invariant folder.files == Some(Rest(was, order[..i])) && IsPart(Rest(was, order[..i]), was)
      invariant forall n :: n in order[..i] ==> !sticks(n)
      invariant old(folder.past) <= folder.past && OnlyShrinks(folder.past, first, was)
      invariant forall j :: first <= j < |folder.past| ==>
        folder.past[j].Some? && IsPart(Rest(was, order[..i]), folder.past[j].value)
    {
      if sticks(order[i]) {
        assert StopsAt(order, sticks, stays, i);
        return false;
      }
      RestStep(was, order, i);
      ShrinkStep(folder.past, first, was, Rest(was, order[..i]), Rest(was, order[..i + 1]));
      folder.Become(Some(folder.files.value - {order[i]}));
      i := i + 1;
    }
    assert order[..i] == order;
    if stays {
      assert StopsAt(order, sticks, stays, i);
      return false;
    }
    folder.Become(None);
    ok := true;
  }

  // ----- What the life of VMs takes this for -----

  /** The listing of all directories when this one is as given. */
  function View(dirs: Listing, name: string, files: Option<Files>, parse: Parser): Listing {
    if files.None? then Without(dirs, name) else dirs[name := Read(files, parse)]
  }

  /** A removal under way, or given up, shows as the directory it was or as debris; as the
      former exactly while the record is still there. */
  lemma PartlyRemoved(dirs: Listing, name: string, was: Files, now: Files, parse: Parser)
    requires IsPart(now, was)
    ensures FailsToRemove(View(dirs, name, Some(was), parse), View(dirs, name, Some(now), parse), name)
    ensures Read(Some(was), parse).Some? ==>
      (View(dirs, name, Some(now), parse) == View(dirs, name, Some(was), parse) <==> RECORD in now)
  {
    var before, after := View(dirs, name, Some(was), parse), View(dirs, name, Some(now), parse);
    if RECORD in now {
      assert after == before;
    } else {
      assert after == before[name := None];
      assert after[name] == None && before[name] == Read(Some(was), parse);
    }
  }
}
