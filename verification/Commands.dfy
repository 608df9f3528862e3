/** `run`, its drop guard, `destroy` and `destroy --all` for QEMU VMs, as one vitro process
    carries them out (`src/commands/run.rs`, `src/commands/destroy.rs`). */
module Commands {
  import opened Wrappers
  import opened Lifecycle
  import opened Store

  const GRACEFUL_TIMEOUT := 120_000

  /** Some look in that stretch of time showed that `p` is gone. */
  ghost predicate SeenDead(table: nat -> Table, first: nat, last: nat, p: Process) {
    exists m :: first <= m <= last && !LiveIn(table(m), p)
  }

  /** What was once seen gone may be forgotten: it is gone for good. */
  lemma SeenDeadIsDead(table: nat -> Table, first: nat, last: nat, p: Process, k: nat, n: nat)
    requires NoneReturns(table) && SeenDead(table, first, last, p)
    requires k <= first && LiveIn(table(k), p) && last <= n
    ensures !LiveIn(table(n), p)
  {
    var m :| first <= m <= last && !LiveIn(table(m), p);
    assert k <= m <= n;
  }

  // ----- The drop guard of `run` -----

  class VmGuard {
    const name: string
    var process: Option<(nat, Option<nat>)>  // PID and, once known, start time
    var committed: bool

    constructor (name: string)
      ensures this.name == name && process.None? && !committed
    {
      this.name, process, committed := name, None, false;
    }

    method Owns(pid: nat, start: Option<nat>)
      modifies this`process
      ensures process == Some((pid, start))
    {
      process := Some((pid, start));
    }

    method Commit()
      modifies this`committed
      ensures committed
    {
      committed := true;
    }

    /** Unless committed, removes the directory, but never before the process was seen gone:
        otherwise directory and record are left where they can be found, and `stranded` says so. */
    method Drop(host: Host, store: Store) returns (stranded: bool, ghost seen: nat)
      modifies host`now, store`dirs, store`begun
      ensures old(host.now) <= seen <= host.now
      ensures committed ==> !stranded
      ensures stranded ==> process.Some? && host.IsThere(process.value.0, process.value.1, seen)
      ensures !committed && !stranded && process.Some? ==> !host.IsThere(process.value.0, process.value.1, seen)
      ensures committed || stranded ==> store.dirs == old(store.dirs) && store.begun == old(store.begun)
      ensures !committed && !stranded ==> store.dirs == store.AfterRemoval(old(store.dirs), name)
    {
      seen := host.now;
      if committed {
        return false, seen;
      }
      if process.Some? {
        var gone;
        gone, seen := host.StopAndWait(process.value.0, process.value.1);
        if !gone {
          return true, seen;
        }
      }
      var _ := store.Remove(name);
      stranded := false;
    }
  }

  // ----- `run` -----

  /** How the commands that `run` waits for turn out. */
  datatype Fate = Fate(directory: bool, overlay: bool, guest: Option<Process>, saved: bool, boots: bool)

  datatype Made =
    | Refused                    // before anything was made
    | Running(record: Process)
    // `stranded`: the guest was reported as possibly running; `recorded`: its record was written
    | Undone(stranded: bool, recorded: bool)

  /** Something kept the VM from running: its overlay, QEMU, its PID being gone when its start
      time was read, its record, or its boot. */
  ghost predicate Fails(table: nat -> Table, fate: Fate, first: nat, last: nat) {
    || !fate.overlay || fate.guest.None? || !fate.saved || !fate.boots
    || exists m :: first <= m <= last && fate.guest.value.pid !in table(m)
  }

  /** `run` up to its new directory, which comes after reaping and under the lock. */
  method Prepare(host: Host, store: Store, name: string, fate: Fate) returns (ready: bool, ghost probed: nat)
    requires name !in store.dirs && !store.locked
    modifies host`now, store`dirs, store`begun, store`locked
    ensures old(host.now) <= probed <= host.now && store.locked == ready
    ensures store.taken ==> !ready && store.dirs == old(store.dirs)
    ensures ready ==> name in store.dirs && store.dirs[name] == None
    ensures ready ==> OnlyAlive(Without(store.dirs, name), store, old(store.dirs), host.table(probed))
    ensures !ready ==> store.taken || !fate.directory || exists n :: n in old(store.dirs) && store.stuck(n)
    ensures !ready ==> IsLeftOf(store.dirs, old(store.dirs), store.begun)
    ensures !ready ==> OnlyDeadAreGone(store, old(store.dirs), old(store.begun), host.table(probed))
  {
    probed := host.now;
    ready := store.Lock();
    if !ready {
      return;
    }
    var table := host.Probe();
    probed := host.now;
    var ok, _ := ReapDead(store, table);
    ready := ok && fate.directory;
    if ready {
      ghost var alive := store.dirs;
      store.dirs := store.dirs[name := None];
      assert Without(store.dirs, name) == alive;
    } else {
      store.Unlock();
    }
  }

  /** `run` for a QEMU image. A VM that runs is recorded, and of the others exactly those are
      left whose record could be read and whose process the snapshot shows. One that was undone leaves nothing, unless its guest was not seen gone or its
      directory cannot be removed. */
  method Run(host: Host, store: Store, name: string, fate: Fate) returns (made: Made, ghost snapshot: Table)
    requires name !in store.dirs && !store.locked
    modifies host`now, store`dirs, store`begun, store`locked
    ensures !store.locked
    ensures store.taken ==> made.Refused? && store.dirs == old(store.dirs)
    ensures exists m :: old(host.now) <= m <= host.now && snapshot == host.table(m)
    ensures made.Refused? ==> store.taken || !fate.directory || exists n :: n in old(store.dirs) && store.stuck(n)
    ensures made.Undone? ==> Fails(host.table, fate, old(host.now), host.now)
    ensures made.Refused? ==> IsLeftOf(store.dirs, old(store.dirs), store.begun)
    ensures made.Refused? ==> OnlyDeadAreGone(store, old(store.dirs), old(store.begun), snapshot)
    ensures made.Running? ==>
      && fate.guest.Some? && made.record.pid == fate.guest.value.pid
      && name in store.dirs && store.dirs[name] == Some(made.record)
      && OnlyAlive(Without(store.dirs, name), store, old(store.dirs), snapshot)
    ensures made.Undone? ==>
      && OnlyAlive(Without(store.dirs, name), store, old(store.dirs), snapshot)
      && IsCleared(host, store, name, made.stranded, fate, old(host.now))
  {
    var ready;
    ghost var probed;
    ready, probed := Prepare(host, store, name, fate);
    snapshot := host.table(probed);
    if !ready {
      return Refused, snapshot;
    }
    ghost var prepared := store.dirs;
    ghost var held;
    made, held := Make(host, store, name, fate);
    assert Without(store.dirs, name) == Without(prepared, name);
  }

  /** A directory that stays behind names a guest that was not seen gone, or cannot be removed. */
  ghost predicate IsCleared(host: Host, store: Store, name: string, stranded: bool, fate: Fate, first: nat)
    reads host, store
  {
    && (name in store.dirs ==> stranded || store.stuck(name))
    && (!stranded && fate.overlay && fate.guest.Some? ==> SeenDead(host.table, first, host.now, fate.guest.value))
  }

  /** `run` once the directory is there; the lock is held. Until the record is written it stays
      held, also while the guard undoes what was begun: `held` says whether it was then. */
  method Make(host: Host, store: Store, name: string, fate: Fate) returns (made: Made, ghost held: bool)
    requires name in store.dirs && store.locked
    modifies host`now, store`dirs, store`begun, store`locked
    ensures !store.locked && host.now >= old(host.now) && !made.Refused?
    ensures made.Undone? ==> Fails(host.table, fate, old(host.now), host.now)
    ensures made.Running? ==>
      && fate.guest.Some? && made.record.pid == fate.guest.value.pid
      && store.dirs == old(store.dirs)[name := Some(made.record)]
    ensures made.Undone? ==>
      && Without(store.dirs, name) == Without(old(store.dirs), name)
      && IsCleared(host, store, name, made.stranded, fate, old(host.now))
    ensures made.Undone? ==> held == !made.recorded && (made.recorded ==> fate.saved && !fate.boots)
  {
    var guard := new VmGuard(name);
    var record := Launch(host, store, guard, fate);
    var stranded;
    ghost var first, seen;
    if record.None? {
      // The guard goes before the lock does.
      first, held := host.now, store.locked;
      stranded, seen := guard.Drop(host, store);
      store.Unlock();
    } else {
      store.Unlock();
      if fate.boots {
        guard.Commit();
      }
      first, held := host.now, store.locked;
      stranded, seen := guard.Drop(host, store);
    }
    if guard.committed {
      return Running(record.value), held;
    }
    if !stranded && guard.process.Some? {
      GoneIsSeen(host, guard.process.value, fate.guest.value, old(host.now), first, seen);
    }
    made := Undone(stranded, record.Some?);
  }

  lemma GoneIsSeen(host: Host, owned: (nat, Option<nat>), guest: Process, first: nat, answered: nat, seen: nat)
    requires first <= answered <= seen <= host.now && !host.IsThere(owned.0, owned.1, seen)
    requires owned.0 == guest.pid
    requires owned.1.Some? && owned.1.value != guest.start ==> SeenDead(host.table, first, answered, guest)
    ensures SeenDead(host.table, first, host.now, guest)
  {
    if owned.1.None? || owned.1.value == guest.start {
      assert !LiveIn(host.table(seen), guest);
    } else {
      var m :| first <= m <= answered && !LiveIn(host.table(m), guest);
    }
  }

  /** From the new directory to the record. On the way the guard learns what to stop. */
  method Launch(host: Host, store: Store, guard: VmGuard, fate: Fate) returns (record: Option<Process>)
    requires guard.process.None? && !guard.committed
    modifies host`now, store`dirs, guard`process
    ensures host.now >= old(host.now)
    ensures store.dirs == if record.Some? then old(store.dirs)[guard.name := record] else old(store.dirs)
    ensures guard.process.Some? <==> fate.overlay && fate.guest.Some?
    ensures guard.process.Some? ==> Answers(host, guard.process.value, fate.guest.value, old(host.now))
    ensures record.Some? ==> fate.overlay && fate.guest.Some? && record.value.pid == fate.guest.value.pid
    ensures record.None? ==> Fails(host.table, fate, old(host.now), host.now)
    ensures record.Some? ==> fate.saved
    ensures record.Some? ==> guard.process == Some((record.value.pid, Some(record.value.start)))
  {
    record := None;
    if !fate.overlay || fate.guest.None? {
      return;
    }
    var pid := fate.guest.value.pid;
    guard.Owns(pid, None);
    var table := host.Probe();
    if pid !in table {
      return;
    }
    guard.Owns(pid, Some(table[pid]));
    if fate.saved {
      record := Some(Process(pid, table[pid]));
      store.Save(guard.name, record.value);
    }
  }

  /** The guard is after its guest, or the guest was already seen gone. */
  ghost predicate Answers(host: Host, owned: (nat, Option<nat>), guest: Process, first: nat)
    reads host
  {
    && owned.0 == guest.pid
    && (owned.1.Some? && owned.1.value != guest.start ==> SeenDead(host.table, first, host.now, guest))
  }

  // ----- `destroy` and `destroy --all` -----

  datatype Outcome = Stopped | CleanedUp | Failed

  /** Stops what a record names. Any outcome but `Failed` means it was seen gone; `CleanedUp`
      that the first look already did not show it. With
      `--graceful` the guest is only asked: `asked` says whether it could be. */
  method Stop(host: Host, record: Process, graceful: bool, asked: bool) returns (outcome: Outcome, ghost seen: nat)
    modifies host`now
    ensures old(host.now) <= seen <= host.now
    ensures outcome == Failed <==> LiveIn(host.table(seen), record)
    ensures outcome == CleanedUp <==> !LiveIn(host.table(host.LookAt(old(host.now), 0)), record)
    ensures outcome == Stopped ==> exists m :: old(host.now) <= m <= seen && LiveIn(host.table(m), record)
    ensures outcome != CleanedUp && graceful && asked ==>
      exists last :: host.IsWait(host.LookAt(old(host.now), 0), 120_000, record.pid, Some(record.start), true, last)
    ensures outcome != CleanedUp && !graceful ==>
      exists first, last :: host.IsStop(host.LookAt(old(host.now), 0), record.pid, Some(record.start), first, last)
    ensures outcome == Failed && graceful && !asked ==> seen == host.LookAt(old(host.now), 0)
  {
    var table := host.Probe();
    seen := host.now;
    if !LiveIn(table, record) {
      return CleanedUp, seen;
    }
    if graceful {
      if !asked {
        return Failed, seen;
      }
      var gone;
      gone, seen := host.Wait(GRACEFUL_TIMEOUT, record.pid, Some(record.start), true);
      if !gone {
        return Failed, seen;
      }
    } else {
      var _, _ := host.StopAndWait(record.pid, Some(record.start));
    }
    table := host.Probe();
    seen := host.now;
    outcome := if LiveIn(table, record) then Failed else Stopped;
  }

  /** A VM may go: it has no record, or its process was seen gone since `first`. */
  ghost predicate MayGo(table: nat -> Table, entry: Option<Process>, first: nat, last: nat) {
    entry.Some? ==> SeenDead(table, first, last, entry.value)
  }

  /** `destroy` of one VM: it goes, or is begun with, only once its process was seen gone. */
  method DestroyOne(host: Host, store: Store, name: string, graceful: bool, asked: bool) returns (ok: bool)
    requires !store.locked
    modifies host`now, store`dirs, store`begun, store`locked
    ensures !store.locked
    ensures ok ==> !store.taken && name in old(store.dirs) && store.dirs == Without(old(store.dirs), name)
    ensures !ok ==> FailsToRemove(old(store.dirs), store.dirs, name)
    ensures store.begun == old(store.begun) || (!ok && store.stuck(name) && store.begun == old(store.begun) + [name])
    ensures store.dirs != old(store.dirs) || store.begun != old(store.begun) ==>
      && name in old(store.dirs) && store.readable(name) && old(store.dirs)[name].Some?
      && SeenDead(host.table, old(host.now), host.now, old(store.dirs)[name].value)
    ensures !ok && store.begun == old(store.begun) ==> store.dirs == old(store.dirs)
    ensures !ok ==> store.taken || name !in old(store.dirs) || store.Listed(old(store.dirs))[name].None? || store.stuck(name)
                    || exists m :: old(host.now) <= m <= host.now && LiveIn(host.table(m), old(store.dirs)[name].value)
  {
    var locked := store.Lock();
    if !locked {
      return false;
    }
    if name !in store.dirs || store.Entry(store.dirs[name], name).None? {
      store.Unlock();
      return false;
    }
    ghost var first := host.now;
    var outcome;
    ghost var seen;
    outcome, seen := Stop(host, store.dirs[name].value, graceful, asked);
    ok := outcome != Failed;
    if ok {
      assert SeenDead(host.table, first, host.now, store.dirs[name].value);
      ok := store.Remove(name);
    }
    store.Unlock();
  }

  /** An entry that goes may go; one that stays is a VM that was seen alive last. */
  ghost predicate Treated(table: nat -> Table, entry: Option<Process>, outcome: Outcome, first: nat, last: nat) {
    if outcome != Failed then MayGo(table, entry, first, last)
    else entry.Some? && exists m :: first <= m <= last && LiveIn(table(m), entry.value)
  }

  ghost predicate AllTreated(table: nat -> Table, dirs: Listing, outcomes: map<string, Outcome>, first: nat, last: nat) {
    outcomes.Keys <= dirs.Keys && forall n :: n in outcomes ==> Treated(table, dirs[n], outcomes[n], first, last)
  }

  lemma StillTreated(table: nat -> Table, dirs: Listing, outcomes: map<string, Outcome>, first: nat, last: nat, later: nat)
    requires AllTreated(table, dirs, outcomes, first, last) && last <= later
    ensures AllTreated(table, dirs, outcomes, first, later)
  {
    forall n | n in outcomes
      ensures Treated(table, dirs[n], outcomes[n], first, later)
    {
      assert Treated(table, dirs[n], outcomes[n], first, last);
    }
  }

  /** One entry of `destroy --all`; `None` when its directory cannot be removed. One whose
      record cannot be read is removed without a look at any process. */
  method DestroyEntry(host: Host, store: Store, name: string, graceful: bool, asked: bool, ghost first: nat)
      returns (outcome: Option<Outcome>)
    requires name in store.dirs && first <= host.now
    modifies host`now, store`dirs, store`begun
    ensures host.now >= old(host.now)
    ensures outcome.Some? ==>
      Treated(host.table, store.Entry(old(store.dirs)[name], name), outcome.value, first, host.now)
    ensures outcome.Some? ==> store.begun == old(store.begun)
    ensures outcome.Some? ==> store.dirs == if outcome.value == Failed then old(store.dirs) else Without(old(store.dirs), name)
    ensures outcome.None? ==> store.stuck(name) && MayGo(host.table, store.Entry(old(store.dirs)[name], name), first, host.now)
    ensures outcome.None? ==> FailsToRemove(old(store.dirs), store.dirs, name) && store.begun == old(store.begun) + [name]
  {
    var result, entry := CleanedUp, store.Entry(store.dirs[name], name);
    if entry.Some? {
      ghost var seen;
      result, seen := Stop(host, entry.value, graceful, asked);
    }
    if result != Failed {
      assert MayGo(host.table, entry, first, host.now);
      var removed := store.Remove(name);
      if !removed {
        return None;
      }
    }
    outcome := Some(result);
  }

  /** The removal of one more directory failed, of a VM that might go. */
  ghost predicate EndedBy(host: Host, store: Store, was: Listing, begun: seq<string>, outcomes: map<string, Outcome>,
                          first: nat, name: string)
    reads host, store
  {
    && name in was && name !in outcomes && store.stuck(name) && store.begun == begun + [name]
    && FailsToRemove(Remaining(was, outcomes), store.dirs, name)
    && MayGo(host.table, store.Listed(was)[name], first, host.now)
  }

  /** `destroy --all`: every VM gets an outcome, and goes exactly when that is not `Failed`.
      A directory that cannot be removed ends it early. */
  method DestroyAll(host: Host, store: Store, graceful: bool, asked: string -> bool)
      returns (ok: bool, outcomes: map<string, Outcome>)
    requires !store.locked
    modifies host`now, store`dirs, store`begun, store`locked
    ensures !store.locked
    ensures AllTreated(host.table, store.Listed(old(store.dirs)), outcomes, old(host.now), host.now)
    ensures ok ==> outcomes.Keys == old(store.dirs).Keys
    ensures ok || store.taken ==> store.dirs == Remaining(old(store.dirs), outcomes) && store.begun == old(store.begun)
    ensures !ok && !store.taken ==>
      exists n :: EndedBy(host, store, old(store.dirs), old(store.begun), outcomes, old(host.now), n)
  {
    outcomes := map[];
    ghost var before, listed, begun, first := store.dirs, store.Listed(store.dirs), store.begun, host.now;
    var locked := store.Lock();
    if !locked {
      return false, outcomes;
    }
    var names := store.List();
    var i := 0;
    while i < |names|
      invariant 0 <= i <= |names| && host.now >= first && store.begun == begun
      invariant forall n :: n in outcomes <==> n in names[..i]
      invariant AllTreated(host.table, listed, outcomes, first, host.now)
      invariant store.dirs == Remaining(before, outcomes)
    {
      var name := names[i];
      assert name in names && name !in names[..i];
      ghost var reached := host.now;
      var outcome := DestroyEntry(host, store, name, graceful, asked(name), first);
      if outcome.None? {
        StillTreated(host.table, listed, outcomes, first, reached, host.now);
        store.Unlock();
        assert EndedBy(host, store, before, begun, outcomes, first, name);
        return false, outcomes;
      }
      RemainingStep(before, outcomes, name, outcome.value);
      TreatedStep(host.table, listed, outcomes, name, outcome.value, first, reached, host.now);
      outcomes := outcomes[name := outcome.value];
      i := i + 1;
    }
    assert names[..i] == names;
    store.Unlock();
    ok := true;
  }

  lemma TreatedStep(table: nat -> Table, dirs: Listing, outcomes: map<string, Outcome>, name: string, outcome: Outcome,
                    first: nat, last: nat, later: nat)
    requires AllTreated(table, dirs, outcomes, first, last) && last <= later
    requires name in dirs && Treated(table, dirs[name], outcome, first, later)
    ensures AllTreated(table, dirs, outcomes[name := outcome], first, later)
  {
    StillTreated(table, dirs, outcomes, first, last, later);
  }

  lemma RemainingStep(dirs: Listing, outcomes: map<string, Outcome>, name: string, outcome: Outcome)
    requires name in dirs && name !in outcomes
    ensures Remaining(dirs, outcomes[name := outcome]) ==
            if outcome == Failed then Remaining(dirs, outcomes) else Without(Remaining(dirs, outcomes), name)
    ensures name in Remaining(dirs, outcomes) && Remaining(dirs, outcomes)[name] == dirs[name]
  {
  }

  function Remaining(dirs: Listing, outcomes: map<string, Outcome>): Listing {
    map n | n in dirs && (n in outcomes ==> outcomes[n] == Failed) :: dirs[n]
  }
}
