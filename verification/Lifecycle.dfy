/** The life of QEMU VMs under the state lock (`src/commands/run.rs`, `destroy.rs`,
    `promote.rs`, `src/state.rs`, `src/process.rs`), as a state machine.

    Any number of vitro processes take steps in any order, between each other's steps
    and those of the machine: processes exit, others start and may take over a PID. */
module Lifecycle {
  import opened Wrappers

  /** A process is known by its PID and its start time. */
  datatype Process = Process(pid: nat, start: nat)

  type Table = map<nat, nat>             // PID to start time
  type Listing = map<string, Option<Process>>  // VM directory to its record, if readable

  /** Where one vitro process is. Constructors are named after what comes next. */
  datatype Vitro =
    // `vitro run`
    | RunLocking(name: string)
    | RunProbing(name: string)
    | RunListing(name: string, snapshot: Table)
    | RunReaping(name: string, snapshot: Table, todo: Listing)
    | RunStarting(name: string)
    | RunMeasuring(name: string, guest: Process)
    | RunSaving(name: string, guest: Process, start: nat)
    | RunUnlocking(name: string, guest: Process, start: nat)
    | RunWaiting(name: string, guest: Process, start: nat)
    | RunStopping(name: string, guest: Process, known: Option<nat>, locked: bool)
    | RunRemoving(name: string, locked: bool)
    // `vitro destroy`, and `vitro destroy --all` with the entries still to come in `rest`
    | DestroyLocking(name: string)
    | DestroyLoading(name: string)
    | DestroyStopping(name: string, recorded: Process, rest: Option<Listing>)
    | DestroyRemoving(name: string, recorded: Process, rest: Option<Listing>)
    | SweepLocking
    | SweepListing
    | Sweeping(todo: Listing)
    // `vitro promote`
    | PromotePreparing(name: string)
    | PromoteLocking(name: string, recorded: Process)
    | PromoteShutting(name: string, recorded: Process)
    | PromoteConverting(name: string, recorded: Process)
    | PromoteConverted(name: string, recorded: Process)
    // any of them
    | Leaving    // only the lock is left to let go
    | Finished

  datatype State = State(
    procs: Table,                  // the process table
    dirs: Listing,                 // the VM directories
    lock: Option<nat>,             // which vitro process holds the state lock
    vitros: map<nat, Vitro>,
    // What has happened so far:
    past: set<Process>,            // every process there ever was
    names: set<string>,            // every VM name `run` ever chose
    saved: map<string, Process>,   // every record ever written
    guests: set<Process>,          // every QEMU a `run` started
    reported: set<Process>,        // guests reported as possibly still running
    misread: set<string>)          // VMs whose record a listing could not read while their process lived

  predicate LiveIn(table: Table, p: Process) {
    p.pid in table && table[p.pid] == p.start
  }

  predicate Live(s: State, p: Process) {
    LiveIn(s.procs, p)
  }

  function Move(s: State, v: nat, next: Vitro): State {
    s.(vitros := s.vitros[v := next])
  }

  function Without(dirs: Listing, name: string): Listing {
    dirs - {name}
  }

  /** `reap_dead` on one entry: unreadable, or naming a process that the snapshot does not
      show with the recorded start time. */
  predicate IsStale(entry: Option<Process>, snapshot: Table) {
    entry.None? || !LiveIn(snapshot, entry.value)
  }

  /** What `stop_and_wait` takes for gone: no process with that PID and, when it is known,
      that start time. */
  predicate LooksGone(table: Table, pid: nat, known: Option<nat>) {
    match known
    case None => pid !in table
    case Some(start) => pid !in table || table[pid] != start
  }

  function After(locked: bool): Vitro {
    if locked then Leaving else Finished
  }

  function Resume(rest: Option<Listing>): Vitro {
    if rest.Some? then Sweeping(rest.value) else Leaving
  }

  /** What a failed removal may leave: the directory as it was, or part of it. Without its
      record that is debris, which nothing can read. */
  predicate FailsToRemove(dirs: Listing, dirs': Listing, name: string) {
    dirs' == dirs || (name in dirs && dirs' == dirs[name := None])
  }

  /** A listing shows every directory, but any record may fail to be read. */
  predicate IsViewOf(view: Listing, dirs: Listing) {
    view.Keys == dirs.Keys && forall n :: n in view ==> view[n] == dirs[n] || view[n].None?
  }

  /** The VMs a listing shows as unreadable although their process is alive. */
  function Overlooked(s: State, view: Listing): set<string> {
    set n | n in s.dirs && n in view && view[n].None? && s.dirs[n].Some? && Live(s, s.dirs[n].value)
  }

  predicate ListStep(s: State, s': State, v: nat, next: Vitro, view: Listing) {
    IsViewOf(view, s.dirs) && s' == Move(s, v, next).(misread := s.misread + Overlooked(s, view))
  }

  predicate TakesLock(s: State, s': State, v: nat, next: Vitro) {
    || (s.lock.None? && s' == Move(s, v, next).(lock := Some(v)))
    || (s.lock.Some? && s' == Move(s, v, Finished))
  }

  ghost predicate RunListingStep(s: State, s': State, v: nat, name: string, snapshot: Table) {
    || (exists view :: ListStep(s, s', v, RunReaping(name, snapshot, view), view))
    || s' == Move(s, v, Leaving)
  }

  ghost predicate ReapingStep(s: State, s': State, v: nat, name: string, snapshot: Table, todo: Listing) {
    || (todo == map[] && s' == Move(s, v, RunStarting(name)).(dirs := s.dirs[name := None]))
    || (exists n :: n in todo && ReapStep(s, s', v, name, snapshot, todo, n))
    || s' == Move(s, v, Leaving)
  }

  ghost predicate StartingStep(s: State, s': State, v: nat, name: string) {
    || (exists guest :: SpawnStep(s, s', v, guest, RunMeasuring(name, guest), {}))
    // QEMU is up but its PID could not be read back: said so, and given up.
    || (exists guest :: SpawnStep(s, s', v, guest, RunRemoving(name, true), {guest}))
    || s' == Move(s, v, RunRemoving(name, true))
  }

  predicate StoppingStep(s: State, s': State, v: nat, name: string, guest: Process, known: Option<nat>, locked: bool) {
    || (LooksGone(s.procs, guest.pid, known) && s' == Move(s, v, RunRemoving(name, locked)))
    || s' == Move(s, v, After(locked)).(reported := s.reported + {guest})
  }

  ghost predicate RunStep(s: State, s': State, v: nat, at: Vitro) {
    match at
    case RunLocking(name) => TakesLock(s, s', v, RunProbing(name))
    case RunProbing(name) => s' == Move(s, v, RunListing(name, s.procs))
    case RunListing(name, snapshot) => RunListingStep(s, s', v, name, snapshot)
    case RunReaping(name, snapshot, todo) => ReapingStep(s, s', v, name, snapshot, todo)
    case RunStarting(name) => StartingStep(s, s', v, name)
    case RunMeasuring(name, guest) =>
      if guest.pid in s.procs then s' == Move(s, v, RunSaving(name, guest, s.procs[guest.pid]))
      else s' == Move(s, v, RunStopping(name, guest, None, true))
    case RunSaving(name, guest, start) =>
      var record := Process(guest.pid, start);
      || s' == Move(s, v, RunUnlocking(name, guest, start))
                 .(dirs := s.dirs[name := Some(record)], saved := s.saved[name := record])
      || s' == Move(s, v, RunStopping(name, guest, Some(start), true))
    case RunUnlocking(name, guest, start) =>
      s' == Move(s, v, RunWaiting(name, guest, start)).(lock := None)
    case RunWaiting(name, guest, start) =>
      || s' == Move(s, v, Finished)
      || s' == Move(s, v, RunStopping(name, guest, Some(start), false))
    case RunStopping(name, guest, known, locked) => StoppingStep(s, s', v, name, guest, known, locked)
    case RunRemoving(name, locked) =>
      || s' == Move(s, v, After(locked)).(dirs := Without(s.dirs, name))
      || GivesUp(s, s', v, After(locked), name)
    case _ => false
  }

  /** A directory could not be removed, which ends the work of the process. */
  predicate GivesUp(s: State, s': State, v: nat, next: Vitro, name: string) {
    FailsToRemove(s.dirs, s'.dirs, name) && s' == Move(s, v, next).(dirs := s'.dirs)
  }

  predicate ReapStep(s: State, s': State, v: nat, name: string, snapshot: Table, todo: Listing, n: string)
    requires n in todo
  {
    var next := Move(s, v, RunReaping(name, snapshot, Without(todo, n)));
    if IsStale(todo[n], snapshot) then s' == next.(dirs := Without(s.dirs, n)) || GivesUp(s, s', v, Leaving, n)
    else s' == next
  }

  predicate SpawnStep(s: State, s': State, v: nat, guest: Process, next: Vitro, report: set<Process>) {
    && guest.pid !in s.procs && guest !in s.past
    && s' == Move(s, v, next).(procs := s.procs[guest.pid := guest.start], past := s.past + {guest},
                               guests := s.guests + {guest}, reported := s.reported + report)
  }

  ghost predicate DestroyStep(s: State, s': State, v: nat, at: Vitro) {
    match at
    case DestroyLocking(name) => TakesLock(s, s', v, DestroyLoading(name))
    case DestroyLoading(name) =>
      || (name in s.dirs && s.dirs[name].Some?
          && s' == Move(s, v, DestroyStopping(name, s.dirs[name].value, None)))
      || s' == Move(s, v, Leaving)
    case DestroyStopping(name, recorded, rest) =>
      || (!Live(s, recorded) && s' == Move(s, v, DestroyRemoving(name, recorded, rest)))
      || s' == Move(s, v, Resume(rest))
    case DestroyRemoving(name, recorded, rest) =>
      || s' == Move(s, v, Resume(rest)).(dirs := Without(s.dirs, name))
      || GivesUp(s, s', v, Leaving, name)
    case SweepLocking => TakesLock(s, s', v, SweepListing)
    case SweepListing =>
      || (exists view :: ListStep(s, s', v, Sweeping(view), view))
      || s' == Move(s, v, Leaving)
    case Sweeping(todo) =>
      || s' == Move(s, v, Leaving)
      || (exists n :: n in todo && SweepStep(s, s', v, todo, n))
    case _ => false
  }

  predicate SweepStep(s: State, s': State, v: nat, todo: Listing, n: string)
    requires n in todo
  {
    if todo[n].None? then
      || s' == Move(s, v, Sweeping(Without(todo, n))).(dirs := Without(s.dirs, n))
      || GivesUp(s, s', v, Leaving, n)
    else s' == Move(s, v, DestroyStopping(n, todo[n].value, Some(Without(todo, n))))
  }

  predicate PromoteStep(s: State, s': State, v: nat, at: Vitro) {
    match at
    case PromotePreparing(name) =>
      || (name in s.dirs && s.dirs[name].Some? && s' == Move(s, v, PromoteLocking(name, s.dirs[name].value)))
      || s' == Move(s, v, Finished)
    case PromoteLocking(name, recorded) => TakesLock(s, s', v, PromoteShutting(name, recorded))
    case PromoteShutting(name, recorded) =>
      || (recorded.pid !in s.procs && s' == Move(s, v, PromoteConverting(name, recorded)))
      || s' == Move(s, v, Leaving)
    case PromoteConverting(name, recorded) =>
      || (name in s.dirs && s' == Move(s, v, PromoteConverted(name, recorded)))
      || s' == Move(s, v, Leaving)
    case PromoteConverted(name, recorded) =>
      || s' == Move(s, v, Leaving).(dirs := Without(s.dirs, name))
      || GivesUp(s, s', v, Leaving, name)
    case _ => false
  }

  ghost predicate VitroStep(s: State, s': State, v: nat) {
    && v in s.vitros
    && (|| RunStep(s, s', v, s.vitros[v])
        || DestroyStep(s, s', v, s.vitros[v])
        || PromoteStep(s, s', v, s.vitros[v])
        || (s.vitros[v] == Leaving && s' == Move(s, v, Finished).(lock := None)))
  }

  /** A new vitro process. A `run` chooses a name that was never used before. */
  predicate BeginStep(s: State, s': State, v: nat, at: Vitro) {
    && v !in s.vitros
    && (|| (at.RunLocking? && at.name !in s.names && s' == Move(s, v, at).(names := s.names + {at.name}))
        || ((at.DestroyLocking? || at.SweepLocking? || at.PromotePreparing?) && s' == Move(s, v, at)))
  }

  predicate ExitStep(s: State, s': State, pid: nat) {
    pid in s.procs && s' == s.(procs := s.procs - {pid})
  }

  predicate ForeignStep(s: State, s': State, p: Process) {
    && p.pid !in s.procs && p !in s.past
    && s' == s.(procs := s.procs[p.pid := p.start], past := s.past + {p})
  }

  ghost predicate Next(s: State, s': State) {
    || (exists v :: VitroStep(s, s', v))
    || (exists v, at :: BeginStep(s, s', v, at))
    || (exists pid :: ExitStep(s, s', pid))
    || (exists p :: ForeignStep(s, s', p))
  }

  /** A machine on which vitro was never used. */
  ghost predicate Init(s: State) {
    && s.dirs == map[] && s.lock == None && s.vitros == map[] && s.names == {} && s.saved == map[]
    && s.guests == {} && s.reported == {} && s.misread == {}
    && (forall pid :: pid in s.procs ==> Process(pid, s.procs[pid]) in s.past)
  }

  ghost predicate IsTrace(t: seq<State>) {
    && t != [] && Init(t[0])
    && forall i :: 0 <= i < |t| - 1 ==> Next(t[i], t[i + 1])
  }
}
