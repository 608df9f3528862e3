/** What holds in every reachable state of the VM lifecycle.

    Each vitro process relies on a few facts about the shared state (`Relies`); no step of
    another process disturbs them (`Benign`), which is what the lock is for. */
module LifecycleProofs {
  import opened Wrappers
  import opened Lifecycle

  // ----- What each process relies on -----

  predicate Holds(at: Vitro) {
    match at
    case RunProbing(_) => true
    case RunListing(_, _) => true
    case RunReaping(_, _, _) => true
    case RunStarting(_) => true
    case RunMeasuring(_, _) => true
    case RunSaving(_, _, _) => true
    case RunUnlocking(_, _, _) => true
    case RunStopping(_, _, _, locked) => locked
    case RunRemoving(_, locked) => locked
    case DestroyLoading(_) => true
    case DestroyStopping(_, _, _) => true
    case DestroyRemoving(_, _, _) => true
    case SweepListing => true
    case Sweeping(_) => true
    case PromoteShutting(_, _) => true
    case PromoteConverting(_, _) => true
    case PromoteConverted(_, _) => true
    case Leaving => true
    case _ => false
  }

  /** The VM a `run` in progress is making. */
  function Making(at: Vitro): Option<string> {
    match at
    case RunLocking(name) => Some(name)
    case RunProbing(name) => Some(name)
    case RunListing(name, _) => Some(name)
    case RunReaping(name, _, _) => Some(name)
    case RunStarting(name) => Some(name)
    case RunMeasuring(name, _) => Some(name)
    case RunSaving(name, _, _) => Some(name)
    case RunUnlocking(name, _, _) => Some(name)
    case RunWaiting(name, _, _) => Some(name)
    case RunStopping(name, _, _, _) => Some(name)
    case RunRemoving(name, _) => Some(name)
    case _ => None
  }

  /** The guest a `run` in progress answers for: its guard will stop it. */
  function Guarded(at: Vitro): Option<Process> {
    match at
    case RunMeasuring(_, guest) => Some(guest)
    case RunSaving(_, guest, _) => Some(guest)
    case RunUnlocking(_, guest, _) => Some(guest)
    case RunWaiting(_, guest, _) => Some(guest)
    case RunStopping(_, guest, _, _) => Some(guest)
    case _ => None
  }

  predicate Recorded(s: State, name: string, p: Process) {
    name in s.dirs && s.dirs[name] == Some(p)
  }

  predicate WasSaved(s: State, name: string, p: Process) {
    name in s.saved && s.saved[name] == p
  }

  /** The snapshot shows every process that is alive and has a record: since it was taken
      nothing was recorded, so it can only be behind in showing as alive what has died. */
  ghost predicate ShowsTheRecorded(s: State, snapshot: Table) {
    forall name, p :: Recorded(s, name, p) && Live(s, p) ==> LiveIn(snapshot, p)
  }

  /** Entries not yet dealt with show every record of a live process that could be read. */
  ghost predicate IsCurrent(s: State, todo: Listing) {
    && (forall n, p :: n in todo && Recorded(s, n, p) && Live(s, p) && n !in s.misread ==> todo[n] == Some(p))
    && (forall n :: n in todo && todo[n].Some? ==> WasSaved(s, n, todo[n].value))
  }

  /** The guard's idea of its guest is right while that guest lives. */
  predicate Knows(s: State, guest: Process, start: nat) {
    && guest in s.past && Process(guest.pid, start) in s.past
    && (Live(s, guest) ==> start == guest.start)
  }

  ghost predicate Relies(s: State, at: Vitro) {
    && (Making(at).Some? ==> Making(at).value in s.names)
    && (match at
        case RunLocking(name) => name !in s.dirs && name !in s.saved
        case RunProbing(name) => name !in s.dirs && name !in s.saved
        case RunListing(name, snapshot) => name !in s.dirs && name !in s.saved && ShowsTheRecorded(s, snapshot)
        case RunReaping(name, snapshot, todo) =>
          name !in s.dirs && name !in s.saved && ShowsTheRecorded(s, snapshot) && IsCurrent(s, todo)
        case RunStarting(name) => name !in s.saved
        case RunMeasuring(name, guest) => name !in s.saved && guest in s.past
        case RunSaving(name, guest, start) => name !in s.saved && Knows(s, guest, start)
        case RunUnlocking(name, guest, start) => RecordStands(s, name, guest, start)
        case RunWaiting(name, guest, start) => RecordStands(s, name, guest, start)
        case RunStopping(name, guest, known, _) =>
          && guest in s.past
          && (known.None? ==> name !in s.saved)
          && (known.Some? ==> Knows(s, guest, known.value))
          && (known.Some? && name in s.saved ==> s.saved[name] == Process(guest.pid, known.value))
        case RunRemoving(name, _) => name in s.saved ==> !Live(s, s.saved[name])
        case DestroyStopping(name, recorded, rest) =>
          WasSaved(s, name, recorded) && (rest.Some? ==> IsCurrent(s, rest.value))
        case DestroyRemoving(name, recorded, rest) =>
          WasSaved(s, name, recorded) && !Live(s, recorded) && (rest.Some? ==> IsCurrent(s, rest.value))
        case Sweeping(todo) => IsCurrent(s, todo)
        case PromoteLocking(name, recorded) => WasSaved(s, name, recorded)
        case PromoteShutting(name, recorded) => WasSaved(s, name, recorded)
        case PromoteConverting(name, recorded) => WasSaved(s, name, recorded) && !Live(s, recorded)
        case PromoteConverted(name, recorded) => WasSaved(s, name, recorded) && !Live(s, recorded)
        case _ => true)
  }

  /** A record that was written stands for as long as its process lives, unless a listing
      could not read it. */
  predicate RecordStands(s: State, name: string, guest: Process, start: nat) {
    var p := Process(guest.pid, start);
    Knows(s, guest, start) && WasSaved(s, name, p) && (Live(s, p) && name !in s.misread ==> Recorded(s, name, p))
  }

  // ----- What holds of the shared state -----

  ghost predicate Shared(s: State) {
    && (forall pid :: pid in s.procs ==> Process(pid, s.procs[pid]) in s.past)
    && s.guests <= s.past
    && (forall name :: name in s.saved ==> s.saved[name] in s.past && name in s.names)
    && (forall name :: name in s.dirs ==> name in s.names)
    && (forall name, p :: Recorded(s, name, p) ==> WasSaved(s, name, p))
  }

  ghost predicate Locked(s: State) {
    && (forall v :: v in s.vitros && Holds(s.vitros[v]) ==> s.lock == Some(v))
    && (s.lock.Some? ==> s.lock.value in s.vitros && Holds(s.vitros[s.lock.value]))
  }

  ghost predicate DistinctNames(s: State) {
    forall v, w :: v in s.vitros && w in s.vitros && v != w && Making(s.vitros[v]).Some?
      ==> Making(s.vitros[v]) != Making(s.vitros[w])
  }

  ghost predicate IsRecorded(s: State, p: Process) {
    exists name :: Recorded(s, name, p)
  }

  ghost predicate IsGuarded(s: State, p: Process) {
    exists v :: v in s.vitros && Guarded(s.vitros[v]) == Some(p)
  }

  /** The record naming this process could not be read when it was listed. */
  ghost predicate IsMisread(s: State, p: Process) {
    exists name :: name in s.misread && WasSaved(s, name, p)
  }

  /** A guest can still be found: by a record, by the `run` that is starting it, or by what
      was said to the user; unless its record was misread. */
  ghost predicate IsAccounted(s: State, p: Process) {
    IsRecorded(s, p) || IsGuarded(s, p) || p in s.reported || IsMisread(s, p)
  }

  ghost predicate Accounted(s: State) {
    forall p :: p in s.guests && Live(s, p) ==> IsAccounted(s, p)
  }

  ghost predicate Inv(s: State) {
    && Shared(s) && Locked(s) && DistinctNames(s) && Accounted(s)
    && (forall v :: v in s.vitros ==> Relies(s, s.vitros[v]))
  }

  // ----- What a step may do to the others -----

  /** A step that touches at most the directory and record of `own`, brings no process
      back to life and removes no record of a live one. */
  ghost predicate Benign(s: State, s': State, own: Option<string>) {
    && s.past <= s'.past && s.names <= s'.names && s.guests <= s'.guests && s.reported <= s'.reported
    && s.misread <= s'.misread
    && (forall p :: p in s.past && Live(s', p) ==> Live(s, p))
    && (forall n :: n in s'.dirs && own != Some(n) ==> n in s.dirs && (s'.dirs[n] == s.dirs[n] || s'.dirs[n].None?))
    && (forall n :: n in s.saved ==> n in s'.saved && s'.saved[n] == s.saved[n])
    && (forall n :: n in s'.saved && n !in s.saved ==> own == Some(n))
    && (forall n, p :: Recorded(s, n, p) && Live(s, p) && n !in s'.misread ==> Recorded(s', n, p))
  }

  lemma FrameSnapshot(s: State, s': State, snapshot: Table)
    requires Shared(s) && ShowsTheRecorded(s, snapshot) && Benign(s, s', None)
    ensures ShowsTheRecorded(s', snapshot)
  {
    forall name, p | Recorded(s', name, p) && Live(s', p)
      ensures LiveIn(snapshot, p)
    {
      assert Recorded(s, name, p) && WasSaved(s, name, p);
    }
  }

  lemma FrameListing(s: State, s': State, todo: Listing)
    requires Shared(s) && IsCurrent(s, todo) && Benign(s, s', None)
    ensures IsCurrent(s', todo)
  {
    forall n, p | n in todo && Recorded(s', n, p) && Live(s', p) && n !in s'.misread
      ensures todo[n] == Some(p)
    {
      assert Recorded(s, n, p) && WasSaved(s, n, p);
    }
  }

  /** What a process relies on survives every benign step of another: while it holds the
      lock, one that touches no directory of its own; otherwise, one that touches another
      VM's than the one it makes. */
  lemma Frame(s: State, s': State, at: Vitro, own: Option<string>)
    requires Shared(s) && Relies(s, at) && Benign(s, s', own)
    requires own.Some? ==> !Holds(at) && Making(at) != own
    ensures Relies(s', at)
  {
    match at
    case RunListing(_, snapshot) => FrameSnapshot(s, s', snapshot);
    case RunReaping(_, snapshot, todo) => FrameSnapshot(s, s', snapshot); FrameListing(s, s', todo);
    case DestroyStopping(_, _, rest) => if rest.Some? { FrameListing(s, s', rest.value); }
    case DestroyRemoving(_, _, rest) => if rest.Some? { FrameListing(s, s', rest.value); }
    case Sweeping(todo) => FrameListing(s, s', todo);
    case _ =>
  }

  /** No live process loses a record that could always be read, and none comes back to life. */
  ghost predicate SparesTheLiving(s: State, s': State) {
    && s.past <= s'.past && s.misread <= s'.misread
    && (forall p :: p in s.past && Live(s', p) ==> Live(s, p))
    && (forall n, p :: Recorded(s, n, p) && Live(s, p) && n !in s'.misread ==> Recorded(s', n, p))
  }

  /** Process `v` moves on alone, and does not turn to another VM. */
  predicate OnlyMoves(s: State, s': State, v: nat) {
    && s'.names == s.names
    && v in s.vitros && v in s'.vitros && s'.vitros == s.vitros[v := s'.vitros[v]]
    && (Making(s'.vitros[v]) == Making(s.vitros[v]) || Making(s'.vitros[v]).None?)
  }

  // ----- Steps of the machine -----

  lemma MachineIsBenign(s: State, s': State)
    requires Inv(s)
    requires (exists pid :: ExitStep(s, s', pid)) || (exists p :: ForeignStep(s, s', p))
    ensures Benign(s, s', None)
  {
    if pid :| ExitStep(s, s', pid) {
      assert forall p :: Live(s', p) ==> Live(s, p);
    } else {
      var p :| ForeignStep(s, s', p);
      assert forall q :: q in s.past && Live(s', q) ==> Live(s, q);
    }
  }

  lemma MachineKeeps(s: State, s': State)
    requires Inv(s)
    requires (exists pid :: ExitStep(s, s', pid)) || (exists p :: ForeignStep(s, s', p))
    ensures Inv(s') && SparesTheLiving(s, s')
  {
    MachineIsBenign(s, s');
    forall v | v in s'.vitros
      ensures Relies(s', s'.vitros[v])
    {
      Frame(s, s', s.vitros[v], None);
    }
    forall p | p in s'.guests && Live(s', p)
      ensures IsAccounted(s', p)
    {
      KeepsAccount(s, s', p);
    }
    forall name, p | Recorded(s', name, p)
      ensures WasSaved(s', name, p)
    {
      assert Recorded(s, name, p);
    }
  }

  /** A guest found by its record is found by it afterwards, unless that was just misread. */
  lemma StaysFound(s: State, s': State, own: Option<string>, p: Process)
    requires Shared(s) && Benign(s, s', own) && Live(s, p) && (IsRecorded(s, p) || IsMisread(s, p))
    ensures IsRecorded(s', p) || IsMisread(s', p)
  {
    var n :| Recorded(s, n, p) || (n in s.misread && WasSaved(s, n, p));
    assert WasSaved(s, n, p) && WasSaved(s', n, p);
    if n !in s'.misread {
      assert Recorded(s', n, p);
    }
  }

  lemma KeepsAccount(s: State, s': State, p: Process)
    requires Inv(s) && p in s.guests && Live(s, p) && Benign(s, s', None) && s'.vitros == s.vitros
    ensures IsAccounted(s', p)
  {
    if IsRecorded(s, p) || IsMisread(s, p) {
      StaysFound(s, s', None, p);
    } else if IsGuarded(s, p) {
      var v :| v in s.vitros && Guarded(s.vitros[v]) == Some(p);
      assert v in s'.vitros && Guarded(s'.vitros[v]) == Some(p);
    }
  }

  // ----- Steps of a vitro process -----

  predicate KeepsLock(s: State, s': State, v: nat, at: Vitro, next: Vitro) {
    || (s'.lock == s.lock && Holds(at) == Holds(next))
    || (s.lock.None? && s'.lock == Some(v) && Holds(next))
    || (s.lock == Some(v) && s'.lock.None? && !Holds(next))
  }

  /** A guest that was there before and that a process at `at` does not answer for. */
  predicate IsOthers(s: State, at: Vitro, p: Process) {
    p in s.guests && Guarded(at) != Some(p)
  }

  /** The guests a process started or guarded are guarded, recorded or reported after its step. */
  ghost predicate HandsOver(s: State, s': State, at: Vitro, next: Vitro) {
    forall p :: p in s'.guests && Live(s', p) && !IsOthers(s, at, p) ==>
      Guarded(next) == Some(p) || IsRecorded(s', p) || p in s'.reported || IsMisread(s', p)
  }

  /** What a step of process `v` must do for the invariant to survive it. */
  ghost predicate Sound(s: State, s': State, v: nat, own: Option<string>) {
    && OnlyMoves(s, s', v)
    && Benign(s, s', own)
    && (own.Some? ==> Holds(s.vitros[v]) && Making(s.vitros[v]) == own)
    && KeepsLock(s, s', v, s.vitros[v], s'.vitros[v])
    && Relies(s', s'.vitros[v])
    && Shared(s')
    && HandsOver(s, s', s.vitros[v], s'.vitros[v])
  }

  lemma SoundKeepsReliance(s: State, s': State, v: nat, own: Option<string>)
    requires Inv(s) && Sound(s, s', v, own)
    ensures forall w :: w in s'.vitros ==> Relies(s', s'.vitros[w])
  {
    forall w | w in s'.vitros
      ensures Relies(s', s'.vitros[w])
    {
      if w != v {
        Frame(s, s', s.vitros[w], own);
      }
    }
  }

  lemma SoundKeepsAccount(s: State, s': State, v: nat, own: Option<string>, p: Process)
    requires Inv(s) && Sound(s, s', v, own) && p in s'.guests && Live(s', p)
    ensures IsAccounted(s', p)
  {
    if IsOthers(s, s.vitros[v], p) {
      assert Live(s, p);
      if IsRecorded(s, p) || IsMisread(s, p) {
        StaysFound(s, s', own, p);
      } else if IsGuarded(s, p) {
        var w :| w in s.vitros && Guarded(s.vitros[w]) == Some(p);
        assert w in s'.vitros && Guarded(s'.vitros[w]) == Some(p);
      }
    }
  }

  lemma SoundKeeps(s: State, s': State, v: nat, own: Option<string>)
    requires Inv(s) && Sound(s, s', v, own)
    ensures Inv(s') && SparesTheLiving(s, s') && OnlyMoves(s, s', v)
  {
    SoundKeepsReliance(s, s', v, own);
    forall p | p in s'.guests && Live(s', p)
      ensures IsAccounted(s', p)
    {
      SoundKeepsAccount(s, s', v, own, p);
    }
  }

  /** A step that changes neither directories nor processes. */
  lemma Untouched(s: State, s': State)
    requires Shared(s) && s.reported <= s'.reported && s.misread <= s'.misread
    requires s' == s.(vitros := s'.vitros, lock := s'.lock, reported := s'.reported, misread := s'.misread)
    ensures Benign(s, s', None) && Shared(s')
  {
    forall name, p | Recorded(s', name, p)
      ensures WasSaved(s', name, p)
    {
      assert Recorded(s, name, p);
    }
  }

  /** What removing a directory comes to, should it fail or not. */
  predicate IsRemoval(dirs: Listing, dirs': Listing, name: string) {
    dirs' == Without(dirs, name) || FailsToRemove(dirs, dirs', name)
  }

  /** A directory may be removed, in whole or in part, when its record, if it has one, names
      no live process or was misread. */
  lemma Removed(s: State, s': State, n: string)
    requires Shared(s) && s.reported <= s'.reported
    requires forall p :: Recorded(s, n, p) ==> !Live(s, p) || n in s.misread
    requires s' == s.(vitros := s'.vitros, lock := s'.lock, reported := s'.reported, dirs := s'.dirs)
    requires IsRemoval(s.dirs, s'.dirs, n)
    ensures Benign(s, s', None) && Shared(s')
  {
    forall name, p | Recorded(s', name, p)
      ensures WasSaved(s', name, p)
    {
      assert Recorded(s, name, p);
    }
  }

  /** The guest a process lets go of is dead, recorded, reported or misread. */
  ghost predicate LetsGo(s: State, s': State, p: Process) {
    Live(s, p) ==> IsRecorded(s, p) || p in s'.reported || IsMisread(s, p)
  }

  /** A process moves on, and at most one directory goes, whose record names no live process
      or was misread. */
  lemma MovingOn(s: State, s': State, v: nat, gone: Option<string>)
    requires Inv(s) && v in s.vitros && v in s'.vitros && s.reported <= s'.reported
    requires s' == Move(s, v, s'.vitros[v]).(lock := s'.lock, reported := s'.reported, dirs := s'.dirs)
    requires gone.None? ==> s'.dirs == s.dirs
    requires gone.Some? ==> IsRemoval(s.dirs, s'.dirs, gone.value)
    requires gone.Some? ==> forall p :: Recorded(s, gone.value, p) ==> !Live(s, p) || gone.value in s.misread
    requires KeepsLock(s, s', v, s.vitros[v], s'.vitros[v])
    requires Making(s'.vitros[v]) == Making(s.vitros[v]) || Making(s'.vitros[v]).None?
    requires || Guarded(s.vitros[v]).None? || Guarded(s'.vitros[v]) == Guarded(s.vitros[v])
             || LetsGo(s, s', Guarded(s.vitros[v]).value)
    requires Relies(s, s'.vitros[v])
    ensures Sound(s, s', v, None)
  {
    if gone.Some? {
      Removed(s, s', gone.value);
    } else {
      Untouched(s, s');
    }
    Frame(s, s', s'.vitros[v], None);
    forall p | p in s.guests && Live(s, p) && (IsRecorded(s, p) || IsMisread(s, p))
      ensures IsRecorded(s', p) || IsMisread(s', p)
    {
      StaysFound(s, s', None, p);
    }
  }

  lemma RefusedIsSound(s: State, s': State, v: nat)
    requires Inv(s) && v in s.vitros && s' == Move(s, v, Finished)
    requires !Holds(s.vitros[v]) && Guarded(s.vitros[v]).None?
    ensures Sound(s, s', v, None)
  {
    MovingOn(s, s', v, None);
  }

  lemma LockingIsSound(s: State, s': State, v: nat, next: Vitro)
    requires Inv(s) && v in s.vitros && TakesLock(s, s', v, next)
    requires !Holds(s.vitros[v]) && Guarded(s.vitros[v]).None?
    requires Holds(next) && Making(next) == Making(s.vitros[v]) && Relies(s, next)
    ensures Sound(s, s', v, None)
  {
    if s.lock.Some? {
      RefusedIsSound(s, s', v);
    } else {
      MovingOn(s, s', v, None);
    }
  }

  lemma ReapingIsSound(s: State, s': State, v: nat, name: string, snapshot: Table, todo: Listing, n: string)
    requires Inv(s) && v in s.vitros && s.vitros[v] == RunReaping(name, snapshot, todo)
    requires n in todo && ReapStep(s, s', v, name, snapshot, todo, n)
    ensures Sound(s, s', v, None)
  {
    assert Relies(s, s.vitros[v]);
    MovingOn(s, s', v, if IsStale(todo[n], snapshot) then Some(n) else None);
  }

  lemma CreatingIsSound(s: State, s': State, v: nat, name: string, snapshot: Table, todo: Listing)
    requires Inv(s) && v in s.vitros && s.vitros[v] == RunReaping(name, snapshot, todo)
    requires s' == Move(s, v, RunStarting(name)).(dirs := s.dirs[name := None])
    ensures Sound(s, s', v, Some(name))
  {
    assert Relies(s, s.vitros[v]);
    forall n, p | Recorded(s', n, p)
      ensures WasSaved(s', n, p)
    {
      assert Recorded(s, n, p);
    }
    assert Shared(s');
  }

  lemma SpawningIsSound(s: State, s': State, v: nat, name: string, guest: Process, next: Vitro, report: set<Process>)
    requires Inv(s) && v in s.vitros && s.vitros[v] == RunStarting(name)
    requires SpawnStep(s, s', v, guest, next, report)
    requires || (next == RunMeasuring(name, guest) && report == {})
             || (next == RunRemoving(name, true) && report == {guest})
    ensures Sound(s, s', v, None)
  {
    assert Relies(s, s.vitros[v]);
    SpawningIsShared(s, s', v, guest, next, report);
  }

  lemma SpawningIsShared(s: State, s': State, v: nat, guest: Process, next: Vitro, report: set<Process>)
    requires Shared(s) && SpawnStep(s, s', v, guest, next, report)
    ensures Shared(s')
  {
    forall n, p | Recorded(s', n, p)
      ensures WasSaved(s', n, p)
    {
      assert Recorded(s, n, p);
    }
  }

  lemma MeasuringIsSound(s: State, s': State, v: nat)
    requires Inv(s) && v in s.vitros && s.vitros[v].RunMeasuring? && RunStep(s, s', v, s.vitros[v])
    ensures Sound(s, s', v, None)
  {
    assert Relies(s, s.vitros[v]);
    Untouched(s, s');
  }

  lemma SavedIsShared(s: State, s': State, name: string, record: Process)
    requires Shared(s) && name in s.names && record in s.past && name !in s.saved
    requires s' == s.(vitros := s'.vitros, dirs := s.dirs[name := Some(record)], saved := s.saved[name := record])
    ensures Shared(s') && Recorded(s', name, record)
  {
    forall n, p | Recorded(s', n, p)
      ensures WasSaved(s', n, p)
    {
      assert n != name ==> Recorded(s, n, p);
    }
  }

  lemma SavingIsSound(s: State, s': State, v: nat) returns (own: Option<string>)
    requires Inv(s) && v in s.vitros && s.vitros[v].RunSaving? && RunStep(s, s', v, s.vitros[v])
    ensures Sound(s, s', v, own)
  {
    assert Relies(s, s.vitros[v]);
    var RunSaving(name, guest, start) := s.vitros[v];
    if s'.vitros[v].RunStopping? {
      MovingOn(s, s', v, None);
      return None;
    } else {
      SavedIsShared(s, s', name, Process(guest.pid, start));
      return Some(name);
    }
  }

  /** A guest whose record stands is found by it, should its `run` let go of it, unless it
      was misread. */
  lemma StandingIsRecorded(s: State, name: string, guest: Process, start: nat)
    requires RecordStands(s, name, guest, start) && Live(s, guest)
    ensures IsRecorded(s, guest) || IsMisread(s, guest)
  {
    assert WasSaved(s, name, guest) && (name in s.misread || Recorded(s, name, guest));
  }

  lemma UnlockingIsSound(s: State, s': State, v: nat)
    requires Inv(s) && v in s.vitros && s.vitros[v].RunUnlocking? && RunStep(s, s', v, s.vitros[v])
    ensures Sound(s, s', v, None)
  {
    assert Relies(s, s.vitros[v]);
    MovingOn(s, s', v, None);
  }

  lemma CommittingIsSound(s: State, s': State, v: nat)
    requires Inv(s) && v in s.vitros && s.vitros[v].RunWaiting? && s' == Move(s, v, Finished)
    ensures Sound(s, s', v, None)
  {
    assert Relies(s, s.vitros[v]);
    var guest := s.vitros[v].guest;
    if Live(s, guest) {
      StandingIsRecorded(s, s.vitros[v].name, guest, s.vitros[v].start);
    }
    MovingOn(s, s', v, None);
  }

  lemma WaitingIsSound(s: State, s': State, v: nat)
    requires Inv(s) && v in s.vitros && s.vitros[v].RunWaiting? && RunStep(s, s', v, s.vitros[v])
    ensures Sound(s, s', v, None)
  {
    assert Relies(s, s.vitros[v]);
    if s' == Move(s, v, Finished) {
      CommittingIsSound(s, s', v);
    } else {
      MovingOn(s, s', v, None);
    }
  }

  /** What `stop_and_wait` takes for gone is dead, whether or not the start time is known. */
  lemma GoneIsDead(s: State, name: string, guest: Process, known: Option<nat>, locked: bool)
    requires Relies(s, RunStopping(name, guest, known, locked)) && LooksGone(s.procs, guest.pid, known)
    ensures !Live(s, guest) && Relies(s, RunRemoving(name, locked))
  {
  }

  lemma StoppedIsSound(s: State, s': State, v: nat, name: string, guest: Process, known: Option<nat>, locked: bool)
    requires Inv(s) && v in s.vitros && s.vitros[v] == RunStopping(name, guest, known, locked)
    requires LooksGone(s.procs, guest.pid, known) && s' == Move(s, v, RunRemoving(name, locked))
    ensures Sound(s, s', v, None)
  {
    assert Relies(s, s.vitros[v]);
    GoneIsDead(s, name, guest, known, locked);
    MovingOn(s, s', v, None);
  }

  lemma NotStoppedIsSound(s: State, s': State, v: nat, guest: Process, locked: bool)
    requires Inv(s) && v in s.vitros && s.vitros[v].RunStopping?
    requires s.vitros[v].guest == guest && s.vitros[v].locked == locked
    requires s' == Move(s, v, After(locked)).(reported := s.reported + {guest})
    ensures Sound(s, s', v, None)
  {
    assert LetsGo(s, s', guest);
    MovingOn(s, s', v, None);
  }

  lemma StoppingIsSound(s: State, s': State, v: nat)
    requires Inv(s) && v in s.vitros && s.vitros[v].RunStopping? && RunStep(s, s', v, s.vitros[v])
    ensures Sound(s, s', v, None)
  {
    var RunStopping(name, guest, known, locked) := s.vitros[v];
    if s' == Move(s, v, RunRemoving(name, locked)) && LooksGone(s.procs, guest.pid, known) {
      StoppedIsSound(s, s', v, name, guest, known, locked);
    } else {
      NotStoppedIsSound(s, s', v, guest, locked);
    }
  }

  lemma RemovingIsSound(s: State, s': State, v: nat)
    requires Inv(s) && v in s.vitros && s.vitros[v].RunRemoving? && RunStep(s, s', v, s.vitros[v])
    ensures Sound(s, s', v, None)
  {
    assert Relies(s, s.vitros[v]);
    var name := s.vitros[v].name;
    forall p | Recorded(s, name, p)
      ensures !Live(s, p)
    {
      assert WasSaved(s, name, p);
    }
    MovingOn(s, s', v, Some(name));
  }

  lemma LoadingIsSound(s: State, s': State, v: nat)
    requires Inv(s) && v in s.vitros && s.vitros[v].DestroyLoading? && DestroyStep(s, s', v, s.vitros[v])
    ensures Sound(s, s', v, None)
  {
    var name := s.vitros[v].name;
    if s'.vitros[v].DestroyStopping? {
      assert Recorded(s, name, s.dirs[name].value);
    }
    MovingOn(s, s', v, None);
  }

  lemma DestroyStoppedIsSound(s: State, s': State, v: nat, name: string, recorded: Process, rest: Option<Listing>)
    requires Inv(s) && v in s.vitros && s.vitros[v] == DestroyStopping(name, recorded, rest)
    requires !Live(s, recorded) && s' == Move(s, v, DestroyRemoving(name, recorded, rest))
    ensures Sound(s, s', v, None)
  {
    assert Relies(s, s.vitros[v]);
    MovingOn(s, s', v, None);
  }

  lemma DestroyStoppingIsSound(s: State, s': State, v: nat)
    requires Inv(s) && v in s.vitros && s.vitros[v].DestroyStopping? && DestroyStep(s, s', v, s.vitros[v])
    ensures Sound(s, s', v, None)
  {
    assert Relies(s, s.vitros[v]);
    var DestroyStopping(name, recorded, rest) := s.vitros[v];
    if s' == Move(s, v, DestroyRemoving(name, recorded, rest)) && !Live(s, recorded) {
      DestroyStoppedIsSound(s, s', v, name, recorded, rest);
    } else {
      MovingOn(s, s', v, None);
    }
  }

  lemma DeadMayGo(s: State, name: string, recorded: Process)
    requires Shared(s) && WasSaved(s, name, recorded) && !Live(s, recorded)
    ensures forall p :: Recorded(s, name, p) ==> !Live(s, p)
  {
    forall p | Recorded(s, name, p)
      ensures !Live(s, p)
    {
      assert WasSaved(s, name, p);
    }
  }

  lemma DestroyRemovedIsSound(s: State, s': State, v: nat, name: string, recorded: Process, rest: Option<Listing>)
    requires Inv(s) && v in s.vitros && s.vitros[v] == DestroyRemoving(name, recorded, rest)
    requires s' == Move(s, v, Resume(rest)).(dirs := Without(s.dirs, name))
    ensures Sound(s, s', v, None)
  {
    assert Relies(s, s.vitros[v]);
    DeadMayGo(s, name, recorded);
    MovingOn(s, s', v, Some(name));
  }

  lemma DestroyRemovingIsSound(s: State, s': State, v: nat)
    requires Inv(s) && v in s.vitros && s.vitros[v].DestroyRemoving? && DestroyStep(s, s', v, s.vitros[v])
    ensures Sound(s, s', v, None)
  {
    assert Relies(s, s.vitros[v]);
    var DestroyRemoving(name, recorded, rest) := s.vitros[v];
    if s' == Move(s, v, Resume(rest)).(dirs := Without(s.dirs, name)) {
      DestroyRemovedIsSound(s, s', v, name, recorded, rest);
    } else {
      DeadMayGo(s, name, recorded);
      MovingOn(s, s', v, Some(name));
    }
  }

  /** A listing of the directories is current when it is made. */
  lemma ListingIsCurrent(s: State, s': State, v: nat, next: Vitro, view: Listing)
    requires Shared(s) && ListStep(s, s', v, next, view)
    ensures IsCurrent(s', view)
  {
    forall n | n in view && view[n].Some?
      ensures WasSaved(s, n, view[n].value)
    {
      assert Recorded(s, n, view[n].value);
    }
  }

  /** A listing touches nothing: whatever it fails to read, harm is only done by who acts on it. */
  lemma ListingIsSound(s: State, s': State, v: nat, next: Vitro, view: Listing)
    requires Inv(s) && v in s.vitros && ListStep(s, s', v, next, view)
    requires (exists name, snapshot :: s.vitros[v] == RunListing(name, snapshot) && next == RunReaping(name, snapshot, view))
          || (s.vitros[v] == SweepListing && next == Sweeping(view))
    ensures Sound(s, s', v, None)
  {
    assert Relies(s, s.vitros[v]);
    Untouched(s, s');
    ListingIsCurrent(s, s', v, next, view);
    if s.vitros[v].RunListing? {
      FrameSnapshot(s, s', s.vitros[v].snapshot);
    }
  }

  lemma SweepingIsSound(s: State, s': State, v: nat, todo: Listing, n: string)
    requires Inv(s) && v in s.vitros && s.vitros[v] == Sweeping(todo)
    requires n in todo && SweepStep(s, s', v, todo, n)
    ensures Sound(s, s', v, None)
  {
    assert Relies(s, s.vitros[v]);
    MovingOn(s, s', v, if todo[n].None? then Some(n) else None);
  }

  lemma PreparingIsSound(s: State, s': State, v: nat)
    requires Inv(s) && v in s.vitros && s.vitros[v].PromotePreparing? && PromoteStep(s, s', v, s.vitros[v])
    ensures Sound(s, s', v, None)
  {
    var name := s.vitros[v].name;
    if s'.vitros[v].PromoteLocking? {
      assert Recorded(s, name, s.dirs[name].value);
    }
    MovingOn(s, s', v, None);
  }

  lemma ShuttingIsSound(s: State, s': State, v: nat)
    requires Inv(s) && v in s.vitros && s.vitros[v].PromoteShutting? && PromoteStep(s, s', v, s.vitros[v])
    ensures Sound(s, s', v, None)
  {
    assert Relies(s, s.vitros[v]);
    MovingOn(s, s', v, None);
  }

  lemma ConvertingIsSound(s: State, s': State, v: nat)
    requires Inv(s) && v in s.vitros && s.vitros[v].PromoteConverting? && PromoteStep(s, s', v, s.vitros[v])
    ensures Sound(s, s', v, None)
  {
    assert Relies(s, s.vitros[v]);
    MovingOn(s, s', v, None);
  }

  lemma ConvertedIsSound(s: State, s': State, v: nat)
    requires Inv(s) && v in s.vitros && s.vitros[v].PromoteConverted? && PromoteStep(s, s', v, s.vitros[v])
    ensures Sound(s, s', v, None)
  {
    assert Relies(s, s.vitros[v]);
    var name := s.vitros[v].name;
    forall p | Recorded(s, name, p)
      ensures !Live(s, p)
    {
      assert WasSaved(s, name, p);
    }
    MovingOn(s, s', v, Some(name));
  }

  lemma ProbingIsSound(s: State, s': State, v: nat)
    requires Inv(s) && v in s.vitros && s.vitros[v].RunProbing? && RunStep(s, s', v, s.vitros[v])
    ensures Sound(s, s', v, None)
  {
    assert Relies(s, s.vitros[v]);
    MovingOn(s, s', v, None);
  }

  /** Giving up, with only the lock left to let go of. */
  lemma GivingUpIsSound(s: State, s': State, v: nat)
    requires Inv(s) && v in s.vitros && s' == Move(s, v, Leaving)
    requires s.vitros[v].RunListing? || s.vitros[v].RunReaping? || s.vitros[v].SweepListing? || s.vitros[v].Sweeping?
    ensures Sound(s, s', v, None)
  {
    MovingOn(s, s', v, None);
  }

  lemma LettingGoIsSound(s: State, s': State, v: nat)
    requires Inv(s) && v in s.vitros && s.vitros[v] == Leaving && s' == Move(s, v, Finished).(lock := None)
    ensures Sound(s, s', v, None)
  {
    MovingOn(s, s', v, None);
  }

  lemma NotStartingIsSound(s: State, s': State, v: nat)
    requires Inv(s) && v in s.vitros && s.vitros[v].RunStarting?
    requires s' == Move(s, v, RunRemoving(s.vitros[v].name, true))
    ensures Sound(s, s', v, None)
  {
    assert Relies(s, s.vitros[v]);
    MovingOn(s, s', v, None);
  }

  lemma RunListingIsSound(s: State, s': State, v: nat)
    requires Inv(s) && v in s.vitros && s.vitros[v].RunListing? && RunStep(s, s', v, s.vitros[v])
    ensures Sound(s, s', v, None)
  {
    var RunListing(name, snapshot) := s.vitros[v];
    if s' == Move(s, v, Leaving) {
      GivingUpIsSound(s, s', v);
    } else {
      var view :| ListStep(s, s', v, RunReaping(name, snapshot, view), view);
      ListingIsSound(s, s', v, RunReaping(name, snapshot, view), view);
    }
  }

  lemma SweepListingIsSound(s: State, s': State, v: nat)
    requires Inv(s) && v in s.vitros && s.vitros[v] == SweepListing && DestroyStep(s, s', v, SweepListing)
    ensures Sound(s, s', v, None)
  {
    if s' == Move(s, v, Leaving) {
      GivingUpIsSound(s, s', v);
    } else {
      var view :| ListStep(s, s', v, Sweeping(view), view);
      ListingIsSound(s, s', v, Sweeping(view), view);
    }
  }

  // ----- Every step keeps the invariant -----

  lemma ReapingKeeps(s: State, s': State, v: nat)
    requires Inv(s) && v in s.vitros && s.vitros[v].RunReaping? && RunStep(s, s', v, s.vitros[v])
    ensures Inv(s') && SparesTheLiving(s, s') && OnlyMoves(s, s', v)
  {
    var RunReaping(name, snapshot, todo) := s.vitros[v];
    var own := None;
    if s' == Move(s, v, Leaving) {
      GivingUpIsSound(s, s', v);
    } else if n :| n in todo && ReapStep(s, s', v, name, snapshot, todo, n) {
      ReapingIsSound(s, s', v, name, snapshot, todo, n);
    } else {
      CreatingIsSound(s, s', v, name, snapshot, todo);
      own := Some(name);
    }
    SoundKeeps(s, s', v, own);
  }

  lemma StartingKeeps(s: State, s': State, v: nat)
    requires Inv(s) && v in s.vitros && s.vitros[v].RunStarting? && RunStep(s, s', v, s.vitros[v])
    ensures Inv(s') && SparesTheLiving(s, s') && OnlyMoves(s, s', v)
  {
    var name := s.vitros[v].name;
    if s' == Move(s, v, RunRemoving(name, true)) {
      NotStartingIsSound(s, s', v);
    } else {
      var guest :| SpawnStep(s, s', v, guest, RunMeasuring(name, guest), {})
                || SpawnStep(s, s', v, guest, RunRemoving(name, true), {guest});
      if SpawnStep(s, s', v, guest, RunMeasuring(name, guest), {}) {
        SpawningIsSound(s, s', v, name, guest, RunMeasuring(name, guest), {});
      } else {
        SpawningIsSound(s, s', v, name, guest, RunRemoving(name, true), {guest});
      }
    }
    SoundKeeps(s, s', v, None);
  }

  lemma RunLockingKeeps(s: State, s': State, v: nat)
    requires Inv(s) && v in s.vitros && s.vitros[v].RunLocking? && RunStep(s, s', v, s.vitros[v])
    ensures Inv(s') && SparesTheLiving(s, s') && OnlyMoves(s, s', v)
  {
    assert Relies(s, s.vitros[v]);
    LockingIsSound(s, s', v, RunProbing(s.vitros[v].name));
    SoundKeeps(s, s', v, None);
  }

  lemma SavingKeeps(s: State, s': State, v: nat)
    requires Inv(s) && v in s.vitros && s.vitros[v].RunSaving? && RunStep(s, s', v, s.vitros[v])
    ensures Inv(s') && SparesTheLiving(s, s') && OnlyMoves(s, s', v)
  {
    var own := SavingIsSound(s, s', v);
    SoundKeeps(s, s', v, own);
  }

  lemma LateRunIsSound(s: State, s': State, v: nat)
    requires Inv(s) && v in s.vitros && RunStep(s, s', v, s.vitros[v])
    requires !s.vitros[v].RunLocking? && !s.vitros[v].RunReaping? && !s.vitros[v].RunStarting?
    requires !s.vitros[v].RunSaving?
    ensures Sound(s, s', v, None)
  {
    match s.vitros[v]
    case RunMeasuring(_, _) => MeasuringIsSound(s, s', v);
    case RunUnlocking(_, _, _) => UnlockingIsSound(s, s', v);
    case RunWaiting(_, _, _) => WaitingIsSound(s, s', v);
    case RunStopping(_, _, _, _) => StoppingIsSound(s, s', v);
    case RunRemoving(_, _) => RemovingIsSound(s, s', v);
    case RunListing(_, _) => RunListingIsSound(s, s', v);
    case _ => ProbingIsSound(s, s', v);
  }

  lemma LateRunKeeps(s: State, s': State, v: nat)
    requires Inv(s) && v in s.vitros && RunStep(s, s', v, s.vitros[v])
    requires !s.vitros[v].RunLocking? && !s.vitros[v].RunReaping? && !s.vitros[v].RunStarting?
    requires !s.vitros[v].RunSaving?
    ensures Inv(s') && SparesTheLiving(s, s') && OnlyMoves(s, s', v)
  {
    LateRunIsSound(s, s', v);
    SoundKeeps(s, s', v, None);
  }

  lemma RunKeeps(s: State, s': State, v: nat)
    requires Inv(s) && v in s.vitros && RunStep(s, s', v, s.vitros[v])
    ensures Inv(s') && SparesTheLiving(s, s') && OnlyMoves(s, s', v)
  {
    match s.vitros[v]
    case RunLocking(_) => RunLockingKeeps(s, s', v);
    case RunReaping(_, _, _) => ReapingKeeps(s, s', v);
    case RunStarting(_) => StartingKeeps(s, s', v);
    case RunSaving(_, _, _) => SavingKeeps(s, s', v);
    case _ => LateRunKeeps(s, s', v);
  }

  lemma DestroyKeeps(s: State, s': State, v: nat)
    requires Inv(s) && v in s.vitros && DestroyStep(s, s', v, s.vitros[v])
    ensures Inv(s') && SparesTheLiving(s, s') && OnlyMoves(s, s', v)
  {
    match s.vitros[v]
    case DestroyLocking(name) => LockingIsSound(s, s', v, DestroyLoading(name)); SoundKeeps(s, s', v, None);
    case DestroyLoading(_) => LoadingIsSound(s, s', v); SoundKeeps(s, s', v, None);
    case DestroyStopping(_, _, _) => DestroyStoppingIsSound(s, s', v); SoundKeeps(s, s', v, None);
    case DestroyRemoving(_, _, _) => DestroyRemovingIsSound(s, s', v); SoundKeeps(s, s', v, None);
    case SweepLocking => LockingIsSound(s, s', v, SweepListing); SoundKeeps(s, s', v, None);
    case SweepListing => SweepListingIsSound(s, s', v); SoundKeeps(s, s', v, None);
    case Sweeping(todo) =>
      if s' == Move(s, v, Leaving) {
        GivingUpIsSound(s, s', v);
      } else {
        var n :| n in todo && SweepStep(s, s', v, todo, n);
        SweepingIsSound(s, s', v, todo, n);
      }
      SoundKeeps(s, s', v, None);
  }

  lemma PromoteLockingIsSound(s: State, s': State, v: nat)
    requires Inv(s) && v in s.vitros && s.vitros[v].PromoteLocking? && PromoteStep(s, s', v, s.vitros[v])
    ensures Sound(s, s', v, None)
  {
    assert Relies(s, s.vitros[v]);
    LockingIsSound(s, s', v, PromoteShutting(s.vitros[v].name, s.vitros[v].recorded));
  }

  lemma PromoteKeeps(s: State, s': State, v: nat)
    requires Inv(s) && v in s.vitros && PromoteStep(s, s', v, s.vitros[v])
    ensures Inv(s') && SparesTheLiving(s, s') && OnlyMoves(s, s', v)
  {
    match s.vitros[v] {
      case PromotePreparing(_) => PreparingIsSound(s, s', v);
      case PromoteLocking(_, _) => PromoteLockingIsSound(s, s', v);
      case PromoteConverted(_, _) => ConvertedIsSound(s, s', v);
      case PromoteShutting(_, _) => ShuttingIsSound(s, s', v);
      case _ => ConvertingIsSound(s, s', v);
    }
    SoundKeeps(s, s', v, None);
  }

  /** A new process makes a VM that no other makes. */
  lemma BeginningKeepsNames(s: State, s': State, v: nat, at: Vitro)
    requires Inv(s) && BeginStep(s, s', v, at)
    ensures DistinctNames(s') && Locked(s')
  {
    forall w | w in s.vitros && Making(s.vitros[w]).Some?
      ensures Making(s.vitros[w]) != Making(at)
    {
      assert Relies(s, s.vitros[w]);
    }
  }

  lemma BeginningIsBenign(s: State, s': State, v: nat, at: Vitro)
    requires Shared(s) && BeginStep(s, s', v, at)
    ensures Benign(s, s', None) && Shared(s')
  {
    forall name, p | Recorded(s', name, p)
      ensures WasSaved(s', name, p)
    {
      assert Recorded(s, name, p);
    }
  }

  lemma BeginningKeepsReliance(s: State, s': State, v: nat, at: Vitro)
    requires Inv(s) && BeginStep(s, s', v, at)
    ensures Shared(s') && forall w :: w in s'.vitros ==> Relies(s', s'.vitros[w])
  {
    BeginningIsBenign(s, s', v, at);
    forall w | w in s'.vitros
      ensures Relies(s', s'.vitros[w])
    {
      if w != v {
        Frame(s, s', s.vitros[w], None);
      }
    }
  }

  lemma BeginningKeeps(s: State, s': State, v: nat, at: Vitro)
    requires Inv(s) && BeginStep(s, s', v, at)
    ensures Inv(s') && SparesTheLiving(s, s')
  {
    BeginningKeepsNames(s, s', v, at);
    BeginningKeepsReliance(s, s', v, at);
    forall p | p in s'.guests && Live(s', p)
      ensures IsAccounted(s', p)
    {
      BeginningKeepsAccount(s, s', v, at, p);
    }
  }

  lemma BeginningKeepsAccount(s: State, s': State, v: nat, at: Vitro, p: Process)
    requires Inv(s) && BeginStep(s, s', v, at) && p in s.guests && Live(s, p)
    ensures IsAccounted(s', p)
  {
    if IsRecorded(s, p) || IsMisread(s, p) {
      BeginningIsBenign(s, s', v, at);
      StaysFound(s, s', None, p);
    } else if IsGuarded(s, p) {
      var w :| w in s.vitros && Guarded(s.vitros[w]) == Some(p);
      assert w in s'.vitros && Guarded(s'.vitros[w]) == Some(p);
    }
  }

  lemma VitroKeeps(s: State, s': State, v: nat)
    requires Inv(s) && VitroStep(s, s', v)
    ensures Inv(s') && SparesTheLiving(s, s') && OnlyMoves(s, s', v)
  {
    if RunStep(s, s', v, s.vitros[v]) {
      RunKeeps(s, s', v);
    } else if DestroyStep(s, s', v, s.vitros[v]) {
      DestroyKeeps(s, s', v);
    } else if PromoteStep(s, s', v, s.vitros[v]) {
      PromoteKeeps(s, s', v);
    } else {
      LettingGoIsSound(s, s', v);
      SoundKeeps(s, s', v, None);
    }
  }

  lemma NextKeeps(s: State, s': State)
    requires Inv(s) && Next(s, s')
    ensures Inv(s') && SparesTheLiving(s, s')
  {
    if v :| VitroStep(s, s', v) {
      VitroKeeps(s, s', v);
    } else if v, at :| BeginStep(s, s', v, at) {
      BeginningKeeps(s, s', v, at);
    } else {
      MachineKeeps(s, s');
    }
  }

  lemma {:induction false} InvHolds(t: seq<State>, i: nat)
    requires IsTrace(t) && i < |t|
    ensures Inv(t[i])
  {
    if i > 0 {
      InvHolds(t, i - 1);
      assert Next(t[i - 1], t[i - 1 + 1]);
      NextKeeps(t[i - 1], t[i]);
    }
  }
}
