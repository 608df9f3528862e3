/** What the state lock and the drop guards buy, over every run of the VM lifecycle. */
module LifecycleSafety {
  import opened Wrappers
  import opened Lifecycle
  import opened LifecycleProofs

  // ----- Live guests keep their records -----

  lemma TraceStep(t: seq<State>, i: nat)
    requires IsTrace(t) && i + 1 < |t|
    ensures Next(t[i], t[i + 1])
  {
  }

  lemma StepSpares(t: seq<State>, i: nat)
    requires IsTrace(t) && i + 1 < |t|
    ensures Inv(t[i]) && Inv(t[i + 1]) && SparesTheLiving(t[i], t[i + 1])
  {
    InvHolds(t, i);
    NextKeeps(t[i], t[i + 1]);
  }

  /** A process that is alive now was alive at any earlier time it was known at. */
  lemma {:induction false} WasAlive(t: seq<State>, i: nat, j: nat, p: Process)
    requires IsTrace(t) && i <= j < |t| && p in t[i].past && Live(t[j], p)
    ensures Live(t[i], p)
    decreases j - i
  {
    if i < j {
      StepSpares(t, i);
      WasAlive(t, i + 1, j, p);
    }
  }

  lemma {:induction false} MisreadOnlyGrows(t: seq<State>, i: nat, j: nat)
    requires IsTrace(t) && i <= j < |t|
    ensures t[i].misread <= t[j].misread
    decreases j - i
  {
    if i < j {
      StepSpares(t, i);
      MisreadOnlyGrows(t, i + 1, j);
    }
  }

  /** However the steps of `run`, `destroy`, `destroy --all` and `promote` interleave, a VM
      directory whose record names a process stays in place, with that record, until the
      process is dead; unless a listing could not read that record while it was alive. */
  lemma {:induction false} RecordOutlivesGuest(t: seq<State>, i: nat, j: nat, name: string, p: Process)
    requires IsTrace(t) && i <= j < |t| && Recorded(t[i], name, p) && Live(t[j], p)
    requires name !in t[j].misread
    ensures Recorded(t[j], name, p)
    decreases j - i
  {
    if i < j {
      StepSpares(t, i);
      WasAlive(t, i, j, p);
      MisreadOnlyGrows(t, i + 1, j);
      RecordOutlivesGuest(t, i + 1, j, name, p);
    }
  }

  /** Every live guest is named by a record, guarded by the `run` starting it, or was
      reported as possibly still running; unless its record could not be read by a listing. */
  lemma NoGuestIsLost(t: seq<State>, i: nat, p: Process)
    requires IsTrace(t) && i < |t| && p in t[i].guests && Live(t[i], p)
    ensures IsRecorded(t[i], p) || IsGuarded(t[i], p) || p in t[i].reported || IsMisread(t[i], p)
  {
    InvHolds(t, i);
  }

  /** What a locked `reap_dead` takes for dead by its snapshot, however old that is by now,
      is dead: the snapshot errs only towards "running". */
  lemma SnapshotIsNeverEarly(t: seq<State>, i: nat, v: nat, name: string, p: Process)
    requires IsTrace(t) && i < |t| && v in t[i].vitros && t[i].vitros[v].RunReaping?
    requires Recorded(t[i], name, p) && !LiveIn(t[i].vitros[v].snapshot, p)
    ensures !Live(t[i], p)
  {
    InvHolds(t, i);
    assert Relies(t[i], t[i].vitros[v]);
  }

  lemma LockExcludes(t: seq<State>, i: nat, v: nat, w: nat)
    requires IsTrace(t) && i < |t| && v in t[i].vitros && w in t[i].vitros
    requires Holds(t[i].vitros[v]) && Holds(t[i].vitros[w])
    ensures v == w
  {
    InvHolds(t, i);
  }

  // ----- What the holder of the lock can count on -----

  predicate SameEntry(s: State, s': State, name: string) {
    (name in s.dirs <==> name in s'.dirs) && (name in s.dirs ==> s'.dirs[name] == s.dirs[name])
  }

  predicate IsWatched(at: Vitro) {
    at.RunStarting? || at.RunMeasuring? || at.RunSaving? || at.RunUnlocking?
  }

  /** While one process holds the lock, another touches no directory but that of the VM it
      is making, which its guard removes without the lock. */
  lemma OthersStepAside(s: State, s': State, v: nat, w: nat, name: string)
    requires Inv(s) && v in s.vitros && Holds(s.vitros[v]) && VitroStep(s, s', w) && w != v
    requires Making(s.vitros[w]) != Some(name)
    ensures SameEntry(s, s', name)
  {
    assert !Holds(s.vitros[w]) && s.lock.Some?;
  }

  lemma OutsideSteps(s: State, s': State, v: nat)
    requires Next(s, s') && (forall w :: !VitroStep(s, s', w)) && v in s'.vitros
    ensures s'.dirs == s.dirs
    ensures v in s.vitros ==> s'.vitros[v] == s.vitros[v]
    ensures v !in s.vitros ==> exists at :: BeginStep(s, s', v, at) && s'.vitros[v] == at
  {
    if w, at :| BeginStep(s, s', w, at) {
      assert v !in s.vitros ==> v == w && BeginStep(s, s', v, at);
    }
  }

  // ----- A VM in the making -----

  /** From the creation of its directory to the release of the lock a `run` finds the
      directory as it left it: without a record first, then with the one it wrote. */
  predicate IsInPlace(s: State, at: Vitro) {
    match at
    case RunStarting(name) => name in s.dirs && s.dirs[name].None?
    case RunMeasuring(name, _) => name in s.dirs && s.dirs[name].None?
    case RunSaving(name, _, _) => name in s.dirs && s.dirs[name].None?
    case RunUnlocking(name, guest, start) => Recorded(s, name, Process(guest.pid, start))
    case _ => true
  }

  lemma ReapingLeavesPlace(s: State, s': State, v: nat, name: string, snapshot: Table, todo: Listing, n: string)
    requires v in s.vitros && n in todo && ReapStep(s, s', v, name, snapshot, todo, n)
    ensures v in s'.vitros && !IsWatched(s'.vitros[v])
  {
  }

  lemma CreatingPutsInPlace(s: State, s': State, v: nat, name: string, snapshot: Table, todo: Listing)
    requires v in s.vitros && ReapingStep(s, s', v, name, snapshot, todo)
    ensures v in s'.vitros && IsInPlace(s', s'.vitros[v])
  {
    if n :| n in todo && ReapStep(s, s', v, name, snapshot, todo, n) {
      ReapingLeavesPlace(s, s', v, name, snapshot, todo, n);
    } else if s' != Move(s, v, Leaving) {
      assert name in s'.dirs;
    }
  }

  lemma StartingKeepsPlace(s: State, s': State, v: nat)
    requires v in s.vitros && (s.vitros[v].RunStarting? || s.vitros[v].RunMeasuring?)
    requires RunStep(s, s', v, s.vitros[v]) && IsInPlace(s, s.vitros[v])
    ensures v in s'.vitros && IsInPlace(s', s'.vitros[v])
  {
    assert s'.dirs == s.dirs;
  }

  lemma SavingKeepsPlace(s: State, s': State, v: nat)
    requires v in s.vitros && s.vitros[v].RunSaving? && RunStep(s, s', v, s.vitros[v])
    ensures v in s'.vitros && IsInPlace(s', s'.vitros[v])
  {
  }

  lemma ListingLeavesPlace(s: State, s': State, v: nat, name: string, snapshot: Table)
    requires v in s.vitros && RunListingStep(s, s', v, name, snapshot)
    ensures v in s'.vitros && !IsWatched(s'.vitros[v])
  {
  }

  lemma StoppingLeavesPlace(s: State, s': State, v: nat, name: string, guest: Process, known: Option<nat>, locked: bool)
    requires v in s.vitros && StoppingStep(s, s', v, name, guest, known, locked)
    ensures v in s'.vitros && !IsWatched(s'.vitros[v])
  {
  }

  lemma LeavesPlace(s: State, s': State, v: nat)
    requires v in s.vitros && RunStep(s, s', v, s.vitros[v])
    requires s.vitros[v].RunUnlocking? || (!IsWatched(s.vitros[v]) && !s.vitros[v].RunReaping?)
    ensures v in s'.vitros && !IsWatched(s'.vitros[v])
  {
    match s.vitros[v]
    case RunListing(name, snapshot) => ListingLeavesPlace(s, s', v, name, snapshot);
    case RunStopping(name, guest, known, locked) => StoppingLeavesPlace(s, s', v, name, guest, known, locked);
    case _ =>
  }

  lemma OwnStepKeepsPlace(s: State, s': State, v: nat)
    requires v in s.vitros && RunStep(s, s', v, s.vitros[v]) && IsInPlace(s, s.vitros[v])
    ensures v in s'.vitros && IsInPlace(s', s'.vitros[v])
  {
    match s.vitros[v]
    case RunReaping(name, snapshot, todo) => CreatingPutsInPlace(s, s', v, name, snapshot, todo);
    case RunStarting(_) => StartingKeepsPlace(s, s', v);
    case RunMeasuring(_, _) => StartingKeepsPlace(s, s', v);
    case RunSaving(_, _, _) => SavingKeepsPlace(s, s', v);
    case _ => LeavesPlace(s, s', v);
  }

  lemma SameEntryKeepsPlace(s: State, s': State, at: Vitro)
    requires IsInPlace(s, at) && (IsWatched(at) ==> SameEntry(s, s', at.name))
    ensures IsInPlace(s', at)
  {
  }

  lemma OtherStepKeepsPlace(s: State, s': State, v: nat, w: nat)
    requires Inv(s) && v in s.vitros && v != w && VitroStep(s, s', w) && IsInPlace(s, s.vitros[v])
    ensures v in s'.vitros && IsInPlace(s', s'.vitros[v])
  {
    VitroKeeps(s, s', w);
    if IsWatched(s.vitros[v]) {
      OthersStepAside(s, s', v, w, s.vitros[v].name);
    }
    SameEntryKeepsPlace(s, s', s.vitros[v]);
  }

  lemma VitroStepKeepsPlace(s: State, s': State, v: nat, w: nat)
    requires Inv(s) && VitroStep(s, s', w) && v in s.vitros && IsInPlace(s, s.vitros[v])
    ensures v in s'.vitros && IsInPlace(s', s'.vitros[v])
  {
    VitroKeeps(s, s', w);
    if w != v {
      OtherStepKeepsPlace(s, s', v, w);
    } else if RunStep(s, s', v, s.vitros[v]) {
      OwnStepKeepsPlace(s, s', v);
    } else {
      assert Making(s.vitros[v]).None?;
    }
  }

  lemma StepKeepsPlace(s: State, s': State, v: nat)
    requires Inv(s) && Next(s, s') && v in s'.vitros && (v in s.vitros ==> IsInPlace(s, s.vitros[v]))
    ensures IsInPlace(s', s'.vitros[v])
  {
    if w :| VitroStep(s, s', w) {
      VitroKeeps(s, s', w);
      VitroStepKeepsPlace(s, s', v, w);
    } else {
      OutsideSteps(s, s', v);
    }
  }

  lemma TraceKeepsPlace(t: seq<State>, i: nat, v: nat)
    requires IsTrace(t) && i + 1 < |t| && v in t[i + 1].vitros
    requires v in t[i].vitros ==> IsInPlace(t[i], t[i].vitros[v])
    ensures IsInPlace(t[i + 1], t[i + 1].vitros[v])
  {
    InvHolds(t, i);
    TraceStep(t, i);
    StepKeepsPlace(t[i], t[i + 1], v);
  }

  /** No `reap_dead` and no `destroy --all` removes the directory of a `run` between its
      creation and its record: that run always finds it there. */
  lemma {:induction false} CreationIsUndisturbed(t: seq<State>, i: nat, v: nat)
    requires IsTrace(t) && i < |t| && v in t[i].vitros
    ensures IsInPlace(t[i], t[i].vitros[v])
  {
    if i > 0 {
      if v in t[i - 1].vitros {
        CreationIsUndisturbed(t, i - 1, v);
      }
      TraceKeepsPlace(t, i - 1, v);
    }
  }

  // ----- A VM being promoted -----

  predicate IsPromoting(at: Vitro, name: string) {
    (at.PromoteShutting? || at.PromoteConverting? || at.PromoteConverted?) && at.name == name
  }

  /** Nobody's guard would still remove this VM: its `run` has committed, or is over. */
  ghost predicate IsCommitted(s: State, name: string) {
    name in s.names && forall w :: w in s.vitros ==> Making(s.vitros[w]) != Some(name)
  }

  lemma PromotingStep(s: State, s': State, v: nat, name: string)
    requires v in s.vitros && v in s'.vitros && VitroStep(s, s', v)
    requires IsPromoting(s.vitros[v], name) && IsPromoting(s'.vitros[v], name)
    ensures s'.dirs == s.dirs
  {
  }

  lemma StaysCommitted(s: State, s': State, w: nat, name: string)
    requires IsCommitted(s, name) && OnlyMoves(s, s', w)
    ensures IsCommitted(s', name)
  {
  }

  lemma PromotionBesideStep(s: State, s': State, v: nat, w: nat, name: string)
    requires Inv(s) && VitroStep(s, s', w) && IsCommitted(s, name)
    requires v in s.vitros && IsPromoting(s.vitros[v], name)
    requires v in s'.vitros && IsPromoting(s'.vitros[v], name)
    ensures SameEntry(s, s', name) && IsCommitted(s', name)
  {
    if w != v {
      OthersStepAside(s, s', v, w, name);
    } else {
      PromotingStep(s, s', v, name);
    }
    VitroKeeps(s, s', w);
    StaysCommitted(s, s', w, name);
  }

  lemma PromotionStep(s: State, s': State, v: nat, name: string)
    requires Inv(s) && Next(s, s') && IsCommitted(s, name)
    requires v in s.vitros && IsPromoting(s.vitros[v], name)
    requires v in s'.vitros && IsPromoting(s'.vitros[v], name)
    ensures SameEntry(s, s', name) && IsCommitted(s', name)
  {
    if w :| VitroStep(s, s', w) {
      PromotionBesideStep(s, s', v, w, name);
    } else {
      OutsideSteps(s, s', v);
    }
  }

  /** From the shutdown of a committed VM until `promote` is done with it, its directory,
      and so the overlay being converted, is not touched by anyone else. */
  lemma {:induction false} OverlaySurvives(t: seq<State>, i: nat, j: nat, v: nat, name: string)
    requires IsTrace(t) && i <= j < |t| && IsCommitted(t[i], name)
    requires forall k :: i <= k <= j ==> v in t[k].vitros && IsPromoting(t[k].vitros[v], name)
    ensures SameEntry(t[i], t[j], name)
    decreases j - i
  {
    if i < j {
      InvHolds(t, i);
      TraceStep(t, i);
      PromotionStep(t[i], t[i + 1], v, name);
      OverlaySurvives(t, i + 1, j, v, name);
    }
  }

  // ----- The machine does get somewhere -----

  const EMPTY := State(map[], map[], None, map[], {}, {}, map[], {}, {}, {})

  /** An empty machine with one `run` at a given point. */
  function Running(at: Vitro, lock: Option<nat>): State {
    EMPTY.(vitros := map[0 := at], lock := lock, names := {"vm"})
  }

  function Started(at: Vitro, guest: Process): State {
    Running(at, Some(0)).(procs := map[guest.pid := guest.start], past := {guest}, guests := {guest}, dirs := map["vm" := None])
  }

  function Saved(at: Vitro, guest: Process, lock: Option<nat>): State {
    Started(at, guest).(dirs := map["vm" := Some(guest)], saved := map["vm" := guest], lock := lock)
  }

  function UntilStarted(guest: Process): seq<State> {
    [EMPTY, Running(RunLocking("vm"), None), Running(RunProbing("vm"), Some(0)), Running(RunListing("vm", map[]), Some(0)),
     Running(RunReaping("vm", map[], map[]), Some(0)), Running(RunStarting("vm"), Some(0)).(dirs := map["vm" := None])]
  }

  function FromStarted(guest: Process): seq<State> {
    [Started(RunMeasuring("vm", guest), guest), Started(RunSaving("vm", guest, guest.start), guest),
     Saved(RunUnlocking("vm", guest, guest.start), guest, Some(0)), Saved(RunWaiting("vm", guest, guest.start), guest, None),
     Saved(Finished, guest, None)]
  }

  lemma FirstSteps(guest: Process, i: nat)
    requires i < 5
    ensures Next(UntilStarted(guest)[i], UntilStarted(guest)[i + 1])
  {
    var s, s' := UntilStarted(guest)[i], UntilStarted(guest)[i + 1];
    if i == 0 {
      assert BeginStep(s, s', 0, RunLocking("vm"));
    } else {
      assert s'.vitros == s.vitros[0 := s'.vitros[0]];
      assert RunStep(s, s', 0, s.vitros[0]);
      assert VitroStep(s, s', 0);
    }
  }

  lemma SpawnsGuest(guest: Process)
    ensures Next(UntilStarted(guest)[5], FromStarted(guest)[0])
  {
    var s, s' := UntilStarted(guest)[5], FromStarted(guest)[0];
    assert s'.vitros == s.vitros[0 := s'.vitros[0]];
    assert SpawnStep(s, s', 0, guest, RunMeasuring("vm", guest), {});
    assert VitroStep(s, s', 0);
  }

  lemma LastSteps(guest: Process, i: nat)
    requires i < 4
    ensures Next(FromStarted(guest)[i], FromStarted(guest)[i + 1])
  {
    var s, s' := FromStarted(guest)[i], FromStarted(guest)[i + 1];
    assert s'.vitros == s.vitros[0 := s'.vitros[0]];
    assert RunStep(s, s', 0, s.vitros[0]);
    assert VitroStep(s, s', 0);
  }

  ghost predicate IsLeftRunning(s: State, name: string, guest: Process) {
    IsCommitted(s, name) && Recorded(s, name, guest) && Live(s, guest) && guest in s.guests
  }

  /** There are runs in which a guest is made, recorded, committed and left running. */
  lemma AGuestCanBeMade(guest: Process)
    ensures exists t: seq<State> :: IsTrace(t) && t[|t| - 1] == Saved(Finished, guest, None)
                                    && IsLeftRunning(t[|t| - 1], "vm", guest)
  {
    var a, b := UntilStarted(guest), FromStarted(guest);
    var t := a + b;
    forall i | 0 <= i < |t| - 1
      ensures Next(t[i], t[i + 1])
    {
      if i < 5 {
        FirstSteps(guest, i);
      } else if i == 5 {
        SpawnsGuest(guest);
      } else {
        LastSteps(guest, i - 6);
        assert t[i + 1] == b[i - 6 + 1];
      }
    }
    assert IsTrace(t) && IsLeftRunning(t[|t| - 1], "vm", guest);
  }
}
