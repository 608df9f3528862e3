/** What a `run` has reaped by the time it makes its own directory: everything it listed that its
    snapshot did not show alive. */
module LifecycleReaping {
  import opened Wrappers
  import opened Lifecycle
  import opened LifecycleProofs
  import opened LifecycleSafety
  import opened LifecycleReading

  /** No record could be read, or no process with its PID and start time is in the snapshot. */
  predicate IsShownDead(entry: Option<Process>, snapshot: Table) {
    entry.None? || entry.value.pid !in snapshot || snapshot[entry.value.pid] != entry.value.start
  }

  /** While one process holds the lock no other makes a directory. */
  lemma NobodyAdds(s: State, s': State, v: nat, w: nat, n: string)
    requires Inv(s) && v in s.vitros && Holds(s.vitros[v]) && VitroStep(s, s', w) && w != v && n !in s.dirs
    ensures n !in s'.dirs
  {
    assert !Holds(s.vitros[w]) && s.lock.Some?;
  }

  predicate IsReaping(s: State, v: nat) {
    v in s.vitros && s.vitros[v].RunReaping?
  }

  /** A `run` in the middle of reaping by that snapshot, with `n` listed as `entry` still to
      come, or its directory gone. */
  predicate IsHandling(s: State, v: nat, snapshot: Table, n: string, entry: Option<Process>) {
    && IsReaping(s, v) && s.vitros[v].snapshot == snapshot
    && (n in s.vitros[v].todo ==> s.vitros[v].todo[n] == entry)
    && (n in s.dirs ==> n in s.vitros[v].todo)
  }

  lemma ReapedOne(s: State, s': State, v: nat, name: string, snapshot: Table, todo: Listing, m: string,
                  n: string, entry: Option<Process>)
    requires v in s.vitros && s.vitros[v] == RunReaping(name, snapshot, todo)
    requires m in todo && ReapStep(s, s', v, name, snapshot, todo, m) && IsReaping(s', v)
    requires IsHandling(s, v, snapshot, n, entry) && IsShownDead(entry, snapshot)
    ensures IsHandling(s', v, snapshot, n, entry)
  {
    assert s'.vitros[v] == RunReaping(name, snapshot, Without(todo, m));
    if m == n {
      assert IsStale(entry, snapshot) && s'.dirs == Without(s.dirs, n);
    }
  }

  lemma OwnReapingStep(s: State, s': State, v: nat, snapshot: Table, n: string, entry: Option<Process>)
    requires IsHandling(s, v, snapshot, n, entry) && IsShownDead(entry, snapshot)
    requires IsReaping(s', v) && ReapingStep(s, s', v, s.vitros[v].name, snapshot, s.vitros[v].todo)
    ensures IsHandling(s', v, snapshot, n, entry)
  {
    var RunReaping(name, _, todo) := s.vitros[v];
    var m :| m in todo && ReapStep(s, s', v, name, snapshot, todo, m);
    ReapedOne(s, s', v, name, snapshot, todo, m, n, entry);
  }

  lemma OtherReapingStep(s: State, s': State, v: nat, w: nat, snapshot: Table, n: string, entry: Option<Process>)
    requires Inv(s) && IsHandling(s, v, snapshot, n, entry) && VitroStep(s, s', w) && w != v
    ensures IsHandling(s', v, snapshot, n, entry)
  {
    VitroKeeps(s, s', w);
    if n !in s.dirs {
      NobodyAdds(s, s', v, w, n);
    }
  }

  lemma OwnStep(s: State, s': State, v: nat)
    requires IsReaping(s, v) && VitroStep(s, s', v)
    ensures ReapingStep(s, s', v, s.vitros[v].name, s.vitros[v].snapshot, s.vitros[v].todo)
  {
  }

  lemma ReapingStepHandles(s: State, s': State, v: nat, snapshot: Table, n: string, entry: Option<Process>)
    requires Inv(s) && Next(s, s') && IsReaping(s', v)
    requires IsHandling(s, v, snapshot, n, entry) && IsShownDead(entry, snapshot)
    ensures IsHandling(s', v, snapshot, n, entry)
  {
    if w :| VitroStep(s, s', w) {
      if w == v {
        OwnStep(s, s', v);
        OwnReapingStep(s, s', v, snapshot, n, entry);
      } else {
        OtherReapingStep(s, s', v, w, snapshot, n, entry);
      }
    } else {
      OutsideSteps(s, s', v);
    }
  }

  predicate ReapsThrough(t: seq<State>, i: nat, j: nat, v: nat) {
    i <= j < |t| && forall k :: i <= k <= j ==> IsReaping(t[k], v)
  }

  lemma TraceHandles(t: seq<State>, i: nat, v: nat, snapshot: Table, n: string, entry: Option<Process>)
    requires IsTrace(t) && i + 1 < |t| && IsReaping(t[i + 1], v)
    requires IsHandling(t[i], v, snapshot, n, entry) && IsShownDead(entry, snapshot)
    ensures IsHandling(t[i + 1], v, snapshot, n, entry)
  {
    InvHolds(t, i);
    TraceStep(t, i);
    ReapingStepHandles(t[i], t[i + 1], v, snapshot, n, entry);
  }

  lemma {:induction false} HandlesThrough(t: seq<State>, i: nat, j: nat, v: nat, snapshot: Table, n: string, entry: Option<Process>)
    requires IsTrace(t) && ReapsThrough(t, i, j, v)
    requires IsHandling(t[i], v, snapshot, n, entry) && IsShownDead(entry, snapshot)
    ensures IsHandling(t[j], v, snapshot, n, entry)
    decreases j - i
  {
    if i < j {
      TraceHandles(t, i, v, snapshot, n, entry);
      HandlesThrough(t, i + 1, j, v, snapshot, n, entry);
    }
  }

  lemma OwnStart(s: State, s': State, v: nat, name: string, snapshot: Table, todo: Listing)
    requires v in s.vitros && ReapingStep(s, s', v, name, snapshot, todo)
    requires v in s'.vitros && s'.vitros[v].RunStarting?
    ensures todo == map[]
  {
    if n :| n in todo && ReapStep(s, s', v, name, snapshot, todo, n) {
      ReapingLeavesPlace(s, s', v, name, snapshot, todo, n);
    }
  }

  lemma StartsWhenDone(s: State, s': State, v: nat)
    requires Inv(s) && Next(s, s') && IsReaping(s, v) && v in s'.vitros && s'.vitros[v].RunStarting?
    ensures s.vitros[v].todo == map[]
  {
    if w :| VitroStep(s, s', w) {
      if w == v {
        OwnStep(s, s', v);
        OwnStart(s, s', v, s.vitros[v].name, s.vitros[v].snapshot, s.vitros[v].todo);
      } else {
        VitroKeeps(s, s', w);
      }
    } else {
      OutsideSteps(s, s', v);
    }
  }

  /** A `run` that gets from reaping to its own directory has by then removed every directory
      it listed that it could not read or that its snapshot showed dead. */
  lemma StartsOnceDeadAreGone(t: seq<State>, i: nat, j: nat, v: nat, view: Listing, n: string)
    requires IsTrace(t) && 0 < i && ReapsThrough(t, i, j, v) && j + 1 < |t|
    requires Lists(t[i - 1], t[i], v, view) && IsReaping(t[i], v)
    requires n in view && IsShownDead(view[n], t[i].vitros[v].snapshot)
    requires v in t[j + 1].vitros && t[j + 1].vitros[v].RunStarting?
    ensures n !in t[j].dirs
  {
    var snapshot := t[i].vitros[v].snapshot;
    assert IsHandling(t[i], v, snapshot, n, view[n]);
    HandlesThrough(t, i, j, v, snapshot, n, view[n]);
    InvHolds(t, j);
    TraceStep(t, j);
    StartsWhenDone(t[j], t[j + 1], v);
  }
}
