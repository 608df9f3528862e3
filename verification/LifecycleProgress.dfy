/** That each operation can be carried through: from any state in which nothing stands in its
    way, and by the steps of its own process alone. */
module LifecycleProgress {
  import opened Wrappers
  import opened Lifecycle
  import opened LifecycleReading

  /** `v` takes every step and the last state is `end`. */
  ghost predicate GetsTo(s: State, u: seq<State>, v: nat, end: State) {
    && IsContinuation(s, u) && u[|u| - 1] == end
    && forall i :: 0 <= i < |u| - 1 ==> VitroStep(u[i], u[i + 1], v)
  }

  /** The VM's directory is gone, the process has ended, and all else is as it was. */
  function Removed(s: State, v: nat, name: string): State {
    s.(dirs := map n | n in s.dirs && n != name :: s.dirs[n], vitros := s.vitros[v := Finished])
  }

  /** The steps of one process from a state, by where it gets, the lock and the directories. */
  function At(s: State, v: nat, at: Vitro, lock: Option<nat>, dirs: Listing): State {
    s.(vitros := s.vitros[v := at], lock := lock, dirs := dirs)
  }

  lemma Then(s: State, u: seq<State>, v: nat, a: State, b: State) returns (t: seq<State>)
    requires GetsTo(s, u, v, a) && VitroStep(a, b, v)
    ensures GetsTo(s, t, v, b)
  {
    t := u + [b];
    forall i | 0 <= i < |t| - 1
      ensures VitroStep(t[i], t[i + 1], v) && Next(t[i], t[i + 1])
    {
      if i < |u| - 1 {
        assert t[i] == u[i] && t[i + 1] == u[i + 1];
      }
    }
  }

  /** A step of the process from one such state to another. */
  lemma Onwards(s: State, v: nat, at: Vitro, lock: Option<nat>, dirs: Listing, next: State)
    requires v in next.vitros
    requires next == s.(vitros := s.vitros[v := next.vitros[v]], lock := next.lock, dirs := next.dirs)
    ensures next == Move(At(s, v, at, lock, dirs), v, next.vitros[v]).(lock := next.lock, dirs := next.dirs)
  {
    assert s.vitros[v := at][v := next.vitros[v]] == s.vitros[v := next.vitros[v]];
  }

  /** `destroy` gets a VM with a readable record out of the way whose process is not alive. */
  lemma DestroyGetsThrough(s: State, v: nat, name: string) returns (u: seq<State>)
    requires v in s.vitros && s.vitros[v] == DestroyLocking(name) && s.lock.None?
    requires name in s.dirs && s.dirs[name].Some?
    requires var p := s.dirs[name].value; p.pid !in s.procs || s.procs[p.pid] != p.start
    ensures GetsTo(s, u, v, Removed(s, v, name))
  {
    var p, dirs, end := s.dirs[name].value, Removed(s, v, name).dirs, Removed(s, v, name);
    var a := At(s, v, DestroyLoading(name), Some(v), s.dirs);
    var b := At(s, v, DestroyStopping(name, p, None), Some(v), s.dirs);
    var c := At(s, v, DestroyRemoving(name, p, None), Some(v), s.dirs);
    assert dirs == Without(s.dirs, name);
    assert DestroyStep(s, a, v, s.vitros[v]);
    u := Then(s, [s], v, s, a);
    Onwards(s, v, a.vitros[v], Some(v), s.dirs, b);
    assert DestroyStep(a, b, v, a.vitros[v]);
    u := Then(s, u, v, a, b);
    Onwards(s, v, b.vitros[v], Some(v), s.dirs, c);
    assert DestroyStep(b, c, v, b.vitros[v]);
    u := Then(s, u, v, b, c);
    u := LastSteps(s, v, c.vitros[v], dirs, u);
  }

  /** The removal, and letting the lock go. */
  lemma LastSteps(s: State, v: nat, at: Vitro, dirs: Listing, u: seq<State>) returns (t: seq<State>)
    requires v in s.vitros && GetsTo(s, u, v, At(s, v, at, Some(v), s.dirs))
    requires (at.DestroyRemoving? && at.rest.None?) || at.PromoteConverted? || (at.RunRemoving? && at.locked)
    requires dirs == Without(s.dirs, at.name)
    ensures GetsTo(s, t, v, At(s, v, Finished, None, dirs))
  {
    var a, b, c := At(s, v, at, Some(v), s.dirs), At(s, v, Leaving, Some(v), dirs), At(s, v, Finished, None, dirs);
    Onwards(s, v, at, Some(v), s.dirs, b);
    assert DestroyStep(a, b, v, at) || PromoteStep(a, b, v, at) || RunStep(a, b, v, at);
    t := Then(s, u, v, a, b);
    Onwards(s, v, Leaving, Some(v), dirs, c);
    t := Then(s, t, v, b, c);
  }

  lemma PromoteLocks(s: State, v: nat, name: string, p: Process) returns (u: seq<State>)
    requires v in s.vitros && s.vitros[v] == PromotePreparing(name) && s.lock.None?
    requires name in s.dirs && s.dirs[name] == Some(p)
    ensures GetsTo(s, u, v, At(s, v, PromoteShutting(name, p), Some(v), s.dirs))
  {
    var a := At(s, v, PromoteLocking(name, p), None, s.dirs);
    var b := At(s, v, PromoteShutting(name, p), Some(v), s.dirs);
    assert PromoteStep(s, a, v, s.vitros[v]);
    u := Then(s, [s], v, s, a);
    Onwards(s, v, a.vitros[v], None, s.dirs, b);
    assert PromoteStep(a, b, v, a.vitros[v]);
    u := Then(s, u, v, a, b);
  }

  /** `promote` gets a VM with a readable record out of the way when no process has its PID. */
  lemma PromoteGetsThrough(s: State, v: nat, name: string) returns (u: seq<State>)
    requires v in s.vitros && s.vitros[v] == PromotePreparing(name) && s.lock.None?
    requires name in s.dirs && s.dirs[name].Some? && s.dirs[name].value.pid !in s.procs
    ensures GetsTo(s, u, v, Removed(s, v, name))
  {
    var p, dirs := s.dirs[name].value, Removed(s, v, name).dirs;
    var b := At(s, v, PromoteShutting(name, p), Some(v), s.dirs);
    var c := At(s, v, PromoteConverting(name, p), Some(v), s.dirs);
    var d := At(s, v, PromoteConverted(name, p), Some(v), s.dirs);
    u := PromoteLocks(s, v, name, p);
    Onwards(s, v, b.vitros[v], Some(v), s.dirs, c);
    assert PromoteStep(b, c, v, b.vitros[v]);
    u := Then(s, u, v, b, c);
    Onwards(s, v, c.vitros[v], Some(v), s.dirs, d);
    assert PromoteStep(c, d, v, c.vitros[v]);
    u := Then(s, u, v, c, d);
    assert dirs == Without(s.dirs, name);
    u := LastSteps(s, v, d.vitros[v], dirs, u);
  }

  /** A `run` that stops its guest gets the VM out of the way once the guest is not alive; and
      when it never learnt its start time, once no process has its PID. */
  lemma GuardGetsThrough(s: State, v: nat, name: string, guest: Process, known: Option<nat>, locked: bool)
      returns (u: seq<State>)
    requires v in s.vitros && s.vitros[v] == RunStopping(name, guest, known, locked)
    requires locked ==> s.lock == Some(v)
    requires guest.pid !in s.procs || (known.Some? && s.procs[guest.pid] != known.value)
    ensures GetsTo(s, u, v, Removed(s, v, name).(lock := if locked then None else s.lock))
  {
    var dirs := Removed(s, v, name).dirs;
    var a := At(s, v, RunRemoving(name, locked), s.lock, s.dirs);
    assert dirs == Without(s.dirs, name);
    assert RunStep(s, a, v, s.vitros[v]);
    u := Then(s, [s], v, s, a);
    if locked {
      u := LastSteps(s, v, a.vitros[v], dirs, u);
    } else {
      var b := At(s, v, Finished, s.lock, dirs);
      Onwards(s, v, a.vitros[v], s.lock, s.dirs, b);
      assert RunStep(a, b, v, a.vitros[v]);
      u := Then(s, u, v, a, b);
    }
  }
}
