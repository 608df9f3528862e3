/** What a listing that fails to read a record does to the VM lifecycle.

    Both reapers take an entry they cannot read for debris (`src/state.rs`, `list`): nothing
    looks at the process before its directory goes. */
module LifecycleReading {
  import opened Wrappers
  import opened Lifecycle
  import opened LifecycleProofs
  import opened LifecycleSafety

  ghost predicate IsContinuation(s: State, u: seq<State>) {
    && u != [] && u[0] == s
    && forall i :: 0 <= i < |u| - 1 ==> Next(u[i], u[i + 1])
  }

  /** However things go on, the record stays while its process lives, provided no further
      listing fails to read it. */
  ghost predicate IsSafeFrom(s: State, name: string, p: Process) {
    forall u: seq<State> :: IsContinuation(s, u) && (name in u[|u| - 1].misread ==> name in s.misread) && Live(u[|u| - 1], p)
      ==> Recorded(u[|u| - 1], name, p)
  }

  /** A listing of the VM directories, by `run` or by `destroy --all`. */
  ghost predicate Lists(s: State, s': State, v: nat, view: Listing) {
    && v in s.vitros
    && (|| (s.vitros[v].RunListing?
            && ListStep(s, s', v, RunReaping(s.vitros[v].name, s.vitros[v].snapshot, view), view))
        || (s.vitros[v] == SweepListing && ListStep(s, s', v, Sweeping(view), view)))
  }

  lemma ListsIsNext(s: State, s': State, v: nat, view: Listing)
    requires Lists(s, s', v, view)
    ensures Next(s, s')
  {
    assert RunStep(s, s', v, s.vitros[v]) || DestroyStep(s, s', v, s.vitros[v]);
    assert VitroStep(s, s', v);
  }

  /** The step after a listing by which its reader removes what it could not read. */
  lemma ReaperRemoves(s: State, s': State, v: nat, view: Listing, name: string)
    requires Lists(s, s', v, view) && name in view && view[name].None?
    ensures exists s'' :: Next(s', s'') && s''.procs == s'.procs && s''.misread == s'.misread && name !in s''.dirs
  {
    var s'': State;
    var rest := Without(view, name);
    if s.vitros[v].RunListing? {
      var RunListing(own, snapshot) := s.vitros[v];
      s'' := Move(s', v, RunReaping(own, snapshot, rest)).(dirs := Without(s'.dirs, name));
      assert ReapStep(s', s'', v, own, snapshot, view, name);
      assert RunStep(s', s'', v, s'.vitros[v]);
    } else {
      s'' := Move(s', v, Sweeping(rest)).(dirs := Without(s'.dirs, name));
      assert SweepStep(s', s'', v, view, name);
      assert DestroyStep(s', s'', v, s'.vitros[v]);
    }
    assert VitroStep(s', s'', v);
    assert Next(s', s'');
  }

  lemma Continued(t: seq<State>, s': State, u: seq<State>)
    requires IsTrace(t) && Next(t[|t| - 1], s') && IsContinuation(s', u)
    ensures IsTrace(t + u)
  {
    var all := t + u;
    forall i | 0 <= i < |all| - 1
      ensures Next(all[i], all[i + 1])
    {
      if i < |t| - 1 {
        assert all[i + 1] == t[i + 1];
      } else if i > |t| - 1 {
        assert all[i + 1] == u[i - |t| + 1];
      }
    }
  }

  lemma ReadIsSafe(t: seq<State>, s': State, v: nat, view: Listing, name: string, p: Process)
    requires IsTrace(t) && Lists(t[|t| - 1], s', v, view)
    requires Recorded(t[|t| - 1], name, p) && name !in s'.misread
    ensures IsSafeFrom(s', name, p)
  {
    ListsIsNext(t[|t| - 1], s', v, view);
    forall u: seq<State> | IsContinuation(s', u) && name !in u[|u| - 1].misread && Live(u[|u| - 1], p)
      ensures Recorded(u[|u| - 1], name, p)
    {
      Continued(t, s', u);
      assert (t + u)[|t|] == s' && (t + u)[|t + u| - 1] == u[|u| - 1];
      RecordOutlivesGuest(t + u, |t|, |t + u| - 1, name, p);
    }
  }

  /** After a listing the record of a live process is safe, whatever anyone does, exactly
      when that listing could read it. */
  lemma SafeExactlyWhenRead(t: seq<State>, s': State, v: nat, view: Listing, name: string, p: Process)
    requires IsTrace(t) && Lists(t[|t| - 1], s', v, view)
    requires Recorded(t[|t| - 1], name, p) && Live(t[|t| - 1], p) && name !in t[|t| - 1].misread
    ensures IsSafeFrom(s', name, p) <==> view[name] == Some(p)
  {
    if view[name] == Some(p) {
      ReadIsSafe(t, s', v, view, name, p);
    } else {
      ReaperRemoves(t[|t| - 1], s', v, view, name);
      var s'' :| Next(s', s'') && s''.procs == s'.procs && s''.misread == s'.misread && name !in s''.dirs;
      var u := [s', s''];
      assert IsContinuation(s', u) && Live(u[|u| - 1], p) && !Recorded(u[|u| - 1], name, p);
    }
  }

  /** So all of them are exactly when it overlooks none. */
  lemma AllSafeExactlyWhenRead(t: seq<State>, s': State, v: nat, view: Listing)
    requires IsTrace(t) && Lists(t[|t| - 1], s', v, view) && t[|t| - 1].misread == {}
    ensures (forall name, p :: Recorded(t[|t| - 1], name, p) && Live(t[|t| - 1], p) ==> IsSafeFrom(s', name, p))
       <==> Overlooked(t[|t| - 1], view) == {}
  {
    var s := t[|t| - 1];
    forall name, p | Recorded(s, name, p) && Live(s, p)
      ensures IsSafeFrom(s', name, p) <==> name !in Overlooked(s, view)
    {
      SafeExactlyWhenRead(t, s', v, view, name, p);
    }
    forall name | name in Overlooked(s, view)
      ensures Recorded(s, name, s.dirs[name].value) && Live(s, s.dirs[name].value)
    {
    }
  }

  // ----- A guest lost that way -----

  /** The machine with a committed guest, and one `destroy --all` at a given point. */
  function Swept(at: Vitro, guest: Process, lock: Option<nat>): State {
    Saved(Finished, guest, lock).(vitros := map[0 := Finished, 1 := at])
  }

  function Sweep(guest: Process): seq<State> {
    [Swept(SweepLocking, guest, None), Swept(SweepListing, guest, Some(1)),
     Swept(Sweeping(map["vm" := None]), guest, Some(1)).(misread := {"vm"}),
     Swept(Sweeping(map[]), guest, Some(1)).(misread := {"vm"}, dirs := map[])]
  }

  lemma SweepBegins(guest: Process)
    ensures Next(Saved(Finished, guest, None), Sweep(guest)[0])
  {
    var s, s' := Saved(Finished, guest, None), Sweep(guest)[0];
    assert s'.vitros == s.vitros[1 := SweepLocking];
    assert BeginStep(s, s', 1, SweepLocking);
  }

  lemma SweepSteps(guest: Process, i: nat)
    requires i < 3
    ensures Next(Sweep(guest)[i], Sweep(guest)[i + 1])
  {
    var s, s' := Sweep(guest)[i], Sweep(guest)[i + 1];
    var view: Listing := map["vm" := None];
    assert s'.vitros == s.vitros[1 := s'.vitros[1]];
    if i == 1 {
      assert Overlooked(s, view) == {"vm"};
      assert ListStep(s, s', 1, Sweeping(view), view);
    } else if i == 2 {
      assert Without(view, "vm") == map[] && Without(s.dirs, "vm") == map[];
      assert SweepStep(s, s', 1, view, "vm");
    }
    assert DestroyStep(s, s', 1, s.vitros[1]);
    assert VitroStep(s, s', 1);
  }

  /** A guest that runs, and that no record, no guard and no report leads to. */
  ghost predicate IsLost(s: State, guest: Process) {
    && guest in s.guests && Live(s, guest)
    && !IsRecorded(s, guest) && !IsGuarded(s, guest) && guest !in s.reported
  }

  lemma SweptIsLost(guest: Process)
    ensures IsLost(Sweep(guest)[3], guest)
  {
  }

  lemma SweepContinues(guest: Process)
    ensures IsContinuation(Sweep(guest)[0], Sweep(guest))
  {
    var u := Sweep(guest);
    forall i | 0 <= i < |u| - 1
      ensures Next(u[i], u[i + 1])
    {
      SweepSteps(guest, i);
    }
  }

  /** One listing that cannot read one record is enough: the guest still runs, and nothing
      vitro has leads to it any more. */
  lemma MisreadLosesAGuest(guest: Process)
    ensures exists t: seq<State> :: IsTrace(t) && IsLost(t[|t| - 1], guest)
  {
    AGuestCanBeMade(guest);
    var made: seq<State> :| IsTrace(made) && made[|made| - 1] == Saved(Finished, guest, None);
    var u := Sweep(guest);
    SweepBegins(guest);
    SweepContinues(guest);
    Continued(made, u[0], u);
    SweptIsLost(guest);
    assert (made + u)[|made + u| - 1] == u[3];
  }
}
