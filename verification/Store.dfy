/** The record store and the host as one vitro process uses them (`src/state.rs`,
    `src/process.rs`). What the process table shows at each moment, when a Ctrl-C comes and
    how long things take is given from outside; a method only moves along the clock. */
module Store {
  import opened Wrappers
  import opened Lifecycle

  const POLL_INTERVAL := 200     // milliseconds
  const TERM_TIMEOUT := 10_000
  const KILL_TIMEOUT := 5_000

  class Host {
    const table: nat -> Table
    const interrupted: nat -> bool
    const pause: nat -> nat      // what a step begun at a moment takes, beyond any sleep
    var now: nat

    constructor (table: nat -> Table, interrupted: nat -> bool, pause: nat -> nat)
      ensures this.table == table && this.interrupted == interrupted && this.pause == pause && now == 0
    {
      this.table, this.interrupted, this.pause, now := table, interrupted, pause, 0;
    }

    /** A fresh look at the process table. */
    method Probe() returns (t: Table)
      modifies this`now
      ensures now == old(now) + pause(old(now)) && t == table(now)
    {
      now := now + pause(now);
      t := table(now);
    }

    method Sleep(length: nat)
      modifies this`now
      ensures now == old(now) + length + pause(old(now))
    {
      now := now + length + pause(now);
    }

    /** A process with that PID and, when it is known, that start time is in the table. */
    ghost predicate IsThere(pid: nat, known: Option<nat>, at: nat) {
      pid in table(at) && (known.None? || table(at)[pid] == known.value)
    }

    /** The moment of the `k`th look after the first of a wait that begins at `from`, with 200
        milliseconds of sleep between them. */
    ghost function LookAt(from: nat, k: nat): nat {
      if k == 0 then from + pause(from)
      else
        var last := LookAt(from, k - 1);
        var woken := last + 200 + pause(last);
        woken + pause(woken)
    }

    /** A look after which a wait sleeps and looks again. */
    ghost predicate LooksAgain(from: nat, timeout: nat, pid: nat, known: Option<nat>, interruptible: bool, at: nat) {
      IsThere(pid, known, at) && at < from + timeout && !(interruptible && interrupted(at))
    }

    /** A wait that begins at `from` ends with the look at `seen`, the first that ends it. */
    ghost predicate IsWait(from: nat, timeout: nat, pid: nat, known: Option<nat>, interruptible: bool, seen: nat) {
      exists k: nat ::
        && seen == LookAt(from, k) && !LooksAgain(from, timeout, pid, known, interruptible, seen)
        && LookedAgain(from, timeout, pid, known, interruptible, k)
    }

    /** So was each of the first `k` looks. */
    ghost predicate LookedAgain(from: nat, timeout: nat, pid: nat, known: Option<nat>, interruptible: bool, k: nat) {
      k > 0 ==> LooksAgain(from, timeout, pid, known, interruptible, LookAt(from, k - 1))
                && LookedAgain(from, timeout, pid, known, interruptible, k - 1)
    }

    lemma WaitEnds(from: nat, timeout: nat, pid: nat, known: Option<nat>, interruptible: bool, k: nat, seen: nat)
      requires seen == LookAt(from, k) && !LooksAgain(from, timeout, pid, known, interruptible, seen)
      requires LookedAgain(from, timeout, pid, known, interruptible, k)
      ensures IsWait(from, timeout, pid, known, interruptible, seen)
    {
    }

    lemma WaitGoesOn(from: nat, timeout: nat, pid: nat, known: Option<nat>, interruptible: bool, k: nat, at: nat)
      requires at == LookAt(from, k) && LooksAgain(from, timeout, pid, known, interruptible, at)
      requires LookedAgain(from, timeout, pid, known, interruptible, k)
      ensures LookedAgain(from, timeout, pid, known, interruptible, k + 1)
      ensures var woken := at + 200 + pause(at); LookAt(from, k + 1) == woken + pause(woken)
    {
    }

    /** Waits for a process to be gone, looking again every `POLL_INTERVAL`. The answer is
        what the last look, at `seen`, showed: the first that does not find the process, that
        comes after the timeout or that, where it counts, comes after a Ctrl-C. */
    method Wait(timeout: nat, pid: nat, known: Option<nat>, interruptible: bool) returns (gone: bool, ghost seen: nat)
      modifies this`now
      ensures old(now) <= seen == now
      ensures gone <==> pid !in table(seen) || (known.Some? && table(seen)[pid] != known.value)
      ensures IsWait(old(now), timeout, pid, known, interruptible, seen)
      ensures !gone ==> now >= old(now) + timeout || (interruptible && interrupted(now))
    {
      var started := now;
      ghost var k: nat, next: nat := 0, now + pause(now);
      while true
        invariant now >= started && now + pause(now) == next == LookAt(started, k)
        invariant LookedAgain(started, timeout, pid, known, interruptible, k)
        decreases started + timeout - now
      {
        var t := Probe();
        seen := now;
        gone := LooksGone(t, pid, known);
        if gone || now - started >= timeout || (interruptible && interrupted(now)) {
          WaitEnds(started, timeout, pid, known, interruptible, k, seen);
          return;
        }
        WaitGoesOn(started, timeout, pid, known, interruptible, k, now);
        Sleep(POLL_INTERVAL);
        k, next := k + 1, now + pause(now);
      }
    }

    /** A stop: ten seconds after asking, then five after insisting that no Ctrl-C cuts short. */
    ghost predicate IsStop(from: nat, pid: nat, known: Option<nat>, asked: nat, seen: nat) {
      && IsWait(from, 10_000, pid, known, true, asked)
      && if IsThere(pid, known, asked) then IsWait(asked, 5_000, pid, known, false, seen) else seen == asked
    }

    /** Asks, then insists: the process is reported gone only when a look showed it gone,
        and reported as still there only after the whole patience for a killed process. */
    method StopAndWait(pid: nat, known: Option<nat>) returns (gone: bool, ghost seen: nat)
      modifies this`now
      ensures old(now) <= seen <= now
      ensures gone <==> pid !in table(seen) || (known.Some? && table(seen)[pid] != known.value)
      ensures exists asked :: IsStop(old(now), pid, known, asked, seen)
      ensures !gone ==> now >= old(now) + 5_000
      ensures !gone && !(exists m :: old(now) <= m <= now && interrupted(m)) ==> now >= old(now) + 15_000
    {
      ghost var from := now;
      gone, seen := Wait(TERM_TIMEOUT, pid, known, true);
      ghost var asked := seen;
      if gone {
        assert IsStop(from, pid, known, asked, seen);
        return;
      }
      assert interrupted(asked) || asked >= old(now) + TERM_TIMEOUT;
      gone, seen := Wait(KILL_TIMEOUT, pid, known, false);
      assert IsStop(from, pid, known, asked, seen);
    }
  }

  /** No process that is gone comes back: a PID may be taken again, but not with the same
      start time. */
  ghost predicate NoneReturns(table: nat -> Table) {
    forall p, k, m, n :: k <= m <= n && LiveIn(table(k), p) && LiveIn(table(n), p) ==> LiveIn(table(m), p)
  }

  class Store {
    var dirs: Listing
    var locked: bool                // whether this process holds the state lock
    ghost var begun: seq<string>    // the directories whose removal was begun and failed
    const stuck: string -> bool     // the directories that cannot be removed
    const torn: string -> bool      // those of them that lose their record in the attempt
    const readable: string -> bool  // the directories whose record, if any, can be read
    const taken: bool               // whether another process holds the lock

    constructor (dirs: Listing, stuck: string -> bool, torn: string -> bool, readable: string -> bool, taken: bool)
      ensures this.dirs == dirs && !locked && begun == []
      ensures this.stuck == stuck && this.torn == torn && this.readable == readable && this.taken == taken
    {
      this.dirs, locked, begun := dirs, false, [];
      this.stuck, this.torn, this.readable, this.taken := stuck, torn, readable, taken;
    }

    /** What reading the record of a directory gives. */
    function Entry(entry: Option<Process>, name: string): Option<Process> {
      if readable(name) then entry else None
    }

    function Listed(dirs: Listing): Listing {
      map n | n in dirs :: Entry(dirs[n], n)
    }

    predicate CanRemove(dirs: Listing, name: string) {
      name !in dirs || !stuck(name)
    }

    /** The directories after an attempt to remove one. */
    function AfterRemoval(dirs: Listing, name: string): Listing {
      if CanRemove(dirs, name) then Without(dirs, name)
      else if torn(name) then dirs[name := None]
      else dirs
    }

    method Lock() returns (ok: bool)
      modifies this`locked
      ensures ok <==> !taken
      ensures locked == (old(locked) || ok)
    {
      ok := !taken;
      if ok {
        locked := true;
      }
    }

    method Unlock()
      modifies this`locked
      ensures !locked
    {
      locked := false;
    }

    /** Missing is success. A failure may have removed part of the directory. */
    method Remove(name: string) returns (ok: bool)
      modifies this`dirs, this`begun
      ensures ok <==> CanRemove(old(dirs), name)
      ensures dirs == AfterRemoval(old(dirs), name)
      ensures begun == if ok then old(begun) else old(begun) + [name]
    {
      ok := name !in dirs || !stuck(name);
      if ok {
        dirs := Without(dirs, name);
      } else {
        begun := begun + [name];
        if torn(name) {
          dirs := dirs[name := None];
        }
      }
    }

    method Save(name: string, record: Process)
      modifies this`dirs
      ensures dirs == old(dirs)[name := Some(record)]
    {
      dirs := dirs[name := Some(record)];
    }

    /** The names of all VM directories, each once. */
    method List() returns (names: seq<string>)
      ensures IsListing(names, dirs)
    {
      names := [];
      var rest := dirs.Keys;
      while rest != {}
        invariant rest <= dirs.Keys
        invariant forall n :: n in names <==> n in dirs && n !in rest
        invariant forall i, j :: 0 <= i < j < |names| ==> names[i] != names[j]
        decreases rest
      {
        var n :| n in rest;
        names, rest := names + [n], rest - {n};
      }
    }
  }

  ghost predicate IsListing(names: seq<string>, dirs: Listing) {
    && (forall n :: n in names <==> n in dirs)
    && (forall i, j :: 0 <= i < j < |names| ==> names[i] != names[j])
  }

  /** What is left of the directories once those listed as stale are gone. */
  function Living(listed: Listing, snapshot: Table): Listing {
    map n | n in listed && !IsStale(listed[n], snapshot) :: listed[n]
  }

  /** What `liveness` makes of a record that can be read: a process with that PID is there, and
      started when the record says. */
  ghost predicate IsAlive(store: Store, dirs: Listing, snapshot: Table, n: string) {
    && n in dirs && store.readable(n) && dirs[n].Some?
    && dirs[n].value.pid in snapshot && snapshot[dirs[n].value.pid] == dirs[n].value.start
  }

  /** Exactly the VMs that are alive are left. */
  ghost predicate OnlyAlive(dirs: Listing, store: Store, was: Listing, snapshot: Table) {
    && (forall n :: n in dirs <==> IsAlive(store, was, snapshot, n))
    && (forall n :: n in dirs ==> dirs[n] == was[n])
  }

  lemma LivingAreAlive(store: Store, was: Listing, snapshot: Table)
    ensures OnlyAlive(Living(store.Listed(was), snapshot), store, was, snapshot)
  {
    assert forall n :: n in was ==> store.Listed(was)[n] == store.Entry(was[n], n);
  }

  /** Every directory that is left is as it was, but for one whose removal failed. */
  ghost predicate IsLeftOf(dirs: Listing, was: Listing, begun: seq<string>) {
    forall n :: n in dirs ==> n in was && (dirs[n] == was[n] || (dirs[n].None? && n in begun))
  }

  /** The directories once some entries of a listing were dealt with, the reaped ones removed. */
  ghost predicate IsReaped(dirs: Listing, was: Listing, reaped: seq<string>) {
    && (forall n :: n in dirs <==> n in was && n !in reaped)
    && (forall n :: n in dirs ==> dirs[n] == was[n])
  }

  lemma ReapedIsLiving(store: Store, dirs: Listing, was: Listing, reaped: seq<string>, snapshot: Table)
    requires IsReaped(dirs, was, reaped)
    requires forall n :: n in reaped <==> n in was && IsStale(store.Listed(was)[n], snapshot)
    ensures dirs == Living(store.Listed(was), snapshot)
  {
    assert forall n :: n in dirs ==> store.Listed(was)[n] == store.Entry(was[n], n);
  }

  /** One entry of a listing: stale ones go. */
  method ReapEntry(store: Store, name: string, snapshot: Table) returns (ok: bool, gone: bool)
    requires name in store.dirs
    modifies store`dirs, store`begun
    ensures ok ==> store.begun == old(store.begun) && gone == IsStale(store.Entry(old(store.dirs)[name], name), snapshot)
    ensures ok ==> store.dirs == if gone then Without(old(store.dirs), name) else old(store.dirs)
    ensures !ok ==> !gone && store.stuck(name) && IsStale(store.Entry(old(store.dirs)[name], name), snapshot)
    ensures !ok ==> store.begun == old(store.begun) + [name] && FailsToRemove(old(store.dirs), store.dirs, name)
  {
    ok, gone := true, false;
    if IsStale(store.Entry(store.dirs[name], name), snapshot) {
      ok := store.Remove(name);
      gone := ok;
    }
  }

  /** Whatever is gone, or may be gone in part, was not seen alive. */
  ghost predicate OnlyDeadAreGone(store: Store, was: Listing, begun: seq<string>, snapshot: Table)
    reads store
  {
    && (forall n :: n in was && n !in store.dirs ==> !IsAlive(store, was, snapshot, n))
    && begun <= store.begun
    && (forall n :: n in store.begun[|begun|..] ==> n in was && !IsAlive(store, was, snapshot, n))
  }

  /** `reap_dead`: with no directory stuck, exactly those stay whose record can be read and
      names a process that the snapshot shows with its start time.
      Otherwise it stops at the first it cannot remove, having begun with none but stale ones. */
  method ReapDead(store: Store, snapshot: Table) returns (ok: bool, reaped: seq<string>)
    modifies store`dirs, store`begun
    ensures ok ==> store.dirs == Living(store.Listed(old(store.dirs)), snapshot) && store.begun == old(store.begun)
    ensures ok ==> OnlyAlive(store.dirs, store, old(store.dirs), snapshot)
    ensures !ok ==> exists n :: n in old(store.dirs) && store.stuck(n) && store.begun == old(store.begun) + [n]
                                && !IsAlive(store, old(store.dirs), snapshot, n)
    ensures forall n :: n in reaped <==> n in old(store.dirs) && n !in store.dirs
    ensures forall n :: n in reaped ==> !IsAlive(store, old(store.dirs), snapshot, n)
    ensures IsLeftOf(store.dirs, old(store.dirs), store.begun)
    ensures OnlyDeadAreGone(store, old(store.dirs), old(store.begun), snapshot)
  {
    reaped := [];
    ghost var before, listed := store.dirs, store.Listed(store.dirs);
    var names := store.List();
    var i := 0;
    while i < |names|
      invariant 0 <= i <= |names| && store.begun == old(store.begun)
      invariant forall n :: n in reaped <==> n in names[..i] && IsStale(listed[n], snapshot)
      invariant IsReaped(store.dirs, before, reaped)
    {
      var name := names[i];
      assert name in names && name !in names[..i];
      var ok, gone := ReapEntry(store, name, snapshot);
      if !ok {
        return false, reaped;
      }
      reaped := if gone then reaped + [name] else reaped;
      i := i + 1;
    }
    assert names[..i] == names;
    ReapedIsLiving(store, store.dirs, before, reaped, snapshot);
    LivingAreAlive(store, before, snapshot);
    ok := true;
  }
}
