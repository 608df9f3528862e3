/** `promote` for a QEMU VM, as one vitro process carries it out (`src/commands/promote.rs`,
    `src/golden.rs`). */
module Promotion {
  import opened Wrappers
  import opened Lifecycle
  import opened Store
  import opened Commands

  const POWER_BUTTON_TIMEOUT := 60_000
  const SHUTDOWN_TIMEOUT := 180_000

  /** A file in the golden directory: a whole flattened disk of a VM, or part of one. */
  datatype Picture = Whole(vm: string) | Part

  class Shelf {
    var files: map<string, Picture>
    ghost var past: seq<map<string, Picture>>   // every state so far, the present one last

    constructor (files: map<string, Picture>)
      ensures this.files == files && past == [files]
    {
      this.files, past := files, [files];
    }

    method Become(files: map<string, Picture>)
      modifies this
      ensures this.files == files && past == old(past) + [files]
    {
      this.files, past := files, past + [files];
    }
  }

  /** How the steps of `install` turn out; `begun` is whether a failed conversion leaves part
      of a file, `cleaned` whether the staging file can be removed after a failure. */
  datatype Luck = Luck(converted: bool, begun: bool, checked: bool, moved: bool, cleaned: bool)

  predicate SamePlace(a: map<string, Picture>, b: map<string, Picture>, name: string) {
    (name in a <==> name in b) && (name in a ==> a[name] == b[name])
  }

  /** In every state since `first` the destination is as it was, or the whole new image. */
  ghost predicate NeverPartial(past: seq<map<string, Picture>>, first: nat, destination: string, was: map<string, Picture>, vm: string) {
    forall i :: first <= i < |past| ==>
      SamePlace(was, past[i], destination) || (destination in past[i] && past[i][destination] == Whole(vm))
  }

  /** Flattens the disk of a VM into `destination`: beside it first, then in one step. What is
      not the destination or its staging file is not touched. A failure leaves the destination as
      it was, and no staging file unless that cannot be removed. */
  method Install(shelf: Shelf, vm: string, destination: string, staging: string, luck: Luck) returns (ok: bool)
    requires staging != destination
    modifies shelf
    ensures ok <==> luck.converted && luck.checked && luck.moved
    ensures ok ==> shelf.files == (old(shelf.files) - {staging})[destination := Whole(vm)]
    ensures !ok ==> shelf.files - {staging} == old(shelf.files) - {staging}
    ensures !ok && luck.cleaned ==> staging !in shelf.files
    ensures !ok && staging in shelf.files && !SamePlace(old(shelf.files), shelf.files, staging) ==>
      shelf.files[staging] == if luck.converted then Whole(vm) else Part
    ensures |old(shelf.past)| <= |shelf.past| && shelf.past[..|old(shelf.past)|] == old(shelf.past)
    ensures NeverPartial(shelf.past, |old(shelf.past)|, destination, old(shelf.files), vm)
  {
    ghost var was := shelf.files;
    if luck.converted || luck.begun {
      shelf.Become(shelf.files[staging := if luck.converted then Whole(vm) else Part]);
    }
    ok := luck.converted && luck.checked && luck.moved;
    if ok {
      shelf.Become(shelf.files[destination := shelf.files[staging]] - {staging});
      assert shelf.files == (was - {staging})[destination := Whole(vm)];
    } else if luck.cleaned {
      shelf.Become(shelf.files - {staging});
    }
  }

  /** Asks by the power button first, where the guest has one, then over SSH, and waits until
      no process has the PID any more. */
  method ShutDown(host: Host, pid: nat, button: bool) returns (gone: bool, ghost seen: nat)
    modifies host`now
    ensures old(host.now) <= seen <= host.now
    ensures gone <==> pid !in host.table(seen)
    ensures !gone && !(exists m :: old(host.now) <= m <= host.now && host.interrupted(m)) ==>
      host.now >= old(host.now) + 180_000 + if button then 60_000 else 0
  {
    ghost var first := host.now;
    if button {
      gone, seen := host.Wait(POWER_BUTTON_TIMEOUT, pid, None, true);
      if gone {
        return;
      }
      assert host.interrupted(host.now) || host.now >= first + POWER_BUTTON_TIMEOUT;
    }
    ghost var asked := host.now;
    gone, seen := host.Wait(SHUTDOWN_TIMEOUT, pid, None, true);
    assert gone || host.interrupted(host.now) || host.now >= asked + SHUTDOWN_TIMEOUT;
  }

  /** A look showed no process with that PID, and after it there was no Ctrl-C yet. */
  ghost predicate MayCopy(host: Host, pid: nat, first: nat)
    reads host
  {
    exists m, n :: first <= m <= n <= host.now && pid !in host.table(m) && !host.interrupted(n)
  }

  /** The guest is shut down and nobody asked to stop: its disk can be copied. */
  method Quiesce(host: Host, record: Process, button: bool) returns (ok: bool)
    modifies host`now
    ensures host.now >= old(host.now)
    ensures ok ==> MayCopy(host, record.pid, old(host.now)) && SeenDead(host.table, old(host.now), host.now, record)
    ensures !ok ==> exists m :: old(host.now) <= m <= host.now && (record.pid in host.table(m) || host.interrupted(m))
  {
    ghost var seen;
    ok, seen := ShutDown(host, record.pid, button);
    if ok {
      assert !LiveIn(host.table(seen), record);
      ok := !host.interrupted(host.now);
    }
  }

  /** The VM goes, or is begun with, only once its disk is a whole image at the destination,
      and its disk was copied only once its process was gone. */
  method Promote(host: Host, store: Store, shelf: Shelf, vm: string, record: Process, destination: string, staging: string,
                 force: bool, keep: bool, button: bool, luck: Luck)
      returns (ok: bool)
    requires !store.locked && staging != destination
    requires vm in store.dirs && store.dirs[vm] == Some(record)
    modifies host`now, store`dirs, store`begun, store`locked, shelf
    ensures !store.locked
    ensures destination in old(shelf.files) && !force ==> !ok && shelf.files == old(shelf.files)
    ensures !ok ==> FailsToRemove(old(store.dirs), store.dirs, vm)
    ensures store.begun == old(store.begun) || (!ok && store.stuck(vm) && store.begun == old(store.begun) + [vm])
    ensures store.dirs != old(store.dirs) || store.begun != old(store.begun) ==>
      && !keep && destination in shelf.files && shelf.files[destination] == Whole(vm)
      && SeenDead(host.table, old(host.now), host.now, record)
    ensures !ok && store.begun == old(store.begun) ==> store.dirs == old(store.dirs)
    ensures !ok ==>
      || (destination in old(shelf.files) && !force) || store.taken
      || (exists m :: old(host.now) <= m <= host.now && (record.pid in host.table(m) || host.interrupted(m)))
      || !luck.converted || !luck.checked || !luck.moved || (!keep && store.stuck(vm))
    ensures shelf.files != old(shelf.files) ==> MayCopy(host, record.pid, old(host.now))
    ensures ok ==> store.dirs == if keep then old(store.dirs) else Without(old(store.dirs), vm)
    ensures ok ==> destination in shelf.files && shelf.files[destination] == Whole(vm)
    ensures shelf.files != old(shelf.files) ==> SeenDead(host.table, old(host.now), host.now, record)
    ensures |old(shelf.past)| <= |shelf.past| && NeverPartial(shelf.past, |old(shelf.past)|, destination, old(shelf.files), vm)
  {
    if destination in shelf.files && !force {
      return false;
    }
    var locked := store.Lock();
    if !locked {
      return false;
    }
    ok := Quiesce(host, record, button);
    if !ok {
      store.Unlock();
      return;
    }
    ok := Install(shelf, vm, destination, staging, luck);
    if ok && !keep {
      var _, _ := host.StopAndWait(record.pid, Some(record.start));
      ok := store.Remove(vm);
    }
    store.Unlock();
  }
}
