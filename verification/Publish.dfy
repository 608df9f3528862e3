/** Publishing a macOS golden image with lume (`src/commands/build.rs`): the new image is
    built under a staging name, the old one is moved aside, the new one takes its place, and
    a failure puts the old one back. Any lume command may fail, and then have happened in
    full, in half or not at all. */
module Publish {
  datatype Image = Complete(id: nat) | Broken

  type World = map<string, Image>   // lume's VMs by name

  /** How a command turns out. Only `Done` is success. */
  datatype Fate = Done | DoneButFailed | Half | Nothing

  function Previous(golden: string): string { golden + "-previous" }
  function Staging(golden: string): string { golden + "-building" }

  lemma NamesDiffer(golden: string)
    ensures Previous(golden) == golden + "-previous" && Staging(golden) == golden + "-building"
    ensures golden != Previous(golden) && golden != Staging(golden) && Previous(golden) != Staging(golden)
  {
    assert |Previous(golden)| > |golden| && |Staging(golden)| > |golden|;
    assert Previous(golden)[|golden| + 1] == 'p' && Staging(golden)[|golden| + 1] == 'b';
  }

  // ----- Commands -----

  /** `lume delete`: touches at most the VM named. */
  function Delete(w: World, name: string, fate: Fate): (World, bool) {
    if name !in w then (w, false) else
    match fate
    case Done => (w - {name}, true)
    case DoneButFailed => (w - {name}, false)
    case Half => (w[name := Broken], false)
    case Nothing => (w, false)
  }

  /** `lume clone`: refuses a destination that exists and leaves it alone. */
  function Clone(w: World, source: string, target: string, fate: Fate): (World, bool) {
    if target in w || source !in w then (w, false) else
    match fate
    case Done => (w[target := w[source]], true)
    case DoneButFailed => (w[target := w[source]], false)
    case Half => (w[target := Broken], false)
    case Nothing => (w, false)
  }

  // ----- `finish_lume`, from the shutdown of the staging VM -----

  /** What `finish_lume` meets on its way, one entry for each call that can turn out in more
      than one way. `answered` is whether `lume get` answers for a VM that exists. */
  datatype Fates = Fates(onTime: bool, answered: bool, stillOnTime: bool,
    dropPrevious: Fate, backUp: Fate, dropGolden: Fate, publish: Fate,
    dropFailed: Fate, restore: Fate, dropRestored: Fate, dropBackup: Fate, dropStaging: Fate)

  datatype Outcome =
    | Published
    | StagingLeft                // published, but the staging VM could not be deleted
    | Failed
    | BackupKept                 // failed, and the error names the backup

  /** A stretch of commands: the world after each, and how it ends. */
  datatype Run = Run(trace: seq<World>, outcome: Outcome)

  function Last(start: World, trace: seq<World>): World {
    if trace == [] then start else trace[|trace| - 1]
  }

  function Restore(w: World, golden: string, f: Fates): Run {
    var w1 := Delete(w, golden, f.dropFailed).0;
    var (w2, restored) := Clone(w1, Previous(golden), golden, f.restore);
    if restored then Run([w1, w2, Delete(w2, Previous(golden), f.dropRestored).0], Failed)
    else Run([w1, w2], BackupKept)
  }

  function Tidy(w: World, golden: string, hadOne: bool, f: Fates): Run {
    var dropped := if hadOne then [Delete(w, Previous(golden), f.dropBackup).0] else [];
    var (w2, ok) := Delete(Last(w, dropped), Staging(golden), f.dropStaging);
    Run(dropped + [w2], if ok then Published else StagingLeft)
  }

  /** The old image out of the way, the new one in: `published`. */
  function Replace(w: World, golden: string, hadOne: bool, f: Fates): (seq<World>, bool) {
    if !hadOne then
      var (w1, cloned) := Clone(w, Staging(golden), golden, f.publish);
      ([w1], cloned)
    else
      var (w1, dropped) := Delete(w, golden, f.dropGolden);
      if !dropped then ([w1], false) else
      var (w2, cloned) := Clone(w1, Staging(golden), golden, f.publish);
      ([w1, w2], cloned)
  }

  function Exchange(w: World, golden: string, hadOne: bool, f: Fates): Run {
    var (trace, published) := Replace(w, golden, hadOne, f);
    if published then Then(trace, Tidy(Last(w, trace), golden, hadOne, f))
    else if hadOne then Then(trace, Restore(Last(w, trace), golden, f))
    else Run(trace, Failed)
  }

  function Then(trace: seq<World>, r: Run): Run {
    Run(trace + r.trace, r.outcome)
  }

  function Finish(w: World, golden: string, f: Fates): Run {
    if !f.onTime || !f.stillOnTime then Run([], Failed)
    else if golden !in w || !f.answered then Exchange(w, golden, false, f)
    else
      var w1 := Delete(w, Previous(golden), f.dropPrevious).0;
      var (w2, backedUp) := Clone(w1, golden, Previous(golden), f.backUp);
      if backedUp then Then([w1, w2], Exchange(w2, golden, true, f))
      else Run([w1, w2], Failed)
  }

  // ----- The same, as it is carried out -----

  class Lume {
    var vms: World
    ghost var past: seq<World>    // every world there was, the present one last

    constructor (vms: World)
      ensures this.vms == vms && past == [vms]
    {
      this.vms, past := vms, [vms];
    }

    method DeleteVm(name: string, fate: Fate) returns (ok: bool)
      modifies this
      ensures (vms, ok) == Delete(old(vms), name, fate) && past == old(past) + [vms]
    {
      var (after, done) := Delete(vms, name, fate);
      vms, past, ok := after, past + [after], done;
    }

    method CloneVm(source: string, target: string, fate: Fate) returns (ok: bool)
      modifies this
      ensures (vms, ok) == Clone(old(vms), source, target, fate) && past == old(past) + [vms]
    {
      var (after, done) := Clone(vms, source, target, fate);
      vms, past, ok := after, past + [after], done;
    }
  }

  method PutNewInPlace(lume: Lume, golden: string, hadOne: bool, f: Fates) returns (published: bool)
    modifies lume
    ensures lume.past == old(lume.past) + Replace(old(lume.vms), golden, hadOne, f).0
    ensures lume.vms == Last(old(lume.vms), Replace(old(lume.vms), golden, hadOne, f).0)
    ensures published == Replace(old(lume.vms), golden, hadOne, f).1
  {
    if hadOne {
      var dropped := lume.DeleteVm(golden, f.dropGolden);
      if !dropped {
        return false;
      }
    }
    published := lume.CloneVm(Staging(golden), golden, f.publish);
  }

  method PutOldBack(lume: Lume, golden: string, f: Fates) returns (outcome: Outcome)
    modifies lume
    ensures lume.past == old(lume.past) + Restore(old(lume.vms), golden, f).trace
    ensures lume.vms == Last(old(lume.vms), Restore(old(lume.vms), golden, f).trace)
    ensures outcome == Restore(old(lume.vms), golden, f).outcome
  {
    var _ := lume.DeleteVm(golden, f.dropFailed);
    var restored := lume.CloneVm(Previous(golden), golden, f.restore);
    if !restored {
      return BackupKept;
    }
    var _ := lume.DeleteVm(Previous(golden), f.dropRestored);
    outcome := Failed;
  }

  method TidyUp(lume: Lume, golden: string, hadOne: bool, f: Fates) returns (outcome: Outcome)
    modifies lume
    ensures lume.past == old(lume.past) + Tidy(old(lume.vms), golden, hadOne, f).trace
    ensures lume.vms == Last(old(lume.vms), Tidy(old(lume.vms), golden, hadOne, f).trace)
    ensures outcome == Tidy(old(lume.vms), golden, hadOne, f).outcome
  {
    if hadOne {
      var _ := lume.DeleteVm(Previous(golden), f.dropBackup);
    }
    var dropped := lume.DeleteVm(Staging(golden), f.dropStaging);
    outcome := if dropped then Published else StagingLeft;
  }

  method PublishStaging(lume: Lume, golden: string, hadOne: bool, f: Fates) returns (outcome: Outcome)
    modifies lume
    ensures lume.past == old(lume.past) + Exchange(old(lume.vms), golden, hadOne, f).trace
    ensures lume.vms == Last(old(lume.vms), Exchange(old(lume.vms), golden, hadOne, f).trace)
    ensures outcome == Exchange(old(lume.vms), golden, hadOne, f).outcome
  {
    var published := PutNewInPlace(lume, golden, hadOne, f);
    if published {
      outcome := TidyUp(lume, golden, hadOne, f);
    } else if hadOne {
      outcome := PutOldBack(lume, golden, f);
    } else {
      outcome := Failed;
    }
  }

  /** Every world it goes through, and what it answers, are those of `Finish`. */
  method FinishLume(lume: Lume, golden: string, f: Fates) returns (outcome: Outcome)
    modifies lume
    ensures lume.past == old(lume.past) + Finish(old(lume.vms), golden, f).trace
    ensures lume.vms == Last(old(lume.vms), Finish(old(lume.vms), golden, f).trace)
    ensures outcome == Finish(old(lume.vms), golden, f).outcome
  {
    if !f.onTime {
      return Failed;
    }
    var hadOne := golden in lume.vms && f.answered;
    if !f.stillOnTime {
      return Failed;
    }
    if hadOne {
      var _ := lume.DeleteVm(Previous(golden), f.dropPrevious);
      var backedUp := lume.CloneVm(golden, Previous(golden), f.backUp);
      if !backedUp {
        return Failed;
      }
    }
    outcome := PublishStaging(lume, golden, hadOne, f);
  }

  // ----- What one build keeps -----

  predicate Holds(w: World, name: string, id: nat) {
    name in w && w[name] == Complete(id)
  }

  /** The old image is complete under one of its names, or the new one is published. */
  predicate IsSafe(w: World, golden: string, was: nat, made: nat) {
    Holds(w, golden, was) || Holds(w, Previous(golden), was) || Holds(w, golden, made)
  }

  predicate StaysSafe(trace: seq<World>, golden: string, was: nat, made: nat) {
    forall w :: w in trace ==> IsSafe(w, golden, was, made)
  }

  /** The image in use: the golden one, or its backup when there is no golden one. */
  predicate InUse(w: World, golden: string, id: nat) {
    Holds(w, golden, id) || (golden !in w && Holds(w, Previous(golden), id))
  }

  /** What an outcome says about where the images are. */
  predicate IsTold(w: World, golden: string, outcome: Outcome, was: nat, made: nat, hadOne: bool) {
    match outcome
    case Published => Holds(w, golden, made) && Staging(golden) !in w
    case StagingLeft => Holds(w, golden, made)
    case Failed => Holds(w, if hadOne then golden else Previous(golden), was)
    case BackupKept => Holds(w, Previous(golden), was)
  }

  lemma ReplaceIsSafe(w: World, golden: string, f: Fates, was: nat, made: nat)
    requires Holds(w, Previous(golden), was) && Holds(w, Staging(golden), made)
    ensures StaysSafe(Replace(w, golden, true, f).0, golden, was, made)
    ensures Holds(Last(w, Replace(w, golden, true, f).0), Previous(golden), was)
    ensures Replace(w, golden, true, f).1 ==> Holds(Last(w, Replace(w, golden, true, f).0), golden, made)
  {
    NamesDiffer(golden);
  }

  lemma RestoreIsSafe(w: World, golden: string, f: Fates, was: nat, made: nat)
    requires Holds(w, Previous(golden), was)
    ensures var r := Restore(w, golden, f);
            StaysSafe(r.trace, golden, was, made) && IsTold(Last(w, r.trace), golden, r.outcome, was, made, true)
  {
    NamesDiffer(golden);
  }

  lemma TidyIsSafe(w: World, golden: string, hadOne: bool, f: Fates, was: nat, made: nat)
    requires Holds(w, golden, made)
    ensures var r := Tidy(w, golden, hadOne, f);
            StaysSafe(r.trace, golden, was, made) && IsTold(Last(w, r.trace), golden, r.outcome, was, made, true)
  {
    NamesDiffer(golden);
  }

  /** Once the backup is complete, the exchange never leaves without a complete image, and
      its outcome tells where it is. */
  lemma ExchangeIsSafe(w: World, golden: string, f: Fates, was: nat, made: nat)
    requires Holds(w, Previous(golden), was) && Holds(w, Staging(golden), made)
    ensures var r := Exchange(w, golden, true, f);
            StaysSafe(r.trace, golden, was, made) && IsTold(Last(w, r.trace), golden, r.outcome, was, made, true)
  {
    var (trace, published) := Replace(w, golden, true, f);
    ReplaceIsSafe(w, golden, f, was, made);
    if published {
      TidyIsSafe(Last(w, trace), golden, true, f, was, made);
    } else {
      RestoreIsSafe(Last(w, trace), golden, f, was, made);
    }
  }

  /** Without an old image under `golden` nothing touches the backup; and one that `lume get`
      did not answer for is safe, for `lume clone` refuses to replace it. */
  lemma FirstExchangeIsSafe(w: World, golden: string, f: Fates, was: nat, made: nat)
    requires InUse(w, golden, was) && Holds(w, Staging(golden), made)
    ensures var r := Exchange(w, golden, false, f);
            StaysSafe(r.trace, golden, was, made)
            && IsTold(Last(w, r.trace), golden, r.outcome, was, made, golden in w)
  {
    NamesDiffer(golden);
    var (trace, published) := Replace(w, golden, false, f);
    if published {
      TidyIsSafe(Last(w, trace), golden, false, f, was, made);
    }
  }

  lemma MovedAside(w: World, golden: string, f: Fates, was: nat, made: nat)
    requires Holds(w, golden, was) && Holds(w, Staging(golden), made)
    ensures var w1 := Delete(w, Previous(golden), f.dropPrevious).0;
            var (w2, ok) := Clone(w1, golden, Previous(golden), f.backUp);
            Holds(w1, golden, was) && Holds(w2, golden, was) && Holds(w2, Staging(golden), made)
            && (ok ==> Holds(w2, Previous(golden), was))
  {
    NamesDiffer(golden);
  }

  /** Whatever fails, in full or in half: at every step of publishing over an image in use
      that image is complete under `golden` or its backup name, or the new one is complete
      under `golden`. Success means `golden` is the new image; a failed restore means the
      backup is the old one; any other failure that the image in use is still that. */
  lemma FinishIsSafe(w: World, golden: string, f: Fates, was: nat, made: nat)
    requires InUse(w, golden, was) && Holds(w, Staging(golden), made)
    ensures var r := Finish(w, golden, f);
            StaysSafe(r.trace, golden, was, made)
            && IsTold(Last(w, r.trace), golden, r.outcome, was, made, golden in w)
  {
    if f.onTime && f.stillOnTime {
      if golden !in w || !f.answered {
        FirstExchangeIsSafe(w, golden, f, was, made);
      } else {
        var w1 := Delete(w, Previous(golden), f.dropPrevious).0;
        var (w2, backedUp) := Clone(w1, golden, Previous(golden), f.backUp);
        MovedAside(w, golden, f, was, made);
        if backedUp {
          ExchangeIsSafe(w2, golden, f, was, made);
        }
      }
    }
  }

  /** Everything that publishing depends on goes well. */
  predicate Succeeds(w: World, golden: string, f: Fates) {
    && f.onTime && f.stillOnTime && f.publish == Done
    && (golden in w ==>
         && f.answered && f.backUp == Done && f.dropGolden == Done
         && (Previous(golden) in w ==> f.dropPrevious == Done || f.dropPrevious == DoneButFailed))
  }

  lemma ExchangeSucceedsExactly(w: World, golden: string, hadOne: bool, f: Fates)
    requires Staging(golden) in w
    ensures Exchange(w, golden, hadOne, f).outcome in {Published, StagingLeft} <==>
            f.publish == Done && if hadOne then golden in w && f.dropGolden == Done else golden !in w
    ensures Exchange(w, golden, hadOne, f).outcome == Published <==>
            f.dropStaging == Done && Exchange(w, golden, hadOne, f).outcome in {Published, StagingLeft}
  {
    NamesDiffer(golden);
    var (trace, published) := Replace(w, golden, hadOne, f);
    assert published <==> f.publish == Done && if hadOne then golden in w && f.dropGolden == Done else golden !in w;
  }

  /** A build publishes exactly when everything that it depends on goes well. */
  lemma PublishesExactly(w: World, golden: string, f: Fates)
    requires Staging(golden) in w
    ensures Finish(w, golden, f).outcome in {Published, StagingLeft} <==> Succeeds(w, golden, f)
    ensures Finish(w, golden, f).outcome == Published <==> Succeeds(w, golden, f) && f.dropStaging == Done
  {
    NamesDiffer(golden);
    if f.onTime && f.stillOnTime {
      if golden !in w || !f.answered {
        ExchangeSucceedsExactly(w, golden, false, f);
      } else {
        var w1 := Delete(w, Previous(golden), f.dropPrevious).0;
        var (w2, backedUp) := Clone(w1, golden, Previous(golden), f.backUp);
        if backedUp {
          ExchangeSucceedsExactly(w2, golden, true, f);
        }
      }
    }
  }

  /** A deletion after which the VM is gone, whatever it answered. */
  predicate Goes(fate: Fate) {
    fate == Done || fate == DoneButFailed
  }

  /** The old image is there, is looked up in time and gets moved aside. */
  predicate MovesAside(w: World, golden: string, f: Fates) {
    && golden in w && f.onTime && f.answered && f.stillOnTime && f.backUp == Done
    && (Previous(golden) in w ==> Goes(f.dropPrevious))
  }

  /** After a failed exchange, the old image gets its name back: nothing holds that name any more,
      or what holds it can be deleted, and the clone goes well. */
  predicate ComesBack(f: Fates) {
    && f.restore == Done
    && (f.dropGolden == DoneButFailed || (f.dropGolden == Done && f.publish == Nothing) || Goes(f.dropFailed))
  }

  lemma RestoresExactly(w: World, golden: string, f: Fates)
    requires Previous(golden) in w
    ensures
      var r := Restore(w, golden, f);
      && (r.outcome == Failed || r.outcome == BackupKept)
      && (r.outcome == Failed <==> f.restore == Done && (golden in w ==> Goes(f.dropFailed)))
      && (Previous(golden) in Last(w, r.trace) <==> r.outcome == BackupKept || !Goes(f.dropRestored))
  {
    NamesDiffer(golden);
  }

  lemma TidiesExactly(w: World, golden: string, f: Fates)
    requires Previous(golden) in w && Staging(golden) in w
    ensures
      var r := Tidy(w, golden, true, f);
      && r.outcome == (if f.dropStaging == Done then Published else StagingLeft)
      && (Previous(golden) in Last(w, r.trace) <==> !Goes(f.dropBackup))
  {
    NamesDiffer(golden);
  }

  /** Over an old image: how the exchange ends, and that the backup is gone after a publication and
      after a restore, unless its deletion did not go through. */
  lemma ExchangeEndsExactly(w: World, golden: string, f: Fates)
    requires golden in w && Previous(golden) in w && Staging(golden) in w
    ensures
      var r := Exchange(w, golden, true, f);
      && r.outcome == (if f.dropGolden == Done && f.publish == Done then
                         if f.dropStaging == Done then Published else StagingLeft
                       else if ComesBack(f) then Failed else BackupKept)
      && (Previous(golden) in Last(w, r.trace) <==>
            r.outcome == BackupKept || !Goes(if r.outcome == Failed then f.dropRestored else f.dropBackup))
  {
    NamesDiffer(golden);
    var (trace, published) := Replace(w, golden, true, f);
    var after := Last(w, trace);
    assert Previous(golden) in after && Staging(golden) in after;
    assert golden in after <==> !(f.dropGolden == DoneButFailed || (f.dropGolden == Done && f.publish == Nothing));
    if published {
      TidiesExactly(after, golden, f);
    } else {
      RestoresExactly(after, golden, f);
    }
  }

  /** How a build over an old image ends, and what is left of its backup. */
  lemma EndsExactly(w: World, golden: string, f: Fates)
    requires MovesAside(w, golden, f) && Staging(golden) in w
    ensures
      var r := Finish(w, golden, f);
      && r.outcome == (if f.dropGolden == Done && f.publish == Done then
                         if f.dropStaging == Done then Published else StagingLeft
                       else if ComesBack(f) then Failed else BackupKept)
      && (Previous(golden) in Last(w, r.trace) <==>
            r.outcome == BackupKept || !Goes(if r.outcome == Failed then f.dropRestored else f.dropBackup))
  {
    NamesDiffer(golden);
    var w1 := Delete(w, Previous(golden), f.dropPrevious).0;
    var (w2, backedUp) := Clone(w1, golden, Previous(golden), f.backUp);
    assert backedUp && golden in w2 && Previous(golden) in w2 && Staging(golden) in w2;
    ExchangeEndsExactly(w2, golden, f);
  }

  const SMOOTH := Fates(true, true, true, Done, Done, Done, Done, Done, Done, Done, Done, Done)

  /** Over a golden VM that is not the complete old image, the first thing that happens is
      that the backup goes. */
  lemma BackupGoes(w: World, golden: string, was: nat, made: nat)
    requires golden in w && !Holds(w, golden, was) && !Holds(w, golden, made) && Holds(w, Previous(golden), was)
    ensures !StaysSafe(Finish(w, golden, SMOOTH).trace, golden, was, made)
  {
    NamesDiffer(golden);
    var w1 := Delete(w, Previous(golden), SMOOTH.dropPrevious).0;
    assert Finish(w, golden, SMOOTH).trace[0] == w1;
    assert !IsSafe(w1, golden, was, made);
  }

  /** Exactly when the old image is the one in use is it safe, whatever happens. It is not
      when `golden` holds something else, such as the half of a clone, and the old image is
      only its backup. */
  lemma SafeExactlyWhenInUse(w: World, golden: string, was: nat, made: nat)
    requires Holds(w, golden, was) || Holds(w, Previous(golden), was)
    requires Holds(w, Staging(golden), made) && !Holds(w, golden, made)
    ensures (forall f: Fates :: StaysSafe(Finish(w, golden, f).trace, golden, was, made)) <==> InUse(w, golden, was)
  {
    if InUse(w, golden, was) {
      forall f: Fates
        ensures StaysSafe(Finish(w, golden, f).trace, golden, was, made)
      {
        FinishIsSafe(w, golden, f, was, made);
      }
    } else {
      BackupGoes(w, golden, was, made);
    }
  }

  // ----- Builds, one after another -----

  /** `build_lume`: `prepared` is whether the new VM starts, takes the key, runs its provision
      script and shuts down; `keep` is `--keep-failed`. */
  datatype Build = Build(id: nat, dropStale: Fate, create: Fate, prepared: bool, finish: Fates, keep: bool, cleanUp: Fate)

  /** `lume create`: like a clone, refuses a name that is taken. */
  function Create(w: World, name: string, id: nat, fate: Fate): (World, bool) {
    if name in w then (w, false) else
    match fate
    case Done => (w[name := Complete(id)], true)
    case DoneButFailed => (w[name := Complete(id)], false)
    case Half => (w[name := Broken], false)
    case Nothing => (w, false)
  }

  function BuildLume(w: World, golden: string, b: Build): Run {
    var w1 := Delete(w, Staging(golden), b.dropStale).0;
    var (w2, created) := Create(w1, Staging(golden), b.id, b.create);
    var r := if created && b.prepared then Finish(w2, golden, b.finish) else Run([], Failed);
    if r.outcome == Published || b.keep then Then([w1, w2], r)
    else Run([w1, w2] + r.trace + [Delete(Last(w2, r.trace), Staging(golden), b.cleanUp).0], r.outcome)
  }

  /** Commands that touch `golden` happen in full or not at all. */
  predicate IsAtomic(f: Fates) {
    f.dropGolden != Half && f.publish != Half && f.dropFailed != Half && f.restore != Half
  }

  lemma StagingIsAside(w: World, golden: string, fate: Fate)
    ensures var w' := Delete(w, Staging(golden), fate).0;
            && (golden in w' <==> golden in w) && (Previous(golden) in w' <==> Previous(golden) in w)
            && (golden in w ==> w'[golden] == w[golden])
            && (Previous(golden) in w ==> w'[Previous(golden)] == w[Previous(golden)])
  {
    NamesDiffer(golden);
  }

  /** A whole build is as safe, with its staging VM and its cleaning up. */
  lemma BuildIsSafe(w: World, golden: string, b: Build, was: nat)
    requires InUse(w, golden, was)
    ensures StaysSafe(BuildLume(w, golden, b).trace, golden, was, b.id)
  {
    NamesDiffer(golden);
    var w1 := Delete(w, Staging(golden), b.dropStale).0;
    StagingIsAside(w, golden, b.dropStale);
    var (w2, created) := Create(w1, Staging(golden), b.id, b.create);
    assert InUse(w2, golden, was);
    var r := if created && b.prepared then Finish(w2, golden, b.finish) else Run([], Failed);
    if created && b.prepared {
      FinishIsSafe(w2, golden, b.finish, was, b.id);
    }
    var last := Last(w2, r.trace);
    assert IsSafe(last, golden, was, b.id);
    StagingIsAside(last, golden, b.cleanUp);
  }

  predicate IsWhole(w: World, golden: string, was: nat, made: nat) {
    golden in w ==> w[golden] == Complete(was) || w[golden] == Complete(made)
  }

  lemma ReplaceIsWhole(w: World, golden: string, hadOne: bool, f: Fates, was: nat, made: nat)
    requires IsAtomic(f) && IsWhole(w, golden, was, made) && Holds(w, Staging(golden), made)
    ensures IsWhole(Last(w, Replace(w, golden, hadOne, f).0), golden, was, made)
  {
    NamesDiffer(golden);
  }

  lemma RestoreIsWhole(w: World, golden: string, f: Fates, was: nat, made: nat)
    requires IsAtomic(f) && IsWhole(w, golden, was, made) && Holds(w, Previous(golden), was)
    ensures IsWhole(Last(w, Restore(w, golden, f).trace), golden, was, made)
  {
    NamesDiffer(golden);
  }

  lemma TidyIsWhole(w: World, golden: string, hadOne: bool, f: Fates, was: nat, made: nat)
    requires IsWhole(w, golden, was, made)
    ensures IsWhole(Last(w, Tidy(w, golden, hadOne, f).trace), golden, was, made)
  {
    NamesDiffer(golden);
  }

  lemma ExchangeIsWhole(w: World, golden: string, hadOne: bool, f: Fates, was: nat, made: nat)
    requires IsAtomic(f) && IsWhole(w, golden, was, made) && Holds(w, Staging(golden), made)
    requires hadOne ==> Holds(w, Previous(golden), was)
    ensures IsWhole(Last(w, Exchange(w, golden, hadOne, f).trace), golden, was, made)
  {
    var (trace, published) := Replace(w, golden, hadOne, f);
    ReplaceIsWhole(w, golden, hadOne, f, was, made);
    if published {
      TidyIsWhole(Last(w, trace), golden, hadOne, f, was, made);
    } else if hadOne {
      ReplaceIsSafe(w, golden, f, was, made);
      RestoreIsWhole(Last(w, trace), golden, f, was, made);
    }
  }

  /** When commands on `golden` are atomic, the image in use afterwards is the old or the new. */
  lemma FinishLeavesOneInUse(w: World, golden: string, f: Fates, was: nat, made: nat)
    requires IsAtomic(f) && InUse(w, golden, was) && Holds(w, Staging(golden), made)
    ensures var last := Last(w, Finish(w, golden, f).trace);
            InUse(last, golden, was) || InUse(last, golden, made)
  {
    FinishIsSafe(w, golden, f, was, made);
    if f.onTime && f.stillOnTime {
      if golden !in w || !f.answered {
        ExchangeIsWhole(w, golden, false, f, was, made);
      } else {
        MovedAside(w, golden, f, was, made);
        var w1 := Delete(w, Previous(golden), f.dropPrevious).0;
        var (w2, backedUp) := Clone(w1, golden, Previous(golden), f.backUp);
        if backedUp {
          ExchangeIsWhole(w2, golden, true, f, was, made);
        }
      }
    }
  }

  lemma BuildLeavesOneInUse(w: World, golden: string, b: Build, was: nat) returns (next: nat)
    requires IsAtomic(b.finish) && InUse(w, golden, was)
    ensures InUse(Last(w, BuildLume(w, golden, b).trace), golden, next) && (next == was || next == b.id)
  {
    NamesDiffer(golden);
    var w1 := Delete(w, Staging(golden), b.dropStale).0;
    StagingIsAside(w, golden, b.dropStale);
    var (w2, created) := Create(w1, Staging(golden), b.id, b.create);
    var r := if created && b.prepared then Finish(w2, golden, b.finish) else Run([], Failed);
    if created && b.prepared {
      FinishLeavesOneInUse(w2, golden, b.finish, was, b.id);
    }
    var last := Last(w2, r.trace);
    next := if InUse(last, golden, was) then was else b.id;
    StagingIsAside(last, golden, b.cleanUp);
  }

  /** Every world that builds, one after another, go through. */
  function BuildAll(w: World, golden: string, builds: seq<Build>): seq<World>
    decreases |builds|
  {
    if builds == [] then [] else
      var trace := BuildLume(w, golden, builds[0]).trace;
      trace + BuildAll(Last(w, trace), golden, builds[1..])
  }

  ghost predicate ServesOne(w: World, golden: string, ids: set<nat>) {
    exists id :: id in ids && (Holds(w, golden, id) || Holds(w, Previous(golden), id))
  }

  ghost function Ids(builds: seq<Build>): set<nat> {
    set b | b in builds :: b.id
  }

  /** Over any number of builds, failing or not, there is a complete image at every step: the
      one there was, or one that a build made. */
  lemma {:induction false} BuildsNeverGoWithout(w: World, golden: string, builds: seq<Build>, was: nat, ids: set<nat>)
    requires forall b :: b in builds ==> IsAtomic(b.finish)
    requires InUse(w, golden, was) && was in ids && Ids(builds) <= ids
    ensures forall w' :: w' in BuildAll(w, golden, builds) ==> ServesOne(w', golden, ids)
    decreases |builds|
  {
    if builds != [] {
      var b := builds[0];
      assert b.id in Ids(builds);
      var trace := BuildLume(w, golden, b).trace;
      BuildIsSafe(w, golden, b, was);
      forall w' | w' in trace
        ensures ServesOne(w', golden, ids)
      {
        assert IsSafe(w', golden, was, b.id);
        if Holds(w', golden, b.id) {
        }
      }
      var next := BuildLeavesOneInUse(w, golden, b, was);
      assert Ids(builds[1..]) <= Ids(builds);
      BuildsNeverGoWithout(Last(w, trace), golden, builds[1..], next, ids);
    }
  }

  // ----- What commands that half happen can do -----

  /** A build whose publishing and restoring both stop half-way. */
  const UNLUCKY := SMOOTH.(publish := Half, dropFailed := Nothing)

  function Smoothly(id: nat, f: Fates): Build {
    Build(id, Done, Done, true, f, false, Done)
  }

  lemma LeavesHalf(golden: string, id: nat, first: nat)
    ensures var r := BuildLume(map[golden := Complete(id)], golden, Smoothly(first, UNLUCKY));
            && r.outcome == BackupKept
            && Last(map[golden := Complete(id)], r.trace) == map[golden := Broken, Previous(golden) := Complete(id)]
  {
    NamesDiffer(golden);
    var g, p, t := golden, Previous(golden), Staging(golden);
    var w := map[g := Complete(id), t := Complete(first)];
    var w1 := map[g := Complete(id), t := Complete(first), p := Complete(id)];
    var w2 := map[t := Complete(first), p := Complete(id)];
    var w3 := map[g := Broken, t := Complete(first), p := Complete(id)];
    assert Clone(w, g, p, Done) == (w1, true);
    assert w1 - {g} == w2 && g !in w2;
    assert Delete(w1, g, Done) == (w2, true);
    assert w2[g := Broken] == w3;
    assert Clone(w2, t, g, Half) == (w3, false);
    assert Replace(w1, g, true, UNLUCKY) == ([w2, w3], false);
    assert Restore(w3, g, UNLUCKY) == Run([w3, w3], BackupKept);
    assert Last(w, Finish(w, g, UNLUCKY).trace) == w3;
    assert Delete(w3, t, Done).0 == map[g := Broken, p := Complete(id)];
  }

  lemma LosesBackup(golden: string, id: nat, second: nat, w: World)
    requires w == map[golden := Broken, Previous(golden) := Complete(id)]
    ensures map[golden := Broken, Staging(golden) := Complete(second)] in BuildLume(w, golden, Smoothly(second, SMOOTH)).trace
  {
    NamesDiffer(golden);
    var w2 := w[Staging(golden) := Complete(second)];
    var w3 := map[golden := Broken, Staging(golden) := Complete(second)];
    assert Delete(w2, Previous(golden), Done).0 == w3;
    assert Finish(w2, golden, SMOOTH).trace[0] == w3;
    var r := BuildLume(w, golden, Smoothly(second, SMOOTH));
    assert r.trace[2] == w3;
  }

  /** Two builds are enough to lose the image: the first leaves half a clone under `golden`
      and the image under its backup name, as its error says; the second takes what is under
      `golden` for the image to back up, and deletes the backup to make room for it. */
  lemma SecondBuildLosesTheImage(golden: string, id: nat, first: nat, second: nat)
    ensures exists w :: w in BuildAll(map[golden := Complete(id)], golden, [Smoothly(first, UNLUCKY), Smoothly(second, SMOOTH)])
                        && !ServesOne(w, golden, {id, first, second})
  {
    var builds := [Smoothly(first, UNLUCKY), Smoothly(second, SMOOTH)];
    var start := map[golden := Complete(id)];
    var after := map[golden := Broken, Previous(golden) := Complete(id)];
    var lost := map[golden := Broken, Staging(golden) := Complete(second)];
    LeavesHalf(golden, id, first);
    LosesBackup(golden, id, second, after);
    NamesDiffer(golden);
    assert builds[1..] == [builds[1]];
    assert lost in BuildAll(after, golden, builds[1..]);
    assert lost in BuildAll(start, golden, builds);
    assert !ServesOne(lost, golden, {id, first, second});
  }
}
