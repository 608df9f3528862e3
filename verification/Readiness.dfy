/** Waiting for a guest to answer over SSH (`src/ssh.rs`). What the guest does at each moment
    and how long things take is given from outside. */
module Readiness {
  import opened Wrappers

  const PROBE_INTERVAL: nat := 2_000     // milliseconds
  const AUTH_REFUSAL_GRACE: nat := 60_000

  datatype Answer = Success | Refusal | Silence | CannotRun

  datatype Outcome = Ready | Died | KeyRefused | TimedOut | Broken

  class World {
    const alive: nat -> bool
    const answer: nat -> Answer          // to a probe sent at that moment
    const interrupted: nat -> bool
    const pause: nat -> nat              // what a step begun at a moment takes
    var now: nat

    constructor (alive: nat -> bool, answer: nat -> Answer, interrupted: nat -> bool, pause: nat -> nat)
      ensures this.alive == alive && this.answer == answer && this.interrupted == interrupted && this.pause == pause
      ensures now == 0
    {
      this.alive, this.answer, this.interrupted, this.pause, now := alive, answer, interrupted, pause, 0;
    }

    method Pass(length: nat)
      modifies this
      ensures now >= old(now) + length
    {
      now := now + length + pause(now);
    }
  }

  /** A completed probe: when the guest was last looked at before it, when it was sent, and
      when its answer was there. */
  datatype Probe = Probe(checked: nat, sent: nat, ended: nat)

  type Guest = nat -> bool
  type Server = nat -> Answer

  ghost predicate IsCompleted(alive: Guest, answer: Server, p: Probe, first: nat, last: nat) {
    first <= p.checked <= p.sent <= p.ended <= last && alive(p.checked) && answer(p.sent) != CannotRun
  }

  /** Probes one after another, each of a guest seen alive just before. */
  ghost predicate IsHistory(alive: Guest, answer: Server, probes: seq<Probe>, started: nat, now: nat) {
    && (forall i :: 0 <= i < |probes| ==> IsCompleted(alive, answer, probes[i], started, now))
    && (forall i :: 0 < i < |probes| ==> probes[i - 1].ended <= probes[i].checked)
  }

  /** The probes from `first` on were all refused. */
  ghost predicate IsStreak(answer: Server, probes: seq<Probe>, first: nat) {
    first < |probes| && forall i :: first <= i < |probes| ==> answer(probes[i].sent) == Refusal
  }

  predicate IsLong(probes: seq<Probe>, first: nat)
    requires first < |probes|
  {
    probes[|probes| - 1].ended >= probes[first].ended + 60_000
  }

  /** The latest answers are a streak of refusals as long as the grace period. */
  ghost predicate RefusedLongEnough(answer: Server, probes: seq<Probe>) {
    exists first: nat :: IsStreak(answer, probes, first) && IsLong(probes, first)
  }

  /** Where the streak the latest answers are part of began, if they are refusals. */
  ghost predicate StreakBegan(answer: Server, probes: seq<Probe>, since: Option<nat>, first: nat) {
    if since.None? then probes == [] || answer(probes[|probes| - 1].sent) != Refusal
    else IsStreak(answer, probes, first) && probes[first].ended == since.value
         && (first > 0 ==> answer(probes[first - 1].sent) != Refusal)
  }

  lemma LongestStreak(answer: Server, probes: seq<Probe>, since: Option<nat>, first: nat, alive: Guest, started: nat, now: nat)
    requires StreakBegan(answer, probes, since, first) && IsHistory(alive, answer, probes, started, now)
    ensures RefusedLongEnough(answer, probes) <==>
      since.Some? && probes[|probes| - 1].ended >= since.value + AUTH_REFUSAL_GRACE
  {
    assert since.Some? ==> IsLong(probes, first) == (probes[|probes| - 1].ended >= since.value + AUTH_REFUSAL_GRACE);
    if other: nat :| IsStreak(answer, probes, other) && IsLong(probes, other) {
      if since.Some? {
        assert other >= first;
        EndedInOrder(alive, answer, probes, started, now, first, other);
      }
    }
  }

  lemma {:induction false} EndedInOrder(alive: Guest, answer: Server, probes: seq<Probe>, started: nat, now: nat, i: nat, j: nat)
    requires IsHistory(alive, answer, probes, started, now) && i <= j < |probes|
    ensures probes[i].ended <= probes[j].ended
    decreases j - i
  {
    if i < j {
      assert IsCompleted(alive, answer, probes[j], started, now);
      EndedInOrder(alive, answer, probes, started, now, i, j - 1);
    }
  }

  ghost predicate HasSuccess(answer: Server, probes: seq<Probe>) {
    exists i :: 0 <= i < |probes| && answer(probes[i].sent) == Success
  }

  /** What is left of a deadline, if anything. */
  function Remaining(deadline: Option<nat>, now: nat): Option<nat>
    requires deadline.Some?
  {
    if deadline.value > now then Some(deadline.value - now) else None
  }

  /** Why waiting can end without an answer: a Ctrl-C, the deadline, or an ssh that does not run. */
  ghost predicate IsBroken(world: World, deadline: Option<nat>, first: nat, last: nat) {
    || (exists m :: first <= m <= last && world.interrupted(m))
    || (deadline.Some? && last >= deadline.value)
    || (exists m :: first <= m <= last && world.answer(m) == CannotRun)
  }

  /** One look at the guest and one probe, unless the deadline cuts it short. */
  method Try(world: World, deadline: Option<nat>) returns (alive: bool, answer: Answer, ghost probe: Probe)
    modifies world
    ensures world.now >= old(world.now)
    ensures alive == world.alive(old(world.now))
    ensures !alive ==> world.now == old(world.now)
    ensures alive && answer != CannotRun && deadline.Some? ==> world.now < deadline.value
    ensures alive && answer == CannotRun ==> IsBroken(world, deadline, old(world.now), world.now)
    ensures alive && answer != CannotRun ==>
      probe.checked == old(world.now) && probe.ended == world.now && answer == world.answer(probe.sent)
      && IsCompleted(world.alive, world.answer, probe, old(world.now), world.now)
  {
    probe := Probe(world.now, world.now, world.now);
    alive, answer := world.alive(world.now), CannotRun;
    if !alive || (deadline.Some? && Remaining(deadline, world.now).None?) {
      return;
    }
    var sent := world.now;
    world.Pass(0);
    if deadline.Some? && Remaining(deadline, world.now).None? {
      return;
    }
    answer, probe := world.answer(sent), Probe(sent, sent, world.now);
  }

  /** Each completed probe was followed by a whole interval, or by the end of the deadline. */
  ghost predicate IsPaced(now: nat, started: nat, timeout: nat, deadline: Option<nat>, count: nat) {
    && (count > 0 ==> (count - 1) * PROBE_INTERVAL < timeout)
    && (now >= started + count * PROBE_INTERVAL || (deadline.Some? && now >= deadline.value))
  }

  /** What an answer means after the answers so far, and since when refusals go on. */
  method Judge(ghost alive: Guest, ghost server: Server, answer: Answer, refusingSince: Option<nat>, started: nat, timeout: nat,
               now: nat, ghost probes: seq<Probe>, ghost first: nat, ghost before: nat, ghost probe: Probe)
      returns (verdict: Option<Outcome>, since: Option<nat>, ghost start: nat)
    requires IsWaiting(alive, server, probes, refusingSince, first, started, before) && started <= before <= now
    requires IsCompleted(alive, server, probe, before, now) && probe.ended == now && answer == server(probe.sent)
    ensures IsHistory(alive, server, probes + [probe], started, now)
    ensures verdict == Some(Ready) <==> HasSuccess(server, probes + [probe])
    ensures verdict == Some(KeyRefused) <==> RefusedLongEnough(server, probes + [probe])
    ensures verdict == Some(TimedOut) ==> now - started >= timeout
    ensures verdict.None? ==> now - started < timeout && IsWaiting(alive, server, probes + [probe], since, start, started, now)
    ensures verdict.Some? ==> verdict.value in {Ready, KeyRefused, TimedOut}
  {
    Probed(alive, server, probes, refusingSince, first, started, before, now, probe);
    since, start := None, first;
    if answer == Success {
      return Some(Ready), since, start;
    }
    if answer == Refusal {
      since := refusingSince;
      if since.None? {
        since, start := Some(now), |probes|;
      }
      if now - since.value >= AUTH_REFUSAL_GRACE {
        return Some(KeyRefused), since, start;
      }
    }
    verdict := if now - started >= timeout then Some(TimedOut) else None;
  }

  /** No probe follows a look that shows a Ctrl-C or ends past the deadline. */
  ghost predicate ArePermitted(interrupted: nat -> bool, deadline: Option<nat>, probes: seq<Probe>) {
    forall i :: 0 <= i < |probes| ==>
      !interrupted(probes[i].checked) && (deadline.Some? ==> probes[i].ended < deadline.value)
  }

  /** The readiness loop. `Ready` is the answer to a successful probe of a guest seen alive just
      before it; `KeyRefused` ends a streak of refusals, unbroken for the whole grace period;
      `TimedOut` comes only after the whole timeout; the guest is bothered no more than every
      interval, and not at all after a Ctrl-C. */
  method WaitUntilReachable(world: World, timeout: nat, deadline: Option<nat>)
      returns (outcome: Outcome, ghost probes: seq<Probe>)
    modifies world
    ensures world.now >= old(world.now) && IsHistory(world.alive, world.answer, probes, old(world.now), world.now)
    ensures outcome == Ready <==> HasSuccess(world.answer, probes)
    ensures outcome == Ready ==> world.answer(probes[|probes| - 1].sent) == Success
    ensures outcome == KeyRefused <==> RefusedLongEnough(world.answer, probes)
    ensures outcome == TimedOut ==> probes != [] && probes[|probes| - 1].ended >= old(world.now) + timeout
    ensures outcome == Broken ==> IsBroken(world, deadline, old(world.now), world.now)
    ensures outcome == Died ==> !world.alive(world.now) && !world.interrupted(world.now)
    ensures ArePermitted(world.interrupted, deadline, probes)
    ensures |probes| > 1 ==> (|probes| - 2) * 2_000 < timeout
  {
    var started := world.now;
    probes := [];
    var refusingSince: Option<nat> := None;
    ghost var first: nat := 0;
    while true
      invariant world.now >= started
      invariant IsWaiting(world.alive, world.answer, probes, refusingSince, first, started, world.now)
      invariant IsPaced(world.now, started, timeout, deadline, |probes|)
      invariant ArePermitted(world.interrupted, deadline, probes)
      decreases started + timeout - world.now
    {
      if world.interrupted(world.now) {
        return Broken, probes;
      }
      ghost var before := world.now;
      var alive, answer, probe := Try(world, deadline);
      if !alive {
        return Died, probes;
      }
      if answer == CannotRun {
        return Broken, probes;
      }
      var verdict: Option<Outcome>;
      verdict, refusingSince, first := Judge(world.alive, world.answer, answer, refusingSince, started, timeout, world.now, probes, first, before, probe);
      probes := probes + [probe];
      if verdict.Some? {
        return verdict.value, probes;
      }
      ghost var ended := world.now;
      var rested := Rest(world, deadline);
      if !rested {
        return Broken, probes;
      }
      StillWaiting(world.alive, world.answer, probes, refusingSince, first, started, ended, world.now);
    }
  }

  lemma StillWaiting(alive: Guest, answer: Server, probes: seq<Probe>, since: Option<nat>, first: nat, started: nat, now: nat, later: nat)
    requires IsWaiting(alive, answer, probes, since, first, started, now) && now <= later
    ensures IsWaiting(alive, answer, probes, since, first, started, later)
  {
  }

  /** A whole interval, or what the deadline leaves of it. */
  method Rest(world: World, deadline: Option<nat>) returns (rested: bool)
    modifies world
    ensures rested ==> world.now > old(world.now) && (deadline.Some? ==> old(world.now) < deadline.value)
    ensures rested ==> world.now >= old(world.now) + 2_000 || (deadline.Some? && world.now >= deadline.value)
    ensures !rested ==> world.now == old(world.now) && deadline.Some? && world.now >= deadline.value
  {
    var pause := PROBE_INTERVAL;
    if deadline.Some? {
      var left := Remaining(deadline, world.now);
      if left.None? {
        return false;
      }
      pause := if left.value < pause then left.value else pause;
    }
    world.Pass(pause);
    rested := true;
  }

  /** What the loop knows between two probes. */
  ghost predicate IsWaiting(alive: Guest, answer: Server, probes: seq<Probe>, since: Option<nat>, first: nat, started: nat, now: nat) {
    && IsHistory(alive, answer, probes, started, now) && !HasSuccess(answer, probes)
    && StreakBegan(answer, probes, since, first) && !RefusedLongEnough(answer, probes)
    && (since.Some? ==> since.value <= now)
  }

  lemma Probed(alive: Guest, answer: Server, probes: seq<Probe>, since: Option<nat>, first: nat,
               started: nat, before: nat, now: nat, probe: Probe)
    requires IsWaiting(alive, answer, probes, since, first, started, before) && started <= before <= now
    requires IsCompleted(alive, answer, probe, before, now) && probe.ended == now
    ensures var more := probes + [probe];
            && more[|more| - 1] == probe
            && IsHistory(alive, answer, more, started, now)
            && (HasSuccess(answer, more) <==> answer(probe.sent) == Success)
            && (answer(probe.sent) != Refusal ==> forall f: nat :: StreakBegan(answer, more, None, f))
            && (answer(probe.sent) != Refusal ==> !RefusedLongEnough(answer, more))
    ensures var more, s, f := probes + [probe], if since.None? then now else since.value, if since.None? then |probes| else first;
            answer(probe.sent) == Refusal ==>
              StreakBegan(answer, more, Some(s), f) && (RefusedLongEnough(answer, more) <==> now >= s + AUTH_REFUSAL_GRACE)
  {
    var more := probes + [probe];
    LongerHistory(alive, answer, probes, probe, started, before, now);
    assert forall i :: 0 <= i < |probes| ==> more[i] == probes[i];
    if answer(probe.sent) == Refusal {
      var s, f := if since.None? then now else since.value, if since.None? then |probes| else first;
      assert StreakBegan(answer, more, Some(s), f);
      LongestStreak(answer, more, Some(s), f, alive, started, now);
    } else {
      LongestStreak(answer, more, None, 0, alive, started, now);
    }
  }

  lemma LongerHistory(alive: Guest, answer: Server, probes: seq<Probe>, probe: Probe, started: nat, before: nat, now: nat)
    requires IsHistory(alive, answer, probes, started, before) && !HasSuccess(answer, probes) && started <= before <= now
    requires IsCompleted(alive, answer, probe, before, now)
    ensures IsHistory(alive, answer, probes + [probe], started, now)
    ensures HasSuccess(answer, probes + [probe]) <==> answer(probe.sent) == Success
  {
    var more := probes + [probe];
    forall i | 0 <= i < |more|
      ensures IsCompleted(alive, answer, more[i], started, now)
    {
      assert i < |probes| ==> IsCompleted(alive, answer, probes[i], started, before);
    }
    assert more[|probes|] == probe;
    if |probes| > 0 {
      assert IsCompleted(alive, answer, probes[|probes| - 1], started, before);
    }
    assert forall i :: 0 <= i < |probes| ==> more[i] == probes[i];
  }
}
