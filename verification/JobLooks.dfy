/** What a job that is called lost or running by a poll really is (`src/jobs.rs`): the guest looks
    for the exit file and, if there is none, for a process by what the pid file names. */
module JobLooks {
  import opened Wrappers
  import opened Jobs
  import opened JobPolling

  /** Whatever happens after moment `at`, no code is ever recorded. */
  ghost predicate NeverRecords(run: seq<Guest>, at: nat)
    requires at < |run|
  {
    forall more: seq<Guest> :: IsRun(more) && run[..at + 1] <= more ==> !more[|more| - 1].exit.Recorded?
  }

  lemma GoesOn(run: seq<Guest>, at: nat, next: Guest)
    requires IsRun(run) && at < |run| && WriterStep(run[at], next)
    ensures IsRun(run[..at + 1] + [next])
  {
  }

  /** A job that is not over yet and has recorded no code can still record one. */
  lemma CanRecord(run: seq<Guest>, at: nat)
    requires IsRun(run) && at < |run| && run[at].alive && !run[at].exit.Recorded?
    ensures exists more: seq<Guest> ::
      IsRun(more) && run[..at + 1] <= more && more[|more| - 1].exit == Recorded(0)
  {
    var begun := run[at].(exit := Opened);
    GoesOn(run, at, begun);
    var more := run[..at + 1] + [begun];
    GoesOn(more, at + 1, begun.(exit := Recorded(0)));
    var all := more[..at + 2] + [begun.(exit := Recorded(0))];
    assert IsRun(all) && run[..at + 1] <= all;
  }

  lemma NothingMoreToCome(run: seq<Guest>, at: nat, more: seq<Guest>, i: nat)
    requires IsRun(more) && at < |run| && run[..at + 1] <= more && at <= i < |more|
    requires !run[at].alive || run[at].exit.Recorded?
    ensures more[i].exit == run[at].exit
  {
    assert more[at] == run[..at + 1][at];
    if run[at].alive {
      LogGrows(more, at, i);
    } else {
      DeadStaysDead(more, at, i);
    }
  }

  /** That is so exactly when the job is over without having recorded one. */
  lemma NeverRecordsExactly(run: seq<Guest>, at: nat)
    requires IsRun(run) && at < |run|
    ensures NeverRecords(run, at) <==> !run[at].alive && !run[at].exit.Recorded?
  {
    if run[at].exit.Recorded? {
      assert IsRun(run[..at + 1]) && run[..at + 1] <= run[..at + 1];
    } else if run[at].alive {
      CanRecord(run, at);
    } else {
      forall more: seq<Guest> | IsRun(more) && run[..at + 1] <= more
        ensures !more[|more| - 1].exit.Recorded?
      {
        NothingMoreToCome(run, at, more, |more| - 1);
      }
    }
  }

  /** "Lost" is right exactly when by the second of the two looks the job was over and had
      recorded no code; of a job that is not over it is said only when the pid file does not
      name it. */
  lemma LostExactly(run: seq<Guest>, p: Poll)
    requires IsRun(run) && FoundLost(run, p)
    ensures NeverRecords(run, p.statusAt) <==> !run[p.statusAt].alive && !run[p.statusAt].exit.Recorded?
    ensures run[p.statusAt].alive ==> !run[p.statusAt].named
  {
    NeverRecordsExactly(run, p.statusAt);
  }

  /** When the pid file names the job, that is just that no code was recorded by then. */
  lemma LostByName(run: seq<Guest>, p: Poll)
    requires IsRun(run) && FoundLost(run, p) && run[p.statusAt].named
    ensures run[|run| - 1].exit.Recorded? <==> run[p.statusAt].exit.Recorded?
    ensures NeverRecords(run, p.statusAt) <==> !run[p.statusAt].exit.Recorded?
  {
    DeadStaysDead(run, p.statusAt, |run| - 1);
    LostExactly(run, p);
  }

  predicate FoundRunning(run: seq<Guest>, p: Poll) {
    p.Answered? && IsAnswer(run, p) && AnswerStatus(run, p) == Some(Running)
  }

  /** "Running" is wrong exactly when the job was over by then and had recorded no code; that
      takes another process answering to what the pid file names. */
  lemma RunningExactly(run: seq<Guest>, p: Poll)
    requires IsRun(run) && FoundRunning(run, p)
    ensures NeverRecords(run, p.statusAt) <==> !run[p.statusAt].alive && !run[p.statusAt].exit.Recorded?
    ensures !run[p.statusAt].alive ==> run[p.statusAt].other
  {
    NeverRecordsExactly(run, p.statusAt);
  }

  /** However things go on after moment `at`, a poll from then on that says "lost" is right. */
  ghost predicate LostIsRightFrom(run: seq<Guest>, at: nat)
    requires at < |run|
  {
    forall more: seq<Guest>, q ::
      IsRun(more) && run[..at + 1] <= more && FoundLost(more, q) && at <= q.exitAt ==> !more[|more| - 1].exit.Recorded?
  }

  /** However things go on, a poll from then on tells a code exactly when that is the one
      recorded in the end. */
  ghost predicate CodeIsToldFrom(run: seq<Guest>, at: nat)
    requires at < |run|
  {
    forall more: seq<Guest>, q: Poll, code ::
      IsRun(more) && run[..at + 1] <= more && q.Answered? && IsAnswer(more, q) && at <= q.exitAt ==>
        (FoundCode(more, q, code) <==> more[|more| - 1].exit == Recorded(code))
  }

  /** Lost twice is lost, whatever happens, exactly when the job was not running its command
      any more by the end of the first answer. */
  lemma SecondLostIsRight(run: seq<Guest>, p: Poll)
    requires IsRun(run) && FoundLost(run, p)
    ensures LostIsRightFrom(run, p.logAt) <==> !run[p.logAt].alive || run[p.logAt].exit != Absent
  {
    var at := p.logAt;
    if run[at].alive && run[at].exit == Absent {
      LostTwiceAndRecords(run, at);
    } else {
      forall more: seq<Guest>, q | IsRun(more) && run[..at + 1] <= more && FoundLost(more, q) && at <= q.exitAt
        ensures !more[|more| - 1].exit.Recorded?
      {
        assert more[at] == run[..at + 1][at];
        LogGrows(more, at, q.exitAt);
        NothingMoreToCome(run, at, more, |more| - 1);
      }
    }
  }

  /** With no pid file to go by, a job still running its command is lost again and goes on to
      record a code. */
  lemma LostTwiceAndRecords(run: seq<Guest>, at: nat)
    requires IsRun(run) && at < |run| && run[at].alive && run[at].exit == Absent
    ensures !LostIsRightFrom(run, at)
  {
    var lookless := run[at].(named := false, other := false);
    GoesOn(run, at, lookless);
    var blank := run[..at + 1] + [lookless];
    CanRecord(blank, at + 1);
    var more: seq<Guest> :| IsRun(more) && blank[..at + 2] <= more && more[|more| - 1].exit == Recorded(0);
    assert more[at + 1] == blank[..at + 2][at + 1];
    var q := Answered(at + 1, at + 1, at + 1, 76, "\n");
    assert FoundLost(more, q);
  }

  /** And another ask tells the truth about the code, whatever happens, exactly when by the end
      of the first answer none was still to come. */
  lemma SecondAskRecovers(run: seq<Guest>, p: Poll)
    requires IsRun(run) && FoundLost(run, p)
    ensures CodeIsToldFrom(run, p.logAt) <==> !run[p.logAt].alive || run[p.logAt].exit.Recorded?
  {
    var at := p.logAt;
    if run[at].alive && !run[at].exit.Recorded? {
      CanRecord(run, at);
      var more: seq<Guest> :| IsRun(more) && run[..at + 1] <= more && more[|more| - 1].exit == Recorded(0);
      var q := Answered(at, at, at, 76, "\n");
      assert more[at] == run[..at + 1][at];
      assert !FoundCode(more, q, 0) && IsAnswer(more, q);
    } else {
      forall more: seq<Guest>, q: Poll, code |
        IsRun(more) && run[..at + 1] <= more && q.Answered? && IsAnswer(more, q) && at <= q.exitAt
        ensures FoundCode(more, q, code) <==> more[|more| - 1].exit == Recorded(code)
      {
        NothingMoreToCome(run, at, more, q.exitAt);
        NothingMoreToCome(run, at, more, q.statusAt);
        NothingMoreToCome(run, at, more, |more| - 1);
      }
    }
  }

  /** The first "lost" may be wrong even with a good pid file: the two looks at the job fall on
      either side of its end, and a job that did record a code is reported lost. */
  lemma LostMayBeWrong()
    ensures exists run: seq<Guest>, polls :: IsRun(run) && ArePolls(run, polls) && EndsWith(run, polls, 1, 0, JobLost)
                                 && run[0].named && run[|run| - 1].exit == Recorded(0)
  {
    var start := Guest([], Absent, true, false, true, false);
    var run := [start, start.(exit := Opened), start.(exit := Recorded(0)), start.(exit := Recorded(0), alive := false)];
    var polls := [Answered(0, 3, 3, 76, "\n")];
    assert WriterStep(run[0], run[1]) && WriterStep(run[1], run[2]) && WriterStep(run[2], run[3]);
    assert EndsWith(run, polls, 1, 0, JobLost);
  }

  /** With a pid file that stays empty a running job is lost to every poll. */
  lemma BlankPidIsLost()
    ensures exists run: seq<Guest>, p, q ::
      && IsRun(run) && FoundLost(run, p) && FoundLost(run, q) && p.logAt <= q.exitAt
      && run[q.logAt].alive && run[|run| - 1].exit == Recorded(0)
  {
    var start := Guest([], Absent, true, false, false, false);
    var run := [start, start, start.(exit := Opened), start.(exit := Recorded(0))];
    var p, q := Answered(0, 0, 0, 76, "\n"), Answered(1, 1, 1, 76, "\n");
    assert WriterStep(run[0], run[1]) && WriterStep(run[1], run[2]) && WriterStep(run[2], run[3]);
    assert FoundLost(run, p) && FoundLost(run, q);
  }

  /** And once its number is taken over, a job that is gone without a code is found running. */
  lemma ReusedPidIsRunning()
    ensures exists run: seq<Guest>, p ::
      IsRun(run) && FoundRunning(run, p) && !run[p.exitAt].alive && run[p.exitAt].exit == Absent
  {
    var start := Guest([], Absent, true, false, true, false);
    var run := [start, start.(alive := false), start.(alive := false, other := true)];
    var p := Answered(2, 2, 2, 76, "\n");
    assert WriterStep(run[0], run[1]) && WriterStep(run[1], run[2]);
    assert FoundRunning(run, p);
  }
}
