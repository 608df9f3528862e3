/** Following a detached job (`src/commands/jobs.rs`): a writer in the guest appends to
    the job's log and then records its exit code; a poller on the host reads the status
    and then the log from where it left off, over a connection that may lose any reply. */
module JobPolling {
  import opened Wrappers
  import opened Bytes
  import opened Base64
  import opened Jobs
  import Text

  // ----- A poll's text -----

  function SplitPoll(text: string): Option<(Status, seq<byte>)> {
    var (first, rest) := Text.SplitLine(text);
    var status :- ParseStatus(first);
    var chunk :- Decode(Text.WithoutWhitespace(rest));
    Some((status, chunk))
  }

  /** `text` broken into lines of `width`, each ended by `eol`. */
  function Wrap(text: string, width: nat, eol: string): string
    requires width > 0
  {
    if text == "" then ""
    else if |text| <= width then text + eol
    else text[..width] + eol + Wrap(text[width..], width, eol)
  }

  predicate IsLineEnd(eol: string) {
    eol == "\n" || eol == "\r\n"
  }

  lemma {:induction false} WithoutWhitespaceAppend(a: string, b: string)
    ensures Text.WithoutWhitespace(a + b) == Text.WithoutWhitespace(a) + Text.WithoutWhitespace(b)
  {
    if a == "" {
      assert a + b == b;
    } else {
      assert (a + b)[1..] == a[1..] + b;
      WithoutWhitespaceAppend(a[1..], b);
    }
  }

  lemma {:induction false} NothingToRemove(a: string)
    requires Text.HasNoWhitespace(a)
    ensures Text.WithoutWhitespace(a) == a
  {
    if a != "" {
      NothingToRemove(a[1..]);
    }
  }

  lemma LineEndIsRemoved(eol: string)
    requires IsLineEnd(eol)
    ensures Text.WithoutWhitespace(eol) == ""
  {
    assert "\r\n"[1..] == "\n";
  }

  lemma UnwrapLine(line: string, eol: string, more: string)
    requires IsLineEnd(eol) && Text.HasNoWhitespace(line)
    ensures Text.WithoutWhitespace(line + eol + more) == line + Text.WithoutWhitespace(more)
  {
    LineEndIsRemoved(eol);
    NothingToRemove(line);
    WithoutWhitespaceAppend(line, eol);
    assert line + "" == line;
    WithoutWhitespaceAppend(line + eol, more);
  }

  /** Wrapping is undone by dropping whitespace. */
  lemma {:induction false} Unwrap(text: string, width: nat, eol: string)
    requires width > 0 && IsLineEnd(eol) && Text.HasNoWhitespace(text)
    ensures Text.WithoutWhitespace(Wrap(text, width, eol)) == text
    decreases |text|
  {
    LineEndIsRemoved(eol);
    if |text| <= width {
      NothingToRemove(text);
      WithoutWhitespaceAppend(text, eol);
    } else {
      var line, rest := text[..width], text[width..];
      Unwrap(rest, width, eol);
      UnwrapLine(line, eol, Wrap(rest, width, eol));
      assert line + rest == text;
    }
  }

  lemma {:induction false} EncodeHasNoWhitespace(bytes: seq<byte>)
    ensures Text.HasNoWhitespace(Encode(bytes))
  {
    if |bytes| >= 3 {
      EncodeHasNoWhitespace(bytes[3..]);
    }
  }

  /** What a poll prints: a status line, then bytes in wrapped base64. */
  function PollText(status: string, bytes: seq<byte>, width: nat, eol: string): string
    requires width > 0
  {
    status + (eol + Wrap(Encode(bytes), width, eol))
  }

  lemma SplitPollLine(line: string, bytes: seq<byte>, width: nat, eol: string)
    requires width > 0 && IsLineEnd(eol) && '\n' !in line
    ensures
      var end := if eol == "\n" then "" else "\r";
      SplitPoll(PollText(line, bytes, width, eol))
        == var status := ParseStatus(line + end);
           if status.None? then None else Some((status.value, bytes))
  {
    var end := if eol == "\n" then "" else "\r";
    var encoded := Wrap(Encode(bytes), width, eol);
    EncodeHasNoWhitespace(bytes);
    Unwrap(Encode(bytes), width, eol);
    EncodeDecode(bytes);
    LineThenRest(line, end, encoded);
    assert eol == end + "\n";
    Text.SplitLineAt(line + end, encoded);
  }

  lemma LineThenRest(line: string, end: string, rest: string)
    ensures line + ((end + "\n") + rest) == (line + end) + ("\n" + rest)
  {
  }

  lemma StatusIsOneLine(status: Status)
    ensures '\n' !in StatusText(status)
  {
    if status.Exited? {
      Text.SignedHasNoWhitespace(status.code);
    }
  }

  /** The status and every byte are recovered, at any width and with either line end. */
  lemma SplitPollReadBack(status: Status, bytes: seq<byte>, width: nat, eol: string)
    requires IsStatus(status) && width > 0 && IsLineEnd(eol)
    ensures SplitPoll(PollText(StatusText(status), bytes, width, eol)) == Some((status, bytes))
  {
    StatusIsOneLine(status);
    SplitPollLine(StatusText(status), bytes, width, eol);
    StatusReadBack(status, if eol == "\n" then "" else "\r");
  }

  // ----- The writer -----

  /** The exit file comes into being empty and is written after that. */
  datatype ExitFile = Absent | Opened | Recorded(code: int)

  /** `alive` is the job's own shell, from before it is started; `writers` are other processes
      that hold the log, as a command leaves behind what it puts in the background. `named` is
      whether the pid file names that shell, and `other` whether a process that is not that
      shell answers to what the pid file names. */
  datatype Guest = Guest(log: seq<byte>, exit: ExitFile, alive: bool, writers: bool, named: bool, other: bool)

  /** What `kill -0` on the pid file's content finds. That file is written after the job is
      started, may stay empty when the disk is full, and its number may be taken over. */
  predicate Finds(g: Guest) {
    (g.named && g.alive) || g.other
  }

  /** The command, or something it left behind, can still write. */
  predicate Writes(g: Guest) {
    g.writers || (g.alive && g.exit == Absent)
  }

  /** One step of the job: more output, other writers come or go, the exit file opened, the
      code written, the job gone, or nothing of interest. The command ends before the exit
      file is opened, and only a command makes other writers. */
  predicate JobStep(a: Guest, b: Guest) {
    || b == a
    || (Writes(a) && a.log <= b.log && b == a.(log := b.log))
    || (a.alive && a.exit == Absent && b == a.(writers := true))
    || (b == a.(writers := false))
    || (a.alive && a.exit == Absent && b == a.(exit := Opened))
    || (a.alive && a.exit == Opened && b.exit.Recorded? && b == a.(exit := b.exit)
        && -0x8000_0000 <= b.exit.code <= 0x7fff_ffff)
    || (b == a.(alive := false))
  }

  /** One step in the guest. What the pid file is good for may change with any of them. */
  predicate WriterStep(a: Guest, b: Guest) {
    JobStep(a, b.(named := a.named, other := a.other))
  }

  predicate IsRun(run: seq<Guest>) {
    && run != [] && run[0] == Guest([], Absent, true, false, run[0].named, run[0].other)
    && forall i :: 0 <= i < |run| - 1 ==> WriterStep(run[i], run[i + 1])
  }

  lemma {:induction false} LogGrows(run: seq<Guest>, i: nat, j: nat)
    requires IsRun(run) && i <= j < |run|
    ensures run[i].log <= run[j].log
    ensures run[i].exit != Absent ==> run[j].exit != Absent
    ensures !Writes(run[i]) ==> run[j].log == run[i].log && !Writes(run[j])
    ensures run[i].exit.Recorded? ==> run[j].exit == run[i].exit
    decreases j - i
  {
    if i < j {
      assert WriterStep(run[i], run[i + 1]);
      LogGrows(run, i + 1, j);
    }
  }

  /** A job that is gone writes no code any more. */
  lemma {:induction false} DeadStaysDead(run: seq<Guest>, i: nat, j: nat)
    requires IsRun(run) && i <= j < |run| && !run[i].alive
    ensures !run[j].alive && run[j].exit == run[i].exit
    decreases j - i
  {
    if i < j {
      assert WriterStep(run[i], run[i + 1]);
      DeadStaysDead(run, i + 1, j);
    }
  }

  lemma {:induction false} CodesInRange(run: seq<Guest>, i: nat)
    requires IsRun(run) && i < |run|
    ensures run[i].exit.Recorded? ==> -0x8000_0000 <= run[i].exit.code <= 0x7fff_ffff
  {
    if i > 0 {
      CodesInRange(run, i - 1);
      assert WriterStep(run[i - 1], run[i - 1 + 1]);
    }
  }

  // ----- Polls -----

  /** What became of one poll. An answer was read at three moments of the run: whether
      there is an exit file, then what is in it or whether the process is found, then
      the log. */
  datatype Poll =
    | Answered(exitAt: nat, statusAt: nat, logAt: nat, width: nat, eol: string)
    | Unanswered
    | NoSuchJob

  predicate IsAnswer(run: seq<Guest>, p: Poll) {
    p.Answered? ==> p.exitAt <= p.statusAt <= p.logAt < |run| && p.width > 0 && IsLineEnd(p.eol)
  }

  predicate ArePolls(run: seq<Guest>, polls: seq<Poll>) {
    && (forall i :: 0 <= i < |polls| ==> IsAnswer(run, polls[i]))
    && (forall i, j :: 0 <= i < j < |polls| && polls[i].Answered? && polls[j].Answered? ==>
          polls[i].logAt <= polls[j].exitAt)
  }

  /** The status line of an answer. */
  function StatusLine(run: seq<Guest>, p: Poll): string
    requires p.Answered? && IsAnswer(run, p)
  {
    if run[p.exitAt].exit != Absent then
      "exit:" + (if run[p.statusAt].exit.Recorded? then Text.Signed(run[p.statusAt].exit.code) else "")
    else if Finds(run[p.statusAt]) then "running"
    else "lost"
  }

  /** `tail -c +(offset + 1)` */
  function Tail(log: seq<byte>, offset: nat): seq<byte> {
    if offset <= |log| then log[offset..] else []
  }

  function AnswerText(run: seq<Guest>, p: Poll, offset: nat): string
    requires p.Answered? && IsAnswer(run, p)
  {
    PollText(StatusLine(run, p), Tail(run[p.logAt].log, offset), p.width, p.eol)
  }

  /** What the poller makes of an answer. */
  function AnswerStatus(run: seq<Guest>, p: Poll): Option<Status>
    requires p.Answered? && IsAnswer(run, p)
  {
    if run[p.exitAt].exit != Absent then
      if run[p.statusAt].exit.Recorded? then Some(Exited(run[p.statusAt].exit.code)) else None
    else if Finds(run[p.statusAt]) then Some(Running)
    else Some(Lost)
  }

  lemma AnswerReadBack(run: seq<Guest>, p: Poll, offset: nat)
    requires IsRun(run) && p.Answered? && IsAnswer(run, p)
    ensures SplitPoll(AnswerText(run, p, offset))
         == if AnswerStatus(run, p).None? then None
            else Some((AnswerStatus(run, p).value, Tail(run[p.logAt].log, offset)))
  {
    var bytes := Tail(run[p.logAt].log, offset);
    if AnswerStatus(run, p).Some? {
      CodesInRange(run, p.statusAt);
      SplitPollReadBack(AnswerStatus(run, p).value, bytes, p.width, p.eol);
    } else {
      assert "exit:" + "" == "exit:";
      EmptyExitIsNoStatus(if p.eol == "\n" then "" else "\r");
      SplitPollLine("exit:", bytes, p.width, p.eol);
    }
  }

  // ----- Following -----

  const UNREACHABLE_POLLS: nat := 120

  datatype Outcome =
    | Code(code: int)       // the job ended with this code
    | JobLost               // its process is gone without a code
    | JobUnknown            // the guest has no such job
    | OutOfTouch            // too many polls in a row went unanswered
    | Garbled               // a reply that is not a poll's text
    | Interrupted           // Ctrl-C
    | Following             // none of these so far

  /** The polls from `k` on read nothing older than moment `at`. */
  predicate ReadsAfter(polls: seq<Poll>, k: nat, at: nat) {
    forall i :: k <= i < |polls| && polls[i].Answered? ==> at <= polls[i].exitAt
  }

  /** Every poll before `k` found the job running or went unanswered. */
  predicate NothingEnded(run: seq<Guest>, polls: seq<Poll>, k: nat)
    requires k <= |polls| && ArePolls(run, polls)
  {
    forall i :: 0 <= i < k ==>
      polls[i] != NoSuchJob && (polls[i].Answered? ==> AnswerStatus(run, polls[i]) == Some(Running))
  }

  /** The `n` polls before `k` went unanswered. */
  predicate Silent(polls: seq<Poll>, k: nat, n: nat) {
    n <= k <= |polls| && forall i :: k - n <= i < k ==> polls[i] == Unanswered
  }

  /** An answer that caught the exit file opened and not yet written. */
  predicate CaughtOpening(run: seq<Guest>, p: Poll) {
    p.Answered? && IsAnswer(run, p) && run[p.exitAt].exit == Opened && run[p.statusAt].exit == Opened
  }

  predicate FoundLost(run: seq<Guest>, p: Poll) {
    p.Answered? && IsAnswer(run, p) && AnswerStatus(run, p) == Some(Lost)
  }

  /** What the polls before `k` read has been printed. */
  predicate IsPrinted(run: seq<Guest>, polls: seq<Poll>, k: nat, out: seq<byte>)
    requires k <= |polls| && ArePolls(run, polls)
  {
    forall i :: 0 <= i < k && polls[i].Answered? ==> run[polls[i].logAt].log <= out
  }

  predicate FoundCode(run: seq<Guest>, p: Poll, code: int) {
    p.Answered? && IsAnswer(run, p) && AnswerStatus(run, p) == Some(Exited(code))
  }

  // ----- How following ends -----

  /** How poll `k` ends the following, should it get that far. */
  function EndAt(run: seq<Guest>, polls: seq<Poll>, interruptedAt: nat, k: nat): Option<Outcome>
    requires k < |polls| && ArePolls(run, polls)
  {
    if interruptedAt <= k then Some(Interrupted)
    else match polls[k]
      case NoSuchJob => Some(JobUnknown)
      case Unanswered => if Silent(polls, k + 1, UNREACHABLE_POLLS) then Some(OutOfTouch) else None
      case Answered(_, _, _, _, _) =>
        match AnswerStatus(run, polls[k])
        case None => Some(Garbled)
        case Some(Exited(code)) => Some(Code(code))
        case Some(Lost) => Some(JobLost)
        case Some(Running) => None
  }

  /** Following gets to poll `k`: none before it ended it. */
  ghost predicate Reaches(run: seq<Guest>, polls: seq<Poll>, interruptedAt: nat, k: nat)
    requires ArePolls(run, polls)
  {
    && k <= |polls| && k <= interruptedAt && NothingEnded(run, polls, k)
    && forall i :: 0 <= i <= k ==> !Silent(polls, i, 120)
  }

  ghost predicate EndsWith(run: seq<Guest>, polls: seq<Poll>, interruptedAt: nat, k: nat, outcome: Outcome)
    requires ArePolls(run, polls)
  {
    && Reaches(run, polls, interruptedAt, k)
    && if k == |polls| then outcome == Following else EndAt(run, polls, interruptedAt, k) == Some(outcome)
  }

  lemma NotYet(run: seq<Guest>, polls: seq<Poll>, interruptedAt: nat, j: nat, k: nat)
    requires IsRun(run) && ArePolls(run, polls) && j < k && Reaches(run, polls, interruptedAt, k)
    ensures EndAt(run, polls, interruptedAt, j).None?
  {
  }

  lemma ReachesNext(run: seq<Guest>, polls: seq<Poll>, interruptedAt: nat, k: nat)
    requires IsRun(run) && ArePolls(run, polls) && Reaches(run, polls, interruptedAt, k)
    requires k < |polls| && EndAt(run, polls, interruptedAt, k).None?
    ensures Reaches(run, polls, interruptedAt, k + 1)
  {
    assert polls[k] != Unanswered ==> !Silent(polls, k + 1, UNREACHABLE_POLLS);
  }

  /** Following ends at that poll with that outcome, and with no other. */
  ghost predicate IsTheEnd(run: seq<Guest>, polls: seq<Poll>, interruptedAt: nat, last: nat, outcome: Outcome)
    requires ArePolls(run, polls)
  {
    forall k: nat, o :: EndsWith(run, polls, interruptedAt, k, o) <==> k == last && o == outcome
  }

  /** The first poll that ends it decides. */
  lemma EndsOnce(run: seq<Guest>, polls: seq<Poll>, interruptedAt: nat, last: nat, outcome: Outcome)
    requires IsRun(run) && ArePolls(run, polls) && EndsWith(run, polls, interruptedAt, last, outcome)
    ensures IsTheEnd(run, polls, interruptedAt, last, outcome)
  {
    forall k: nat, o | EndsWith(run, polls, interruptedAt, k, o)
      ensures k == last && o == outcome
    {
      if k < last {
        NotYet(run, polls, interruptedAt, k, last);
        assert false;
      } else if last < k {
        NotYet(run, polls, interruptedAt, last, k);
        assert false;
      }
    }
  }

  /** The number of polls that went unanswered just before `k`. */
  predicate IsStreak(polls: seq<Poll>, k: nat, n: nat) {
    Silent(polls, k, n) && (n == k || polls[k - n - 1] != Unanswered)
  }

  lemma StreakGrows(polls: seq<Poll>, k: nat, n: nat)
    requires k < |polls| && polls[k] == Unanswered && IsStreak(polls, k, n) && n < UNREACHABLE_POLLS
    ensures IsStreak(polls, k + 1, n + 1)
    ensures n + 1 == UNREACHABLE_POLLS <==> Silent(polls, k + 1, UNREACHABLE_POLLS)
  {
    if Silent(polls, k + 1, UNREACHABLE_POLLS) && n < k {
      assert polls[k - n - 1] != Unanswered;
    }
  }

  /** Where following stands before poll `k`: `at` is the moment the log was last read. */
  ghost predicate IsUnderway(run: seq<Guest>, polls: seq<Poll>, interruptedAt: nat, k: nat,
                             at: nat, out: seq<byte>, unreachable: nat)
    requires IsRun(run) && ArePolls(run, polls)
  {
    && Reaches(run, polls, interruptedAt, k) && IsPrinted(run, polls, k, out)
    && at < |run| && out == run[at].log && ReadsAfter(polls, k, at)
    && unreachable < UNREACHABLE_POLLS && IsStreak(polls, k, unreachable)
  }

  lemma StillUnderway(run: seq<Guest>, polls: seq<Poll>, interruptedAt: nat, k: nat,
                      at: nat, out: seq<byte>, unreachable: nat)
    requires IsRun(run) && ArePolls(run, polls) && IsUnderway(run, polls, interruptedAt, k, at, out, unreachable)
    requires k < |polls| && polls[k] == Unanswered && EndAt(run, polls, interruptedAt, k).None?
    ensures IsUnderway(run, polls, interruptedAt, k + 1, at, out, unreachable + 1)
  {
    ReachesNext(run, polls, interruptedAt, k);
    StreakGrows(polls, k, unreachable);
  }

  lemma AgainUnderway(run: seq<Guest>, polls: seq<Poll>, interruptedAt: nat, k: nat,
                      at: nat, out: seq<byte>, unreachable: nat)
    requires IsRun(run) && ArePolls(run, polls) && IsUnderway(run, polls, interruptedAt, k, at, out, unreachable)
    requires k < |polls| && polls[k].Answered? && EndAt(run, polls, interruptedAt, k).None?
    ensures IsUnderway(run, polls, interruptedAt, k + 1, polls[k].logAt, run[polls[k].logAt].log, 0)
  {
    ReachesNext(run, polls, interruptedAt, k);
    LogGrows(run, at, polls[k].logAt);
  }

  /** The log as it was when the exit code had been read; all of it, if nothing else held it. */
  ghost predicate IsItsLog(run: seq<Guest>, p: Poll, code: int, out: seq<byte>) {
    && FoundCode(run, p, code) && run[p.logAt].exit == Recorded(code)
    && out == run[p.logAt].log && (!run[p.logAt].writers ==> out == run[|run| - 1].log)
  }

  lemma CodeIsRecorded(run: seq<Guest>, p: Poll, code: int)
    requires IsRun(run) && FoundCode(run, p, code)
    ensures IsItsLog(run, p, code, run[p.logAt].log) && run[|run| - 1].exit == Recorded(code)
  {
    LogGrows(run, p.statusAt, p.logAt);
    LogGrows(run, p.logAt, |run| - 1);
  }

  /** Asking the guest once, and taking its answer apart. */
  method Ask(run: seq<Guest>, p: Poll, offset: nat) returns (reply: Option<(Status, seq<byte>)>)
    requires IsRun(run) && p.Answered? && IsAnswer(run, p)
    ensures reply.None? ==> AnswerStatus(run, p).None?
    ensures reply.Some? ==>
      AnswerStatus(run, p) == Some(reply.value.0) && reply.value.1 == Tail(run[p.logAt].log, offset)
  {
    reply := SplitPoll(AnswerText(run, p, offset));
    AnswerReadBack(run, p, offset);
  }

  /** An answer to a poll, as `attach` goes on from it: what is new in the log is printed and
      counted, and the status says whether that was all. */
  method Follow(run: seq<Guest>, p: Poll, ghost at: nat, out: seq<byte>, offset: nat)
      returns (ended: Option<Outcome>, printed: seq<byte>, counted: nat)
    requires IsRun(run) && p.Answered? && IsAnswer(run, p) && at <= p.exitAt
    requires out == run[at].log && offset == |out|
    ensures counted == |printed| && printed <= run[|run| - 1].log && out <= printed
    ensures ended.None? ==> printed == run[p.logAt].log && AnswerStatus(run, p) == Some(Running)
    ensures ended.Some? ==> match ended.value
                            case Code(code) => IsItsLog(run, p, code, printed) && run[|run| - 1].exit == Recorded(code)
                            case Garbled => AnswerStatus(run, p).None?
                            case JobLost => FoundLost(run, p)
                            case _ => false
  {
    printed, counted := out, offset;
    LogGrows(run, at, |run| - 1);
    var reply := Ask(run, p, offset);
    if reply.None? {
      return Some(Garbled), printed, counted;
    }
    var (status, chunk) := reply.value;
    LogGrows(run, at, p.logAt);
    if chunk != [] {
      printed := printed + chunk;
      counted := counted + |chunk|;
    }
    assert printed == run[p.logAt].log;
    LogGrows(run, p.logAt, |run| - 1);
    if status.Exited? {
      CodeIsRecorded(run, p, status.code);
      return Some(Code(status.code)), printed, counted;
    }
    ended := if status.Lost? then Some(JobLost) else None;
  }

  // ----- Each outcome exactly when -----

  /** Poll `k` is made: following gets to it and no Ctrl-C came first. */
  ghost predicate IsMade(run: seq<Guest>, polls: seq<Poll>, interruptedAt: nat, k: nat)
    requires ArePolls(run, polls)
  {
    k < |polls| && k < interruptedAt && Reaches(run, polls, interruptedAt, k)
  }

  lemma InterruptedExactly(run: seq<Guest>, polls: seq<Poll>, interruptedAt: nat, k: nat)
    requires IsRun(run) && ArePolls(run, polls)
    ensures EndsWith(run, polls, interruptedAt, k, Interrupted) <==>
            k < |polls| && interruptedAt <= k && Reaches(run, polls, interruptedAt, k)
  {
  }

  lemma UnknownExactly(run: seq<Guest>, polls: seq<Poll>, interruptedAt: nat, k: nat)
    requires IsRun(run) && ArePolls(run, polls)
    ensures EndsWith(run, polls, interruptedAt, k, JobUnknown) <==>
            IsMade(run, polls, interruptedAt, k) && polls[k] == NoSuchJob
  {
  }

  /** The 120th poll in a row that goes unanswered. */
  predicate IsLastStraw(polls: seq<Poll>, k: nat) {
    119 <= k < |polls| && forall i :: k - 119 <= i <= k ==> polls[i] == Unanswered
  }

  /** No exit file at the first look, and at the second neither the job by its pid file nor
      another process. */
  predicate SaysLost(run: seq<Guest>, p: Poll) {
    && p.Answered? && IsAnswer(run, p) && run[p.exitAt].exit == Absent
    && !(run[p.statusAt].named && run[p.statusAt].alive) && !run[p.statusAt].other
  }

  /** Out of touch with the 120th poll in a row that goes unanswered. */
  lemma OutOfTouchExactly(run: seq<Guest>, polls: seq<Poll>, interruptedAt: nat, k: nat)
    requires IsRun(run) && ArePolls(run, polls)
    ensures EndsWith(run, polls, interruptedAt, k, OutOfTouch) <==>
            IsMade(run, polls, interruptedAt, k) && IsLastStraw(polls, k)
  {
    if k < |polls| && polls[k] == Unanswered {
      assert Silent(polls, k + 1, 120) <==> IsLastStraw(polls, k);
    }
  }

  /** Lost when the first look found no exit file and the second no process. */
  lemma JobLostExactly(run: seq<Guest>, polls: seq<Poll>, interruptedAt: nat, k: nat)
    requires IsRun(run) && ArePolls(run, polls)
    ensures EndsWith(run, polls, interruptedAt, k, JobLost) <==>
            IsMade(run, polls, interruptedAt, k) && SaysLost(run, polls[k])
  {
  }

  /** A code when the first look found the exit file and the second that code in it. */
  lemma CodeExactly(run: seq<Guest>, polls: seq<Poll>, interruptedAt: nat, k: nat, code: int)
    requires IsRun(run) && ArePolls(run, polls)
    ensures EndsWith(run, polls, interruptedAt, k, Code(code)) <==>
            && IsMade(run, polls, interruptedAt, k) && polls[k].Answered?
            && run[polls[k].exitAt].exit != Absent && run[polls[k].statusAt].exit == Recorded(code)
  {
  }

  /** Followed to the last of the polls. */
  lemma FollowingExactly(run: seq<Guest>, polls: seq<Poll>, interruptedAt: nat, k: nat)
    requires IsRun(run) && ArePolls(run, polls)
    ensures EndsWith(run, polls, interruptedAt, k, Following) <==>
            k == |polls| && Reaches(run, polls, interruptedAt, k)
  {
  }

  /** Following ends garbled exactly when the first poll to end it caught the exit file made
      and not yet written. */
  lemma GarbledExactly(run: seq<Guest>, polls: seq<Poll>, interruptedAt: nat, k: nat)
    requires IsRun(run) && ArePolls(run, polls)
    ensures EndsWith(run, polls, interruptedAt, k, Garbled) <==>
            IsMade(run, polls, interruptedAt, k) && CaughtOpening(run, polls[k])
  {
    if k < |polls| && polls[k].Answered? {
      UnreadExactly(run, polls[k], 0);
    }
  }

  /** A reply is not understood exactly when it caught the exit file so, wherever it starts. */
  lemma UnreadExactly(run: seq<Guest>, p: Poll, offset: nat)
    requires IsRun(run) && p.Answered? && IsAnswer(run, p)
    ensures SplitPoll(AnswerText(run, p, offset)).None? <==> CaughtOpening(run, p)
    ensures AnswerStatus(run, p).None? <==> CaughtOpening(run, p)
  {
    AnswerReadBack(run, p, offset);
    LogGrows(run, p.exitAt, p.statusAt);
  }

  // The same of the whole: the outcome is that one if and only if there is such a poll.

  lemma UnknownOnly(run: seq<Guest>, polls: seq<Poll>, interruptedAt: nat, last: nat, outcome: Outcome)
    requires IsRun(run) && ArePolls(run, polls) && IsTheEnd(run, polls, interruptedAt, last, outcome)
    ensures outcome == JobUnknown <==> exists k: nat :: IsMade(run, polls, interruptedAt, k) && polls[k] == NoSuchJob
  {
    UnknownExactly(run, polls, interruptedAt, last);
    if k: nat :| IsMade(run, polls, interruptedAt, k) && polls[k] == NoSuchJob {
      UnknownExactly(run, polls, interruptedAt, k);
    }
  }

  lemma OutOfTouchOnly(run: seq<Guest>, polls: seq<Poll>, interruptedAt: nat, last: nat, outcome: Outcome)
    requires IsRun(run) && ArePolls(run, polls) && IsTheEnd(run, polls, interruptedAt, last, outcome)
    ensures outcome == OutOfTouch <==> exists k: nat :: IsMade(run, polls, interruptedAt, k) && IsLastStraw(polls, k)
  {
    OutOfTouchExactly(run, polls, interruptedAt, last);
    if k: nat :| IsMade(run, polls, interruptedAt, k) && IsLastStraw(polls, k) {
      OutOfTouchExactly(run, polls, interruptedAt, k);
    }
  }

  lemma JobLostOnly(run: seq<Guest>, polls: seq<Poll>, interruptedAt: nat, last: nat, outcome: Outcome)
    requires IsRun(run) && ArePolls(run, polls) && IsTheEnd(run, polls, interruptedAt, last, outcome)
    ensures outcome == JobLost <==> exists k: nat :: IsMade(run, polls, interruptedAt, k) && SaysLost(run, polls[k])
  {
    JobLostExactly(run, polls, interruptedAt, last);
    if k: nat :| IsMade(run, polls, interruptedAt, k) && SaysLost(run, polls[k]) {
      JobLostExactly(run, polls, interruptedAt, k);
    }
  }

  lemma GarbledOnly(run: seq<Guest>, polls: seq<Poll>, interruptedAt: nat, last: nat, outcome: Outcome)
    requires IsRun(run) && ArePolls(run, polls) && IsTheEnd(run, polls, interruptedAt, last, outcome)
    ensures outcome == Garbled <==> exists k: nat :: IsMade(run, polls, interruptedAt, k) && CaughtOpening(run, polls[k])
  {
    GarbledExactly(run, polls, interruptedAt, last);
    if k: nat :| IsMade(run, polls, interruptedAt, k) && CaughtOpening(run, polls[k]) {
      GarbledExactly(run, polls, interruptedAt, k);
    }
  }

  lemma InterruptedOnly(run: seq<Guest>, polls: seq<Poll>, interruptedAt: nat, last: nat, outcome: Outcome)
    requires IsRun(run) && ArePolls(run, polls) && IsTheEnd(run, polls, interruptedAt, last, outcome)
    ensures outcome == Interrupted <==> exists k: nat :: k < |polls| && interruptedAt <= k && Reaches(run, polls, interruptedAt, k)
  {
    InterruptedExactly(run, polls, interruptedAt, last);
    if k: nat :| k < |polls| && interruptedAt <= k && Reaches(run, polls, interruptedAt, k) {
      InterruptedExactly(run, polls, interruptedAt, k);
    }
  }

  lemma OutcomeOnly(run: seq<Guest>, polls: seq<Poll>, interruptedAt: nat, last: nat, outcome: Outcome)
    requires IsRun(run) && ArePolls(run, polls) && IsTheEnd(run, polls, interruptedAt, last, outcome)
    ensures outcome == JobUnknown <==> exists k: nat :: IsMade(run, polls, interruptedAt, k) && polls[k] == NoSuchJob
    ensures outcome == OutOfTouch <==> exists k: nat :: IsMade(run, polls, interruptedAt, k) && IsLastStraw(polls, k)
    ensures outcome == JobLost <==> exists k: nat :: IsMade(run, polls, interruptedAt, k) && SaysLost(run, polls[k])
    ensures outcome == Garbled <==> exists k: nat :: IsMade(run, polls, interruptedAt, k) && CaughtOpening(run, polls[k])
    ensures outcome == Interrupted <==>
      exists k: nat :: k < |polls| && interruptedAt <= k && Reaches(run, polls, interruptedAt, k)
  {
    UnknownOnly(run, polls, interruptedAt, last, outcome);
    OutOfTouchOnly(run, polls, interruptedAt, last, outcome);
    JobLostOnly(run, polls, interruptedAt, last, outcome);
    GarbledOnly(run, polls, interruptedAt, last, outcome);
    InterruptedOnly(run, polls, interruptedAt, last, outcome);
  }

  /** One turn of the loop in `attach`, with poll `k`. */
  method Turn(run: seq<Guest>, polls: seq<Poll>, interruptedAt: nat, k: nat, ghost at: nat,
              out: seq<byte>, offset: nat, unreachable: nat)
      returns (ended: Option<Outcome>, printed: seq<byte>, counted: nat, silent: nat, ghost now: nat)
    requires IsRun(run) && ArePolls(run, polls) && k < |polls|
    requires IsUnderway(run, polls, interruptedAt, k, at, out, unreachable) && offset == |out|
    ensures ended == EndAt(run, polls, interruptedAt, k)
    ensures ended == Some(Interrupted) <==> interruptedAt <= k
    ensures ended == Some(JobUnknown) <==> k < interruptedAt && polls[k] == NoSuchJob
    ensures ended == Some(OutOfTouch) <==> k < interruptedAt && IsLastStraw(polls, k)
    ensures ended == Some(JobLost) <==> k < interruptedAt && SaysLost(run, polls[k])
    ensures ended == Some(Garbled) <==> k < interruptedAt && CaughtOpening(run, polls[k])
    ensures ended.None? ==> IsUnderway(run, polls, interruptedAt, k + 1, now, printed, silent)
    ensures counted == |printed| && out <= printed && printed <= run[|run| - 1].log
    ensures ended.Some? && ended.value.Code? ==>
      IsItsLog(run, polls[k], ended.value.code, printed) && run[|run| - 1].exit == Recorded(ended.value.code)
  {
    ended, printed, counted, silent, now := None, out, offset, unreachable, at;
    LogGrows(run, at, |run| - 1);
    OutOfTouchExactly(run, polls, interruptedAt, k);
    GarbledExactly(run, polls, interruptedAt, k);
    if interruptedAt <= k {
      ended := Some(Interrupted);
      return;
    }
    var p := polls[k];
    match p {
      case NoSuchJob =>
        ended := Some(JobUnknown);
      case Unanswered =>
        StreakGrows(polls, k, unreachable);
        silent := unreachable + 1;
        if silent >= UNREACHABLE_POLLS {
          ended := Some(OutOfTouch);
        } else {
          StillUnderway(run, polls, interruptedAt, k, at, out, unreachable);
        }
      case Answered(_, _, _, _, _) =>
        silent := 0;
        ended, printed, counted := Follow(run, p, at, out, offset);
        if ended.None? {
          now := p.logAt;
          AgainUnderway(run, polls, interruptedAt, k, at, out, unreachable);
        }
    }
  }

  /** Follows a job until a poll ends that. `last` is the poll that did. */
  method Attach(run: seq<Guest>, polls: seq<Poll>, interruptedAt: nat)
      returns (outcome: Outcome, out: seq<byte>, offset: nat, ghost last: nat)
    requires IsRun(run) && ArePolls(run, polls)
    // The outcome is that of the first poll to end it, each outcome exactly when that poll
    // is of its kind.
    ensures IsTheEnd(run, polls, interruptedAt, last, outcome)
    ensures outcome == JobUnknown <==> exists k: nat :: IsMade(run, polls, interruptedAt, k) && polls[k] == NoSuchJob
    ensures outcome == OutOfTouch <==> exists k: nat :: IsMade(run, polls, interruptedAt, k) && IsLastStraw(polls, k)
    ensures outcome == JobLost <==> exists k: nat :: IsMade(run, polls, interruptedAt, k) && SaysLost(run, polls[k])
    ensures outcome == Garbled <==> exists k: nat :: IsMade(run, polls, interruptedAt, k) && CaughtOpening(run, polls[k])
    ensures outcome == Interrupted <==>
      exists k: nat :: k < |polls| && interruptedAt <= k && Reaches(run, polls, interruptedAt, k)
    // At every moment, what has been printed is a prefix of the log, counted by the offset.
    ensures out <= run[|run| - 1].log && offset == |out|
    // An exit code is the recorded one, and comes with the whole log, unless something the
    // command left behind still held that (`WholeLog`).
    ensures outcome.Code? ==>
      last < |polls| && IsItsLog(run, polls[last], outcome.code, out) && run[|run| - 1].exit == Recorded(outcome.code)
    // Otherwise everything the polls read until then has been printed.
    ensures last <= |polls| && IsPrinted(run, polls, last, out)
  {
    out, offset, last := [], 0, 0;
    ghost var at: nat := 0;
    var unreachable: nat := 0;
    LogGrows(run, 0, |run| - 1);
    var k := 0;
    while k < |polls|
      invariant k <= |polls| && offset == |out| && out <= run[|run| - 1].log
      invariant IsUnderway(run, polls, interruptedAt, k, at, out, unreachable)
    {
      var ended;
      ended, out, offset, unreachable, at := Turn(run, polls, interruptedAt, k, at, out, offset, unreachable);
      if ended.Some? {
        EndsOnce(run, polls, interruptedAt, k, ended.value);
        OutcomeOnly(run, polls, interruptedAt, k, ended.value);
        return ended.value, out, offset, k;
      }
      k := k + 1;
    }
    EndsOnce(run, polls, interruptedAt, k, Following);
    OutcomeOnly(run, polls, interruptedAt, k, Following);
    outcome, last := Following, k;
  }

  lemma GarbledHappens()
    ensures exists run: seq<Guest>, polls :: IsRun(run) && ArePolls(run, polls) && EndsWith(run, polls, 1, 0, Garbled)
  {
    var run := [Guest([], Absent, true, false, true, false), Guest([], Opened, true, false, true, false)];
    var polls := [Answered(1, 1, 1, 76, "\n")];
    assert WriterStep(run[0], run[1]);
    assert EndsWith(run, polls, 1, 0, Garbled);
  }

  /** The log read after an exit code is all there will ever be, exactly when nothing the
      command left behind still holds it. */
  lemma WholeLog(run: seq<Guest>, p: Poll, code: int)
    requires IsRun(run) && FoundCode(run, p, code)
    ensures (forall more: seq<Guest> :: IsRun(more) && run[..p.logAt + 1] <= more ==> more[|more| - 1].log == run[p.logAt].log)
       <==> !run[p.logAt].writers
  {
    CodeIsRecorded(run, p, code);
    if run[p.logAt].writers {
      var so, next := run[..p.logAt + 1], run[p.logAt].(log := run[p.logAt].log + [0]);
      assert WriterStep(run[p.logAt], next);
      assert IsRun(so + [next]) && so <= so + [next];
    } else {
      forall more: seq<Guest> | IsRun(more) && run[..p.logAt + 1] <= more
        ensures more[|more| - 1].log == run[p.logAt].log
      {
        assert more[p.logAt] == run[..p.logAt + 1][p.logAt];
        LogGrows(more, p.logAt, |more| - 1);
      }
    }
  }
}
