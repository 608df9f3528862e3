/** The listing of a guest's jobs, as the guest writes it and as `vitro jobs` reads it
    (`src/jobs.rs`, `src/commands/jobs.rs`). */
module JobListing {
  import opened Wrappers
  import opened Jobs
  import Text

  /** Id, status and the first line of the command. */
  datatype Listed = Listed(id: string, status: Status, command: string)

  function SplitTab(s: string): Option<(string, string)> {
    if s == "" then None
    else if s[0] == '\t' then Some(("", s[1..]))
    else
      match SplitTab(s[1..])
      case None => None
      case Some((a, b)) => Some(([s[0]] + a, b))
  }

  /** A line of at most three fields; one with a single field, or a status vitro does not know,
      is no job. A carriage return at the end goes with the white space. */
  function ParseLine(line: string): Option<Listed> {
    match SplitTab(line)
    case None => None
    case Some((id, rest)) =>
      var (token, command) := match SplitTab(rest) case None => (rest, "") case Some(fields) => fields;
      var status :- ParseStatus(token);
      Some(Listed(Text.Trim(id), status, Text.Trim(command)))
  }

  function ParseList(text: string): seq<Listed>
    decreases |text|
  {
    if text == "" then [] else
    var (line, rest) := Text.SplitLine(text);
    var more := ParseList(rest);
    match ParseLine(line)
    case None => more
    case Some(job) => [job] + more
  }

  // ----- What the guest writes -----

  function LineOf(job: Listed): string {
    job.id + "\t" + (StatusText(job.status) + "\t" + job.command)
  }

  function WriteList(jobs: seq<Listed>, end: string): string {
    if jobs == [] then "" else LineOf(jobs[0]) + end + "\n" + WriteList(jobs[1..], end)
  }

  predicate IsListed(job: Listed) {
    IsValidId(job.id) && IsStatus(job.status) && '\n' !in job.command
  }

  predicate AreListed(jobs: seq<Listed>) {
    jobs != [] ==> IsListed(jobs[0]) && AreListed(jobs[1..])
  }

  function Trimmed(jobs: seq<Listed>): seq<Listed> {
    if jobs == [] then [] else [jobs[0].(command := Text.Trim(jobs[0].command))] + Trimmed(jobs[1..])
  }

  // ----- Reading it back -----

  lemma {:induction false} SplitTabAt(a: string, b: string)
    requires '\t' !in a
    ensures SplitTab(a + "\t" + b) == Some((a, b))
  {
    if a == "" {
      assert a + "\t" + b == "\t" + b;
      assert ("\t" + b)[1..] == b;
    } else {
      assert (a + "\t" + b)[1..] == a[1..] + "\t" + b;
      SplitTabAt(a[1..], b);
      assert [a[0]] + a[1..] == a;
    }
  }

  lemma {:induction false} StartDropsNothing(s: string, c: char)
    requires Text.IsWhitespace(c)
    ensures Text.TrimStart(s + [c]) == if Text.TrimStart(s) == "" then "" else Text.TrimStart(s) + [c]
  {
    if s == "" {
      assert s + [c] == [c] && [c][1..] == "";
    } else if Text.IsWhitespace(s[0]) {
      assert (s + [c])[1..] == s[1..] + [c];
      StartDropsNothing(s[1..], c);
    }
  }

  lemma TrimDropsReturn(s: string)
    ensures Text.Trim(s + "\r") == Text.Trim(s)
  {
    StartDropsNothing(s, '\r');
    var t := Text.TrimStart(s);
    if t != "" {
      assert (t + "\r")[|t|] == '\r' && (t + "\r")[..|t|] == t;
    }
  }

  lemma PlainFields(id: string, status: Status)
    requires IsValidId(id) && IsStatus(status)
    ensures '\t' !in id && '\n' !in id && Text.Trim(id) == id
    ensures '\t' !in StatusText(status) && '\n' !in StatusText(status)
  {
    assert Text.HasNoWhitespace(id);
    Text.TrimLine(id, "");
    assert id + "" == id;
    if status.Exited? {
      Text.SignedHasNoWhitespace(status.code);
    }
    assert Text.HasNoWhitespace(StatusText(status));
  }

  lemma LineReadBack(job: Listed, end: string)
    requires IsListed(job) && (end == "" || end == "\r")
    ensures '\n' !in LineOf(job) + end
    ensures ParseLine(LineOf(job) + end) == Some(job.(command := Text.Trim(job.command)))
  {
    var token, last := StatusText(job.status), job.command + end;
    PlainFields(job.id, job.status);
    assert LineOf(job) + end == job.id + "\t" + (token + "\t" + last);
    SplitTabAt(job.id, token + "\t" + last);
    SplitTabAt(token, last);
    StatusReadBack(job.status, "");
    assert token + "" == token;
    if end == "" {
      assert last == job.command;
    } else {
      TrimDropsReturn(job.command);
    }
  }

  /** Every job is read back, whatever its command holds but a line feed: with its status and
      its command, bar white space around that. */
  lemma {:induction false} ListReadBack(jobs: seq<Listed>, end: string)
    requires AreListed(jobs) && (end == "" || end == "\r")
    ensures ParseList(WriteList(jobs, end)) == Trimmed(jobs)
  {
    if jobs != [] {
      var line, rest := LineOf(jobs[0]) + end, WriteList(jobs[1..], end);
      LineReadBack(jobs[0], end);
      assert line + "\n" + rest == line + ("\n" + rest);
      Text.SplitLineAt(line, rest);
      ListReadBack(jobs[1..], end);
    }
  }
}
