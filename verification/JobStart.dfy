/** Starting a detached job on a Unix guest, through three shells: the login shell sshd
    starts, the `sh -c` it runs, and the `nohup sh -c` that one leaves behind. */
module JobStart {
  import opened Wrappers
  import opened PosixShell
  import opened ShellWriting
  import opened QuotingProofs
  import Ssh
  import Jobs

  // ----- The two scripts as structures -----

  function Dir(id: string): Part {
    DoubleQuotes("$HOME/.vitro-jobs/" + id)
  }

  function File(id: string, name: string): seq<Part> {
    [Dir(id), Run(name)]
  }

  const QUIET: seq<Redirect> :=
    [Redirect("2", ">&", [Run("1")]), Redirect("", "<", [Run("/dev/null")])]

  const TO_NULL: seq<Redirect> := [Redirect("", ">", [Run("/dev/null")])] + QUIET

  function Word(text: string): seq<Part> {
    [Run(text)]
  }

  function ToFile(id: string, name: string): Redirect {
    Redirect("", ">", File(id, name))
  }

  function EchoTo(what: string, id: string, name: string): Written {
    Plain([Word("echo"), Word(what)], [ToFile(id, name)])
  }

  function JobSequence(id: string, line: Sequence): Sequence {
    Then(Group(line, [ToFile(id, "/log")] + QUIET), ";", Last(EchoTo("$?", id, "/exit")))
  }

  function Mkdir(id: string): Written {
    Plain([Word("mkdir"), Word("-p"), [Dir(id)]], [])
  }

  function Note(id: string, text: string): Written {
    Plain([Word("printf"), [Quoted("%s\\n")], [Quoted(text)]], [ToFile(id, "/cmd")])
  }

  const GIVE_UP := Plain([Word("exit"), Word("1")], [])

  function Nohup(job: string): Written {
    Plain([Word("nohup"), Word("sh"), Word("-c"), [Quoted(job)]], TO_NULL)
  }

  function Show(id: string): Written {
    Plain([Word("cat"), File(id, "/pid")], [])
  }

  /** Leaving the job running, and reporting its process. */
  function Leave(id: string, job: string): Sequence {
    Then(Nohup(job), "&", Then(EchoTo("$!", id, "/pid"), ";", Last(Show(id))))
  }

  function ScriptSequence(id: string, text: string, job: string): Sequence {
    Then(Mkdir(id), "&&", Then(Note(id, text), "||", Then(GIVE_UP, ";", Leave(id, job))))
  }

  lemma DirSound(id: string)
    requires Jobs.IsValidId(id)
    ensures IsSoundPart(Dir(id))
  {
    var text, fixed := "$HOME/.vitro-jobs/" + id, "$HOME/.vitro-jobs/";
    assert text == fixed + id;
    forall i | 0 <= i < |text|
      ensures text[i] != '\"' && text[i] != '\\' && text[i] != '`' && (text[i] == '$' ==> i == 0)
    {
      if i >= |fixed| {
        assert Jobs.IsHexDigit(id[i - |fixed|]);
      }
    }
  }

  lemma FileSound(id: string, name: string)
    requires Jobs.IsValidId(id) && IsRun(name)
    ensures IsSoundWord(File(id, name)) && IsSoundRedirect(ToFile(id, name))
  {
    DirSound(id);
  }

  lemma QuietSound()
    ensures forall i :: 0 <= i < |QUIET| ==> IsSoundRedirect(QUIET[i])
    ensures forall i :: 0 <= i < |TO_NULL| ==> IsSoundRedirect(TO_NULL[i])
  {
    NullIsSound();
    assert QUIET[0] == Redirect("2", ">&", Word("1")) && QUIET[1] == Redirect("", "<", Word("/dev/null"));
    assert TO_NULL[0] == Redirect("", ">", Word("/dev/null")) && TO_NULL[1] == QUIET[0] && TO_NULL[2] == QUIET[1];
  }

  lemma NullIsSound()
    ensures IsSoundWord(Word("1")) && IsSoundWord(Word("/dev/null"))
  {
    assert IsRun("1") && IsRun("/dev/null");
  }

  lemma EchoSound(what: string, id: string, name: string)
    requires Jobs.IsValidId(id) && IsRun(what) && IsRun(name)
    ensures IsSoundCommand(EchoTo(what, id, name))
  {
    FileSound(id, name);
    assert IsSoundWord(Word("echo")) && IsSoundWord(Word(what));
  }

  lemma JobSound(id: string, line: Sequence)
    requires Jobs.IsValidId(id) && IsSound(line)
    ensures IsSound(JobSequence(id, line))
  {
    FileSound(id, "/log");
    QuietSound();
    EchoSound("$?", id, "/exit");
    assert IsSound(Last(EchoTo("$?", id, "/exit")));
  }

  lemma PlainSound(ws: seq<seq<Part>>, rs: seq<Redirect>)
    requires ws != [] && forall i :: 0 <= i < |ws| ==> |ws[i]| == 1 && IsSoundPart(ws[i][0])
    requires forall i :: 0 <= i < |rs| ==> IsSoundRedirect(rs[i])
    ensures IsSoundCommand(Plain(ws, rs))
  {
    forall i | 0 <= i < |ws|
      ensures IsSoundWord(ws[i])
    {
    }
  }

  lemma MkdirSound(id: string)
    requires Jobs.IsValidId(id)
    ensures IsSoundCommand(Mkdir(id))
  {
    DirSound(id);
    PlainSound([Word("mkdir"), Word("-p"), [Dir(id)]], []);
  }

  lemma NoteSound(id: string, text: string)
    requires Jobs.IsValidId(id)
    ensures IsSoundCommand(Note(id, text))
  {
    FileSound(id, "/cmd");
    PlainSound([Word("printf"), [Quoted("%s\\n")], [Quoted(text)]], [ToFile(id, "/cmd")]);
  }

  lemma GiveUpSound()
    ensures IsSoundCommand(GIVE_UP)
  {
    PlainSound([Word("exit"), Word("1")], []);
  }

  lemma NohupSound(job: string)
    ensures IsSoundCommand(Nohup(job))
  {
    QuietSound();
    PlainSound([Word("nohup"), Word("sh"), Word("-c"), [Quoted(job)]], TO_NULL);
  }

  lemma ShowSound(id: string)
    requires Jobs.IsValidId(id)
    ensures IsSoundCommand(Show(id))
  {
    FileSound(id, "/pid");
    assert IsSoundWord(Word("cat"));
  }

  lemma ScriptSound(id: string, text: string, job: string)
    requires Jobs.IsValidId(id)
    ensures IsSound(ScriptSequence(id, text, job))
  {
    MkdirSound(id);
    NoteSound(id, text);
    GiveUpSound();
    NohupSound(job);
    ShowSound(id);
    EchoSound("$!", id, "/pid");
    var tail := Then(EchoTo("$!", id, "/pid"), ";", Last(Show(id)));
    assert IsSound(Last(Show(id)));
    assert IsSound(tail);
    assert IsSound(Leave(id, job));
    assert IsSound(Then(GIVE_UP, ";", Leave(id, job)));
  }

  // ----- They are what `Jobs` writes -----

  lemma PrintOne(w: seq<Part>, rest: string)
    ensures |w| == 1 ==> PrintWord(w, rest) == PrintPart(w[0], rest)
    ensures |w| == 2 ==> PrintWord(w, rest) == PrintPart(w[0], PrintPart(w[1], rest))
  {
    if |w| == 1 {
      assert w[1..] == [];
    } else if |w| == 2 {
      assert w[1..] == [w[1]] && [w[1]][1..] == [];
      assert PrintWord([w[1]], rest) == PrintPart(w[1], rest);
    }
  }

  lemma PrintDir(id: string, rest: string)
    ensures PrintPart(Dir(id), rest) == Jobs.UnixDir(id) + rest
  {
    var inside := "$HOME/.vitro-jobs/" + id;
    assert "$HOME/" + Jobs.JOBS_DIR + "/" == "$HOME/.vitro-jobs/";
    assert "\"" + (inside + ("\"" + rest)) == "\"" + inside + "\"" + rest;
    assert "\"" + inside + "\"" == Jobs.UnixDir(id);
  }

  lemma Assoc(a: string, b: string, c: string)
    ensures a + (b + c) == a + b + c
  {
  }

  lemma PrintFile(id: string, name: string, rest: string)
    ensures PrintWord(File(id, name), rest) == Jobs.UnixDir(id) + name + rest
  {
    PrintOne(File(id, name), rest);
    PrintDir(id, name + rest);
    Assoc(Jobs.UnixDir(id), name, rest);
  }

  lemma PrintTo(op: string, target: seq<Part>, more: seq<Redirect>, rest: string)
    requires op == ">" || op == "<"
    ensures PrintRedirects([Redirect("", op, target)] + more, rest)
         == " " + op + " " + PrintWord(target, PrintRedirects(more, rest))
  {
    var rs := [Redirect("", op, target)] + more;
    assert rs[1..] == more;
    var tail := PrintWord(target, PrintRedirects(more, rest));
    assert " " + ("" + (op + (" " + tail))) == " " + op + " " + tail;
  }

  lemma PrintQuiet(rest: string)
    ensures PrintRedirects(QUIET, rest) == " 2>&1 < /dev/null" + rest
  {
    var second := [Redirect("", "<", [Run("/dev/null")])];
    assert QUIET[1..] == second;
    PrintFromNull(rest);
    PrintOne([Run("1")], PrintRedirects(second, rest));
    assert " " + ("2" + (">&" + ("1" + (" < /dev/null" + rest)))) == " 2>&1 < /dev/null" + rest;
  }

  lemma PrintFromNull(rest: string)
    ensures PrintRedirects([Redirect("", "<", [Run("/dev/null")])], rest) == " < /dev/null" + rest
  {
    var only := [Redirect("", "<", [Run("/dev/null")])];
    PrintTo("<", [Run("/dev/null")], [], rest);
    assert only + [] == only;
    PrintOne([Run("/dev/null")], rest);
    assert PrintRedirects([], rest) == rest;
  }

  lemma PrintThree(ws: seq<seq<Part>>, rest: string)
    ensures |ws| == 2 ==> PrintWords(ws, rest) == PrintWord(ws[0], " " + PrintWord(ws[1], rest))
    ensures |ws| == 3 ==>
      PrintWords(ws, rest) == PrintWord(ws[0], " " + PrintWord(ws[1], " " + PrintWord(ws[2], rest)))
  {
    if |ws| == 2 {
      assert ws[1..] == [ws[1]];
      assert PrintWords([ws[1]], rest) == PrintWord(ws[1], rest);
    } else if |ws| == 3 {
      assert ws[1..] == [ws[1], ws[2]] && ws[1..][1..] == [ws[2]];
      assert PrintWords([ws[2]], rest) == PrintWord(ws[2], rest);
      assert PrintWords(ws[1..], rest) == PrintWord(ws[1], " " + PrintWord(ws[2], rest));
    }
  }

  lemma JoinTo(file: string, rest: string)
    ensures " " + ">" + " " + (file + rest) == " > " + file + rest
  {
  }

  lemma PrintToFile(id: string, name: string, more: seq<Redirect>, rest: string)
    ensures PrintRedirects([ToFile(id, name)] + more, rest)
         == " > " + Jobs.UnixDir(id) + name + PrintRedirects(more, rest)
  {
    PrintTo(">", File(id, name), more, rest);
    PrintFile(id, name, PrintRedirects(more, rest));
    JoinTo(Jobs.UnixDir(id) + name, PrintRedirects(more, rest));
    assert " > " + (Jobs.UnixDir(id) + name) == " > " + Jobs.UnixDir(id) + name;
  }

  lemma PrintEchoTo(what: string, redirects: seq<Redirect>, rest: string, tail: string)
    requires PrintRedirects(redirects, rest) == tail
    ensures PrintCommand(Plain([Word("echo"), Word(what)], redirects), rest) == "echo" + (" " + (what + tail))
  {
    PrintThree([Word("echo"), Word(what)], tail);
    PrintOne(Word(what), tail);
    PrintOne(Word("echo"), " " + (what + tail));
  }

  lemma PrintEcho(what: string, id: string, name: string, rest: string)
    ensures PrintCommand(EchoTo(what, id, name), rest)
         == "echo " + what + " > " + Jobs.UnixDir(id) + name + rest
  {
    PrintToFile(id, name, [], rest);
    assert [ToFile(id, name)] + [] == [ToFile(id, name)] && PrintRedirects([], rest) == rest;
    PrintEchoTo(what, [ToFile(id, name)], rest, " > " + Jobs.UnixDir(id) + name + rest);
    assert "echo" + (" " + (what + (" > " + Jobs.UnixDir(id) + name + rest)))
        == "echo " + what + " > " + Jobs.UnixDir(id) + name + rest;
  }

  /** What follows the line inside the job. */
  function JobTail(id: string): string {
    " ) > " + Jobs.UnixDir(id) + "/log 2>&1 < /dev/null; echo $? > " + Jobs.UnixDir(id) + "/exit"
  }

  lemma PrintJobTail(id: string)
    ensures " )" + PrintRedirects([ToFile(id, "/log")] + QUIET,
              PrintConnector(";", PrintCommand(EchoTo("$?", id, "/exit"), ""))) == JobTail(id)
  {
    var dir := Jobs.UnixDir(id);
    PrintEcho("$?", id, "/exit", "");
    var last := "; " + ("echo " + "$?" + " > " + dir + "/exit" + "");
    PrintToFile(id, "/log", QUIET, last);
    PrintQuiet(last);
    JoinJobTail(dir);
  }

  lemma JoinJobTail(dir: string)
    ensures " )" + (" > " + dir + "/log" + (" 2>&1 < /dev/null"
                 + ("; " + ("echo " + "$?" + " > " + dir + "/exit" + ""))))
         == " ) > " + dir + "/log 2>&1 < /dev/null; echo $? > " + dir + "/exit"
  {
  }

  lemma JoinJob(text: string, dir: string)
    ensures "( " + (text + (" ) > " + dir + "/log 2>&1 < /dev/null; echo $? > " + dir + "/exit"))
         == "( " + text + " ) > " + dir + "/log 2>&1 < /dev/null; echo $? > " + dir + "/exit"
  {
  }

  /** The job's text is the line inside a group. */
  lemma PrintJob(id: string, line: Sequence, text: string)
    requires PrintSequence(line, JobTail(id)) == text + JobTail(id)
    ensures PrintSequence(JobSequence(id, line), "") == Jobs.UnixJob(id, text)
  {
    PrintJobTail(id);
    JoinJob(text, Jobs.UnixDir(id));
  }

  lemma PrintTwoAnd(first: string, second: string, w: seq<Part>, text: string, rest: string)
    requires PrintWord(w, rest) == text
    ensures PrintWords([Word(first), Word(second), w], rest) == first + (" " + (second + (" " + text)))
  {
    PrintThree([Word(first), Word(second), w], rest);
    PrintOne(Word(second), " " + text);
    PrintOne(Word(first), " " + (second + (" " + text)));
  }

  lemma PrintMkdir(id: string, rest: string)
    ensures PrintCommand(Mkdir(id), rest) == "mkdir -p " + Jobs.UnixDir(id) + rest
  {
    PrintOne([Dir(id)], rest);
    PrintDir(id, rest);
    assert PrintRedirects([], rest) == rest;
    PrintTwoAnd("mkdir", "-p", [Dir(id)], Jobs.UnixDir(id) + rest, rest);
    assert "mkdir" + (" " + ("-p" + (" " + (Jobs.UnixDir(id) + rest)))) == "mkdir -p " + Jobs.UnixDir(id) + rest;
  }

  lemma PrintNote(id: string, text: string, rest: string)
    ensures PrintCommand(Note(id, text), rest)
         == "printf '%s\\n' " + Ssh.Quote(text) + " > " + Jobs.UnixDir(id) + "/cmd" + rest
  {
    PrintToFile(id, "/cmd", [], rest);
    assert [ToFile(id, "/cmd")] + [] == [ToFile(id, "/cmd")];
    var tail := PrintRedirects([ToFile(id, "/cmd")], rest);
    PrintThree([Word("printf"), [Quoted("%s\\n")], [Quoted(text)]], tail);
    PrintOne([Quoted(text)], tail);
    var last := " " + (Ssh.Quote(text) + tail);
    PrintOne([Quoted("%s\\n")], last);
    QuoteFormat();
    PrintOne(Word("printf"), " " + ("'%s\\n'" + last));
    JoinNote(Ssh.Quote(text), Jobs.UnixDir(id), PrintRedirects([], rest));
  }

  lemma JoinNote(text: string, dir: string, rest: string)
    ensures "printf" + (" " + ("'%s\\n'" + (" " + (text + (" > " + dir + "/cmd" + rest)))))
         == "printf '%s\\n' " + text + " > " + dir + "/cmd" + rest
  {
  }

  lemma QuoteFormat()
    ensures Ssh.Quote("%s\\n") == "'%s\\n'"
  {
    var text := "%s\\n";
    assert !Ssh.IsSafe(text[0]);
    assert text[1..] == "s\\n" && text[1..][1..] == "\\n" && text[1..][1..][1..] == "n";
    assert Ssh.Replace("n", '\'', "'\\''") == "n";
    assert Ssh.Replace("\\n", '\'', "'\\''") == "\\n";
    assert Ssh.Replace("s\\n", '\'', "'\\''") == "s\\n";
  }

  lemma PrintGiveUp(rest: string)
    ensures PrintCommand(GIVE_UP, rest) == "exit 1" + rest
  {
    PrintThree([Word("exit"), Word("1")], rest);
    PrintOne(Word("1"), rest);
    PrintOne(Word("exit"), " " + ("1" + rest));
  }

  lemma PrintShow(id: string, rest: string)
    ensures PrintCommand(Show(id), rest) == "cat " + Jobs.UnixDir(id) + "/pid" + rest
  {
    PrintThree([Word("cat"), File(id, "/pid")], rest);
    PrintFile(id, "/pid", rest);
    PrintOne(Word("cat"), " " + PrintWord(File(id, "/pid"), rest));
  }

  lemma PrintNohup(job: string, rest: string)
    ensures PrintCommand(Nohup(job), rest)
         == "nohup sh -c " + Ssh.Quote(job) + " > /dev/null 2>&1 < /dev/null" + rest
  {
    PrintTo(">", Word("/dev/null"), QUIET, rest);
    PrintQuiet(rest);
    PrintOne(Word("/dev/null"), PrintRedirects(QUIET, rest));
    var tail := PrintRedirects(TO_NULL, rest);
    JoinNull(Ssh.Quote(job), rest);
    var words := [Word("sh"), Word("-c"), [Quoted(job)]];
    PrintThree(words, tail);
    PrintOne([Quoted(job)], tail);
    PrintOne(Word("-c"), " " + (Ssh.Quote(job) + tail));
    PrintOne(Word("sh"), " " + ("-c" + (" " + (Ssh.Quote(job) + tail))));
    var all := [Word("nohup"), Word("sh"), Word("-c"), [Quoted(job)]];
    assert all[1..] == words;
    PrintOne(Word("nohup"), " " + PrintWords(words, tail));
  }

  lemma JoinNull(job: string, rest: string)
    ensures " " + ">" + " " + ("/dev/null" + (" 2>&1 < /dev/null" + rest))
         == " > /dev/null 2>&1 < /dev/null" + rest
    ensures "nohup" + (" " + ("sh" + (" " + ("-c" + (" " + (job + (" > /dev/null 2>&1 < /dev/null" + rest)))))))
         == "nohup sh -c " + job + " > /dev/null 2>&1 < /dev/null" + rest
  {
  }

  lemma PrintReport(id: string)
    ensures PrintSequence(Then(EchoTo("$!", id, "/pid"), ";", Last(Show(id))), "")
         == "echo $! > " + Jobs.UnixDir(id) + "/pid; cat " + Jobs.UnixDir(id) + "/pid"
  {
    var dir := Jobs.UnixDir(id);
    PrintShow(id, "");
    PrintEcho("$!", id, "/pid", "; " + ("cat " + dir + "/pid" + ""));
    assert "echo " + "$!" + " > " + dir + "/pid" + ("; " + ("cat " + dir + "/pid" + ""))
        == "echo $! > " + dir + "/pid; cat " + dir + "/pid";
  }

  lemma JoinLeave(nohup: string, report: string)
    ensures nohup + " > /dev/null 2>&1 < /dev/null" + (" " + ("&" + (" " + report)))
         == nohup + " > /dev/null 2>&1 < /dev/null & " + report
  {
  }

  lemma PrintLeave(id: string, job: string)
    ensures PrintSequence(Leave(id, job), "")
         == "nohup sh -c " + Ssh.Quote(job) + " > /dev/null 2>&1 < /dev/null & "
            + ("echo $! > " + Jobs.UnixDir(id) + "/pid; cat " + Jobs.UnixDir(id) + "/pid")
  {
    var report := "echo $! > " + Jobs.UnixDir(id) + "/pid; cat " + Jobs.UnixDir(id) + "/pid";
    PrintReport(id);
    PrintNohup(job, PrintConnector("&", report));
    JoinLeave("nohup sh -c " + Ssh.Quote(job), report);
  }

  lemma PrintGivingUp(id: string, job: string, leave: string)
    requires PrintSequence(Leave(id, job), "") == leave
    ensures PrintSequence(Then(GIVE_UP, ";", Leave(id, job)), "") == "exit 1; " + leave
  {
    PrintGiveUp("; " + leave);
    assert "exit 1" + ("; " + leave) == "exit 1; " + leave;
  }

  lemma PrintStart(id: string, text: string, job: string, leave: string)
    requires PrintSequence(Leave(id, job), "") == leave
    ensures PrintSequence(ScriptSequence(id, text, job), "")
         == "mkdir -p " + Jobs.UnixDir(id) + " && printf '%s\\n' " + Ssh.Quote(text) + " > " + Jobs.UnixDir(id)
            + "/cmd || exit 1; " + leave
  {
    var giveUp := "exit 1; " + leave;
    PrintGivingUp(id, job, leave);
    PrintNote(id, text, PrintConnector("||", giveUp));
    var note := PrintSequence(Then(Note(id, text), "||", Then(GIVE_UP, ";", Leave(id, job))), "");
    PrintMkdir(id, PrintConnector("&&", note));
    assert PrintConnector("||", giveUp) == " || " + giveUp && PrintConnector("&&", note) == " && " + note;
    JoinScript(Jobs.UnixDir(id), Ssh.Quote(text), leave);
  }

  lemma PrintScript(id: string, text: string, job: string)
    ensures PrintSequence(ScriptSequence(id, text, job), "") == Jobs.UnixScript(id, text, job)
  {
    var dir := Jobs.UnixDir(id);
    var start := "mkdir -p " + dir + " && printf '%s\\n' " + Ssh.Quote(text) + " > " + dir + "/cmd || exit 1; ";
    var nohup := "nohup sh -c " + Ssh.Quote(job) + " > /dev/null 2>&1 < /dev/null & ";
    var report := "echo $! > " + dir + "/pid; cat " + dir + "/pid";
    PrintLeave(id, job);
    PrintStart(id, text, job, nohup + report);
    Assoc(start, nohup, report);
  }

  lemma JoinScript(dir: string, text: string, leave: string)
    ensures "mkdir -p " + dir + (" && " + ("printf '%s\\n' " + text + " > " + dir + "/cmd" + (" || " + ("exit 1; " + leave))))
         == "mkdir -p " + dir + " && printf '%s\\n' " + text + " > " + dir + "/cmd || exit 1; " + leave
  {
  }

  // ----- What the three shells make of it -----

  /** A job as the innermost shell sees it: the program that runs, where its output goes,
      and the command that runs after it. */
  datatype Job = Job(execution: Execution, outside: seq<Redirection>, record: Command)

  function ReadJob(text: string): Option<Job> {
    var l :- Parse(text);
    if l.Cons? && l.command.Subshell? && l.connector == ";" && l.rest.Cons? && l.rest.connector == ""
       && l.rest.rest.Nil? then
      var execution :- Runs(l.command.body);
      Some(Job(execution, l.command.outside, l.rest.command))
    else None
  }

  /** The text a list hands to `nohup sh -c` in the background. */
  function LeftRunning(l: CommandList): Option<string> {
    if l.Nil? then None
    else if l.connector == "&" then
      if l.command.Simple? && l.command.assignments == [] then
        var words :- Values(l.command.words);
        if |words| == 4 && words[..3] == ["nohup", "sh", "-c"] then Some(words[3]) else None
      else None
    else LeftRunning(l.rest)
  }

  /** What the login shell and the `sh -c` it runs hand on to the third shell. */
  function ThroughTwoShells(line: string): Option<string> {
    var login :- LineRuns(line);
    if |login.argv| == 3 && login.argv[..2] == ["sh", "-c"] then
      var script :- Parse(login.argv[2]);
      LeftRunning(script)
    else None
  }

  /** The job that a line given to sshd leaves running in the guest. */
  function ThroughThreeShells(line: string): Option<Job> {
    var text :- ThroughTwoShells(line);
    ReadJob(text)
  }

  lemma FixedWord(text: string)
    requires !IsReservedText(text) && forall i :: 0 <= i < |text| ==> text[i] != '='
    ensures !IsAssignment(Letters(text, Bare)) && !IsReserved(Letters(text, Bare))
  {
    var w := Letters(text, Bare);
    EqualsIndexIs(w, 0, |w|);
    assert Text(w) == text;
  }

  lemma FirstLetters(w: seq<Part>, more: seq<seq<Part>>)
    ensures AllLetters([w] + more) == [WordLetters(w)] + AllLetters(more)
  {
  }

  /** A command whose first word is fixed text means what it says. */
  lemma FixedMeaning(text: string, more: seq<seq<Part>>, rs: seq<Redirect>)
    requires !IsReservedText(text) && forall i :: 0 <= i < |text| ==> text[i] != '='
    ensures CommandMeaning(Plain([Word(text)] + more, rs))
         == Some(Simple([], [Letters(text, Bare)] + AllLetters(more), Meanings(rs)))
  {
    OneWord(text);
    FirstLetters(Word(text), more);
    FixedWord(text);
    TakeCommand(Simple([], [], []), [Letters(text, Bare)] + AllLetters(more));
    assert [] + Meanings(rs) == Meanings(rs);
  }

  lemma EchoMeaning(what: string, id: string, name: string)
    ensures CommandMeaning(EchoTo(what, id, name))
         == Some(Simple([], [Letters("echo", Bare), Letters(what, Bare)], Meanings([ToFile(id, name)])))
  {
    FixedMeaning("echo", [Word(what)], [ToFile(id, name)]);
    assert [Word("echo")] + [Word(what)] == [Word("echo"), Word(what)];
    OneWord(what);
    assert [Letters("echo", Bare)] + AllLetters([Word(what)]) == [Letters("echo", Bare), Letters(what, Bare)];
  }

  lemma NohupMeaning(job: string)
    ensures
      var meaning := CommandMeaning(Nohup(job));
      && meaning.Some? && meaning.value.assignments == []
      && Values(meaning.value.words) == Some(["nohup", "sh", "-c", job])
  {
    var more := [Word("sh"), Word("-c"), [Quoted(job)]];
    FixedMeaning("nohup", more, TO_NULL);
    assert [Word("nohup")] + more == [Word("nohup"), Word("sh"), Word("-c"), [Quoted(job)]];
    BareQuoted(job);
    QuotedValues(["nohup", "sh", "-c", job]);
  }

  lemma BareLetters(text: string)
    requires Ssh.IsBareWord(text)
    ensures WordLetters(Word(text)) == WordLetters([Quoted(text)])
  {
    OneWord(text);
  }

  lemma BareQuoted(job: string)
    ensures [Letters("nohup", Bare)] + AllLetters([Word("sh"), Word("-c"), [Quoted(job)]])
         == AllLetters(QuotedWords(["nohup", "sh", "-c", job]))
  {
    var l := [Letters("nohup", Bare)] + AllLetters([Word("sh"), Word("-c"), [Quoted(job)]]);
    var r := AllLetters(QuotedWords(["nohup", "sh", "-c", job]));
    OneWord("nohup");
    assert Ssh.IsBareWord("nohup") && Ssh.IsBareWord("sh") && Ssh.IsBareWord("-c");
    BareLetters("nohup");
    BareLetters("sh");
    BareLetters("-c");
    assert l[0] == r[0] && l[1] == r[1] && l[2] == r[2] && l[3] == r[3];
  }

  lemma LeaveMeaning(id: string, job: string)
    ensures Meaning(Leave(id, job)).Some?
    ensures LeftRunning(Meaning(Leave(id, job)).value) == Some(job)
  {
    NohupMeaning(job);
    EchoMeaning("$!", id, "/pid");
    FixedMeaning("cat", [File(id, "/pid")], []);
    assert [Word("cat")] + [File(id, "/pid")] == [Word("cat"), File(id, "/pid")];
    var tail := Then(EchoTo("$!", id, "/pid"), ";", Last(Show(id)));
    assert Meaning(tail).Some?;
    var words := ["nohup", "sh", "-c", job];
    assert words[..3] == ["nohup", "sh", "-c"];
  }

  lemma MkdirMeaning(id: string)
    ensures CommandMeaning(Mkdir(id)).Some?
  {
    FixedMeaning("mkdir", [Word("-p"), [Dir(id)]], []);
    assert [Word("mkdir")] + [Word("-p"), [Dir(id)]] == [Word("mkdir"), Word("-p"), [Dir(id)]];
  }

  lemma NoteMeaning(id: string, text: string)
    ensures CommandMeaning(Note(id, text)).Some?
  {
    var note := [[Quoted("%s\\n")], [Quoted(text)]];
    FixedMeaning("printf", note, [ToFile(id, "/cmd")]);
    assert [Word("printf")] + note == [Word("printf"), [Quoted("%s\\n")], [Quoted(text)]];
  }

  lemma ScriptMeaning(id: string, text: string, job: string)
    ensures Meaning(ScriptSequence(id, text, job)).Some?
    ensures LeftRunning(Meaning(ScriptSequence(id, text, job)).value) == Some(job)
  {
    LeaveMeaning(id, job);
    MkdirMeaning(id);
    NoteMeaning(id, text);
    GiveUpMeaning();
    var giveUp := Then(GIVE_UP, ";", Leave(id, job));
    var note := Then(Note(id, text), "||", giveUp);
    InForeground(GIVE_UP, ";", Leave(id, job));
    InForeground(Note(id, text), "||", giveUp);
    InForeground(Mkdir(id), "&&", note);
  }

  lemma GiveUpMeaning()
    ensures CommandMeaning(GIVE_UP).Some?
  {
    FixedMeaning("exit", [Word("1")], []);
    assert [Word("exit")] + [Word("1")] == [Word("exit"), Word("1")];
  }

  lemma InForeground(c: Written, connector: string, more: Sequence)
    requires CommandMeaning(c).Some? && Meaning(more).Some? && connector != "&"
    ensures Meaning(Then(c, connector, more)).Some?
    ensures LeftRunning(Meaning(Then(c, connector, more)).value) == LeftRunning(Meaning(more).value)
  {
  }

  // ----- Main results -----

  /** The innermost shell runs what was asked for, with both output streams in the log,
      and records the exit code after it. */
  lemma JobReadBack(id: string, command: seq<string>, prelude: Ssh.Prelude)
    requires Jobs.IsValidId(id) && command != [] && AreNames(prelude.env)
    ensures
      var job := ReadJob(Jobs.UnixJob(id, Ssh.Compose(command, Ssh.Posix, prelude)));
      && (job.Some? && job.value.execution == Intended(command, prelude) <==> StartsACommand(command, prelude.env))
      && (job.Some? ==>
            && job.value.outside == Meanings([ToFile(id, "/log")] + QUIET)
            && job.value.record
               == Simple([], [Letters("echo", Bare), Letters("$?", Bare)], Meanings([ToFile(id, "/exit")])))
  {
    JobParses(id, command, prelude);
    JobMeaning(id, Composed(command, prelude));
    ComposedRuns(command, prelude);
  }

  lemma JobParses(id: string, command: seq<string>, prelude: Ssh.Prelude)
    requires Jobs.IsValidId(id) && command != [] && AreNames(prelude.env)
    ensures Parse(Jobs.UnixJob(id, Ssh.Compose(command, Ssh.Posix, prelude)))
         == Meaning(JobSequence(id, Composed(command, prelude)))
  {
    var line := Composed(command, prelude);
    ComposedSound(command, prelude);
    JobSound(id, line);
    PrintComposed(command, prelude, JobTail(id));
    PrintJob(id, line, Ssh.Compose(command, Ssh.Posix, prelude));
    ReadBack(JobSequence(id, line));
  }

  lemma JobMeaning(id: string, line: Sequence)
    ensures Meaning(JobSequence(id, line))
         == if Meaning(line).None? then None
            else Some(Cons(Subshell(Meaning(line).value, Meanings([ToFile(id, "/log")] + QUIET)), ";",
                   Cons(Simple([], [Letters("echo", Bare), Letters("$?", Bare)], Meanings([ToFile(id, "/exit")])), "", Nil)))
  {
    EchoMeaning("$?", id, "/exit");
  }

  /** The third shell is handed the job's text to the letter, whatever the command, its
      directory and its variables hold. */
  lemma TextReadBack(id: string, command: seq<string>, prelude: Ssh.Prelude)
    requires Jobs.IsValidId(id)
    ensures ThroughTwoShells(Ssh.Compose(Jobs.StartUnix(id, command, prelude), Ssh.Posix, Ssh.NO_PRELUDE))
         == Some(Jobs.UnixJob(id, Ssh.Compose(command, Ssh.Posix, prelude)))
  {
    var text := Jobs.UnixJob(id, Ssh.Compose(command, Ssh.Posix, prelude));
    LoginShell(Jobs.UnixScript(id, Ssh.Join(command), text));
    ScriptSound(id, Ssh.Join(command), text);
    PrintScript(id, Ssh.Join(command), text);
    ReadBack(ScriptSequence(id, Ssh.Join(command), text));
    ScriptMeaning(id, Ssh.Join(command), text);
  }

  /** Three shells later, the guest runs exactly the words, directory and variables given
      to `vitro exec --detach` - whenever the first word reaches a shell as a command, and
      only then. */
  lemma StartReadBack(id: string, command: seq<string>, prelude: Ssh.Prelude)
    requires Jobs.IsValidId(id) && command != [] && AreNames(prelude.env)
    ensures
      var line := Ssh.Compose(Jobs.StartUnix(id, command, prelude), Ssh.Posix, Ssh.NO_PRELUDE);
      var job := ThroughThreeShells(line);
      && (job.Some? && job.value.execution == Intended(command, prelude) <==> StartsACommand(command, prelude.env))
      && (job.Some? ==>
            && job.value.outside == Meanings([ToFile(id, "/log")] + QUIET)
            && job.value.record
               == Simple([], [Letters("echo", Bare), Letters("$?", Bare)], Meanings([ToFile(id, "/exit")])))
  {
    TextReadBack(id, command, prelude);
    JobReadBack(id, command, prelude);
  }

  lemma LoginShell(script: string)
    ensures
      var login := LineRuns(Ssh.Compose(["sh", "-c", script], Ssh.Posix, Ssh.NO_PRELUDE));
      && login.Some? && |login.value.argv| == 3 && login.value.argv[..2] == ["sh", "-c"]
      && login.value.argv[2] == script
  {
    var words := ["sh", "-c", script];
    ComposeReadBack(words, Ssh.NO_PRELUDE);
    assert words[..2] == ["sh", "-c"];
  }
}
