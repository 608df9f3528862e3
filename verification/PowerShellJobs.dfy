/** The line that starts a job in a Windows guest, read back whole: exactly when no string in it
    holds a typographic quotation mark. That it is so only then is a matter of counting the
    marks. */
module PowerShellJobs {
  import opened Wrappers
  import opened Ssh
  import opened PowerShell
  import opened PowerShellScripts
  import Jobs

  /** The job that a line for PowerShell starts: its directory, the text noted in `cmd`, and
      what the script in `run.ps1` says, which begins with `n` statements. */
  datatype Start = Start(dir: string, text: string, script: Script)

  function ReadStart(line: string, n: nat): Option<Start> {
    var (values, rest) :- Match(STARTING, line);
    if |values| < 5 || rest != "" || values != StartStrings(values[0], values[2], values[4]) then None else
    var script :- ReadScript(values[4], n);
    Some(Start(values[0], values[2], script))
  }

  lemma ReadsAsStart(id: string, text: string, script: string, n: nat)
    requires Jobs.IsValidId(id) && HasNoTypographicQuote(text) && HasNoTypographicQuote(script)
    ensures
      var found := ReadScript(script, n);
      ReadStart(Jobs.WindowsLine(id, text, script), n)
      == if found.None? then None else Some(Start(".vitro-jobs\\" + id, text, found.value))
  {
    StartReads(id, text, script);
    StartStringsAre(".vitro-jobs\\" + id, text, script);
  }

  lemma StartStringsAre(dir: string, text: string, script: string)
    ensures
      var values := StartStrings(dir, text, script);
      |values| >= 5 && values[0] == dir && values[2] == text && values[4] == script
  {
  }

  // ----- When all is plain -----

  lemma PlainAppend(a: string, b: string)
    ensures HasNoTypographicQuote(a + b) <==> HasNoTypographicQuote(a) && HasNoTypographicQuote(b)
  {
    assert forall i :: 0 <= i < |a| ==> (a + b)[i] == a[i];
    assert forall i :: 0 <= i < |b| ==> (a + b)[|a| + i] == b[i];
  }

  lemma {:induction false} PlainReplaced(value: string)
    requires HasNoTypographicQuote(value)
    ensures HasNoTypographicQuote(Replace(value, '\'', "''"))
  {
    if value != [] {
      assert forall i :: 0 <= i < |value| - 1 ==> value[1..][i] == value[i + 1];
      PlainReplaced(value[1..]);
    }
  }

  lemma PlainQuoted(value: string)
    requires HasNoTypographicQuote(value)
    ensures HasNoTypographicQuote(PowershellLiteral(value))
  {
    PlainReplaced(value);
  }

  lemma {:induction false} PlainVariables(env: seq<Variable>)
    requires AreVariables(env) && ArePlainValues(env)
    ensures HasNoTypographicQuote(PowershellVariables(env))
  {
    if env != [] {
      var name, value := env[0].name, PowershellLiteral(env[0].value);
      PlainQuoted(env[0].value);
      PlainVariables(env[1..]);
      PlainAppend("$env:", name);
      PlainAppend("$env:" + name, "=");
      PlainAppend("$env:" + name + "=", value);
      PlainAppend("$env:" + name + "=" + value, "; ");
      PlainAppend("$env:" + name + "=" + value + "; ", PowershellVariables(env[1..]));
    }
  }

  lemma PlainFreshPath()
    ensures HasNoTypographicQuote(FRESH_PATH)
  {
    PlainPathOf("Machine");
    PlainPathOf("User");
  }

  lemma PlainPathOf(scope: string)
    requires HasNoTypographicQuote(scope)
    ensures HasNoTypographicQuote(PathOf(scope))
  {
    assert HasNoTypographicQuote("[Environment]::") && HasNoTypographicQuote("GetEnvironmentVariable(");
  }

  lemma PlainLocation(path: string)
    requires HasNoTypographicQuote(path)
    ensures HasNoTypographicQuote("Set-Location -LiteralPath " + PowershellLiteral(path) + " -ErrorAction Stop; ")
  {
    PlainQuoted(path);
    PlainAppend("Set-Location -LiteralPath ", PowershellLiteral(path));
    PlainAppend("Set-Location -LiteralPath " + PowershellLiteral(path), " -ErrorAction Stop; ");
  }

  lemma PlainPrelude(prelude: Prelude)
    requires AreVariables(prelude.env) && IsPlainPrelude(prelude)
    ensures HasNoTypographicQuote(RawPrelude(prelude))
  {
    var a := if prelude.freshPath then FRESH_PATH else "";
    var b := if prelude.cwd.None? then "" else
      "Set-Location -LiteralPath " + PowershellLiteral(prelude.cwd.value) + " -ErrorAction Stop; ";
    PlainFreshPath();
    if prelude.cwd.Some? {
      PlainLocation(prelude.cwd.value);
    }
    PlainVariables(prelude.env);
    PlainAppend(a, b);
    PlainAppend(a + b, PowershellVariables(prelude.env));
  }

  lemma PlainNoting()
    ensures HasNoTypographicQuote(Jobs.NOTE_CODE)
  {
    var a, b, c := "$code = $LASTEXITCODE; ", "if ($null -eq $code) ", "{ $code = [int](-not $?) }";
    assert HasNoTypographicQuote(a);
    assert HasNoTypographicQuote(b);
    assert HasNoTypographicQuote(c);
    PlainAppend(b, c);
    PlainAppend(a, b + c);
  }

  lemma PlainSaving()
    ensures HasNoTypographicQuote(Jobs.SAVE_CODE)
  {
    var a, b, c := "Set-Content -LiteralPath ", "(Join-Path $PSScriptRoot ", ") -Value $code -Encoding ascii";
    assert HasNoTypographicQuote(a);
    assert HasNoTypographicQuote(b);
    assert HasNoTypographicQuote(c);
    PlainAppend("'exit'", c);
    PlainAppend(b, "'exit'" + c);
    PlainAppend(a, b + ("'exit'" + c));
  }

  lemma PlainScript(line: string)
    requires HasNoTypographicQuote(line)
    ensures HasNoTypographicQuote(Jobs.WindowsScript(line))
  {
    PlainNoting();
    PlainSaving();
    PlainAppend(line, "\n");
    PlainAppend(line + "\n", Jobs.NOTE_CODE);
    PlainAppend(line + "\n" + Jobs.NOTE_CODE, "\n");
    PlainAppend(line + "\n" + Jobs.NOTE_CODE + "\n", Jobs.SAVE_CODE);
    PlainAppend(line + "\n" + Jobs.NOTE_CODE + "\n" + Jobs.SAVE_CODE, "\n");
  }

  lemma StartsPlain(id: string, command: seq<string>, prelude: Prelude)
    requires Jobs.IsValidId(id) && AreVariables(prelude.env)
    requires HasNoTypographicQuote(Join(command)) && IsPlainPrelude(prelude)
    ensures
      var script := Script(Statements(prelude), Join(command), "exit");
      ReadStart(Jobs.StartWindows(id, command, prelude)[0], |Statements(prelude)|)
      == Some(Start(".vitro-jobs\\" + id, Join(command), script))
  {
    var text, line := Join(command), Compose(command, Raw, prelude);
    PlainPrelude(prelude);
    PlainAppend(RawPrelude(prelude), text);
    PlainScript(line);
    ReadsAsStart(id, text, Jobs.WindowsScript(line), |Statements(prelude)|);
    ScriptReadBack(command, prelude);
  }

  // ----- Only then: what reading consumes -----

  /** Length of a pattern's own text, with two marks around each string. */
  function FrameLength(pattern: seq<Part>): nat {
    if pattern == [] then 0
    else (match pattern[0] case Token(text) => |text| case Quoted => 2 case Name => 0) + FrameLength(pattern[1..])
  }

  function FrameMarks(pattern: seq<Part>): nat {
    if pattern == [] then 0
    else (match pattern[0] case Token(text) => Marks(text) case Quoted => 2 case Name => 0) + FrameMarks(pattern[1..])
  }

  /** Length of the strings with every mark in them twice. */
  function Extent(values: seq<string>): nat {
    if values == [] then 0 else |values[0]| + Marks(values[0]) + Extent(values[1..])
  }

  function MarksIn(values: seq<string>): nat {
    if values == [] then 0 else Marks(values[0]) + MarksIn(values[1..])
  }

  lemma {:induction false} NamesHaveNoMarks(s: string)
    requires IsName(s)
    ensures Marks(s) == 0
  {
    if s != "" {
      assert IsNameChar(s[0]);
      assert forall i :: 0 <= i < |s| - 1 ==> s[1..][i] == s[i + 1];
      NamesHaveNoMarks(s[1..]);
    }
  }

  /** `s` is a part of this length and with this many marks, and then `rest`. */
  predicate Takes(s: string, length: nat, marks: nat, rest: string) {
    |s| == length + |rest| && Marks(s) == marks + Marks(rest)
  }

  lemma TakesText(text: string, s: string)
    requires text <= s
    ensures Takes(s, |text|, Marks(text), s[|text|..])
  {
    assert s == text + s[|text|..];
    MarksAppend(text, s[|text|..]);
  }

  lemma TakesQuoted(s: string)
    requires s != "" && IsSingleQuote(s[0]) && ReadLiteral(s[1..]).Some?
    ensures
      var (text, after) := ReadLiteral(s[1..]).value;
      Takes(s, |text| + Marks(text) + 2, 2 * Marks(text) + 2, after)
  {
    var (text, after) := ReadLiteral(s[1..]).value;
    var read := s[1..][..|s| - 1 - |after|];
    ReadCounts(s[1..]);
    assert s[1..] == read + after;
    MarksAppend(read, after);
  }

  lemma {:induction false} MatchTakes(pattern: seq<Part>, s: string)
    requires Match(pattern, s).Some?
    ensures
      var (values, rest) := Match(pattern, s).value;
      Takes(s, FrameLength(pattern) + Extent(values), FrameMarks(pattern) + 2 * MarksIn(values), rest)
  {
    if pattern != [] {
      match pattern[0]
      case Token(text) =>
        TakesText(text, s);
        MatchTakes(pattern[1..], s[|text|..]);
      case Name =>
        var k := NameLength(s);
        TakesText(s[..k], s);
        NamesHaveNoMarks(s[..k]);
        MatchTakes(pattern[1..], s[k..]);
        TakesValue(s[..k], Match(pattern[1..], s[k..]).value.0);
      case Quoted =>
        var (text, after) := ReadLiteral(s[1..]).value;
        TakesQuoted(s);
        MatchTakes(pattern[1..], after);
        TakesValue(text, Match(pattern[1..], after).value.0);
    }
  }

  lemma {:induction false} TakesValue(value: string, more: seq<string>)
    ensures Extent([value] + more) == |value| + Marks(value) + Extent(more)
    ensures MarksIn([value] + more) == Marks(value) + MarksIn(more)
  {
    assert ([value] + more)[1..] == more;
  }

  // ----- Only then: statements and script -----

  /** What a pattern takes besides the strings and names it finds. */
  datatype Frame = Frame(length: nat, marks: nat)

  datatype Frames = Frames(path: Frame, location: Frame, setting: Frame)

  function FrameOf(pattern: seq<Part>): Frame {
    Frame(FrameLength(pattern), FrameMarks(pattern))
  }

  /** Length of a statement, with each mark in its strings twice. */
  function StatementLength(statement: Statement, f: Frames): nat {
    match statement
    case FreshPath => f.path.length
    case Location(path) => f.location.length + |path| + Marks(path)
    case Setting(name, value) => f.setting.length + |name| + Marks(name) + |value| + Marks(value)
  }

  function StatementMarks(statement: Statement, f: Frames): nat {
    match statement
    case FreshPath => f.path.marks
    case Location(path) => f.location.marks + 2 * Marks(path)
    case Setting(name, value) => f.setting.marks + 2 * Marks(name) + 2 * Marks(value)
  }

  function StatementsLength(statements: seq<Statement>, f: Frames): nat {
    if statements == [] then 0 else StatementLength(statements[0], f) + StatementsLength(statements[1..], f)
  }

  function StatementsMarks(statements: seq<Statement>, f: Frames): nat {
    if statements == [] then 0 else StatementMarks(statements[0], f) + StatementsMarks(statements[1..], f)
  }

  lemma {:induction false} WordsTake(pattern: seq<Part>, s: string)
    requires Match(pattern, s).Some?
    ensures
      var ((words, rest), f) := (Match(pattern, s).value, FrameOf(pattern));
      && (|words| == 1 ==> Takes(s, f.length + |words[0]| + Marks(words[0]), f.marks + 2 * Marks(words[0]), rest))
      && (|words| == 2 ==>
            Takes(s, f.length + |words[0]| + Marks(words[0]) + |words[1]| + Marks(words[1]),
                  f.marks + 2 * Marks(words[0]) + 2 * Marks(words[1]), rest))
  {
    var words := Match(pattern, s).value.0;
    MatchTakes(pattern, s);
    if |words| == 1 {
      TakesValue(words[0], []);
      assert words == [words[0]] + [];
    } else if |words| == 2 {
      TakesValue(words[1], []);
      TakesValue(words[0], [words[1]] + []);
      assert words == [words[0]] + ([words[1]] + []);
    }
  }

  /** The numbers are right for the statement that `s` begins with. */
  ghost predicate Fits(s: string, f: Frames) {
    ReadStatement(s).Some? ==>
      var (statement, rest) := ReadStatement(s).value;
      Takes(s, StatementLength(statement, f), StatementMarks(statement, f), rest)
  }

  ghost predicate AreFrames(f: Frames) {
    forall s :: Fits(s, f)
  }

  lemma {:induction false} FramesOf(path: seq<Part>, location: seq<Part>, setting: seq<Part>, scopes: seq<string>) returns (f: Frames)
    requires path == PATH && location == LOCATION && setting == SETTING && scopes == SCOPES
    ensures AreFrames(f)
  {
    f := Frames(Frame(FrameLength(path) + Extent(scopes), FrameMarks(path) + 2 * MarksIn(scopes)),
                FrameOf(location), FrameOf(setting));
    forall s ensures Fits(s, f) {
      var p, l, t := Match(path, s), Match(location, s), Match(setting, s);
      if p.Some? && p.value.0 == scopes {
        MatchTakes(path, s);
      } else if l.Some? && |l.value.0| == 1 {
        WordsTake(location, s);
      } else if t.Some? {
        WordsTake(setting, s);
      }
    }
  }

  lemma {:induction false} StatementsTake(s: string, n: nat, f: Frames)
    requires ReadStatements(s, n).Some? && AreFrames(f)
    ensures
      var (statements, rest) := ReadStatements(s, n).value;
      Takes(s, StatementsLength(statements, f), StatementsMarks(statements, f), rest)
    decreases n
  {
    if n > 0 {
      var (first, after) := ReadStatement(s).value;
      var more := ReadStatements(after, n - 1).value.0;
      assert Fits(s, f);
      StatementsTake(after, n - 1, f);
      assert ([first] + more)[1..] == more;
    }
  }

  lemma {:induction false} MarksOfLine(front: string, last: string, s: string)
    requires s == front + last + "\n"
    ensures |s| == |front| + |last| + 1 && Marks(s) == Marks(front) + Marks(last)
  {
    MarksAppend(front, last);
    MarksAppend(front + last, "\n");
    assert Marks("\n") == 0;
  }

  lemma {:induction false} LastLineSplits(s: string, front: string, last: string)
    requires LastLine(s) == Some((front, last))
    ensures s == front + last + "\n"
  {
    var body := s[..|s| - 1];
    assert s == body + [s[|s| - 1]];
    assert body == body[..LineStart(body)] + body[LineStart(body)..];
  }

  lemma {:induction false} LastTwoLinesSplit(s: string, line: string, second: string, last: string) returns (body: string, front: string)
    requires LastTwoLines(s) == Some((line, second, last))
    ensures s == front + last + "\n" && front == body + second + "\n" && body == line + "\n"
  {
    front := LastLine(s).value.0;
    body := LastLine(front).value.0;
    LastLineSplits(s, front, last);
    LastLineSplits(front, body, second);
    assert body == body[..|body| - 1] + [body[|body| - 1]];
  }

  lemma {:induction false} LinesTake(s: string, line: string, second: string, last: string, body: string, front: string)
    requires s == front + last + "\n" && front == body + second + "\n" && body == line + "\n"
    ensures |s| == |line| + |second| + |last| + 3 && Marks(s) == Marks(line) + Marks(second) + Marks(last)
  {
    MarksOfLine(front, last, s);
    MarksOfLine(body, second, front);
    assert body == line + "" + "\n";
    MarksOfLine(line, "", body);
    assert Marks("") == 0;
  }

  lemma {:induction false} LastTwoLinesTake(s: string, line: string, second: string, last: string)
    requires LastTwoLines(s) == Some((line, second, last))
    ensures |s| == |line| + |second| + |last| + 3 && Marks(s) == Marks(line) + Marks(second) + Marks(last)
  {
    var body, front := LastTwoLinesSplit(s, line, second, last);
    LinesTake(s, line, second, last, body, front);
  }

  function ScriptLength(script: Script, f: Frames): nat {
    StatementsLength(script.statements, f) + |script.command|
  }

  function ScriptMarks(script: Script, f: Frames): nat {
    StatementsMarks(script.statements, f) + Marks(script.command)
  }

  /** The parts of a script that is read. */
  lemma {:induction false} ScriptParts(s: string, n: nat, script: Script, noting: seq<Part>, saving: seq<Part>)
      returns (line: string, second: string, last: string)
    requires noting == NOTING && saving == SAVING && ReadScript(s, n) == Some(script)
    ensures LastTwoLines(s) == Some((line, second, last)) && Match(noting, second) == Some(([], ""))
    ensures Match(saving, last) == Some(([script.exitFile], ""))
    ensures ReadStatements(line, n) == Some((script.statements, script.command))
  {
    var lines := LastTwoLines(s).value;
    line, second, last := lines.0, lines.1, lines.2;
    var files := Match(saving, last).value.0;
    assert files == [files[0]];
  }

  lemma {:induction false} PartsTake(line: string, second: string, last: string, n: nat, script: Script, f: Frames,
                  noting: seq<Part>, saving: seq<Part>)
    requires AreFrames(f) && Match(noting, second) == Some(([], "")) && Match(saving, last) == Some(([script.exitFile], ""))
    requires ReadStatements(line, n) == Some((script.statements, script.command))
    ensures |line| == ScriptLength(script, f) && Marks(line) == ScriptMarks(script, f)
    ensures |second| == FrameLength(noting) && Marks(second) == FrameMarks(noting)
    ensures |last| == FrameLength(saving) + |script.exitFile| + Marks(script.exitFile)
    ensures Marks(last) == FrameMarks(saving) + 2 * Marks(script.exitFile)
  {
    StatementsTake(line, n, f);
    WordsTake(saving, last);
    MatchTakes(noting, second);
  }

  lemma {:induction false} ScriptTakes(s: string, n: nat, script: Script, f: Frames, noting: seq<Part>, saving: seq<Part>)
    requires noting == NOTING && saving == SAVING && AreFrames(f) && ReadScript(s, n) == Some(script)
    ensures |s| == ScriptLength(script, f) + FrameLength(noting) + FrameLength(saving)
                   + |script.exitFile| + Marks(script.exitFile) + 3
    ensures Marks(s) == ScriptMarks(script, f) + FrameMarks(noting) + FrameMarks(saving) + 2 * Marks(script.exitFile)
  {
    var line, second, last := ScriptParts(s, n, script, noting, saving);
    PartsTake(line, second, last, n, script, f, noting, saving);
    LastTwoLinesTake(s, line, second, last);
  }

  /** Two scripts that are read differ in length and in marks as what is read from them does. */
  lemma {:induction false} ScriptsDiffer(s: string, a: Script, t: string, b: Script, n: nat, f: Frames)
    requires AreFrames(f) && ReadScript(s, n) == Some(a) && ReadScript(t, n) == Some(b) && a.exitFile == b.exitFile
    ensures |s| - |t| == ScriptLength(a, f) - ScriptLength(b, f)
    ensures Marks(s) - Marks(t) == ScriptMarks(a, f) - ScriptMarks(b, f)
  {
    ScriptTakes(s, n, a, f, NOTING, SAVING);
    ScriptTakes(t, n, b, f, NOTING, SAVING);
  }

  // ----- Only then: dulled marks -----

  /** The text with something plain for every typographic mark. */
  function Dulled(text: string): string {
    if text == "" then "" else [if IsTypographicQuote(text[0]) then '.' else text[0]] + Dulled(text[1..])
  }

  function DulledValues(env: seq<Variable>): seq<Variable> {
    if env == [] then [] else [Variable(env[0].name, Dulled(env[0].value))] + DulledValues(env[1..])
  }

  function DulledPrelude(prelude: Prelude): Prelude {
    Prelude(if prelude.cwd.Some? then Some(Dulled(prelude.cwd.value)) else None, DulledValues(prelude.env), prelude.freshPath)
  }

  /** The typographic marks that go. */
  function LostIn(env: seq<Variable>): nat {
    if env == [] then 0 else TypographicMarks(env[0].value) + LostIn(env[1..])
  }

  function Lost(prelude: Prelude): nat {
    (if prelude.cwd.Some? then TypographicMarks(prelude.cwd.value) else 0) + LostIn(prelude.env)
  }

  lemma {:induction false} DulledIs(text: string)
    ensures |Dulled(text)| == |text| && TypographicMarks(Dulled(text)) == 0
    ensures Marks(Dulled(text)) + TypographicMarks(text) == Marks(text)
  {
    if text != "" {
      DulledIs(text[1..]);
      assert Dulled(text)[1..] == Dulled(text[1..]);
    }
  }

  lemma {:induction false} MarksOfLiteral(text: string)
    ensures Marks(PowershellLiteral(text)) == 2 * Marks(text) - TypographicMarks(text) + 2
    ensures |PowershellLiteral(text)| == |text| + Marks(text) - TypographicMarks(text) + 2
  {
    MarksClosed(text);
    assert PowershellLiteral(text) == "'" + (Doubled(text) + "'");
    MarksAppend("'", Doubled(text) + "'");
    assert Marks("'") == 1;
  }

  lemma {:induction false} DulledLiteral(text: string)
    ensures |PowershellLiteral(Dulled(text))| == |PowershellLiteral(text)|
    ensures Marks(PowershellLiteral(Dulled(text))) + TypographicMarks(text) == Marks(PowershellLiteral(text))
  {
    DulledIs(text);
    MarksOfLiteral(text);
    MarksOfLiteral(Dulled(text));
  }

  lemma {:induction false} MarksOfThree(a: string, b: string, c: string)
    ensures Marks(a + b + c) == Marks(a) + Marks(b) + Marks(c)
  {
    MarksAppend(a + b, c);
    MarksAppend(a, b);
  }

  lemma {:induction false} SettingText(name: string, value: string, more: string)
    ensures |"$env:" + name + "=" + PowershellLiteral(value) + "; " + more|
         == 8 + |name| + |PowershellLiteral(value)| + |more|
    ensures Marks("$env:" + name + "=" + PowershellLiteral(value) + "; " + more)
         == Marks("$env:" + name + "=") + Marks(PowershellLiteral(value) + "; ") + Marks(more)
  {
    var a, b := "$env:" + name + "=", PowershellLiteral(value) + "; ";
    MarksOfThree(a, b, more);
    assert "$env:" + name + "=" + PowershellLiteral(value) + "; " + more == a + b + more;
  }

  lemma {:induction false} VariablesDulled(env: seq<Variable>)
    ensures |PowershellVariables(DulledValues(env))| == |PowershellVariables(env)|
    ensures Marks(PowershellVariables(DulledValues(env))) + LostIn(env) == Marks(PowershellVariables(env))
  {
    if env != [] {
      var name, value, more := env[0].name, env[0].value, PowershellVariables(env[1..]);
      var dulled := DulledValues(env);
      assert dulled[0] == Variable(name, Dulled(value)) && dulled[1..] == DulledValues(env[1..]);
      VariablesDulled(env[1..]);
      DulledLiteral(value);
      SettingText(name, value, more);
      SettingText(name, Dulled(value), PowershellVariables(dulled[1..]));
      MarksAppend(PowershellLiteral(value), "; ");
      MarksAppend(PowershellLiteral(Dulled(value)), "; ");
    }
  }

  lemma {:induction false} SettingsDulled(env: seq<Variable>, f: Frames)
    ensures |Settings(DulledValues(env))| == |Settings(env)|
    ensures StatementsLength(Settings(env), f) == StatementsLength(Settings(DulledValues(env)), f) + LostIn(env)
    ensures StatementsMarks(Settings(env), f) == StatementsMarks(Settings(DulledValues(env)), f) + 2 * LostIn(env)
    ensures ArePlainValues(DulledValues(env)) && (AreVariables(env) ==> AreVariables(DulledValues(env)))
  {
    if env != [] {
      var dulled := DulledValues(env);
      assert dulled[1..] == DulledValues(env[1..]);
      SettingsDulled(env[1..], f);
      DulledIs(env[0].value);
      NoTypographicMarks(Dulled(env[0].value));
      assert Settings(env)[1..] == Settings(env[1..]) && Settings(dulled)[1..] == Settings(dulled[1..]);
    }
  }

  lemma {:induction false} LocationText(path: string)
    ensures |"Set-Location -LiteralPath " + PowershellLiteral(path) + " -ErrorAction Stop; "|
         == |PowershellLiteral(path)| + |"Set-Location -LiteralPath "| + |" -ErrorAction Stop; "|
    ensures Marks("Set-Location -LiteralPath " + PowershellLiteral(path) + " -ErrorAction Stop; ")
         == Marks("Set-Location -LiteralPath ") + Marks(PowershellLiteral(path)) + Marks(" -ErrorAction Stop; ")
  {
    MarksOfThree("Set-Location -LiteralPath ", PowershellLiteral(path), " -ErrorAction Stop; ");
  }

  lemma {:induction false} PreludeDulled(prelude: Prelude)
    ensures |RawPrelude(DulledPrelude(prelude))| == |RawPrelude(prelude)|
    ensures Marks(RawPrelude(DulledPrelude(prelude))) + Lost(prelude) == Marks(RawPrelude(prelude))
  {
    var path := if prelude.freshPath then FRESH_PATH else "";
    var before, after := LocationOf(prelude.cwd), LocationOf(DulledPrelude(prelude).cwd);
    MarksOfThree(path, before, PowershellVariables(prelude.env));
    MarksOfThree(path, after, PowershellVariables(DulledValues(prelude.env)));
    VariablesDulled(prelude.env);
    LocationDulled(prelude.cwd);
  }

  lemma {:induction false} LocationDulled(cwd: Option<string>)
    ensures cwd.Some? ==>
      && |LocationOf(Some(Dulled(cwd.value)))| == |LocationOf(cwd)|
      && Marks(LocationOf(Some(Dulled(cwd.value)))) + TypographicMarks(cwd.value) == Marks(LocationOf(cwd))
  {
    if cwd.Some? {
      LocationText(cwd.value);
      LocationText(Dulled(cwd.value));
      DulledLiteral(cwd.value);
    }
  }

  lemma {:induction false} StatementsOf(a: seq<Statement>, b: seq<Statement>, f: Frames)
    requires |a| <= 1
    ensures StatementsLength(a + b, f) == StatementsLength(a, f) + StatementsLength(b, f)
    ensures StatementsMarks(a + b, f) == StatementsMarks(a, f) + StatementsMarks(b, f)
  {
    if a == [] {
      assert a + b == b;
    } else {
      assert (a + b)[1..] == b && a[1..] == [];
    }
  }

  lemma {:induction false} StatementsDulled(prelude: Prelude, f: Frames)
    ensures |Statements(DulledPrelude(prelude))| == |Statements(prelude)|
    ensures StatementsLength(Statements(prelude), f) == StatementsLength(Statements(DulledPrelude(prelude)), f) + Lost(prelude)
    ensures StatementsMarks(Statements(prelude), f) == StatementsMarks(Statements(DulledPrelude(prelude)), f) + 2 * Lost(prelude)
    ensures IsPlainPrelude(DulledPrelude(prelude))
    ensures AreVariables(prelude.env) ==> AreVariables(DulledPrelude(prelude).env)
  {
    var path: seq<Statement> := if prelude.freshPath then [FreshPath] else [];
    var before, after := prelude.cwd, DulledPrelude(prelude).cwd;
    SettingsDulled(prelude.env, f);
    LocationsDulled(before, after, f);
    StatementsOf(path, Locations(before) + Settings(prelude.env), f);
    StatementsOf(Locations(before), Settings(prelude.env), f);
    StatementsOf(path, Locations(after) + Settings(DulledValues(prelude.env)), f);
    StatementsOf(Locations(after), Settings(DulledValues(prelude.env)), f);
  }

  lemma {:induction false} LocationsDulled(before: Option<string>, after: Option<string>, f: Frames)
    requires after == if before.Some? then Some(Dulled(before.value)) else None
    ensures
      var lost := if before.Some? then TypographicMarks(before.value) else 0;
      && |Locations(before)| == |Locations(after)|
      && StatementsLength(Locations(before), f) == StatementsLength(Locations(after), f) + lost
      && StatementsMarks(Locations(before), f) == StatementsMarks(Locations(after), f) + 2 * lost
      && (after.Some? ==> HasNoTypographicQuote(after.value))
  {
    if before.Some? {
      DulledIs(before.value);
      NoTypographicMarks(Dulled(before.value));
      assert Locations(before)[1..] == [] && Locations(after)[1..] == [];
    }
  }

  lemma {:induction false} ScriptText(line: string, noting: string, saving: string)
    ensures Marks(line + "\n" + noting + "\n" + saving + "\n") == Marks(line) + Marks(noting) + Marks(saving)
  {
    var body := line + "\n";
    var front := body + noting + "\n";
    MarksOfLine(front, saving, front + saving + "\n");
    MarksOfLine(body, noting, front);
    MarksAppend(line, "\n");
    assert Marks("\n") == 0;
  }

  /** Dulling shortens no script and takes just the typographic marks out of it. */
  lemma {:induction false} ScriptDulled(prelude: Prelude, text: string, noting: string, saving: string)
    ensures
      var s := RawPrelude(prelude) + text + "\n" + noting + "\n" + saving + "\n";
      var t := RawPrelude(DulledPrelude(prelude)) + text + "\n" + noting + "\n" + saving + "\n";
      |t| == |s| && Marks(t) + Lost(prelude) == Marks(s)
  {
    PreludeDulled(prelude);
    ScriptText(RawPrelude(prelude) + text, noting, saving);
    ScriptText(RawPrelude(DulledPrelude(prelude)) + text, noting, saving);
    MarksAppend(RawPrelude(prelude), text);
    MarksAppend(RawPrelude(DulledPrelude(prelude)), text);
  }

  /** A text that is read as the script was meant has more marks and is longer than the script, by
      the typographic marks. */
  lemma {:induction false} ReadScriptIsLonger(read: string, script: string, command: seq<string>, prelude: Prelude)
    requires AreVariables(prelude.env) && script == Jobs.WindowsScript(Compose(command, Raw, prelude))
    requires ReadScript(read, |Statements(prelude)|) == Some(Script(Statements(prelude), Join(command), "exit"))
    ensures |read| + Marks(read) == |script| + Marks(script) + 2 * Lost(prelude)
  {
    var dulled, n := DulledPrelude(prelude), |Statements(prelude)|;
    var f := FramesOf(PATH, LOCATION, SETTING, SCOPES);
    StatementsDulled(prelude, f);
    ScriptReadBack(command, dulled);
    var plain := Jobs.WindowsScript(Compose(command, Raw, dulled));
    ScriptDulled(prelude, Join(command), Jobs.NOTE_CODE, Jobs.SAVE_CODE);
    ScriptsDiffer(read, Script(Statements(prelude), Join(command), "exit"),
                  plain, Script(Statements(dulled), Join(command), "exit"), n, f);
  }

  lemma {:induction false} ExtentOfFive(a: string, b: string, c: string, d: string, e: string, more: seq<string>)
    ensures Extent([a] + ([b] + ([c] + ([d] + ([e] + more)))))
         == Extent([a] + ([b] + ([d] + more))) + |c| + Marks(c) + |e| + Marks(e)
  {
    TakesValue(e, more);
    TakesValue(d, [e] + more);
    TakesValue(c, [d] + ([e] + more));
    TakesValue(b, [c] + ([d] + ([e] + more)));
    TakesValue(a, [b] + ([c] + ([d] + ([e] + more))));
    TakesValue(d, more);
    TakesValue(b, [d] + more);
    TakesValue(a, [b] + ([d] + more));
  }

  lemma {:induction false} LineTakes(line: string, dir: string, text: string, script: string, starting: seq<Part>, run: seq<string>)
    requires starting == STARTING && run == RUN_STRINGS
    requires Match(starting, line) == Some((StartStrings(dir, text, script), ""))
    ensures |line| == FrameLength(starting) + Extent([dir] + (["cmd"] + (["run.ps1"] + run)))
                      + |text| + Marks(text) + |script| + Marks(script)
  {
    MatchTakes(starting, line);
    ExtentOfFive(dir, "cmd", text, "run.ps1", script, run);
  }

  lemma {:induction false} LineDulled(id: string, text: string, script: string)
    ensures |Jobs.WindowsLine(id, Dulled(text), Dulled(script))| == |Jobs.WindowsLine(id, text, script)|
  {
    DulledLiteral(text);
    DulledLiteral(script);
  }

  /** What is read for the script in a line falls short of it by the typographic marks. */
  lemma {:induction false} ReadIsShorter(id: string, text: string, script: string, read: string)
    requires Jobs.IsValidId(id)
    requires Match(STARTING, Jobs.WindowsLine(id, text, script)) == Some((StartStrings(".vitro-jobs\\" + id, text, read), ""))
    ensures |read| + Marks(read) + TypographicMarks(text) + TypographicMarks(script) == |script| + Marks(script)
  {
    var dir := ".vitro-jobs\\" + id;
    LineTakes(Jobs.WindowsLine(id, text, script), dir, text, read, STARTING, RUN_STRINGS);
    DulledIs(text);
    DulledIs(script);
    NoTypographicMarks(Dulled(text));
    NoTypographicMarks(Dulled(script));
    StartReads(id, Dulled(text), Dulled(script));
    LineTakes(Jobs.WindowsLine(id, Dulled(text), Dulled(script)), dir, Dulled(text), Dulled(script), STARTING, RUN_STRINGS);
    LineDulled(id, text, script);
  }

  lemma {:induction false} NothingLost(env: seq<Variable>)
    requires LostIn(env) == 0
    ensures ArePlainValues(env)
  {
    if env != [] {
      NoTypographicMarks(env[0].value);
      NothingLost(env[1..]);
    }
  }

  lemma {:induction false} OnlyPlain(id: string, text: string, script: string, read: string, command: seq<string>, prelude: Prelude)
    requires Jobs.IsValidId(id) && AreVariables(prelude.env)
    requires text == Join(command) && script == Jobs.WindowsScript(Compose(command, Raw, prelude))
    requires Match(STARTING, Jobs.WindowsLine(id, text, script)) == Some((StartStrings(".vitro-jobs\\" + id, text, read), ""))
    requires ReadScript(read, |Statements(prelude)|) == Some(Script(Statements(prelude), text, "exit"))
    ensures HasNoTypographicQuote(text) && IsPlainPrelude(prelude)
  {
    ReadIsShorter(id, text, script, read);
    ReadScriptIsLonger(read, script, command, prelude);
    NoTypographicMarks(text);
    NothingLost(prelude.env);
    if prelude.cwd.Some? {
      NoTypographicMarks(prelude.cwd.value);
    }
  }

  /** The one string that starts a job in a Windows guest is read as this: make the job's
      directory, note the command there, and run a script with the statements asked for, the
      command and its exit code's going to the file `exit`. That is so exactly when neither the
      command nor a string of the prelude holds a typographic quotation mark. */
  lemma {:induction false} StartReadBack(id: string, command: seq<string>, prelude: Prelude)
    requires Jobs.IsValidId(id) && AreVariables(prelude.env)
    ensures
      var lines, text := Jobs.StartWindows(id, command, prelude), Join(command);
      var asked := Start(".vitro-jobs\\" + id, text, Script(Statements(prelude), text, "exit"));
      && |lines| == 1
      && (ReadStart(lines[0], |Statements(prelude)|) == Some(asked)
          <==> HasNoTypographicQuote(text) && IsPlainPrelude(prelude))
  {
    var text, script := Join(command), Jobs.WindowsScript(Compose(command, Raw, prelude));
    if HasNoTypographicQuote(text) && IsPlainPrelude(prelude) {
      StartsPlain(id, command, prelude);
    } else if ReadStart(Jobs.WindowsLine(id, text, script), |Statements(prelude)|)
           == Some(Start(".vitro-jobs\\" + id, text, Script(Statements(prelude), text, "exit"))) {
      var read := ReadFrom(Jobs.WindowsLine(id, text, script), |Statements(prelude)|,
                           ".vitro-jobs\\" + id, text, Script(Statements(prelude), text, "exit"), STARTING);
      OnlyPlain(id, text, script, read, command, prelude);
    }
  }

  lemma {:induction false} ReadFrom(line: string, n: nat, dir: string, text: string, script: Script, starting: seq<Part>)
      returns (read: string)
    requires starting == STARTING && ReadStart(line, n) == Some(Start(dir, text, script))
    ensures Match(starting, line) == Some((StartStrings(dir, text, read), "")) && ReadScript(read, n) == Some(script)
  {
    read := Match(starting, line).value.0[4];
  }
}
