/** What PowerShell makes of the lines vitro writes for it: a small reader of the statements they
    are made of, written down from the language and not from what writes them. Strings are read
    by PowerShell's own rule (`ReadLiteral`). */
module PowerShellScripts {
  import opened Wrappers
  import opened Ssh
  import opened PowerShell
  import Jobs

  // ----- Reading by pattern -----

  /** Part of a pattern: text as it stands, a single-quoted string, or the name of a variable. */
  datatype Part = Token(text: string) | Quoted | Name

  predicate IsNameChar(c: char) {
    'a' <= c <= 'z' || 'A' <= c <= 'Z' || '0' <= c <= '9' || c == '_'
  }

  function NameLength(s: string): (k: nat)
    ensures k <= |s| && forall i :: 0 <= i < k ==> IsNameChar(s[i])
    ensures k < |s| ==> !IsNameChar(s[k])
  {
    if s == "" || !IsNameChar(s[0]) then 0 else 1 + NameLength(s[1..])
  }

  /** The strings and names that the pattern finds at the front of `s`, and what follows. */
  function Match(pattern: seq<Part>, s: string): Option<(seq<string>, string)> {
    if pattern == [] then Some(([], s)) else
    match pattern[0]
    case Token(text) => if text <= s then Match(pattern[1..], s[|text|..]) else None
    case Name =>
      var k := NameLength(s);
      if k == 0 then None else
      var (more, rest) :- Match(pattern[1..], s[k..]);
      Some(([s[..k]] + more, rest))
    case Quoted =>
      if s == "" || !IsSingleQuote(s[0]) then None else
      var (text, after) :- ReadLiteral(s[1..]);
      var (more, rest) :- Match(pattern[1..], after);
      Some(([text] + more, rest))
  }

  /** A pattern, a text, and what the one is to find in the other. */
  datatype Reading = Reading(pattern: seq<Part>, text: string, values: seq<string>, rest: string, plain: bool)

  /** The pattern finds just that when the strings in it are plain, and never those values when
      they are not. */
  ghost predicate Holds(r: Reading) {
    var found := Match(r.pattern, r.text);
    && (r.plain ==> found == Some((r.values, r.rest)))
    && (found.Some? && found.value.0 == r.values ==> r.plain)
  }

  lemma End(rest: string) returns (r: Reading)
    ensures Holds(r) && r == Reading([], rest, [], rest, true)
  {
    r := Reading([], rest, [], rest, true);
  }

  lemma Before(text: string, r: Reading) returns (q: Reading)
    requires Holds(r)
    ensures Holds(q) && q == Reading([Token(text)] + r.pattern, text + r.text, r.values, r.rest, r.plain)
  {
    q := Reading([Token(text)] + r.pattern, text + r.text, r.values, r.rest, r.plain);
    assert q.text[|text|..] == r.text && q.pattern[1..] == r.pattern;
  }

  lemma QuotedBefore(value: string, r: Reading) returns (q: Reading)
    requires Holds(r) && (r.text == "" || !IsSingleQuote(r.text[0]))
    ensures Holds(q)
    ensures q == Reading([Quoted] + r.pattern, PowershellLiteral(value) + r.text, [value] + r.values, r.rest,
                         HasNoTypographicQuote(value) && r.plain)
  {
    q := Reading([Quoted] + r.pattern, PowershellLiteral(value) + r.text, [value] + r.values, r.rest,
                 HasNoTypographicQuote(value) && r.plain);
    LiteralReadBack(value, r.text);
    assert q.text[0] == '\'' && q.pattern[1..] == r.pattern;
    assert q.values[0] == value && q.values[1..] == r.values;
    var found := Match(q.pattern, q.text);
    if found.Some? && found.value.0 == q.values {
      var (first, after) := ReadLiteral(q.text[1..]).value;
      var more := Match(r.pattern, after).value.0;
      assert ([first] + more)[0] == first && ([first] + more)[1..] == more;
    }
  }

  lemma {:induction false} NameEnds(name: string, rest: string)
    requires IsName(name) && (rest == "" || !IsNameChar(rest[0]))
    ensures NameLength(name + rest) == |name|
  {
    if name == "" {
      assert name + rest == rest;
    } else {
      assert (name + rest)[1..] == name[1..] + rest;
      NameEnds(name[1..], rest);
    }
  }

  predicate IsName(name: string) {
    forall i :: 0 <= i < |name| ==> IsNameChar(name[i])
  }

  lemma NameBefore(name: string, r: Reading) returns (q: Reading)
    requires Holds(r) && IsName(name) && name != "" && (r.text == "" || !IsNameChar(r.text[0]))
    ensures Holds(q)
    ensures q == Reading([Name] + r.pattern, name + r.text, [name] + r.values, r.rest, r.plain)
  {
    q := Reading([Name] + r.pattern, name + r.text, [name] + r.values, r.rest, r.plain);
    NameEnds(name, r.text);
    assert q.text[..|name|] == name && q.text[|name|..] == r.text && q.pattern[1..] == r.pattern;
    assert q.values[0] == name && q.values[1..] == r.values;
    var found := Match(q.pattern, q.text);
    if found.Some? && found.value.0 == q.values {
      var more := Match(r.pattern, r.text).value.0;
      assert ([name] + more)[1..] == more;
    }
  }

  predicate IsWord(word: string) {
    forall i :: 0 <= i < |word| ==> !IsSingleQuote(word[i])
  }

  lemma AreWords(a: string, b: string)
    requires IsWord(a) && IsWord(b)
    ensures IsWord(a + b)
  {
  }

  /** A string without quotation marks, as it is written out in the source. */
  lemma WordBefore(word: string, r: Reading) returns (q: Reading)
    requires Holds(r) && (r.text == "" || !IsSingleQuote(r.text[0]))
    requires IsWord(word)
    ensures Holds(q)
    ensures q == Reading([Quoted] + r.pattern, "'" + word + "'" + r.text, [word] + r.values, r.rest, r.plain)
  {
    PlainLiteral(word);
    q := QuotedBefore(word, r);
  }

  // ----- Statements -----

  datatype Statement = FreshPath | Location(path: string) | Setting(name: string, value: string)

  const LOCATION: seq<Part> :=
    [Token("Set-Location -LiteralPath ")] + ([Quoted] + ([Token(" -ErrorAction Stop; ")] + []))

  const SETTING: seq<Part> :=
    [Token("$env:")] + ([Name] + ([Token("=")] + ([Quoted] + ([Token("; ")] + []))))

  function Getting(more: seq<Part>): seq<Part> {
    [Token("[Environment]::")] + ([Token("GetEnvironmentVariable(")]
    + ([Quoted] + ([Token(",")] + ([Quoted] + ([Token(")")] + more)))))
  }

  const PATH: seq<Part> :=
    [Token("$env:Path = ")]
    + Getting([Token(" + ")] + ([Quoted] + ([Token(" + ")] + Getting([Token("; ")] + []))))

  /** The machine's path, a semicolon and the user's. */
  const SCOPES: seq<string> := ["Path"] + (["Machine"] + ([";"] + (["Path"] + (["User"] + []))))

  /** The statement at the front of `s`, and what follows. */
  function ReadStatement(s: string): Option<(Statement, string)> {
    var path, location := Match(PATH, s), Match(LOCATION, s);
    if path.Some? && path.value.0 == SCOPES then Some((FreshPath, path.value.1))
    else if location.Some? && |location.value.0| == 1 then
      Some((Location(location.value.0[0]), location.value.1))
    else
      var (words, rest) :- Match(SETTING, s);
      if |words| == 2 then Some((Setting(words[0], words[1]), rest)) else None
  }

  function ReadStatements(s: string, n: nat): Option<(seq<Statement>, string)>
    decreases n
  {
    if n == 0 then Some(([], s)) else
    var (first, after) :- ReadStatement(s);
    var (more, rest) :- ReadStatements(after, n - 1);
    Some(([first] + more, rest))
  }

  // ----- What is asked for -----

  function Settings(env: seq<Variable>): seq<Statement> {
    if env == [] then [] else [Setting(env[0].name, env[0].value)] + Settings(env[1..])
  }

  function Locations(cwd: Option<string>): seq<Statement> {
    if cwd.Some? then [Location(cwd.value)] else []
  }

  /** The fresh path, the directory and the variables, as far as they are asked for. */
  function Statements(prelude: Prelude): seq<Statement> {
    (if prelude.freshPath then [FreshPath] else []) + (Locations(prelude.cwd) + Settings(prelude.env))
  }

  predicate ArePlainValues(env: seq<Variable>) {
    env != [] ==> HasNoTypographicQuote(env[0].value) && ArePlainValues(env[1..])
  }

  predicate IsPlainPrelude(prelude: Prelude) {
    (prelude.cwd.Some? ==> HasNoTypographicQuote(prelude.cwd.value)) && ArePlainValues(prelude.env)
  }

  predicate AreVariables(env: seq<Variable>) {
    env != [] ==> IsVariableName(env[0].name) && AreVariables(env[1..])
  }

  // ----- One statement reads back -----

  /** `s` is read as the statement and `rest` when `plain`, and never as that statement when not. */
  ghost predicate Reads(s: string, statement: Statement, rest: string, plain: bool) {
    var found := ReadStatement(s);
    (plain ==> found == Some((statement, rest))) && (found.Some? && found.value.0 == statement ==> plain)
  }

  lemma NotThePath(s: string)
    requires !("$env:Path = " <= s)
    ensures Match(PATH, s) == None
  {
    assert PATH[0] == Token("$env:Path = ");
  }

  lemma NotALocation(s: string)
    requires s != "" && s[0] != 'S'
    ensures Match(LOCATION, s) == None
  {
    assert LOCATION[0] == Token("Set-Location -LiteralPath ");
    assert "Set-Location -LiteralPath "[0] == 'S';
  }

  lemma LocationReads(path: string, rest: string)
    ensures Reads("Set-Location -LiteralPath " + (PowershellLiteral(path) + (" -ErrorAction Stop; " + rest)),
                  Location(path), rest, HasNoTypographicQuote(path))
  {
    var r := End(rest);
    r := Before(" -ErrorAction Stop; ", r);
    r := QuotedBefore(path, r);
    r := Before("Set-Location -LiteralPath ", r);
    assert r.pattern == LOCATION && r.values == [path];
    assert r.text[0] == 'S';
    NotThePath(r.text);
  }

  /** `$env:`, a name and `=` is not the refreshed path, which has a blank before its `=`. */
  lemma SettingIsNoPath(name: string, rest: string)
    requires IsVariableName(name)
    ensures !("$env:Path = " <= "$env:" + (name + ("=" + rest)))
  {
    var s := "$env:" + (name + ("=" + rest));
    assert forall i :: 0 <= i < |name| ==> s[5 + i] == name[i] && name[i] != ' ';
    assert s[5 + |name|] == '=';
    assert "$env:Path = "[9] == ' ' && '=' !in "$env:Path = "[..9];
    if |name| <= 3 {
      assert s[5 + |name|] != "$env:Path = "[5 + |name|];
    }
  }

  lemma SettingReads(name: string, value: string, rest: string)
    requires IsVariableName(name)
    ensures Reads("$env:" + (name + ("=" + (PowershellLiteral(value) + ("; " + rest)))),
                  Setting(name, value), rest, HasNoTypographicQuote(value))
  {
    var r := End(rest);
    r := Before("; ", r);
    r := QuotedBefore(value, r);
    r := Before("=", r);
    assert IsName(name);
    r := NameBefore(name, r);
    r := Before("$env:", r);
    assert r.pattern == SETTING && r.values == [name, value];
    SettingIsNoPath(name, PowershellLiteral(value) + ("; " + rest));
    NotThePath(r.text);
    assert r.text[0] == '$';
    NotALocation(r.text);
  }

  lemma GettingBefore(scope: string, r: Reading) returns (q: Reading)
    requires Holds(r) && IsWord(scope)
    ensures Holds(q)
    ensures q == Reading(Getting(r.pattern), PathOf(scope) + r.text, ["Path"] + ([scope] + r.values), r.rest, r.plain)
  {
    q := Before(")", r);
    q := WordBefore(scope, q);
    q := Before(",", q);
    q := WordBefore("Path", q);
    q := Before("GetEnvironmentVariable(", q);
    q := Before("[Environment]::", q);
    JoinPathOf(scope, r.text);
  }

  lemma JoinPathOf(scope: string, rest: string)
    ensures PathOf(scope) + rest
         == "[Environment]::" + ("GetEnvironmentVariable("
          + ("'" + "Path" + "'" + ("," + ("'" + scope + "'" + (")" + rest)))))
  {
    assert "'" + "Path" + "'" == "'Path'";
  }

  lemma FreshPathReads(rest: string)
    ensures Reads(FRESH_PATH + rest, FreshPath, rest, true)
  {
    var r := End(rest);
    r := Before("; ", r);
    r := GettingBefore("User", r);
    r := Before(" + ", r);
    r := WordBefore(";", r);
    r := Before(" + ", r);
    r := GettingBefore("Machine", r);
    r := Before("$env:Path = ", r);
    JoinFresh(PathOf("Machine"), PathOf("User"), rest);
    assert r.pattern == PATH && r.values == SCOPES;
  }

  lemma JoinFresh(a: string, b: string, rest: string)
    ensures "$env:Path = " + (a + (" + " + ("';'" + (" + " + (b + "; "))))) + rest
         == "$env:Path = " + (a + (" + " + ("'" + ";" + "'" + (" + " + (b + ("; " + rest))))))
  {
  }

  // ----- All of them -----

  ghost predicate ReadsAll(s: string, statements: seq<Statement>, rest: string, plain: bool) {
    var found := ReadStatements(s, |statements|);
    (plain ==> found == Some((statements, rest))) && (found.Some? && found.value.0 == statements ==> plain)
  }

  lemma ReadsOneMore(s: string, first: Statement, after: string, more: seq<Statement>, rest: string, p: bool, q: bool)
    requires Reads(s, first, after, p) && ReadsAll(after, more, rest, q)
    ensures ReadsAll(s, [first] + more, rest, p && q)
  {
    assert ([first] + more)[0] == first && ([first] + more)[1..] == more;
    var found := ReadStatements(s, 1 + |more|);
    if found.Some? && found.value.0 == [first] + more {
      var (one, rest1) := ReadStatement(s).value;
      var others := ReadStatements(rest1, |more|).value.0;
      assert ([one] + others)[0] == one && ([one] + others)[1..] == others;
    }
  }

  lemma {:induction false} SettingsRead(env: seq<Variable>, rest: string)
    requires AreVariables(env)
    ensures ReadsAll(PowershellVariables(env) + rest, Settings(env), rest, ArePlainValues(env))
  {
    if env == [] {
      assert PowershellVariables(env) + rest == rest;
    } else {
      var name, value, after := env[0].name, env[0].value, PowershellVariables(env[1..]) + rest;
      SettingsRead(env[1..], rest);
      SettingReads(name, value, after);
      JoinSetting("$env:", name, "=", PowershellLiteral(value), "; ", PowershellVariables(env[1..]), rest);
      ReadsOneMore(PowershellVariables(env) + rest, Setting(name, value), after, Settings(env[1..]), rest,
                   HasNoTypographicQuote(value), ArePlainValues(env[1..]));
    }
  }

  lemma JoinSetting(a: string, b: string, c: string, d: string, e: string, f: string, rest: string)
    ensures a + b + c + d + e + f + rest == a + (b + (c + (d + (e + (f + rest)))))
  {
  }

  lemma JoinThree(a: string, b: string, c: string, rest: string)
    ensures a + b + c + rest == a + (b + (c + rest))
  {
  }

  function LocationOf(cwd: Option<string>): string {
    if cwd.Some? then "Set-Location -LiteralPath " + PowershellLiteral(cwd.value) + " -ErrorAction Stop; " else ""
  }

  lemma {:induction false} LocationsRead(cwd: Option<string>, s: string, more: seq<Statement>, rest: string, plain: bool)
    requires ReadsAll(s, more, rest, plain)
    ensures ReadsAll(LocationOf(cwd) + s, Locations(cwd) + more, rest,
                     (cwd.Some? ==> HasNoTypographicQuote(cwd.value)) && plain)
  {
    if cwd.None? {
      assert "" + s == s && Locations(cwd) + more == more;
    } else {
      JoinThree("Set-Location -LiteralPath ", PowershellLiteral(cwd.value), " -ErrorAction Stop; ", s);
      LocationReads(cwd.value, s);
      ReadsOneMore(LocationOf(cwd) + s, Location(cwd.value), s, more, rest, HasNoTypographicQuote(cwd.value), plain);
    }
  }

  lemma {:induction false} PathsRead(freshPath: bool, s: string, more: seq<Statement>, rest: string, plain: bool)
    requires ReadsAll(s, more, rest, plain)
    ensures ReadsAll((if freshPath then FRESH_PATH else "") + s, (if freshPath then [FreshPath] else []) + more, rest, plain)
  {
    if freshPath {
      FreshPathReads(s);
      ReadsOneMore(FRESH_PATH + s, FreshPath, s, more, rest, true, plain);
    } else {
      assert "" + s == s && [] + more == more;
    }
  }

  lemma {:induction false} PreludeReads(prelude: Prelude, rest: string)
    requires AreVariables(prelude.env)
    ensures ReadsAll(RawPrelude(prelude) + rest, Statements(prelude), rest, IsPlainPrelude(prelude))
  {
    var s, settings, plain := PowershellVariables(prelude.env) + rest, Settings(prelude.env), ArePlainValues(prelude.env);
    SettingsRead(prelude.env, rest);
    LocationsRead(prelude.cwd, s, settings, rest, plain);
    PathsRead(prelude.freshPath, LocationOf(prelude.cwd) + s, Locations(prelude.cwd) + settings, rest, IsPlainPrelude(prelude));
    JoinThree(if prelude.freshPath then FRESH_PATH else "", LocationOf(prelude.cwd), PowershellVariables(prelude.env), rest);
  }

  /** A command line for a Windows guest is read as the statements asked for and then the
      command, exactly when all their strings are plain. */
  lemma LineReadBack(command: seq<string>, prelude: Prelude)
    requires AreVariables(prelude.env)
    ensures ReadStatements(Compose(command, Raw, prelude), |Statements(prelude)|)
         == Some((Statements(prelude), Join(command)))
       <==> IsPlainPrelude(prelude)
  {
    PreludeReads(prelude, Join(command));
  }

  // ----- The job's script -----

  /** The statements, the command after them and the file beside the script that the command's
      exit code goes to. */
  datatype Script = Script(statements: seq<Statement>, command: string, exitFile: string)

  const NOTING: seq<Part> :=
    [Token("$code = $LASTEXITCODE; ")] + ([Token("if ($null -eq $code) ")]
    + ([Token("{ $code = [int](-not $?) }")] + []))

  const SAVING: seq<Part> :=
    [Token("Set-Content -LiteralPath ")] + ([Token("(Join-Path $PSScriptRoot ")]
    + ([Quoted] + ([Token(") -Value $code -Encoding ascii")] + [])))

  function LineStart(s: string): (k: nat)
    ensures k <= |s|
  {
    if s == "" || s[|s| - 1] == '\n' then |s| else LineStart(s[..|s| - 1])
  }

  /** What is before the last line, and that line without its end. */
  function LastLine(s: string): Option<(string, string)> {
    if s == "" || s[|s| - 1] != '\n' then None else
    var body := s[..|s| - 1];
    Some((body[..LineStart(body)], body[LineStart(body)..]))
  }

  /** The last two lines of a text, and what is before the line break in front of them. */
  function LastTwoLines(s: string): Option<(string, string, string)> {
    var (front, last) :- LastLine(s);
    var (body, second) :- LastLine(front);
    if body == "" || body[|body| - 1] != '\n' then None else Some((body[..|body| - 1], second, last))
  }

  /** A script that begins with `n` statements and ends by noting the exit code and saving it. */
  function ReadScript(s: string, n: nat): Option<Script> {
    var (line, noting, saving) :- LastTwoLines(s);
    var noted :- Match(NOTING, noting);
    var (files, rest) :- Match(SAVING, saving);
    if noted != ([], "") || rest != "" || |files| != 1 then None else
    var (statements, command) :- ReadStatements(line, n);
    Some(Script(statements, command, files[0]))
  }

  lemma {:induction false} LineStartIs(before: string, line: string)
    requires (before == "" || before[|before| - 1] == '\n') && '\n' !in line
    ensures LineStart(before + line) == |before|
  {
    if line == "" {
      assert before + line == before;
    } else {
      assert (before + line)[..|before + line| - 1] == before + line[..|line| - 1];
      assert line[|line| - 1] in line;
      LineStartIs(before, line[..|line| - 1]);
    }
  }

  lemma LastLineIs(before: string, line: string)
    requires (before == "" || before[|before| - 1] == '\n') && '\n' !in line
    ensures LastLine(before + line + "\n") == Some((before, line))
  {
    var s := before + line + "\n";
    LineStartIs(before, line);
    assert s[..|s| - 1] == before + line;
    assert (before + line)[..|before|] == before && (before + line)[|before|..] == line;
  }

  lemma NotingHasNoBreak()
    ensures '\n' !in Jobs.NOTE_CODE
  {
    var a, b, c := "$code = $LASTEXITCODE; ", "if ($null -eq $code) ", "{ $code = [int](-not $?) }";
    assert '\n' !in a;
    assert '\n' !in b;
    assert '\n' !in c;
    assert Jobs.NOTE_CODE == a + (b + c);
  }

  lemma NotingReads()
    ensures Match(NOTING, Jobs.NOTE_CODE) == Some(([], ""))
  {
    var c := "{ $code = [int](-not $?) }";
    var r := End("");
    r := Before(c, r);
    assert c + "" == c;
    r := Before("if ($null -eq $code) ", r);
    r := Before("$code = $LASTEXITCODE; ", r);
    assert r.text == Jobs.NOTE_CODE;
    assert r.pattern == NOTING;
  }

  lemma SavingHasNoBreak()
    ensures '\n' !in Jobs.SAVE_CODE
  {
    var a, b, c := "Set-Content -LiteralPath ", "(Join-Path $PSScriptRoot ", ") -Value $code -Encoding ascii";
    assert '\n' !in a;
    assert '\n' !in b;
    assert '\n' !in c;
    assert Jobs.SAVE_CODE == a + (b + ("'exit'" + c));
  }

  lemma SavingReads()
    ensures Match(SAVING, Jobs.SAVE_CODE) == Some((["exit"], ""))
  {
    var c := ") -Value $code -Encoding ascii";
    var r := End("");
    r := Before(c, r);
    assert c + "" == c;
    r := WordBefore("exit", r);
    assert "'" + "exit" + "'" == "'exit'";
    r := Before("(Join-Path $PSScriptRoot ", r);
    r := Before("Set-Content -LiteralPath ", r);
    assert r.text == Jobs.SAVE_CODE;
    assert r.pattern == SAVING && r.values == ["exit"];
  }

  lemma LastTwoLinesAre(line: string, second: string, last: string)
    requires '\n' !in second && '\n' !in last
    ensures LastTwoLines(line + "\n" + second + "\n" + last + "\n") == Some((line, second, last))
  {
    var body := line + "\n";
    LastLineIs(body, second);
    LastLineIs(body + second + "\n", last);
    assert body[..|body| - 1] == line;
  }

  lemma ReadsAsScript(line: string, n: nat)
    ensures
      var found := ReadStatements(line, n);
      ReadScript(Jobs.WindowsScript(line), n)
      == if found.None? then None else Some(Script(found.value.0, found.value.1, "exit"))
  {
    NotingHasNoBreak();
    NotingReads();
    SavingHasNoBreak();
    SavingReads();
    LastTwoLinesAre(line, Jobs.NOTE_CODE, Jobs.SAVE_CODE);
  }

  /** PowerShell reads from a job's script what was asked for: the statements, the command, and
      then the exit code's going to the file `exit`, exactly when all the strings are plain. */
  lemma ScriptReadBack(command: seq<string>, prelude: Prelude)
    requires AreVariables(prelude.env)
    ensures ReadScript(Jobs.WindowsScript(Compose(command, Raw, prelude)), |Statements(prelude)|)
         == Some(Script(Statements(prelude), Join(command), "exit"))
       <==> IsPlainPrelude(prelude)
  {
    ReadsAsScript(Compose(command, Raw, prelude), |Statements(prelude)|);
    LineReadBack(command, prelude);
  }

  // ----- The line that starts the job -----

  function Storing(more: seq<Part>): seq<Part> {
    [Token("Set-Content -LiteralPath ")] + ([Token("(Join-Path $d ")] + ([Quoted]
    + ([Token(") -Value ")] + ([Quoted] + ([Token(" -Encoding utf8; ")] + more)))))
  }

  const CREATING: seq<Part> :=
    [Token("$p = Invoke-CimMethod -ClassName Win32_Process ")] + ([Token("-MethodName Create -Arguments @{ ")]
    + ([Token("CommandLine = $line; CurrentDirectory = $HOME }; ")] + ([Token("if ($p.ReturnValue -ne 0) { exit 1 }; ")]
    + ([Token("Set-Content -LiteralPath ")] + ([Token("(Join-Path $d ")] + ([Quoted]
    + ([Token(") -Value $p.ProcessId -Encoding ascii; ")] + ([Token("$p.ProcessId")] + []))))))))

  const LOGGING: seq<Part> :=
    [Quoted] + ([Token(" + (Join-Path $d ")] + ([Quoted] + ([Token(") + ")] + ([Quoted] + ([Token("; ")] + CREATING)))))

  /** Setting `$line` to strings with the paths of two files of the directory between them. */
  const RUNNING: seq<Part> :=
    [Token("$line = ")] + ([Quoted] + ([Token(" + (Join-Path $d ")] + ([Quoted] + ([Token(") + ")] + LOGGING))))

  /** Making a directory, storing two files in it and running a line outside the session. */
  const STARTING: seq<Part> :=
    [Token("$d = Join-Path $HOME ")] + ([Quoted] + ([Token("; New-Item -ItemType Directory -Force ")]
    + ([Token("-Path $d | Out-Null; ")] + Storing(Storing(RUNNING)))))

  const LOG_STRINGS: seq<string> := ["\" > \""] + (["log"] + (["\" 2>&1"] + (["pid"] + [])))

  /** The line runs `run.ps1`, its output goes to `log`, and its process is noted in `pid`. */
  const RUN_STRINGS: seq<string> :=
    ["cmd /c powershell -NoProfile " + "-ExecutionPolicy Bypass -File \""] + (["run.ps1"] + LOG_STRINGS)

  lemma CreatingReads() returns (r: Reading)
    ensures Holds(r) && r == Reading(CREATING, Jobs.CREATE_PROCESS, ["pid"] + [], "", true)
  {
    var c := "$p.ProcessId";
    r := End("");
    r := Before(c, r);
    assert c + "" == c;
    r := Before(") -Value $p.ProcessId -Encoding ascii; ", r);
    r := WordBefore("pid", r);
    assert "'" + "pid" + "'" == "'pid'";
    r := Before("(Join-Path $d ", r);
    r := Before("Set-Content -LiteralPath ", r);
    r := Before("if ($p.ReturnValue -ne 0) { exit 1 }; ", r);
    r := Before("CommandLine = $line; CurrentDirectory = $HOME }; ", r);
    r := Before("-MethodName Create -Arguments @{ ", r);
    r := Before("$p = Invoke-CimMethod -ClassName Win32_Process ", r);
  }

  lemma LogWords()
    ensures IsWord("\" 2>&1") && IsWord("log") && IsWord("\" > \"")
    ensures "'" + "\" 2>&1" + "'" == "'\" 2>&1'" && "'" + "log" + "'" == "'log'" && "'" + "\" > \"" + "'" == "'\" > \"'"
  {
  }

  lemma LoggingReads() returns (r: Reading)
    ensures Holds(r) && r == Reading(LOGGING, Jobs.LOG_OUTPUT, LOG_STRINGS, "", true)
  {
    LogWords();
    r := CreatingReads();
    r := Before("; ", r);
    r := WordBefore("\" 2>&1", r);
    r := Before(") + ", r);
    r := WordBefore("log", r);
    r := Before(" + (Join-Path $d ", r);
    r := WordBefore("\" > \"", r);
  }

  lemma RunWord()
    ensures IsWord("cmd /c powershell -NoProfile " + "-ExecutionPolicy Bypass -File \"")
  {
    var a, b := "cmd /c powershell -NoProfile ", "-ExecutionPolicy Bypass -File \"";
    assert IsWord(a);
    assert IsWord(b);
    AreWords(a, b);
  }

  lemma RunningReads() returns (r: Reading)
    ensures Holds(r) && r == Reading(RUNNING, Jobs.RUN_SCRIPT, RUN_STRINGS, "", true)
  {
    r := LoggingReads();
    r := Before(") + ", r);
    r := WordBefore("run.ps1", r);
    assert "'" + "run.ps1" + "'" == "'run.ps1'";
    r := Before(" + (Join-Path $d ", r);
    RunWord();
    r := WordBefore("cmd /c powershell -NoProfile " + "-ExecutionPolicy Bypass -File \"", r);
    r := Before("$line = ", r);
  }

  lemma StoringBefore(name: string, value: string, r: Reading) returns (q: Reading)
    requires Holds(r) && IsWord(name)
    ensures Holds(q)
    ensures q == Reading(Storing(r.pattern), Jobs.SetContent(name, value) + r.text, [name] + ([value] + r.values),
                         r.rest, HasNoTypographicQuote(value) && r.plain)
  {
    q := Before(" -Encoding utf8; ", r);
    q := QuotedBefore(value, q);
    q := Before(") -Value ", q);
    q := WordBefore(name, q);
    q := Before("(Join-Path $d ", q);
    q := Before("Set-Content -LiteralPath ", q);
    JoinSix("Set-Content -LiteralPath ", "(Join-Path $d ", "'" + name + "'", ") -Value ", PowershellLiteral(value),
            " -Encoding utf8; ", r.text);
  }

  lemma JoinSix(a: string, b: string, c: string, d: string, e: string, f: string, rest: string)
    ensures a + (b + (c + (d + (e + f)))) + rest == a + (b + (c + (d + (e + (f + rest)))))
  {
  }

  lemma DirBefore(id: string, r: Reading) returns (q: Reading)
    requires Holds(r) && Jobs.IsValidId(id)
    ensures Holds(q) && q.text == Jobs.WindowsDir(id) + r.text
    ensures q.pattern == [Token("$d = Join-Path $HOME ")] + ([Quoted]
      + ([Token("; New-Item -ItemType Directory -Force ")] + ([Token("-Path $d | Out-Null; ")] + r.pattern)))
    ensures q.values == [".vitro-jobs\\" + id] + r.values && q.rest == r.rest && q.plain == r.plain
  {
    var dir := ".vitro-jobs\\" + id;
    DirIsWord(id);
    q := Before("-Path $d | Out-Null; ", r);
    q := Before("; New-Item -ItemType Directory -Force ", q);
    q := WordBefore(dir, q);
    q := Before("$d = Join-Path $HOME ", q);
    JoinFour("$d = Join-Path $HOME ", "'" + dir + "'", "; New-Item -ItemType Directory -Force ",
             "-Path $d | Out-Null; ", r.text);
  }

  lemma DirIsWord(id: string)
    requires Jobs.IsValidId(id)
    ensures IsWord(".vitro-jobs\\" + id) && Jobs.JOBS_DIR + "\\" + id == ".vitro-jobs\\" + id
  {
    assert forall i :: 0 <= i < |id| ==> Jobs.IsHexDigit(id[i]);
    AreWords(".vitro-jobs\\", id);
    assert Jobs.JOBS_DIR + "\\" == ".vitro-jobs\\";
  }

  lemma JoinFour(a: string, b: string, c: string, d: string, rest: string)
    ensures a + (b + (c + d)) + rest == a + (b + (c + (d + rest)))
  {
  }

  /** What the starting line is to say: the job's directory, the file `cmd` with the command's
      text and the file `run.ps1` with the script, and how that is run. */
  function StartStrings(dir: string, text: string, script: string): seq<string> {
    [dir] + (["cmd"] + ([text] + (["run.ps1"] + ([script] + RUN_STRINGS))))
  }

  lemma StartReads(id: string, text: string, script: string)
    requires Jobs.IsValidId(id)
    ensures Match(STARTING, Jobs.WindowsLine(id, text, script)) == Some((StartStrings(".vitro-jobs\\" + id, text, script), ""))
       <==> HasNoTypographicQuote(text) && HasNoTypographicQuote(script)
  {
    var r := RunningReads();
    assert IsWord("run.ps1") && IsWord("cmd");
    r := StoringBefore("run.ps1", script, r);
    r := StoringBefore("cmd", text, r);
    r := DirBefore(id, r);
    assert r.pattern == STARTING;
  }
}
