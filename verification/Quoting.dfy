/** The command line vitro composes for a POSIX guest, read back by the reference
    shell: exactly the directory, the variables and the words that went in. */
module QuotingProofs {
  import opened Wrappers
  import opened PosixShell
  import opened ShellWriting
  import Ssh

  // ----- The line `Ssh.Compose` writes, as a structure -----

  function VariableWord(v: Ssh.Variable): seq<Part> {
    [Run(v.name + "="), Quoted(v.value)]
  }

  function VariableWords(env: seq<Ssh.Variable>): (r: seq<seq<Part>>)
    ensures |r| == |env|
    ensures forall i :: 0 <= i < |r| ==> r[i] == VariableWord(env[i])
  {
    seq(|env|, i requires 0 <= i < |env| => VariableWord(env[i]))
  }

  function QuotedWords(command: seq<string>): (r: seq<seq<Part>>)
    ensures |r| == |command|
    ensures forall i :: 0 <= i < |r| ==> r[i] == [Quoted(command[i])]
  {
    seq(|command|, i requires 0 <= i < |command| => [Quoted(command[i])])
  }

  function MainCommand(command: seq<string>, env: seq<Ssh.Variable>): Written {
    Plain(VariableWords(env) + QuotedWords(command), [])
  }

  function Composed(command: seq<string>, prelude: Ssh.Prelude): Sequence {
    var main := Last(MainCommand(command, prelude.env));
    if prelude.cwd.Some? then
      Then(MainCommand(["cd", prelude.cwd.value], []), "&&", main)
    else main
  }

  predicate AreNames(env: seq<Ssh.Variable>) {
    forall i :: 0 <= i < |env| ==> Ssh.IsVariableName(env[i].name)
  }

  lemma VariableSound(v: Ssh.Variable)
    requires Ssh.IsVariableName(v.name)
    ensures IsSoundWord(VariableWord(v))
  {
    var text := v.name + "=";
    assert forall i :: 0 <= i < |v.name| ==> text[i] == v.name[i];
    assert IsRun(text);
  }

  lemma ComposedSound(command: seq<string>, prelude: Ssh.Prelude)
    requires command != [] && AreNames(prelude.env)
    ensures IsSound(Composed(command, prelude))
  {
    forall i | 0 <= i < |prelude.env|
      ensures IsSoundWord(VariableWord(prelude.env[i]))
    {
      VariableSound(prelude.env[i]);
    }
  }

  // ----- `Ssh.Compose` writes that structure -----

  lemma {:induction false} PrintQuoted(command: seq<string>, rest: string)
    requires command != []
    ensures PrintWords(QuotedWords(command), rest) == Ssh.Join(Ssh.QuoteAll(command)) + rest
  {
    var ws := QuotedWords(command);
    var first := Ssh.Quote(command[0]);
    var more := if |command| == 1 then rest else " " + PrintWords(ws[1..], rest);
    assert ws[0][1..] == [];
    assert PrintWord(ws[0], more) == first + more;
    if |command| > 1 {
      assert ws[1..] == QuotedWords(command[1..]);
      PrintQuoted(command[1..], rest);
      assert Ssh.QuoteAll(command)[1..] == Ssh.QuoteAll(command[1..]);
    }
  }

  lemma PrintVariable(v: Ssh.Variable, rest: string)
    ensures PrintWord(VariableWord(v), rest)
         == v.name + "=" + Ssh.Quote(v.value) + rest
  {
    var w := VariableWord(v);
    assert w[1..] == [Quoted(v.value)] && w[1..][1..] == [];
    assert PrintWord(w[1..], rest) == Ssh.Quote(v.value) + rest;
  }

  lemma {:induction false} PrintMain(command: seq<string>, env: seq<Ssh.Variable>, rest: string)
    requires command != []
    ensures PrintCommand(MainCommand(command, env), rest)
         == Ssh.PosixVariables(env) + (Ssh.Join(Ssh.QuoteAll(command)) + rest)
  {
    var ws := VariableWords(env) + QuotedWords(command);
    if env == [] {
      assert ws == QuotedWords(command);
      PrintQuoted(command, rest);
    } else {
      assert ws[1..] == VariableWords(env[1..]) + QuotedWords(command);
      PrintMain(command, env[1..], rest);
      PrintVariable(env[0], " " + PrintWords(ws[1..], rest));
    }
  }

  lemma PrintChange(cwd: string, rest: string)
    ensures PrintCommand(MainCommand(["cd", cwd], []), rest) == "cd " + Ssh.Quote(cwd) + rest
  {
    var command := ["cd", cwd];
    PrintMain(command, [], rest);
    assert Ssh.QuoteAll(command[1..]) == [Ssh.Quote(cwd)];
    assert Ssh.QuoteAll(command) == ["cd", Ssh.Quote(cwd)];
    assert ["cd", Ssh.Quote(cwd)][1..] == [Ssh.Quote(cwd)];
    assert Ssh.Join(["cd", Ssh.Quote(cwd)]) == "cd" + " " + Ssh.Quote(cwd);
  }

  lemma PrintComposed(command: seq<string>, prelude: Ssh.Prelude, rest: string)
    requires command != []
    ensures PrintSequence(Composed(command, prelude), rest)
         == Ssh.Compose(command, Ssh.Posix, prelude) + rest
  {
    var variables := Ssh.PosixVariables(prelude.env);
    var words := Ssh.Join(Ssh.QuoteAll(command));
    PrintMain(command, prelude.env, rest);
    if prelude.cwd.Some? {
      PrintAfterChange(prelude.cwd.value, command, prelude, rest);
      Associate("cd " + Ssh.Quote(prelude.cwd.value), variables, words, rest);
    } else {
      assert "" + variables == variables;
      assert variables + words + rest == variables + (words + rest);
    }
  }

  lemma PrintAfterChange(cwd: string, command: seq<string>, prelude: Ssh.Prelude, rest: string)
    requires command != [] && prelude.cwd == Some(cwd)
    ensures PrintSequence(Composed(command, prelude), rest)
         == "cd " + Ssh.Quote(cwd) + (" && " + (Ssh.PosixVariables(prelude.env) + (Ssh.Join(Ssh.QuoteAll(command)) + rest)))
  {
    var main := Ssh.PosixVariables(prelude.env) + (Ssh.Join(Ssh.QuoteAll(command)) + rest);
    PrintMain(command, prelude.env, rest);
    PrintChange(cwd, " && " + main);
    assert " " + ("&&" + (" " + main)) == " && " + main;
  }

  lemma Associate(change: string, variables: string, words: string, rest: string)
    ensures change + " && " + variables + words + rest == change + (" && " + (variables + (words + rest)))
  {
  }

  // ----- What the structure means -----

  /** A word the shell would take for an assignment rather than for a command: a name and
      `=`, with nothing in it that vitro quotes. */
  predicate IsAssignmentShaped(text: string) {
    && Ssh.IsBareWord(text)
    && var k := Ssh.IndexOf(text, '=');
       k < |text| && Ssh.IsVariableName(text[..k])
  }

  lemma EqualsIndexIs(w: Word, i: nat, k: nat)
    requires i <= k <= |w|
    requires forall j :: i <= j < k ==> w[j] != Letter('=', Bare)
    requires k < |w| ==> w[k] == Letter('=', Bare)
    ensures EqualsIndex(w, i) == k
    decreases k - i
  {
  }

  lemma QuotedIsAssignment(text: string)
    ensures IsAssignment(QuotedLetters(text)) <==> IsAssignmentShaped(text)
  {
    var w := QuotedLetters(text);
    if Ssh.IsBareWord(text) {
      var k := Ssh.IndexOf(text, '=');
      EqualsIndexIs(w, 0, k);
      if IsAssignment(w) {
        forall i | 0 <= i < k
          ensures Ssh.IsAsciiAlphanumeric(text[i]) || text[i] == '_'
        {
          assert IsNameChar(w[i].c);
        }
      }
    }
  }

  lemma QuotedIsReserved(text: string)
    ensures IsReserved(QuotedLetters(text)) <==> Ssh.IsBareWord(text) && IsReservedText(text)
  {
    assert Text(QuotedLetters(text)) == text;
    if !Ssh.IsBareWord(text) && text != [] {
      assert QuotedLetters(text)[0].mark == Literal;
    }
  }

  lemma QuotedValue(text: string)
    ensures Value(QuotedLetters(text)) == Some(text)
  {
    assert Text(QuotedLetters(text)) == text;
  }

  lemma OneWord(text: string)
    ensures WordLetters([Quoted(text)]) == QuotedLetters(text)
    ensures WordLetters([Run(text)]) == Letters(text, Bare)
  {
    assert [Quoted(text)][1..] == [] && [Run(text)][1..] == [];
  }

  lemma {:induction false} QuotedValues(command: seq<string>)
    ensures Values(AllLetters(QuotedWords(command))) == Some(command)
  {
    if command != [] {
      var ws := AllLetters(QuotedWords(command));
      OneWord(command[0]);
      QuotedValue(command[0]);
      assert ws[1..] == AllLetters(QuotedWords(command[1..]));
      QuotedValues(command[1..]);
      assert [command[0]] + command[1..] == command;
    }
  }

  lemma VariableIsAssignment(v: Ssh.Variable)
    requires Ssh.IsVariableName(v.name)
    ensures
      var w := WordLetters(VariableWord(v));
      IsAssignment(w) && AsAssignment(w) == Assignment(v.name, QuotedLetters(v.value))
  {
    var parts := VariableWord(v);
    assert parts[1..] == [Quoted(v.value)];
    OneWord(v.value);
    var w := Letters(v.name + "=", Bare) + QuotedLetters(v.value);
    assert WordLetters(parts) == w;
    EqualsIndexIs(w, 0, |v.name|);
    assert w[|v.name| + 1..] == QuotedLetters(v.value);
    assert Text(w[..|v.name|]) == v.name;
  }

  function VariableAssignments(env: seq<Ssh.Variable>): (r: seq<Assignment>)
    ensures |r| == |env|
    ensures forall i :: 0 <= i < |r| ==> r[i] == Assignment(env[i].name, QuotedLetters(env[i].value))
  {
    seq(|env|, i requires 0 <= i < |env| => Assignment(env[i].name, QuotedLetters(env[i].value)))
  }

  lemma TakeOne(done: Command, ws: seq<Word>, next: Command)
    requires done.Simple? && ws != [] && TakeWord(done, ws[0]) == Some(next)
    ensures TakeWords(done, ws) == TakeWords(next, ws[1..])
  {
  }

  lemma {:induction false} TakeAssignments(done: Command, ws: seq<Word>, more: seq<Word>, taken: seq<Assignment>)
    requires done.Simple? && done.words == [] && |taken| == |ws|
    requires forall i :: 0 <= i < |ws| ==> IsAssignment(ws[i]) && taken[i] == AsAssignment(ws[i])
    ensures TakeWords(done, ws + more)
         == TakeWords(done.(assignments := done.assignments + taken), more)
    decreases |ws|
  {
    if ws == [] {
      assert ws + more == more;
      assert done.assignments + taken == done.assignments;
    } else {
      var next := done.(assignments := done.assignments + [taken[0]]);
      assert (ws + more)[1..] == ws[1..] + more;
      TakeOne(done, ws + more, next);
      TakeAssignments(next, ws[1..], more, taken[1..]);
      assert next.assignments + taken[1..] == done.assignments + taken;
    }
  }

  lemma TakeVariables(env: seq<Ssh.Variable>, more: seq<Word>)
    requires AreNames(env)
    ensures TakeWords(Simple([], [], []), AllLetters(VariableWords(env)) + more)
         == TakeWords(Simple(VariableAssignments(env), [], []), more)
  {
    var ws := AllLetters(VariableWords(env));
    forall i | 0 <= i < |ws|
      ensures IsAssignment(ws[i]) && VariableAssignments(env)[i] == AsAssignment(ws[i])
    {
      VariableIsAssignment(env[i]);
    }
    TakeAssignments(Simple([], [], []), ws, more, VariableAssignments(env));
    assert [] + VariableAssignments(env) == VariableAssignments(env);
  }

  /** Once a command word has been seen, every word is an argument. */
  lemma {:induction false} TakeArguments(done: Command, ws: seq<Word>)
    requires done.Simple? && done.words != []
    ensures TakeWords(done, ws) == Some(done.(words := done.words + ws))
    decreases |ws|
  {
    if ws == [] {
      assert done.words + ws == done.words;
    } else {
      TakeArguments(done.(words := done.words + [ws[0]]), ws[1..]);
      assert done.words + [ws[0]] + ws[1..] == done.words + ws;
    }
  }

  /** A first word that is neither an assignment nor reserved starts a command. */
  lemma TakeCommand(done: Command, ws: seq<Word>)
    requires done.Simple? && done.words == [] && ws != []
    requires !IsAssignment(ws[0]) && (done == Simple([], [], []) ==> !IsReserved(ws[0]))
    ensures TakeWords(done, ws) == Some(done.(words := ws))
  {
    var next := done.(words := done.words + [ws[0]]);
    assert next.words == [ws[0]];
    TakeOne(done, ws, next);
    TakeArguments(next, ws[1..]);
    assert [ws[0]] + ws[1..] == ws;
  }

  /** Whatever is taken, each word of `ws` adds at most one word to the command. */
  lemma {:induction false} TakeAtMost(done: Command, ws: seq<Word>)
    requires done.Simple?
    ensures
      var taken := TakeWords(done, ws);
      taken.Some? ==> |taken.value.words| <= |done.words| + |ws|
    decreases |ws|
  {
    if ws != [] {
      var first := TakeWord(done, ws[0]);
      if first.Some? {
        TakeAtMost(first.value, ws[1..]);
      }
    }
  }

  function Pairs(env: seq<Ssh.Variable>): (r: seq<(string, string)>)
    ensures |r| == |env|
  {
    seq(|env|, i requires 0 <= i < |env| => (env[i].name, env[i].value))
  }

  lemma {:induction false} VariableValues(env: seq<Ssh.Variable>)
    ensures AssignmentValues(VariableAssignments(env)) == Some(Pairs(env))
  {
    if env != [] {
      QuotedValue(env[0].value);
      assert VariableAssignments(env)[1..] == VariableAssignments(env[1..]);
      VariableValues(env[1..]);
      assert [(env[0].name, env[0].value)] + Pairs(env[1..]) == Pairs(env);
    }
  }

  /** What a caller can check beforehand: the first word reaches the shell as a command. */
  predicate StartsACommand(command: seq<string>, env: seq<Ssh.Variable>)
    requires command != []
  {
    && !IsAssignmentShaped(command[0])
    && (env == [] ==> !(Ssh.IsBareWord(command[0]) && IsReservedText(command[0])))
  }

  /** The main command, once its variables have been taken. */
  lemma MainTakes(command: seq<string>, env: seq<Ssh.Variable>)
    requires command != [] && AreNames(env)
    ensures
      var ready := Simple(VariableAssignments(env), [], []);
      var words := AllLetters(QuotedWords(command));
      && words[0] == QuotedLetters(command[0])
      && CommandMeaning(MainCommand(command, env)) == TakeWords(ready, words)
  {
    var start := Simple([], [], []);
    var words := AllLetters(QuotedWords(command));
    var ws := VariableWords(env) + QuotedWords(command);
    assert AllLetters(ws) == AllLetters(VariableWords(env)) + words;
    TakeVariables(env, words);
    OneWord(command[0]);
    var taken := TakeWords(start, AllLetters(ws));
    TakeWordsSome(start, AllLetters(ws));
    if taken.Some? {
      assert taken.value.redirections + Meanings([]) == taken.value.redirections;
    }
  }

  lemma MainRuns(command: seq<string>, env: seq<Ssh.Variable>)
    requires command != [] && AreNames(env) && StartsACommand(command, env)
    ensures
      var meaning := CommandMeaning(MainCommand(command, env));
      meaning.Some? && SimpleExecution(meaning.value) == Some(Execution(None, Pairs(env), command))
  {
    var ready := Simple(VariableAssignments(env), [], []);
    var words := AllLetters(QuotedWords(command));
    MainTakes(command, env);
    QuotedIsAssignment(command[0]);
    QuotedIsReserved(command[0]);
    TakeCommand(ready, words);
    VariableValues(env);
    QuotedValues(command);
  }

  lemma TakesLess(ready: Command, ws: seq<Word>)
    requires ready.Simple? && ready.words == [] && ws != []
    requires IsAssignment(ws[0]) || (ready == Simple([], [], []) && IsReserved(ws[0]))
    ensures TakeWords(ready, ws).Some? ==> |TakeWords(ready, ws).value.words| < |ws|
  {
    if IsAssignment(ws[0]) {
      var next := ready.(assignments := ready.assignments + [AsAssignment(ws[0])]);
      TakeOne(ready, ws, next);
      TakeAtMost(next, ws[1..]);
    }
  }

  lemma ExecutionLength(c: Command)
    ensures SimpleExecution(c).Some? ==> |SimpleExecution(c).value.argv| == |c.words|
  {
  }

  /** Otherwise the shell runs something shorter, or nothing. */
  lemma MainMisreads(command: seq<string>, env: seq<Ssh.Variable>)
    requires command != [] && AreNames(env) && !StartsACommand(command, env)
    ensures
      var meaning := CommandMeaning(MainCommand(command, env));
      meaning.Some? && SimpleExecution(meaning.value).Some? ==>
        |SimpleExecution(meaning.value).value.argv| < |command|
  {
    MainTakes(command, env);
    QuotedIsAssignment(command[0]);
    QuotedIsReserved(command[0]);
    TakesLess(Simple(VariableAssignments(env), [], []), AllLetters(QuotedWords(command)));
    var meaning := CommandMeaning(MainCommand(command, env));
    if meaning.Some? {
      ExecutionLength(meaning.value);
    }
  }

  // ----- Main results -----

  /** What the caller asked for. */
  function Intended(command: seq<string>, prelude: Ssh.Prelude): Execution {
    Execution(prelude.cwd, Pairs(prelude.env), command)
  }

  lemma ChangeDirectoryRuns(cwd: string)
    ensures
      var meaning := CommandMeaning(MainCommand(["cd", cwd], []));
      meaning.Some? && SimpleExecution(meaning.value) == Some(Execution(None, [], ["cd", cwd]))
  {
    MainRuns(["cd", cwd], []);
  }

  /** The line runs the words, variables and directory it was composed from, exactly when
      the first word reaches the shell as a command. */
  lemma ComposedRuns(command: seq<string>, prelude: Ssh.Prelude)
    requires command != [] && AreNames(prelude.env)
    ensures
      var meaning := Meaning(Composed(command, prelude));
      (meaning.Some? && Runs(meaning.value) == Some(Intended(command, prelude)))
        <==> StartsACommand(command, prelude.env)
  {
    var main := CommandMeaning(MainCommand(command, prelude.env));
    MainRunsExactly(command, prelude.env);
    if prelude.cwd.Some? {
      ChangeDirectoryRuns(prelude.cwd.value);
      if main.Some? {
        RunsAfterChange(prelude.cwd.value, main.value);
        SimpleHasNoDirectory(main.value);
      }
    }
  }

  lemma SimpleHasNoDirectory(c: Command)
    ensures SimpleExecution(c).Some? ==> SimpleExecution(c).value.cwd == None
  {
  }

  lemma RunsAfterChange(cwd: string, main: Command)
    ensures
      var change := CommandMeaning(MainCommand(["cd", cwd], []));
      && change.Some?
      && Runs(Cons(change.value, "&&", Cons(main, "", Nil)))
         == if SimpleExecution(main).None? then None else Some(SimpleExecution(main).value.(cwd := Some(cwd)))
  {
    ChangeDirectoryRuns(cwd);
  }

  lemma MainRunsExactly(command: seq<string>, env: seq<Ssh.Variable>)
    requires command != [] && AreNames(env)
    ensures
      var main := CommandMeaning(MainCommand(command, env));
      && (main.Some? ==> main.value.Simple?)
      && (main.Some? && SimpleExecution(main.value) == Some(Execution(None, Pairs(env), command)) <==> StartsACommand(command, env))
  {
    if StartsACommand(command, env) {
      MainRuns(command, env);
    } else {
      MainMisreads(command, env);
    }
  }

  lemma ComposeReadBack(command: seq<string>, prelude: Ssh.Prelude)
    requires command != [] && AreNames(prelude.env)
    ensures LineRuns(Ssh.Compose(command, Ssh.Posix, prelude)) == Some(Intended(command, prelude))
       <==> StartsACommand(command, prelude.env)
  {
    ComposedSound(command, prelude);
    ReadBack(Composed(command, prelude));
    PrintComposed(command, prelude, "");
    var line := Ssh.Compose(command, Ssh.Posix, prelude);
    assert line + "" == line;
    ComposedRuns(command, prelude);
  }

  /** `A=b make` sets a variable and runs `make`: the condition above is needed. */
  lemma AssignmentShapedWordIsLost()
    ensures LineRuns(Ssh.Compose(["A=b", "make"], Ssh.Posix, Ssh.NO_PRELUDE))
         != Some(Execution(None, [], ["A=b", "make"]))
  {
    var command := ["A=b", "make"];
    ComposeReadBack(command, Ssh.NO_PRELUDE);
    assert Ssh.IsBareWord("A=b");
    Ssh.IndexOfUnique("A=b", '=', 1);
    assert "A=b"[..1] == "A";
    assert IsAssignmentShaped(command[0]);
    assert Pairs(Ssh.NO_PRELUDE.env) == [];
  }

  /** `if` is no command. */
  lemma ReservedWordIsLost()
    ensures LineRuns(Ssh.Compose(["if"], Ssh.Posix, Ssh.NO_PRELUDE)) != Some(Execution(None, [], ["if"]))
  {
    var command := ["if"];
    ComposeReadBack(command, Ssh.NO_PRELUDE);
    assert Ssh.IsBareWord("if");
    assert Pairs(Ssh.NO_PRELUDE.env) == [];
  }

  // ----- `shell_join` -----

  /** What the words of a line stand for, if it holds nothing but words. */
  function WordsOf(tokens: seq<Token>): Option<seq<string>> {
    if tokens == [] then Some([])
    else if !tokens[0].WordToken? then None
    else
      var first :- Value(tokens[0].word);
      var rest :- WordsOf(tokens[1..]);
      Some([first] + rest)
  }

  lemma {:induction false} QuotedWordsOf(command: seq<string>)
    ensures WordsOf(WordTokens(QuotedWords(command), [])) == Some(command)
  {
    if command != [] {
      OneWord(command[0]);
      QuotedValue(command[0]);
      assert QuotedWords(command)[1..] == QuotedWords(command[1..]);
      QuotedWordsOf(command[1..]);
      assert [command[0]] + command[1..] == command;
    }
  }

  /** Token recognition and quote removal undo `shell_join`, on every list of words. */
  lemma ShellJoinReadBack(command: seq<string>)
    ensures Tokens(Ssh.ShellJoin(command, Ssh.Posix)).Some?
    ensures WordsOf(Tokens(Ssh.ShellJoin(command, Ssh.Posix)).value) == Some(command)
  {
    if command != [] {
      var ws := QuotedWords(command);
      PrintQuoted(command, "");
      assert Ssh.Join(Ssh.QuoteAll(command)) + "" == Ssh.ShellJoin(command, Ssh.Posix);
      forall i | 0 <= i < |ws|
        ensures IsSoundWord(ws[i])
      {
      }
      LexWords(ws, "", []);
      QuotedWordsOf(command);
    }
  }

  /** What `compose` puts in front of a command: the change of directory, and the variables. */
  function Leading(prelude: Ssh.Prelude, after: seq<Token>): seq<Token> {
    var variables := WordTokens(VariableWords(prelude.env), after);
    if prelude.cwd.Some? then
      WordTokens(QuotedWords(["cd", prelude.cwd.value]), [Operator("&&")] + variables)
    else variables
  }

  lemma {:induction false} WordTokensOfBoth(a: seq<seq<Part>>, b: seq<seq<Part>>, after: seq<Token>)
    ensures WordTokens(a + b, after) == WordTokens(a, WordTokens(b, after))
  {
    if a == [] {
      assert a + b == b;
    } else {
      assert (a + b)[1..] == a[1..] + b;
      WordTokensOfBoth(a[1..], b, after);
    }
  }

  /** On every command, with every directory and every variable: the words come through
      `compose` unaltered, after exactly the words of what it puts in front. */
  lemma ComposedWords(command: seq<string>, prelude: Ssh.Prelude)
    requires command != [] && AreNames(prelude.env)
    ensures var words := WordTokens(QuotedWords(command), []);
            && Tokens(Ssh.Compose(command, Ssh.Posix, prelude)) == Some(Leading(prelude, words))
            && WordsOf(words) == Some(command)
  {
    var line, structure := Ssh.Compose(command, Ssh.Posix, prelude), Composed(command, prelude);
    ComposedSound(command, prelude);
    PrintComposed(command, prelude, "");
    assert line + "" == line;
    LexSequence(structure, "", []);
    MainTokens(command, prelude.env, []);
    QuotedWordsOf(command);
    if prelude.cwd.Some? {
      var main := SequenceTokens(Last(MainCommand(command, prelude.env)), []);
      MainTokens(["cd", prelude.cwd.value], [], [Operator("&&")] + main);
      assert VariableWords([]) == [];
    }
  }

  lemma MainTokens(command: seq<string>, env: seq<Ssh.Variable>, after: seq<Token>)
    ensures CommandTokens(MainCommand(command, env), after)
         == WordTokens(VariableWords(env), WordTokens(QuotedWords(command), after))
  {
    WordTokensOfBoth(VariableWords(env), QuotedWords(command), after);
    assert RedirectTokens([], after) == after;
  }
}
