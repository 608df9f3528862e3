/** A reader for the POSIX shell command language (POSIX.1-2017, Shell Command
    Language): token recognition (section 2.3), quoting (section 2.2) and the part of
    the grammar (section 2.10) made of lists, subshells, simple commands and
    redirections.

    It is the reference against which vitro's quoting is judged: nothing here knows
    how vitro writes a command. Command substitution, `${...}`, here-documents and
    compound commands other than `( ... )` are answered with `None`. */
module PosixShell {
  import opened Wrappers

  // ----- Letters, words and tokens -----

  /** How a character of a word was quoted, which decides what it may still expand to. */
  datatype Mark =
    | Bare      // outside any quotes
    | Literal   // in single quotes, or after a backslash: stands for itself
    | InDouble  // in double quotes: `$` is still live

  datatype Letter = Letter(c: char, mark: Mark)

  type Word = seq<Letter>

  datatype Token =
    | WordToken(word: Word)
    | IoNumber(digits: Word)
    | Operator(op: string)

  function Letters(text: string, mark: Mark): (w: Word)
    ensures |w| == |text|
    ensures forall i :: 0 <= i < |w| ==> w[i] == Letter(text[i], mark)
  {
    seq(|text|, i requires 0 <= i < |text| => Letter(text[i], mark))
  }

  predicate IsDigit(c: char) {
    '0' <= c <= '9'
  }

  predicate IsAlpha(c: char) {
    'a' <= c <= 'z' || 'A' <= c <= 'Z'
  }

  predicate IsBlank(c: char) {
    c == ' ' || c == '\t'
  }

  predicate IsOperatorStart(c: char) {
    c == '&' || c == '|' || c == ';' || c == '(' || c == ')' || c == '<' || c == '>' || c == '\n'
  }

  /** How many characters of `s` form its longest operator prefix; 0 when there is none. */
  function OperatorLength(s: string): (n: nat)
    requires |s| > 0
    ensures n <= |s|
    ensures n > 0 <==> IsOperatorStart(s[0])
  {
    if !IsOperatorStart(s[0]) then 0
    else if |s| == 1 then 1
    else if s[0] == '<' && s[1] == '<' then (if |s| > 2 && s[2] == '-' then 3 else 2)
    else if (s[0] == '&' && s[1] == '&') || (s[0] == '|' && s[1] == '|') || (s[0] == ';' && s[1] == ';') then 2
    else if s[0] == '<' && (s[1] == '&' || s[1] == '>') then 2
    else if s[0] == '>' && (s[1] == '>' || s[1] == '&' || s[1] == '|') then 2
    else 1
  }

  // ----- Token recognition -----

  datatype Mode = Outside | SingleQuoted | DoubleQuoted

  /** The word being read, begun if it was not yet. */
  function Begun(word: Option<Word>): Word {
    if word.Some? then word.value else []
  }

  function Add(word: Option<Word>, c: char, mark: Mark): Option<Word> {
    Some(Begun(word) + [Letter(c, mark)])
  }

  /** The tokens a delimiter releases. */
  function Flush(word: Option<Word>): seq<Token> {
    if word.Some? then [WordToken(word.value)] else []
  }

  predicate IsNumber(w: Word) {
    |w| > 0 && forall i :: 0 <= i < |w| ==> w[i].mark == Bare && IsDigit(w[i].c)
  }

  /** As `Flush`, in front of operator `op`: digits against a redirection name a file
      descriptor. */
  function FlushBefore(word: Option<Word>, op: string): seq<Token>
    requires |op| > 0
  {
    if word.Some? && IsNumber(word.value) && (op[0] == '<' || op[0] == '>')
    then [IoNumber(word.value)]
    else Flush(word)
  }

  /** Whether `$` or a backquote at the head of `s` starts an expansion this reader does
      not follow to its end. */
  predicate StartsSubstitution(s: string)
    requires |s| > 0
  {
    s[0] == '`' || (s[0] == '$' && |s| > 1 && (s[1] == '(' || s[1] == '{'))
  }

  function SkipComment(s: string): (r: string)
    ensures |r| <= |s|
  {
    if s == [] || s[0] == '\n' then s else SkipComment(s[1..])
  }

  function Prepend(front: seq<Token>, rest: Option<seq<Token>>): Option<seq<Token>> {
    if rest.Some? then Some(front + rest.value) else None
  }

  /** The tokens of `s`, read on from inside `word` in quoting mode `mode`. */
  function Lex(s: string, word: Option<Word>, mode: Mode): Option<seq<Token>>
    decreases |s|
  {
    if s == [] then
      if mode == Outside then Some(Flush(word)) else None
    else
      match mode
      case SingleQuoted =>
        if s[0] == '\'' then Lex(s[1..], word, Outside)
        else Lex(s[1..], Add(word, s[0], Literal), SingleQuoted)
      case DoubleQuoted =>
        if s[0] == '\"' then Lex(s[1..], word, Outside)
        else if s[0] == '\\' && |s| > 1 && (s[1] == '$' || s[1] == '`' || s[1] == '\"' || s[1] == '\\') then
          Lex(s[2..], Add(word, s[1], Literal), DoubleQuoted)
        else if s[0] == '\\' && |s| > 1 && s[1] == '\n' then Lex(s[2..], word, DoubleQuoted)
        else if StartsSubstitution(s) then None
        else Lex(s[1..], Add(word, s[0], InDouble), DoubleQuoted)
      case Outside =>
        var n := OperatorLength(s);
        if n > 0 then
          Prepend(FlushBefore(word, s[..n]) + [Operator(s[..n])], Lex(s[n..], None, Outside))
        else if IsBlank(s[0]) then Prepend(Flush(word), Lex(s[1..], None, Outside))
        else if s[0] == '\'' then Lex(s[1..], Some(Begun(word)), SingleQuoted)
        else if s[0] == '\"' then Lex(s[1..], Some(Begun(word)), DoubleQuoted)
        else if s[0] == '\\' then
          if |s| == 1 then None
          else if s[1] == '\n' then Lex(s[2..], word, Outside)
          else Lex(s[2..], Add(word, s[1], Literal), Outside)
        else if s[0] == '#' && word.None? then Lex(SkipComment(s[1..]), None, Outside)
        else if StartsSubstitution(s) then None
        else Lex(s[1..], Add(word, s[0], Bare), Outside)
  }

  function Tokens(line: string): Option<seq<Token>> {
    Lex(line, None, Outside)
  }

  // ----- What a word stands for -----

  /** A letter that the shell would still expand or match against file names. */
  predicate IsLive(l: Letter) {
    match l.mark
    case Literal => false
    case InDouble => l.c == '$' || l.c == '`'
    case Bare =>
      || l.c == '$' || l.c == '`' || l.c == '*' || l.c == '?' || l.c == '[' || l.c == '~'
      || l.c == '{' || l.c == '}'
  }

  function Text(w: Word): (text: string)
    ensures |text| == |w|
    ensures forall i :: 0 <= i < |w| ==> text[i] == w[i].c
  {
    seq(|w|, i requires 0 <= i < |w| => w[i].c)
  }

  /** The text a word stands for after quote removal, when nothing in it expands. */
  function Value(w: Word): Option<string> {
    if exists i :: 0 <= i < |w| && IsLive(w[i]) then None
    else Some(Text(w))
  }

  function Values(ws: seq<Word>): (r: Option<seq<string>>)
    ensures r.Some? ==> |r.value| == |ws|
  {
    if ws == [] then Some([])
    else
      var first :- Value(ws[0]);
      var rest :- Values(ws[1..]);
      Some([first] + rest)
  }

  // ----- Grammar -----

  datatype Redirection = Redirection(fd: Word, op: string, target: Word)

  datatype Assignment = Assignment(name: string, value: Word)

  /** A command; a list of commands is kept as the commands with the operator that
      follows each (`""` after the last when nothing does). */
  datatype Command =
    | Simple(assignments: seq<Assignment>, words: seq<Word>, redirections: seq<Redirection>)
    | Subshell(body: CommandList, outside: seq<Redirection>)

  datatype CommandList = Nil | Cons(command: Command, connector: string, rest: CommandList)

  predicate IsNameStart(c: char) {
    IsAlpha(c) || c == '_'
  }

  predicate IsNameChar(c: char) {
    IsNameStart(c) || IsDigit(c)
  }

  /** The index of the first unquoted `=` in `w` from `i` on, or `|w|`. */
  function EqualsIndex(w: Word, i: nat): (k: nat)
    requires i <= |w|
    ensures i <= k <= |w|
    ensures k < |w| ==> w[k] == Letter('=', Bare)
    ensures forall j :: i <= j < k ==> w[j] != Letter('=', Bare)
    decreases |w| - i
  {
    if i == |w| || w[i] == Letter('=', Bare) then i else EqualsIndex(w, i + 1)
  }

  /** Rule 7 of section 2.10.2: an unquoted name in front of an unquoted `=`. */
  predicate IsAssignment(w: Word) {
    var k := EqualsIndex(w, 0);
    && 0 < k < |w|
    && IsNameStart(w[0].c)
    && forall i :: 0 <= i < k ==> w[i].mark == Bare && IsNameChar(w[i].c)
  }

  function AsAssignment(w: Word): Assignment
    requires IsAssignment(w)
  {
    var k := EqualsIndex(w, 0);
    Assignment(Text(w[..k]), w[k + 1..])
  }

  /** Section 2.4. */
  predicate IsReservedText(text: string) {
    || text == "if" || text == "then" || text == "else" || text == "elif" || text == "fi"
    || text == "do" || text == "done" || text == "case" || text == "esac" || text == "while"
    || text == "until" || text == "for" || text == "in" || text == "{" || text == "}" || text == "!"
  }

  /** A reserved word is one only when no character of it is quoted. */
  predicate IsReserved(w: Word) {
    && (forall i :: 0 <= i < |w| ==> w[i].mark == Bare)
    && IsReservedText(Text(w))
  }

  predicate IsRedirection(op: string) {
    op == "<" || op == ">" || op == ">>" || op == "<&" || op == ">&" || op == "<>" || op == ">|"
  }

  predicate IsConnector(op: string) {
    op == "&&" || op == "||" || op == ";" || op == "&" || op == "|" || op == "\n"
  }

  /** Connectors after which the list may stop. */
  predicate MayEnd(op: string) {
    op == ";" || op == "&" || op == "\n"
  }

  /** A redirection at the head of `ts`, and what follows it. */
  function ParseRedirection(ts: seq<Token>): (r: Option<(Redirection, seq<Token>)>)
    ensures r.Some? ==> |r.value.1| < |ts|
  {
    if |ts| >= 3 && ts[0].IoNumber? && ts[1].Operator? && IsRedirection(ts[1].op) && ts[2].WordToken? then
      Some((Redirection(ts[0].digits, ts[1].op, ts[2].word), ts[3..]))
    else if |ts| >= 2 && ts[0].Operator? && IsRedirection(ts[0].op) && ts[1].WordToken? then
      Some((Redirection([], ts[0].op, ts[1].word), ts[2..]))
    else None
  }

  function ParseRedirections(ts: seq<Token>): (r: (seq<Redirection>, seq<Token>))
    ensures |r.1| <= |ts|
    decreases |ts|
  {
    var first := ParseRedirection(ts);
    if first.None? then ([], ts)
    else
      var (more, rest) := ParseRedirections(first.value.1);
      ([first.value.0] + more, rest)
  }

  /** A simple command that has read one more word: an assignment while only those have
      been seen, and no reserved word in first place. */
  function TakeWord(done: Command, w: Word): (r: Option<Command>)
    requires done.Simple?
    ensures r.Some? ==> r.value.Simple?
  {
    if done.words == [] && IsAssignment(w) then
      Some(done.(assignments := done.assignments + [AsAssignment(w)]))
    else if done == Simple([], [], []) && IsReserved(w) then None
    else Some(done.(words := done.words + [w]))
  }

  /** A simple command, of which `done` has been read so far. */
  function ParseSimple(ts: seq<Token>, done: Command): (r: Option<(Command, seq<Token>)>)
    requires done.Simple?
    ensures r.Some? ==> |r.value.1| <= |ts|
    ensures r.Some? ==> r.value.0.Simple?
    decreases |ts|
  {
    if |ts| > 0 && ts[0].WordToken? then
      var taken := TakeWord(done, ts[0].word);
      if taken.None? then None else ParseSimple(ts[1..], taken.value)
    else
      var redirection := ParseRedirection(ts);
      if redirection.Some? then
        ParseSimple(redirection.value.1, done.(redirections := done.redirections + [redirection.value.0]))
      else if done == Simple([], [], []) then None
      else Some((done, ts))
  }

  function ParseCommand(ts: seq<Token>): (r: Option<(Command, seq<Token>)>)
    ensures r.Some? ==> |r.value.1| <= |ts|
    decreases |ts|, 0
  {
    if |ts| > 0 && ts[0] == Operator("(") then
      var body := ParseList(ts[1..]);
      if body.Some? && |body.value.1| > 0 && body.value.1[0] == Operator(")") then
        var (redirections, rest) := ParseRedirections(body.value.1[1..]);
        Some((Subshell(body.value.0, redirections), rest))
      else None
    else ParseSimple(ts, Simple([], [], []))
  }

  function ParseList(ts: seq<Token>): (r: Option<(CommandList, seq<Token>)>)
    ensures r.Some? ==> |r.value.1| <= |ts|
    decreases |ts|, 1
  {
    var first := ParseCommand(ts);
    if first.None? then None
    else
      var (command, rest) := first.value;
      if |rest| > 0 && rest[0].Operator? && IsConnector(rest[0].op) then
        var after := rest[1..];
        if MayEnd(rest[0].op) && (after == [] || after[0] == Operator(")")) then
          Some((Cons(command, rest[0].op, Nil), after))
        else
          var more := ParseList(after);
          if more.None? then None
          else Some((Cons(command, rest[0].op, more.value.0), more.value.1))
      else Some((Cons(command, "", Nil), rest))
  }

  /** What a shell makes of one command line. */
  function Parse(line: string): Option<CommandList> {
    var tokens := Tokens(line);
    if tokens.None? then None
    else
      var parsed := ParseList(tokens.value);
      if parsed.Some? && parsed.value.1 == [] then Some(parsed.value.0) else None
  }

  // ----- What runs -----

  /** A program run by a line: the directory it is first moved to, the variables set for
      it alone, and its words. */
  datatype Execution = Execution(cwd: Option<string>, env: seq<(string, string)>, argv: seq<string>)

  function AssignmentValues(assignments: seq<Assignment>): Option<seq<(string, string)>> {
    if assignments == [] then Some([])
    else
      var value :- Value(assignments[0].value);
      var rest :- AssignmentValues(assignments[1..]);
      Some([(assignments[0].name, value)] + rest)
  }

  /** The program a simple command without redirections runs. */
  function SimpleExecution(c: Command): Option<Execution> {
    if c.Simple? && c.redirections == [] then
      var env :- AssignmentValues(c.assignments);
      var argv :- Values(c.words);
      Some(Execution(None, env, argv))
    else None
  }

  /** The one program a line runs, if it is a simple command or `cd <dir> && <command>`. */
  function Runs(l: CommandList): Option<Execution> {
    if l.Cons? && l.connector == "" && l.rest.Nil? then SimpleExecution(l.command)
    else if l.Cons? && l.connector == "&&" && l.rest.Cons? && l.rest.connector == "" && l.rest.rest.Nil? then
      var change :- SimpleExecution(l.command);
      var main :- SimpleExecution(l.rest.command);
      if change.env == [] && |change.argv| == 2 && change.argv[0] == "cd" then
        Some(main.(cwd := Some(change.argv[1])))
      else None
    else None
  }

  function LineRuns(line: string): Option<Execution> {
    var l :- Parse(line);
    Runs(l)
  }
}
