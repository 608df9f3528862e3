/** How vitro writes a command for the shell at the other end (`src/ssh.rs`). */
module Ssh {
  import opened Wrappers

  datatype Quoting = Posix | Raw

  datatype Variable = Variable(name: string, value: string)

  datatype Prelude = Prelude(cwd: Option<string>, env: seq<Variable>, freshPath: bool)

  const NO_PRELUDE := Prelude(None, [], false)

  predicate IsAsciiAlphanumeric(c: char) {
    'a' <= c <= 'z' || 'A' <= c <= 'Z' || '0' <= c <= '9'
  }

  /** The characters `quote` leaves alone besides letters and digits. */
  predicate IsSafe(c: char) {
    || IsAsciiAlphanumeric(c)
    || c == '-' || c == '_' || c == '.' || c == '/' || c == ':' || c == '=' || c == '@' || c == ','
    || c == '+'
  }

  predicate IsBareWord(part: string) {
    part != [] && forall i :: 0 <= i < |part| ==> IsSafe(part[i])
  }

  /** `value.replace(from, to)` for a single character. */
  function Replace(value: string, from: char, to: string): string {
    if value == [] then []
    else (if value[0] == from then to else [value[0]]) + Replace(value[1..], from, to)
  }

  function Quote(part: string): string {
    if IsBareWord(part) then part else "'" + Replace(part, '\'', "'\\''") + "'"
  }

  function PowershellLiteral(value: string): string {
    "'" + Replace(value, '\'', "''") + "'"
  }

  function Join(parts: seq<string>): string {
    if parts == [] then ""
    else if |parts| == 1 then parts[0]
    else parts[0] + " " + Join(parts[1..])
  }

  /** Wherever a command is cut, its two parts stand side by side with one blank between them. */
  lemma {:induction false} JoinAnywhere(a: seq<string>, b: seq<string>)
    ensures a == [] ==> Join(a) == ""
    ensures |a| == 1 ==> Join(a) == a[0]
    ensures a != [] && b != [] ==> Join(a + b) == Join(a) + " " + Join(b)
  {
    if a != [] && b != [] {
      assert (a + b)[1..] == a[1..] + b;
      if |a| == 1 {
        assert a[1..] + b == b;
      } else {
        JoinAnywhere(a[1..], b);
      }
    }
  }

  function QuoteAll(parts: seq<string>): (r: seq<string>)
    ensures |r| == |parts|
  {
    if parts == [] then [] else [Quote(parts[0])] + QuoteAll(parts[1..])
  }

  function ShellJoin(command: seq<string>, quoting: Quoting): string {
    match quoting
    case Raw => Join(command)
    case Posix => Join(QuoteAll(command))
  }

  function PosixVariables(env: seq<Variable>): string {
    if env == [] then ""
    else env[0].name + "=" + Quote(env[0].value) + " " + PosixVariables(env[1..])
  }

  function PowershellVariables(env: seq<Variable>): string {
    if env == [] then ""
    else "$env:" + env[0].name + "=" + PowershellLiteral(env[0].value) + "; " + PowershellVariables(env[1..])
  }

  const GET_VARIABLE := "[Environment]::" + "GetEnvironmentVariable("

  function PathOf(scope: string): string {
    GET_VARIABLE + "'Path'" + "," + "'" + scope + "'" + ")"
  }

  const FRESH_PATH := "$env:Path = " + (PathOf("Machine") + (" + " + ("';'" + (" + " + (PathOf("User") + "; ")))))

  function PosixPrelude(prelude: Prelude): string {
    (if prelude.cwd.Some? then "cd " + Quote(prelude.cwd.value) + " && " else "")
    + PosixVariables(prelude.env)
  }

  function RawPrelude(prelude: Prelude): string {
    (if prelude.freshPath then FRESH_PATH else "")
    + (if prelude.cwd.Some? then
         "Set-Location -LiteralPath " + PowershellLiteral(prelude.cwd.value) + " -ErrorAction Stop; "
       else "")
    + PowershellVariables(prelude.env)
  }

  function Compose(command: seq<string>, quoting: Quoting, prelude: Prelude): string {
    match quoting
    case Posix => PosixPrelude(prelude) + ShellJoin(command, Posix)
    case Raw => RawPrelude(prelude) + ShellJoin(command, Raw)
  }

  predicate IsVariableName(name: string) {
    && name != []
    && !('0' <= name[0] <= '9')
    && forall i :: 0 <= i < |name| ==> IsAsciiAlphanumeric(name[i]) || name[i] == '_'
  }

  /** Where `c` first occurs in `text`, or `|text|`. */
  function IndexOf(text: string, c: char): (k: nat)
    ensures k <= |text|
    ensures k < |text| ==> text[k] == c
    ensures forall i :: 0 <= i < k ==> text[i] != c
  {
    if text == [] || text[0] == c then 0 else 1 + IndexOf(text[1..], c)
  }

  function ParseEnv(text: string): (r: Option<Variable>)
    ensures r.Some? ==> IsVariableName(r.value.name) && text == r.value.name + "=" + r.value.value
  {
    var k := IndexOf(text, '=');
    if k == |text| then None
    else if !IsVariableName(text[..k]) then None
    else Some(Variable(text[..k], text[k + 1..]))
  }

  lemma IndexOfUnique(text: string, c: char, k: nat)
    requires k < |text| && text[k] == c && forall i :: 0 <= i < k ==> text[i] != c
    ensures IndexOf(text, c) == k
  {
  }

  /** Every well-formed setting is taken, split at its first `=`. */
  lemma ParseEnvTakesEveryName(name: string, value: string)
    requires IsVariableName(name)
    ensures ParseEnv(name + "=" + value) == Some(Variable(name, value))
  {
    var text := name + "=" + value;
    IndexOfUnique(text, '=', |name|);
    assert text[..|name|] == name && text[|name| + 1..] == value;
  }
}
