/** The commands that start a detached job in the guest and report on it (`src/jobs.rs`). */
module Jobs {
  import opened Wrappers
  import opened Ssh
  import Text

  const JOBS_DIR := ".vitro-jobs"

  predicate IsHexDigit(c: char) {
    '0' <= c <= '9' || 'a' <= c <= 'f' || 'A' <= c <= 'F'
  }

  /** Ids go into guest commands unquoted. */
  predicate IsValidId(id: string) {
    id != [] && forall i :: 0 <= i < |id| ==> IsHexDigit(id[i])
  }

  function UnixDir(id: string): string {
    "\"$HOME/" + JOBS_DIR + "/" + id + "\""
  }

  /** The innermost script: the command, then its exit code once its output is complete. */
  function UnixJob(id: string, line: string): string {
    "( " + line + " ) > " + UnixDir(id) + "/log 2>&1 < /dev/null; echo $? > " + UnixDir(id) + "/exit"
  }

  /** The script that makes the job's directory and leaves the job running. */
  function UnixScript(id: string, text: string, job: string): string {
    var dir := UnixDir(id);
    "mkdir -p " + dir + " && printf '%s\\n' " + Quote(text) + " > " + dir + "/cmd || exit 1; "
    + ("nohup sh -c " + Quote(job) + " > /dev/null 2>&1 < /dev/null & ")
    + ("echo $! > " + dir + "/pid; cat " + dir + "/pid")
  }

  function StartUnix(id: string, command: seq<string>, prelude: Prelude): seq<string> {
    var job := UnixJob(id, Compose(command, Posix, prelude));
    ["sh", "-c", UnixScript(id, Join(command), job)]
  }

  // ----- Windows -----

  /** Noting the command's exit code. */
  const NOTE_CODE := "$code = $LASTEXITCODE; " + ("if ($null -eq $code) " + "{ $code = [int](-not $?) }")

  /** Saving it beside the script. */
  const SAVE_CODE :=
    "Set-Content -LiteralPath " + ("(Join-Path $PSScriptRoot " + ("'exit'" + ") -Value $code -Encoding ascii"))

  function WindowsScript(line: string): string {
    line + "\n" + NOTE_CODE + "\n" + SAVE_CODE + "\n"
  }

  /** Setting `$d` to the job's directory and making it. */
  function WindowsDir(id: string): string {
    "$d = Join-Path $HOME " + ("'" + (JOBS_DIR + "\\" + id) + "'"
    + ("; New-Item -ItemType Directory -Force " + "-Path $d | Out-Null; "))
  }

  /** Writing `value` to the file `name` of the job's directory. */
  function SetContent(name: string, value: string): string {
    "Set-Content -LiteralPath " + ("(Join-Path $d " + ("'" + name + "'"
    + (") -Value " + (PowershellLiteral(value) + " -Encoding utf8; "))))
  }

  /** Running `$line` outside the session, and noting its process. */
  const CREATE_PROCESS :=
    "$p = Invoke-CimMethod -ClassName Win32_Process " + ("-MethodName Create -Arguments @{ "
    + ("CommandLine = $line; CurrentDirectory = $HOME }; " + ("if ($p.ReturnValue -ne 0) { exit 1 }; "
    + ("Set-Content -LiteralPath " + ("(Join-Path $d " + ("'pid'"
    + (") -Value $p.ProcessId -Encoding ascii; " + "$p.ProcessId")))))))

  /** Sending its output to the file `log`, and running it that way. */
  const LOG_OUTPUT :=
    "'\" > \"'" + (" + (Join-Path $d " + ("'log'" + (") + " + ("'\" 2>&1'" + ("; " + CREATE_PROCESS)))))

  const RUN_SCRIPT :=
    "$line = " + ("'" + ("cmd /c powershell -NoProfile " + "-ExecutionPolicy Bypass -File \"") + "'"
    + (" + (Join-Path $d " + ("'run.ps1'" + (") + " + LOG_OUTPUT))))

  /** Storing the command's text and its script in the job's directory, and running that. */
  function WindowsLine(id: string, text: string, script: string): string {
    WindowsDir(id) + (SetContent("cmd", text) + (SetContent("run.ps1", script) + RUN_SCRIPT))
  }

  function StartWindows(id: string, command: seq<string>, prelude: Prelude): seq<string> {
    [WindowsLine(id, Join(command), WindowsScript(Compose(command, Raw, prelude)))]
  }

  // ----- How a job stands -----

  datatype Status = Running | Exited(code: int) | Lost

  /** The first line of a poll, as the guest prints it. */
  function StatusText(status: Status): string {
    match status
    case Running => "running"
    case Exited(code) => "exit:" + Text.Signed(code)
    case Lost => "lost"
  }

  function ParseStatus(token: string): Option<Status> {
    var text := Text.Trim(token);
    if text == "running" then Some(Running)
    else if text == "lost" then Some(Lost)
    else if |text| >= 5 && text[..5] == "exit:" then
      var code :- Text.ParseI32(Text.Trim(text[5..]));
      Some(Exited(code))
    else None
  }

  predicate IsStatus(status: Status) {
    status.Exited? ==> -0x8000_0000 <= status.code <= 0x7fff_ffff
  }

  lemma StatusReadBack(status: Status, end: string)
    requires IsStatus(status) && (end == "" || end == "\r")
    ensures ParseStatus(StatusText(status) + end) == Some(status)
  {
    var text := StatusText(status);
    if status.Exited? {
      var code := Text.Signed(status.code);
      Text.SignedHasNoWhitespace(status.code);
      assert text[..5] == "exit:" && text[5..] == code;
      Text.TrimLine(code, "");
      assert code + "" == code;
      Text.SignedReadBack(status.code);
      assert text[0] == 'e';
    }
    assert Text.HasNoWhitespace(text);
    Text.TrimLine(text, end);
  }

  /** An exit file that is there but still empty is not a status. */
  lemma EmptyExitIsNoStatus(end: string)
    requires end == "" || end == "\r"
    ensures ParseStatus("exit:" + end) == None
  {
    Text.TrimLine("exit:", end);
    assert "exit:"[..5] == "exit:" && "exit:"[5..] == "";
  }
}
