/** The command-executor boundary (pkg/util/exec): the executor itself is an
    oracle from a command and its arguments to its output or an error; what is
    modelled is how errors are classified and how output is tidied. */
module Exec {
  import opened Wrappers
  import opened Strings

  /** The error values the executor can hand back, one constructor per Go
      type that the type switches distinguish. */
  datatype GoError =
    | ExitError(exitCode: int, stderr: string)        // *exec.ExitError
    | ExecError(name: string, cause: string)          // *exec.Error (program not found, ...)
    | CodeExitErrorRef(status: int, cause: string)    // *kexec.CodeExitError
    | CodeExitErrorVal(status: int, cause: string)    // kexec.CodeExitError (value receiver)
    | StatusError(statusCode: int, message: string)   // *kerrors.StatusError
    | OtherError(message: string)                     // any other error value

  /** `err.Error()` for each kind. */
  function ErrorText(e: GoError): string
  {
    match e
    case ExitError(code, _) => "exit status " + IntToString(code)
    case ExecError(name, cause) => "exec: \"" + name + "\": " + cause
    case CodeExitErrorRef(_, cause) => cause
    case CodeExitErrorVal(_, cause) => cause
    case StatusError(_, message) => message
    case OtherError(message) => message
  }


  const ExitMarker: string := "command terminated with exit code"

  /** True for the error kinds that carry an exit status of their own. */
  predicate CarriesCode(e: GoError)
  {
    e.ExitError? || e.CodeExitErrorRef? || e.CodeExitErrorVal? || e.StatusError?
  }

  /** ExtractExitCode: the code of an error that carries one; otherwise the
      number after the exit-code phrase in the message; otherwise -1 and an
      error. The result pairs the int Go returns with "error is nil". */
  function ExtractExitCode(e: GoError): (r: ParsedInt)
    ensures e.ExitError? ==> r == ParsedInt(e.exitCode, true)
    ensures e.CodeExitErrorRef? || e.CodeExitErrorVal? ==> r == ParsedInt(e.status, true)
    ensures e.StatusError? ==> r == ParsedInt(e.statusCode, true)
    ensures !CarriesCode(e) && !Contains(ErrorText(e), ExitMarker) ==> r == ParsedInt(-1, false)
    ensures !CarriesCode(e) && Contains(ErrorText(e), ExitMarker) ==>
              r == Atoi(TrimSpace(SecondAfterPiece(ErrorText(e), ExitMarker)))
  {
    match e
    case ExitError(code, _) => ParsedInt(code, true)
    case CodeExitErrorRef(status, _) => ParsedInt(status, true)
    case CodeExitErrorVal(status, _) => ParsedInt(status, true)
    case StatusError(code, _) => ParsedInt(code, true)
    case _ =>
      var text := ErrorText(e);
      if Contains(text, ExitMarker) then Atoi(TrimSpace(SecondAfterPiece(text, ExitMarker)))
      else ParsedInt(-1, false)
  }

  /** A string none of whose characters is `ch` does not contain any string
      that starts with `ch`. */
  lemma {:induction false} NotContainsFirstChar(s: string, sub: string)
    requires |sub| > 0 && sub[0] !in s
    ensures !Contains(s, sub)
  {
    if s != [] {
      assert sub[0] !in s[1..];
      NotContainsFirstChar(s[1..], sub);
    }
  }

  lemma SpacedNumberHasNoMarker(n: int)
    ensures !Contains(" " + IntToString(n), ExitMarker)
  {
    var t := " " + IntToString(n);
    var digits := if n < 0 then NatToString(-n) else NatToString(n);
    assert AllDigits(digits);
    assert forall i :: 0 <= i < |t| ==> t[i] == ' ' || t[i] == '-' || IsDigit(t[i]);
    NotContainsFirstChar(t, ExitMarker);
  }

  lemma TrimSpacedNumber(n: int)
    ensures TrimSpace(" " + IntToString(n)) == IntToString(n)
  {
    var num := IntToString(n);
    var t := " " + num;
    assert LeftSpan(t[1..]) == 0;
    assert LeftSpan(t) == 1;
    assert t[1..] == num;
    assert RightSpan(num) == |num|;
    assert num[..|num|] == num;
  }

  /** A message that is the exit-code phrase followed by a space and a 64-bit
      integer in decimal yields that integer and no error. */
  lemma ExtractExitCodeFromMessage(n: int)
    requires -SignedLimit(64) <= n < SignedLimit(64)
    ensures ExtractExitCode(OtherError(ExitMarker + " " + IntToString(n))) == ParsedInt(n, true)
  {
    MarkerMessagePiece(n);
    TrimSpacedNumber(n);
    AtoiIntToString(n);
  }

  /** A message of any kind without a code of its own that ends in the
      exit-code phrase, a space and a 64-bit integer yields that integer, as
      long as the phrase does not occur earlier in the message. */
  lemma ExtractExitCodeAfterPrefix(e: GoError, p: string, n: int)
    requires !CarriesCode(e) && ErrorText(e) == p + ExitMarker + " " + IntToString(n)
    requires forall j :: 0 <= j < |p| ==> !HasPrefix((p + ExitMarker)[j..], ExitMarker)
    requires -SignedLimit(64) <= n < SignedLimit(64)
    ensures ExtractExitCode(e) == ParsedInt(n, true)
  {
    var t := " " + IntToString(n);
    var text := ErrorText(e);
    assert text == p + ExitMarker + t;
    IndexOfAfterPrefix(p, ExitMarker, t);
    assert text[|p| + |ExitMarker|..] == t;
    SpacedNumberHasNoMarker(n);
    assert IndexOf(t, ExitMarker).None?;
    assert SecondAfterPiece(text, ExitMarker) == t;
    TrimSpacedNumber(n);
    AtoiIntToString(n);
  }

  /** The piece after the exit-code phrase is the space and the number. */
  lemma MarkerMessagePiece(n: int)
    ensures Contains(ExitMarker + " " + IntToString(n), ExitMarker)
    ensures SecondAfterPiece(ExitMarker + " " + IntToString(n), ExitMarker) == " " + IntToString(n)
  {
    var t := " " + IntToString(n);
    var text := ExitMarker + t;
    assert ExitMarker + " " + IntToString(n) == text;
    assert HasPrefix(text, ExitMarker);
    assert IndexOf(text, ExitMarker) == Some(0);
    assert text[|ExitMarker|..] == t;
    SpacedNumberHasNoMarker(n);
  }

  /** assertErrorType: the captured stderr of an exit error, the message of an
      exec error, and "" for every other kind. */
  function AssertErrorType(e: GoError): (r: string)
    ensures e.ExitError? ==> r == e.stderr
    ensures e.ExecError? ==> r == "exec: \"" + e.name + "\": " + e.cause
    ensures !e.ExitError? && !e.ExecError? ==> r == ""
  {
    match e
    case ExitError(_, stderr) => stderr
    case ExecError(_, _) => ErrorText(e)
    case _ => ""
  }

  /** What a finished process produced: its stdout alone, stdout and stderr
      interleaved, and its error if it failed. */
  datatype ProcessOutcome = ProcessOutcome(stdout: string, combined: string, err: Option<GoError>)

  /** The executor: what running `command` with `args` produces. Processes are
      not modelled, so this is an uninterpreted oracle. */
  type Executor = (string, seq<string>) -> ProcessOutcome

  /** The text runCommandWithOutput works on before trimming. */
  function RawOutput(p: ProcessOutcome, combinedOutput: bool): string
  {
    if combinedOutput then p.combined
    else if p.err.Some? then p.stdout + ". " + AssertErrorType(p.err.value)
    else p.stdout
  }

  /** runCommandWithOutput: the error is passed through unchanged and the
      output is the raw text with surrounding whitespace removed. */
  function RunCommandWithOutput(p: ProcessOutcome, combinedOutput: bool): (r: (string, Option<GoError>))
    ensures r.1 == p.err
    ensures r.0 == [] || (!IsSpace(r.0[0]) && !IsSpace(r.0[|r.0| - 1]))
  {
    (TrimSpace(RawOutput(p, combinedOutput)), p.err)
  }

  /** The returned output is a slice of the raw text with only whitespace cut
      away, and in non-combined mode a failure appends ". " and the error's
      stderr or message to stdout before trimming. */
  lemma RunCommandOutputShape(p: ProcessOutcome, combinedOutput: bool)
    ensures var raw := RawOutput(p, combinedOutput); var out := RunCommandWithOutput(p, combinedOutput).0;
      exists a, b :: 0 <= a <= b <= |raw| && AllSpace(raw[..a]) && AllSpace(raw[b..]) && out == raw[a..b]
    ensures !combinedOutput && p.err.Some? && p.err.value.ExitError? ==>
      RawOutput(p, combinedOutput) == p.stdout + ". " + p.err.value.stderr
    ensures !combinedOutput && p.err.None? ==> RawOutput(p, combinedOutput) == p.stdout
  {
    TrimSpaceShape(RawOutput(p, combinedOutput));
  }

  /** ExecuteCommandWithOutput: runs the command in non-combined mode; callers
      only look at the output when the error is nil. */
  function ExecuteCommandWithOutput(exec: Executor, command: string, args: seq<string>): (r: Result<string, GoError>)
    ensures r.Err? <==> exec(command, args).err.Some?
    ensures r.Err? ==> r.error == exec(command, args).err.value
    ensures r.Ok? ==> r.value == TrimSpace(exec(command, args).stdout)
  {
    var (out, err) := RunCommandWithOutput(exec(command, args), false);
    if err.Some? then Err(err.value) else Ok(out)
  }
}
