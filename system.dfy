/** The modelled parts of src/macro_man/tools/system.py: the checks
    `execute_command` makes before it runs anything, the response it shapes from
    the finished process, its timeout message, and the prefix filter of
    `get_environment_variables`. The process and the environment are parameters. */
module System {
  import opened Errors
  import opened Text
  import opened Json

  /** How `subprocess.run` ended: the process finished, the timeout expired, or
      starting it raised some other exception, with its text. */
  datatype Run =
    | Completed(returnCode: int, stdout: string, stderr: string)
    | TimeoutExpired
    | RunFailed(reason: string)

  /** The deny-list, matched as substrings of the lower-cased command. */
  const DangerousCommands: seq<string> := ["rm -rf", "sudo", "su", "chmod 777", "dd if=", "mkfs"]

  const EmptyCommand := "Command cannot be empty"
  const DangerousCommand := "Command contains potentially dangerous operations"
  const ExecutePrefix := "Failed to execute command"

  /** `any(dangerous in command.lower() for dangerous in dangerous_commands)` */
  predicate IsDangerous(command: string) {
    exists i | 0 <= i < |DangerousCommands| :: Contains(Lower(command), DangerousCommands[i])
  }

  /** The checks before the command runs, as the errors they raise. */
  function CommandRejection(command: string): (e: Option<Error>)
    ensures e.Some? <==> IsBlank(command) || IsDangerous(command)
    ensures e.Some? ==> e.value.Validation? && e.value.field == Some("command")
    ensures IsBlank(command) ==> Str(e.value) == EmptyCommand
    ensures !IsBlank(command) && IsDangerous(command) ==> Str(e.value) == DangerousCommand
  {
    if IsBlank(command) then Some(NewValidationError(EmptyCommand, Some("command")))
    else if IsDangerous(command) then Some(NewValidationError(DangerousCommand, Some("command")))
    else None
  }

  /** The response of a finished process: the command as given and the
      process's return code and output; it succeeded exactly when the return
      code is zero. */
  function Response(command: string, returnCode: int, stdout: string, stderr: string): (j: Json)
    ensures j.JObject? && j.fields.Keys == {"command", "return_code", "stdout", "stderr", "success"}
    ensures j.fields["command"] == JStr(command)
    ensures j.fields["return_code"] == JInt(returnCode)
    ensures j.fields["stdout"] == JStr(stdout) && j.fields["stderr"] == JStr(stderr)
    ensures j.fields["success"] == JBool(returnCode == 0)
  {
    JObject(map[
      "command" := JStr(command),
      "return_code" := JInt(returnCode),
      "stdout" := JStr(stdout),
      "stderr" := JStr(stderr),
      "success" := JBool(returnCode == 0)])
  }

  /** `f"Command timed out after {timeout} seconds"` */
  function TimeoutMessage(timeout: int): string {
    "Command timed out after " + IntText(timeout) + " seconds"
  }

  /** `execute_command(command, timeout)` as written: both rejections are raised
      inside the `try`, so the final `except Exception` turns them into generic
      errors like any failure to start the process. */
  function ExecuteCommand(command: string, timeout: int, run: Run): (r: Result<Json>)
    ensures r.Err? ==> Code(r.error) == Some(GenericCode) && FieldOf(r.error) == None
    ensures r.Ok? <==> CommandRejection(command).None? && run.Completed?
    ensures r.Ok? ==> r.value == Response(command, run.returnCode, run.stdout, run.stderr)
    ensures CommandRejection(command).None? && run.TimeoutExpired? ==> Str(r.error) == TimeoutMessage(timeout)
    ensures CommandRejection(command).Some? ==> Str(r.error) == ExecutePrefix + ": " + Str(CommandRejection(command).value)
    ensures CommandRejection(command).None? && run.RunFailed? ==> Str(r.error) == ExecutePrefix + ": " + run.reason
  {
    match CommandRejection(command)
    case Some(e) => Err(Generic(ExecutePrefix + ": " + Str(e)))
    case None =>
      match run
      case Completed(rc, out, err) => Ok(Response(command, rc, out, err))
      case TimeoutExpired => Err(Generic(TimeoutMessage(timeout)))
      case RunFailed(reason) => Err(Generic(ExecutePrefix + ": " + reason))
  }

  /** `execute_command` as evidently intended: a rejected command is reported as
      the ValidationError on field "command" that was raised; nothing else changes. */
  function ExecuteCommandIntended(command: string, timeout: int, run: Run): (r: Result<Json>)
    ensures r.Ok? <==> CommandRejection(command).None? && run.Completed?
    ensures CommandRejection(command).Some? ==>
      r.Err? && Code(r.error) == Some(ValidationCode) && FieldOf(r.error) == Some("command")
    ensures CommandRejection(command).Some? ==> r == Err(CommandRejection(command).value)
  {
    match CommandRejection(command)
    case Some(e) => Err(e)
    case None => ExecuteCommand(command, timeout, run)
  }

  /** `get_environment_variables(prefix)` over the environment `env`: all of it
      when the prefix is None or empty, otherwise the entries whose name starts
      with the prefix. */
  function EnvironmentVariables(env: map<string, string>, prefix: Option<string>): (r: map<string, string>)
    ensures prefix.None? || prefix.value == "" ==> r == env
  {
    if prefix.Some? && prefix.value != "" then
      map k | k in env && StartsWith(k, prefix.value) :: env[k]
    else env
  }

  // ---------------------------------------------------------------------------
  // Properties of the command guard

  /** A command is refused before anything runs: whatever the process would have
      done, a rejected command gets the same error, in both versions. */
  lemma {:induction false} RejectedCommandNeverRuns(command: string, timeout: int, run1: Run, run2: Run)
    requires IsBlank(command) || IsDangerous(command)
    ensures ExecuteCommand(command, timeout, run1) == ExecuteCommand(command, timeout, run2)
    ensures ExecuteCommandIntended(command, timeout, run1) == ExecuteCommandIntended(command, timeout, run2)
    ensures ExecuteCommand(command, timeout, run1).Err?
  {
  }

  /** The as-written and the intended behaviour differ only on rejected commands,
      and there only in the kind of error: the generic message is the intended one
      behind the prefix "Failed to execute command: ". */
  lemma {:induction false} ExecuteCommandSwallowsValidation(command: string, timeout: int, run: Run)
    ensures CommandRejection(command).None? ==>
      ExecuteCommand(command, timeout, run) == ExecuteCommandIntended(command, timeout, run)
    ensures CommandRejection(command).Some? ==>
      && Str(ExecuteCommand(command, timeout, run).error)
         == ExecutePrefix + ": " + Str(ExecuteCommandIntended(command, timeout, run).error)
      && Code(ExecuteCommand(command, timeout, run).error) != Code(ExecuteCommandIntended(command, timeout, run).error)
  {
  }

  /** The discrepancy on the empty command: the source reports a generic error
      with no field, where a ValidationError on "command" is what is raised and
      expected. */
  lemma EmptyCommandCounterexample(timeout: int, run: Run)
    ensures ExecuteCommand("", timeout, run) == Err(MacroMan("Failed to execute command: Command cannot be empty", GenericCode))
    ensures ExecuteCommandIntended("", timeout, run) == Err(Validation("Command cannot be empty", Some("command")))
  {
    assert IsBlank("");
    assert CommandRejection("") == Some(Validation(EmptyCommand, Some("command")));
    assert ExecutePrefix + ": " + EmptyCommand == "Failed to execute command: Command cannot be empty";
  }

  /** The pattern "sudo" is redundant: it contains "su", so the guard refuses
      exactly the commands whose lower-cased text contains one of "rm -rf", "su",
      "chmod 777", "dd if=" or "mkfs". In particular "su" anywhere is refused. */
  lemma {:induction false} DangerousIffContains(command: string)
    ensures IsDangerous(command) <==>
      var c := Lower(command);
      Contains(c, "rm -rf") || Contains(c, "su") || Contains(c, "chmod 777") || Contains(c, "dd if=") || Contains(c, "mkfs")
  {
    var c := Lower(command);
    if Contains(c, "sudo") {
      assert OccursAt("sudo", "su", 0);
      ContainsTransitive(c, "sudo", "su");
    }
    if Contains(c, "su") {
      assert Contains(c, DangerousCommands[2]);
    }
    if Contains(c, "rm -rf") { assert Contains(c, DangerousCommands[0]); }
    if Contains(c, "chmod 777") { assert Contains(c, DangerousCommands[3]); }
    if Contains(c, "dd if=") { assert Contains(c, DangerousCommands[4]); }
    if Contains(c, "mkfs") { assert Contains(c, DangerousCommands[5]); }
  }

  /** The guard ignores case: commands that lower-case alike get the same verdict,
      so lower-casing a command first changes nothing. */
  lemma {:induction false} DangerousIgnoresCase(command: string, other: string)
    requires Lower(command) == Lower(other)
    ensures IsDangerous(command) == IsDangerous(other)
    ensures IsDangerous(Lower(command)) == IsDangerous(command)
  {
    LowerIdempotent(command);
  }

  /** Because "su" is matched anywhere, harmless text containing it is refused
      too, such as "echo result". */
  lemma {:induction false} HarmlessCommandRefused()
    ensures IsDangerous("echo result")
    ensures ExecuteCommandIntended("echo result", 30, Completed(0, "result\n", "")).Err?
  {
    var c := Lower("echo result");
    assert c[7..9] == "su";
    assert OccursAt(c, DangerousCommands[2], 7);
  }

  // ---------------------------------------------------------------------------
  // Properties of the environment filter

  /** With a non-empty prefix the filter is sound and complete: a name is kept
      exactly when it is in the environment and starts with the prefix, and its
      value is kept unchanged. */
  lemma {:induction false} EnvironmentFilterExact(env: map<string, string>, prefix: string, name: string)
    requires prefix != ""
    ensures name in EnvironmentVariables(env, Some(prefix)) <==> name in env && StartsWith(name, prefix)
    ensures name in EnvironmentVariables(env, Some(prefix)) ==>
      EnvironmentVariables(env, Some(prefix))[name] == env[name]
  {
  }

  /** Filtering is idempotent, and a longer prefix keeps a subset of what a
      shorter prefix of it keeps. */
  lemma {:induction false} EnvironmentFilterNarrows(env: map<string, string>, prefix: string, longer: string)
    requires StartsWith(longer, prefix)
    ensures EnvironmentVariables(EnvironmentVariables(env, Some(prefix)), Some(prefix)) == EnvironmentVariables(env, Some(prefix))
    ensures EnvironmentVariables(env, Some(longer)).Keys <= EnvironmentVariables(env, Some(prefix)).Keys
  {
    var narrow := EnvironmentVariables(env, Some(longer));
    var wide := EnvironmentVariables(env, Some(prefix));
    forall k | k in narrow ensures k in wide {
      if prefix != "" {
        assert k[..|prefix|] == k[..|longer|][..|prefix|];
      }
    }
  }
}
