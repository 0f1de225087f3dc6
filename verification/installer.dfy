/** Installing the tool: the `dotnet tool install` command line each variant
    builds, and for bin/index.cjs the whole installDotnetTool step — the
    warning rule for standard error, executable resolution, and the wrapping
    of every failure into one message. */
module Installer {
  import opened Wrappers
  import opened JsStrings
  import opened PackageId
  import opened Resolution

  /** What running the install command produced: it exited zero with this
      standard output and standard error, or it failed (non-zero exit or no
      process) with the error's message and the captured output. */
  datatype ExecOutcome =
    | Completed(stdout: string, stderr: string)
    | Failed(message: string, stdout: string, stderr: string)

  /** The part of the install command both variants share. */
  function InstallPrefix(toolPath: string): string {
    "dotnet tool install --tool-path \"" + toolPath + "\""
  }

  /** bin/index.cjs: `<prefix> <id> <versionArg>`, trimmed, where versionArg
      is `--version <v>` for a truthy version and "" otherwise. */
  function InstallCommand(id: string, toolPath: string, version: Option<string>): (command: string)
    ensures InstallPrefix(toolPath) <= command
    ensures Unpadded(command)
  {
    var versionArg := if HasVersion(version) then "--version " + version.value else "";
    var raw := InstallPrefix(toolPath) + " " + id + " " + versionArg;
    InstallPrefixUnpadded(toolPath);
    TrimKeepsHead(InstallPrefix(toolPath), " " + id + " " + versionArg);
    assert raw == InstallPrefix(toolPath) + (" " + id + " " + versionArg);
    Trim(raw)
  }

  /** The shared prefix starts with `d` and ends with a quote. */
  lemma InstallPrefixUnpadded(toolPath: string)
    ensures InstallPrefix(toolPath) != [] && Unpadded(InstallPrefix(toolPath))
    ensures InstallPrefix(toolPath)[0] == 'd'
  {
    var lead := "dotnet tool install --tool-path \"";
    var s := lead + toolPath + "\"";
    assert s[0] == lead[0] == 'd';
    assert s[|s| - 1] == '"';
  }

  /** bin/index.js: `<prefix> <id>`, then ` --version <v>` when a version was
      parsed; nothing is trimmed. */
  function InstallCommandAnchored(id: string, toolPath: string, version: Option<string>): (command: string)
    ensures HasVersion(version) ==> EndsWith(command, " --version " + version.value)
    ensures !HasVersion(version) ==> EndsWith(command, " " + id)
    ensures InstallPrefix(toolPath) + " " + id <= command
    ensures |command| == |InstallPrefix(toolPath)| + 1 + |id| + (if HasVersion(version) then |" --version "| + |version.value| else 0)
  {
    InstallPrefix(toolPath) + " " + id + (if HasVersion(version) then " --version " + version.value else "")
  }

  /** The cjs install command names the version exactly when it is truthy:
      for an id and version without trailing whitespace it is the prefix,
      the id and, for a truthy version only, `--version <v>`. */
  lemma InstallCommandShape(id: string, toolPath: string, version: Option<string>)
    requires id != [] && !IsSpace(id[|id| - 1])
    requires HasVersion(version) ==> !IsSpace(version.value[|version.value| - 1])
    ensures HasVersion(version) ==>
              InstallCommand(id, toolPath, version) == InstallPrefix(toolPath) + " " + id + " --version " + version.value
    ensures !HasVersion(version) ==>
              InstallCommand(id, toolPath, version) == InstallPrefix(toolPath) + " " + id
  {
    var prefix := InstallPrefix(toolPath);
    InstallPrefixUnpadded(toolPath);
    if HasVersion(version) {
      var v := version.value;
      TrimWithArgument(prefix, id, "--version " + v);
      VersionArgument(prefix + " " + id, v);
    } else {
      TrimWithoutArgument(prefix, id);
    }
  }

  /** The version argument after a space reads ` --version <v>`. */
  lemma VersionArgument(command: string, v: string)
    ensures command + " " + ("--version " + v) == command + " --version " + v
  {
  }

  /** `<head> <id> <arg>` with unpadded ends is already trimmed. */
  lemma TrimWithArgument(head: string, id: string, arg: string)
    requires head != [] && Unpadded(head)
    requires arg != [] && !IsSpace(arg[|arg| - 1])
    ensures Trim(head + " " + id + " " + arg) == head + " " + id + " " + arg
  {
    var core := head + " " + id + " " + arg;
    assert core[0] == head[0];
    assert core[|core| - 1] == arg[|arg| - 1];
    TrimOfPadded([], core, []);
    assert [] + core + [] == core;
  }

  /** `<head> <id> ` trims to `<head> <id>` when the id has no trailing space. */
  lemma TrimWithoutArgument(head: string, id: string)
    requires head != [] && Unpadded(head)
    requires id != [] && !IsSpace(id[|id| - 1])
    ensures Trim(head + " " + id + " " + "") == head + " " + id
  {
    var core := head + " " + id;
    assert core[0] == head[0];
    assert core[|core| - 1] == id[|id| - 1];
    assert AllSpace(" ");
    TrimOfPadded([], core, " ");
    assert [] + core + " " == head + " " + id + " " + "";
  }

  /** Where ids and versions carry no trailing whitespace and the version is
      not an empty string, both variants issue the same install command. */
  lemma InstallCommandsAgree(id: string, toolPath: string, version: Option<string>)
    requires id != [] && !IsSpace(id[|id| - 1])
    requires version.Some? ==> HasVersion(version) && !IsSpace(version.value[|version.value| - 1])
    ensures InstallCommand(id, toolPath, version) == InstallCommandAnchored(id, toolPath, version)
  {
    InstallCommandShape(id, toolPath, version);
  }

  /** An empty package id separates the variants: the trim leaves the
      bin/index.cjs command at the bare prefix, while bin/index.js keeps the
      trailing space. */
  lemma InstallCommandsDifferOnEmptyId(toolPath: string)
    ensures InstallCommand("", toolPath, None) == InstallPrefix(toolPath)
    ensures InstallCommandAnchored("", toolPath, None) == InstallPrefix(toolPath) + " "
  {
    var prefix := InstallPrefix(toolPath);
    InstallPrefixUnpadded(toolPath);
    TrimOfTrailingBlanks(prefix);
    assert prefix + " " + "" + " " + "" == prefix + [' ', ' '];
  }

  /** Two trailing blanks after an unpadded head are trimmed away. */
  lemma TrimOfTrailingBlanks(head: string)
    requires head != [] && Unpadded(head)
    ensures Trim(head + [' ', ' ']) == head
  {
    var pad := [' ', ' '];
    assert AllSpace(pad);
    TrimOfPadded([], head, pad);
    assert [] + head + pad == head + pad;
  }

  /** The details of a failure: the error message, followed by the trimmed
      standard error of the installer when the error carries a non-empty one. */
  function ErrorDetails(message: string, stderr: string): (details: string)
    ensures message <= details
    ensures stderr == "" ==> details == message
    ensures stderr != "" ==> EndsWith(details, "\nTool installation error details: " + Trim(stderr))
    ensures stderr != "" ==> details[|message|..] == "\nTool installation error details: " + Trim(stderr)
  {
    if stderr != "" then
      var tail := "\nTool installation error details: " + Trim(stderr);
      assert (message + tail)[..|message|] == message;
      assert (message + tail)[|message|..] == tail;
      message + tail
    else message
  }

  /** The message every install failure is rethrown with: it names the
      package, then the version when the version is truthy, then the details. */
  function FailureMessage(id: string, version: Option<string>, details: string): (m: string)
    ensures "Failed to install " + id <= m
    ensures HasVersion(version) ==> "Failed to install " + id + " version " + version.value <= m
    ensures |m| == |"Failed to install " + id| + (if HasVersion(version) then |" version "| + |version.value| else 0) + |": "| + |details|
    ensures EndsWith(m, ": " + details)
  {
    var lead := "Failed to install " + id;
    var head := lead + (if HasVersion(version) then " version " + version.value else "");
    assert (head + ": " + details)[..|lead|] == lead;
    assert (head + ": " + details)[..|head|] == head;
    assert head + ": " + details == head + (": " + details);
    assert (head + (": " + details))[|head|..] == ": " + details;
    head + ": " + details
  }

  /** What installDotnetTool reports: the command it ran, the warning it
      printed (if any) and the command name or the failure message. */
  datatype InstallReport = InstallReport(command: string, warning: Option<string>, result: Result<string, string>)

  /** bin/index.cjs installDotnetTool. A failed install command fails the
      step with the installer's error (extended by its standard error) and
      without looking at the directory; a successful one may warn about its
      standard error and then resolves the command name, whose failure is
      wrapped the same way but without standard error. */
  function Install(isWindows: bool, id: string, toolPath: string, version: Option<string>,
                   exec: ExecOutcome, listing: Listing): (r: InstallReport)
    ensures r.command == InstallCommand(id, toolPath, version)
    ensures exec.Failed? ==> r.warning == None
    ensures exec.Failed? ==> r.result == Failure(FailureMessage(id, version, ErrorDetails(exec.message, exec.stderr)))
    ensures exec.Completed? ==> (r.warning.Some? <==> !AllSpace(exec.stderr))
    ensures exec.Completed? ==> r.warning.Some? ==> r.warning.value == Trim(exec.stderr)
    ensures exec.Completed? ==> match ResolveCommandName(isWindows, listing, exec.stdout)
                                case Success(name) => r.result == Success(name)
                                case Failure(m) => r.result == Failure(FailureMessage(id, version, m))
  {
    var command := InstallCommand(id, toolPath, version);
    match exec
    case Failed(message, _, stderr) =>
      InstallReport(command, None, Failure(FailureMessage(id, version, ErrorDetails(message, stderr))))
    case Completed(stdout, stderr) =>
      var warning := if Trim(stderr) != "" then Some(Trim(stderr)) else None;
      match ResolveCommandName(isWindows, listing, stdout)
      case Success(name) => InstallReport(command, warning, Success(name))
      case Failure(m) => InstallReport(command, warning, Failure(FailureMessage(id, version, m)))
  }

  /** Standard error of a successful install changes the warning only: the
      command name and every failure message are the same whatever it says. */
  lemma WarningLeavesResultAlone(isWindows: bool, id: string, toolPath: string, version: Option<string>,
                                 stdout: string, stderr1: string, stderr2: string, listing: Listing)
    ensures Install(isWindows, id, toolPath, version, Completed(stdout, stderr1), listing).result
         == Install(isWindows, id, toolPath, version, Completed(stdout, stderr2), listing).result
  {
  }

  /** A failed install command fails the step whatever the directory holds:
      no resolution is attempted. */
  lemma FailedInstallSkipsResolution(isWindows: bool, id: string, toolPath: string, version: Option<string>,
                                     exec: ExecOutcome, listing1: Listing, listing2: Listing)
    requires exec.Failed?
    ensures Install(isWindows, id, toolPath, version, exec, listing1).result.Failure?
    ensures Install(isWindows, id, toolPath, version, exec, listing1)
         == Install(isWindows, id, toolPath, version, exec, listing2)
  {
  }

  /** Wrapping loses nothing of the underlying error: the details end every
      failure message, and two failures of the same install carry the same
      message exactly when their details agree. */
  lemma FailureMessageKeepsDetails(id: string, version: Option<string>, details1: string, details2: string)
    ensures EndsWith(FailureMessage(id, version, details1), ": " + details1)
    ensures FailureMessage(id, version, details1) == FailureMessage(id, version, details2) <==> details1 == details2
  {
    var head := "Failed to install " + id + (if HasVersion(version) then " version " + version.value else "");
    var lead := head + ": ";
    assert FailureMessage(id, version, details1) == lead + details1;
    assert FailureMessage(id, version, details2) == lead + details2;
    assert (lead + details1)[|lead|..] == details1;
    assert (lead + details2)[|lead|..] == details2;
    assert lead + details1 == head + (": " + details1);
    assert (head + (": " + details1))[|head|..] == ": " + details1;
  }
}
