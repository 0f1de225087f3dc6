/** Running the installed tool: which file is run, with which arguments,
    and when the run counts as a success. bin/index.cjs spawns the file with
    an argument vector; bin/index.js builds one shell command line from a
    tool name it derives from the package id. */
module Launcher {
  import opened Wrappers
  import opened JsStrings
  import opened Resolution

  /** The file name run for a command name: `<name>.exe` on Windows. Removing
      `.exe` again gives back the command name, on every platform. */
  function ExeFileName(isWindows: bool, name: string): (file: string)
    ensures StripExe(isWindows, file) == name
  {
    if isWindows then
      assert EndsWith(name + ExeSuffix, ExeSuffix) by {
        assert (name + ExeSuffix)[|name|..] == ExeSuffix;
      }
      assert (name + ExeSuffix)[..|name|] == name;
      name + ExeSuffix
    else name
  }

  /** The launcher runs exactly the entry the directory step chose, unless on
      Windows that entry did not end in `.exe`. */
  lemma RunsChosenEntry(isWindows: bool, entry: string)
    requires isWindows ==> EndsWith(entry, ExeSuffix)
    ensures ExeFileName(isWindows, StripExe(isWindows, entry)) == entry
  {
    if isWindows {
      assert entry[..|entry| - |ExeSuffix|] + ExeSuffix == entry;
    }
  }

  /** On Windows a chosen entry without `.exe` is run as `<entry>.exe`, a
      different file from the one listed. */
  lemma WindowsEntryWithoutExeIsMissed(entry: string)
    requires !EndsWith(entry, ExeSuffix)
    ensures ExeFileName(true, StripExe(true, entry)) == entry + ExeSuffix
  {
  }

  /** The path separator of the platform. */
  function Separator(isWindows: bool): string {
    if isWindows then "\\" else "/"
  }

  /** path.join of a directory and one file name: the name after the
      directory and one separator. Empty parts are dropped, as path.join
      does, and the joined path of two empty parts is ".". */
  function JoinPath(isWindows: bool, dir: string, file: string): (path: string)
    ensures EndsWith(path, file)
    ensures dir <= path
    ensures dir != "" && file != "" ==> |path| > |dir|
  {
    if dir == "" && file == "" then "."
    else if dir == "" then file
    else if file == "" then dir
    else if EndsWith(dir, "/") || EndsWith(dir, Separator(isWindows)) then
      assert (dir + file)[|dir|..] == file;
      dir + file
    else
      assert (dir + Separator(isWindows) + file)[|dir| + 1..] == file;
      dir + Separator(isWindows) + file
  }

  /** What became of the tool's process: it exited with a code, it was
      killed by a signal (the exit code is then null), or it never started. */
  datatype ChildOutcome = ExitedWith(code: nat) | KilledBySignal | SpawnError(message: string)

  /** A process launch without a shell: the executable path and the argument
      vector it receives. */
  datatype Invocation = Invocation(path: string, args: seq<string>)

  /** bin/index.cjs runDotnetTool: spawn `<toolPath>/<name>[.exe]` with the
      arguments as they are, one vector element per argument. */
  function Launch(isWindows: bool, toolPath: string, name: string, args: seq<string>): (inv: Invocation)
    ensures inv.args == args
    ensures EndsWith(inv.path, ExeFileName(isWindows, name)) && toolPath <= inv.path
  {
    Invocation(JoinPath(isWindows, toolPath, ExeFileName(isWindows, name)), args)
  }

  /** The decimal digits of a number, as JavaScript prints an exit code. */
  function Decimal(n: nat): (digits: string)
    ensures digits != []
    ensures forall k :: 0 <= k < |digits| ==> '0' <= digits[k] <= '9'
    decreases n
  {
    var last := ['0' + (n % 10) as char];
    if n < 10 then last else Decimal(n / 10) + last
  }

  /** The decimal value of a digit string. */
  function DigitsValue(digits: string): nat
    requires forall k :: 0 <= k < |digits| ==> '0' <= digits[k] <= '9'
  {
    if digits == [] then 0
    else 10 * DigitsValue(digits[..|digits| - 1]) + (digits[|digits| - 1] - '0') as nat
  }

  /** The printed exit code reads back as the exit code. */
  lemma {:induction false} DecimalRoundTrip(n: nat)
    ensures DigitsValue(Decimal(n)) == n
    decreases n
  {
    var d := Decimal(n);
    if n >= 10 {
      DecimalRoundTrip(n / 10);
      assert d[..|d| - 1] == Decimal(n / 10);
    }
  }

  /** How the run's promise settles: it resolves exactly when the tool
      exited with code 0; otherwise it rejects with the exit code (or
      "null") in the message, or with the spawn error's own message. */
  function RunSettles(child: ChildOutcome): (r: Result<(), string>)
    ensures r.Success? <==> child == ExitedWith(0)
    ensures child.ExitedWith? && child.code != 0 ==> r == Failure("Tool exited with code " + Decimal(child.code))
    ensures child.KilledBySignal? ==> r == Failure("Tool exited with code null")
    ensures child.SpawnError? ==> r == Failure(child.message)
  {
    match child
    case ExitedWith(code) =>
      if code == 0 then Success(()) else Failure("Tool exited with code " + Decimal(code))
    case KilledBySignal => Failure("Tool exited with code null")
    case SpawnError(message) => Failure(message)
  }

  /** bin/index.js: the tool name is the package id's last dot-separated
      piece. */
  function ToolNameFromId(id: string): (name: string)
    ensures '.' !in name
    ensures |name| <= |id|
    ensures name == id[|id| - |name|..]
    ensures |name| < |id| ==> id[|id| - |name| - 1] == '.'
    ensures '.' !in id ==> name == id
  {
    LastSegmentIsMaximalSuffix(id, '.');
    LastSegment(id, '.')
  }

  /** bin/index.js: the shell command line, the quoted executable path and
      then the arguments joined by single spaces, unquoted. */
  function ShellCommand(path: string, args: seq<string>): (command: string)
    ensures "\"" + path + "\" " <= command
  {
    var head := "\"" + path + "\" ";
    assert (head + Join(args, " "))[..|head|] == head;
    head + Join(args, " ")
  }

  /** Arguments without spaces survive the shell command line: splitting what
      follows the path on spaces gives them back. */
  lemma ShellArgumentsRoundTrip(path: string, args: seq<string>)
    requires |args| >= 1
    requires forall k :: 0 <= k < |args| ==> ' ' !in args[k]
    ensures Split(ShellCommand(path, args)[|path| + 3..], ' ') == args
  {
    var head := "\"" + path + "\" ";
    assert |head| == |path| + 3;
    assert ShellCommand(path, args)[|path| + 3..] == Join(args, [' ']);
    SplitJoin(args, ' ');
  }

  /** An argument containing a space is not passed through as one: it
      reaches the shell exactly as the two arguments on either side of the
      space would. */
  lemma ShellCommandMergesArguments(path: string, a: string, b: string)
    ensures ShellCommand(path, [a + " " + b]) == ShellCommand(path, [a, b])
  {
    JoinStep(a, [b], " ");
    assert [a] + [b] == [a, b];
  }
}
