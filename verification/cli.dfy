/** One run of the launcher, for each variant, as a machine stepping
    through its phases, with the exit code as its result. bin/index.cjs
    checks the toolchain, parses the token, allocates the scratch directory,
    installs, runs and cleans up; bin/index.js allocates the scratch
    directory before it parses, since its parse happens inside the install
    step. Both variants end a failed run after allocation with
    `process.exit(1)` from inside a `catch` (the action's own in
    bin/index.cjs, the install or run step's in bin/index.js), which ends the
    process on the spot: the `finally` that would remove the scratch
    directory only runs after a success.

    Each machine steps over a record of the calls its phases make, with
    everything the outside world answers already applied; the facts about
    the machines hold whatever those calls return, and the facts about a
    run in a given world follow by supplying the real operations. */
module Cli {
  import opened Wrappers
  import opened JsStrings
  import opened PackageId
  import opened Resolution
  import opened Installer
  import opened Launcher

  /** Everything the outside world answers during one run: the platform,
      whether `dotnet --version` succeeded, the scratch directory (its path,
      or the allocation error's message), the install command's outcome, the
      directory listing after installing, and what became of the tool. */
  datatype World = World(
    isWindows: bool,
    toolchainPresent: bool,
    tempDir: Result<string, string>,
    install: ExecOutcome,
    listing: Listing,
    child: ChildOutcome)

  /** The phases of a run. */
  datatype Phase = CheckToolchain | ParseId | AllocateTempDir | InstallTool | RunTool | CleanUp | Exited(code: int)

  /** What a run does that can be seen from outside it. */
  datatype Event =
    | ToolchainChecked
    | ToolchainMissing
    | TempDirAllocated(path: string)
    | InstallStarted(command: string)
    | InstallWarning(text: string)
    | ToolSpawned(invocation: Invocation)
    | ShellStarted(command: string)
    | ErrorReported(message: string)
    | CleanupStarted(path: string)

  /** The machine's state: the phase, the parsed reference, the scratch
      directory once allocated, the resolved command name, the exit code the
      `finally` will leave with, and the events so far. */
  datatype State = State(phase: Phase, ref: PackageRef, tempDir: Option<string>, tool: string, code: int, trace: seq<Event>)

  /** How a run ends: the process exit code and everything it did. */
  datatype Outcome = Outcome(exitCode: int, trace: seq<Event>)

  const Start: State := State(CheckToolchain, PackageRef("", None), None, "", 0, [])

  /** The scratch directory's path, once allocated. */
  function TempPath(s: State): string {
    if s.tempDir.Some? then s.tempDir.value else ""
  }

  function Ending(s: State): Outcome
    requires s.phase.Exited?
  {
    Outcome(s.phase.code, s.trace)
  }

  function WarningEvents(warning: Option<string>): seq<Event> {
    if warning.Some? then [InstallWarning(warning.value)] else []
  }

  /** `args.slice(1)`. */
  function Rest(args: seq<string>): seq<string> {
    if |args| == 0 then [] else args[1..]
  }

  /** `process.argv.slice(3)`. */
  function ToolArgs(argv: seq<string>): seq<string> {
    if |argv| <= 3 then [] else argv[3..]
  }

  /** The run allocated a scratch directory. */
  ghost predicate Allocated(trace: seq<Event>) {
    exists path :: TempDirAllocated(path) in trace
  }

  /** The run started removing a scratch directory. */
  ghost predicate CleanedUp(trace: seq<Event>) {
    exists path :: CleanupStarted(path) in trace
  }

  /** Events the work between allocating and removing the scratch directory
      can emit: it neither checks the toolchain nor allocates nor removes. */
  ghost predicate InsideTry(events: seq<Event>) {
    forall e :: e in events ==> !e.ToolchainChecked? && !e.ToolchainMissing? && !e.TempDirAllocated? && !e.CleanupStarted?
  }

  /** A trace that allocated `dir` and then did only such work has allocated
      but not cleaned up; appending the cleanup cleans up. */
  lemma {:induction false} TryTraceFacts(dir: string, prefix: seq<Event>, trace: seq<Event>)
    requires prefix == [ToolchainChecked, TempDirAllocated(dir)]
    requires prefix <= trace && InsideTry(trace[|prefix|..])
    ensures Allocated(trace) && !CleanedUp(trace)
    ensures Allocated(trace + [CleanupStarted(dir)]) && CleanedUp(trace + [CleanupStarted(dir)])
    ensures trace[0] == ToolchainChecked && trace[1] == TempDirAllocated(dir)
  {
    assert trace == prefix + trace[|prefix|..];
    assert TempDirAllocated(dir) in trace;
    assert CleanupStarted(dir) in trace + [CleanupStarted(dir)];
    assert TempDirAllocated(dir) in trace + [CleanupStarted(dir)];
  }

  // ---------------------------------------------------------------------
  // bin/index.cjs

  /** The calls the bin/index.cjs action makes: whether the toolchain check
      passed, the scratch directory, the parser, the install step (given the
      parsed reference and the directory), the spawn (given the directory
      and the resolved command name) and how the spawned tool settled. */
  datatype CjsCalls = CjsCalls(
    toolchainPresent: bool,
    tempDir: Result<string, string>,
    parse: string -> PackageRef,
    install: (PackageRef, string) -> InstallReport,
    launch: (string, string) -> Invocation,
    settled: Result<(), string>)

  /** The calls bin/index.cjs makes in world `w`. */
  function CjsCallsOf(w: World, programArgs: seq<string>): CjsCalls {
    CjsCalls(
      w.toolchainPresent,
      w.tempDir,
      ParseSplit,
      (ref: PackageRef, dir: string) => Install(w.isWindows, ref.id, dir, ref.version, w.install, w.listing),
      (dir: string, name: string) => Launch(w.isWindows, dir, name, Rest(programArgs)),
      RunSettles(w.child))
  }

  /** The order of the phases in bin/index.cjs. */
  function CjsRank(p: Phase): nat {
    match p
    case CheckToolchain => 6
    case ParseId => 5
    case AllocateTempDir => 4
    case InstallTool => 3
    case RunTool => 2
    case CleanUp => 1
    case Exited(_) => 0
  }

  /** The inner `catch` of the action: report the error, then either exit
      with 1 at once (`exitInCatch`, as the source does) or leave exit code 1
      for after the `finally`. */
  function CjsCatch(s: State, message: string, exitInCatch: bool): (t: State)
    ensures t.trace == s.trace + [ErrorReported(message)]
    ensures t.phase == (if exitInCatch then Exited(1) else CleanUp)
  {
    if exitInCatch then s.(phase := Exited(1), trace := s.trace + [ErrorReported(message)])
    else s.(phase := CleanUp, code := 1, trace := s.trace + [ErrorReported(message)])
  }

  /** One phase of the bin/index.cjs action. */
  function CjsStep(c: CjsCalls, token: string, exitInCatch: bool, s: State): (t: State)
    requires !s.phase.Exited?
    ensures CjsRank(t.phase) < CjsRank(s.phase)
    ensures s.trace <= t.trace
  {
    match s.phase
    case CheckToolchain =>
      if c.toolchainPresent then s.(phase := ParseId, trace := s.trace + [ToolchainChecked])
      else s.(phase := Exited(1), trace := s.trace + [ToolchainMissing])
    case ParseId =>
      s.(phase := AllocateTempDir, ref := c.parse(token))
    case AllocateTempDir =>
      (match c.tempDir
       case Success(path) => s.(phase := InstallTool, tempDir := Some(path), trace := s.trace + [TempDirAllocated(path)])
       case Failure(message) => s.(phase := Exited(1), trace := s.trace + [ErrorReported(message)]))
    case InstallTool =>
      var report := c.install(s.ref, TempPath(s));
      var trace := s.trace + ([InstallStarted(report.command)] + WarningEvents(report.warning));
      (match report.result
       case Success(name) => s.(phase := RunTool, tool := name, trace := trace)
       case Failure(message) => CjsCatch(s.(trace := trace), message, exitInCatch))
    case RunTool =>
      var trace := s.trace + [ToolSpawned(c.launch(TempPath(s), s.tool))];
      (match c.settled
       case Success(_) => s.(phase := CleanUp, code := 0, trace := trace)
       case Failure(message) => CjsCatch(s.(trace := trace), message, exitInCatch))
    case CleanUp =>
      s.(phase := Exited(s.code), trace := s.trace + [CleanupStarted(TempPath(s))])
  }

  /** Steps the bin/index.cjs machine until the process exits. */
  function CjsDrive(c: CjsCalls, token: string, exitInCatch: bool, s: State): (t: State)
    ensures t.phase.Exited?
    ensures s.trace <= t.trace
    decreases CjsRank(s.phase)
  {
    if s.phase.Exited? then s
    else CjsDrive(c, token, exitInCatch, CjsStep(c, token, exitInCatch, s))
  }

  function CjsMachine(c: CjsCalls, token: string, exitInCatch: bool): Outcome {
    Ending(CjsDrive(c, token, exitInCatch, Start))
  }

  /** The bin/index.cjs action as written, given the package token and the
      program's arguments (the token first). */
  function CjsRun(w: World, token: string, programArgs: seq<string>): (r: Outcome)
    ensures r == CjsAction(CjsCallsOf(w, programArgs), token, true)
  {
    CjsMachineIsAction(CjsCallsOf(w, programArgs), token, true);
    CjsMachine(CjsCallsOf(w, programArgs), token, true)
  }

  /** The bin/index.cjs action with the scratch directory removed on every
      path after it was allocated: the `catch` records exit code 1 and the
      `finally` runs before the process exits. */
  function CjsRunCleaningUp(w: World, token: string, programArgs: seq<string>): (r: Outcome)
    ensures r == CjsAction(CjsCallsOf(w, programArgs), token, false)
  {
    CjsMachineIsAction(CjsCallsOf(w, programArgs), token, false);
    CjsMachine(CjsCallsOf(w, programArgs), token, false)
  }

  /** The `finally` of the action: reached after a success, or after a
      failure when the `catch` does not exit by itself. */
  function CjsFinally(dir: string, exitInCatch: bool, code: int, trace: seq<Event>): Outcome {
    if code != 0 && exitInCatch then Outcome(1, trace)
    else Outcome(code, trace + [CleanupStarted(dir)])
  }

  /** The body of the inner `try` once the tool is installed as `name`. */
  function CjsTryRun(c: CjsCalls, dir: string, name: string, trace: seq<Event>): (int, seq<Event>) {
    var spawned := trace + [ToolSpawned(c.launch(dir, name))];
    match c.settled
    case Success(_) => (0, spawned)
    case Failure(message) => (1, spawned + [ErrorReported(message)])
  }

  /** The body of the inner `try` from installing on. */
  function CjsTryInstall(c: CjsCalls, ref: PackageRef, dir: string, trace: seq<Event>): (int, seq<Event>) {
    var report := c.install(ref, dir);
    var installed := trace + ([InstallStarted(report.command)] + WarningEvents(report.warning));
    match report.result
    case Failure(message) => (1, installed + [ErrorReported(message)])
    case Success(name) => CjsTryRun(c, dir, name, installed)
  }

  /** The same action read directly off its nested try/catch/finally. It
      starts with the toolchain check and exits with 0 exactly when every
      call succeeds, with 1 otherwise. */
  function CjsAction(c: CjsCalls, token: string, exitInCatch: bool): (o: Outcome)
    ensures |o.trace| > 0
    ensures o.trace[0] == (if c.toolchainPresent then ToolchainChecked else ToolchainMissing)
    ensures o.exitCode == 0 || o.exitCode == 1
    ensures o.exitCode == 0 <==> CjsCallsSucceed(c, token)
  {
    if !c.toolchainPresent then Outcome(1, [ToolchainMissing])
    else
      match c.tempDir
      case Failure(message) => Outcome(1, [ToolchainChecked, ErrorReported(message)])
      case Success(dir) =>
        var prefix := [ToolchainChecked, TempDirAllocated(dir)];
        var tried := CjsTryInstall(c, c.parse(token), dir, prefix);
        CjsTryFacts(c, c.parse(token), dir, prefix);
        TryTraceFacts(dir, prefix, tried.1);
        CjsFinally(dir, exitInCatch, tried.0, tried.1)
  }

  lemma CjsFromRun(c: CjsCalls, token: string, exitInCatch: bool, s: State)
    requires s.phase == RunTool && s.tempDir.Some?
    ensures var tried := CjsTryRun(c, s.tempDir.value, s.tool, s.trace);
            Ending(CjsDrive(c, token, exitInCatch, s)) == CjsFinally(s.tempDir.value, exitInCatch, tried.0, tried.1)
  {
    var s1 := CjsStep(c, token, exitInCatch, s);
    assert CjsDrive(c, token, exitInCatch, s) == CjsDrive(c, token, exitInCatch, s1);
    if !s1.phase.Exited? {
      var s2 := CjsStep(c, token, exitInCatch, s1);
      assert CjsDrive(c, token, exitInCatch, s1) == CjsDrive(c, token, exitInCatch, s2);
    }
  }

  lemma CjsFromInstall(c: CjsCalls, token: string, exitInCatch: bool, s: State)
    requires s.phase == InstallTool && s.tempDir.Some?
    ensures var tried := CjsTryInstall(c, s.ref, s.tempDir.value, s.trace);
            Ending(CjsDrive(c, token, exitInCatch, s)) == CjsFinally(s.tempDir.value, exitInCatch, tried.0, tried.1)
  {
    var s1 := CjsStep(c, token, exitInCatch, s);
    assert CjsDrive(c, token, exitInCatch, s) == CjsDrive(c, token, exitInCatch, s1);
    if s1.phase == RunTool {
      CjsFromRun(c, token, exitInCatch, s1);
    } else if s1.phase == CleanUp {
      var s2 := CjsStep(c, token, exitInCatch, s1);
      assert CjsDrive(c, token, exitInCatch, s1) == CjsDrive(c, token, exitInCatch, s2);
    }
  }

  /** The phase machine and the direct reading agree, whatever the calls
      return. */
  lemma CjsMachineIsAction(c: CjsCalls, token: string, exitInCatch: bool)
    ensures CjsMachine(c, token, exitInCatch) == CjsAction(c, token, exitInCatch)
  {
    var s1 := CjsStep(c, token, exitInCatch, Start);
    assert CjsDrive(c, token, exitInCatch, Start) == CjsDrive(c, token, exitInCatch, s1);
    if c.toolchainPresent {
      var s2 := CjsStep(c, token, exitInCatch, s1);
      assert CjsDrive(c, token, exitInCatch, s1) == CjsDrive(c, token, exitInCatch, s2);
      var s3 := CjsStep(c, token, exitInCatch, s2);
      assert CjsDrive(c, token, exitInCatch, s2) == CjsDrive(c, token, exitInCatch, s3);
      if c.tempDir.Success? {
        assert s3.trace == [ToolchainChecked, TempDirAllocated(c.tempDir.value)];
        CjsFromInstall(c, token, exitInCatch, s3);
      }
    }
  }

  /** The inner `try` extends the trace with events of its own, ends with 0
      exactly when the install resolved a command name and the tool exited
      with 0 and with 1 otherwise, and spawns only the resolved command. */
  lemma CjsTryFacts(c: CjsCalls, ref: PackageRef, dir: string, trace: seq<Event>)
    ensures var tried := CjsTryInstall(c, ref, dir, trace);
            var report := c.install(ref, dir);
            && trace <= tried.1
            && InsideTry(tried.1[|trace|..])
            && (tried.0 == 0 || tried.0 == 1)
            && (tried.0 == 0 <==> report.result.Success? && c.settled.Success?)
            && (forall inv :: ToolSpawned(inv) in tried.1[|trace|..] ==>
                  report.result.Success? && inv == c.launch(dir, report.result.value))
  {
    var report := c.install(ref, dir);
    var installed := trace + ([InstallStarted(report.command)] + WarningEvents(report.warning));
    assert installed[|trace|..] == [InstallStarted(report.command)] + WarningEvents(report.warning);
    match report.result
    case Failure(message) =>
      assert (installed + [ErrorReported(message)])[|trace|..] == installed[|trace|..] + [ErrorReported(message)];
    case Success(name) =>
      var spawned := installed + [ToolSpawned(c.launch(dir, name))];
      assert spawned[|trace|..] == installed[|trace|..] + [ToolSpawned(c.launch(dir, name))];
      match c.settled
      case Success(_) =>
      case Failure(message) =>
        assert (spawned + [ErrorReported(message)])[|trace|..] == spawned[|trace|..] + [ErrorReported(message)];
  }

  /** Every call of the bin/index.cjs action succeeds. */
  predicate CjsCallsSucceed(c: CjsCalls, token: string) {
    && c.toolchainPresent
    && c.tempDir.Success?
    && c.install(c.parse(token), c.tempDir.value).result.Success?
    && c.settled.Success?
  }

  /** In the direct reading the scratch directory is allocated exactly when
      the toolchain is there and the allocation succeeds, as the second
      event; it is removed, as the last event, exactly when it was allocated
      and the `finally` is reached. */
  lemma CjsActionCleanup(c: CjsCalls, token: string, exitInCatch: bool)
    ensures var o := CjsAction(c, token, exitInCatch);
            && (Allocated(o.trace) <==> c.toolchainPresent && c.tempDir.Success?)
            && (Allocated(o.trace) ==> |o.trace| > 1 && o.trace[1] == TempDirAllocated(c.tempDir.value))
            && (CleanedUp(o.trace) <==> Allocated(o.trace) && (o.exitCode == 0 || !exitInCatch))
            && (CleanedUp(o.trace) ==> o.trace[|o.trace| - 1] == CleanupStarted(c.tempDir.value))
  {
    var o := CjsAction(c, token, exitInCatch);
    if c.toolchainPresent && c.tempDir.Success? {
      var dir := c.tempDir.value;
      var prefix := [ToolchainChecked, TempDirAllocated(dir)];
      var tried := CjsTryInstall(c, c.parse(token), dir, prefix);
      CjsTryFacts(c, c.parse(token), dir, prefix);
      TryTraceFacts(dir, prefix, tried.1);
    } else if c.toolchainPresent {
      assert o.trace == [ToolchainChecked, ErrorReported(c.tempDir.error)];
    } else {
      assert o.trace == [ToolchainMissing];
    }
  }

  /** In the direct reading the tool is spawned only from the scratch
      directory, under the command name the install step resolved. */
  lemma CjsActionSpawns(c: CjsCalls, token: string, exitInCatch: bool, inv: Invocation)
    requires ToolSpawned(inv) in CjsAction(c, token, exitInCatch).trace
    ensures c.tempDir.Success?
    ensures var report := c.install(c.parse(token), c.tempDir.value);
            report.result.Success? && inv == c.launch(c.tempDir.value, report.result.value)
  {
    var o := CjsAction(c, token, exitInCatch);
    if c.toolchainPresent && c.tempDir.Success? {
      var dir := c.tempDir.value;
      var prefix := [ToolchainChecked, TempDirAllocated(dir)];
      var tried := CjsTryInstall(c, c.parse(token), dir, prefix);
      CjsTryFacts(c, c.parse(token), dir, prefix);
      assert tried.1 == prefix + tried.1[|prefix|..];
      assert o == CjsFinally(dir, exitInCatch, tried.0, tried.1);
      assert ToolSpawned(inv) in tried.1;
      assert ToolSpawned(inv) in tried.1[|prefix|..];
    }
  }

  /** Every phase of the bin/index.cjs action succeeds in world `w`: the
      toolchain is there, a scratch directory was allocated, the tool
      installed and its command name was resolved, and the tool exited with
      code 0. */
  predicate CjsSucceeds(w: World, token: string) {
    var ref := ParseSplit(token);
    && w.toolchainPresent
    && w.tempDir.Success?
    && Install(w.isWindows, ref.id, w.tempDir.value, ref.version, w.install, w.listing).result.Success?
    && w.child == ExitedWith(0)
  }

  lemma CjsCallsSucceedIn(w: World, token: string, programArgs: seq<string>)
    ensures CjsCallsSucceed(CjsCallsOf(w, programArgs), token) == CjsSucceeds(w, token)
  {
  }

  /** The process exits with 0 exactly when every phase succeeds and with 1
      otherwise; removing the scratch directory on every path does not change
      the exit code. */
  lemma CjsExitCode(w: World, token: string, programArgs: seq<string>)
    ensures CjsRun(w, token, programArgs).exitCode == (if CjsSucceeds(w, token) then 0 else 1)
    ensures CjsRunCleaningUp(w, token, programArgs).exitCode == CjsRun(w, token, programArgs).exitCode
  {
    CjsCallsSucceedIn(w, token, programArgs);
  }

  /** A tool that fails with its own exit code still ends the launcher with
      exit code 1. */
  lemma CjsToolExitCodeIsNotForwarded(w: World, token: string, programArgs: seq<string>, code: nat)
    requires w.child == ExitedWith(code) && code != 0
    ensures CjsRun(w, token, programArgs).exitCode == 1
  {
    CjsExitCode(w, token, programArgs);
  }

  /** The first event is the toolchain check; the scratch directory is
      allocated exactly when the toolchain is there and the allocation
      succeeds, and then it is the second event. */
  lemma CjsChecksToolchainFirst(w: World, token: string, programArgs: seq<string>)
    ensures var o := CjsRun(w, token, programArgs);
            && |o.trace| > 0
            && o.trace[0] == (if w.toolchainPresent then ToolchainChecked else ToolchainMissing)
            && (Allocated(o.trace) <==> w.toolchainPresent && w.tempDir.Success?)
            && (Allocated(o.trace) ==> |o.trace| > 1 && o.trace[1] == TempDirAllocated(w.tempDir.value))
  {
    var c := CjsCallsOf(w, programArgs);
    CjsActionCleanup(c, token, true);
  }

  /** As written, the scratch directory is removed only after a successful
      run: every failure after allocating it leaves it behind. */
  lemma CjsCleansUpOnlyOnSuccess(w: World, token: string, programArgs: seq<string>)
    ensures var o := CjsRun(w, token, programArgs);
            CleanedUp(o.trace) <==> o.exitCode == 0
  {
    var c := CjsCallsOf(w, programArgs);
    CjsActionCleanup(c, token, true);
  }

  /** With the `finally` reached on every path, the scratch directory is
      removed exactly when it was allocated, and it is the last thing the
      run does. */
  lemma CjsCleaningUpCleansIffAllocated(w: World, token: string, programArgs: seq<string>)
    ensures var o := CjsRunCleaningUp(w, token, programArgs);
            && (CleanedUp(o.trace) <==> Allocated(o.trace))
            && (CleanedUp(o.trace) ==> w.tempDir.Success? && o.trace[|o.trace| - 1] == CleanupStarted(w.tempDir.value))
  {
    var c := CjsCallsOf(w, programArgs);
    CjsActionCleanup(c, token, false);
  }

  /** A failed install after the scratch directory was allocated: as
      written the directory is left behind; with the `finally` reached it is
      removed, and both exit with 1. */
  lemma CjsFailedInstallLeaksTempDir(w: World, token: string, programArgs: seq<string>)
    requires w.toolchainPresent && w.tempDir.Success? && w.install.Failed?
    ensures Allocated(CjsRun(w, token, programArgs).trace)
    ensures !CleanedUp(CjsRun(w, token, programArgs).trace)
    ensures CleanedUp(CjsRunCleaningUp(w, token, programArgs).trace)
    ensures CjsRun(w, token, programArgs).exitCode == CjsRunCleaningUp(w, token, programArgs).exitCode == 1
  {
    CjsChecksToolchainFirst(w, token, programArgs);
    CjsExitCode(w, token, programArgs);
    CjsCleansUpOnlyOnSuccess(w, token, programArgs);
    CjsCleaningUpCleansIffAllocated(w, token, programArgs);
    var c := CjsCallsOf(w, programArgs);
    CjsActionCleanup(c, token, false);
  }

  /** The tool is spawned from inside the scratch directory, under the
      command name the install resolved, with every argument after the
      package token passed through unchanged and in order. */
  lemma CjsPassesArgumentsThrough(w: World, token: string, programArgs: seq<string>, inv: Invocation)
    requires ToolSpawned(inv) in CjsRun(w, token, programArgs).trace
    ensures inv.args == Rest(programArgs)
    ensures |programArgs| > 0 ==> inv.args == programArgs[1..]
    ensures w.tempDir.Success? && w.tempDir.value <= inv.path
    ensures var ref := ParseSplit(token);
            var r := Install(w.isWindows, ref.id, w.tempDir.value, ref.version, w.install, w.listing).result;
            r.Success? && EndsWith(inv.path, ExeFileName(w.isWindows, r.value))
  {
    var c := CjsCallsOf(w, programArgs);
    CjsActionSpawns(c, token, true, inv);
  }

  // ---------------------------------------------------------------------
  // bin/index.js

  /** What V8 says when `match[1]` is read off a null match. */
  const NullMatchMessage := "Cannot read properties of null (reading '1')"

  /** The calls the bin/index.js action makes: whether the toolchain check
      passed, the scratch directory, the parser (None for a null match), the
      install command for a parsed reference and directory, how the install
      command ended, the shell command that runs the tool, and how the
      tool settled. */
  datatype EsmCalls = EsmCalls(
    toolchainPresent: bool,
    tempDir: Result<string, string>,
    parse: string -> Option<PackageRef>,
    installCommand: (PackageRef, string) -> string,
    install: ExecOutcome,
    shellCommand: (PackageRef, string) -> string,
    settled: Result<(), string>)

  /** Where bin/index.js looks for the tool: the package ID's last
      `.`-separated segment, with `.exe` on Windows, in `dir`. */
  function EsmToolPath(isWindows: bool, dir: string, id: string): (path: string)
    ensures dir <= path
    ensures EndsWith(path, ExeFileName(isWindows, ToolNameFromId(id)))
  {
    JoinPath(isWindows, dir, ExeFileName(isWindows, ToolNameFromId(id)))
  }

  /** The calls bin/index.js makes in world `w`, given the whole
      `process.argv`. */
  function EsmCallsOf(w: World, argv: seq<string>): EsmCalls {
    EsmCalls(
      w.toolchainPresent,
      w.tempDir,
      ParseAnchored,
      (ref: PackageRef, dir: string) => InstallCommandAnchored(ref.id, dir, ref.version),
      w.install,
      (ref: PackageRef, dir: string) => ShellCommand(EsmToolPath(w.isWindows, dir, ref.id), ToolArgs(argv)),
      RunSettles(w.child))
  }

  /** The order of the phases in bin/index.js, where the token is parsed
      inside the install step, after the scratch directory exists. */
  function EsmRank(p: Phase): nat {
    match p
    case CheckToolchain => 6
    case AllocateTempDir => 5
    case ParseId => 4
    case InstallTool => 3
    case RunTool => 2
    case CleanUp => 1
    case Exited(_) => 0
  }

  /** One phase of the bin/index.js action. Every failure ends the process
      with exit code 1 on the spot; only a successful run reaches the
      `finally`. */
  function EsmStep(c: EsmCalls, token: string, s: State): (t: State)
    requires !s.phase.Exited?
    ensures EsmRank(t.phase) < EsmRank(s.phase)
    ensures s.trace <= t.trace
  {
    match s.phase
    case CheckToolchain =>
      if c.toolchainPresent then s.(phase := AllocateTempDir, trace := s.trace + [ToolchainChecked])
      else s.(phase := Exited(1), trace := s.trace + [ToolchainMissing])
    case AllocateTempDir =>
      (match c.tempDir
       case Success(path) => s.(phase := ParseId, tempDir := Some(path), trace := s.trace + [TempDirAllocated(path)])
       case Failure(message) => s.(phase := Exited(1), trace := s.trace + [ErrorReported(message)]))
    case ParseId =>
      (match c.parse(token)
       case Some(ref) => s.(phase := InstallTool, ref := ref)
       case None => s.(phase := Exited(1), trace := s.trace + [ErrorReported(NullMatchMessage)]))
    case InstallTool =>
      var trace := s.trace + [InstallStarted(c.installCommand(s.ref, TempPath(s)))];
      (match c.install
       case Completed(_, _) => s.(phase := RunTool, trace := trace)
       case Failed(message, _, _) => s.(phase := Exited(1), trace := trace + [ErrorReported(message)]))
    case RunTool =>
      var trace := s.trace + [ShellStarted(c.shellCommand(s.ref, TempPath(s)))];
      if c.settled.Success? then s.(phase := CleanUp, trace := trace)
      else s.(phase := Exited(1), trace := trace)
    case CleanUp =>
      var trace := if s.tempDir.Some? then s.trace + [CleanupStarted(s.tempDir.value)] else s.trace;
      s.(phase := Exited(0), trace := trace)
  }

  /** Steps the bin/index.js machine until the process exits. */
  function EsmDrive(c: EsmCalls, token: string, s: State): (t: State)
    ensures t.phase.Exited?
    ensures s.trace <= t.trace
    decreases EsmRank(s.phase)
  {
    if s.phase.Exited? then s
    else EsmDrive(c, token, EsmStep(c, token, s))
  }

  function EsmMachine(c: EsmCalls, token: string): Outcome {
    Ending(EsmDrive(c, token, Start))
  }

  /** The bin/index.js action, given the package token and the whole
      `process.argv`. */
  function EsmRun(w: World, token: string, argv: seq<string>): (r: Outcome)
    ensures r == EsmAction(EsmCallsOf(w, argv), token)
  {
    EsmMachineIsAction(EsmCallsOf(w, argv), token);
    EsmMachine(EsmCallsOf(w, argv), token)
  }

  /** bin/index.js from installing on, given the parsed reference. */
  function EsmInstallAndRun(c: EsmCalls, ref: PackageRef, dir: string, trace: seq<Event>): Outcome {
    var installing := trace + [InstallStarted(c.installCommand(ref, dir))];
    match c.install
    case Failed(message, _, _) => Outcome(1, installing + [ErrorReported(message)])
    case Completed(_, _) =>
      var running := installing + [ShellStarted(c.shellCommand(ref, dir))];
      if c.settled.Success? then Outcome(0, running + [CleanupStarted(dir)])
      else Outcome(1, running)
  }

  /** The same action read directly off its calls, each of which exits by
      itself on failure. It starts with the toolchain check and exits with 0
      exactly when every call succeeds, with 1 otherwise. */
  function EsmAction(c: EsmCalls, token: string): (o: Outcome)
    ensures |o.trace| > 0
    ensures o.trace[0] == (if c.toolchainPresent then ToolchainChecked else ToolchainMissing)
    ensures o.exitCode == (if EsmCallsSucceed(c, token) then 0 else 1)
  {
    if !c.toolchainPresent then Outcome(1, [ToolchainMissing])
    else
      match c.tempDir
      case Failure(message) => Outcome(1, [ToolchainChecked, ErrorReported(message)])
      case Success(dir) =>
        var prefix := [ToolchainChecked, TempDirAllocated(dir)];
        match c.parse(token)
        case None => Outcome(1, prefix + [ErrorReported(NullMatchMessage)])
        case Some(ref) => EsmInstallAndRun(c, ref, dir, prefix)
  }

  lemma EsmFromInstall(c: EsmCalls, token: string, s: State)
    requires s.phase == InstallTool && s.tempDir.Some?
    ensures Ending(EsmDrive(c, token, s)) == EsmInstallAndRun(c, s.ref, s.tempDir.value, s.trace)
  {
    var s1 := EsmStep(c, token, s);
    assert EsmDrive(c, token, s) == EsmDrive(c, token, s1);
    if !s1.phase.Exited? {
      var s2 := EsmStep(c, token, s1);
      assert EsmDrive(c, token, s1) == EsmDrive(c, token, s2);
      if !s2.phase.Exited? {
        var s3 := EsmStep(c, token, s2);
        assert EsmDrive(c, token, s2) == EsmDrive(c, token, s3);
      }
    }
  }

  lemma EsmFromParse(c: EsmCalls, token: string, s: State)
    requires s.phase == ParseId && s.tempDir.Some?
    ensures Ending(EsmDrive(c, token, s)) ==
            match c.parse(token)
            case None => Outcome(1, s.trace + [ErrorReported(NullMatchMessage)])
            case Some(ref) => EsmInstallAndRun(c, ref, s.tempDir.value, s.trace)
  {
    var s1 := EsmStep(c, token, s);
    assert EsmDrive(c, token, s) == EsmDrive(c, token, s1);
    if s1.phase == InstallTool {
      EsmFromInstall(c, token, s1);
    }
  }

  /** The phase machine and the direct reading agree, whatever the calls
      return. */
  lemma EsmMachineIsAction(c: EsmCalls, token: string)
    ensures EsmMachine(c, token) == EsmAction(c, token)
  {
    var s1 := EsmStep(c, token, Start);
    assert EsmDrive(c, token, Start) == EsmDrive(c, token, s1);
    if !c.toolchainPresent {
      assert s1.phase == Exited(1) && s1.trace == [ToolchainMissing];
    } else {
      assert s1.phase == AllocateTempDir && s1.trace == [ToolchainChecked];
      var s2 := EsmStep(c, token, s1);
      assert EsmDrive(c, token, s1) == EsmDrive(c, token, s2);
      match c.tempDir
      case Failure(message) =>
        assert s2.phase == Exited(1) && s2.trace == [ToolchainChecked, ErrorReported(message)];
      case Success(dir) =>
        assert s2.phase == ParseId && s2.tempDir == Some(dir) && s2.trace == [ToolchainChecked, TempDirAllocated(dir)];
        EsmFromParse(c, token, s2);
    }
  }

  /** Every call of the bin/index.js action succeeds. */
  predicate EsmCallsSucceed(c: EsmCalls, token: string) {
    && c.toolchainPresent
    && c.tempDir.Success?
    && c.parse(token).Some?
    && c.install.Completed?
    && c.settled.Success?
  }

  /** In the direct reading of bin/index.js the scratch directory is
      allocated exactly when the toolchain is there and the allocation
      succeeds, and it is removed, as the last event, exactly on success. */
  lemma EsmActionCleanup(c: EsmCalls, token: string)
    ensures var o := EsmAction(c, token);
            && (Allocated(o.trace) <==> c.toolchainPresent && c.tempDir.Success?)
            && (CleanedUp(o.trace) <==> o.exitCode == 0)
            && (CleanedUp(o.trace) ==> c.tempDir.Success? && o.trace[|o.trace| - 1] == CleanupStarted(c.tempDir.value))
  {
    var o := EsmAction(c, token);
    if c.toolchainPresent && c.tempDir.Success? {
      var dir := c.tempDir.value;
      var prefix := [ToolchainChecked, TempDirAllocated(dir)];
      var trace := if o.exitCode == 0 then o.trace[..|o.trace| - 1] else o.trace;
      assert prefix <= trace && InsideTry(trace[|prefix|..]);
      TryTraceFacts(dir, prefix, trace);
    } else if c.toolchainPresent {
      assert o.trace == [ToolchainChecked, ErrorReported(c.tempDir.error)];
    } else {
      assert o.trace == [ToolchainMissing];
    }
  }

  /** In the direct reading the install command and the shell command are
      the ones the calls build from the parsed reference and the scratch
      directory. */
  lemma EsmActionCommands(c: EsmCalls, token: string, command: string)
    requires InstallStarted(command) in EsmAction(c, token).trace || ShellStarted(command) in EsmAction(c, token).trace
    ensures c.toolchainPresent && c.tempDir.Success? && c.parse(token).Some?
    ensures InstallStarted(command) in EsmAction(c, token).trace ==>
              command == c.installCommand(c.parse(token).value, c.tempDir.value)
    ensures ShellStarted(command) in EsmAction(c, token).trace ==>
              c.install.Completed? && command == c.shellCommand(c.parse(token).value, c.tempDir.value)
  {
  }

  /** Every phase of bin/index.js succeeds in world `w`: the toolchain is
      there, a scratch directory was allocated, the token matched, the tool
      installed and it exited with code 0. */
  predicate EsmSucceeds(w: World, token: string) {
    && w.toolchainPresent
    && w.tempDir.Success?
    && ParseAnchored(token).Some?
    && w.install.Completed?
    && w.child == ExitedWith(0)
  }

  /** bin/index.js exits with 0 exactly when every phase succeeds and with 1
      otherwise; the tool's own exit code is never forwarded. */
  lemma EsmExitCode(w: World, token: string, argv: seq<string>)
    ensures EsmRun(w, token, argv).exitCode == (if EsmSucceeds(w, token) then 0 else 1)
  {
    var c := EsmCallsOf(w, argv);
    EsmActionCleanup(c, token);
  }

  /** In bin/index.js the scratch directory is allocated exactly when the
      toolchain is there and the allocation succeeds, and it is removed,
      as the last event, exactly when the run succeeds. */
  lemma EsmCleansUpOnlyOnSuccess(w: World, token: string, argv: seq<string>)
    ensures var o := EsmRun(w, token, argv);
            && o.trace[0] == (if w.toolchainPresent then ToolchainChecked else ToolchainMissing)
            && (Allocated(o.trace) <==> w.toolchainPresent && w.tempDir.Success?)
            && (CleanedUp(o.trace) <==> o.exitCode == 0)
            && (CleanedUp(o.trace) ==> w.tempDir.Success? && o.trace[|o.trace| - 1] == CleanupStarted(w.tempDir.value))
  {
    var c := EsmCallsOf(w, argv);
    EsmActionCleanup(c, token);
  }

  /** A token the anchored pattern rejects ends bin/index.js with exit
      code 1 after the scratch directory exists, before the toolchain is
      asked to install anything, and leaves the directory behind. */
  lemma EsmMalformedTokenLeaksTempDir(w: World, token: string, argv: seq<string>)
    requires w.toolchainPresent && w.tempDir.Success? && ParseAnchored(token) == None
    ensures var o := EsmRun(w, token, argv);
            && o.exitCode == 1
            && Allocated(o.trace) && !CleanedUp(o.trace)
            && o.trace[|o.trace| - 1] == ErrorReported(NullMatchMessage)
            && forall command :: InstallStarted(command) !in o.trace
  {
    var c := EsmCallsOf(w, argv);
    EsmActionCleanup(c, token);
    assert EsmRun(w, token, argv).trace == [ToolchainChecked, TempDirAllocated(w.tempDir.value), ErrorReported(NullMatchMessage)];
  }

  /** The install command bin/index.js runs names the package ID the
      anchored pattern matched, in the scratch directory, and ends with the
      version when there is one. */
  lemma EsmInstallsWhatItParsed(w: World, token: string, argv: seq<string>, command: string)
    requires InstallStarted(command) in EsmRun(w, token, argv).trace
    ensures ParseAnchored(token).Some? && w.tempDir.Success?
    ensures var ref := ParseAnchored(token).value;
            && AnchoredShape(token, ref)
            && InstallPrefix(w.tempDir.value) + " " + ref.id <= command
            && (HasVersion(ref.version) ==> EndsWith(command, " --version " + ref.version.value))
            && (!HasVersion(ref.version) ==> EndsWith(command, " " + ref.id))
  {
    var c := EsmCallsOf(w, argv);
    EsmActionCommands(c, token, command);
  }

  /** The shell command bin/index.js runs starts the program named by the
      last `.`-separated segment of the package ID, from the scratch
      directory, followed by the arguments after the package token. */
  lemma EsmRunsLastSegment(w: World, token: string, argv: seq<string>, command: string)
    requires ShellStarted(command) in EsmRun(w, token, argv).trace
    ensures ParseAnchored(token).Some? && w.tempDir.Success? && w.install.Completed?
    ensures var path := EsmToolPath(w.isWindows, w.tempDir.value, ParseAnchored(token).value.id);
            && command == ShellCommand(path, ToolArgs(argv))
            && "\"" + w.tempDir.value <= command
            && (|argv| > 3 ==> ToolArgs(argv) == argv[3..])
  {
    var c := EsmCallsOf(w, argv);
    EsmActionCommands(c, token, command);
    var path := EsmToolPath(w.isWindows, w.tempDir.value, ParseAnchored(token).value.id);
    assert "\"" + path + "\" " <= command;
    assert "\"" + w.tempDir.value <= "\"" + path;
  }

  // ---------------------------------------------------------------------
  // Both variants

  /** Before anything is installed the two variants behave alike: a missing
      toolchain or a failed allocation gives the same events and exit
      code 1 in both. */
  lemma VariantsAgreeBeforeInstall(w: World, token: string, programArgs: seq<string>, argv: seq<string>)
    requires !w.toolchainPresent || w.tempDir.Failure?
    ensures CjsRun(w, token, programArgs) == EsmRun(w, token, argv)
    ensures CjsRun(w, token, programArgs).exitCode == 1
  {
  }

  /** A failed install ends both variants with exit code 1 and leaves the
      scratch directory behind in both. */
  lemma VariantsLeakOnFailedInstall(w: World, token: string, programArgs: seq<string>, argv: seq<string>)
    requires w.toolchainPresent && w.tempDir.Success? && w.install.Failed?
    ensures CjsRun(w, token, programArgs).exitCode == EsmRun(w, token, argv).exitCode == 1
    ensures !CleanedUp(CjsRun(w, token, programArgs).trace) && !CleanedUp(EsmRun(w, token, argv).trace)
  {
    CjsFailedInstallLeaksTempDir(w, token, programArgs);
    EsmExitCode(w, token, argv);
    EsmCleansUpOnlyOnSuccess(w, token, argv);
  }
}
