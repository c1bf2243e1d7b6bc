/** Whole runs of the driver on scripts whose behaviour is given as an oracle. */
module Scenarios {
  import opened Wrappers
  import opened Patcher
  import opened Files
  import opened Registry
  import opened Locator
  import opened Driver

  /** The driver's own file, whose two frames open every traceback. */
  const DriverFile: Path := "safepython.py"

  /** `wrap` calling `execfile` (line 67) and `execfile` calling `exec` (line 61). */
  const DriverStack: seq<Location> := [Location(DriverFile, 67), Location(DriverFile, 61)]

  predicate LiveAt(files: map<Path, Lines>, path: Path, n: int)
  {
    path in files && 1 <= n <= |files[path]| && !IsDisabled(files[path][n - 1])
  }

  /** A script that fails at line `n` of `path` while that line is live and otherwise runs through:
      either it does not compile (a SyntaxError reporting that line), or the line raises. */
  function FaultAt(path: Path, n: int, compile: bool): Oracle
  {
    (files: map<Path, Lines>, modules: Modules) =>
      if !LiveAt(files, path, n) then Attempt(Completed, modules)
      else if compile then Attempt(Raised(Error(SyntaxError, DriverStack, Location(path, n))), modules)
      else Attempt(Raised(Error(OtherException, DriverStack + [Location(path, n)], Location(path, n))), modules)
  }

  function DisableAt(files: map<Path, Lines>, path: Path, n: int): map<Path, Lines>
    requires path in files && 1 <= n <= |files[path]|
  {
    files[path := files[path][n - 1 := Disable(files[path][n - 1])]]
  }

  lemma CommentLiveLine(lines: Lines, n: int)
    requires 1 <= n <= |lines| && !IsDisabled(lines[n - 1])
    ensures CommentLines(lines, n) == Success(Patched(lines[n - 1 := Disable(lines[n - 1])], n))
  {
    var p := CommentLines(lines, n).value;
    assert p.lines == lines[n - 1 := Disable(lines[n - 1])];
  }

  /** One failed attempt at the live line `n`, after which the reset finds no replaced module:
      the run continues from the state with that line disabled and backed up, and with the
      registry the reset leaves, i.e. without the modules the attempt loaded. */
  lemma FaultRetries(state: State, policy: Policy, exec: Oracle, e: Error, current: Modules, path: Path, n: int)
    requires PatchesHold(state)
    requires LiveAt(state.disk.files, path, n)
    requires exec(state.disk.files, state.modules) == Attempt(Raised(e), current)
    requires e.kind != BaseExceptionOnly && Locate(e, policy) == Success(Location(path, n))
    requires ResetModules(current, state.modules).altered == {}
    ensures var lines := state.disk.files[path];
      var backups := if path in state.disk.backups then state.disk.backups else state.disk.backups[path := lines];
      var next := State(Disk(DisableAt(state.disk.files, path, n), backups),
                        ResetModules(current, state.modules).modules, state.patched + [Location(path, n)]);
      PatchesHold(next) && Drive(state, policy, exec) == Drive(next, policy, exec)
  {
    var lines := state.disk.files[path];
    CommentLiveLine(lines, n);
    var backups := if path in state.disk.backups then state.disk.backups else state.disk.backups[path := lines];
    var after := Disk(DisableAt(state.disk.files, path, n), backups);
    assert CommentLine(state.disk, path, n) == Commented(after, Success(n));
    RetryStep(state, policy, exec, e, current, Location(path, n), after, n);
    DriveUnfolds(state, policy, exec);
  }

  /** An attempt that runs through ends the run, reporting the lines disabled so far, whatever
      modules the script loaded on the way. */
  lemma CompletionEnds(state: State, policy: Policy, exec: Oracle)
    requires PatchesHold(state)
    requires exec(state.disk.files, state.modules).result.Completed?
    ensures Drive(state, policy, exec)
         == (Succeeded(|state.patched|), state.(modules := exec(state.disk.files, state.modules).modules))
  {
  }

  /** A script whose only fault is one live line runs through after exactly one retry, with that
      line disabled, its file backed up as it was, and the registry as it was. */
  lemma OneFaultyLine(files: map<Path, Lines>, modules: Modules, path: Path, n: int, compile: bool, policy: Policy)
    requires LiveAt(files, path, n)
    ensures Drive(Start(files, modules), policy, FaultAt(path, n, compile))
         == (Succeeded(1), State(Disk(DisableAt(files, path, n), map[path := files[path]]), modules, [Location(path, n)]))
  {
    var exec := FaultAt(path, n, compile);
    var s0 := Start(files, modules);
    var e := if compile then Error(SyntaxError, DriverStack, Location(path, n))
             else Error(OtherException, DriverStack + [Location(path, n)], Location(path, n));
    assert exec(files, modules) == Attempt(Raised(e), modules);
    assert ResetModules(modules, modules) == Reset(modules, {});
    FaultRetries(s0, policy, exec, e, modules, path, n);
    var s1 := State(Disk(DisableAt(files, path, n), map[path := files[path]]), modules, [Location(path, n)]);
    assert !LiveAt(s1.disk.files, path, n);
    CompletionEnds(s1, policy, exec);
  }

  /** A script that, while line `n` is live, imports a new module `name` and then raises at
      line `n`. */
  function LoadsThenFails(path: Path, n: int, name: ModuleName, id: ObjectId): Oracle
  {
    (files: map<Path, Lines>, modules: Modules) =>
      if LiveAt(files, path, n) then
        Attempt(Raised(Error(OtherException, DriverStack + [Location(path, n)], Location(path, n))), modules[name := id])
      else Attempt(Completed, modules)
  }

  /** The module the failed attempt loaded is dropped before the retry, so the successful attempt
      starts from the registry the run started with. */
  lemma LoadedModuleDropped(files: map<Path, Lines>, modules: Modules, path: Path, n: int, name: ModuleName, id: ObjectId, policy: Policy)
    requires LiveAt(files, path, n) && name !in modules
    ensures Drive(Start(files, modules), policy, LoadsThenFails(path, n, name, id))
         == (Succeeded(1), State(Disk(DisableAt(files, path, n), map[path := files[path]]), modules, [Location(path, n)]))
  {
    var exec := LoadsThenFails(path, n, name, id);
    var s0 := Start(files, modules);
    var e := Error(OtherException, DriverStack + [Location(path, n)], Location(path, n));
    var current := modules[name := id];
    assert exec(files, modules) == Attempt(Raised(e), current);
    assert current == modules + map[name := id];
    ResetUndoesLoads(modules, map[name := id]);
    FaultRetries(s0, policy, exec, e, current, path, n);
    var s1 := State(Disk(DisableAt(files, path, n), map[path := files[path]]), modules, [Location(path, n)]);
    assert !LiveAt(s1.disk.files, path, n);
    CompletionEnds(s1, policy, exec);
  }

  /** Three lines, the second of which raises: the run ends with that line disabled and reports one
      disabled line. */
  lemma ThreeLineScript(files: map<Path, Lines>, policy: Policy)
    requires files == map["main.py" := ["x = 1\n", "raise ValueError\n", "y = 2\n"]]
    ensures var r := Drive(Start(files, map[]), policy, FaultAt("main.py", 2, false));
      && r.0 == Succeeded(1)
      && r.1.disk.files["main.py"] == ["x = 1\n", "# raise ValueError\n", "y = 2\n"]
      && r.1.disk.backups == files
      && r.1.patched == [Location("main.py", 2)]
  {
    var lines := files["main.py"];
    assert Disable(lines[1]) == "# raise ValueError\n";
    assert lines[1 := "# raise ValueError\n"] == ["x = 1\n", "# raise ValueError\n", "y = 2\n"];
    OneFaultyLine(files, map[], "main.py", 2, false, policy);
  }

  /** A call at line `caller` into a function whose line `callee` raises; the script fails as long
      as both lines are live. */
  function CallFails(path: Path, caller: int, callee: int): Oracle
  {
    (files: map<Path, Lines>, modules: Modules) =>
      if LiveAt(files, path, caller) && LiveAt(files, path, callee) then
        Attempt(Raised(Error(OtherException, DriverStack + [Location(path, caller), Location(path, callee)],
                             Location(path, callee))), modules)
      else Attempt(Completed, modules)
  }

  /** One run against the failing call: the policy's choice of line is disabled and the run then
      succeeds. */
  lemma CallFailsRun(files: map<Path, Lines>, modules: Modules, path: Path, caller: int, callee: int, policy: Policy)
    requires LiveAt(files, path, caller) && LiveAt(files, path, callee) && caller != callee
    ensures var blamed := if policy == Shallow then caller else callee;
      Drive(Start(files, modules), policy, CallFails(path, caller, callee))
      == (Succeeded(1), State(Disk(DisableAt(files, path, blamed), map[path := files[path]]), modules, [Location(path, blamed)]))
  {
    var blamed := if policy == Shallow then caller else callee;
    var exec := CallFails(path, caller, callee);
    var s0 := Start(files, modules);
    var e := Error(OtherException, DriverStack + [Location(path, caller), Location(path, callee)], Location(path, callee));
    assert exec(files, modules) == Attempt(Raised(e), modules);
    assert ResetModules(modules, modules) == Reset(modules, {});
    FaultRetries(s0, policy, exec, e, modules, path, blamed);
    var s1 := State(Disk(DisableAt(files, path, blamed), map[path := files[path]]), modules, [Location(path, blamed)]);
    assert !LiveAt(s1.disk.files, path, blamed);
    CompletionEnds(s1, policy, exec);
  }

  /** The shallow policy disables the call, the proactive policy the raising line inside the
      called function; both runs succeed after one retry, with different files. */
  lemma PoliciesDiverge(files: map<Path, Lines>, modules: Modules, path: Path, caller: int, callee: int)
    requires LiveAt(files, path, caller) && LiveAt(files, path, callee) && caller != callee
    ensures Drive(Start(files, modules), Shallow, CallFails(path, caller, callee))
         == (Succeeded(1), State(Disk(DisableAt(files, path, caller), map[path := files[path]]), modules, [Location(path, caller)]))
    ensures Drive(Start(files, modules), Proactive, CallFails(path, caller, callee))
         == (Succeeded(1), State(Disk(DisableAt(files, path, callee), map[path := files[path]]), modules, [Location(path, callee)]))
    ensures DisableAt(files, path, caller) != DisableAt(files, path, callee)
  {
    CallFailsRun(files, modules, path, caller, callee, Shallow);
    CallFailsRun(files, modules, path, caller, callee, Proactive);
    assert DisableAt(files, path, caller)[path][caller - 1] != DisableAt(files, path, callee)[path][caller - 1];
  }

  /** A script that, while line `n` is live, replaces the loaded module `name` by a new object and
      then raises at line `n`. */
  function ReplacesModule(path: Path, n: int, name: ModuleName): Oracle
  {
    (files: map<Path, Lines>, modules: Modules) =>
      if LiveAt(files, path, n) && name in modules then
        Attempt(Raised(Error(OtherException, DriverStack + [Location(path, n)], Location(path, n))),
                modules[name := modules[name] + 1])
      else Attempt(Completed, modules)
  }

  /** Replacing a loaded module stops the run at the first failed attempt instead of retrying;
      the located line has already been disabled by then. */
  lemma ReplacedModuleStops(files: map<Path, Lines>, modules: Modules, path: Path, n: int, name: ModuleName, policy: Policy)
    requires LiveAt(files, path, n) && name in modules
    ensures var r := Drive(Start(files, modules), policy, ReplacesModule(path, n, name));
      && r.0 == Stopped(AlteredModules({name}))
      && r.1.disk.files == DisableAt(files, path, n)
      && r.1.patched == [Location(path, n)]
  {
    var exec := ReplacesModule(path, n, name);
    var s0 := Start(files, modules);
    var e := Error(OtherException, DriverStack + [Location(path, n)], Location(path, n));
    var current := modules[name := modules[name] + 1];
    assert exec(files, modules) == Attempt(Raised(e), current);
    assert Locate(e, policy) == Success(Location(path, n));
    CommentLiveLine(files[path], n);
    var after := Disk(DisableAt(files, path, n), map[path := files[path]]);
    assert CommentLine(s0.disk, path, n) == Commented(after, Success(n));
    var reset := ResetModules(current, modules);
    assert reset.altered == {name};
    assert Step(s0, policy, exec) == Finished(Stopped(AlteredModules({name})), State(after, reset.modules, [Location(path, n)]));
    DriveUnfolds(s0, policy, exec);
  }

  /** A script that never compiles, its SyntaxError always reporting the last line (an unexpected
      end of file). */
  function NeverCompiles(path: Path, n: int): Oracle
  {
    (files: map<Path, Lines>, modules: Modules) =>
      Attempt(Raised(Error(SyntaxError, DriverStack, Location(path, n))), modules)
  }

  /** Against a script that can never succeed, the walk back over disabled lines makes each retry
      disable the next live line above; the run stops when no live line is left at or above the
      reported line, having disabled every one of them. */
  lemma {:induction false} NeverCompilingScriptExhaustsFile(state: State, path: Path, n: int, policy: Policy)
    requires PatchesHold(state)
    requires path in state.disk.files && n == |state.disk.files[path]| >= 1
    ensures var r := Drive(state, policy, NeverCompiles(path, n));
      && r.0 == Stopped(PatchFailed(BadLine(NothingToDisable)))
      && forall i :: 0 <= i < n ==> IsDisabled(r.1.disk.files[path][i])
    decreases LivePositions(state.disk.files)
  {
    var exec := NeverCompiles(path, n);
    var lines := state.disk.files[path];
    var e := Error(SyntaxError, DriverStack, Location(path, n));
    assert Locate(e, policy) == Success(Location(path, n));
    var c := CommentLine(state.disk, path, n);
    StepProperties(state, policy, exec);
    if c.result.Success? {
      var s := Step(state, policy, exec);
      assert s == Retry(state, Location(path, n), c.result.value, c.disk, state.modules);
      assert ResetModules(state.modules, state.modules).altered == {};
      NeverCompilingScriptExhaustsFile(s.next, path, n, policy);
    } else {
      assert c.result == Failure(BadLine(NothingToDisable));
    }
  }
}
