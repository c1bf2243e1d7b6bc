/** The retry driver of `wrap`: run the script, and on an error locate it, disable the located
    line, reset the module registry to the snapshot taken before the attempt, and run again. */
module Driver {
  import opened Wrappers
  import opened Patcher
  import opened Files
  import opened Registry
  import opened Locator

  datatype ExecResult = Completed | Raised(error: Error)

  /** What one `execfile` call did: how it ended, and the module registry it left behind. */
  datatype Attempt = Attempt(result: ExecResult, modules: Modules)

  /** The script's behaviour: the outcome of running it on the files as they now read, with the
      registry as it now stands. */
  type Oracle = (map<Path, Lines>, Modules) -> Attempt

  /** The driver's state between attempts: the disk, the registry, and the lines disabled so far
      (file and finally-disabled line), in order. */
  datatype State = State(disk: Disk, modules: Modules, patched: seq<Location>)

  datatype Fatal =
    | AlteredModules(names: set<ModuleName>)  // NotImplementedError from the reset
    | Unlocatable(why: LocateError)           // the traceback names no frame to blame
    | PatchFailed(cause: CommentError)        // comment_line raised

  datatype Outcome =
    | Succeeded(commented: nat)  // the script ran through after `commented` disabled lines
    | Stopped(fatal: Fatal)
    | Escaped(error: Error)      // a BaseException that `except Exception` lets through

  datatype StepResult = Continue(next: State) | Finished(outcome: Outcome, last: State)

  /** The state a run starts from: no backups yet and nothing disabled. */
  function Start(files: map<Path, Lines>, modules: Modules): State
  {
    State(Disk(files, map[]), modules, [])
  }

  /** Every recorded location names a line that is disabled on the disk. */
  ghost predicate PatchesHold(s: State)
  {
    forall k :: 0 <= k < |s.patched| ==>
      && s.patched[k].file in s.disk.files
      && 1 <= s.patched[k].line <= |s.disk.files[s.patched[k].file]|
      && IsDisabled(s.disk.files[s.patched[k].file][s.patched[k].line - 1])
  }

  /** Each disabled line is one live line fewer: the two always add up to the same number. */
  ghost predicate Accounted(s0: State, s1: State)
  {
    |s1.patched| + |LivePositions(s1.disk.files)| == |s0.patched| + |LivePositions(s0.disk.files)|
  }

  /** The located line is disabled and recorded; a failed reset stops the run with the line
      disabled but, as in the source, before the counter is increased for it. */
  function Retry(state: State, loc: Location, target: nat, after: Disk, current: Modules): (s: StepResult)
    ensures var s1 := if s.Continue? then s.next else s.last;
      && s1.disk == after
      && s1.patched == state.patched + [Location(loc.file, target)]
      && s1.modules.Keys == current.Keys * state.modules.Keys
    ensures s.Continue? ==> IsSubMap(s.next.modules, state.modules)
    ensures s.Finished? ==> s.outcome.Stopped? && s.outcome.fatal.AlteredModules?
    ensures s.Finished? ==> forall m :: m in s.outcome.fatal.names <==>
      m in current && m in state.modules && current[m] != state.modules[m]
    ensures s.Continue? <==> forall m :: m in current && m in state.modules ==> current[m] == state.modules[m]
  {
    var patched := state.patched + [Location(loc.file, target)];
    var reset := ResetModules(current, state.modules);
    if reset.altered != {} then Finished(Stopped(AlteredModules(reset.altered)), State(after, reset.modules, patched))
    else Continue(State(after, reset.modules, patched))
  }

  /** The attempt raised an error that `except Exception` catches. */
  predicate Caught(a: Attempt)
  {
    a.result.Raised? && a.result.error.kind != BaseExceptionOnly
  }

  /** One attempt of `wrap`: run the script with the registry as snapshot; on success report the
      count, on a caught error locate, disable and reset. */
  function Step(state: State, policy: Policy, exec: Oracle): (s: StepResult)
    ensures s.Continue? ==>
      && |s.next.patched| == |state.patched| + 1
      && s.next.patched[..|state.patched|] == state.patched
      && IsSubMap(s.next.modules, state.modules)
    ensures s.Finished? && (s.outcome.Succeeded? || s.outcome.Escaped?) ==>
      && s.last.disk == state.disk
      && s.last.patched == state.patched
      && s.last.modules == exec(state.disk.files, state.modules).modules
    ensures s.Finished? && s.outcome.Succeeded? <==> exec(state.disk.files, state.modules).result.Completed?
    ensures s.Finished? && s.outcome.Succeeded? ==> s.outcome.commented == |state.patched|
    ensures s.Finished? && s.outcome.Escaped? <==>
      exec(state.disk.files, state.modules).result.Raised?
      && exec(state.disk.files, state.modules).result.error.kind == BaseExceptionOnly
  {
    var attempt := exec(state.disk.files, state.modules);
    match attempt.result
    case Completed => Finished(Succeeded(|state.patched|), state.(modules := attempt.modules))
    case Raised(e) =>
      if e.kind == BaseExceptionOnly then Finished(Escaped(e), state.(modules := attempt.modules))
      else match Locate(e, policy)
        case Failure(le) => Finished(Stopped(Unlocatable(le)), state.(modules := attempt.modules))
        case Success(loc) =>
          var c := CommentLine(state.disk, loc.file, loc.line);
          match c.result
          case Failure(ce) => Finished(Stopped(PatchFailed(ce)), State(c.disk, attempt.modules, state.patched))
          case Success(target) => Retry(state, loc, target, c.disk, attempt.modules)
  }

  /** What may hold between the state before an attempt and the state after it. */
  ghost predicate Follows(s0: State, s1: State)
  {
    && Evolves(s0.disk, s1.disk)
    && PatchesHold(s1)
    && Accounted(s0, s1)
    && |s0.patched| <= |s1.patched| <= |s0.patched| + 1
    && s1.patched[..|s0.patched|] == s0.patched
  }

  /** The last recorded location was live before and is the one line the attempt retired. */
  ghost predicate RetiredOne(s0: State, s1: State)
  {
    && |s1.patched| == |s0.patched| + 1
    && var loc := s1.patched[|s0.patched|];
    && (loc.file, loc.line - 1) in LivePositions(s0.disk.files)
    && LivePositions(s1.disk.files) == LivePositions(s0.disk.files) - {(loc.file, loc.line - 1)}
  }

  /** Disabling one more line keeps every earlier record valid and makes the new one valid. */
  lemma PatchKeepsRecords(state: State, path: Path, lineno: int, target: nat, after: Disk, modules: Modules)
    requires PatchesHold(state)
    requires CommentLine(state.disk, path, lineno) == Commented(after, Success(target))
    ensures PatchesHold(State(after, modules, state.patched + [Location(path, target)]))
  {
  }

  /** The state after a successful `comment_line`, whatever the registry, follows the state before
      it and differs from it by exactly one retired line. */
  lemma PatchFollows(state: State, path: Path, lineno: int, target: nat, after: Disk, modules: Modules)
    requires PatchesHold(state)
    requires CommentLine(state.disk, path, lineno) == Commented(after, Success(target))
    ensures var s1 := State(after, modules, state.patched + [Location(path, target)]);
      Follows(state, s1) && RetiredOne(state, s1)
  {
    var s1 := State(after, modules, state.patched + [Location(path, target)]);
    CommentLineRetiresOneLine(state.disk, path, lineno);
    PatchKeepsRecords(state, path, lineno, target, after, modules);
    assert s1.patched[..|state.patched|] == state.patched;
    assert s1.patched[|state.patched|] == Location(path, target);
    assert |LivePositions(after.files)| == |LivePositions(state.disk.files)| - 1;
  }

  lemma RetryProperties(state: State, loc: Location, target: nat, after: Disk, current: Modules)
    requires PatchesHold(state)
    requires CommentLine(state.disk, loc.file, loc.line) == Commented(after, Success(target))
    ensures var s := Retry(state, loc, target, after, current);
      var s1 := if s.Continue? then s.next else s.last;
      && Follows(state, s1)
      && RetiredOne(state, s1)
      && (s.Continue? ==> IsSubMap(s1.modules, state.modules))
  {
    var reset := ResetModules(current, state.modules);
    PatchFollows(state, loc.file, loc.line, target, after, reset.modules);
  }

  /** What one attempt does to the state. A retry disables exactly one live line, records it, and
      leaves the registry a sub-map of the snapshot taken before the attempt. A success reports the
      number of lines disabled so far and leaves the disk alone. */
  lemma StepProperties(state: State, policy: Policy, exec: Oracle)
    requires PatchesHold(state)
    ensures var s := Step(state, policy, exec);
      var s1 := if s.Continue? then s.next else s.last;
      && Follows(state, s1)
      && (s.Continue? ==> RetiredOne(state, s1) && IsSubMap(s1.modules, state.modules))
      && (s.Finished? && s.outcome.Succeeded? ==>
            s.outcome.commented == |state.patched| && s1.disk == state.disk && s1.patched == state.patched)
  {
    var attempt := exec(state.disk.files, state.modules);
    if attempt.result.Raised? && attempt.result.error.kind != BaseExceptionOnly {
      var e := attempt.result.error;
      if Locate(e, policy).Success? {
        var loc := Locate(e, policy).value;
        var c := CommentLine(state.disk, loc.file, loc.line);
        if c.result.Success? {
          RetryProperties(state, loc, c.result.value, c.disk, attempt.modules);
        }
      }
    }
  }

  /** The whole run, as the recursion of `wrap`. It terminates: each retry retires one live line of
      the disk, so the run ends before the disk runs out of live lines. */
  function Drive(state: State, policy: Policy, exec: Oracle): (r: (Outcome, State))
    requires PatchesHold(state)
    ensures Evolves(state.disk, r.1.disk)
    ensures PatchesHold(r.1)
    ensures Accounted(state, r.1)
    ensures |state.patched| <= |r.1.patched| && r.1.patched[..|state.patched|] == state.patched
    ensures r.0.Succeeded? ==> r.0.commented == |r.1.patched|
    decreases LivePositions(state.disk.files)
  {
    StepProperties(state, policy, exec);
    match Step(state, policy, exec)
    case Finished(o, s) => (o, s)
    case Continue(s) =>
      var r := Drive(s, policy, exec);
      EvolvesTransitive(state.disk, s.disk, r.1.disk);
      r
  }

  /** A caught, locatable error whose line can be disabled, followed by a clean reset, continues
      the run with that line disabled and recorded. */
  lemma RetryStep(state: State, policy: Policy, exec: Oracle, e: Error, current: Modules, loc: Location, after: Disk, target: nat)
    requires exec(state.disk.files, state.modules) == Attempt(Raised(e), current)
    requires e.kind != BaseExceptionOnly
    requires Locate(e, policy) == Success(loc)
    requires CommentLine(state.disk, loc.file, loc.line) == Commented(after, Success(target))
    requires ResetModules(current, state.modules).altered == {}
    ensures Step(state, policy, exec)
         == Continue(State(after, ResetModules(current, state.modules).modules, state.patched + [Location(loc.file, target)]))
  {
  }

  /** What a caught error leads to: a fatal stop when it cannot be located or its line cannot be
      disabled, with the disk's files as they were, and otherwise the retry of the located line. */
  lemma CaughtStep(state: State, policy: Policy, exec: Oracle)
    ensures var a, s := exec(state.disk.files, state.modules), Step(state, policy, exec);
      s.Finished? && s.outcome.Stopped? && s.outcome.fatal.Unlocatable? <==>
      Caught(a) && Locate(a.result.error, policy).Failure?
    ensures var a, s := exec(state.disk.files, state.modules), Step(state, policy, exec);
      Caught(a) && Locate(a.result.error, policy).Failure? ==>
      s == Finished(Stopped(Unlocatable(Locate(a.result.error, policy).error)), state.(modules := a.modules))
    ensures var a, s := exec(state.disk.files, state.modules), Step(state, policy, exec);
      s.Finished? && s.outcome.Stopped? && s.outcome.fatal.PatchFailed? <==>
      && Caught(a) && Locate(a.result.error, policy).Success?
      && var loc := Locate(a.result.error, policy).value;
      CommentLine(state.disk, loc.file, loc.line).result.Failure?
    ensures var a, s := exec(state.disk.files, state.modules), Step(state, policy, exec);
      Caught(a) && Locate(a.result.error, policy).Success? ==>
      var loc := Locate(a.result.error, policy).value;
      var c := CommentLine(state.disk, loc.file, loc.line);
      && (c.result.Failure? ==>
            && s == Finished(Stopped(PatchFailed(c.result.error)), State(c.disk, a.modules, state.patched))
            && s.last.disk.files == state.disk.files)
      && (c.result.Success? ==> s == Retry(state, loc, c.result.value, c.disk, a.modules))
  {
  }

  /** How the recursion of the run unfolds on the result of one attempt. */
  lemma DriveUnfolds(state: State, policy: Policy, exec: Oracle)
    requires PatchesHold(state)
    ensures Step(state, policy, exec).Finished? ==>
      Drive(state, policy, exec) == (Step(state, policy, exec).outcome, Step(state, policy, exec).last)
    ensures Step(state, policy, exec).Continue? ==>
      PatchesHold(Step(state, policy, exec).next)
      && Drive(state, policy, exec) == Drive(Step(state, policy, exec).next, policy, exec)
  {
  }

  /** `wrap` as a loop carrying the state instead of recursing. */
  method Wrap(files: map<Path, Lines>, modules: Modules, policy: Policy, exec: Oracle)
    returns (outcome: Outcome, last: State)
    ensures (outcome, last) == Drive(Start(files, modules), policy, exec)
    ensures outcome.Succeeded? ==> outcome.commented == |last.patched|
    ensures last.disk.files.Keys == files.Keys
    ensures forall p :: p in last.disk.backups ==> p in files && last.disk.backups[p] == files[p]
    ensures forall p :: p in files && p !in last.disk.backups ==> last.disk.files[p] == files[p]
    ensures |last.patched| <= |LivePositions(files)|
  {
    var state := Start(files, modules);
    while true
      invariant PatchesHold(state)
      invariant Drive(state, policy, exec) == Drive(Start(files, modules), policy, exec)
      decreases LivePositions(state.disk.files)
    {
      StepProperties(state, policy, exec);
      match Step(state, policy, exec)
      case Finished(o, s) =>
        return o, s;
      case Continue(s) =>
        state := s;
    }
  }
}
