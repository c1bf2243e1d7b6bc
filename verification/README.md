# safepython in Dafny

safepython runs a Python script "no matter what". It executes the script. When the script raises, the
driver does four things and then runs the script again from the top:

1. It blames one source line for the error: the first frame inside the script by default, or the
   deepest frame under `--proactive`.
2. It comments that line out in place, first walking back over lines that already start with `#`.
3. It drops every module the failed attempt loaded into `sys.modules`.
4. It increases its count of disabled lines.

This project models the three pieces of logic in that loop as pure Dafny and proves what they
promise:

- the line disabler (`comment_line`);
- the module-registry reset (`reset_sys_modules`);
- the fault locator and the retry step of `wrap`.

The script itself is an oracle. It maps the current files and registry to either a normal completion
or a raised error with its kind and traceback.

Modules:

- `Wrappers`: `Option` and `Result`.
- `Patcher`: `comment_line` on a file's lines (`seq<string>`). It covers the backward walk over
  disabled lines and the rewrite of one line as `"# " + line`.
- `PatcherAsWritten`: the same code with Python's negative indices and clamping slices. It exists
  for finding 1 below.
- `Files`: the disk. It maps each path to its lines and keeps the backups made in this run.
  `CommentLine` does the backup step and then the rewrite. `LivePositions` is the set of live
  (path, line) pairs that makes the driver terminate.
- `Registry`: `sys.modules` as a map from module name to object identity, and its reset against
  the snapshot taken before an attempt.
- `Locator`: how a location is chosen from a traceback, plus the code as written for finding 2.
- `Driver`: one attempt (`Step`), the whole run as `wrap`'s recursion (`Drive`), and the loop
  that replaces that recursion (`Wrap`).
- `Scenarios`: whole runs on small oracle scripts.

The run always terminates in the model. Each retry turns one live line of the disk into a comment,
so `Drive` decreases on the set of live lines. A run ends in one of three ways: success with a
count, a fatal stop, or an exception that `except Exception` does not catch.

Backups are made per patched file, as in the code. Under `--proactive` the patched file may be a
library file rather than the target, and it gets its own backup the first time it is patched.

A file's lines are what Python's `readlines()` returns: every line keeps its `"\n"`, except possibly
the last line of a file that has no final newline. The rewrite writes these strings back
unchanged, apart from the one commented line.

The model follows the code except in the two places listed under "Findings". In both of them the code as written is modelled as well. The corrected line
disabler also differs from the code in one case no traceback produces: a line number from
`1 - |lines|` to 0. The corrected disabler reports it as out of range, while the code as written
indexes from the end of the file (`PatcherAsWritten.LineZeroExample`).

## Model

| member | source | states |
|---|---|---|
| Patcher.Disable | safepython.py:46 | the disabled line is the `"# "` marker followed by the original line, so it starts with `#` and keeps the original's line ending |
| Patcher.WalkBack | safepython.py:37-41 | the walk only moves up. It lands on a line not starting with `#`, and every line from there up to the starting line is a comment. It finds no line exactly when every line from 1 to the starting line is a comment |
| Patcher.CommentLines | safepython.py:34-47 | on success the file keeps its line count and only the target line changes, to `"# "` + the original. The target is the first live line at or above the reported line. The rewrite succeeds exactly when the line is in the file and some line at or above it is live. A line number outside the file is exactly the out-of-range error, and no live line at or above it is exactly the nothing-to-disable error |
| Patcher.CommentLinesRetiresOneLine | safepython.py:40-47 | a rewrite turns exactly one live line, the target, into a comment, and no other line changes status |
| Patcher.SkipsDisabledLine | safepython.py:40-41 | pointing at an already-commented line gives the same result as pointing at the line above it |
| Patcher.NeverCommentsTwice | safepython.py:37-41 | disabling twice from the same line never comments the same line again. The second rewrite lands strictly above the first, or finds nothing left |
| PatcherAsWritten.WalkAsWritten | safepython.py:39-41 | with Python indexing, the loop stops on a line that does not start with `#`, at or below the starting number, within Python's index range |
| PatcherAsWritten.CommentLineAsWritten | safepython.py:39-47 | the rewrite as written fails exactly when its walk raises IndexError. It keeps the file's number of lines unless the walk stops at line 0. In that case it returns twice as many strings, the second half being the original file |
| PatcherAsWritten.AsWrittenAgreesWhenDefined | safepython.py:39-47 | wherever the corrected rewrite succeeds, the code as written produces exactly the same lines |
| PatcherAsWritten.UnderflowDuplicatesFile | safepython.py:39-47 | take a file whose lines 1..n are all comments and whose last line is live. Disabling at n as written yields the file with its last line commented, followed by the whole file again. When every line ends in a newline, every written line does too, so the file reads back with twice as many lines (one fewer without a final newline). The corrected rewrite reports that nothing is left to disable |
| PatcherAsWritten.DuplicationExample | safepython.py:39-47 | `["#a\n", "b\n"]` disabled at line 1 becomes the four lines `["#a\n", "# b\n", "#a\n", "b\n"]` as written; the corrected rewrite reports nothing to disable |
| PatcherAsWritten.LineZeroExample | safepython.py:39-47 | `["a\n", "b\n"]` disabled at line 0 becomes `["a\n", "# b\n", "a\n", "b\n"]` as written; the corrected rewrite reports line 0 as out of range |
| Files.CommentLine | safepython.py:29-49 | a missing file is an error that changes nothing. Otherwise the file is backed up unless this run already did so, and an existing backup is never overwritten. A new backup holds the content from before the rewrite. Only the named file changes; on success it holds the rewritten lines, and on error no file changes. It succeeds exactly when the file exists and its lines can be rewritten |
| Files.CommentLineRetiresOneLine | safepython.py:29-49 | a successful call retires exactly one live (path, line) of the whole disk |
| Files.EvolvesTransitive | safepython.py:30-32 | the backup rules keep holding over any number of calls. No backup is overwritten, every backup holds its file's content from the start of the run, a file without a backup is untouched, and line counts never change |
| Registry.ResetModules | safepython.py:13-26 | the result holds exactly the names in both the current registry and the snapshot, with their current objects. Added names are gone and names that vanished are not re-inserted. A name is flagged as altered exactly when its object identity differs from the snapshot. With nothing altered, the result agrees with the snapshot |
| Registry.ResetSysModules | safepython.py:13-23 | the pass over the registry followed by one deletion per added name computes exactly that reset |
| Registry.ResetUndoesLoads | safepython.py:13-23 | loading new modules into the snapshot and resetting gives back exactly the snapshot, with nothing altered |
| Registry.ResetWithoutReplacement | safepython.py:16-23 | when no object identity changed, the reset succeeds with the snapshot restricted to the names still present |
| Registry.ResetIdempotent | safepython.py:13-26 | resetting a reset registry against the same snapshot changes nothing and reports the same altered names |
| Locator.Locate | safepython.py:72-88 | a SyntaxError with only the two driver frames is blamed on the line it reports. Otherwise the location is a frame at index 2 or deeper, never a driver frame. A traceback with no such frame is an error (both directions) |
| Locator.PolicyChoice | safepython.py:82-88 | the default policy blames `stack[2]` and `--proactive` blames the last frame |
| Locator.PoliciesAgreeOnThreeFrames | safepython.py:82-85 | with exactly three frames, both policies blame the same location |
| Locator.LocateAsWritten | safepython.py:78-88 | as written, a two-frame SyntaxError is blamed on its reported line. The default policy fails on fewer than three frames, while `--proactive` fails only on an empty traceback. Any other location is some frame of the traceback, possibly a driver frame |
| Locator.AsWrittenBlamesDriverFrame | safepython.py:78-88 | take an error that is not a SyntaxError and has only the two driver frames. As written, `--proactive` blames `stack[1]`, the driver's own `execfile` frame. The corrected locator reports a malformed traceback |
| Locator.LocateRefinesAsWritten | safepython.py:78-88 | wherever the corrected locator finds a location, the code as written finds the same one |
| Driver.Step | safepython.py:64-98 | one call of `wrap`. It succeeds exactly when the attempt completes, reporting the lines disabled so far and leaving disk and record alone. It escapes exactly when the attempt raises a BaseException that is not an Exception. A retry records one more line and leaves the registry a sub-map of the snapshot. The caught-error cases are stated by `Driver.CaughtStep` |
| Driver.CaughtStep | safepython.py:68-96 | for an error `except Exception` catches, the run stops as unlocatable exactly when the traceback has no frame to blame, keeping disk and record. It stops as patch-failed exactly when the blamed line cannot be disabled, with the files unchanged. Otherwise it goes on to the retry of the blamed line: reset and record |
| Driver.Retry | safepython.py:92-96 | after the line is disabled and recorded, the registry keeps only names both loaded now and in the snapshot. The run continues exactly when no module object was replaced; otherwise it stops with the altered-module error naming exactly the replaced modules |
| Driver.StepProperties | safepython.py:64-98 | one attempt never overwrites a backup or changes a line count, and keeps every recorded disabled line disabled. A retry disables exactly one live line, records it, and leaves the registry a sub-map of the snapshot taken before the attempt. A success reports the lines disabled so far and changes neither disk nor record |
| Driver.RetryStep | safepython.py:92-96 | a caught, locatable error whose line can be disabled, followed by a clean reset, continues the run. The disk is patched, the registry reset and the line recorded |
| Driver.Drive | safepython.py:64-98 | the run terminates. Backups are made once and hold the original content, and every recorded line is disabled. Disabled lines plus live lines stay constant. A success reports exactly the number of disabled lines |
| Driver.Wrap | safepython.py:64-98 | the loop computes the same outcome as the recursion. Every backup equals the file's content before the run, and files without a backup are untouched. The reported count equals the lines disabled and never exceeds the live lines the run started with |
| Scenarios.CompletionEnds | safepython.py:97-98 | an attempt that runs through ends the run and reports the lines disabled so far, with disk and record as they were and the registry the script left, whatever modules it loaded |
| Scenarios.FaultRetries | safepython.py:78-96 | a failed attempt blamed on a live line, whose reset finds no replaced module, continues the run. The next state has that line disabled and backed up, and the registry the reset leaves, so modules the attempt loaded are gone |
| Scenarios.LoadedModuleDropped | safepython.py:13-23 | a script that imports a new module before raising gets that module dropped. After one retry it succeeds from the registry the run started with |
| Scenarios.OneFaultyLine | safepython.py:64-98 | a script whose only fault is one live line succeeds after exactly one retry, with that line disabled and the file's original content as its backup. This holds for a compile fault and for a runtime fault |
| Scenarios.ThreeLineScript | safepython.py:64-98 | in a three-line script whose second line raises, the second line is commented out with its newline kept and one disabled line is reported; the backup is the original file |
| Scenarios.CallFailsRun | safepython.py:82-96 | against a failing call, the run disables the line its policy blames and then succeeds |
| Scenarios.PoliciesDiverge | safepython.py:82-96 | take a call at one line into a function that raises at another. The default policy disables the call and `--proactive` disables the raising line. Both succeed after one retry, with different files |
| Scenarios.ReplacedModuleStops | safepython.py:13-26 | a script that replaces a loaded module's object stops the run with the altered-module error instead of retrying, with the blamed line already disabled |
| Scenarios.NeverCompilingScriptExhaustsFile | safepython.py:37-41 | take a script that never compiles and whose SyntaxError always reports the last line. Each retry disables the next live line above. The run stops with nothing left to disable, every line commented |

## Left out

- `execfile`, `compile` and `exec` (safepython.py:52-61) cannot be modelled. The script is an oracle,
  a total function from the current files and registry to an outcome and a new registry. The oracle is
  deterministic, and a script that writes files is not modelled.
- `traceback.extract_tb` and `sys.exc_info` (safepython.py:69-70) are not modelled. The traceback is
  an input sequence of (file, line) frames, and the error's kind is one of three cases: SyntaxError,
  another Exception, or a BaseException that is not an Exception.
- Real file I/O is not modelled: reading, the temporary file, and the atomic `os.replace`. The disk is
  a map from path to lines. Atomicity of the rename is a guarantee of the operating system.
- The backup file name built from `TIMESTAMP` (safepython.py:10, 30) is not modelled. Backups live in
  their own map keyed by the path they back up, and a run starts with none. A stale backup left by an
  earlier run with the same timestamp is not modelled.
- `main`, `argparse`, the `sys.argv` rewrite and both `print` calls (safepython.py:90, 98, 101-115) are
  console and command-line plumbing.
- A SyntaxError whose `filename` or `lineno` is `None` is not modelled.
- `wrap` recurses literally (safepython.py:96), so after roughly a thousand retries Python's
  RecursionError would end the run. The model is a loop, so that limit is not modelled.
- An exception raised inside the `except` block propagates out of `wrap` and ends the process. This
  covers the IndexError of `stack[2]`, the errors of `comment_line`, and the NotImplementedError of
  the reset. All of them are modelled as the `Stopped` outcome.

## Findings

| source | as written | input that shows it | evidently intended | confidence | as-written member | corrected member |
|---|---|---|---|---|---|---|
| safepython.py:39-47 | when every line from 1 to the reported line is a comment, the walk reaches `lineno == 0`. `lines[-1]` is then the last line. If that line is live the loop stops, and `lines[:-1] + ["# " + lines[-1]] + lines[0:]` writes the file back followed by a second copy of itself: twice as many lines when the file ends in a newline | lines `["#a\n", "b\n"]`, line 1, giving `["#a\n", "# b\n", "#a\n", "b\n"]` | stop with an error when no live line is left at or above the reported line | high; not executed | PatcherAsWritten.UnderflowDuplicatesFile | Patcher.CommentLines |
| safepython.py:78-88 | `--proactive` takes `stack[-1]` whenever the error is not a two-frame SyntaxError. An Exception raised before the script runs has only the driver's two frames, so the driver's own `execfile` line is blamed and commented out in the driver's file | missing target file: `open` in `execfile` raises FileNotFoundError, traceback `[safepython.py:67, safepython.py:60]`, `--proactive` | frames 0 and 1 are never blamed; a traceback without a third frame is a fatal malformed-stack error, as it already is under the default policy | high; not executed | Locator.AsWrittenBlamesDriverFrame | Locator.Locate |
