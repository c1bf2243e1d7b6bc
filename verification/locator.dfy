/** The fault locator of `wrap`: which (file, line) an error raised out of the script is blamed on. */
module Locator {
  import opened Wrappers
  import opened Files

  datatype Location = Location(file: Path, line: int)

  /** What the script raised. `except Exception` catches the first two; anything that is only a
      BaseException (SystemExit, KeyboardInterrupt) is not caught and leaves the driver. */
  datatype ErrorKind = SyntaxError | OtherException | BaseExceptionOnly

  /** An error raised out of `execfile`: its kind, the frames of its traceback from the driver's own
      frame down to the frame that raised, and the file and line a SyntaxError records itself. */
  datatype Error = Error(kind: ErrorKind, stack: seq<Location>, reported: Location)

  /** Default policy, and the one chosen by `--proactive`. */
  datatype Policy = Shallow | Proactive

  datatype LocateError = MalformedStack(depth: nat)

  /** Frames 0 and 1 of every traceback are the driver's: `wrap` calling `execfile`, and
      `execfile`'s own frame (its `exec`, or its `open` when the target cannot be opened). Frames
      from index 2 on run inside the script. */
  const DriverFrames: nat := 2

  /** The script failed to compile: only the two driver frames exist. */
  predicate IsCompileFault(e: Error)
  {
    |e.stack| == DriverFrames && e.kind == SyntaxError
  }

  /** The located (file, line). A compile fault is blamed on the line the SyntaxError reports;
      otherwise the shallow policy blames the first frame inside the script and the proactive
      policy the deepest frame. A traceback with no frame inside the script is malformed. */
  function Locate(e: Error, policy: Policy): (r: Result<Location, LocateError>)
    ensures IsCompileFault(e) ==> r == Success(e.reported)
    ensures r.Failure? <==> !IsCompileFault(e) && |e.stack| <= DriverFrames
    ensures r.Failure? ==> r.error == MalformedStack(|e.stack|)
    ensures r.Success? && !IsCompileFault(e) ==>
      exists i :: DriverFrames <= i < |e.stack| && r.value == e.stack[i]
  {
    if IsCompileFault(e) then Success(e.reported)
    else if |e.stack| <= DriverFrames then Failure(MalformedStack(|e.stack|))
    else match policy
      case Shallow => Success(e.stack[DriverFrames])
      case Proactive => Success(e.stack[|e.stack| - 1])
  }

  /** The frame each policy picks once the traceback reaches into the script. */
  lemma PolicyChoice(e: Error)
    requires !IsCompileFault(e) && |e.stack| > DriverFrames
    ensures Locate(e, Shallow) == Success(e.stack[DriverFrames])
    ensures Locate(e, Proactive) == Success(e.stack[|e.stack| - 1])
  {
  }

  /** With exactly one frame inside the script, both policies blame the same line. */
  lemma PoliciesAgreeOnThreeFrames(e: Error)
    requires |e.stack| == 3
    ensures Locate(e, Shallow) == Locate(e, Proactive)
  {
  }

  /** The selection as written: `stack[-1]` under the proactive policy accepts any non-empty
      traceback, so only the shallow policy fails (IndexError) on a traceback too short for it. */
  function LocateAsWritten(e: Error, policy: Policy): (r: Result<Location, LocateError>)
    ensures IsCompileFault(e) ==> r == Success(e.reported)
    ensures r.Failure? <==>
      !IsCompileFault(e) && (if policy == Shallow then |e.stack| <= DriverFrames else |e.stack| == 0)
    ensures r.Success? && !IsCompileFault(e) ==> exists i :: 0 <= i < |e.stack| && r.value == e.stack[i]
  {
    if |e.stack| == 2 && e.kind == SyntaxError then Success(e.reported)
    else match policy
      case Shallow => if |e.stack| < 3 then Failure(MalformedStack(|e.stack|)) else Success(e.stack[2])
      case Proactive => if |e.stack| == 0 then Failure(MalformedStack(0)) else Success(e.stack[|e.stack| - 1])
  }

  /** An error other than a SyntaxError raised before the script runs (the target cannot be
      opened, so `open` in `execfile` raises) has only the two driver frames. As written, the
      proactive policy then blames the driver's own `execfile` frame, a line of the driver itself;
      the corrected locator reports the traceback as malformed. */
  lemma AsWrittenBlamesDriverFrame(e: Error)
    requires |e.stack| == 2 && e.kind != SyntaxError
    ensures LocateAsWritten(e, Proactive) == Success(e.stack[1])
    ensures Locate(e, Proactive) == Failure(MalformedStack(2))
  {
  }

  /** Wherever the corrected locator locates anything, the code as written locates the same. */
  lemma LocateRefinesAsWritten(e: Error, policy: Policy)
    ensures Locate(e, policy).Success? ==> LocateAsWritten(e, policy) == Locate(e, policy)
  {
  }
}
