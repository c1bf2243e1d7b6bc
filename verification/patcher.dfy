/** The line disabler of safepython.py (`comment_line`), on a file's lines as a sequence of strings. */
module Patcher {
  import opened Wrappers

  /** One line of a source file, as Python's readlines() yields it. */
  type Line = string

  type Lines = seq<Line>

  /** A line is already disabled when it starts with '#' (Python's `startswith('#')`);
      an indented comment therefore still counts as a live line. */
  predicate IsDisabled(line: Line)
  {
    |line| > 0 && line[0] == '#'
  }

  /** A line that keeps its line ending, as every line readlines() yields except possibly the
      last one of a file without a final newline. */
  predicate EndsLine(line: Line)
  {
    |line| > 0 && line[|line| - 1] == '\n'
  }

  /** The prefix put in front of the line being disabled. */
  const Marker: string := "# "

  /** The disabled form of a line: the marker followed by the line unchanged. */
  function Disable(line: Line): (d: Line)
    ensures IsDisabled(d)
    ensures |d| == |Marker| + |line| && d[..|Marker|] == Marker && d[|Marker|..] == line
    ensures EndsLine(d) <==> EndsLine(line)
  {
    Marker + line
  }

  /** The 0-based positions of the lines that are still live. */
  ghost function LiveLines(lines: Lines): set<int>
  {
    set i | 0 <= i < |lines| && !IsDisabled(lines[i])
  }

  /** The backward walk: from the 1-based `lineno`, step back past lines that are already disabled.
      None when every line from 1 to `lineno` is disabled, i.e. the walk would leave the file. */
  function WalkBack(lines: Lines, lineno: nat): (r: Option<nat>)
    requires lineno <= |lines|
    ensures r.Some? ==> 1 <= r.value <= lineno && !IsDisabled(lines[r.value - 1])
    ensures r.Some? ==> forall i :: r.value <= i < lineno ==> IsDisabled(lines[i])
    ensures r.None? ==> forall i :: 0 <= i < lineno ==> IsDisabled(lines[i])
    decreases lineno
  {
    if lineno == 0 then None
    else if IsDisabled(lines[lineno - 1]) then WalkBack(lines, lineno - 1)
    else Some(lineno)
  }

  datatype PatchError =
    | LineOutOfRange(lineno: int)  // the reported line is not a line of the file
    | NothingToDisable              // every line from 1 to the reported line is already disabled

  /** The rewritten lines and the 1-based line that was finally disabled. */
  datatype Patched = Patched(lines: Lines, target: nat)

  /** `comment_line` on the file's lines: walk back over disabled lines, then rewrite the line the
      walk lands on as the marker followed by that line, keeping every other line. */
  function CommentLines(lines: Lines, lineno: int): (r: Result<Patched, PatchError>)
    ensures r.Success? ==>
      var t := r.value.target;
      && 1 <= t <= lineno <= |lines|
      && !IsDisabled(lines[t - 1])
      && (forall i :: t <= i < lineno ==> IsDisabled(lines[i]))
      && |r.value.lines| == |lines|
      && r.value.lines[t - 1] == Disable(lines[t - 1])
      && (forall i :: 0 <= i < |lines| && i != t - 1 ==> r.value.lines[i] == lines[i])
    ensures r == Failure(LineOutOfRange(lineno)) <==> lineno < 1 || |lines| < lineno
    ensures r == Failure(NothingToDisable) <==>
      1 <= lineno <= |lines| && forall i :: 0 <= i < lineno ==> IsDisabled(lines[i])
    ensures r.Success? <==> 1 <= lineno <= |lines| && exists i :: 0 <= i < lineno && !IsDisabled(lines[i])
  {
    if lineno < 1 || |lines| < lineno then Failure(LineOutOfRange(lineno))
    else match WalkBack(lines, lineno)
      case None => Failure(NothingToDisable)
      case Some(t) => Success(Patched(lines[..t - 1] + [Disable(lines[t - 1])] + lines[t..], t))
  }

  /** Each successful rewrite retires exactly one live line: the target. */
  lemma CommentLinesRetiresOneLine(lines: Lines, lineno: int)
    requires CommentLines(lines, lineno).Success?
    ensures var p := CommentLines(lines, lineno).value;
      && p.target - 1 in LiveLines(lines)
      && LiveLines(p.lines) == LiveLines(lines) - {p.target - 1}
  {
  }

  /** Pointing at an already-disabled line is the same as pointing at the line above it. */
  lemma SkipsDisabledLine(lines: Lines, lineno: int)
    requires 2 <= lineno <= |lines|
    requires IsDisabled(lines[lineno - 1])
    ensures CommentLines(lines, lineno) == CommentLines(lines, lineno - 1)
  {
  }

  /** Disabling twice from the same line never comments the same line twice: the second
      rewrite, if any, lands strictly above the first one. */
  lemma NeverCommentsTwice(lines: Lines, lineno: int)
    requires CommentLines(lines, lineno).Success?
    ensures var first := CommentLines(lines, lineno).value;
      var second := CommentLines(first.lines, lineno);
      && (second.Success? ==> second.value.target < first.target)
      && (second.Failure? ==> second == Failure(NothingToDisable))
  {
  }
}
