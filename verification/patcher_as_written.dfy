/** `comment_line` exactly as written, with Python's list semantics: a negative index counts from
    the end of the list, and slices clamp. It differs from Patcher.CommentLines in two cases. When
    the backward walk passes line 1, the corrected model reports NothingToDisable. When the line
    number it is given is between 1 - |lines| and 0, the corrected model reports LineOutOfRange.
    In both cases the code as written indexes from the end of the file instead. */
module PatcherAsWritten {
  import opened Wrappers
  import opened Patcher

  /** Python's `s[i]` for an index Python accepts. */
  function PyAt<T>(s: seq<T>, i: int): T
    requires -|s| <= i < |s|
  {
    if i < 0 then s[|s| + i] else s[i]
  }

  /** Python's `s[:k]`. */
  function PyTake<T>(s: seq<T>, k: int): (r: seq<T>)
    ensures 0 <= k <= |s| ==> r == s[..k]
    ensures -|s| <= k < 0 ==> r == s[..|s| + k]
  {
    if k >= 0 then (if k <= |s| then s[..k] else s)
    else if |s| + k >= 0 then s[..|s| + k] else []
  }

  /** Python's `s[k:]`. */
  function PyDrop<T>(s: seq<T>, k: int): (r: seq<T>)
    ensures 0 <= k <= |s| ==> r == s[k..]
    ensures -|s| <= k < 0 ==> r == s[|s| + k..]
  {
    if k >= 0 then (if k <= |s| then s[k..] else [])
    else if |s| + k >= 0 then s[|s| + k..] else s
  }

  /** The while loop as written; None stands for the IndexError raised when
      `lines[lineno-1]` is out of Python's range. */
  function WalkAsWritten(lines: Lines, lineno: int): (r: Option<int>)
    ensures r.Some? ==> r.value <= lineno && -|lines| <= r.value - 1 < |lines|
    ensures r.Some? ==> !IsDisabled(PyAt(lines, r.value - 1))
    decreases lineno + |lines|
  {
    if lineno - 1 < -|lines| || |lines| <= lineno - 1 then None
    else if IsDisabled(PyAt(lines, lineno - 1)) then WalkAsWritten(lines, lineno - 1)
    else Some(lineno)
  }

  /** The rewrite as written: `lines[:lineno-1]`, the commented line, then `lines[lineno:]`.
      None stands for an IndexError. */
  function CommentLineAsWritten(lines: Lines, lineno: int): (r: Option<Lines>)
    ensures r.None? <==> WalkAsWritten(lines, lineno).None?
    ensures r.Some? && WalkAsWritten(lines, lineno).value != 0 ==> |r.value| == |lines|
    ensures r.Some? && WalkAsWritten(lines, lineno).value == 0 ==>
      |r.value| == 2 * |lines| && r.value[|lines|..] == lines
  {
    match WalkAsWritten(lines, lineno)
    case None => None
    case Some(n) => Some(PyTake(lines, n - 1) + [Disable(PyAt(lines, n - 1))] + PyDrop(lines, n))
  }

  lemma {:induction false} WalkAgrees(lines: Lines, lineno: nat)
    requires lineno <= |lines|
    requires WalkBack(lines, lineno).Some?
    ensures WalkAsWritten(lines, lineno) == Some(WalkBack(lines, lineno).value as int)
    decreases lineno
  {
    if IsDisabled(lines[lineno - 1]) {
      WalkAgrees(lines, lineno - 1);
    }
  }

  /** Wherever the corrected rewrite succeeds, the code as written produces the same lines. */
  lemma AsWrittenAgreesWhenDefined(lines: Lines, lineno: int)
    requires CommentLines(lines, lineno).Success?
    ensures CommentLineAsWritten(lines, lineno) == Some(CommentLines(lines, lineno).value.lines)
  {
    WalkAgrees(lines, lineno);
  }

  lemma {:induction false} WalkUnderflows(lines: Lines, lineno: nat)
    requires lineno < |lines|
    requires forall i :: 0 <= i < lineno ==> IsDisabled(lines[i])
    requires !IsDisabled(lines[|lines| - 1])
    ensures WalkAsWritten(lines, lineno) == Some(0)
    decreases lineno
  {
    if lineno > 0 {
      WalkUnderflows(lines, lineno - 1);
    }
  }

  /** When every line from 1 to `lineno` is a comment and the last line of the file is live, the
      walk steps to line 0, index -1 wraps to the last line, and the rewrite as written returns the
      file with its last line commented followed by the whole original file. When every line ends
      in a newline, so does every written line, so the file reads back with twice as many lines;
      without a final newline the commented last line runs into the copy, one line fewer.
      The corrected rewrite reports NothingToDisable instead. */
  lemma UnderflowDuplicatesFile(lines: Lines, lineno: int)
    requires 1 <= lineno <= |lines|
    requires forall i :: 0 <= i < lineno ==> IsDisabled(lines[i])
    requires !IsDisabled(lines[|lines| - 1])
    ensures CommentLineAsWritten(lines, lineno)
         == Some(lines[..|lines| - 1] + [Disable(lines[|lines| - 1])] + lines)
    ensures |CommentLineAsWritten(lines, lineno).value| == 2 * |lines|
    ensures (forall i :: 0 <= i < |lines| ==> EndsLine(lines[i])) ==>
      forall j :: 0 <= j < 2 * |lines| ==> EndsLine(CommentLineAsWritten(lines, lineno).value[j])
    ensures CommentLines(lines, lineno) == Failure(NothingToDisable)
  {
    WalkUnderflows(lines, lineno);
  }

  /** A two-line file whose first line is already a comment, disabled at line 1: it is written
      back as four lines. */
  lemma DuplicationExample()
    ensures CommentLineAsWritten(["#a\n", "b\n"], 1) == Some(["#a\n", "# b\n", "#a\n", "b\n"])
    ensures CommentLines(["#a\n", "b\n"], 1) == Failure(NothingToDisable)
  {
    var lines: Lines := ["#a\n", "b\n"];
    UnderflowDuplicatesFile(lines, 1);
    assert Disable(lines[1]) == "# b\n";
    assert lines[..1] + ["# b\n"] + lines == ["#a\n", "# b\n", "#a\n", "b\n"];
  }

  /** Line 0, which no traceback reports: the code as written indexes from the end and again
      duplicates the file, where the corrected rewrite reports the line as out of range. */
  lemma LineZeroExample()
    ensures CommentLineAsWritten(["a\n", "b\n"], 0) == Some(["a\n", "# b\n", "a\n", "b\n"])
    ensures CommentLines(["a\n", "b\n"], 0) == Failure(LineOutOfRange(0))
  {
    var lines: Lines := ["a\n", "b\n"];
    assert WalkAsWritten(lines, 0) == Some(0);
    assert Disable(lines[1]) == "# b\n";
    assert lines[..1] + ["# b\n"] + lines == ["a\n", "# b\n", "a\n", "b\n"];
  }
}
