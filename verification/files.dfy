/** The files `comment_line` reads and rewrites, and the backups it makes of them. */
module Files {
  import opened Wrappers
  import opened Patcher

  type Path = string

  /** The disk as the driver sees it: the content of every file by path, and the backups this run
      has made, by the path of the file they back up. */
  datatype Disk = Disk(files: map<Path, Lines>, backups: map<Path, Lines>)

  datatype CommentError =
    | FileNotFound(path: Path)  // the located file does not exist (copy or open fails)
    | BadLine(cause: PatchError)

  /** The disk after a `comment_line` call, and the line finally disabled or the error raised.
      An error raised by the walk leaves the backup just made in place. */
  datatype Commented = Commented(disk: Disk, result: Result<nat, CommentError>)

  /** How the disk may change within one run: no file gains or loses lines, no backup is ever overwritten, a new backup holds the
      content its file had at the start, and a file without a backup is still untouched. */
  ghost predicate Evolves(d0: Disk, d1: Disk)
  {
    && d1.files.Keys == d0.files.Keys
    && (forall p :: p in d0.files ==> |d1.files[p]| == |d0.files[p]|)
    && (forall p :: p in d0.backups ==> p in d1.backups && d1.backups[p] == d0.backups[p])
    && (forall p :: p in d1.backups && p !in d0.backups ==> p in d0.files && d1.backups[p] == d0.files[p])
    && (forall p :: p in d0.files && p !in d1.backups ==> d1.files[p] == d0.files[p])
  }

  lemma EvolvesTransitive(d0: Disk, d1: Disk, d2: Disk)
    requires Evolves(d0, d1) && Evolves(d1, d2)
    ensures Evolves(d0, d2)
  {
  }

  /** `comment_line(path, lineno)`: back the file up unless this run already did, then disable
      the line the backward walk lands on and write the file back. */
  function CommentLine(disk: Disk, path: Path, lineno: int): (r: Commented)
    ensures Evolves(disk, r.disk)
    ensures path !in disk.files ==> r == Commented(disk, Failure(FileNotFound(path)))
    ensures path in disk.files ==> path in r.disk.backups
    ensures r.disk.backups.Keys <= disk.backups.Keys + {path}
    ensures forall p :: p in disk.files && p != path ==> r.disk.files[p] == disk.files[p]
    ensures r.result.Failure? ==> r.disk.files == disk.files
    ensures path in disk.files && CommentLines(disk.files[path], lineno).Failure? ==>
      r.result == Failure(BadLine(CommentLines(disk.files[path], lineno).error))
    ensures r.result.Success? ==>
      && path in disk.files
      && CommentLines(disk.files[path], lineno).Success?
      && var p := CommentLines(disk.files[path], lineno).value;
      && r.result.value == p.target
      && r.disk.files[path] == p.lines
    ensures path in disk.files && CommentLines(disk.files[path], lineno).Success? ==> r.result.Success?
  {
    if path !in disk.files then Commented(disk, Failure(FileNotFound(path)))
    else
      var backed := if path in disk.backups then disk
                    else disk.(backups := disk.backups[path := disk.files[path]]);
      match CommentLines(disk.files[path], lineno)
      case Failure(e) => Commented(backed, Failure(BadLine(e)))
      case Success(p) => Commented(backed.(files := backed.files[path := p.lines]), Success(p.target))
  }

  /** Every (path, 0-based index) of a live line on the disk. */
  ghost function LivePositions(files: map<Path, Lines>): set<(Path, int)>
  {
    set p, i | p in files && 0 <= i < |files[p]| && !IsDisabled(files[p][i]) :: (p, i)
  }

  /** A successful `comment_line` retires exactly one live line of the whole disk. */
  lemma CommentLineRetiresOneLine(disk: Disk, path: Path, lineno: int)
    requires CommentLine(disk, path, lineno).result.Success?
    ensures var r := CommentLine(disk, path, lineno);
      && (path, r.result.value - 1) in LivePositions(disk.files)
      && LivePositions(r.disk.files) == LivePositions(disk.files) - {(path, r.result.value - 1)}
  {
  }
}
