/** The argument checks of internal/platform/platform.go. */
module Platform {
  import opened Wrappers

  /** The largest PID ValidatePID lets through (the int32 maximum). */
  const MaxPid: int := 2147483647

  datatype PidError = NotPositive | ExceedsMaximum

  /** ValidatePID: nil exactly on 1..2147483647, with the first failing check as the error. */
  function ValidatePid(pid: int): (r: Outcome<PidError>)
    ensures r.Pass? <==> 1 <= pid <= MaxPid
    ensures r == Fail(NotPositive) <==> pid <= 0
    ensures r == Fail(ExceedsMaximum) <==> pid > MaxPid
  {
    if pid <= 0 then Fail(NotPositive)
    else if pid > MaxPid then Fail(ExceedsMaximum)
    else Pass
  }

  /**
   * What the file system answers. `abs` is filepath.Abs (a path absent from
   * the map is one for which Abs fails); `stat` is os.Stat (absent: Stat fails;
   * present: whether the FileInfo reports a directory).
   */
  datatype FileSystem = FileSystem(abs: map<string, string>, stat: map<string, bool>)

  predicate IsDirectory(fs: FileSystem, path: string) {
    path in fs.stat && fs.stat[path]
  }

  datatype DirError = EmptyPath | AbsFailed | DoesNotExist | NotADirectory

  /**
   * ValidateDir: the empty path is refused before the file system is asked;
   * otherwise the absolute path must exist and be a directory, and is then
   * returned as it is.
   */
  function ValidateDir(dir: string, fs: FileSystem): (r: Result<string, DirError>)
    ensures dir == "" ==> r == Err(EmptyPath)
    ensures r.Ok? <==> dir != "" && dir in fs.abs && IsDirectory(fs, fs.abs[dir])
    ensures r.Ok? ==> r.value == fs.abs[dir]
  {
    if dir == "" then Err(EmptyPath)
    else if dir !in fs.abs then Err(AbsFailed)
    else
      var cleaned := fs.abs[dir];
      if cleaned !in fs.stat then Err(DoesNotExist)
      else if !fs.stat[cleaned] then Err(NotADirectory)
      else Ok(cleaned)
  }
}
