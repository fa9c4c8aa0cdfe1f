/**
 * Everything the detector learns from outside the program, gathered in one
 * value: what lsof, git, /proc and the file system answer.
 */
module Host {
  import opened Wrappers
  import opened Platform
  import opened Git

  datatype Host = Host(
    /** platform.IsMacOS(): whether os.Stat finds /System/Library/CoreServices/Finder.app */
    isMacOS: bool,
    /** filepath.Abs and os.Stat */
    fs: FileSystem,
    /** the git commands */
    git: GitOracle,
    /** stdout of `lsof -iTCP -sTCP:LISTEN -n -P`, or None when it exits non-zero */
    listing: Option<string>,
    /**
     * stdout of `lsof -a -p <pids joined by ','> -d cwd -Fn`, keyed by the PID
     * list; a list absent from the map is one for which lsof exits non-zero
     */
    lsofCwd: map<seq<int>, string>,
    /**
     * the target of the symbolic link /proc/<pid>/cwd; a PID absent from the
     * map is one whose link cannot be read (Lstat or Readlink fails, or the
     * entry is not a symbolic link)
     */
    procCwd: map<int, string>)
}
