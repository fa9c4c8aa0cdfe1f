/**
 * The two `path/filepath` routines whose results the pipeline depends on, for
 * Unix paths. `filepath.Abs` touches the process's working directory and is an
 * oracle instead (see `Platform.FileSystem`).
 */
module FilePath {
  import opened Text

  /** The part of `s` after its last `c` (all of `s` when `c` does not occur). */
  function AfterLast(s: string, c: char): (r: string)
    ensures c !in r
    ensures |r| <= |s| && r == s[|s| - |r|..]
    ensures |r| < |s| ==> s[|s| - |r| - 1] == c
  {
    if s == [] || s[|s| - 1] == c then [] else AfterLast(s[..|s| - 1], c) + [s[|s| - 1]]
  }

  lemma {:induction false} AfterLastOf(prefix: string, name: string, c: char)
    requires c !in name
    ensures AfterLast(prefix + [c] + name, c) == name
    decreases |name|
  {
    var s := prefix + [c] + name;
    if name != [] {
      var last := name[|name| - 1];
      assert s[..|s| - 1] == prefix + [c] + name[..|name| - 1];
      AfterLastOf(prefix, name[..|name| - 1], c);
      assert name[..|name| - 1] + [last] == name;
    }
  }

  function StripTrailingSlashes(p: string): (r: string)
    ensures |r| <= |p| && r == p[..|r|]
    ensures r == [] || r[|r| - 1] != '/'
  {
    if p != [] && p[|p| - 1] == '/' then StripTrailingSlashes(p[..|p| - 1]) else p
  }

  /**
   * filepath.Base: "." for the empty path, "/" for a path of slashes only, and
   * otherwise the last element once trailing slashes are removed. The result
   * is never empty and is a single element.
   */
  function Base(path: string): (r: string)
    ensures r != []
    ensures r == "/" || '/' !in r
  {
    if path == [] then "."
    else
      var p := StripTrailingSlashes(path);
      if p == [] then "/" else AfterLast(p, '/')
  }

  /** The base name of a directory is its last element. */
  lemma BaseOfChild(parent: string, name: string)
    requires name != [] && '/' !in name
    ensures Base(parent + "/" + name) == name
  {
    var path := parent + "/" + name;
    assert path[|path| - 1] == name[|name| - 1];
    assert StripTrailingSlashes(path) == path;
    AfterLastOf(parent, name, '/');
  }

  /**
   * filepath.Join(dir, elem) for a clean `dir` (what filepath.Abs returns) and a
   * one-element `elem`: exactly one slash between them.
   */
  function JoinPath(dir: string, elem: string): (r: string)
    ensures dir != [] && dir[|dir| - 1] != '/' ==> r == dir + "/" + elem
  {
    if dir == [] then elem
    else if dir[|dir| - 1] == '/' then dir + elem
    else dir + "/" + elem
  }
}
