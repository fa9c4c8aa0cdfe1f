/**
 * internal/git/git.go: repository membership, display name and branch of a
 * directory. The three git invocations are oracles keyed by the validated
 * directory given to `git -C`.
 */
module Git {
  import opened Wrappers
  import opened Text
  import opened FilePath
  import opened Platform

  /** What each git command reports for a directory. */
  datatype GitOracle = GitOracle(
    /** directories for which `git rev-parse --git-dir` exits 0 */
    revParseOk: set<string>,
    /** stdout of `git config --get remote.origin.url`, for directories where it exits 0 */
    originUrl: map<string, string>,
    /** stdout of `git rev-parse --abbrev-ref HEAD`, for directories where it exits 0 */
    headRef: map<string, string>)

  /** The branch label used when the branch cannot be determined. */
  const NotApplicable: string := "N/A"

  /** `<dir>/.git` exists and is a directory. */
  predicate HasGitMarker(dir: string, fs: FileSystem) {
    IsDirectory(fs, JoinPath(dir, ".git"))
  }

  /**
   * IsRepo: false for any directory ValidateDir refuses; true when
   * `<cleaned>/.git` is a directory; otherwise whatever `git rev-parse
   * --git-dir` says.
   */
  function IsRepo(dir: string, fs: FileSystem, git: GitOracle): (r: bool)
    ensures ValidateDir(dir, fs).Err? ==> !r
    ensures dir == "" ==> !r
    ensures ValidateDir(dir, fs).Ok? && HasGitMarker(ValidateDir(dir, fs).value, fs) ==> r
    ensures ValidateDir(dir, fs).Ok? && !HasGitMarker(ValidateDir(dir, fs).value, fs) ==>
              (r <==> ValidateDir(dir, fs).value in git.revParseOk)
  {
    match ValidateDir(dir, fs)
    case Err(_) => false
    case Ok(cleaned) => HasGitMarker(cleaned, fs) || cleaned in git.revParseOk
  }

  /** When the marker directory is there, the answer does not depend on git at all. */
  lemma IsRepoWithoutGit(dir: string, fs: FileSystem, git1: GitOracle, git2: GitOracle)
    requires ValidateDir(dir, fs).Ok? && HasGitMarker(ValidateDir(dir, fs).value, fs)
    ensures IsRepo(dir, fs, git1) && IsRepo(dir, fs, git2)
  {
  }

  /**
   * The repository name in a trimmed remote URL: the text after its last '/',
   * less one trailing ".git". strings.Split never returns an empty slice, so
   * the source's `len(parts) == 0` branch cannot be taken. The name is a single
   * path element.
   */
  function NameFromUrl(url: string): (name: string)
    ensures '/' !in name
  {
    var parts := SplitOn(url, '/');
    var last := parts[|parts| - 1];
    var name := TrimSuffix(last, ".git");
    assert last == name + ".git" || last == name;
    name
  }

  /** The name carried by the output of the remote-URL query, trimmed first. */
  function RepoNameFromUrl(output: string): (name: string)
    ensures '/' !in name
  {
    NameFromUrl(TrimSpace(output))
  }

  lemma NoSlashInGitName(name: string)
    requires '/' !in name
    ensures '/' !in name + ".git"
  {
    assert forall i :: 0 <= i < 4 ==> ".git"[i] != '/';
  }

  /** The name is the text after the last '/', less one ".git" when it ends so. */
  lemma NameFromUrlLast(prefix: string, last: string)
    requires '/' !in last
    ensures NameFromUrl(prefix + ['/'] + last) == TrimSuffix(last, ".git")
  {
    LastOfSplit(prefix, last, '/');
  }

  /** `<prefix>/<name>.git` names `<name>`, whatever the prefix holds. */
  lemma NameFromUrlOf(prefix: string, name: string)
    requires '/' !in name
    ensures NameFromUrl(prefix + ['/'] + (name + ".git")) == name
  {
    NoSlashInGitName(name);
    NameFromUrlLast(prefix, name + ".git");
    TrimSuffixOf(name, ".git");
  }

  /** A URL whose last element does not end in ".git" names that element unchanged. */
  lemma NameFromUrlWithoutSuffix(output: string)
    requires output == "https://host/org/tool"
    ensures NameFromUrl(output) == "tool"
  {
    assert output == "https://host/org" + ['/'] + "tool";
    NameFromUrlLast("https://host/org", "tool");
    assert !HasSuffix("tool", ".git");
  }

  /** A URL `<prefix>/<name>.git`, with any surrounding white space, names `<name>`. */
  lemma RepoNameOfUrl(pre: string, prefix: string, name: string, post: string)
    requires AllSpace(pre) && AllSpace(post)
    requires prefix == [] || !IsSpace(prefix[0])
    requires '/' !in name
    ensures RepoNameFromUrl(pre + (prefix + ['/'] + (name + ".git")) + post) == name
  {
    var url := prefix + ['/'] + (name + ".git");
    assert IsTrimmed(url) by {
      assert url[|url| - 1] == 't';
      assert url[0] == if prefix == [] then '/' else prefix[0];
    }
    TrimSpacePadding(pre, url, post);
    NameFromUrlOf(prefix, name);
  }

  /** A typical SSH remote: `git@host:org/repo-a.git` names `repo-a`. */
  lemma RepoNameExample(output: string)
    requires output == "git@host:org/repo-a.git\n"
    ensures RepoNameFromUrl(output) == "repo-a"
  {
    assert output == "" + ("git@host:org" + ['/'] + ("repo-a" + ".git")) + "\n";
    RepoNameOfUrl("", "git@host:org", "repo-a", "\n");
  }

  /** Only one ".git" is removed: `<prefix>/<name>.git.git` names `<name>.git`. */
  lemma RepoNameStripsOneSuffix(prefix: string, name: string)
    requires '/' !in name
    ensures NameFromUrl(prefix + ['/'] + (name + ".git.git")) == name + ".git"
  {
    assert name + ".git.git" == (name + ".git") + ".git";
    NameFromUrlLast(prefix, name + ".git.git");
    TrimSuffixOf(name + ".git", ".git");
  }

  /**
   * GetRepoName: the base name of the raw argument when ValidateDir refuses it;
   * the name in the `origin` URL when that query succeeds with output; the base
   * name of the validated directory otherwise.
   */
  function GetRepoName(dir: string, fs: FileSystem, git: GitOracle): (r: string)
    ensures r == "/" || '/' !in r
    ensures ValidateDir(dir, fs).Err? ==> r == Base(dir)
    ensures ValidateDir(dir, fs).Ok? ==>
              var cleaned := ValidateDir(dir, fs).value;
              if cleaned in git.originUrl && git.originUrl[cleaned] != "" then r == RepoNameFromUrl(git.originUrl[cleaned])
              else r == Base(cleaned)
  {
    match ValidateDir(dir, fs)
    case Err(_) => Base(dir)
    case Ok(cleaned) =>
      if cleaned in git.originUrl && |git.originUrl[cleaned]| > 0 then RepoNameFromUrl(git.originUrl[cleaned])
      else Base(cleaned)
  }

  /** An `origin` URL `<prefix>/<name>.git`, with any surrounding white space, names the repository `<name>`. */
  lemma GetRepoNameOfUrl(dir: string, fs: FileSystem, git: GitOracle, pre: string, prefix: string, name: string, post: string)
    requires ValidateDir(dir, fs).Ok?
    requires AllSpace(pre) && AllSpace(post)
    requires prefix == [] || !IsSpace(prefix[0])
    requires '/' !in name
    requires var cleaned := ValidateDir(dir, fs).value;
             cleaned in git.originUrl && git.originUrl[cleaned] == pre + (prefix + ['/'] + (name + ".git")) + post
    ensures GetRepoName(dir, fs, git) == name
  {
    RepoNameOfUrl(pre, prefix, name, post);
  }

  /** Without a usable `origin` URL the name is the validated directory's last element. */
  lemma GetRepoNameFallback(dir: string, fs: FileSystem, git: GitOracle, parent: string, name: string)
    requires ValidateDir(dir, fs).Ok? && ValidateDir(dir, fs).value == parent + "/" + name
    requires name != [] && '/' !in name
    requires parent + "/" + name !in git.originUrl || git.originUrl[parent + "/" + name] == ""
    ensures GetRepoName(dir, fs, git) == name
  {
    BaseOfChild(parent, name);
  }

  /**
   * GetBranch: "N/A" when ValidateDir refuses the directory or the branch
   * query fails, and the query's trimmed output otherwise; never an error.
   */
  function GetBranch(dir: string, fs: FileSystem, git: GitOracle): (r: string)
    ensures IsTrimmed(r)
    ensures ValidateDir(dir, fs).Err? ==> r == NotApplicable
    ensures ValidateDir(dir, fs).Ok? && ValidateDir(dir, fs).value !in git.headRef ==> r == NotApplicable
    ensures ValidateDir(dir, fs).Ok? && ValidateDir(dir, fs).value in git.headRef ==>
              r == TrimSpace(git.headRef[ValidateDir(dir, fs).value])
  {
    match ValidateDir(dir, fs)
    case Err(_) => NotApplicable
    case Ok(cleaned) =>
      if cleaned !in git.headRef then NotApplicable
      else
        var branch := TrimSpace(git.headRef[cleaned]);
        assert IsTrimmed(branch);
        branch
  }

  /** The branch git prints, with any white space around it (its newline), is reported as printed. */
  lemma GetBranchOfOutput(dir: string, fs: FileSystem, git: GitOracle, pre: string, branch: string, post: string)
    requires ValidateDir(dir, fs).Ok?
    requires AllSpace(pre) && AllSpace(post) && IsTrimmed(branch)
    requires var cleaned := ValidateDir(dir, fs).value; cleaned in git.headRef && git.headRef[cleaned] == pre + branch + post
    ensures GetBranch(dir, fs, git) == branch
  {
    TrimSpacePadding(pre, branch, post);
  }
}
