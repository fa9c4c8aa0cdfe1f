/**
 * FindServers (internal/detector/detector.go): the listing pass, the batched
 * directory and git lookups, the correlation pass and the sort, end to end.
 */
module Detector {
  import opened Wrappers
  import opened Text
  import opened Platform
  import opened FilePath
  import opened Git
  import opened Host
  import opened Listing
  import opened Cwd
  import opened Types
  import opened Correlation
  import opened Ordering

  datatype FindError = ListingFailed

  /** getGitInfoParallel: the repository name and the branch of one directory. */
  function GitInfoOf(dir: string, host: Host): (info: GitInfo)
    ensures ValidateDir(dir, host.fs).Err? ==> info == GitInfo(Base(dir), NotApplicable)
    ensures info.repo == "/" || '/' !in info.repo
    ensures IsTrimmed(info.branch)
  {
    GitInfo(GetRepoName(dir, host.fs, host.git), GetBranch(dir, host.fs, host.git))
  }

  // ---------------------------------------------------------------------------
  // The sets and caches between the two passes
  // ---------------------------------------------------------------------------

  /** The distinct non-empty directories of the cwd map. */
  function UniqueCwds(cwdMap: map<int, string>): set<string> {
    set p | p in cwdMap && cwdMap[p] != "" :: cwdMap[p]
  }

  /** The directories a cache marks as repositories. */
  function RepoDirs(cache: map<string, bool>): set<string> {
    set d | d in cache && cache[d]
  }

  /** The loop that gathers the distinct non-empty directories. */
  method CollectUniqueCwds(cwdMap: map<int, string>) returns (dirs: set<string>)
    ensures dirs == UniqueCwds(cwdMap)
  {
    dirs := {};
    var remaining := cwdMap.Keys;
    while remaining != {}
      invariant remaining <= cwdMap.Keys
      invariant dirs == set p | p in cwdMap && p !in remaining && cwdMap[p] != "" :: cwdMap[p]
      decreases remaining
    {
      // The loop guard says `remaining` is not empty; this spells out that it
      // therefore has an element, which the choice below needs.
      if forall x :: x !in remaining {
        assert false;
      }
      var pid :| pid in remaining;
      if cwdMap[pid] != "" {
        dirs := dirs + {cwdMap[pid]};
      }
      remaining := remaining - {pid};
    }
  }

  /** The loop that keeps the directories the repository check accepted. */
  method CollectRepoDirs(cache: map<string, bool>) returns (dirs: set<string>)
    ensures dirs == RepoDirs(cache)
  {
    dirs := {};
    var remaining := cache.Keys;
    while remaining != {}
      invariant remaining <= cache.Keys
      invariant dirs == set d | d in cache && d !in remaining && cache[d]
      decreases remaining
    {
      // The loop guard says `remaining` is not empty; this spells out that it
      // therefore has an element, which the choice below needs.
      if forall x :: x !in remaining {
        assert false;
      }
      var dir :| dir in remaining;
      if cache[dir] {
        dirs := dirs + {dir};
      }
      remaining := remaining - {dir};
    }
  }

  /**
   * batchCheckGitRepos: one entry per directory, each IsRepo's answer. The
   * goroutines each write their own key, so after the barrier the map is the
   * one a sequential loop builds.
   */
  method BatchCheckGitRepos(dirs: set<string>, host: Host) returns (results: map<string, bool>)
    ensures results.Keys == dirs
    ensures forall d :: d in results ==> results[d] == IsRepo(d, host.fs, host.git)
    ensures results == RepoCache(dirs, host)
  {
    results := map[];
    var remaining := dirs;
    while remaining != {}
      invariant remaining <= dirs
      invariant results.Keys == dirs - remaining
      invariant forall d :: d in results ==> results[d] == IsRepo(d, host.fs, host.git)
      decreases remaining
    {
      // The loop guard says `remaining` is not empty; this spells out that it
      // therefore has an element, which the choice below needs.
      if forall x :: x !in remaining {
        assert false;
      }
      var dir :| dir in remaining;
      results := results[dir := IsRepo(dir, host.fs, host.git)];
      remaining := remaining - {dir};
    }
  }

  /** batchGetGitInfo: one entry per directory, each its repository name and branch. */
  method BatchGetGitInfo(dirs: set<string>, host: Host) returns (results: map<string, GitInfo>)
    ensures results.Keys == dirs
    ensures forall d :: d in results ==> results[d] == GitInfoOf(d, host)
    ensures results == InfoCache(dirs, host)
  {
    results := map[];
    var remaining := dirs;
    while remaining != {}
      invariant remaining <= dirs
      invariant results.Keys == dirs - remaining
      invariant forall d :: d in results ==> results[d] == GitInfoOf(d, host)
      decreases remaining
    {
      // The loop guard says `remaining` is not empty; this spells out that it
      // therefore has an element, which the choice below needs.
      if forall x :: x !in remaining {
        assert false;
      }
      var dir :| dir in remaining;
      results := results[dir := GitInfoOf(dir, host)];
      remaining := remaining - {dir};
    }
  }

  // ---------------------------------------------------------------------------
  // The whole pipeline
  // ---------------------------------------------------------------------------

  /** What batchCheckGitRepos builds for a set of directories. */
  function RepoCache(dirs: set<string>, host: Host): map<string, bool> {
    map d | d in dirs :: IsRepo(d, host.fs, host.git)
  }

  /** What batchGetGitInfo builds for a set of directories. */
  function InfoCache(dirs: set<string>, host: Host): map<string, GitInfo> {
    map d | d in dirs :: GitInfoOf(d, host)
  }

  /** The caches the second pass consults, for the collected processes. */
  function CachesFor(procs: seq<ProcessInfo>, host: Host): Caches {
    var cwdMap := Cwds(PidsOf(procs), host);
    var repoCache := RepoCache(UniqueCwds(cwdMap), host);
    Caches(cwdMap, repoCache, InfoCache(RepoDirs(repoCache), host))
  }

  /** The processes the first pass collects from a listing. */
  function ProcsOf(listing: string): seq<ProcessInfo> {
    ListenerRecords(ScanLines(listing))
  }

  /** The servers FindServers reports for a listing, before sorting. */
  function Pipeline(listing: string, host: Host): seq<Server> {
    Correlate(ProcsOf(listing), CachesFor(ProcsOf(listing), host))
  }

  /**
   * `s` is what lsrv reports for process `p`: the process's directory is a
   * git repository, and the server names that repository, its branch, the
   * process's command and port, and that directory.
   */
  predicate Reports(s: Server, p: ProcessInfo, cwdMap: map<int, string>, host: Host) {
    && p.pid in cwdMap
    && s.cwd == cwdMap[p.pid]
    && s.cwd != ""
    && IsRepo(s.cwd, host.fs, host.git)
    && s.repo == GetRepoName(s.cwd, host.fs, host.git)
    && s.branch == GetBranch(s.cwd, host.fs, host.git)
    && s.process == p.command
    && s.port == p.port
    && s.pid == 0
  }

  lemma JoinedReports(s: Server, p: ProcessInfo, procs: seq<ProcessInfo>, host: Host)
    requires Joined(s, p, CachesFor(procs, host))
    ensures Reports(s, p, Cwds(PidsOf(procs), host), host)
  {
    var c := CachesFor(procs, host);
    assert s.cwd in RepoDirs(c.repoCache);
  }

  /** A process's non-empty directory that is a repository is found in both git caches. */
  lemma CachesForRepo(procs: seq<ProcessInfo>, host: Host, pid: int, cwd: string)
    requires pid in CachesFor(procs, host).cwdMap && cwd == CachesFor(procs, host).cwdMap[pid]
    requires cwd != "" && IsRepo(cwd, host.fs, host.git)
    ensures cwd in CachesFor(procs, host).repoCache && CachesFor(procs, host).repoCache[cwd]
    ensures cwd in CachesFor(procs, host).infoCache && CachesFor(procs, host).infoCache[cwd] == GitInfoOf(cwd, host)
  {
    var c := CachesFor(procs, host);
    assert cwd in UniqueCwds(c.cwdMap);
    assert cwd in RepoDirs(c.repoCache);
  }

  /** The listing line a reported server comes from. */
  lemma SourceLine(lines: seq<string>, host: Host, s: Server) returns (j: nat)
    requires s in Correlate(ListenerRecords(lines), CachesFor(ListenerRecords(lines), host))
    ensures j < |lines| && ParseListenerLine(lines[j]).Some?
    ensures Reports(s, ParseListenerLine(lines[j]).value, Cwds(PidsOf(ListenerRecords(lines)), host), host)
  {
    var procs := ListenerRecords(lines);
    var c := CachesFor(procs, host);
    CorrelateMember(procs, c, s);
    var i :| 0 <= i < |procs| && Joined(s, procs[i], c);
    JoinedReports(s, procs[i], procs, host);
    ListenerRecordsOrigin(lines, i);
    j :| 0 <= j < |lines| && ParseListenerLine(lines[j]) == Some(procs[i]);
  }

  /**
   * Soundness: every reported server comes from a line of the listing that
   * passes the first-pass filter, and reports that process's directory,
   * repository and branch.
   */
  lemma PipelineSound(listing: string, host: Host, s: Server)
    requires s in Pipeline(listing, host)
    ensures exists j :: 0 <= j < |ScanLines(listing)| && ParseListenerLine(ScanLines(listing)[j]).Some?
              && Reports(s, ParseListenerLine(ScanLines(listing)[j]).value, Cwds(PidsOf(ListenerRecords(ScanLines(listing))), host), host)
  {
    var j := SourceLine(ScanLines(listing), host, s);
  }

  /**
   * Completeness: a collected process whose directory is a git repository is
   * reported, up to the deduplication key.
   */
  lemma PipelineComplete(listing: string, host: Host, i: nat, cwd: string)
    requires i < |ProcsOf(listing)|
    requires ProcsOf(listing)[i].pid in Cwds(PidsOf(ProcsOf(listing)), host)
    requires cwd == Cwds(PidsOf(ProcsOf(listing)), host)[ProcsOf(listing)[i].pid]
    requires cwd != "" && IsRepo(cwd, host.fs, host.git)
    ensures ServerKey(GetRepoName(cwd, host.fs, host.git), GetBranch(cwd, host.fs, host.git),
                      ProcsOf(listing)[i].command, ProcsOf(listing)[i].port)
            in Keys(Pipeline(listing, host))
  {
    var procs := ProcsOf(listing);
    var c := CachesFor(procs, host);
    CachesForRepo(procs, host, procs[i].pid, cwd);
    var s := Candidate(procs[i], c).value;
    assert KeyOf(s) == ServerKey(GetRepoName(cwd, host.fs, host.git), GetBranch(cwd, host.fs, host.git),
                                 procs[i].command, procs[i].port);
    CorrelateComplete(procs, c, i);
  }

  /** A directory that is not a git repository contributes no server, however many processes run there. */
  lemma NonRepoContributesNothing(listing: string, host: Host, s: Server)
    requires s in Pipeline(listing, host)
    ensures IsRepo(s.cwd, host.fs, host.git)
  {
    PipelineSound(listing, host, s);
  }

  /**
   * A repository whose branch query fails is still reported, under the "N/A"
   * branch label.
   */
  lemma BranchFailureStillReported(listing: string, host: Host, i: nat, cwd: string)
    requires i < |ProcsOf(listing)|
    requires ProcsOf(listing)[i].pid in Cwds(PidsOf(ProcsOf(listing)), host)
    requires cwd == Cwds(PidsOf(ProcsOf(listing)), host)[ProcsOf(listing)[i].pid]
    requires cwd != "" && IsRepo(cwd, host.fs, host.git)
    requires ValidateDir(cwd, host.fs).value !in host.git.headRef
    ensures ServerKey(GetRepoName(cwd, host.fs, host.git), NotApplicable, ProcsOf(listing)[i].command, ProcsOf(listing)[i].port)
            in Keys(Pipeline(listing, host))
  {
    PipelineComplete(listing, host, i, cwd);
  }

  /** sort.Slice on the collected servers. */
  method SortedServers(servers: seq<Server>) returns (sorted: seq<Server>)
    ensures Sorted(sorted)
    ensures multiset(sorted) == multiset(servers)
  {
    var a := new Server[|servers|](i requires 0 <= i < |servers| => servers[i]);
    assert a[..] == servers;
    SortServers(a);
    sorted := a[..];
  }

  /**
   * FindServers: an error exactly when the lsof listing fails; otherwise the
   * pipeline's servers, sorted by repository, branch and port, with no key
   * twice and no more servers than collected processes.
   */
  method FindServers(host: Host) returns (r: Result<seq<Server>, FindError>)
    ensures r.Err? <==> host.listing.None?
    ensures r.Ok? ==> Sorted(r.value)
    ensures r.Ok? ==> multiset(r.value) == multiset(Pipeline(host.listing.value, host))
    ensures r.Ok? ==> UniqueKeys(r.value)
    ensures r.Ok? ==> |r.value| <= |ProcsOf(host.listing.value)|
  {
    if host.listing.None? {
      return Err(ListingFailed);
    }
    var lines := ScanLines(host.listing.value);
    var processes, pids := CollectListeners(lines);
    var cwdMap := BatchGetProcessCwds(pids, host);
    var uniqueCwds := CollectUniqueCwds(cwdMap);
    var gitRepoCache := BatchCheckGitRepos(uniqueCwds, host);
    var gitRepoDirs := CollectRepoDirs(gitRepoCache);
    var gitInfoCache := BatchGetGitInfo(gitRepoDirs, host);
    var caches := Caches(cwdMap, gitRepoCache, gitInfoCache);
    assert caches == CachesFor(processes, host);
    var servers := BuildServers(processes, caches);
    var sorted := SortedServers(servers);
    UniqueKeysPermutation(servers, sorted);
    assert |sorted| == |multiset(sorted)| == |multiset(servers)| == |servers|;
    r := Ok(sorted);
  }
}
