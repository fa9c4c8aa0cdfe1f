/**
 * The second pass of FindServers (internal/detector/detector.go): joining each
 * collected process with its working directory and the two git caches,
 * keeping only processes inside git repositories, and dropping every server
 * whose `repo|branch|command|port` key was already emitted.
 */
module Correlation {
  import opened Wrappers
  import opened Text
  import opened Listing
  import opened Types

  /** gitInfo: what batchGetGitInfo caches per directory. */
  datatype GitInfo = GitInfo(repo: string, branch: string)

  /** The three lookups the second pass consults. */
  datatype Caches = Caches(
    /** batchGetProcessCWDs' result */
    cwdMap: map<int, string>,
    /** batchCheckGitRepos' result; a missing directory reads as false */
    repoCache: map<string, bool>,
    /** batchGetGitInfo's result */
    infoCache: map<string, GitInfo>)

  /** fmt.Sprintf("%s|%s|%s|%d", repo, branch, command, port). */
  function ServerKey(repo: string, branch: string, command: string, port: int): string {
    repo + "|" + branch + "|" + command + "|" + IntToString(port)
  }

  /**
   * The key is the four values joined by '|': splitting it at '|' gives them
   * back whenever the three strings hold no '|' of their own.
   */
  lemma ServerKeyFields(repo: string, branch: string, command: string, port: int)
    requires '|' !in repo && '|' !in branch && '|' !in command
    ensures SplitOn(ServerKey(repo, branch, command, port), '|') == [repo, branch, command, IntToString(port)]
  {
    var n := IntToString(port);
    IntToStringDigits(port);
    forall k | 0 <= k < |n|
      ensures n[k] != '|'
    {
      if port >= 0 || k > 0 {
        assert IsDigit(n[k]);
      }
    }
    var parts := [repo, branch, command, n];
    assert parts[3..] == [n];
    assert JoinOn(parts[2..], '|') == command + ['|'] + n;
    assert JoinOn(parts[1..], '|') == branch + ['|'] + (command + ['|'] + n);
    assert JoinOn(parts, '|') == ServerKey(repo, branch, command, port);
    SplitOfJoin(parts, '|');
  }

  /**
   * The converse of KeyCollision: when repository, branch and command hold no
   * '|', equal keys come from equal values.
   */
  lemma ServerKeyInjective(r1: string, b1: string, c1: string, p1: int, r2: string, b2: string, c2: string, p2: int)
    requires '|' !in r1 && '|' !in b1 && '|' !in c1 && '|' !in r2 && '|' !in b2 && '|' !in c2
    requires MinInt64 <= p1 <= MaxInt64 && MinInt64 <= p2 <= MaxInt64
    requires ServerKey(r1, b1, c1, p1) == ServerKey(r2, b2, c2, p2)
    ensures r1 == r2 && b1 == b2 && c1 == c2 && p1 == p2
  {
    ServerKeyFields(r1, b1, c1, p1);
    ServerKeyFields(r2, b2, c2, p2);
    AtoiOfIntToString(p1);
    AtoiOfIntToString(p2);
  }

  function KeyOf(s: Server): string {
    ServerKey(s.repo, s.branch, s.process, s.port)
  }

  /** The keys already emitted. */
  function Keys(servers: seq<Server>): set<string> {
    set s | s in servers :: KeyOf(s)
  }

  predicate UniqueKeys(servers: seq<Server>) {
    forall i, j :: 0 <= i < j < |servers| ==> KeyOf(servers[i]) != KeyOf(servers[j])
  }

  /**
   * `s` is the server the second pass builds for `p`: the process has a
   * non-empty directory, the directory is a cached repository with cached git
   * information, the server carries that information with the process's
   * command and port, and its PID is left at zero.
   */
  predicate Joined(s: Server, p: ProcessInfo, c: Caches) {
    && p.pid in c.cwdMap
    && s.cwd == c.cwdMap[p.pid]
    && s.cwd != ""
    && s.cwd in c.repoCache && c.repoCache[s.cwd]
    && s.cwd in c.infoCache && c.infoCache[s.cwd] == GitInfo(s.repo, s.branch)
    && s.process == p.command
    && s.port == p.port
    && s.pid == 0
  }

  /** The server one process yields, if it survives the three lookups. */
  function Candidate(p: ProcessInfo, c: Caches): (r: Option<Server>)
    ensures r.Some? ==> Joined(r.value, p, c)
    ensures r.None? ==> forall s :: !Joined(s, p, c)
  {
    if p.pid !in c.cwdMap then None
    else
      var cwd := c.cwdMap[p.pid];
      if cwd == "" then None
      else if !(cwd in c.repoCache && c.repoCache[cwd]) then None
      else if cwd !in c.infoCache then None
      else
        var info := c.infoCache[cwd];
        Some(Server(info.repo, info.branch, p.command, p.port, 0, cwd))
  }

  /** The servers the second pass appends, in process order, before sorting. */
  function Correlate(procs: seq<ProcessInfo>, c: Caches): (servers: seq<Server>)
    ensures |servers| <= |procs|
    ensures UniqueKeys(servers)
    decreases |procs|
  {
    if procs == [] then []
    else
      var prev := Correlate(procs[..|procs| - 1], c);
      match Candidate(procs[|procs| - 1], c)
      case None => prev
      case Some(s) =>
        if KeyOf(s) in Keys(prev) then prev
        else
          assert forall i :: 0 <= i < |prev| ==> KeyOf(prev[i]) in Keys(prev);
          prev + [s]
  }

  /** Every emitted server is the join of some collected process. */
  lemma {:induction false} CorrelateSound(procs: seq<ProcessInfo>, c: Caches, k: nat)
    requires k < |Correlate(procs, c)|
    ensures exists i :: 0 <= i < |procs| && Joined(Correlate(procs, c)[k], procs[i], c)
    decreases |procs|
  {
    var front := procs[..|procs| - 1];
    var last := |procs| - 1;
    var prev := Correlate(front, c);
    var all := Correlate(procs, c);
    if k < |prev| {
      assert all[k] == prev[k] by {
        match Candidate(procs[last], c)
        case None =>
        case Some(s) =>
      }
      CorrelateSound(front, c, k);
      var i :| 0 <= i < |front| && Joined(prev[k], front[i], c);
      assert procs[i] == front[i];
    } else {
      assert Candidate(procs[last], c) == Some(all[k]);
    }
  }

  /** Every server in the output is a candidate of one of the processes. */
  lemma CorrelateMember(procs: seq<ProcessInfo>, c: Caches, s: Server)
    requires s in Correlate(procs, c)
    ensures exists i :: 0 <= i < |procs| && Joined(s, procs[i], c)
  {
    var out := Correlate(procs, c);
    var k :| 0 <= k < |out| && out[k] == s;
    CorrelateSound(procs, c, k);
  }

  /** Earlier output is never revised: the output for a prefix of the processes is a prefix of the output. */
  lemma {:induction false} CorrelateGrows(procs: seq<ProcessInfo>, c: Caches, n: nat)
    requires n <= |procs|
    ensures Correlate(procs[..n], c) <= Correlate(procs, c)
    decreases |procs| - n
  {
    if n < |procs| {
      var next := procs[..n + 1];
      assert next[..n] == procs[..n];
      CorrelateGrows(procs, c, n + 1);
      assert Correlate(procs[..n], c) <= Correlate(next, c);
    } else {
      assert procs[..n] == procs;
    }
  }

  /** Every emitted key is the key of some process's candidate. */
  lemma {:induction false} KeysFromCandidates(procs: seq<ProcessInfo>, c: Caches, key: string)
    requires key in Keys(Correlate(procs, c))
    ensures exists i :: 0 <= i < |procs| && Candidate(procs[i], c).Some? && KeyOf(Candidate(procs[i], c).value) == key
  {
    var out := Correlate(procs, c);
    var s :| s in out && KeyOf(s) == key;
    var k :| 0 <= k < |out| && out[k] == s;
    CorrelateSound(procs, c, k);
    var i :| 0 <= i < |procs| && Joined(s, procs[i], c);
    assert Candidate(procs[i], c) == Some(s);
  }

  lemma NoCandidateNoKey(procs: seq<ProcessInfo>, c: Caches, key: string)
    requires forall j :: 0 <= j < |procs| && Candidate(procs[j], c).Some? ==> KeyOf(Candidate(procs[j], c).value) != key
    ensures key !in Keys(Correlate(procs, c))
  {
    if key in Keys(Correlate(procs, c)) {
      KeysFromCandidates(procs, c, key);
    }
  }

  /** Completeness: the key of every process that survives the lookups is emitted. */
  lemma CorrelateComplete(procs: seq<ProcessInfo>, c: Caches, i: nat)
    requires i < |procs| && Candidate(procs[i], c).Some?
    ensures KeyOf(Candidate(procs[i], c).value) in Keys(Correlate(procs, c))
  {
    var s := Candidate(procs[i], c).value;
    var upto := procs[..i + 1];
    assert upto[..i] == procs[..i];
    CorrelateGrows(procs, c, i + 1);
    var out := Correlate(upto, c);
    if KeyOf(s) !in Keys(Correlate(procs[..i], c)) {
      assert out[|out| - 1] == s;
    }
    assert Keys(out) <= Keys(Correlate(procs, c));
  }

  /**
   * The first process with a given key wins: a candidate whose key no earlier
   * candidate has is emitted as it is.
   */
  lemma KeepsFirstOccurrence(procs: seq<ProcessInfo>, c: Caches, i: nat)
    requires i < |procs| && Candidate(procs[i], c).Some?
    requires forall j :: 0 <= j < i && Candidate(procs[j], c).Some? ==>
               KeyOf(Candidate(procs[j], c).value) != KeyOf(Candidate(procs[i], c).value)
    ensures Candidate(procs[i], c).value in Correlate(procs, c)
  {
    var s := Candidate(procs[i], c).value;
    var upto := procs[..i + 1];
    assert upto[..i] == procs[..i];
    forall j | 0 <= j < i && Candidate(procs[..i][j], c).Some?
      ensures KeyOf(Candidate(procs[..i][j], c).value) != KeyOf(s)
    {
      assert procs[..i][j] == procs[j];
    }
    NoCandidateNoKey(procs[..i], c, KeyOf(s));
    var out := Correlate(upto, c);
    assert out[|out| - 1] == s;
    CorrelateGrows(procs, c, i + 1);
  }

  /**
   * Keys of the form "%s|%s|..." can collide: moving a '|' between the repo
   * and the branch gives different servers with the same key, and the second
   * of them is dropped.
   */
  lemma KeyCollision(a: string, b: string, d: string, command: string, port: int, cwd: string)
    ensures KeyOf(Server(a + "|" + b, d, command, port, 0, cwd)) == KeyOf(Server(a, b + "|" + d, command, port, 0, cwd))
  {
  }

  /**
   * Two processes in different directories, only the first of them a
   * repository: exactly the first process is reported, with its repository
   * information.
   */
  lemma OnlyRepoDirectoryReported(p1: ProcessInfo, p2: ProcessInfo, d1: string, d2: string, info: GitInfo, c: Caches)
    requires p1.pid in c.cwdMap && c.cwdMap[p1.pid] == d1 && d1 != ""
    requires p2.pid in c.cwdMap && c.cwdMap[p2.pid] == d2
    requires d1 in c.repoCache && c.repoCache[d1] && d1 in c.infoCache && c.infoCache[d1] == info
    requires d2 in c.repoCache && !c.repoCache[d2]
    ensures Correlate([p1, p2], c) == [Server(info.repo, info.branch, p1.command, p1.port, 0, d1)]
  {
    assert [p1, p2][..1] == [p1];
    assert [p1][..0] == [];
    assert Candidate(p2, c).None?;
  }

  /** Forked workers with the same directory, command and port yield a single server. */
  lemma ForkedWorkersOneEntry(p1: ProcessInfo, p2: ProcessInfo, c: Caches)
    requires Candidate(p1, c).Some?
    requires p2.pid in c.cwdMap && c.cwdMap[p2.pid] == c.cwdMap[p1.pid]
    requires p2.command == p1.command && p2.port == p1.port
    ensures Correlate([p1, p2], c) == [Candidate(p1, c).value]
  {
    assert [p1, p2][..1] == [p1];
    assert [p1][..0] == [];
    assert KeyOf(Candidate(p2, c).value) == KeyOf(Candidate(p1, c).value);
  }

  /** Two positions holding the same value make it occur twice. */
  lemma {:induction false} RepeatCounts(t: seq<Server>, i: nat, j: nat)
    requires i < j < |t| && t[i] == t[j]
    ensures multiset(t)[t[i]] >= 2
  {
    assert t == t[..j] + [t[j]] + t[j + 1..];
    assert t[i] in t[..j];
    assert multiset(t[..j])[t[i]] >= 1;
  }

  /** A value that occurs twice sits at two positions. */
  lemma {:induction false} CountsRepeat(s: seq<Server>, x: Server)
    requires multiset(s)[x] >= 2
    ensures exists i, j :: 0 <= i < j < |s| && s[i] == x && s[j] == x
    decreases |s|
  {
    if s[0] == x {
      assert s == [s[0]] + s[1..];
      assert multiset(s[1..])[x] >= 1;
      assert x in s[1..];
      var k :| 0 <= k < |s[1..]| && s[1..][k] == x;
      assert s[k + 1] == x;
    } else {
      assert s == [s[0]] + s[1..];
      assert multiset(s[1..])[x] >= 2;
      CountsRepeat(s[1..], x);
      var i, j :| 0 <= i < j < |s[1..]| && s[1..][i] == x && s[1..][j] == x;
      assert s[i + 1] == x && s[j + 1] == x;
    }
  }

  /** Reordering a list with unique keys keeps them unique. */
  lemma UniqueKeysPermutation(s: seq<Server>, t: seq<Server>)
    requires multiset(s) == multiset(t) && UniqueKeys(s)
    ensures UniqueKeys(t)
  {
    forall i, j | 0 <= i < j < |t|
      ensures KeyOf(t[i]) != KeyOf(t[j])
    {
      if t[i] == t[j] {
        RepeatCounts(t, i, j);
        CountsRepeat(s, t[i]);
      } else {
        assert t[i] in multiset(s) && t[j] in multiset(s);
        var p :| 0 <= p < |s| && s[p] == t[i];
        var q :| 0 <= q < |s| && s[q] == t[j];
      }
    }
  }

  /** The second-pass loop, with the set of keys seen so far. */
  method BuildServers(procs: seq<ProcessInfo>, c: Caches) returns (servers: seq<Server>)
    ensures servers == Correlate(procs, c)
  {
    var seen: set<string> := {};
    servers := [];
    var i := 0;
    while i < |procs|
      invariant 0 <= i <= |procs|
      invariant servers == Correlate(procs[..i], c)
      invariant seen == Keys(servers)
    {
      assert procs[..i + 1][..i] == procs[..i];
      var proc := procs[i];
      i := i + 1;
      if proc.pid !in c.cwdMap || c.cwdMap[proc.pid] == "" {
        continue;
      }
      var cwd := c.cwdMap[proc.pid];
      if !(cwd in c.repoCache && c.repoCache[cwd]) {
        continue;
      }
      if cwd !in c.infoCache {
        continue;
      }
      var info := c.infoCache[cwd];
      var key := ServerKey(info.repo, info.branch, proc.command, proc.port);
      if key in seen {
        continue;
      }
      seen := seen + {key};
      var server := Server(info.repo, info.branch, proc.command, proc.port, 0, cwd);
      servers := servers + [server];
    }
    assert procs[..|procs|] == procs;
  }
}
