# lsrv discovery pipeline in Dafny

lsrv lists the development servers running on a workstation. It reads the TCP
listening sockets that `lsof` reports and finds each listening process's working
directory. It keeps only processes inside a git repository, names each one by
repository, branch, command and port, and prints the result deduplicated and
sorted. This project models that pipeline as it is written in
`internal/detector/detector.go`, `internal/git/git.go` and
`internal/platform/platform.go`, and proves properties of it.

- `lsof`, `git`, `/proc`, `os.Stat` and `filepath.Abs` become oracle inputs. They are gathered
  in `Host.Host`, and git and the file system in `Git.GitOracle` and
  `Platform.FileSystem`. A command that exits non-zero is a key absent from the
  oracle's map, or `None` for the listing.
- The Go standard-library routines the code relies on are written out in
  `Text` and `FilePath`:
  - `strings.Fields`, `TrimSpace`, `Split`, `HasPrefix`, `TrimPrefix` and `TrimSuffix`;
  - `strconv.Atoi` and `Itoa`, and `bufio.ScanLines`;
  - Go's string `<`, `filepath.Base`, and `filepath.Join` for a clean directory.
- Characters are Unicode code points. Go compares UTF-8 bytes, and byte order and code-point order agree,
  so `Text.StrLess` is Go's `<`.
- Each Go file maps to modules:
  - `detector.go` becomes `Listing` (first pass), `Cwd` (working directories), `Correlation` (second
    pass and deduplication), `Ordering` (sort) and `Detector` (`FindServers` end to end).
  - `git.go` becomes `Git`.
  - `platform.go` becomes `Platform`.
  - `types.go` becomes `Types`.
- Imperative code stays imperative. The first-pass loop, the record scanner, the fallback loop, the
  map builders, the second-pass loop and the in-place sort are methods with
  loop invariants. Each method is proved against a specification: the loops are proved
  equal to specification functions, and the lemmas are about those functions; the in-place
  sort, `Detector.SortedServers` and `Detector.FindServers` are proved to give a sorted
  permutation (multiset equality) of their input.

## Model

| member | source | states |
|---|---|---|
| Platform.ValidatePid | internal/platform/platform.go:47-55 | passes exactly on 1..2147483647; pid <= 0 fails as not positive, pid > 2147483647 as exceeding the maximum |
| Platform.ValidateDir | internal/platform/platform.go:22-44 | "" fails before any file-system query; succeeds iff Abs succeeds and the absolute path is a directory, and then returns that path unchanged |
| FilePath.Base | internal/git/git.go:38 | filepath.Base is never empty and is either "/" or a single element without '/' |
| FilePath.BaseOfChild | internal/git/git.go:56 | the base name of `parent/name` is `name` |
| FilePath.JoinPath | internal/git/git.go:22 | joining a clean directory and ".git" puts exactly one '/' between them |
| Text.TrimSpace | internal/git/git.go:74 | the result is no longer than the input and starts and ends with non-space |
| Text.TrimSpacePadding | internal/git/git.go:45 | surrounding white space around a trimmed core is removed and the core kept |
| Text.TrimSpaceIdempotent | internal/git/git.go:74 | trimming twice is trimming once |
| Text.HasPrefixEach | internal/detector/detector.go:53 | HasPrefix holds exactly when the string agrees with the prefix character by character |
| Text.TrimPrefix | internal/detector/detector.go:278-285 | with the prefix present the result is the text after it; otherwise the string is unchanged |
| Text.TrimSuffix | internal/git/git.go:52 | with the suffix present the result is the text before it, so one occurrence is removed; otherwise the string is unchanged |
| Text.Fields | internal/detector/detector.go:57 | every field is non-empty and has no white space |
| Text.FieldsOfJoin | internal/detector/detector.go:57 | Fields of words joined by single spaces gives back the words |
| Text.FieldsAfterSpaces | internal/detector/detector.go:57 | leading spaces, however many, add no field |
| Text.FieldsOfPadded | internal/detector/detector.go:57 | Fields of words laid out in columns padded by any runs of spaces, with any leading padding, gives back the words |
| Text.FieldsOfPaddedStep | internal/detector/detector.go:57 | the first column of a padded layout, after any leading padding, is its first field |
| Text.PaddedLast | internal/detector/detector.go:57 | a padded layout is the layout of all but its last column, then that column's padding and word |
| Text.PaddedSnoc | internal/detector/detector.go:57 | a padded layout with one more column is the old layout, its padding and the new word |
| Text.NoCharInPadded | internal/detector/detector.go:57 | a character in no word and not a space is not in their padded layout |
| Text.SplitOn | internal/git/git.go:47-50 | strings.Split returns at least one part and no part holds the separator, so `len(parts) == 0` is unreachable |
| Text.JoinOfSplit | internal/git/git.go:47 | joining the parts of a split with the separator gives back the string |
| Text.SplitOfJoin | internal/git/git.go:47 | splitting a separator-free join gives back the parts |
| Text.LastOfSplit | internal/detector/detector.go:179-181 | the last part after splitting `prefix + c + name` (no `c` in name) is `name` |
| Text.ScanLines | internal/detector/detector.go:45-47 | no scanned line holds a newline |
| Text.ScanLinesOfJoin | internal/detector/detector.go:45-47 | scanning newline-terminated lines gives back the lines |
| Text.Atoi | internal/detector/detector.go:71 | a converted value is within int64 and the text starts with a digit or a sign |
| Text.AtoiOfNatToString | internal/detector/detector.go:169 | Atoi inverts Itoa on every non-negative int64 |
| Text.NatToString | internal/detector/detector.go:262 | Itoa of a non-negative value is a non-empty run of ASCII digits, with no leading zero for a positive value |
| Text.IntToStringDigits | internal/detector/detector.go:136 | `%d` writes digits only, after a '-' for a negative value |
| Text.AtoiOfIntToString | internal/detector/detector.go:136 | Atoi reads back every int64 that `%d` writes, negative values included |
| Text.StrLessTotal | internal/detector/detector.go:152-160 | two distinct strings are ordered one way and never both ways |
| Text.StrLessTransitive | internal/detector/detector.go:152-160 | Go's string `<` is transitive |
| Git.IsRepo | internal/git/git.go:13-30 | false when ValidateDir refuses the directory (and so for ""); true when `<cleaned>/.git` is a directory; otherwise exactly whether `git rev-parse --git-dir` succeeds |
| Git.IsRepoWithoutGit | internal/git/git.go:22-25 | with the `.git` directory present the answer is true whatever git would say |
| Git.NameFromUrl | internal/git/git.go:47-52 | the name taken from a URL never contains '/' |
| Git.NameFromUrlLast | internal/git/git.go:47-52 | the name is the text after the last '/', less one trailing ".git" when it has one |
| Git.NameFromUrlWithoutSuffix | internal/git/git.go:51-52 | a URL whose last element has no ".git", `https://host/org/tool`, names that element unchanged |
| Git.RepoNameFromUrl | internal/git/git.go:44-52 | the name read from the query's output is a single path element, without '/' |
| Git.RepoNameOfUrl | internal/git/git.go:44-52 | the output `<ws><prefix>/<name>.git<ws>` names `<name>` |
| Git.RepoNameExample | internal/git/git.go:44-52 | `git@host:org/repo-a.git` followed by a newline names `repo-a` |
| Git.RepoNameStripsOneSuffix | internal/git/git.go:52 | only one ".git" is removed: for any prefix, `<prefix>/<name>.git.git` names `<name>.git` |
| Git.GetRepoName | internal/git/git.go:32-57 | an invalid directory gives the base name of the raw argument; a validated directory whose origin query prints something gives the name in that URL; otherwise the base name of the validated directory; the result is "/" or has no '/' |
| Git.GetRepoNameOfUrl | internal/git/git.go:32-52 | a validated directory whose origin URL is `<ws><prefix>/<name>.git<ws>` is named `<name>` |
| Git.GetRepoNameFallback | internal/git/git.go:55-56 | without a usable origin URL the name is the last element of the validated directory |
| Git.GetBranch | internal/git/git.go:59-75 | "N/A" when the directory is invalid or the query fails; otherwise exactly the query's output with surrounding white space trimmed; never an error |
| Git.GetBranchOfOutput | internal/git/git.go:74 | a branch printed with any surrounding white space, such as its newline, is reported as printed |
| Listing.IsDevPort | internal/detector/detector.go:192-206 | true iff port >= 3000 or port == 2000; false below 1024 and on 1024..2999 except 2000 |
| Listing.DigitRun | internal/detector/detector.go:21 | `\d+` takes the whole run of digits that starts at a position |
| Listing.RegexSpaceRun | internal/detector/detector.go:21 | `\s+` takes the whole run of `[\t\n\f\r ]` that starts at a position |
| Listing.MatchAt | internal/detector/detector.go:21 | a match of `:(\d+)\s+\(LISTEN\)` captures a non-empty run of digits |
| Listing.FindListen | internal/detector/detector.go:167 | the leftmost match's capture is a non-empty run of digits |
| Listing.AtoiOrZeroOf | internal/detector/detector.go:169-185 | a failed conversion gives port 0, a non-zero port is exactly Atoi's value, and the port is within int64 |
| Listing.FindListenSkipsMisses | internal/detector/detector.go:21 | the leftmost-match search passes over positions where no match starts |
| Listing.NoMatchInsideBrackets | internal/detector/detector.go:21 | no match starts inside a bracketed address: its digits run into a non-space |
| Listing.NoMatchBeforeBracketedPort | internal/detector/detector.go:21 | no match starts anywhere before the ']' of `[<address>]` |
| Listing.FindListenBracketed | internal/detector/detector.go:21 | on an IPv6 listener's line the leftmost match is the port after the ']' |
| Listing.ExtractPort | internal/detector/detector.go:165-190 | a regex match gives a non-negative port; no match and fewer than nine fields give 0 |
| Listing.FindListenSkips | internal/detector/detector.go:167 | no match can start before the first ':' |
| Listing.FindListenNoParen | internal/detector/detector.go:167-168 | a line without '(' has no match |
| Listing.MatchAtSound | internal/detector/detector.go:21 | conversely, a match at a position means a colon stands there followed by the maximal digit run, which is the capture, a non-empty `\s` run and `(LISTEN)` |
| Listing.MatchAtOf | internal/detector/detector.go:21 | a colon, a digit run, a `\s` run and `(LISTEN)` make a match that captures exactly the digit run |
| Listing.MatchAtListen | internal/detector/detector.go:21 | `:<digits> (LISTEN)` matches at its colon and captures the digits |
| Listing.ExtractPortOfListenLine | internal/detector/detector.go:166-173 | the port printed before " (LISTEN)" is extracted when no colon precedes it |
| Listing.ExtractPortOfBracketedListenLine | internal/detector/detector.go:165-174 | the port of `[<address>]:<port> (LISTEN)` is read back, the address's colons notwithstanding |
| Listing.ExtractPortOfLoopbackIPv6 | internal/detector/detector.go:165-174 | `[::1]:<port> (LISTEN)` gives its port |
| Listing.ExtractPortFromNinthField | internal/detector/detector.go:176-186 | without the marker, the port after the last ':' of the ninth field is extracted, whatever padding separates the columns |
| Listing.ParseListenerLine | internal/detector/detector.go:53-79 | the header and lines with fewer than nine fields yield nothing; a kept process has a non-zero dev port, a valid PID, and the first two fields as command and PID |
| Listing.NotHeader | internal/detector/detector.go:53 | a line whose first word is not the header's is not skipped as the header, whatever padding surrounds that word |
| Listing.ListenLineLayout | internal/detector/detector.go:57 | nine columns padded to any widths, then one space and the marker inside the NAME column, end in `<host>:<port> (LISTEN)` |
| Listing.ListenWords | internal/detector/detector.go:57 | such a padded line splits into its nine fields and the marker |
| Listing.ParseListenerLineRoundTrip | internal/detector/detector.go:51-86 | an IPv4 listening line lsof prints, its columns padded to any widths, is read back as its command, PID and port |
| Listing.ListenerRecords | internal/detector/detector.go:49-87 | at most one process per line, each with a non-zero dev port and a valid PID |
| Listing.ListenerRecordsAppend | internal/detector/detector.go:49-87 | the records of two stretches of lines concatenate |
| Listing.SkippedLineAddsNothing | internal/detector/detector.go:53-60 | a rejected line (header, short line, ...) changes nothing wherever it stands |
| Listing.ListenerRecordsOrigin | internal/detector/detector.go:49-87 | every collected process comes from a line of the listing |
| Listing.PidsOf | internal/detector/detector.go:86 | the PIDs of the processes, position by position |
| Listing.CollectListeners | internal/detector/detector.go:44-87 | the loop collects exactly the records; `pids` holds the PIDs of `processes`, position by position |
| Cwd.PidMarker | internal/detector/detector.go:278-283 | a marker is read only from a `p` line, by Atoi of the rest |
| Cwd.CwdStep | internal/detector/detector.go:277-291 | a bad `p` line keeps the state; a name line with no marker is ignored; every name line clears the marker; a new key is only the pending non-zero marker; stored values come from Abs |
| Cwd.CwdFoldAppend | internal/detector/detector.go:276-292 | scanning is line by line: scanning `a + b` is scanning `b` after `a` |
| Cwd.MarkedInExtends | internal/detector/detector.go:276-292 | a marker seen stays seen as lines are added |
| Cwd.CwdRecordsSound | internal/detector/detector.go:276-291 | after any prefix: no key 0, values from Abs, keys and pending marker named by `p` lines |
| Cwd.CwdRecordsKeys | internal/detector/detector.go:284-288 | a stored PID is non-zero and named by a `p` line, and its directory came from Abs |
| Cwd.SecondNameIgnored | internal/detector/detector.go:284-290 | a second name line with no new `p` line is ignored |
| Cwd.OrphanNameIgnored | internal/detector/detector.go:284 | a name line with no pending marker changes nothing |
| Cwd.BadMarkerKeepsPending | internal/detector/detector.go:279-283 | a `p` line that does not convert keeps the previous marker |
| Cwd.RecordMap | internal/detector/detector.go:273 | every key of the described map is a record's PID |
| Cwd.RecordStep | internal/detector/detector.go:276-291 | one record (p, f, n lines) stores its path's absolute form under its PID and leaves no marker |
| Cwd.CwdRecordsOfRecords | internal/detector/detector.go:273-291 | well-formed `-Fn` output is read back as the map its records describe |
| Cwd.FirstNameLine | internal/detector/detector.go:347-357 | the first line starting with 'n', and none before it |
| Cwd.ProcessCwd | internal/detector/detector.go:333-383 | an invalid PID fails with ValidatePID's error; on macOS a failed lsof call fails; a result is an Abs output |
| Cwd.ProcessCwdOfRecord | internal/detector/detector.go:339-357 | on macOS a one-record answer gives the absolute form of its path |
| Cwd.GetProcessCwd | internal/detector/detector.go:333-383 | the scanner loop returns what the first name line decides |
| Cwd.FallbackCwds | internal/detector/detector.go:321-331 | a PID is a key iff it is an input whose lookup succeeds non-empty, mapped to that directory |
| Cwd.ProcCwds | internal/detector/detector.go:293-316 | a PID is a key iff it is an input whose /proc link reads and makes absolute |
| Cwd.Cwds | internal/detector/detector.go:250-319 | no PIDs give the empty map; on macOS no key is 0; on Linux every key is an input PID |
| Cwd.FallbackResolvesEach | internal/detector/detector.go:268-271 | when the batch call fails, every PID whose own lookup succeeds still gets its directory |
| Cwd.FallbackGetCwds | internal/detector/detector.go:321-331 | the loop builds exactly the fallback map |
| Cwd.ScanCwdRecords | internal/detector/detector.go:273-292 | the scanner loop with its pending marker builds exactly the parsed map |
| Cwd.ReadProcCwds | internal/detector/detector.go:293-316 | the Linux loop builds exactly the /proc map |
| Cwd.BatchGetProcessCwds | internal/detector/detector.go:250-319 | the method returns the batch map for every platform and failure case |
| Correlation.Candidate | internal/detector/detector.go:118-148 | a server is built iff the process has a non-empty directory that both caches mark as a repository with git information; the server carries that information, the process's command and port, and PID 0 |
| Correlation.Correlate | internal/detector/detector.go:113-149 | no more servers than processes and no key twice |
| Correlation.CorrelateSound | internal/detector/detector.go:118-148 | every emitted server is the join of some collected process |
| Correlation.CorrelateGrows | internal/detector/detector.go:115-149 | output for a prefix of the processes is a prefix of the output |
| Correlation.KeysFromCandidates | internal/detector/detector.go:135-141 | every emitted key is some process's candidate key |
| Correlation.NoCandidateNoKey | internal/detector/detector.go:135-141 | a key no candidate has is never emitted |
| Correlation.CorrelateComplete | internal/detector/detector.go:135-148 | the key of every surviving process is emitted |
| Correlation.KeepsFirstOccurrence | internal/detector/detector.go:135-141 | the first process with a key is the one emitted |
| Correlation.KeyCollision | internal/detector/detector.go:136 | moving a '|' between repo and branch leaves the key unchanged |
| Correlation.ServerKeyFields | internal/detector/detector.go:136 | the key splits at '|' back into repository, branch, command and port text when the three strings hold no '|' |
| Correlation.ServerKeyInjective | internal/detector/detector.go:136 | with no '|' in the strings and ports within int64, equal keys come from equal values |
| Correlation.OnlyRepoDirectoryReported | internal/detector/detector.go:118-148 | of two processes, only the one in a repository is reported, with its repository and branch |
| Correlation.ForkedWorkersOneEntry | internal/detector/detector.go:135-141 | two workers with the same directory, command and port give one server |
| Correlation.RepeatCounts | internal/detector/detector.go:151-160 | a value at two positions occurs twice |
| Correlation.CountsRepeat | internal/detector/detector.go:151-160 | a value occurring twice sits at two positions |
| Correlation.UniqueKeysPermutation | internal/detector/detector.go:151-160 | reordering keeps keys unique |
| Correlation.BuildServers | internal/detector/detector.go:113-149 | the second-pass loop with its seen-set builds exactly the correlated list |
| Ordering.ServerLess | internal/detector/detector.go:152-160 | repository first, then branch: a server is never less than one with an earlier repository, or within one repository an earlier branch, and never less than itself |
| Ordering.ServerLessAsymmetric | internal/detector/detector.go:152-160 | the less function never holds both ways |
| Ordering.ServerLeTotal | internal/detector/detector.go:152-160 | any two servers can be placed one way or the other |
| Ordering.StrLeTransitive | internal/detector/detector.go:152-160 | "not less" on strings chains |
| Ordering.ServerLeTransitive | internal/detector/detector.go:152-160 | "may stand before" chains |
| Ordering.Swap | internal/detector/detector.go:151 | exchanges two cells and keeps the multiset |
| Ordering.SortServers | internal/detector/detector.go:151-160 | sorted by repo, then branch, then port, and a permutation of the input; nothing about stability |
| Detector.GitInfoOf | internal/detector/detector.go:417-439 | an invalid directory gives its base name and "N/A"; the name is "/" or one element; the branch is trimmed |
| Detector.CollectUniqueCwds | internal/detector/detector.go:92-98 | exactly the distinct non-empty directories |
| Detector.CollectRepoDirs | internal/detector/detector.go:103-109 | exactly the directories marked as repositories |
| Detector.BatchCheckGitRepos | internal/detector/detector.go:208-227 | one entry per input directory, each IsRepo's answer |
| Detector.BatchGetGitInfo | internal/detector/detector.go:229-248 | one entry per input directory, each its repository name and branch |
| Detector.JoinedReports | internal/detector/detector.go:118-148 | a server joined through the pipeline's caches reports IsRepo, GetRepoName and GetBranch of its directory |
| Detector.CachesForRepo | internal/detector/detector.go:92-112 | a repository directory of a process is in both git caches |
| Detector.PipelineSound | internal/detector/detector.go:37-149 | every server comes from a line that passes the first pass, and names that process's directory, repository, branch, command and port, with PID 0 |
| Detector.PipelineComplete | internal/detector/detector.go:37-149 | every collected process whose directory is a repository is reported, up to the dedup key |
| Detector.NonRepoContributesNothing | internal/detector/detector.go:124-127 | a directory that is not a repository yields no server |
| Detector.BranchFailureStillReported | internal/detector/detector.go:130-148 | a repository whose branch query fails is reported with branch "N/A" |
| Detector.SortedServers | internal/detector/detector.go:151-160 | the sort gives a sorted permutation |
| Detector.FindServers | internal/detector/detector.go:37-163 | an error exactly when lsof fails; otherwise a sorted permutation of the pipeline's servers, with unique keys and at most one server per collected process |

## Left out

- The commands themselves (`exec.Command` for lsof and git) are not modelled. Their outputs are oracle inputs in `Host.Host` and `Git.GitOracle`.
- The Linux `/proc/<pid>/cwd` path (`Lstat`, the symlink-mode test, `Readlink`) becomes one oracle, `Host.procCwd`. Every failure there is the same absence.
- `platform.IsMacOS`, which asks `os.Stat` about `/System/Library/CoreServices/Finder.app`, becomes the flag `Host.isMacOS`. The `os.Stat` of `ValidateDir` becomes `Platform.FileSystem.stat`.
- `platform.FileExists` is used only by `DetectProjectType` and is not part of this model.
- `filepath.Abs` becomes the oracle `Platform.FileSystem.abs`. A real Abs of an absolute path cannot fail and returns a clean path; the oracle does not enforce that.
- FilePath.JoinPath: states filepath.Join only for a clean directory without a trailing '/' (what Abs returns). It does not model Join's full path cleaning.
- Goroutines, `sync.Mutex` and `sync.WaitGroup` in `batchCheckGitRepos`, `batchGetGitInfo` and `getGitInfoParallel` are not modelled. Each goroutine writes only its own key before the barrier, so these are modelled as sequential loops over the input set. Go's map iteration order is replaced by an arbitrary choice.
- `log.Printf` calls are left out. They have no effect on results.
- `bufio.Scanner`'s 64 KiB token limit is left out. In Go, a longer line stops the scan early.
- `DetectProjectType` is not part of this model. It only feeds the table formatter.
- `internal/formatter/formatter.go` and `main.go` are not part of this model. They cover presentation, flags, help text, the profiling hook and the `exec.LookPath` check.
- Listing.ParseListenerLineRoundTrip: covers IPv4 and wildcard lines, where no ':' comes before the port, with exactly one space between the port and `(LISTEN)`, as lsof prints the NAME column. For an IPv6 address such as `[::1]:3000`, `Listing.ExtractPortOfBracketedListenLine` proves that the port is read back, but there is no whole-line round-trip lemma.
- Ordering.SortServers: states the result is sorted and a permutation, and nothing about which of two equal servers comes first. `sort.Slice` is not stable either.
- Extra unreachable branch: `len(parts) > 0` at internal/detector/detector.go:180 is always true, like `len(parts) == 0` at internal/git/git.go:48, because `strings.Split` never returns an empty slice. The model has no branch for either.
- Where the code's behaviour may surprise a reader, the model follows the code:
  - Ports are not bounded to 65535. Any port from 3000 up that Atoi accepts is kept.
  - The result order is not stable.
  - The dedup key is the formatted string, so two different tuples can share a key (`Correlation.KeyCollision`). The later one is then dropped.
  - A detached HEAD makes `git rev-parse --abbrev-ref HEAD` succeed with "HEAD", so the branch is "HEAD" rather than "N/A". The model takes whatever the oracle reports.
  - `lsof` exits non-zero when nothing is listening, so `FindServers` then returns an error rather than an empty list (`Host.listing` is `None`).
  - `Server.PID` is never set by the detector and stays 0.
