/**
 * Working directories of the listening processes (internal/detector/detector.go):
 * batchGetProcessCWDs, its per-PID fallback fallbackGetCWDs, and getProcessCWD.
 */
module Cwd {
  import opened Wrappers
  import opened Text
  import opened Platform
  import opened Host

  // ---------------------------------------------------------------------------
  // The `p<pid>` / `n<path>` record stream of `lsof -Fn`
  // ---------------------------------------------------------------------------

  /** The PID a `p` line names, when the rest of the line converts with Atoi. */
  function PidMarker(line: string): (r: Option<int>)
    ensures r.Some? ==> HasPrefix(line, "p")
    ensures r.Some? ==> Atoi(line[1..]) == r
  {
    if HasPrefix(line, "p") then Atoi(TrimPrefix(line, "p")) else None
  }

  /** A line that carries a file name: it starts with 'n' (and so not with 'p'). */
  predicate IsNameLine(line: string) {
    HasPrefix(line, "n")
  }

  /** The scanner's state: the pending PID marker (0 when none) and the map built so far. */
  datatype CwdScan = CwdScan(currentPid: int, cwds: map<int, string>)

  /**
   * One line of the record stream. A `p` line whose number converts becomes the
   * pending marker; one that does not leaves everything as it was. A name line
   * while a marker is pending stores the path's absolute form under it (when
   * filepath.Abs succeeds) and clears the marker. Every other line is ignored.
   */
  function CwdStep(st: CwdScan, line: string, abs: map<string, string>): (r: CwdScan)
    ensures HasPrefix(line, "p") && PidMarker(line).None? ==> r == st
    ensures PidMarker(line).Some? ==> r.currentPid == PidMarker(line).value && r.cwds == st.cwds
    ensures IsNameLine(line) && st.currentPid == 0 ==> r == st
    ensures IsNameLine(line) ==> r.currentPid == 0
    ensures !HasPrefix(line, "p") && !IsNameLine(line) ==> r == st
    ensures forall p :: p in r.cwds && p !in st.cwds ==> p == st.currentPid && p != 0
    ensures forall p :: p in r.cwds ==> r.cwds[p] in abs.Values || (p in st.cwds && r.cwds[p] == st.cwds[p])
  {
    if HasPrefix(line, "p") then
      match PidMarker(line)
      case Some(pid) => CwdScan(pid, st.cwds)
      case None => st
    else if IsNameLine(line) && st.currentPid != 0 then
      var cwd := TrimPrefix(line, "n");
      if cwd in abs then CwdScan(0, st.cwds[st.currentPid := abs[cwd]])
      else CwdScan(0, st.cwds)
    else st
  }

  /** The state after scanning `lines` from `st`. */
  function CwdFold(st: CwdScan, lines: seq<string>, abs: map<string, string>): CwdScan
    decreases |lines|
  {
    if lines == [] then st
    else CwdStep(CwdFold(st, lines[..|lines| - 1], abs), lines[|lines| - 1], abs)
  }

  /** The state after scanning the whole output, from no marker and an empty map. */
  function CwdRecords(lines: seq<string>, abs: map<string, string>): CwdScan {
    CwdFold(CwdScan(0, map[]), lines, abs)
  }

  lemma {:induction false} CwdFoldAppend(st: CwdScan, a: seq<string>, b: seq<string>, abs: map<string, string>)
    ensures CwdFold(st, a + b, abs) == CwdFold(CwdFold(st, a, abs), b, abs)
    decreases |b|
  {
    if b == [] {
      assert a + b == a;
    } else {
      var b' := b[..|b| - 1];
      assert (a + b)[..|a + b| - 1] == a + b';
      assert (a + b)[|a + b| - 1] == b[|b| - 1];
      CwdFoldAppend(st, a, b', abs);
    }
  }

  /** Some `p` line of the output names `pid`. */
  predicate MarkedIn(lines: seq<string>, pid: int) {
    exists j :: 0 <= j < |lines| && PidMarker(lines[j]) == Some(pid)
  }

  /** What holds of the scanner after any prefix of the output. */
  predicate Sound(st: CwdScan, lines: seq<string>, abs: map<string, string>) {
    && 0 !in st.cwds
    && (forall p :: p in st.cwds ==> st.cwds[p] in abs.Values && MarkedIn(lines, p))
    && (st.currentPid != 0 ==> MarkedIn(lines, st.currentPid))
  }

  lemma MarkedInExtends(lines: seq<string>, line: string, pid: int)
    requires MarkedIn(lines, pid)
    ensures MarkedIn(lines + [line], pid)
  {
    var j :| 0 <= j < |lines| && PidMarker(lines[j]) == Some(pid);
    assert (lines + [line])[j] == lines[j];
  }

  lemma {:induction false} CwdRecordsSound(lines: seq<string>, abs: map<string, string>)
    ensures Sound(CwdRecords(lines, abs), lines, abs)
    decreases |lines|
  {
    if lines != [] {
      var front := lines[..|lines| - 1];
      var line := lines[|lines| - 1];
      assert lines == front + [line];
      CwdRecordsSound(front, abs);
      var prev := CwdRecords(front, abs);
      var st := CwdRecords(lines, abs);
      assert st == CwdStep(prev, line, abs);
      forall p | p in st.cwds
        ensures MarkedIn(lines, p)
      {
        if p in prev.cwds {
          MarkedInExtends(front, line, p);
        } else {
          MarkedInExtends(front, line, prev.currentPid);
        }
      }
      if st.currentPid != 0 {
        if PidMarker(line).Some? {
          assert PidMarker(lines[|lines| - 1]) == Some(st.currentPid);
        } else {
          MarkedInExtends(front, line, prev.currentPid);
        }
      }
    }
  }

  /**
   * The batch parse never stores under PID 0, stores only absolute paths
   * filepath.Abs produced, and stores only under PIDs some `p` line named.
   */
  lemma CwdRecordsKeys(lines: seq<string>, abs: map<string, string>, pid: int)
    requires pid in CwdRecords(lines, abs).cwds
    ensures pid != 0
    ensures CwdRecords(lines, abs).cwds[pid] in abs.Values
    ensures exists j :: 0 <= j < |lines| && PidMarker(lines[j]) == Some(pid)
  {
    CwdRecordsSound(lines, abs);
  }

  /** After a name line, a second name line with no `p` line between is ignored. */
  lemma SecondNameIgnored(lines: seq<string>, first: string, second: string, abs: map<string, string>)
    requires IsNameLine(first) && IsNameLine(second)
    ensures CwdRecords(lines + [first, second], abs) == CwdRecords(lines + [first], abs)
  {
    var st := CwdRecords(lines, abs);
    CwdFoldAppend(CwdScan(0, map[]), lines, [first, second], abs);
    CwdFoldAppend(CwdScan(0, map[]), lines, [first], abs);
    assert [first, second][..1] == [first];
    assert [first][..0] == [];
  }

  /** A name line with no marker pending changes nothing, wherever it appears. */
  lemma OrphanNameIgnored(lines: seq<string>, name: string, rest: seq<string>, abs: map<string, string>)
    requires IsNameLine(name) && CwdRecords(lines, abs).currentPid == 0
    ensures CwdRecords(lines + [name] + rest, abs) == CwdRecords(lines + rest, abs)
  {
    var init := CwdScan(0, map[]);
    CwdFoldAppend(init, lines + [name], rest, abs);
    CwdFoldAppend(init, lines, [name], abs);
    CwdFoldAppend(init, lines, rest, abs);
    assert [name][..0] == [];
  }

  /** A `p` line whose number does not convert keeps the pending marker. */
  lemma BadMarkerKeepsPending(lines: seq<string>, marker: string, abs: map<string, string>)
    requires HasPrefix(marker, "p") && PidMarker(marker).None?
    ensures CwdRecords(lines + [marker], abs) == CwdRecords(lines, abs)
  {
    CwdFoldAppend(CwdScan(0, map[]), lines, [marker], abs);
    assert [marker][..0] == [];
  }

  // ---------------------------------------------------------------------------
  // Well-formed output: one record per process
  // ---------------------------------------------------------------------------

  /** One process's record in `lsof -a -p <pids> -d cwd -Fn` output. */
  datatype CwdRecord = CwdRecord(pid: nat, path: string)

  /** The lines lsof prints for the records: the PID, the file descriptor ("cwd") and the name. */
  function RecordLines(recs: seq<CwdRecord>): seq<string>
    decreases |recs|
  {
    if recs == [] then []
    else
      var r := recs[|recs| - 1];
      RecordLines(recs[..|recs| - 1]) + ["p" + NatToString(r.pid), "fcwd", "n" + r.path]
  }

  /** The map the records describe: each PID to its path's absolute form, later records winning. */
  function RecordMap(recs: seq<CwdRecord>, abs: map<string, string>): (m: map<int, string>)
    ensures forall p :: p in m ==> exists i :: 0 <= i < |recs| && recs[i].pid == p
    decreases |recs|
  {
    if recs == [] then map[]
    else
      var r := recs[|recs| - 1];
      var m := RecordMap(recs[..|recs| - 1], abs);
      if r.path in abs then m[r.pid := abs[r.path]] else m
  }

  lemma RecordStep(st: CwdScan, r: CwdRecord, abs: map<string, string>)
    requires st.currentPid == 0 && 0 < r.pid <= MaxInt64
    ensures CwdFold(st, ["p" + NatToString(r.pid), "fcwd", "n" + r.path], abs)
         == CwdScan(0, if r.path in abs then st.cwds[r.pid := abs[r.path]] else st.cwds)
  {
    var lines := ["p" + NatToString(r.pid), "fcwd", "n" + r.path];
    var pl := lines[0];
    assert pl[..1] == "p";
    assert HasPrefix(pl, "p");
    assert TrimPrefix(pl, "p") == NatToString(r.pid);
    AtoiOfNatToString(r.pid);
    assert PidMarker(pl) == Some(r.pid);
    assert [pl][..0] == [];
    assert CwdFold(st, [pl], abs) == CwdStep(CwdFold(st, [], abs), pl, abs);
    var s1 := CwdFold(st, [pl], abs);
    assert s1 == CwdScan(r.pid, st.cwds);
    assert lines[..2][..1] == [pl];
    assert lines[..2][1] == "fcwd";
    var s2 := CwdFold(st, lines[..2], abs);
    assert s2 == CwdStep(s1, "fcwd", abs);
    assert s2 == s1;
    assert TrimPrefix(lines[2], "n") == r.path;
    assert IsNameLine(lines[2]) && !HasPrefix(lines[2], "p");
    assert CwdFold(st, lines, abs) == CwdStep(s2, lines[2], abs);
  }

  /** Well-formed output is read back as the map its records describe. */
  lemma {:induction false} CwdRecordsOfRecords(recs: seq<CwdRecord>, abs: map<string, string>)
    requires forall i :: 0 <= i < |recs| ==> 0 < recs[i].pid <= MaxInt64
    ensures CwdRecords(RecordLines(recs), abs) == CwdScan(0, RecordMap(recs, abs))
    decreases |recs|
  {
    if recs != [] {
      var front := recs[..|recs| - 1];
      var r := recs[|recs| - 1];
      CwdRecordsOfRecords(front, abs);
      CwdFoldAppend(CwdScan(0, map[]), RecordLines(front), ["p" + NatToString(r.pid), "fcwd", "n" + r.path], abs);
      RecordStep(CwdScan(0, RecordMap(front, abs)), r, abs);
    }
  }

  // ---------------------------------------------------------------------------
  // getProcessCWD
  // ---------------------------------------------------------------------------

  datatype CwdError =
    | InvalidPid(reason: PidError)
    | LsofFailed
    | NotAbsolute
    | NoProcLink
    | Undetermined

  /** The index of the first line that starts with 'n'. */
  function FirstNameLine(lines: seq<string>): (r: Option<nat>)
    ensures r.Some? ==> r.value < |lines| && IsNameLine(lines[r.value])
    ensures r.Some? ==> forall k :: 0 <= k < r.value ==> !IsNameLine(lines[k])
    ensures r.None? ==> forall k :: 0 <= k < |lines| ==> !IsNameLine(lines[k])
    decreases |lines|
  {
    if lines == [] then None
    else if IsNameLine(lines[0]) then Some(0)
    else match FirstNameLine(lines[1..])
      case None => None
      case Some(i) => Some(i + 1)
  }

  /**
   * getProcessCWD: the PID must pass ValidatePID. On macOS the first name line
   * of lsof's output gives the directory, made absolute; on Linux the target
   * of /proc/<pid>/cwd, made absolute.
   */
  function ProcessCwd(pid: int, host: Host): (r: Result<string, CwdError>)
    ensures ValidatePid(pid).Fail? ==> r == Err(InvalidPid(ValidatePid(pid).error))
    ensures r.Ok? ==> r.value in host.fs.abs.Values
    ensures host.isMacOS && ValidatePid(pid).Pass? && [pid] !in host.lsofCwd ==> r == Err(LsofFailed)
  {
    match ValidatePid(pid)
    case Fail(e) => Err(InvalidPid(e))
    case Pass =>
      if host.isMacOS then
        if [pid] !in host.lsofCwd then Err(LsofFailed)
        else
          var lines := ScanLines(host.lsofCwd[[pid]]);
          match FirstNameLine(lines)
          case None => Err(Undetermined)
          case Some(i) =>
            var cwd := TrimPrefix(lines[i], "n");
            if cwd in host.fs.abs then Ok(host.fs.abs[cwd]) else Err(NotAbsolute)
      else if pid !in host.procCwd then Err(NoProcLink)
      else if host.procCwd[pid] in host.fs.abs then Ok(host.fs.abs[host.procCwd[pid]])
      else Err(NotAbsolute)
  }

  /** On macOS a well-formed single record gives the absolute form of its path. */
  lemma ProcessCwdOfRecord(pid: nat, path: string, host: Host)
    requires host.isMacOS && 0 < pid <= MaxPid && path in host.fs.abs
    requires [pid] in host.lsofCwd && ScanLines(host.lsofCwd[[pid]]) == RecordLines([CwdRecord(pid, path)])
    ensures ProcessCwd(pid, host) == Ok(host.fs.abs[path])
  {
    var lines := RecordLines([CwdRecord(pid, path)]);
    assert [CwdRecord(pid, path)][..0] == [];
    assert lines == ["p" + NatToString(pid), "fcwd", "n" + path];
    assert !IsNameLine(lines[0]) && !IsNameLine(lines[1]) && IsNameLine(lines[2]);
    assert FirstNameLine(lines) == Some(2);
    assert TrimPrefix(lines[2], "n") == path;
  }

  /** getProcessCWD's scanner loop: the first name line decides. */
  method GetProcessCwd(pid: int, host: Host) returns (r: Result<string, CwdError>)
    ensures r == ProcessCwd(pid, host)
  {
    var valid := ValidatePid(pid);
    if valid.Fail? {
      return Err(InvalidPid(valid.error));
    }
    if host.isMacOS {
      if [pid] !in host.lsofCwd {
        return Err(LsofFailed);
      }
      var lines := ScanLines(host.lsofCwd[[pid]]);
      var i := 0;
      while i < |lines|
        invariant 0 <= i <= |lines|
        invariant forall k :: 0 <= k < i ==> !IsNameLine(lines[k])
      {
        var line := lines[i];
        if HasPrefix(line, "n") {
          var cwd := TrimPrefix(line, "n");
          if cwd !in host.fs.abs {
            return Err(NotAbsolute);
          }
          return Ok(host.fs.abs[cwd]);
        }
        i := i + 1;
      }
    } else {
      if pid !in host.procCwd {
        return Err(NoProcLink);
      }
      var cwd := host.procCwd[pid];
      if cwd !in host.fs.abs {
        return Err(NotAbsolute);
      }
      return Ok(host.fs.abs[cwd]);
    }
    return Err(Undetermined);
  }

  // ---------------------------------------------------------------------------
  // fallbackGetCWDs and batchGetProcessCWDs
  // ---------------------------------------------------------------------------

  /** fallbackGetCWDs: every PID whose lookup succeeds with a non-empty directory, mapped to it. */
  function FallbackCwds(pids: seq<int>, host: Host): (m: map<int, string>)
    ensures forall p :: p in m <==> p in pids && ProcessCwd(p, host).Ok? && ProcessCwd(p, host).value != ""
    ensures forall p :: p in m ==> m[p] == ProcessCwd(p, host).value
    decreases |pids|
  {
    if pids == [] then map[]
    else
      var m := FallbackCwds(pids[..|pids| - 1], host);
      var pid := pids[|pids| - 1];
      var r := ProcessCwd(pid, host);
      if r.Ok? && r.value != "" then m[pid := r.value] else m
  }

  /** The Linux branch: every PID whose /proc link reads and makes absolute, mapped to the result. */
  function ProcCwds(pids: seq<int>, host: Host): (m: map<int, string>)
    ensures forall p :: p in m <==> p in pids && p in host.procCwd && host.procCwd[p] in host.fs.abs
    ensures forall p :: p in m ==> m[p] == host.fs.abs[host.procCwd[p]]
    decreases |pids|
  {
    if pids == [] then map[]
    else
      var m := ProcCwds(pids[..|pids| - 1], host);
      var pid := pids[|pids| - 1];
      if pid in host.procCwd && host.procCwd[pid] in host.fs.abs then m[pid := host.fs.abs[host.procCwd[pid]]]
      else m
  }

  /**
   * batchGetProcessCWDs: nothing for no PIDs; on macOS the record parse of one
   * lsof call for all PIDs, or the per-PID fallback when that call fails; on
   * Linux the /proc links.
   */
  function Cwds(pids: seq<int>, host: Host): (m: map<int, string>)
    ensures pids == [] ==> m == map[]
    ensures host.isMacOS ==> 0 !in m
    ensures !host.isMacOS ==> forall p :: p in m ==> p in pids
  {
    if pids == [] then map[]
    else if host.isMacOS then
      if pids in host.lsofCwd then
        var recs := CwdRecords(ScanLines(host.lsofCwd[pids]), host.fs.abs).cwds;
        CwdRecordsSound(ScanLines(host.lsofCwd[pids]), host.fs.abs);
        recs
      else
        assert 0 !in FallbackCwds(pids, host) by {
          assert ValidatePid(0).Fail?;
        }
        FallbackCwds(pids, host)
    else ProcCwds(pids, host)
  }

  /**
   * When the combined lsof call fails, every PID whose own lookup succeeds
   * with a non-empty directory still gets that directory.
   */
  lemma FallbackResolvesEach(pids: seq<int>, host: Host, pid: int)
    requires host.isMacOS && pids != [] && pids !in host.lsofCwd
    requires pid in pids && ProcessCwd(pid, host).Ok? && ProcessCwd(pid, host).value != ""
    ensures pid in Cwds(pids, host) && Cwds(pids, host)[pid] == ProcessCwd(pid, host).value
  {
    assert Cwds(pids, host) == FallbackCwds(pids, host);
  }

  lemma FallbackCwdsSnoc(pids: seq<int>, i: nat, host: Host)
    requires i < |pids|
    ensures var r := ProcessCwd(pids[i], host);
            var prev := FallbackCwds(pids[..i], host);
            FallbackCwds(pids[..i + 1], host) == if r.Ok? && r.value != "" then prev[pids[i] := r.value] else prev
  {
    assert pids[..i + 1][..i] == pids[..i];
  }

  /** fallbackGetCWDs' loop. */
  method FallbackGetCwds(pids: seq<int>, host: Host) returns (cwdMap: map<int, string>)
    ensures cwdMap == FallbackCwds(pids, host)
  {
    cwdMap := map[];
    var i := 0;
    while i < |pids|
      invariant 0 <= i <= |pids|
      invariant cwdMap == FallbackCwds(pids[..i], host)
    {
      FallbackCwdsSnoc(pids, i, host);
      var pid := pids[i];
      var cwd := GetProcessCwd(pid, host);
      if cwd.Ok? && cwd.value != "" {
        cwdMap := cwdMap[pid := cwd.value];
      }
      i := i + 1;
    }
    assert pids[..|pids|] == pids;
  }

  lemma CwdRecordsSnoc(lines: seq<string>, i: nat, abs: map<string, string>)
    requires i < |lines|
    ensures CwdRecords(lines[..i + 1], abs) == CwdStep(CwdRecords(lines[..i], abs), lines[i], abs)
  {
    assert lines[..i + 1][..i] == lines[..i];
  }

  /** The record parse of batchGetProcessCWDs: a scanner loop with a pending marker. */
  method ScanCwdRecords(lines: seq<string>, abs: map<string, string>) returns (cwdMap: map<int, string>)
    ensures cwdMap == CwdRecords(lines, abs).cwds
  {
    cwdMap := map[];
    var currentPid := 0;
    var i := 0;
    while i < |lines|
      invariant 0 <= i <= |lines|
      invariant CwdScan(currentPid, cwdMap) == CwdRecords(lines[..i], abs)
    {
      var line := lines[i];
      CwdRecordsSnoc(lines, i, abs);
      if HasPrefix(line, "p") {
        var pid := Atoi(TrimPrefix(line, "p"));
        if pid.Some? {
          currentPid := pid.value;
        }
      } else if HasPrefix(line, "n") && currentPid != 0 {
        var cwd := TrimPrefix(line, "n");
        if cwd in abs {
          cwdMap := cwdMap[currentPid := abs[cwd]];
        }
        currentPid := 0;
      }
      i := i + 1;
    }
    assert lines[..|lines|] == lines;
  }

  lemma ProcCwdsSnoc(pids: seq<int>, i: nat, host: Host)
    requires i < |pids|
    ensures var pid := pids[i];
            var prev := ProcCwds(pids[..i], host);
            ProcCwds(pids[..i + 1], host)
              == if pid in host.procCwd && host.procCwd[pid] in host.fs.abs
                 then prev[pid := host.fs.abs[host.procCwd[pid]]] else prev
  {
    assert pids[..i + 1][..i] == pids[..i];
  }

  /** The Linux loop of batchGetProcessCWDs. */
  method ReadProcCwds(pids: seq<int>, host: Host) returns (cwdMap: map<int, string>)
    ensures cwdMap == ProcCwds(pids, host)
  {
    cwdMap := map[];
    var i := 0;
    while i < |pids|
      invariant 0 <= i <= |pids|
      invariant cwdMap == ProcCwds(pids[..i], host)
    {
      ProcCwdsSnoc(pids, i, host);
      var pid := pids[i];
      if pid in host.procCwd {
        var cwd := host.procCwd[pid];
        if cwd in host.fs.abs {
          cwdMap := cwdMap[pid := host.fs.abs[cwd]];
        }
      }
      i := i + 1;
    }
    assert pids[..|pids|] == pids;
  }

  /** batchGetProcessCWDs. */
  method BatchGetProcessCwds(pids: seq<int>, host: Host) returns (cwdMap: map<int, string>)
    ensures cwdMap == Cwds(pids, host)
  {
    if |pids| == 0 {
      return map[];
    }
    if host.isMacOS {
      if pids !in host.lsofCwd {
        cwdMap := FallbackGetCwds(pids, host);
        return;
      }
      var lines := ScanLines(host.lsofCwd[pids]);
      cwdMap := ScanCwdRecords(lines, host.fs.abs);
    } else {
      cwdMap := ReadProcCwds(pids, host);
    }
  }
}
