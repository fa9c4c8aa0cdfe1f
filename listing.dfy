/**
 * The first pass of FindServers (internal/detector/detector.go): reading the
 * `lsof -iTCP -sTCP:LISTEN -n -P` listing line by line, extracting each
 * listener's port, keeping development ports only and collecting the
 * processes and their PIDs.
 */
module Listing {
  import opened Wrappers
  import opened Text
  import opened Platform

  /** processInfo: one listening socket of one process, before its directory is known. */
  datatype ProcessInfo = ProcessInfo(pid: int, command: string, port: int)

  // ---------------------------------------------------------------------------
  // isDevPort
  // ---------------------------------------------------------------------------

  /**
   * isDevPort: ports below 1024 are system ports, every port from 3000 up is a
   * development port, and between the two only 2000 is.
   */
  function IsDevPort(port: int): (r: bool)
    ensures r <==> port >= 3000 || port == 2000
    ensures port < 1024 ==> !r
    ensures 1024 <= port < 3000 && port != 2000 ==> !r
  {
    if port < 1024 then false
    else if port >= 3000 then true
    else if port == 2000 then true
    else false
  }

  // ---------------------------------------------------------------------------
  // The pattern `:(\d+)\s+\(LISTEN\)`
  // ---------------------------------------------------------------------------

  /** Length of the run of ASCII digits that starts at position p. */
  function DigitRun(line: string, p: nat): (n: nat)
    requires p <= |line|
    ensures p + n <= |line|
    ensures forall k :: p <= k < p + n ==> IsDigit(line[k])
    ensures p + n < |line| ==> !IsDigit(line[p + n])
    decreases |line| - p
  {
    if p < |line| && IsDigit(line[p]) then 1 + DigitRun(line, p + 1) else 0
  }

  /** Length of the run of `\s` characters that starts at position p. */
  function RegexSpaceRun(line: string, p: nat): (n: nat)
    requires p <= |line|
    ensures p + n <= |line|
    ensures forall k :: p <= k < p + n ==> IsRegexSpace(line[k])
    ensures p + n < |line| ==> !IsRegexSpace(line[p + n])
    decreases |line| - p
  {
    if p < |line| && IsRegexSpace(line[p]) then 1 + RegexSpaceRun(line, p + 1) else 0
  }

  /** The literal `(LISTEN)` occurs at position p. */
  predicate ListenAt(line: string, p: nat) {
    p + 8 <= |line| && line[p..p + 8] == "(LISTEN)"
  }

  /**
   * The digits the pattern captures when a match starts at position i. The
   * digit class and the space class are disjoint, so a match must take the
   * whole digit run and the whole space run that follow the colon.
   */
  function MatchAt(line: string, i: nat): (r: Option<string>)
    requires i <= |line|
    ensures r.Some? ==> r.value != [] && AllDigits(r.value)
  {
    if i < |line| && line[i] == ':' then
      var d := DigitRun(line, i + 1);
      var sp := RegexSpaceRun(line, i + 1 + d);
      if d > 0 && sp > 0 && ListenAt(line, i + 1 + d + sp) then
        var digits := line[i + 1..i + 1 + d];
        assert forall k :: 0 <= k < d ==> digits[k] == line[i + 1 + k];
        Some(digits)
      else None
    else None
  }

  /** FindStringSubmatch: the capture of the leftmost match at or after position i. */
  function FindListen(line: string, i: nat): (r: Option<string>)
    requires i <= |line|
    ensures r.Some? ==> r.value != [] && AllDigits(r.value)
    decreases |line| - i
  {
    if i == |line| then None
    else match MatchAt(line, i)
      case Some(digits) => Some(digits)
      case None => FindListen(line, i + 1)
  }

  /** Converting with Atoi, where a failure counts as port 0. */
  function AtoiOrZero(s: string): int {
    match Atoi(s)
    case Some(n) => n
    case None => 0
  }

  /** A non-zero result is exactly a successful conversion; a failed one gives 0. */
  lemma AtoiOrZeroOf(s: string)
    ensures Atoi(s).None? ==> AtoiOrZero(s) == 0
    ensures AtoiOrZero(s) != 0 ==> Atoi(s) == Some(AtoiOrZero(s))
    ensures MinInt64 <= AtoiOrZero(s) <= MaxInt64
  {
  }

  /**
   * extractPort: the digits of the leftmost `:<digits> (LISTEN)` when there is
   * one; otherwise, on a line with at least nine fields, the text after the
   * last ':' of the ninth field; any conversion failure gives 0.
   */
  function ExtractPort(line: string): (port: int)
    ensures FindListen(line, 0).Some? ==> port >= 0
    ensures FindListen(line, 0).None? && |Fields(line)| < 9 ==> port == 0
  {
    match FindListen(line, 0)
    case Some(digits) => AtoiOrZero(digits)
    case None =>
      var fields := Fields(line);
      if |fields| >= 9 then
        var parts := SplitOn(fields[8], ':');
        AtoiOrZero(parts[|parts| - 1])
      else 0
  }

  lemma {:induction false} FindListenSkips(line: string, i: nat, j: nat)
    requires i <= j <= |line|
    requires forall k :: i <= k < j ==> line[k] != ':'
    ensures FindListen(line, i) == FindListen(line, j)
    decreases j - i
  {
    if i < j {
      FindListenSkips(line, i + 1, j);
    }
  }

  /** A match needs the '(' of "(LISTEN)" somewhere on the line. */
  lemma MatchAtNeedsParen(line: string, i: nat)
    requires i <= |line|
    ensures MatchAt(line, i).Some? ==> '(' in line
  {
    if MatchAt(line, i).Some? {
      var d := DigitRun(line, i + 1);
      var marker := i + 1 + d + RegexSpaceRun(line, i + 1 + d);
      assert line[marker..marker + 8][0] == line[marker];
    }
  }

  lemma {:induction false} FindListenNoParen(line: string, i: nat)
    requires i <= |line|
    requires '(' !in line
    ensures FindListen(line, i).None?
    decreases |line| - i
  {
    if i < |line| {
      MatchAtNeedsParen(line, i);
      FindListenNoParen(line, i + 1);
    }
  }

  /** A colon, a digit run, a space run and `(LISTEN)` make a match that captures the digit run. */
  lemma MatchAtOf(line: string, i: nat, d: nat, sp: nat)
    requires i + 1 + d + sp + 8 <= |line| && line[i] == ':' && d > 0 && sp > 0
    requires forall k :: i + 1 <= k < i + 1 + d ==> IsDigit(line[k])
    requires forall k :: i + 1 + d <= k < i + 1 + d + sp ==> IsRegexSpace(line[k])
    requires !IsRegexSpace(line[i + 1 + d + sp])
    requires line[i + 1 + d + sp..i + 1 + d + sp + 8] == "(LISTEN)"
    ensures MatchAt(line, i) == Some(line[i + 1..i + 1 + d])
  {
    assert !IsDigit(line[i + 1 + d]);
    assert DigitRun(line, i + 1) == d;
    assert RegexSpaceRun(line, i + 1 + d) == sp;
  }

  /**
   * The converse of MatchAtOf: a match at i means the pattern occurs there, a
   * colon, the maximal digit run after it, a non-empty run of white space and
   * `(LISTEN)`, and the capture is exactly that digit run.
   */
  lemma {:induction false} MatchAtSound(line: string, i: nat, c: string)
    requires i <= |line| && MatchAt(line, i) == Some(c)
    ensures i < |line| && line[i] == ':'
    ensures |c| == DigitRun(line, i + 1)
    ensures line[i + 1..i + 1 + |c|] == c
    ensures RegexSpaceRun(line, i + 1 + |c|) > 0
    ensures ListenAt(line, i + 1 + |c| + RegexSpaceRun(line, i + 1 + |c|))
  {
    assert i < |line| && line[i] == ':';
    var d := DigitRun(line, i + 1);
    var sp := RegexSpaceRun(line, i + 1 + d);
    assert d > 0 && sp > 0 && ListenAt(line, i + 1 + d + sp);
    assert c == line[i + 1..i + 1 + d];
  }


  /** What lsof prints at the end of a listening socket's line. */
  lemma MatchAtListen(prefix: string, digits: string)
    requires digits != [] && AllDigits(digits)
    ensures var line := prefix + ":" + digits + " (LISTEN)";
            MatchAt(line, |prefix|) == Some(digits)
  {
    var line := prefix + ":" + digits + " (LISTEN)";
    var start := |prefix| + 1;
    var end := start + |digits|;
    assert line[|prefix|] == ':';
    assert forall k :: start <= k < end ==> line[k] == digits[k - start];
    assert line[end] == ' ' && line[end + 1] == '(';
    assert line[end + 1..end + 9] == "(LISTEN)";
    MatchAtOf(line, |prefix|, |digits|, 1);
    assert line[start..end] == digits;
  }

  /**
   * The port printed before " (LISTEN)" is the one extracted, provided no
   * colon precedes it on the line (an IPv4 or wildcard listener).
   */
  lemma ExtractPortOfListenLine(prefix: string, port: nat)
    requires ':' !in prefix
    requires port <= MaxInt64
    ensures ExtractPort(prefix + ":" + NatToString(port) + " (LISTEN)") == port
  {
    var digits := NatToString(port);
    var line := prefix + ":" + digits + " (LISTEN)";
    FindListenSkips(line, 0, |prefix|);
    MatchAtListen(prefix, digits);
    AtoiOfNatToString(port);
  }

  /** The search passes over any stretch of positions where no match starts. */
  lemma {:induction false} FindListenSkipsMisses(line: string, i: nat, j: nat)
    requires i <= j <= |line|
    requires forall k :: i <= k < j ==> MatchAt(line, k).None?
    ensures FindListen(line, i) == FindListen(line, j)
    decreases j - i
  {
    if i < j {
      FindListenSkipsMisses(line, i + 1, j);
    }
  }

  /**
   * No match starts inside a bracketed address: the digits after any of its
   * colons run into another address character or the closing ']', never
   * into white space.
   */
  lemma NoMatchInsideBrackets(line: string, k: nat, b: nat)
    requires k < b < |line| && line[b] == ']'
    requires forall t :: k < t < b ==> !IsRegexSpace(line[t])
    ensures MatchAt(line, k).None?
  {
    if line[k] == ':' {
      var d := DigitRun(line, k + 1);
      assert !IsDigit(line[b]);
      assert k + 1 + d <= b;
      assert !IsRegexSpace(line[k + 1 + d]);
    }
  }

  /** No match starts anywhere up to the ']' that closes a bracketed address. */
  lemma NoMatchBeforeBracketedPort(pre: string, addr: string, rest: string)
    requires ':' !in pre
    requires forall t :: 0 <= t < |addr| ==> !IsRegexSpace(addr[t])
    ensures var line := pre + "[" + addr + "]" + rest;
            forall k :: 0 <= k <= |pre| + 1 + |addr| ==> MatchAt(line, k).None?
  {
    var line := pre + "[" + addr + "]" + rest;
    var b := |pre| + 1 + |addr|;
    assert line[b] == ']';
    assert forall t :: |pre| + 1 <= t < b ==> line[t] == addr[t - |pre| - 1];
    forall k | 0 <= k <= b
      ensures MatchAt(line, k).None?
    {
      if k < |pre| {
        assert line[k] == pre[k];
      } else if k == |pre| {
        assert line[k] == '[';
      } else if k < b {
        NoMatchInsideBrackets(line, k, b);
      } else {
        assert line[k] == ']';
      }
    }
  }

  /** The leftmost match on an IPv6 listener's line is the one after the ']'. */
  lemma FindListenBracketed(pre: string, addr: string, digits: string)
    requires ':' !in pre
    requires forall t :: 0 <= t < |addr| ==> !IsRegexSpace(addr[t])
    requires digits != [] && AllDigits(digits)
    ensures FindListen(pre + "[" + addr + "]" + ":" + digits + " (LISTEN)", 0) == Some(digits)
  {
    var prefix := pre + "[" + addr + "]";
    var line := prefix + ":" + digits + " (LISTEN)";
    assert line == pre + "[" + addr + "]" + (":" + digits + " (LISTEN)");
    NoMatchBeforeBracketedPort(pre, addr, ":" + digits + " (LISTEN)");
    FindListenSkipsMisses(line, 0, |prefix|);
    MatchAtListen(prefix, digits);
  }

  /**
   * An IPv6 listener, printed as `[<address>]:<port> (LISTEN)`: the colons of
   * the address are passed over and the port is the one extracted.
   */
  lemma ExtractPortOfBracketedListenLine(pre: string, addr: string, port: nat)
    requires ':' !in pre
    requires forall t :: 0 <= t < |addr| ==> !IsRegexSpace(addr[t])
    requires port <= MaxInt64
    ensures ExtractPort(pre + "[" + addr + "]" + ":" + NatToString(port) + " (LISTEN)") == port
  {
    FindListenBracketed(pre, addr, NatToString(port));
    AtoiOfNatToString(port);
  }

  /** The IPv6 loopback listener `[::1]:<port> (LISTEN)`. */
  lemma ExtractPortOfLoopbackIPv6(pre: string, port: nat)
    requires ':' !in pre
    requires port <= MaxInt64
    ensures ExtractPort(pre + "[::1]:" + NatToString(port) + " (LISTEN)") == port
  {
    var digits := NatToString(port);
    assert "[::1]:" == "[" + "::1" + "]" + ":";
    assert pre + "[::1]:" + digits == pre + "[" + "::1" + "]" + ":" + digits;
    ExtractPortOfBracketedListenLine(pre, "::1", port);
  }

  /**
   * Without the LISTEN marker the port is read from the ninth field, after its
   * last colon, however the columns are padded.
   */
  lemma ExtractPortFromNinthField(fields: seq<string>, gaps: seq<nat>, host: string, port: nat)
    requires |fields| == 9 && AllWords(fields)
    requires |gaps| == 9 && Separated(gaps)
    requires fields[8] == host + ":" + NatToString(port)
    requires port <= MaxInt64
    requires '(' !in Padded(fields, gaps)
    ensures ExtractPort(Padded(fields, gaps)) == port
  {
    var line := Padded(fields, gaps);
    FindListenNoParen(line, 0);
    FieldsOfPadded(fields, gaps);
    assert ':' !in NatToString(port) by {
      var s := NatToString(port);
      assert forall i :: 0 <= i < |s| ==> IsDigit(s[i]);
    }
    assert fields[8] == host + [':'] + NatToString(port);
    LastOfSplit(host, NatToString(port), ':');
    AtoiOfNatToString(port);
  }

  // ---------------------------------------------------------------------------
  // One line of the listing
  // ---------------------------------------------------------------------------

  /** A process the first pass keeps: a non-zero development port and a PID ValidatePID accepts. */
  predicate IsDevListener(p: ProcessInfo) {
    p.port != 0 && IsDevPort(p.port) && ValidatePid(p.pid).Pass?
  }

  /**
   * The filter chain of the first pass for one line: the header and lines with
   * fewer than nine fields are skipped; then the port must be non-zero and a
   * development port, and the second field must convert to a valid PID.
   */
  function ParseListenerLine(line: string): (r: Option<ProcessInfo>)
    ensures HasPrefix(line, "COMMAND") ==> r.None?
    ensures |Fields(line)| < 9 ==> r.None?
    ensures r.Some? ==> IsDevListener(r.value)
    ensures r.Some? ==> r.value.command == Fields(line)[0] && Atoi(Fields(line)[1]) == Some(r.value.pid)
    ensures r.Some? ==> r.value.port == ExtractPort(line)
  {
    if HasPrefix(line, "COMMAND") then None
    else
      var fields := Fields(line);
      if |fields| < 9 then None
      else
        var port := ExtractPort(line);
        if port == 0 || !IsDevPort(port) then None
        else match Atoi(fields[1])
          case None => None
          case Some(pid) => if ValidatePid(pid).Fail? then None else Some(ProcessInfo(pid, fields[0], port))
  }

  /**
   * A line whose first word is not the header's is not the header, whatever
   * padding comes before that word and whatever white space after it.
   */
  lemma NotHeader(pad: nat, w: string, rest: string)
    requires IsWord(w) && !HasPrefix(w, "COMMAND")
    requires rest == [] || IsSpace(rest[0])
    ensures !HasPrefix(Spaces(pad) + w + rest, "COMMAND")
  {
    var line := Spaces(pad) + w + rest;
    var header := "COMMAND";
    assert forall k :: 0 <= k < |header| ==> !IsSpace(header[k]);
    if pad > 0 {
      assert line[0] == ' ';
    } else if |w| >= 7 {
      assert line[..7] == w[..7];
    } else if rest != [] {
      assert line[|w|] == rest[0];
    }
  }

  /**
   * The line lsof prints for nine padded columns: its NAME column holds the
   * address and port, one space and the LISTEN marker.
   */
  lemma ListenLineLayout(fields: seq<string>, gaps: seq<nat>, host: string, port: nat)
    requires |fields| == 9 && |gaps| == 10 && gaps[9] == 1
    requires fields[8] == host + ":" + NatToString(port)
    ensures Padded(fields + ["(LISTEN)"], gaps)
         == (Padded(fields[..8], gaps[..8]) + Spaces(gaps[8]) + host) + ":" + NatToString(port) + " (LISTEN)"
  {
    var all := fields + ["(LISTEN)"];
    var front := Padded(fields[..8], gaps[..8]) + Spaces(gaps[8]);
    var columns := Padded(fields, gaps[..9]);
    assert Padded(all, gaps) == columns + " (LISTEN)" by {
      PaddedLast(all, gaps);
      assert all[..9] == fields;
      assert Spaces(1) == " ";
    }
    assert columns == front + fields[8] by {
      PaddedLast(fields, gaps[..9]);
      assert gaps[..9][..8] == gaps[..8];
    }
    Regroup(front, host, NatToString(port), " (LISTEN)");
  }

  /** Concatenation regrouped, stated apart to keep the layout proof small. */
  lemma Regroup(front: string, host: string, digits: string, tail: string)
    ensures front + (host + ":" + digits) + tail == (front + host) + ":" + digits + tail
  {
  }



  lemma ListenWords(fields: seq<string>, gaps: seq<nat>)
    requires |fields| == 9 && AllWords(fields)
    requires |gaps| == 10 && Separated(gaps)
    ensures Fields(Padded(fields + ["(LISTEN)"], gaps)) == fields + ["(LISTEN)"]
  {
    var marker := "(LISTEN)";
    assert IsWord(marker) by {
      assert forall i :: 0 <= i < |marker| ==> !IsSpace(marker[i]);
    }
    assert AllWords(fields + [marker]);
    FieldsOfPadded(fields + [marker], gaps);
  }

  /**
   * A line laid out as lsof prints a listening IPv4 socket, its columns padded
   * to any widths, is read back as the process, PID and port it describes.
   */
  lemma ParseListenerLineRoundTrip(fields: seq<string>, gaps: seq<nat>, host: string, pid: nat, port: nat)
    requires |fields| == 9 && AllWords(fields)
    requires |gaps| == 10 && Separated(gaps) && gaps[9] == 1
    requires !HasPrefix(fields[0], "COMMAND")
    requires fields[1] == NatToString(pid) && ValidatePid(pid).Pass?
    requires fields[8] == host + ":" + NatToString(port)
    requires forall i :: 0 <= i < 8 ==> ':' !in fields[i]
    requires ':' !in host
    requires port <= MaxInt64 && IsDevPort(port)
    ensures ParseListenerLine(Padded(fields + ["(LISTEN)"], gaps)) == Some(ProcessInfo(pid, fields[0], port))
  {
    var all := fields + ["(LISTEN)"];
    var line := Padded(all, gaps);
    ListenLineLayout(fields, gaps, host, port);
    NoCharInPadded(fields[..8], gaps[..8], ':');
    var prefix := Padded(fields[..8], gaps[..8]) + Spaces(gaps[8]) + host;
    ExtractPortOfListenLine(prefix, port);
    assert ExtractPort(line) == port;
    ListenWords(fields, gaps);
    assert Fields(line) == all;
    var rest := Padded(all[1..], gaps[1..]);
    assert line == Spaces(gaps[0]) + all[0] + rest;
    assert rest[0] == Spaces(gaps[1])[0];
    NotHeader(gaps[0], fields[0], rest);
    AtoiOfNatToString(pid);
  }

  // ---------------------------------------------------------------------------
  // The whole listing
  // ---------------------------------------------------------------------------

  /** The processes the first pass collects from the listing's lines, in line order. */
  function ListenerRecords(lines: seq<string>): (procs: seq<ProcessInfo>)
    ensures |procs| <= |lines|
    ensures forall k :: 0 <= k < |procs| ==> IsDevListener(procs[k])
    decreases |lines|
  {
    if lines == [] then []
    else
      var prev := ListenerRecords(lines[..|lines| - 1]);
      match ParseListenerLine(lines[|lines| - 1])
      case None => prev
      case Some(p) => prev + [p]
  }

  /** The listing is read line by line: the records of two stretches of lines concatenate. */
  lemma {:induction false} ListenerRecordsAppend(a: seq<string>, b: seq<string>)
    ensures ListenerRecords(a + b) == ListenerRecords(a) + ListenerRecords(b)
    decreases |b|
  {
    if b == [] {
      assert a + b == a;
    } else {
      var b' := b[..|b| - 1];
      assert (a + b)[..|a + b| - 1] == a + b';
      assert (a + b)[|a + b| - 1] == b[|b| - 1];
      ListenerRecordsAppend(a, b');
    }
  }

  /** A line the filter rejects (the header, a short line, ...) adds nothing anywhere in the listing. */
  lemma SkippedLineAddsNothing(a: seq<string>, line: string, b: seq<string>)
    requires ParseListenerLine(line).None?
    ensures ListenerRecords(a + [line] + b) == ListenerRecords(a + b)
  {
    ListenerRecordsAppend(a + [line], b);
    ListenerRecordsAppend(a, [line]);
    ListenerRecordsAppend(a, b);
    assert [line][..0] == [];
  }

  /** Every collected process comes from some line of the listing. */
  lemma {:induction false} ListenerRecordsOrigin(lines: seq<string>, k: nat)
    requires k < |ListenerRecords(lines)|
    ensures exists j :: 0 <= j < |lines| && ParseListenerLine(lines[j]) == Some(ListenerRecords(lines)[k])
    decreases |lines|
  {
    var front := lines[..|lines| - 1];
    var last := |lines| - 1;
    var prev := ListenerRecords(front);
    var all := ListenerRecords(lines);
    if k < |prev| {
      assert all[k] == prev[k] by {
        match ParseListenerLine(lines[last])
        case None =>
        case Some(p) => assert all == prev + [p];
      }
      ListenerRecordsOrigin(front, k);
      var j :| 0 <= j < |front| && ParseListenerLine(front[j]) == Some(prev[k]);
      assert lines[j] == front[j];
    } else {
      assert ParseListenerLine(lines[last]) == Some(all[k]);
    }
  }

  /** The PIDs of the collected processes, in order. */
  function PidsOf(procs: seq<ProcessInfo>): (pids: seq<int>)
    ensures |pids| == |procs|
    ensures forall i :: 0 <= i < |procs| ==> pids[i] == procs[i].pid
    decreases |procs|
  {
    if procs == [] then [] else PidsOf(procs[..|procs| - 1]) + [procs[|procs| - 1].pid]
  }

  lemma PidsOfEach(procs: seq<ProcessInfo>, pids: seq<int>)
    requires |pids| == |procs|
    requires forall k :: 0 <= k < |pids| ==> pids[k] == procs[k].pid
    ensures pids == PidsOf(procs)
  {
  }


  /** The records one filtered line contributes. */
  function Emitted(parsed: Option<ProcessInfo>): seq<ProcessInfo> {
    if parsed.Some? then [parsed.value] else []
  }

  /** One more line extends the records by what that line contributes. */
  lemma ListenerRecordsSnoc(lines: seq<string>, i: nat)
    requires i < |lines|
    ensures ListenerRecords(lines[..i + 1]) == ListenerRecords(lines[..i]) + Emitted(ParseListenerLine(lines[i]))
  {
    var all := lines[..i + 1];
    assert all[..|all| - 1] == lines[..i];
    assert all[|all| - 1] == lines[i];
  }

  /**
   * The first-pass loop: each line goes through the filter chain of
   * ParseListenerLine, and the processes it appends are the listing's records,
   * with `pids` running parallel to `processes`.
   */
  method CollectListeners(lines: seq<string>) returns (processes: seq<ProcessInfo>, pids: seq<int>)
    ensures processes == ListenerRecords(lines)
    ensures pids == PidsOf(processes)
  {
    processes, pids := [], [];
    var i := 0;
    assert lines[..0] == [];
    while i < |lines|
      invariant 0 <= i <= |lines|
      invariant processes == ListenerRecords(lines[..i])
      invariant |pids| == |processes|
      invariant forall k :: 0 <= k < |pids| ==> pids[k] == processes[k].pid
    {
      var parsed := ParseListenerLine(lines[i]);
      assert ListenerRecords(lines[..i + 1]) == processes + Emitted(parsed) by {
        ListenerRecordsSnoc(lines, i);
      }
      if parsed.Some? {
        processes := processes + [parsed.value];
        pids := pids + [parsed.value.pid];
      }
      i := i + 1;
    }
    assert lines[..|lines|] == lines;
    assert pids == PidsOf(processes) by {
      PidsOfEach(processes, pids);
    }
  }

}
