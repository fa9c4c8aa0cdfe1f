/**
 * The slice of Go's `strings`, `strconv` and `bufio` packages that the
 * discovery pipeline relies on, written over `string` (a sequence of code
 * points). Each function follows the library routine's documented behaviour
 * on the inputs the pipeline feeds it.
 */
module Text {
  import opened Wrappers

  // ---------------------------------------------------------------------------
  // Character classes
  // ---------------------------------------------------------------------------

  /** unicode.IsSpace: the separators used by strings.Fields and strings.TrimSpace. */
  predicate IsSpace(c: char) {
    c == '\t' || c == '\n' || c == '\U{B}' || c == '\U{C}' || c == '\r' || c == ' ' ||
    c == '\U{85}' || c == '\U{A0}' || c == '\U{1680}' ||
    ('\U{2000}' <= c <= '\U{200A}') ||
    c == '\U{2028}' || c == '\U{2029}' || c == '\U{202F}' || c == '\U{205F}' || c == '\U{3000}'
  }

  /** The RE2 class `\s`: exactly tab, newline, form feed, carriage return and space. */
  predicate IsRegexSpace(c: char) {
    c == '\t' || c == '\n' || c == '\U{C}' || c == '\r' || c == ' '
  }

  /** The RE2 class `\d` and the digits strconv accepts: ASCII 0-9 only. */
  predicate IsDigit(c: char) {
    '0' <= c <= '9'
  }

  predicate AllDigits(s: string) {
    forall i :: 0 <= i < |s| ==> IsDigit(s[i])
  }

  /** A non-empty run of characters none of which is a space: one element of strings.Fields. */
  predicate IsWord(w: string) {
    w != [] && forall i :: 0 <= i < |w| ==> !IsSpace(w[i])
  }

  // ---------------------------------------------------------------------------
  // Prefixes and suffixes
  // ---------------------------------------------------------------------------

  /** strings.HasPrefix. */
  predicate HasPrefix(s: string, prefix: string) {
    |prefix| <= |s| && s[..|prefix|] == prefix
  }

  /** The string starts with the prefix exactly when it agrees with it character by character. */
  lemma HasPrefixEach(s: string, prefix: string)
    ensures HasPrefix(s, prefix) <==> |prefix| <= |s| && forall i :: 0 <= i < |prefix| ==> s[i] == prefix[i]
  {
    if |prefix| <= |s| && forall i :: 0 <= i < |prefix| ==> s[i] == prefix[i] {
      assert s[..|prefix|] == prefix;
    }
  }

  predicate HasSuffix(s: string, suffix: string) {
    |suffix| <= |s| && s[|s| - |suffix|..] == suffix
  }

  /** strings.TrimPrefix. */
  function TrimPrefix(s: string, prefix: string): (r: string)
    ensures HasPrefix(s, prefix) ==> s == prefix + r
    ensures !HasPrefix(s, prefix) ==> r == s
  {
    if HasPrefix(s, prefix) then s[|prefix|..] else s
  }

  /** strings.TrimSuffix: removes one occurrence of the suffix, if present. */
  function TrimSuffix(s: string, suffix: string): (r: string)
    ensures HasSuffix(s, suffix) ==> s == r + suffix
    ensures !HasSuffix(s, suffix) ==> r == s
  {
    if HasSuffix(s, suffix) then s[..|s| - |suffix|] else s
  }

  lemma TrimSuffixOf(s: string, suffix: string)
    ensures TrimSuffix(s + suffix, suffix) == s
  {
    assert (s + suffix)[|s + suffix| - |suffix|..] == suffix;
    assert (s + suffix)[..|s|] == s;
  }

  // ---------------------------------------------------------------------------
  // strings.TrimSpace
  // ---------------------------------------------------------------------------

  function TrimLeftSpace(s: string): (r: string)
    ensures |r| <= |s|
    ensures forall i :: 0 <= i < |s| - |r| ==> IsSpace(s[i])
    ensures r != [] ==> !IsSpace(r[0])
  {
    if s != [] && IsSpace(s[0]) then TrimLeftSpace(s[1..]) else s
  }

  function TrimRightSpace(s: string): (r: string)
    ensures |r| <= |s|
    ensures forall i :: 0 <= i < |r| ==> r[i] == s[i]
    ensures forall i :: |r| <= i < |s| ==> IsSpace(s[i])
    ensures r != [] ==> !IsSpace(r[|r| - 1])
  {
    if s != [] && IsSpace(s[|s| - 1]) then
      var r := TrimRightSpace(s[..|s| - 1]);
      assert forall i :: 0 <= i < |r| ==> s[..|s| - 1][i] == s[i];
      r
    else s
  }

  /** strings.TrimSpace: the result neither starts nor ends with a space. */
  function TrimSpace(s: string): (r: string)
    ensures |r| <= |s|
    ensures r != [] ==> !IsSpace(r[0]) && !IsSpace(r[|r| - 1])
  {
    TrimRightSpace(TrimLeftSpace(s))
  }

  predicate AllSpace(s: string) {
    forall i :: 0 <= i < |s| ==> IsSpace(s[i])
  }

  predicate IsTrimmed(s: string) {
    s == [] || (!IsSpace(s[0]) && !IsSpace(s[|s| - 1]))
  }

  lemma {:induction false} TrimLeftSpacePadding(pre: string, rest: string)
    requires AllSpace(pre)
    requires rest == [] || !IsSpace(rest[0])
    ensures TrimLeftSpace(pre + rest) == rest
  {
    if pre != [] {
      assert (pre + rest)[1..] == pre[1..] + rest;
      TrimLeftSpacePadding(pre[1..], rest);
    }
  }

  lemma {:induction false} TrimRightSpacePadding(rest: string, post: string)
    requires AllSpace(post)
    requires rest == [] || !IsSpace(rest[|rest| - 1])
    ensures TrimRightSpace(rest + post) == rest
  {
    if post != [] {
      assert (rest + post)[..|rest + post| - 1] == rest + post[..|post| - 1];
      TrimRightSpacePadding(rest, post[..|post| - 1]);
    }
  }

  /** TrimSpace removes exactly the surrounding white space, whatever its length. */
  lemma TrimSpacePadding(pre: string, core: string, post: string)
    requires AllSpace(pre) && AllSpace(post) && IsTrimmed(core)
    ensures TrimSpace(pre + core + post) == core
  {
    assert pre + core + post == pre + (core + post);
    if core == [] {
      var padding := pre + post;
      assert pre + core + post == padding;
      assert AllSpace(padding) by {
        assert forall i :: 0 <= i < |padding| ==> padding[i] == if i < |pre| then pre[i] else post[i - |pre|];
      }
      TrimLeftSpaceAllSpace(padding);
    } else {
      TrimLeftSpacePadding(pre, core + post);
      TrimRightSpacePadding(core, post);
    }
  }

  lemma {:induction false} TrimLeftSpaceAllSpace(s: string)
    requires AllSpace(s)
    ensures TrimLeftSpace(s) == []
  {
    if s != [] {
      TrimLeftSpaceAllSpace(s[1..]);
    }
  }

  /** TrimSpace is idempotent. */
  lemma TrimSpaceIdempotent(s: string)
    ensures TrimSpace(TrimSpace(s)) == TrimSpace(s)
  {
    var t := TrimSpace(s);
    TrimSpacePadding([], t, []);
    assert [] + t + [] == t;
  }

  // ---------------------------------------------------------------------------
  // strings.Fields
  // ---------------------------------------------------------------------------

  /** Length of the leading run of non-space characters. */
  function WordLength(s: string): (n: nat)
    ensures n <= |s|
    ensures forall i :: 0 <= i < n ==> !IsSpace(s[i])
    ensures n < |s| ==> IsSpace(s[n])
  {
    if s == [] || IsSpace(s[0]) then 0 else 1 + WordLength(s[1..])
  }

  /** strings.Fields: the maximal runs of non-space characters, in order. */
  function Fields(s: string): (r: seq<string>)
    ensures forall i :: 0 <= i < |r| ==> IsWord(r[i])
    decreases |s|
  {
    var t := TrimLeftSpace(s);
    if t == [] then []
    else
      var n := WordLength(t);
      var w := t[..n];
      assert IsWord(w) by {
        assert forall i :: 0 <= i < |w| ==> w[i] == t[i];
      }
      var rest := Fields(t[n..]);
      assert forall i :: 0 <= i < |rest| + 1 ==> ([w] + rest)[i] == if i == 0 then w else rest[i - 1];
      [w] + rest
  }

  /** strings.Join. */
  function JoinWords(ws: seq<string>, sep: string): string
    decreases |ws|
  {
    if ws == [] then []
    else if |ws| == 1 then ws[0]
    else ws[0] + sep + JoinWords(ws[1..], sep)
  }

  lemma JoinWordsSnoc(ws: seq<string>, w: string, sep: string)
    requires ws != []
    ensures JoinWords(ws + [w], sep) == JoinWords(ws, sep) + sep + w
    decreases |ws|
  {
    if |ws| > 1 {
      assert (ws + [w])[1..] == ws[1..] + [w];
      JoinWordsSnoc(ws[1..], w, sep);
    }
  }

  lemma {:induction false} WordLengthOfWord(w: string, rest: string)
    requires IsWord(w)
    requires rest == [] || IsSpace(rest[0])
    ensures WordLength(w + rest) == |w|
    decreases |w|
  {
    if |w| > 1 {
      assert (w + rest)[1..] == w[1..] + rest;
      WordLengthOfWord(w[1..], rest);
    }
  }

  lemma FieldsOfWordThen(w: string, rest: string)
    requires IsWord(w)
    requires rest == [] || IsSpace(rest[0])
    ensures Fields(w + rest) == [w] + Fields(rest)
  {
    var s := w + rest;
    assert TrimLeftSpace(s) == s;
    WordLengthOfWord(w, rest);
    assert s[..|w|] == w;
    assert s[|w|..] == rest;
  }

  lemma FieldsAfterSpace(tail: string)
    ensures Fields(" " + tail) == Fields(tail)
  {
    assert (" " + tail)[1..] == tail;
    assert TrimLeftSpace(" " + tail) == TrimLeftSpace(tail);
  }

  lemma FieldsOfJoinStep(ws: seq<string>)
    requires |ws| > 1 && IsWord(ws[0])
    ensures Fields(JoinWords(ws, " ")) == [ws[0]] + Fields(JoinWords(ws[1..], " "))
  {
    var tail := JoinWords(ws[1..], " ");
    assert JoinWords(ws, " ") == ws[0] + (" " + tail);
    FieldsOfWordThen(ws[0], " " + tail);
    FieldsAfterSpace(tail);
  }

  lemma FieldsOfWord(w: string)
    requires IsWord(w)
    ensures Fields(w) == [w]
  {
    FieldsOfWordThen(w, []);
    assert w + [] == w;
  }

  /** A sequence is its head followed by its tail (stated apart to keep proofs small). */
  lemma HeadTail<T>(s: seq<T>, whole: seq<T>, tail: seq<T>)
    requires |s| > 0 && tail == s[1..] && whole == [s[0]] + tail
    ensures whole == s
  {
  }

  predicate AllWords(ws: seq<string>) {
    forall i :: 0 <= i < |ws| ==> IsWord(ws[i])
  }

  lemma AllWordsTail(ws: seq<string>)
    requires |ws| > 0 && AllWords(ws)
    ensures AllWords(ws[1..])
  {
    forall i | 0 <= i < |ws| - 1
      ensures IsWord(ws[1..][i])
    {
      assert ws[1..][i] == ws[i + 1];
    }
  }

  /** Fields splits a single-space-joined list of words back into those words. */
  lemma {:induction false} FieldsOfJoin(ws: seq<string>)
    requires AllWords(ws)
    ensures Fields(JoinWords(ws, " ")) == ws
    decreases |ws|
  {
    if |ws| == 1 {
      FieldsOfWord(ws[0]);
      HeadTail(ws, [ws[0]], []);
    } else if |ws| > 1 {
      var tail := ws[1..];
      AllWordsTail(ws);
      FieldsOfJoin(tail);
      FieldsOfJoinStep(ws);
      HeadTail(ws, [ws[0]] + tail, tail);
    }
  }

  /** A run of n spaces. */
  function Spaces(n: nat): (r: string)
    ensures |r| == n && forall i :: 0 <= i < n ==> r[i] == ' '
  {
    if n == 0 then [] else " " + Spaces(n - 1)
  }

  /**
   * Words laid out in columns: gaps[i] spaces stand before ws[i], as lsof pads
   * its columns to their widths.
   */
  function Padded(ws: seq<string>, gaps: seq<nat>): string
    requires |gaps| == |ws|
    decreases |ws|
  {
    if ws == [] then [] else Spaces(gaps[0]) + ws[0] + Padded(ws[1..], gaps[1..])
  }

  /** Every word but the first has at least one space before it. */
  predicate Separated(gaps: seq<nat>) {
    forall i :: 0 < i < |gaps| ==> gaps[i] >= 1
  }

  lemma {:induction false} FieldsAfterSpaces(n: nat, tail: string)
    ensures Fields(Spaces(n) + tail) == Fields(tail)
    decreases n
  {
    if n > 0 {
      assert Spaces(n) + tail == " " + (Spaces(n - 1) + tail);
      FieldsAfterSpace(Spaces(n - 1) + tail);
      FieldsAfterSpaces(n - 1, tail);
    } else {
      assert Spaces(n) + tail == tail;
    }
  }

  /** The first column of a padded layout is its first field. */
  lemma {:induction false} FieldsOfPaddedStep(ws: seq<string>, gaps: seq<nat>)
    requires |gaps| == |ws| > 0 && IsWord(ws[0])
    requires |ws| > 1 ==> gaps[1] >= 1
    ensures Fields(Padded(ws, gaps)) == [ws[0]] + Fields(Padded(ws[1..], gaps[1..]))
  {
    var rest := Padded(ws[1..], gaps[1..]);
    if |ws| > 1 {
      assert rest[0] == Spaces(gaps[1])[0];
    }
    assert Padded(ws, gaps) == Spaces(gaps[0]) + (ws[0] + rest);
    FieldsAfterSpaces(gaps[0], ws[0] + rest);
    FieldsOfWordThen(ws[0], rest);
  }

  /** Fields splits words laid out in padded columns back into those words. */
  lemma {:induction false} FieldsOfPadded(ws: seq<string>, gaps: seq<nat>)
    requires |gaps| == |ws| && AllWords(ws) && Separated(gaps)
    ensures Fields(Padded(ws, gaps)) == ws
    decreases |ws|
  {
    if ws != [] {
      var tail, tailGaps := ws[1..], gaps[1..];
      AllWordsTail(ws);
      assert Separated(tailGaps) by {
        forall i | 0 < i < |tailGaps|
          ensures tailGaps[i] >= 1
        {
          assert tailGaps[i] == gaps[i + 1];
        }
      }
      FieldsOfPadded(tail, tailGaps);
      FieldsOfPaddedStep(ws, gaps);
      HeadTail(ws, [ws[0]] + tail, tail);
    }
  }



  lemma {:induction false} PaddedSnoc(ws: seq<string>, gaps: seq<nat>, w: string, g: nat)
    requires |gaps| == |ws|
    ensures Padded(ws + [w], gaps + [g]) == Padded(ws, gaps) + Spaces(g) + w
    decreases |ws|
  {
    if ws == [] {
      assert Padded([w], [g]) == Spaces(g) + w + Padded([], []);
    } else {
      assert (ws + [w])[1..] == ws[1..] + [w];
      assert (gaps + [g])[1..] == gaps[1..] + [g];
      PaddedSnoc(ws[1..], gaps[1..], w, g);
    }
  }

  /** A padded layout is the layout of all but its last column, then that column's padding and word. */
  lemma {:induction false} PaddedLast(ws: seq<string>, gaps: seq<nat>)
    requires |gaps| == |ws| > 0
    ensures Padded(ws, gaps) == Padded(ws[..|ws| - 1], gaps[..|ws| - 1]) + Spaces(gaps[|ws| - 1]) + ws[|ws| - 1]
  {
    var n := |ws| - 1;
    assert ws == ws[..n] + [ws[n]];
    assert gaps == gaps[..n] + [gaps[n]];
    PaddedSnoc(ws[..n], gaps[..n], ws[n], gaps[n]);
  }

  /** A character that is not a space and occurs in no word does not occur in the layout. */
  lemma {:induction false} NoCharInPadded(ws: seq<string>, gaps: seq<nat>, c: char)
    requires |gaps| == |ws| && c != ' '
    requires forall i :: 0 <= i < |ws| ==> c !in ws[i]
    ensures c !in Padded(ws, gaps)
    decreases |ws|
  {
    if ws != [] {
      NoCharInPadded(ws[1..], gaps[1..], c);
      assert c !in Spaces(gaps[0]);
      assert c !in ws[0];
    }
  }

  // ---------------------------------------------------------------------------
  // strings.Split on a one-character separator
  // ---------------------------------------------------------------------------

  /** strings.Index for one character. */
  function IndexOf(s: string, c: char): (r: Option<nat>)
    ensures r.Some? ==> r.value < |s| && s[r.value] == c && c !in s[..r.value]
    ensures r.None? ==> c !in s
  {
    if s == [] then None
    else if s[0] == c then Some(0)
    else match IndexOf(s[1..], c)
      case None => None
      case Some(k) => Some(k + 1)
  }

  /**
   * strings.Split(s, sep) for a one-character sep: never empty (n separators give
   * n + 1 parts) and no part contains the separator.
   */
  function SplitOn(s: string, c: char): (parts: seq<string>)
    ensures |parts| >= 1
    ensures forall i :: 0 <= i < |parts| ==> c !in parts[i]
    decreases |s|
  {
    match IndexOf(s, c)
    case None => [s]
    case Some(k) => [s[..k]] + SplitOn(s[k + 1..], c)
  }

  /** strings.Join with a one-character separator. */
  function JoinOn(parts: seq<string>, c: char): string
    requires |parts| >= 1
    decreases |parts|
  {
    if |parts| == 1 then parts[0] else parts[0] + [c] + JoinOn(parts[1..], c)
  }

  lemma {:induction false} IndexOfAfter(p: string, rest: string, c: char)
    requires c !in p
    ensures IndexOf(p + [c] + rest, c) == Some(|p|)
    decreases |p|
  {
    if p != [] {
      assert (p + [c] + rest)[1..] == p[1..] + [c] + rest;
      IndexOfAfter(p[1..], rest, c);
    }
  }

  /** Joining the parts of a split gives back the original string. */
  lemma {:induction false} JoinOfSplit(s: string, c: char)
    ensures JoinOn(SplitOn(s, c), c) == s
    decreases |s|
  {
    match IndexOf(s, c)
    case None =>
    case Some(k) =>
      var tail := SplitOn(s[k + 1..], c);
      var parts := SplitOn(s, c);
      assert parts == [s[..k]] + tail;
      assert parts[1..] == tail;
      JoinOfSplit(s[k + 1..], c);
      calc {
        JoinOn(parts, c);
        s[..k] + [c] + JoinOn(tail, c);
        s[..k] + [c] + s[k + 1..];
        s;
      }
  }

  /** Splitting a join of separator-free parts gives back the parts. */
  lemma {:induction false} SplitOfJoin(parts: seq<string>, c: char)
    requires |parts| >= 1
    requires forall i :: 0 <= i < |parts| ==> c !in parts[i]
    ensures SplitOn(JoinOn(parts, c), c) == parts
    decreases |parts|
  {
    var s := JoinOn(parts, c);
    if |parts| == 1 {
      assert IndexOf(s, c).None?;
    } else {
      var p := parts[0];
      var rest := JoinOn(parts[1..], c);
      assert s == p + [c] + rest;
      IndexOfAfter(p, rest, c);
      assert s[..|p|] == p;
      assert s[|p| + 1..] == rest;
      SplitOfJoin(parts[1..], c);
    }
  }

  /** The last part of a split is what follows the last separator. */
  lemma LastOfSplit(prefix: string, name: string, c: char)
    requires c !in name
    ensures var parts := SplitOn(prefix + [c] + name, c); parts[|parts| - 1] == name
  {
    var head := SplitOn(prefix, c);
    JoinOfSplit(prefix, c);
    var parts := head + [name];
    assert JoinOn(parts, c) == prefix + [c] + name by {
      JoinOnSnoc(head, name, c);
    }
    SplitOfJoin(parts, c);
  }

  lemma {:induction false} JoinOnSnoc(parts: seq<string>, last: string, c: char)
    requires |parts| >= 1
    ensures JoinOn(parts + [last], c) == JoinOn(parts, c) + [c] + last
    decreases |parts|
  {
    if |parts| > 1 {
      assert (parts + [last])[1..] == parts[1..] + [last];
      JoinOnSnoc(parts[1..], last, c);
    }
  }

  // ---------------------------------------------------------------------------
  // bufio.Scanner with ScanLines
  // ---------------------------------------------------------------------------

  function DropCR(line: string): string {
    if line != [] && line[|line| - 1] == '\r' then line[..|line| - 1] else line
  }

  /**
   * The tokens bufio.ScanLines yields: text split at '\n', one trailing '\r'
   * dropped from each line, and a final unterminated line kept when non-empty.
   */
  function ScanLines(s: string): (lines: seq<string>)
    ensures forall i :: 0 <= i < |lines| ==> '\n' !in lines[i]
    decreases |s|
  {
    if s == [] then []
    else match IndexOf(s, '\n')
      case None => [DropCR(s)]
      case Some(k) => [DropCR(s[..k])] + ScanLines(s[k + 1..])
  }

  /** Newline-terminated text, as a command prints it. */
  function JoinLines(lines: seq<string>): string
    decreases |lines|
  {
    if lines == [] then [] else lines[0] + "\n" + JoinLines(lines[1..])
  }

  predicate IsPlainLine(line: string) {
    '\n' !in line && (line == [] || line[|line| - 1] != '\r')
  }

  /** The scanner yields back exactly the lines of newline-terminated text. */
  lemma {:induction false} ScanLinesOfJoin(lines: seq<string>)
    requires forall i :: 0 <= i < |lines| ==> IsPlainLine(lines[i])
    ensures ScanLines(JoinLines(lines)) == lines
    decreases |lines|
  {
    if lines != [] {
      var l := lines[0];
      var s := JoinLines(lines);
      var rest := JoinLines(lines[1..]);
      assert s == l + "\n" + rest;
      IndexOfAfter(l, rest, '\n');
      assert s[..|l|] == l;
      assert s[|l| + 1..] == rest;
      ScanLinesOfJoin(lines[1..]);
    }
  }

  // ---------------------------------------------------------------------------
  // strconv.Atoi and strconv.Itoa (64-bit int)
  // ---------------------------------------------------------------------------

  const MaxInt64: int := 0x7fff_ffff_ffff_ffff
  const MinInt64: int := -0x8000_0000_0000_0000

  function DigitsValue(s: string): nat
    requires AllDigits(s)
    decreases |s|
  {
    if s == [] then 0 else DigitsValue(s[..|s| - 1]) * 10 + (s[|s| - 1] as int - '0' as int)
  }

  /**
   * strconv.Atoi: an optional '+' or '-', then one or more ASCII digits, whose
   * value must fit in a 64-bit int; anything else is an error.
   */
  function Atoi(s: string): (r: Option<int>)
    ensures r.Some? ==> MinInt64 <= r.value <= MaxInt64
    ensures r.Some? ==> s != [] && (IsDigit(s[0]) || s[0] == '+' || s[0] == '-')
  {
    var signed := |s| > 0 && (s[0] == '+' || s[0] == '-');
    var digits := if signed then s[1..] else s;
    if digits == [] || !AllDigits(digits) then None
    else
      var magnitude: int := DigitsValue(digits);
      var v := if signed && s[0] == '-' then -magnitude else magnitude;
      if MinInt64 <= v <= MaxInt64 then Some(v) else None
  }

  function DigitChar(d: nat): (c: char)
    requires d < 10
    ensures IsDigit(c) && c as int - '0' as int == d
  {
    ('0' as int + d) as char
  }

  /** strconv.Itoa for a non-negative value: its shortest decimal digits. */
  function NatToString(n: nat): (r: string)
    ensures r != [] && AllDigits(r)
    ensures n > 0 ==> r[0] != '0'
    decreases n
  {
    if n < 10 then [DigitChar(n)] else NatToString(n / 10) + [DigitChar(n % 10)]
  }

  /** strconv.Itoa, and the `%d` verb of fmt. */
  function IntToString(i: int): string {
    if i < 0 then "-" + NatToString(-i) else NatToString(i)
  }

  /** Itoa writes digits only, after a '-' for a negative value. */
  lemma IntToStringDigits(i: int)
    ensures i >= 0 ==> AllDigits(IntToString(i)) && IntToString(i) != []
    ensures i < 0 ==> var r := IntToString(i); |r| >= 2 && r[0] == '-' && forall k :: 1 <= k < |r| ==> IsDigit(r[k])
  {
    if i < 0 {
      var digits := NatToString(-i);
      assert forall k :: 1 <= k < |digits| + 1 ==> ("-" + digits)[k] == digits[k - 1];
    }
  }

  lemma {:induction false} DigitsValueOfNatToString(n: nat)
    ensures DigitsValue(NatToString(n)) == n
    decreases n
  {
    var s := NatToString(n);
    if n >= 10 {
      assert s[..|s| - 1] == NatToString(n / 10);
      DigitsValueOfNatToString(n / 10);
    }
  }

  /** Atoi inverts Itoa on every value an int can hold. */
  lemma AtoiOfNatToString(n: nat)
    requires n <= MaxInt64
    ensures Atoi(NatToString(n)) == Some(n)
  {
    DigitsValueOfNatToString(n);
  }

  /** Atoi inverts Itoa on the whole int64 range, negative values included. */
  lemma AtoiOfIntToString(i: int)
    requires MinInt64 <= i <= MaxInt64
    ensures Atoi(IntToString(i)) == Some(i)
  {
    if i < 0 {
      var digits := NatToString(-i);
      DigitsValueOfNatToString(-i);
      assert ("-" + digits)[1..] == digits;
    } else {
      AtoiOfNatToString(i);
    }
  }

  // ---------------------------------------------------------------------------
  // Go's string ordering
  // ---------------------------------------------------------------------------

  /**
   * Go's `<` on strings: lexicographic order. Go compares UTF-8 bytes, and
   * UTF-8 byte order coincides with code-point order, so comparing code points
   * gives the same answer.
   */
  predicate StrLess(a: string, b: string)
    decreases |a|
  {
    if a == [] then b != []
    else if b == [] then false
    else if a[0] != b[0] then a[0] < b[0]
    else StrLess(a[1..], b[1..])
  }

  lemma {:induction false} StrLessIrreflexive(a: string)
    ensures !StrLess(a, a)
    decreases |a|
  {
    if a != [] {
      StrLessIrreflexive(a[1..]);
    }
  }

  /** Any two distinct strings are ordered one way, and never both ways. */
  lemma {:induction false} StrLessTotal(a: string, b: string)
    ensures a == b || StrLess(a, b) || StrLess(b, a)
    ensures !(StrLess(a, b) && StrLess(b, a))
    decreases |a|
  {
    if a != [] && b != [] && a[0] == b[0] {
      StrLessTotal(a[1..], b[1..]);
      if a[1..] == b[1..] {
        assert a == [a[0]] + a[1..] && b == [b[0]] + b[1..];
      }
    }
  }

  lemma {:induction false} StrLessTransitive(a: string, b: string, c: string)
    requires StrLess(a, b) && StrLess(b, c)
    ensures StrLess(a, c)
    decreases |a|
  {
    if a != [] && a[0] == b[0] && b[0] == c[0] {
      StrLessTransitive(a[1..], b[1..], c[1..]);
    }
  }
}
