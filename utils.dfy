/**
 * The two pure rules inside utils.py: `format_duration`, which renders a
 * number of seconds as "Ns", "Mm Ss" or "Hh Mm", and the retention rule of
 * `cleanup_old_files`, which picks the oldest files of a directory beyond
 * a maximum count. Decimal rendering follows Python's `str` of an `int`.
 */
module Utils {
  import opened Wrappers

  // ---------------------------------------------------------------------
  // Decimal numerals
  // ---------------------------------------------------------------------

  predicate IsDigit(ch: char) { '0' <= ch <= '9' }

  predicate AllDigits(s: string)
  {
    forall i :: 0 <= i < |s| ==> IsDigit(s[i])
  }

  function DigitChar(d: nat): (ch: char)
    requires d < 10
    ensures IsDigit(ch)
  {
    "0123456789"[d]
  }

  function DigitValue(ch: char): nat
    requires IsDigit(ch)
  {
    ch as int - '0' as int
  }

  lemma DigitRoundTrip(d: nat)
    requires d < 10
    ensures DigitValue(DigitChar(d)) == d
  {
  }

  /** Python's `str(n)` for a non-negative integer: no sign, no leading zero. */
  function NatToString(n: nat): (s: string)
    ensures s != [] && AllDigits(s)
    ensures s[0] == '0' <==> n == 0
    decreases n
  {
    if n < 10 then [DigitChar(n)] else NatToString(n / 10) + [DigitChar(n % 10)]
  }

  /** Python's `str(i)` for any integer. */
  function IntToString(i: int): string
  {
    if i < 0 then "-" + NatToString(-i) else NatToString(i)
  }

  /** The value of a string of decimal digits. */
  function ParseDigits(s: string): nat
    requires AllDigits(s)
    decreases |s|
  {
    if s == [] then 0 else 10 * ParseDigits(s[..|s| - 1]) + DigitValue(s[|s| - 1])
  }

  lemma {:induction false} ParseNatToString(n: nat)
    ensures ParseDigits(NatToString(n)) == n
    decreases n
  {
    var s := NatToString(n);
    if n < 10 {
      DigitRoundTrip(n);
    } else {
      assert s[..|s| - 1] == NatToString(n / 10);
      ParseNatToString(n / 10);
      DigitRoundTrip(n % 10);
    }
  }

  /** Length of the run of digits that starts `s`. */
  function DigitSpan(s: string): (k: nat)
    ensures k <= |s| && AllDigits(s[..k])
    ensures k < |s| ==> !IsDigit(s[k])
    decreases |s|
  {
    if s == [] || !IsDigit(s[0]) then 0
    else
      var k := 1 + DigitSpan(s[1..]);
      assert s[..k] == [s[0]] + s[1..][..k - 1];
      k
  }

  lemma {:induction false} DigitSpanOfNumeral(d: string, rest: string)
    requires AllDigits(d)
    requires rest == [] || !IsDigit(rest[0])
    ensures DigitSpan(d + rest) == |d|
    decreases |d|
  {
    if d != [] {
      assert (d + rest)[1..] == d[1..] + rest;
      DigitSpanOfNumeral(d[1..], rest);
    }
  }

  /** Reads a non-empty run of digits off the front of `s`. */
  function ParseNatPrefix(s: string): Option<(nat, string)>
  {
    var k := DigitSpan(s);
    if k == 0 then None else Some((ParseDigits(s[..k]), s[k..]))
  }

  /** Reads an optionally negative integer off the front of `s`. */
  function ParseIntPrefix(s: string): Option<(int, string)>
  {
    if s != [] && s[0] == '-' then
      match ParseNatPrefix(s[1..])
      case None => None
      case Some((n, rest)) => Some((-(n as int), rest))
    else
      match ParseNatPrefix(s)
      case None => None
      case Some((n, rest)) => Some((n, rest))
  }

  lemma NatPrefixRoundTrip(n: nat, rest: string)
    requires rest == [] || !IsDigit(rest[0])
    ensures ParseNatPrefix(NatToString(n) + rest) == Some((n, rest))
  {
    var d := NatToString(n);
    DigitSpanOfNumeral(d, rest);
    assert (d + rest)[..|d|] == d;
    assert (d + rest)[|d|..] == rest;
    ParseNatToString(n);
  }

  lemma IntPrefixRoundTrip(i: int, rest: string)
    requires rest == [] || !IsDigit(rest[0])
    ensures ParseIntPrefix(IntToString(i) + rest) == Some((i, rest))
  {
    if i < 0 {
      var n: nat := -i;
      assert IntToString(i) == "-" + NatToString(n);
      NegativePrefixRoundTrip(n, rest);
      assert -(n as int) == i;
    } else {
      assert IntToString(i) == NatToString(i);
      NonNegativePrefixRoundTrip(i, rest);
    }
  }

  lemma NegativePrefixRoundTrip(n: nat, rest: string)
    requires rest == [] || !IsDigit(rest[0])
    ensures ParseIntPrefix("-" + NatToString(n) + rest) == Some((-(n as int), rest))
  {
    var t := NatToString(n) + rest;
    var s := "-" + NatToString(n) + rest;
    assert s == "-" + t;
    assert s[1..] == t;
    NatPrefixRoundTrip(n, rest);
  }

  lemma NonNegativePrefixRoundTrip(n: nat, rest: string)
    requires rest == [] || !IsDigit(rest[0])
    ensures ParseIntPrefix(NatToString(n) + rest) == Some((n, rest))
  {
    var d := NatToString(n);
    assert (d + rest)[0] == d[0];
    assert IsDigit(d[0]);
    NatPrefixRoundTrip(n, rest);
  }

  // ---------------------------------------------------------------------
  // format_duration
  // ---------------------------------------------------------------------

  /** The fields `format_duration` prints, one shape per branch. */
  datatype Duration =
    | Seconds(secs: int)
    | MinutesSeconds(minutes: int, secs: int)
    | HoursMinutes(hours: int, minutes: int)

  /**
   * The branch and the integer division of `format_duration`: under a
   * minute the seconds themselves, under an hour whole minutes and the
   * remaining seconds, otherwise whole hours and the remaining whole
   * minutes (the leftover seconds are dropped).
   */
  function Split(seconds: int): (d: Duration)
    ensures seconds < 60 ==> d == Seconds(seconds)
    ensures 60 <= seconds < 3600 ==>
      d.MinutesSeconds? && 1 <= d.minutes <= 59 && 0 <= d.secs <= 59 && 60 * d.minutes + d.secs == seconds
    ensures 3600 <= seconds ==>
      d.HoursMinutes? && d.hours >= 1 && 0 <= d.minutes <= 59
      && 3600 * d.hours + 60 * d.minutes <= seconds < 3600 * d.hours + 60 * d.minutes + 60
  {
    if seconds < 60 then Seconds(seconds)
    else if seconds < 3600 then MinutesSeconds(seconds / 60, seconds % 60)
    else HoursMinutes(seconds / 3600, seconds % 3600 / 60)
  }

  function Render(d: Duration): string
  {
    match d
    case Seconds(s) => IntToString(s) + "s"
    case MinutesSeconds(m, s) => IntToString(m) + "m " + IntToString(s) + "s"
    case HoursMinutes(h, m) => IntToString(h) + "h " + IntToString(m) + "m"
  }

  /** `format_duration` for an integer number of seconds. */
  function FormatDuration(seconds: int): string
  {
    Render(Split(seconds))
  }

  /** Reads back a string in one of the three shapes `Render` produces. */
  function ParseDuration(s: string): Option<Duration>
  {
    match ParseIntPrefix(s)
    case None => None
    case Some((v, rest)) => ParseAfterFirstField(v, rest)
  }

  /** The part after the first number: `s`, `m <n>s` or `h <n>m`. */
  function ParseAfterFirstField(v: int, rest: string): Option<Duration>
  {
    if rest == "s" then Some(Seconds(v))
    else if |rest| < 2 then None
    else if rest[..2] == "m " then
      match ParseNatPrefix(rest[2..])
      case None => None
      case Some((w, tail)) => if tail == "s" then Some(MinutesSeconds(v, w)) else None
    else if rest[..2] == "h " then
      match ParseNatPrefix(rest[2..])
      case None => None
      case Some((w, tail)) => if tail == "m" then Some(HoursMinutes(v, w)) else None
    else None
  }

  /** The second field of the two-field shapes is never negative. */
  predicate Printable(d: Duration)
  {
    match d
    case Seconds(_) => true
    case MinutesSeconds(_, s) => s >= 0
    case HoursMinutes(_, m) => m >= 0
  }

  lemma RenderRoundTrip(d: Duration)
    requires Printable(d)
    ensures ParseDuration(Render(d)) == Some(d)
  {
    match d
    case Seconds(s) =>
      IntPrefixRoundTrip(s, "s");
    case MinutesSeconds(m, s) =>
      TwoFieldRoundTrip(m, s, "m ", "s");
    case HoursMinutes(h, m) =>
      TwoFieldRoundTrip(h, m, "h ", "m");
  }

  lemma TwoFieldRoundTrip(a: int, b: nat, sep: string, unit: string)
    requires (sep == "m " && unit == "s") || (sep == "h " && unit == "m")
    ensures ParseDuration(IntToString(a) + sep + IntToString(b) + unit) ==
      Some(if sep == "m " then MinutesSeconds(a, b) else HoursMinutes(a, b))
  {
    var rest := sep + NatToString(b) + unit;
    var text := IntToString(a) + sep + IntToString(b) + unit;
    assert text == IntToString(a) + rest;
    assert rest[0] == sep[0];
    IntPrefixRoundTrip(a, rest);
    assert ParseDuration(text) == ParseAfterFirstField(a, rest);
    SecondFieldRoundTrip(a, b, sep, unit);
  }

  /** The tail of the two-field shapes: `<sep><b><unit>`. */
  lemma SecondFieldRoundTrip(a: int, b: nat, sep: string, unit: string)
    requires (sep == "m " && unit == "s") || (sep == "h " && unit == "m")
    ensures ParseAfterFirstField(a, sep + NatToString(b) + unit) ==
      Some(if sep == "m " then MinutesSeconds(a, b) else HoursMinutes(a, b))
  {
    var digits := NatToString(b);
    var rest := sep + digits + unit;
    assert |rest| >= 4;
    assert rest[..2] == sep;
    assert rest[2..] == digits + unit;
    NatPrefixRoundTrip(b, unit);
  }

  /** The formatted text determines the branch and the printed fields. */
  lemma FormatDurationRoundTrip(seconds: int)
    ensures ParseDuration(FormatDuration(seconds)) == Some(Split(seconds))
  {
    RenderRoundTrip(Split(seconds));
  }

  /** Below one hour no two durations print the same. */
  lemma FormatDurationInjectiveBelowHour(a: int, b: int)
    requires a < 3600 && b < 3600
    requires FormatDuration(a) == FormatDuration(b)
    ensures a == b
  {
    FormatDurationRoundTrip(a);
    FormatDurationRoundTrip(b);
  }

  /** From one hour on, the seconds within the current minute do not show. */
  lemma HoursDropSeconds(seconds: int)
    requires seconds >= 3600
    ensures FormatDuration(seconds) == FormatDuration(seconds - seconds % 60)
  {
    var t := seconds - seconds % 60;
    assert t / 3600 == seconds / 3600;
    assert t % 3600 / 60 == seconds % 3600 / 60;
  }

  // ---------------------------------------------------------------------
  // cleanup_old_files: which files go
  // ---------------------------------------------------------------------

  /** A file matched by the glob, with its modification time. */
  datatype FileEntry = FileEntry(path: string, mtime: real)

  predicate SortedByMtime(s: seq<FileEntry>)
  {
    forall i, j :: 0 <= i < j < |s| ==> s[i].mtime <= s[j].mtime
  }

  /** Places `f` before the first entry that is not older than it. */
  function InsertByMtime(f: FileEntry, s: seq<FileEntry>): (r: seq<FileEntry>)
    ensures multiset(r) == multiset(s) + multiset{f}
    ensures forall x :: x in r ==> x == f || x in s
    decreases |s|
  {
    if s == [] || f.mtime <= s[0].mtime then [f] + s
    else
      assert s == [s[0]] + s[1..];
      [s[0]] + InsertByMtime(f, s[1..])
  }

  lemma HeadIsOldest(s: seq<FileEntry>)
    requires SortedByMtime(s) && s != []
    ensures forall y :: y in s ==> s[0].mtime <= y.mtime
  {
    forall y | y in s ensures s[0].mtime <= y.mtime {
      var k :| 0 <= k < |s| && s[k] == y;
      assert k == 0 || s[0].mtime <= s[k].mtime;
    }
  }

  lemma ConsSorted(x: FileEntry, t: seq<FileEntry>)
    requires SortedByMtime(t)
    requires forall y :: y in t ==> x.mtime <= y.mtime
    ensures SortedByMtime([x] + t)
  {
    var r := [x] + t;
    forall i, j | 0 <= i < j < |r| ensures r[i].mtime <= r[j].mtime {
      assert r[j] == t[j - 1];
      if i == 0 {
        assert r[j] in t;
      } else {
        assert r[i] == t[i - 1];
      }
    }
  }

  lemma {:induction false} InsertByMtimeSorted(f: FileEntry, s: seq<FileEntry>)
    requires SortedByMtime(s)
    ensures SortedByMtime(InsertByMtime(f, s))
    decreases |s|
  {
    if s == [] {
      ConsSorted(f, s);
    } else if f.mtime <= s[0].mtime {
      HeadIsOldest(s);
      ConsSorted(f, s);
    } else {
      var t := InsertByMtime(f, s[1..]);
      assert SortedByMtime(s[1..]) by {
        forall i, j | 0 <= i < j < |s| - 1 ensures s[1..][i].mtime <= s[1..][j].mtime {
          assert s[1..][i] == s[i + 1] && s[1..][j] == s[j + 1];
        }
      }
      InsertByMtimeSorted(f, s[1..]);
      HeadIsOldest(s);
      forall y | y in t ensures s[0].mtime <= y.mtime {
        assert y == f || y in s[1..];
        assert y == f || y in s;
      }
      ConsSorted(s[0], t);
    }
  }

  /** `files.sort(key=os.path.getmtime)`: a permutation of the input. */
  function SortByMtime(files: seq<FileEntry>): (r: seq<FileEntry>)
    ensures multiset(r) == multiset(files)
    decreases |files|
  {
    if files == [] then []
    else
      assert files == [files[0]] + files[1..];
      InsertByMtime(files[0], SortByMtime(files[1..]))
  }

  /** The sorted order is oldest first. */
  lemma {:induction false} SortByMtimeSorted(files: seq<FileEntry>)
    ensures SortedByMtime(SortByMtime(files))
    decreases |files|
  {
    if files != [] {
      SortByMtimeSorted(files[1..]);
      InsertByMtimeSorted(files[0], SortByMtime(files[1..]));
    }
  }

  function Min(a: int, b: int): int { if a <= b then a else b }
  function Max(a: int, b: int): int { if a >= b then a else b }

  /** Python's `s[:stop]`: a negative `stop` counts from the end, `s[:-0]` is `s[:0]`. */
  function SliceTo<T>(s: seq<T>, stop: int): seq<T>
  {
    s[..if stop >= 0 then Min(stop, |s|) else Max(|s| + stop, 0)]
  }

  /**
   * The files `cleanup_old_files` deletes: none when at most `maxFiles`
   * match; otherwise `files[:-maxFiles]` of the oldest-first order, which
   * is every file but the `maxFiles` newest for a positive `maxFiles`,
   * nothing for `maxFiles == 0` (Python's `[:-0]` is empty), and the
   * `-maxFiles` oldest for a negative one.
   */
  function FilesToRemove(files: seq<FileEntry>, maxFiles: int): (r: seq<FileEntry>)
    ensures |files| <= maxFiles || maxFiles == 0 ==> r == []
    ensures 1 <= maxFiles < |files| ==> |r| == |files| - maxFiles
    ensures maxFiles < 0 ==> |r| == Min(-maxFiles, |files|)
    ensures r == SortByMtime(files)[..|r|]
  {
    if |files| <= maxFiles then [] else SliceTo(SortByMtime(files), -maxFiles)
  }

  /**
   * What is removed and what stays split the matched files, and every
   * removed file is at least as old as every file that stays.
   */
  lemma RemovesOnlyOldest(files: seq<FileEntry>, maxFiles: int)
    ensures var r := FilesToRemove(files, maxFiles);
            var kept := SortByMtime(files)[|r|..];
            && multiset(r) + multiset(kept) == multiset(files)
            && (forall i, j :: 0 <= i < |r| && 0 <= j < |kept| ==> r[i].mtime <= kept[j].mtime)
            && (1 <= maxFiles < |files| ==> |kept| == maxFiles)
  {
    var sorted := SortByMtime(files);
    SortByMtimeSorted(files);
    var r := FilesToRemove(files, maxFiles);
    var kept := sorted[|r|..];
    assert sorted == r + kept;
    forall i, j | 0 <= i < |r| && 0 <= j < |kept|
      ensures r[i].mtime <= kept[j].mtime
    {
      assert r[i] == sorted[i] && kept[j] == sorted[|r| + j];
    }
  }

  function Paths(s: seq<FileEntry>): (r: seq<string>)
    ensures |r| == |s| && forall i :: 0 <= i < |s| ==> r[i] == s[i].path
  {
    seq(|s|, i requires 0 <= i < |s| => s[i].path)
  }

  /**
   * The deletion loop of `cleanup_old_files`: every selected file is tried
   * in turn, and a file whose removal fails is reported and skipped without
   * stopping the loop. `removeSucceeds` stands for `os.remove` not raising.
   */
  method CleanupOldFiles(directoryExists: bool, files: seq<FileEntry>, maxFiles: int,
                         removeSucceeds: string -> bool)
    returns (removed: seq<string>, failed: seq<string>)
    ensures !directoryExists ==> removed == [] && failed == []
    ensures directoryExists ==>
      multiset(removed) + multiset(failed) == multiset(Paths(FilesToRemove(files, maxFiles)))
    ensures forall p :: p in removed ==> removeSucceeds(p)
    ensures forall p :: p in failed ==> !removeSucceeds(p)
  {
    removed, failed := [], [];
    if !directoryExists {
      return;
    }
    var toRemove := FilesToRemove(files, maxFiles);
    for i := 0 to |toRemove|
      invariant multiset(removed) + multiset(failed) == multiset(Paths(toRemove[..i]))
      invariant forall p :: p in removed ==> removeSucceeds(p)
      invariant forall p :: p in failed ==> !removeSucceeds(p)
    {
      var p := toRemove[i].path;
      assert Paths(toRemove[..i + 1]) == Paths(toRemove[..i]) + [p];
      if removeSucceeds(p) {
        removed := removed + [p];
      } else {
        failed := failed + [p];
      }
    }
    assert toRemove[..|toRemove|] == toRemove;
  }
}
